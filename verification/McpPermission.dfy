/**
 The sequential pieces of the permission path: the parked-request table of a run,
 the fail-closed socket round trip, and the JSON-RPC server the agent talks to.
 */
module McpPermission {
  import opened Outcomes
  import opened PermissionFlow

  // ------------------------------------------------------------- claudeRun.parked

  /** The parked requests of one run; a reply slot stands for the one-element channel. */
  class ParkedRequests {
    var parked: set<ToolUseId>
    var handlers: map<ToolUseId, Handler>

    ghost predicate Valid()
      reads this
    {
      forall id :: id in parked ==> id in handlers
    }

    constructor ()
      ensures Valid() && parked == {} && handlers == map[]
    {
      parked, handlers := {}, map[];
    }

    method ParkRequest(id: ToolUseId)
      requires Valid()
      modifies this
      ensures Valid()
      ensures parked == old(parked) + {id} && handlers == old(handlers)[id := Waiting(None)]
    {
      handlers := handlers[id := Waiting(None)];
      parked := parked + {id};
    }

    /** Hands a decision to the blocked request; false when nothing is parked under the id. */
    method ResolveParked(id: ToolUseId, d: Decision) returns (delivered: bool)
      requires Valid()
      modifies this
      ensures Valid()
      ensures delivered == (id in old(parked))
      ensures parked == old(parked) - {id}
      ensures handlers == if delivered then OfferTo(old(handlers), id, d) else old(handlers)
      ensures delivered && old(handlers)[id] == Waiting(None) ==> handlers[id] == Waiting(Some(d))
      ensures handlers.Keys == old(handlers).Keys && forall k :: k in handlers && k != id ==> handlers[k] == old(handlers)[k]
    {
      if id !in parked {
        return false;
      }
      if handlers[id] == Waiting(None) {
        handlers := handlers[id := Waiting(Some(d))];
      }
      parked := parked - {id};
      return true;
    }

    /** End of the run: every request still parked is denied, none is left. */
    method CleanupPermission()
      requires Valid()
      modifies this
      ensures Valid() && parked == {}
      ensures handlers == OfferAll(old(handlers), old(parked), RUN_ENDED)
      ensures forall id :: id in old(parked) && old(handlers)[id] == Waiting(None) ==> handlers[id] == Waiting(Some(RUN_ENDED))
    {
      var left := parked;
      while left != {}
        invariant left <= parked && parked == old(parked) && Valid()
        invariant handlers == OfferAll(old(handlers), parked - left, RUN_ENDED)
      {
        var id :| id in left;
        if handlers[id] == Waiting(None) {
          handlers := handlers[id := Waiting(Some(RUN_ENDED))];
        }
        left := left - {id};
      }
      parked := {};
    }
  }

  // ---------------------------------------------------------------- the socket

  /** How the steps of one round trip over the unix socket turn out. */
  datatype RoundTrip = RoundTrip(
    dialed: bool,
    deadlineSet: bool,
    marshalled: bool,
    written: bool,
    reply: Option<Option<Decision>>)   // None: read error; Some(None): not a reply

  /** Allow if and only if every step worked and the adapter's reply says so. */
  method DecideOverSocket(io: RoundTrip) returns (d: Decision)
    ensures d.allow <==> io.dialed && io.deadlineSet && io.marshalled && io.written
                         && io.reply.Some? && io.reply.value.Some? && io.reply.value.value.allow
    ensures !d.allow ==> d == FAIL_CLOSED || (io.reply.Some? && io.reply.value == Some(d))
  {
    if !io.dialed {
      return FAIL_CLOSED;
    }
    if !io.deadlineSet {
      return FAIL_CLOSED;
    }
    if !io.marshalled {
      return FAIL_CLOSED;
    }
    if !io.written {
      return FAIL_CLOSED;
    }
    match io.reply {
      case None => return FAIL_CLOSED;
      case Some(None) => return FAIL_CLOSED;
      case Some(Some(reply)) => return reply;
    }
  }

  // ------------------------------------------------------------ the JSON-RPC server

  /** The protocol version answered to a client that names none. */
  const PROTOCOL_VERSION: string := "2025-11-25"

  datatype Method = Initialize(version: string) | Initialized | ToolsList | ToolsCall(tool: string, input: string, toolUseId: ToolUseId) | Other(name: string)

  /** A line of input: blank, not JSON, or a request, whose id is raw JSON; without an id it is a notification. */
  datatype Line = Blank | Garbage | Request(id: Option<string>, call: Method)

  datatype Content = ServerInfo(version: string) | ToolList | Allow(updatedInput: string) | DenyWith(message: string) | Empty

  datatype Response = Response(id: Option<string>, content: Content)

  /** What the server is told to answer; an allow may replace the tool's input. */
  datatype Ruling = Ruling(allow: bool, message: string, updatedInput: Option<string>)

  type Decider = (string, string, ToolUseId) -> Ruling

  function ContentFor(call: Method, decide: Decider): Content {
    match call
    case Initialize(version) => ServerInfo(if version == "" then PROTOCOL_VERSION else version)
    case Initialized => Empty
    case ToolsList => ToolList
    case ToolsCall(tool, input, id) =>
      var d := decide(tool, input, id);
      if !d.allow then DenyWith(d.message) else Allow(if d.updatedInput.Some? then d.updatedInput.value else input)
    case Other(_) => Empty
  }

  /** Lines that get an answer: every well-formed request except notifications/initialized. */
  predicate Answerable(line: Line) {
    line.Request? && line.call != Initialized
  }

  function Answerables(lines: seq<Line>): seq<Line> {
    if lines == [] then []
    else Answerables(lines[..|lines| - 1]) + (if Answerable(lines[|lines| - 1]) then [lines[|lines| - 1]] else [])
  }

  /**
   One response per answerable line, in order, each with the id of its request; a
   tool call is allowed exactly when the decision allows it, and then with its own input
   unless the decision brings another.
   */
  method Serve(lines: seq<Line>, decide: Decider) returns (out: seq<Response>)
    ensures |out| == |Answerables(lines)|
    ensures forall i :: 0 <= i < |out| ==> Answerables(lines)[i].Request? && out[i].id == Answerables(lines)[i].id
    ensures forall i :: 0 <= i < |out| && Answerables(lines)[i].call.ToolsCall? ==>
              var call := Answerables(lines)[i].call;
              var d := decide(call.tool, call.input, call.toolUseId);
              (out[i].content.Allow? <==> d.allow)
              && (out[i].content.Allow? && d.updatedInput == None ==> out[i].content.updatedInput == call.input)
              && (out[i].content.Allow? && d.updatedInput.Some? ==> out[i].content.updatedInput == d.updatedInput.value)
              && (!out[i].content.Allow? ==> out[i].content == DenyWith(d.message))
    ensures forall i :: 0 <= i < |out| ==>
              match Answerables(lines)[i].call
              case Initialize(version) => out[i].content == ServerInfo(if version == "" then "2025-11-25" else version)
              case ToolsList => out[i].content == ToolList
              case Other(_) => out[i].content == Empty
              case _ => Answerables(lines)[i].call.ToolsCall?
  {
    out := [];
    for k := 0 to |lines|
      invariant |out| == |Answerables(lines[..k])|
      invariant forall i :: 0 <= i < |out| ==>
                  Answerable(Answerables(lines[..k])[i])
                  && out[i] == Response(Answerables(lines[..k])[i].id, ContentFor(Answerables(lines[..k])[i].call, decide))
    {
      assert lines[..k + 1][..k] == lines[..k] && lines[..k + 1][k] == lines[k];
      match lines[k] {
        case Blank =>
        case Garbage =>
        case Request(id, call) =>
          match call {
            case Initialized =>
            case Initialize(version) =>
              var protocol := version;
              if protocol == "" {
                protocol := PROTOCOL_VERSION;
              }
              out := out + [Response(id, ServerInfo(protocol))];
            case ToolsList => out := out + [Response(id, ToolList)];
            case ToolsCall(tool, input, toolUseId) =>
              var d := decide(tool, input, toolUseId);
              var content := DenyWith(d.message);
              if d.allow {
                var updated := d.updatedInput;
                if updated == None {
                  updated := Some(input);
                }
                content := Allow(updated.value);
              }
              out := out + [Response(id, content)];
            case Other(_) => out := out + [Response(id, Empty)];
          }
      }
    }
    assert lines[..|lines|] == lines;
  }

  /** Every request but notifications/initialized is answered, once, in the order of the input; no other line is. */
  lemma {:induction false} EveryRequestOnce(lines: seq<Line>) returns (from: seq<nat>)
    ensures |from| == |Answerables(lines)|
    ensures forall i :: 0 <= i < |from| ==> from[i] < |lines| && Answerables(lines)[i] == lines[from[i]]
    ensures forall i, j :: 0 <= i < j < |from| ==> from[i] < from[j]
    ensures forall k: nat :: k < |lines| ==> (k in from <==> lines[k].Request? && lines[k].call != Initialized)
  {
    from := [];
    if lines != [] {
      var k := |lines| - 1;
      from := EveryRequestOnce(lines[..k]);
      if Answerable(lines[k]) {
        from := from + [k];
      }
    }
  }

  /**
   A request without an id is a notification and must not be answered (JSON-RPC 2.0,
   section 4.1). The server keeps to that exactly on inputs whose notifications are all
   notifications/initialized.
   */
  lemma {:induction false} NotificationsAnswered(lines: seq<Line>)
    ensures (forall l :: l in Answerables(lines) ==> l.Request? && l.id.Some?)
            <==> (forall l :: l in lines && l.Request? && l.id == None ==> l.call == Initialized)
  {
    if lines != [] {
      var init, last := lines[..|lines| - 1], lines[|lines| - 1];
      NotificationsAnswered(init);
      assert lines == init + [last];
      assert last in lines;
      assert Answerable(last) ==> last in Answerables(lines);
      assert forall l :: l in Answerables(init) ==> l in Answerables(lines);
      OnlyRequests(init);
    }
  }

  lemma {:induction false} OnlyRequests(lines: seq<Line>)
    ensures forall l :: l in Answerables(lines) ==> l in lines && Answerable(l)
  {
    if lines != [] {
      OnlyRequests(lines[..|lines| - 1]);
    }
  }
}
