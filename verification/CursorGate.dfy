/**
 The client side of event synchronisation: the per-session cursor of the
 Android client and the gate that applies an event only when it is the next one.
 */
module CursorGate {
  import opened Outcomes

  type SessionId = string
  type Body = string

  /** What travels over the socket: journal events, resync notices, other control frames. */
  datatype Envelope =
    | Event(session: SessionId, sequence: nat, body: Body)
    | Resync(session: SessionId, after: nat)
    | Control(name: string)

  predicate Concerns(e: Envelope, sid: SessionId) {
    e.Event? && e.session == sid
  }

  /** Events lo+1 .. hi of a session journal, as the envelopes that carry them. */
  function Page(sid: SessionId, journal: seq<Body>, lo: nat, hi: nat): (page: seq<Envelope>)
    requires lo <= hi <= |journal|
    ensures |page| == hi - lo
    ensures forall i :: 0 <= i < |page| ==> page[i] == Event(sid, lo + i + 1, journal[lo + i])
  {
    seq(hi - lo, i requires 0 <= i < hi - lo => Event(sid, lo + i + 1, journal[lo + i]))
  }

  /** What one envelope does to the cursor of session sid. */
  function Admit(c: nat, sid: SessionId, e: Envelope): nat {
    if Concerns(e, sid) && e.sequence == c + 1 then c + 1 else c
  }

  /** The cursor of session sid after a whole stream has passed the gate. */
  function Gate(c: nat, sid: SessionId, stream: seq<Envelope>): nat
    decreases |stream|
  {
    if stream == [] then c else Gate(Admit(c, sid, stream[0]), sid, stream[1..])
  }

  /** Every event of sid in the stream carries a sequence in (lo, hi]. */
  ghost predicate Within(stream: seq<Envelope>, sid: SessionId, lo: int, hi: int) {
    forall e :: e in stream && Concerns(e, sid) ==> lo < e.sequence <= hi
  }

  // ---------------------------------------------------------------- the gate as a fold

  lemma {:induction false} GateConcat(c: nat, sid: SessionId, a: seq<Envelope>, b: seq<Envelope>)
    ensures Gate(c, sid, a + b) == Gate(Gate(c, sid, a), sid, b)
    decreases |a|
  {
    if a == [] {
      assert a + b == b;
    } else {
      assert (a + b)[1..] == a[1..] + b;
      GateConcat(Admit(c, sid, a[0]), sid, a[1..], b);
    }
  }

  /** A client that is further ahead never ends up further behind. */
  lemma {:induction false} GateMonotone(c: nat, d: nat, sid: SessionId, stream: seq<Envelope>)
    requires c <= d
    ensures Gate(c, sid, stream) <= Gate(d, sid, stream)
    decreases |stream|
  {
    if stream != [] {
      GateMonotone(Admit(c, sid, stream[0]), Admit(d, sid, stream[0]), sid, stream[1..]);
    }
  }

  lemma {:induction false} GateBounds(c: nat, sid: SessionId, stream: seq<Envelope>, lo: int, hi: nat)
    requires Within(stream, sid, lo, hi)
    ensures c <= Gate(c, sid, stream) <= Max(c, hi)
    decreases |stream|
  {
    if stream != [] {
      GateBounds(Admit(c, sid, stream[0]), sid, stream[1..], lo, hi);
    }
  }

  /** Events that start beyond the next expected one are all rejected. */
  lemma {:induction false} GateSkips(c: nat, sid: SessionId, stream: seq<Envelope>)
    requires forall e :: e in stream && Concerns(e, sid) ==> c + 1 < e.sequence
    ensures Gate(c, sid, stream) == c
    decreases |stream|
  {
    if stream != [] {
      GateSkips(c, sid, stream[1..]);
    }
  }

  /** A retained page carries any cursor inside it to the end of the page. */
  lemma {:induction false} GatePage(c: nat, sid: SessionId, journal: seq<Body>, lo: nat, hi: nat)
    requires lo <= hi <= |journal| && lo <= c
    ensures Gate(c, sid, Page(sid, journal, lo, hi)) == Max(c, hi)
    decreases hi - lo
  {
    if lo < hi {
      var page := Page(sid, journal, lo, hi);
      assert page[1..] == Page(sid, journal, lo + 1, hi);
      GatePage(Admit(c, sid, page[0]), sid, journal, lo + 1, hi);
    }
  }

  /** Envelopes of other sessions may sit anywhere in a stream without effect. */
  lemma GateForeign(c: nat, sid: SessionId, a: seq<Envelope>, e: Envelope, b: seq<Envelope>)
    requires !Concerns(e, sid)
    ensures Gate(c, sid, a + [e] + b) == Gate(c, sid, a + b)
  {
    GateConcat(c, sid, a + [e], b);
    GateConcat(c, sid, a, [e]);
    GateConcat(c, sid, a, b);
    assert [e][1..] == [];
  }

  // ---------------------------------------------------------------- CursorStore.kt

  /** The in-memory cursor store; absent sessions are at 0. */
  class CursorStore {
    var cursors: map<SessionId, nat>

    constructor ()
      ensures cursors == map[]
    {
      cursors := map[];
    }

    function Get(sid: SessionId): nat
      reads this
    {
      if sid in cursors then cursors[sid] else 0
    }

    method AdvanceIfContiguous(sid: SessionId, sequence: nat) returns (advanced: bool)
      modifies this
      ensures advanced <==> sequence == old(Get(sid)) + 1
      ensures advanced ==> cursors == old(cursors)[sid := sequence]
      ensures !advanced ==> cursors == old(cursors)
    {
      var current := Get(sid);
      if sequence != current + 1 {
        return false;
      }
      cursors := cursors[sid := sequence];
      return true;
    }

    method Set(sid: SessionId, sequence: nat)
      modifies this
      ensures cursors == old(cursors)[sid := sequence]
    {
      cursors := cursors[sid := sequence];
    }

    method Forget(sid: SessionId)
      modifies this
      ensures cursors == old(cursors) - {sid}
    {
      cursors := cursors - {sid};
    }
  }

  // ---------------------------------------------------------------- CarWsClient.kt

  /** The events the gate lets through, in order, starting from cursor c. */
  function Admitted(c: nat, sid: SessionId, stream: seq<Envelope>): seq<Envelope>
    decreases |stream|
  {
    if stream == [] then []
    else if Admit(c, sid, stream[0]) == c then Admitted(c, sid, stream[1..])
    else [stream[0]] + Admitted(c + 1, sid, stream[1..])
  }

  function IfConcerns(sid: SessionId, e: Envelope): seq<Envelope> {
    if Concerns(e, sid) then [e] else []
  }

  function OfSession(sid: SessionId, events: seq<Envelope>): seq<Envelope> {
    if events == [] then []
    else IfConcerns(sid, events[0]) + OfSession(sid, events[1..])
  }

  lemma {:induction false} OfSessionConcat(sid: SessionId, a: seq<Envelope>, b: seq<Envelope>)
    ensures OfSession(sid, a + b) == OfSession(sid, a) + OfSession(sid, b)
  {
    if a == [] {
      assert a + b == b;
    } else {
      assert (a + b)[1..] == a[1..] + b;
      OfSessionConcat(sid, a[1..], b);
      Regroup(IfConcerns(sid, a[0]), OfSession(sid, a[1..]), OfSession(sid, b));
    }
  }

  lemma {:induction false} AdmittedConcat(c: nat, sid: SessionId, a: seq<Envelope>, b: seq<Envelope>)
    ensures Admitted(c, sid, a + b) == Admitted(c, sid, a) + Admitted(Gate(c, sid, a), sid, b)
    decreases |a|
  {
    if a == [] {
      assert a + b == b;
    } else {
      assert (a + b)[1..] == a[1..] + b;
      AdmittedConcat(Admit(c, sid, a[0]), sid, a[1..], b);
    }
  }

  /** What comes through the gate is numbered c+1, c+2, ... without a hole, up to the new cursor. */
  lemma {:induction false} AdmittedIsContiguous(c: nat, sid: SessionId, stream: seq<Envelope>)
    ensures |Admitted(c, sid, stream)| == Gate(c, sid, stream) - c
    ensures forall i :: 0 <= i < |Admitted(c, sid, stream)| ==>
              Concerns(Admitted(c, sid, stream)[i], sid) && Admitted(c, sid, stream)[i].sequence == c + i + 1
    decreases |stream|
  {
    if stream != [] {
      AdmittedIsContiguous(Admit(c, sid, stream[0]), sid, stream[1..]);
    }
  }

  /** One more frame through the gate, and one more event for the UI if the gate admits it. */
  lemma OneMoreFrame(c: nat, sid: SessionId, frames: seq<Envelope>, i: nat, before: seq<Envelope>, shown: seq<Envelope>, now: seq<Envelope>)
    requires i < |frames|
    requires OfSession(sid, shown) == OfSession(sid, before) + Admitted(c, sid, frames[..i])
    requires now == shown || now == shown + [frames[i]]
    requires Concerns(frames[i], sid) ==>
               (now == shown <==> Admit(Gate(c, sid, frames[..i]), sid, frames[i]) == Gate(c, sid, frames[..i]))
    ensures Gate(c, sid, frames[..i + 1]) == Admit(Gate(c, sid, frames[..i]), sid, frames[i])
    ensures OfSession(sid, now) == OfSession(sid, before) + Admitted(c, sid, frames[..i + 1])
  {
    var last := [frames[i]];
    assert frames[..i + 1] == frames[..i] + last && last[1..] == [];
    GateConcat(c, sid, frames[..i], last);
    AdmittedConcat(c, sid, frames[..i], last);
    OfSessionConcat(sid, shown, last);
    Regroup(OfSession(sid, before), Admitted(c, sid, frames[..i]), Admitted(Gate(c, sid, frames[..i]), sid, last));
  }

  /** The WebSocket listener: one handleMessage per frame, events emitted to the UI. */
  class Listener {
    const store: CursorStore
    var events: seq<Envelope>
    var resyncs: seq<Envelope>

    constructor (store: CursorStore)
      ensures this.store == store && events == [] && resyncs == []
    {
      this.store := store;
      events := [];
      resyncs := [];
    }

    /** onOpen: one cursor per session the store knows. */
    function HelloCursors(): (hello: map<SessionId, nat>)
      reads this, store
      ensures forall sid :: store.Get(sid) == if sid in hello then hello[sid] else 0
    {
      store.cursors
    }

    method HandleMessage(env: Envelope)
      modifies this, store
      ensures forall sid :: !(env.Resync? && env.session == sid) ==> store.Get(sid) == Admit(old(store.Get(sid)), sid, env)
      ensures env.Resync? ==> store.Get(env.session) == env.after && resyncs == old(resyncs) + [env] && events == old(events)
      ensures !env.Resync? ==> resyncs == old(resyncs)
      ensures env.Event? && Admit(old(store.Get(env.session)), env.session, env) != old(store.Get(env.session)) ==> events == old(events) + [env]
      ensures env.Event? && Admit(old(store.Get(env.session)), env.session, env) == old(store.Get(env.session)) ==> events == old(events)
      ensures env.Control? ==> events == old(events) && store.cursors == old(store.cursors)
    {
      match env {
        case Control(_) =>
        case Resync(sid, after) =>
          store.Set(sid, after);
          resyncs := resyncs + [env];
        case Event(sid, sequence, _) =>
          var advanced := store.AdvanceIfContiguous(sid, sequence);
          if advanced {
            events := events + [env];
          }
      }
    }

    /**
     A whole socket's worth of frames: for every session that gets no resync
     notice, the cursor is the gate's and the emitted events are exactly the admitted ones.
     */
    method HandleAll(frames: seq<Envelope>)
      modifies this, store
      ensures forall sid :: (forall e :: e in frames ==> !(e.Resync? && e.session == sid)) ==>
                store.Get(sid) == Gate(old(store.Get(sid)), sid, frames)
                && OfSession(sid, events) == OfSession(sid, old(events)) + Admitted(old(store.Get(sid)), sid, frames)
    {
      for i := 0 to |frames|
        invariant forall sid :: (forall e :: e in frames[..i] ==> !(e.Resync? && e.session == sid)) ==>
                    store.Get(sid) == Gate(old(store.Get(sid)), sid, frames[..i])
                    && OfSession(sid, events) == OfSession(sid, old(events)) + Admitted(old(store.Get(sid)), sid, frames[..i])
      {
        ghost var shown := events;
        HandleMessage(frames[i]);
        assert forall e :: e in frames[..i] ==> e in frames[..i + 1];
        forall sid | forall e :: e in frames[..i + 1] ==> !(e.Resync? && e.session == sid)
          ensures store.Get(sid) == Gate(old(store.Get(sid)), sid, frames[..i + 1])
          ensures OfSession(sid, events) == OfSession(sid, old(events)) + Admitted(old(store.Get(sid)), sid, frames[..i + 1])
        {
          OneMoreFrame(old(store.Get(sid)), sid, frames, i, old(events), shown, events);
        }
      }
      assert frames[..|frames|] == frames;
    }
  }
}
