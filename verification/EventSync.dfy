/**
 Event synchronisation of one session towards one device, as a step system:
 writers commit events and publish them, the hub snapshots its subscribers, the
 server replays and goes live, the socket carries frames, the device applies them,
 and connections come and go. Steps of different goroutines interleave freely.
 */
module EventSync {
  import opened Outcomes
  import opened CursorGate
  import Q = ClientQueue

  /** How far replayAndSubscribe has come on the current connection. */
  datatype Stage = Offline | Greeted | Subscribed | Replaying | Flushing | Live

  /** What Replay answered; an expired cursor is answered with a resync notice once the client is live. */
  datatype Reply = Unanswered | Whole | Thinned | Refused | Expired | Notified

  datatype State = State(
    sid: SessionId,
    journal: seq<Body>,          // committed events; event k has sequence k + 1
    pending: seq<Envelope>,      // committed, subscribers not snapshotted yet
    inflight: seq<Envelope>,     // this client is in the snapshot, send not entered yet
    sending: seq<Envelope>,      // inside send, past the buffering check
    conn: Q.Connection,
    subscribed: bool,
    stage: Stage,
    replay: seq<Envelope>,       // read by Replay, not yet handed to sendDirect
    wire: seq<Envelope>,         // frames the device has not handled yet
    cursor: nat,
    applied: seq<Envelope>,      // events the device emitted, oldest first
    reply: Reply,                // Whole: a page of a journal without holes; Thinned: purges have taken rows out
    hello: nat,                  // cursor sent in the hello
    base: nat,                   // events published when the client subscribed
    readLen: nat,                // journal length when the replay page was read
    pageEnd: nat,                // last sequence the replay page reaches
    cut: nat)                    // events published when a refused client was unsubscribed

  datatype Action =
    | Commit(body: Body)
    | Snapshot(i: nat)
    | EnterSend(i: nat)
    | FinishSend(i: nat, late: bool)
    | ForeignSend(env: Envelope)
    | ForeignDirect(env: Envelope)
    | Connect(capacity: nat)
    | Subscribe
    | ReadReplay
    | ReadPurged(page: seq<Envelope>)
    | RefuseReplay(expired: bool)
    | SendNotice
    | SendReplayed
    | BeginFlush
    | FlushOne(late: bool)
    | EndFlush
    | Write
    | HandleFrame(i: nat)
    | Disconnect

  function Without<T>(s: seq<T>, i: nat): seq<T>
    requires i < |s|
  {
    s[..i] + s[i + 1..]
  }

  predicate Foreign(e: Envelope, sid: SessionId) {
    e.Control? || e.session != sid
  }

  /** What a page may look like once purges have taken rows out: genuine events behind the cursor, ascending. */
  predicate Remnant(page: seq<Envelope>, sid: SessionId, journal: seq<Body>, after: nat) {
    && |page| <= Q.REPLAY_LIMIT
    && (forall i :: 0 <= i < |page| ==> Concerns(page[i], sid) && after < page[i].sequence <= |journal|
                                        && page[i].body == journal[page[i].sequence - 1])
    && (forall i, j :: 0 <= i < j < |page| ==> page[i].sequence < page[j].sequence)
  }

  predicate Enabled(s: State, a: Action) {
    match a
    case Commit(_) => true
    case Snapshot(i) => i < |s.pending|
    case EnterSend(i) => i < |s.inflight| && (s.conn.closed || s.stage != Flushing)
    case FinishSend(i, _) => i < |s.sending|
    case ForeignSend(env) => Foreign(env, s.sid) && s.stage != Offline && s.stage != Flushing
    case ForeignDirect(env) => Foreign(env, s.sid) && (s.stage == Subscribed || s.stage == Replaying)
    case Connect(_) => s.stage == Offline || s.conn.closed
    case Subscribe => s.stage == Greeted && !s.conn.closed
    case ReadReplay => s.stage == Subscribed && s.hello <= |s.journal|
    case ReadPurged(page) => s.stage == Subscribed && Remnant(page, s.sid, s.journal, s.hello)
    case RefuseReplay(_) => s.stage == Subscribed
    case SendNotice => s.stage == Live && s.reply == Expired
    case SendReplayed => s.stage == Replaying && s.replay != []
    case BeginFlush => s.stage == Replaying && s.replay == []
    case FlushOne(_) => s.stage == Flushing && s.conn.buffer != []
    case EndFlush => s.stage == Flushing && s.conn.buffer == []
    case Write => s.stage != Offline && s.conn.queue != []
    case HandleFrame(i) => i < |s.wire|
    case Disconnect => s.stage != Offline
  }

  /** Events of the session whose subscribers have been snapshotted. */
  function Sent(s: State): nat {
    |s.journal| - Min(|s.pending|, |s.journal|)
  }

  predicate IsNotice(e: Envelope, sid: SessionId) {
    e.Resync? && e.session == sid
  }

  /** A client that closes is unsubscribed by its close callback. */
  function WithConn(s: State, conn: Q.Connection): State {
    s.(conn := conn, subscribed := s.subscribed && !conn.closed)
  }

  function Do(s: State, a: Action): State
    requires Enabled(s, a)
  {
    match a
    case Commit(body) =>
      s.(journal := s.journal + [body], pending := s.pending + [Event(s.sid, |s.journal| + 1, body)])
    case Snapshot(i) =>
      s.(pending := Without(s.pending, i),
         inflight := if s.subscribed then s.inflight + [s.pending[i]] else s.inflight)
    case EnterSend(i) =>
      var t := s.(inflight := Without(s.inflight, i));
      if s.conn.closed then t
      else if s.conn.buffering then t.(conn := Q.Hold(s.conn, s.inflight[i]))
      else t.(sending := s.sending + [s.inflight[i]])
    case FinishSend(i, late) =>
      var t := s.(sending := Without(s.sending, i));
      if s.conn.closed && late && |s.conn.queue| < s.conn.capacity
      then t.(conn := s.conn.(queue := s.conn.queue + [s.sending[i]]))
      else WithConn(t, Q.Enqueue(s.conn, s.sending[i]))
    case ForeignSend(env) => WithConn(s, Q.Send(s.conn, env))
    case ForeignDirect(env) => WithConn(s, Q.Enqueue(s.conn, env))
    case Connect(capacity) =>
      s.(conn := Q.StartBuffering(Q.Fresh(capacity)), subscribed := false, stage := Greeted,
         inflight := [], sending := [], replay := [], reply := Unanswered,
         hello := s.cursor, base := 0, readLen := 0, pageEnd := 0, cut := 0)
    case Subscribe => s.(subscribed := true, stage := Subscribed, base := Sent(s))
    case ReadReplay =>
      var end := Min(s.hello + Q.REPLAY_LIMIT, |s.journal|);
      s.(stage := Replaying, reply := Whole, readLen := |s.journal|, pageEnd := end,
         replay := Page(s.sid, s.journal, s.hello, end))
    case ReadPurged(page) => s.(stage := Replaying, reply := Thinned, replay := page)
    case RefuseReplay(expired) =>
      s.(stage := Replaying, reply := if expired then Expired else Refused, subscribed := false, cut := Sent(s))
    case SendNotice => WithConn(s.(reply := Notified), Q.Send(s.conn, Resync(s.sid, s.hello)))
    case SendReplayed => WithConn(s.(replay := s.replay[1..]), Q.Enqueue(s.conn, s.replay[0]))
    case BeginFlush => s.(stage := Flushing)
    case FlushOne(late) =>
      if s.conn.closed && late && |s.conn.queue| < s.conn.capacity
      then s.(conn := s.conn.(queue := s.conn.queue + [s.conn.buffer[0]], buffer := s.conn.buffer[1..]))
      else if s.conn.closed then s.(stage := Live, conn := s.conn.(buffer := [], buffering := false))
      else WithConn(s, Q.Enqueue(s.conn.(buffer := s.conn.buffer[1..]), s.conn.buffer[0]))
    case EndFlush => s.(stage := Live, conn := s.conn.(buffering := false))
    case Write =>
      s.(conn := s.conn.(queue := s.conn.queue[1..]), wire := s.wire + [s.conn.queue[0]])
    case HandleFrame(i) =>
      if IsNotice(s.wire[i], s.sid) then s.(wire := Without(s.wire, i), cursor := s.wire[i].after)
      else
        var t := s.(wire := Without(s.wire, i), cursor := Admit(s.cursor, s.sid, s.wire[i]));
        if t.cursor == s.cursor then t else t.(applied := s.applied + [s.wire[i]])
    case Disconnect => WithConn(s, Q.Closed(s.conn))
  }

  function Step(s: State, a: Action): State {
    if Enabled(s, a) then Do(s, a) else s
  }

  function Exec(s: State, run: seq<Action>): State
    decreases |run|
  {
    if run == [] then s else Exec(Step(s, run[0]), run[1..])
  }

  /** A device that already knows events 1..start of an existing journal, offline. */
  ghost predicate Init(s: State, start: nat) {
    && start <= |s.journal| && s.cursor == start && s.applied == []
    && s.stage == Offline && s.conn.closed && s.conn.queue == [] && s.conn.buffer == []
    && s.pending == [] && s.inflight == [] && s.sending == [] && s.replay == [] && s.wire == []
    && !s.subscribed && s.hello <= |s.journal|
  }

  // ------------------------------------------------------------------- safety

  /** The envelope is the journal's own event of its sequence, or none of this session's. */
  ghost predicate GenuineFrame(e: Envelope, sid: SessionId, journal: seq<Body>) {
    Concerns(e, sid) ==> 1 <= e.sequence <= |journal| && e.body == journal[e.sequence - 1]
  }

  ghost predicate Genuine(stream: seq<Envelope>, sid: SessionId, journal: seq<Body>) {
    forall e :: e in stream ==> GenuineFrame(e, sid, journal)
  }

  ghost predicate StreamsGenuine(s: State) {
    && Genuine(s.pending, s.sid, s.journal) && Genuine(s.inflight, s.sid, s.journal)
    && Genuine(s.sending, s.sid, s.journal) && Genuine(s.conn.buffer, s.sid, s.journal)
    && Genuine(s.conn.queue, s.sid, s.journal) && Genuine(s.replay, s.sid, s.journal)
    && Genuine(s.wire, s.sid, s.journal)
  }

  ghost predicate AppliedFrom(s: State, start: nat) {
    && start <= s.cursor <= |s.journal| && s.hello <= |s.journal|
    && s.applied == Page(s.sid, s.journal, start, s.cursor)
  }

  ghost predicate Safe(s: State, start: nat) {
    AppliedFrom(s, start) && StreamsGenuine(s)
  }

  lemma GenuineGrows(stream: seq<Envelope>, sid: SessionId, journal: seq<Body>, body: Body)
    requires Genuine(stream, sid, journal)
    ensures Genuine(stream, sid, journal + [body])
  {
  }

  lemma CommitKeepsStreams(s: State, body: Body)
    requires StreamsGenuine(s)
    ensures StreamsGenuine(Do(s, Commit(body)))
  {
    GenuineGrows(s.pending, s.sid, s.journal, body);
    GenuineGrows(s.inflight, s.sid, s.journal, body);
    GenuineGrows(s.sending, s.sid, s.journal, body);
    GenuineGrows(s.conn.buffer, s.sid, s.journal, body);
    GenuineGrows(s.conn.queue, s.sid, s.journal, body);
    GenuineGrows(s.replay, s.sid, s.journal, body);
    GenuineGrows(s.wire, s.sid, s.journal, body);
  }

  lemma PublishKeepsStreams(s: State, a: Action)
    requires a.Snapshot? || a.EnterSend? || a.FinishSend?
    requires StreamsGenuine(s) && Enabled(s, a)
    ensures StreamsGenuine(Do(s, a))
  {
    match a {
      case Snapshot(i) => assert s.pending[i] in s.pending;
      case EnterSend(i) => assert s.inflight[i] in s.inflight;
      case FinishSend(i, late) => assert s.sending[i] in s.sending;
    }
  }

  lemma ConnectionKeepsStreams(s: State, a: Action)
    requires !a.Commit? && !a.Snapshot? && !a.EnterSend? && !a.FinishSend?
    requires StreamsGenuine(s) && Enabled(s, a)
    ensures StreamsGenuine(Do(s, a))
  {
    var t := Do(s, a);
    assert t.pending == s.pending && t.journal == s.journal && t.sid == s.sid;
    match a {
      case ForeignSend(env) =>
      case ForeignDirect(env) =>
      case SendReplayed =>
      case FlushOne(_) =>
      case Write =>
      case HandleFrame(i) =>
      case Connect(_) =>
      case ReadReplay =>
      case ReadPurged(page) =>
      case _ =>
    }
  }

  lemma StreamsStep(s: State, a: Action)
    requires StreamsGenuine(s) && Enabled(s, a)
    ensures StreamsGenuine(Do(s, a))
  {
    if a.Commit? {
      CommitKeepsStreams(s, a.body);
    } else if a.Snapshot? || a.EnterSend? || a.FinishSend? {
      PublishKeepsStreams(s, a);
    } else {
      ConnectionKeepsStreams(s, a);
    }
  }

  /** A resync notice that the device handles names the cursor it has. */
  predicate Fits(s: State, a: Action) {
    a.HandleFrame? && a.i < |s.wire| && IsNotice(s.wire[a.i], s.sid) ==> s.wire[a.i].after == s.cursor
  }

  ghost predicate AllFit(s: State, run: seq<Action>)
    decreases |run|
  {
    run == [] || (Fits(s, run[0]) && AllFit(Step(s, run[0]), run[1..]))
  }

  lemma AppliedStep(s: State, a: Action, start: nat)
    requires Safe(s, start) && Enabled(s, a) && Fits(s, a)
    ensures AppliedFrom(Do(s, a), start)
    ensures s.journal <= Do(s, a).journal && s.cursor <= Do(s, a).cursor && Do(s, a).sid == s.sid
  {
    var t := Do(s, a);
    match a {
      case Commit(body) =>
        assert Page(s.sid, t.journal, start, s.cursor) == Page(s.sid, s.journal, start, s.cursor);
      case HandleFrame(i) =>
        assert s.wire[i] in s.wire;
        if t.cursor != s.cursor {
          assert GenuineFrame(s.wire[i], s.sid, s.journal);
          assert t.applied == Page(s.sid, s.journal, start, t.cursor);
        }
      case _ =>
    }
  }

  lemma SafeStep(s: State, a: Action, start: nat)
    requires Safe(s, start) && Fits(s, a)
    ensures Safe(Step(s, a), start)
    ensures s.journal <= Step(s, a).journal && s.cursor <= Step(s, a).cursor && Step(s, a).sid == s.sid
  {
    if Enabled(s, a) {
      StreamsStep(s, a);
      AppliedStep(s, a, start);
    }
  }

  /**
   Whatever the order of publishes, sends and frame handlers, whatever is dropped,
   repeated or cut off by a close or a reconnect, as long as no resync notice moves the
   cursor: the device has applied exactly the events start+1 .. cursor of the journal,
   each once, in order, unaltered.
   */
  lemma {:induction false} AppliedPrefix(s: State, run: seq<Action>, start: nat)
    requires Safe(s, start) && AllFit(s, run)
    ensures Safe(Exec(s, run), start)
    ensures Exec(s, run).applied == Page(s.sid, Exec(s, run).journal, start, Exec(s, run).cursor)
    ensures s.journal <= Exec(s, run).journal && s.cursor <= Exec(s, run).cursor
    decreases |run|
  {
    if run != [] {
      SafeStep(s, run[0], start);
      AppliedPrefix(Step(s, run[0]), run[1..], start);
    }
  }

  /** A notice keeps that if and only if the cursor is still the one it names. */
  lemma NoticeKeepsPrefixIff(s: State, i: nat, start: nat)
    requires Safe(s, start) && i < |s.wire| && IsNotice(s.wire[i], s.sid)
    ensures Safe(Do(s, HandleFrame(i)), start) <==> s.wire[i].after == s.cursor
  {
    var t := Do(s, HandleFrame(i));
    assert t.applied == s.applied && |s.applied| == s.cursor - start;
    if t.cursor == s.cursor {
      StreamsStep(s, HandleFrame(i));
    }
  }

  /**
   Otherwise events come twice: a notice that names an earlier cursor, handled after late
   frames of the previous socket have moved on, lets the next event in a second time.
   */
  lemma NoticeRepeats(s: State, start: nat, e: Envelope)
    requires Safe(s, start) && |s.wire| >= 2 && IsNotice(s.wire[0], s.sid) && s.wire[1] == e
    requires start <= s.wire[0].after < s.cursor && Concerns(e, s.sid) && e.sequence == s.wire[0].after + 1
    ensures var t := Step(Step(s, HandleFrame(0)), HandleFrame(0));
            t.applied == s.applied + [e] && e in s.applied
  {
    assert s.wire[1] in s.wire && GenuineFrame(e, s.sid, s.journal);
    assert s.applied[s.wire[0].after - start] == e;
    assert Step(s, HandleFrame(0)).wire[0] == e;
  }

  lemma InitIsSafe(s: State, start: nat)
    requires Init(s, start)
    ensures Safe(s, start)
  {
    assert Page(s.sid, s.journal, start, start) == [];
  }

  // ------------------------------------------------------------- completeness

  /**
   The scheduling hypotheses of a complete handover: this session's events are
   published and sent in sequence order, the device handles frames in order, and
   it reconnects only after it has handled the frames of the previous socket.
   */
  ghost predicate InOrder(s: State, a: Action) {
    match a
    case Snapshot(i) => i == 0
    case EnterSend(i) => i == 0 && s.sending == []
    case FinishSend(i, _) => i == 0
    case HandleFrame(i) => i == 0 && Fits(s, a)
    case Connect(_) => s.wire == []
    case _ => true
  }

  ghost predicate AllInOrder(s: State, run: seq<Action>)
    decreases |run|
  {
    run == [] || (InOrder(s, run[0]) && AllInOrder(Step(s, run[0]), run[1..]))
  }

  /** Live events of this connection, in the order they will reach the queue. */
  function Behind(s: State): seq<Envelope> {
    s.conn.buffer + (s.sending + (s.inflight + Tail(s)))
  }

  /** Committed events that will still reach this connection. */
  function Tail(s: State): seq<Envelope> {
    if s.subscribed then s.pending else []
  }

  /** Live events that have reached it and are not queued yet. */
  function Held(s: State): seq<Envelope> {
    s.conn.buffer + (s.sending + s.inflight)
  }

  /** Everything between the device and the tail of the journal, oldest first. */
  function Pipeline(s: State): seq<Envelope> {
    s.wire + (s.conn.queue + (s.replay + Behind(s)))
  }

  function Published(s: State): int {
    |s.journal| - |s.pending|
  }

  /** Where the cursor ends up once the pipeline is empty. */
  function Goal(s: State): nat {
    if s.reply == Whole then (if s.base <= s.pageEnd then |s.journal| else s.pageEnd)
    else if s.base <= s.hello then Max(s.hello, s.cut) else s.hello
  }

  predicate Open(s: State) {
    s.stage != Offline && !s.conn.closed
  }

  ghost predicate Silent(stream: seq<Envelope>, sid: SessionId) {
    forall e :: e in stream ==> !Concerns(e, sid)
  }

  ghost predicate PendingIsTail(s: State) {
    && 0 <= Published(s)
    && s.pending == Page(s.sid, s.journal, Published(s), |s.journal|)
  }

  predicate AwaitsPage(s: State) {
    Open(s) && (s.stage == Greeted || s.stage == Subscribed)
  }

  predicate HasPage(s: State) {
    Open(s) && s.stage != Greeted && s.stage != Subscribed && (s.reply == Whole || s.reply == Refused || s.reply == Expired)
  }

  /** Which stages may hold something of this session, and what the counters mean. */
  ghost predicate Shape(s: State) {
    && (AwaitsPage(s) ==>
          && s.reply == Unanswered && s.cut == 0 && s.cursor == s.hello && s.conn.buffering && s.replay == [] && s.sending == []
          && Silent(s.wire, s.sid) && Silent(s.conn.queue, s.sid)
          && (s.stage == Greeted ==> s.inflight == [] && Silent(s.conn.buffer, s.sid) && !s.subscribed)
          && (s.stage == Subscribed ==> s.subscribed && s.base <= |s.journal|))
    && (HasPage(s) ==>
          && (s.subscribed <==> s.reply == Whole) && s.cut <= |s.journal|
          && (s.reply == Whole ==> s.base <= s.readLen <= |s.journal| && s.pageEnd == Min(s.hello + Q.REPLAY_LIMIT, s.readLen))
          && (if s.stage == Live then !s.conn.buffering && s.conn.buffer == [] else s.conn.buffering && s.sending == [])
          && (s.stage != Replaying ==> s.replay == [])
          && |s.sending| <= 1)
    && (Open(s) && !AwaitsPage(s) ==> s.reply != Unanswered)
  }

  /** Before the answer, the live events that arrived are those published since the client subscribed. */
  ghost predicate LiveFlow(s: State) {
    Open(s) && s.stage == Subscribed ==>
      Within(Held(s), s.sid, s.base, Published(s)) && Gate(s.base, s.sid, Held(s)) == Published(s)
  }

  /** Afterwards, passing the whole pipeline through the gate gives the goal. */
  ghost predicate PageFlow(s: State) {
    HasPage(s) ==> Gate(s.cursor, s.sid, Pipeline(s)) == Goal(s)
  }

  /** The heart of the argument. */
  ghost predicate Flow(s: State) {
    LiveFlow(s) && PageFlow(s)
  }

  ghost predicate Ordered(s: State) {
    PendingIsTail(s) && Shape(s) && Flow(s)
  }

  lemma PendingStep(s: State, a: Action)
    requires PendingIsTail(s) && Enabled(s, a) && InOrder(s, a)
    ensures PendingIsTail(Do(s, a))
  {
    var t := Do(s, a);
    match a {
      case Commit(_) => assert t.pending == Page(s.sid, t.journal, Published(t), |t.journal|);
      case Snapshot(_) => assert t.pending == Page(s.sid, s.journal, Published(t), |s.journal|);
      case _ =>
    }
  }

  lemma ShapePublish(s: State, a: Action)
    requires PendingIsTail(s) && Shape(s) && Enabled(s, a) && InOrder(s, a)
    requires a.Commit? || a.Snapshot? || a.EnterSend? || a.FinishSend?
    ensures Shape(Do(s, a))
  {
  }

  lemma ShapeReplay(s: State, a: Action)
    requires PendingIsTail(s) && Shape(s) && Enabled(s, a)
    requires a.Connect? || a.Subscribe? || a.ReadReplay? || a.ReadPurged? || a.RefuseReplay? || a.SendReplayed? || a.SendNotice?
    requires InOrder(s, a)
    ensures Shape(Do(s, a))
  {
  }

  lemma ShapeTraffic(s: State, a: Action)
    requires PendingIsTail(s) && Shape(s) && Enabled(s, a) && InOrder(s, a)
    requires a.ForeignSend? || a.ForeignDirect? || a.BeginFlush? || a.FlushOne? || a.EndFlush? || a.Disconnect?
    ensures Shape(Do(s, a))
  {
  }

  lemma ShapeStep(s: State, a: Action)
    requires PendingIsTail(s) && Shape(s) && Enabled(s, a) && InOrder(s, a)
    ensures Shape(Do(s, a))
  {
    if a.Commit? || a.Snapshot? || a.EnterSend? || a.FinishSend? {
      ShapePublish(s, a);
    } else if a.Connect? || a.Subscribe? || a.ReadReplay? || a.ReadPurged? || a.RefuseReplay? || a.SendReplayed? || a.SendNotice? {
      ShapeReplay(s, a);
    } else if a.Write? {
      assert s.conn.queue[0] in s.conn.queue;
    } else if a.HandleFrame? {
      assert s.wire[0] in s.wire;
    } else {
      ShapeTraffic(s, a);
    }
  }

  // Sequence algebra: moving the head of one stage to the end of the one before it.

  lemma Shift<T>(a: seq<T>, b: seq<T>, c: seq<T>)
    requires b != []
    ensures (a + [b[0]]) + (b[1..] + c) == a + (b + c)
    ensures (a + [b[0]]) + b[1..] == a + b
  {
  }

  lemma Skip<T>(a: seq<T>)
    ensures [] + a == a
  {
  }

  lemma GateOne(c: nat, sid: SessionId, stream: seq<Envelope>, e: Envelope)
    ensures Gate(c, sid, stream + [e]) == Admit(Gate(c, sid, stream), sid, e)
  {
    GateConcat(c, sid, stream, [e]);
    assert [e][1..] == [];
  }

  lemma SilentGate(c: nat, sid: SessionId, stream: seq<Envelope>)
    requires Silent(stream, sid)
    ensures Gate(c, sid, stream) == c
  {
    GateSkips(c, sid, stream);
  }

  lemma SilentFront(c: nat, sid: SessionId, wire: seq<Envelope>, queue: seq<Envelope>, rest: seq<Envelope>)
    requires Silent(wire, sid) && Silent(queue, sid)
    ensures Gate(c, sid, wire + (queue + rest)) == Gate(c, sid, rest)
  {
    GateConcat(c, sid, wire, queue + rest);
    GateConcat(c, sid, queue, rest);
    SilentGate(c, sid, wire);
    SilentGate(c, sid, queue);
  }

  lemma FlowCommit(s: State, body: Body)
    requires Shape(s) && Flow(s)
    ensures Flow(Do(s, Commit(body)))
  {
    var t := Do(s, Commit(body));
    var e := Event(s.sid, |s.journal| + 1, body);
    assert Held(t) == Held(s) && Published(t) == Published(s);
    if s.subscribed {
      assert Behind(t) == Behind(s) + [e];
      assert Pipeline(t) == Pipeline(s) + [e];
      GateOne(s.cursor, s.sid, Pipeline(s), e);
    }
  }

  /** A step that only moves envelopes along, or leaves the flow's variables alone. */
  ghost predicate SamePage(s: State, t: State) {
    && t.sid == s.sid && t.journal == s.journal && t.cursor == s.cursor && t.stage == s.stage
    && t.reply == s.reply && t.base == s.base && t.pageEnd == s.pageEnd && t.hello == s.hello && t.cut == s.cut
    && Pipeline(t) == Pipeline(s)
  }

  lemma SnapshotFlows(s: State)
    requires s.pending != [] && s.subscribed
    ensures SamePage(s, Do(s, Snapshot(0)))
  {
    Shift(s.inflight, s.pending, []);
    assert s.pending[1..] == Without(s.pending, 0);
  }

  /** The next event of the journal joins the live events. */
  lemma SnapshotHolds(s: State)
    requires PendingIsTail(s) && s.pending != [] && s.subscribed && LiveFlow(s)
    ensures LiveFlow(Do(s, Snapshot(0)))
  {
    var t, e := Do(s, Snapshot(0)), s.pending[0];
    assert e == Event(s.sid, Published(s) + 1, s.journal[Published(s)]);
    assert Held(t) == Held(s) + [e] && Published(t) == Published(s) + 1;
    GateOne(s.base, s.sid, Held(s), e);
    if Open(s) && s.stage == Subscribed {
      GateBounds(s.base, s.sid, Held(s), s.base, Published(s));
    }
  }

  lemma EnterSendFlows(s: State)
    requires Enabled(s, EnterSend(0)) && s.sending == [] && !s.conn.closed
    ensures var t := Do(s, EnterSend(0)); SamePage(s, t) && Held(t) == Held(s) && t.pending == s.pending
  {
    var t := Do(s, EnterSend(0));
    assert t.inflight == s.inflight[1..];
    Skip(s.inflight + Tail(s));
    Skip(t.inflight + Tail(s));
    Skip(s.inflight);
    Skip(t.inflight);
    if s.conn.buffering {
      Shift(s.conn.buffer, s.inflight, Tail(s));
    } else {
      Shift([], s.inflight, Tail(s));
      assert [] + [s.inflight[0]] == t.sending;
    }
  }

  lemma FinishSendFlows(s: State, late: bool)
    requires |s.sending| == 1 && s.conn.buffer == [] && s.replay == [] && Open(Do(s, FinishSend(0, late)))
    ensures var t := Do(s, FinishSend(0, late)); Pipeline(t) == Pipeline(s)
  {
    var t := Do(s, FinishSend(0, late));
    var rest := s.inflight + Tail(s);
    Skip(rest);
    Skip(s.sending + rest);
    assert t.sending == [] && s.sending == [s.sending[0]];
    Shift(s.conn.queue, s.sending, rest);
    assert s.sending[1..] == [];
  }

  lemma ReplayFlows(s: State)
    requires Enabled(s, SendReplayed) && Open(Do(s, SendReplayed))
    ensures SamePage(s, Do(s, SendReplayed))
  {
    Shift(s.conn.queue, s.replay, Behind(s));
  }

  lemma FlushFlows(s: State, late: bool)
    requires Enabled(s, FlushOne(late)) && s.replay == [] && Open(Do(s, FlushOne(late)))
    ensures Pipeline(Do(s, FlushOne(late))) == Pipeline(s)
  {
    var rest := s.sending + (s.inflight + Tail(s));
    Skip(s.conn.buffer + rest);
    Skip(s.conn.buffer[1..] + rest);
    Shift(s.conn.queue, s.conn.buffer, rest);
  }

  lemma WriteFlows(s: State)
    requires Enabled(s, Write)
    ensures SamePage(s, Do(s, Write)) && Held(Do(s, Write)) == Held(s)
  {
    Shift(s.wire, s.conn.queue, s.replay + Behind(s));
  }

  lemma HandleFlows(s: State)
    requires Shape(s) && Flow(s) && s.wire != [] && Fits(s, HandleFrame(0))
    ensures Flow(Do(s, HandleFrame(0)))
  {
    var t := Do(s, HandleFrame(0));
    assert Held(t) == Held(s) && Published(t) == Published(s);
    if HasPage(s) {
      HandleMoves(s);
    }
  }

  /** The device takes the first envelope of the pipeline. */
  lemma HandleMoves(s: State)
    requires s.wire != [] && Fits(s, HandleFrame(0))
    ensures var t := Do(s, HandleFrame(0)); Gate(t.cursor, t.sid, Pipeline(t)) == Gate(s.cursor, s.sid, Pipeline(s))
  {
    var t := Do(s, HandleFrame(0));
    var rest := s.conn.queue + (s.replay + Behind(s));
    assert Pipeline(t) == s.wire[1..] + rest;
    assert (s.wire + rest)[0] == s.wire[0] && (s.wire + rest)[1..] == s.wire[1..] + rest;
    GateHead(s.cursor, s.sid, s.wire + rest);
    assert t.cursor == Admit(s.cursor, s.sid, s.wire[0]);
  }

  lemma GateHead(c: nat, sid: SessionId, stream: seq<Envelope>)
    requires stream != []
    ensures Gate(c, sid, stream) == Gate(Admit(c, sid, stream[0]), sid, stream[1..])
  {
  }

  lemma HeldForeign(s: State, e: Envelope)
    requires Flow(s) && Foreign(e, s.sid)
    ensures Flow(s.(conn := Q.Hold(s.conn, e)))
  {
    var t := s.(conn := Q.Hold(s.conn, e));
    var live := s.sending + s.inflight;
    assert Held(t) == s.conn.buffer + [e] + live;
    GateForeign(s.base, s.sid, s.conn.buffer, e, live);
    ForeignPages(s, e);
  }

  lemma ForeignPages(s: State, e: Envelope)
    requires PageFlow(s) && Foreign(e, s.sid)
    ensures PageFlow(s.(conn := Q.Hold(s.conn, e)))
  {
    var t := s.(conn := Q.Hold(s.conn, e));
    var rest := s.sending + (s.inflight + Tail(s));
    var front := s.wire + (s.conn.queue + (s.replay + s.conn.buffer));
    assert Pipeline(t) == front + [e] + rest;
    assert Pipeline(s) == front + rest;
    GateForeign(s.cursor, s.sid, front, e, rest);
  }

  lemma QueuedForeign(s: State, e: Envelope)
    requires Flow(s) && Foreign(e, s.sid)
    ensures Flow(s.(conn := s.conn.(queue := s.conn.queue + [e])))
  {
    var t := s.(conn := s.conn.(queue := s.conn.queue + [e]));
    var front, back := s.wire + s.conn.queue, s.replay + Behind(s);
    assert Behind(t) == Behind(s) && Held(t) == Held(s);
    assert Pipeline(t) == front + [e] + back;
    assert Pipeline(s) == front + back;
    GateForeign(s.cursor, s.sid, front, e, back);
  }

  lemma SubscribeFlows(s: State)
    requires PendingIsTail(s) && Shape(s) && Enabled(s, Subscribe)
    ensures Flow(Do(s, Subscribe))
  {
    var t := Do(s, Subscribe);
    assert Held(t) == s.conn.buffer;
    SilentGate(t.base, s.sid, s.conn.buffer);
  }

  /** The live events and the pending ones cover base+1 .. end of the journal. */
  lemma BehindCovers(s: State)
    requires PendingIsTail(s) && Open(s) && s.stage == Subscribed && s.subscribed && LiveFlow(s)
    ensures Within(Behind(s), s.sid, s.base, |s.journal|) && Gate(s.base, s.sid, Behind(s)) == |s.journal|
  {
    GateBounds(s.base, s.sid, Held(s), s.base, Published(s));
    assert Behind(s) == Held(s) + s.pending;
    GateConcat(s.base, s.sid, Held(s), s.pending);
    GatePage(Published(s), s.sid, s.journal, Published(s), |s.journal|);
  }

  lemma ReadFlows(s: State)
    requires PendingIsTail(s) && Shape(s) && Flow(s) && Enabled(s, ReadReplay) && Open(s)
    ensures Flow(Do(s, ReadReplay))
  {
    var t := Do(s, ReadReplay);
    BehindCovers(s);
    SilentFront(s.cursor, s.sid, s.wire, s.conn.queue, t.replay + Behind(s));
    PageThenLive(s.sid, s.journal, s.hello, t.pageEnd, s.base, Behind(s));
  }

  /** A replay page followed by the events live since base. */
  lemma PageThenLive(sid: SessionId, journal: seq<Body>, hello: nat, end: nat, base: nat, behind: seq<Envelope>)
    requires hello <= end <= |journal| && base <= |journal|
    requires Within(behind, sid, base, |journal|) && Gate(base, sid, behind) == |journal|
    ensures Gate(hello, sid, Page(sid, journal, hello, end) + behind) == if base <= end then |journal| else end
  {
    GateConcat(hello, sid, Page(sid, journal, hello, end), behind);
    GatePage(hello, sid, journal, hello, end);
    if base <= end {
      GateMonotone(base, end, sid, behind);
      GateBounds(end, sid, behind, base, |journal|);
    } else {
      GateSkips(end, sid, behind);
    }
  }

  /** A refused client keeps what went live meanwhile, and gets no more. */
  lemma RefuseFlows(s: State, expired: bool)
    requires PendingIsTail(s) && Shape(s) && Flow(s) && Enabled(s, RefuseReplay(expired)) && Open(s)
    ensures Flow(Do(s, RefuseReplay(expired)))
  {
    var t := Do(s, RefuseReplay(expired));
    var held := Held(s);
    assert t.cut == Published(s);
    assert t.replay + Behind(t) == held;
    SilentFront(s.cursor, s.sid, s.wire, s.conn.queue, held);
    if s.base <= s.hello {
      GateMonotone(s.base, s.hello, s.sid, held);
      GateBounds(s.hello, s.sid, held, s.base, t.cut);
    } else {
      GateSkips(s.hello, s.sid, held);
    }
  }

  lemma FlowPublish(s: State, a: Action)
    requires Ordered(s) && Enabled(s, a) && InOrder(s, a) && Open(Do(s, a))
    requires a.Commit? || a.Snapshot? || a.EnterSend? || a.FinishSend?
    ensures Flow(Do(s, a))
  {
    match a {
      case Commit(body) => FlowCommit(s, body);
      case Snapshot(_) =>
        if s.subscribed {
          SnapshotFlows(s);
          SnapshotHolds(s);
        }
      case EnterSend(_) => EnterSendFlows(s);
      case FinishSend(_, late) => if HasPage(s) { FinishSendFlows(s, late); }
    }
  }

  lemma FlowStep(s: State, a: Action)
    requires Ordered(s) && Enabled(s, a) && InOrder(s, a) && Open(Do(s, a))
    ensures Flow(Do(s, a))
  {
    match a {
      case ForeignSend(e) => if s.conn.buffering { HeldForeign(s, e); } else { QueuedForeign(s, e); }
      case ForeignDirect(e) => QueuedForeign(s, e);
      case Subscribe => SubscribeFlows(s);
      case ReadReplay => ReadFlows(s);
      case RefuseReplay(expired) => RefuseFlows(s, expired);
      case SendReplayed => ReplayFlows(s);
      case FlushOne(late) => if HasPage(s) { FlushFlows(s, late); }
      case Write => WriteFlows(s);
      case HandleFrame(_) => HandleFlows(s);
      case Commit(_) => FlowPublish(s, a);
      case Snapshot(_) => FlowPublish(s, a);
      case EnterSend(_) => FlowPublish(s, a);
      case FinishSend(_, _) => FlowPublish(s, a);
      case _ =>
    }
  }

  lemma OrderedStep(s: State, a: Action)
    requires Ordered(s) && InOrder(s, a)
    ensures Ordered(Step(s, a))
  {
    if Enabled(s, a) {
      PendingStep(s, a);
      ShapeStep(s, a);
      if Open(Do(s, a)) {
        FlowStep(s, a);
      }
    }
  }

  lemma {:induction false} OrderedRun(s: State, run: seq<Action>, start: nat)
    requires Safe(s, start) && Ordered(s) && AllInOrder(s, run)
    ensures Safe(Exec(s, run), start) && Ordered(Exec(s, run))
    decreases |run|
  {
    if run != [] {
      SafeStep(s, run[0], start);
      OrderedStep(s, run[0]);
      OrderedRun(Step(s, run[0]), run[1..], start);
    }
  }

  predicate Drained(s: State) {
    s.wire == [] && s.conn.queue == [] && s.replay == [] && s.conn.buffer == []
    && s.sending == [] && s.inflight == [] && s.pending == []
  }

  /** Everything published before the client subscribed fits on the one page a connection replays. */
  predicate GapFits(s: State) {
    s.base <= s.hello + 100
  }

  /** Everything live reached the refused client right behind its cursor, up to the end of the journal. */
  predicate CutSuffices(s: State) {
    s.hello == |s.journal| || (s.base <= s.hello && s.cut == |s.journal|)
  }

  /**
   The handover, exactly. After any in-order run that ends live, open and drained, with
   a replay that found no holes, the device has the whole journal if and only if
   everything published before it subscribed fits on the replay page; otherwise it stops
   at the end of that page. A page that was not truncated always satisfies the condition.
   */
  lemma NoLossHandover(s: State, run: seq<Action>, start: nat)
    requires Init(s, start) && AllInOrder(s, run)
    requires var t := Exec(s, run); t.stage == Live && !t.conn.closed && t.reply == Whole && Drained(t)
    ensures var t := Exec(s, run);
            && (t.cursor == |t.journal| <==> GapFits(t))
            && (GapFits(t) <==> t.base <= t.pageEnd)
            && (!GapFits(t) ==> t.cursor == t.pageEnd)
            && (t.readLen <= t.hello + Q.REPLAY_LIMIT ==> t.cursor == |t.journal|)
            && (t.cursor == |t.journal| ==> start <= |t.journal| && t.applied == Page(t.sid, t.journal, start, |t.journal|))
  {
    InitIsSafe(s, start);
    OrderedRun(s, run, start);
  }

  /**
   The handover of a client whose replay was refused, by an error or as expired, and
   that has not been sent a notice. It stays connected and unsubscribed: it has the
   events that went live before it was cut off, if they follow its cursor directly, and
   no others. So it is complete if and only if that happens to reach the end.
   */
  lemma RefusedHandover(s: State, run: seq<Action>, start: nat)
    requires Init(s, start) && AllInOrder(s, run)
    requires var t := Exec(s, run); t.stage == Live && !t.conn.closed && (t.reply == Refused || t.reply == Expired) && Drained(t)
    ensures var t := Exec(s, run);
            && !t.subscribed && t.cut <= |t.journal|
            && t.cursor == (if t.base <= t.hello then Max(t.hello, t.cut) else t.hello)
            && (t.cursor == |t.journal| <==> CutSuffices(t))
  {
    InitIsSafe(s, start);
    OrderedRun(s, run, start);
  }

  lemma ExecCons(s: State, a: Action, rest: seq<Action>)
    ensures Exec(s, [a] + rest) == Exec(Step(s, a), rest)
    ensures AllInOrder(s, [a] + rest) <==> InOrder(s, a) && AllInOrder(Step(s, a), rest)
  {
    assert ([a] + rest)[1..] == rest;
  }

  /** A replay that fails before anything went live, and an event after it. */
  function Refusal(capacity: nat, body: Body): seq<Action> {
    [Connect(capacity)] + ([Subscribe] + ([RefuseReplay(false)] + ([BeginFlush] + ([EndFlush] + Missed(body)))))
  }

  function Missed(body: Body): seq<Action> {
    [Commit(body)] + ([Snapshot(0)] + [])
  }

  /** An event that is published while the client is live but not subscribed. */
  lemma MissedEvent(s: State, body: Body)
    requires s.stage == Live && !s.subscribed && s.pending == []
    ensures Exec(s, Missed(body)) == s.(journal := s.journal + [body]) && AllInOrder(s, Missed(body))
  {
    var t := Step(s, Commit(body));
    ExecCons(s, Commit(body), [Snapshot(0)] + []);
    ExecCons(t, Snapshot(0), []);
    assert Step(t, Snapshot(0)) == s.(journal := s.journal + [body]);
  }

  /** An offline device connects, subscribes, and has its replay refused. */
  lemma RefusedLive(s: State, start: nat, capacity: nat)
    requires Init(s, start)
    ensures var t := Step(Step(Step(Step(Step(s, Connect(capacity)), Subscribe), RefuseReplay(false)), BeginFlush), EndFlush);
            && t.stage == Live && !t.conn.closed && t.reply == Refused && !t.subscribed && Drained(t)
            && t.journal == s.journal && t.cursor == t.hello == start && t.cut <= |s.journal|
  {
  }

  /** The condition does fail: the connection stays up, live and drained, and the device misses the event. */
  lemma RefusalLoses(s: State, start: nat, capacity: nat, body: Body)
    requires Init(s, start)
    ensures var run := Refusal(capacity, body); var t := Exec(s, run);
            && AllInOrder(s, run) && t.stage == Live && !t.conn.closed && t.reply == Refused && Drained(t)
            && t.journal == s.journal + [body] && t.cursor == start && !CutSuffices(t)
  {
    var s1 := Step(s, Connect(capacity));
    var s2 := Step(s1, Subscribe);
    var s3 := Step(s2, RefuseReplay(false));
    var s4 := Step(s3, BeginFlush);
    var s5 := Step(s4, EndFlush);
    var r4 := [EndFlush] + Missed(body);
    var r3 := [BeginFlush] + r4;
    var r2 := [RefuseReplay(false)] + r3;
    RefusedLive(s, start, capacity);
    ExecCons(s, Connect(capacity), [Subscribe] + r2);
    ExecCons(s1, Subscribe, r2);
    ExecCons(s2, RefuseReplay(false), r3);
    ExecCons(s3, BeginFlush, r4);
    ExecCons(s4, EndFlush, Missed(body));
    MissedEvent(s5, body);
  }

  /** After a run that ends live the replay has been answered, so these, a thinned page and a notice are all the cases. */
  lemma LiveIsAnswered(s: State, run: seq<Action>, start: nat)
    requires Init(s, start) && AllInOrder(s, run)
    requires var t := Exec(s, run); t.stage == Live && !t.conn.closed
    ensures Exec(s, run).reply != Unanswered
  {
    InitIsSafe(s, start);
    OrderedRun(s, run, start);
  }

  /** The condition does fail: a device more than one page behind subscribes past its page. */
  lemma LongGapTruncates(s: State, start: nat, capacity: nat)
    requires Init(s, start)
    ensures var t := Exec(s, [Connect(capacity), Subscribe, ReadReplay]);
            t.reply == Whole && AllInOrder(s, [Connect(capacity), Subscribe, ReadReplay])
            && (!GapFits(t) <==> |s.journal| > start + 100)
  {
    var s1 := Step(s, Connect(capacity));
    var s2 := Step(s1, Subscribe);
    assert [Connect(capacity), Subscribe, ReadReplay] == [Connect(capacity)] + ([Subscribe] + ([ReadReplay] + []));
    ExecCons(s, Connect(capacity), [Subscribe] + ([ReadReplay] + []));
    ExecCons(s1, Subscribe, [ReadReplay] + []);
    ExecCons(s2, ReadReplay, []);
  }

  // ------------------------------------------------------- getting there

  /** Nothing on its way to the device is a resync notice for this session. */
  ghost predicate NoticeFree(stream: seq<Envelope>, sid: SessionId) {
    forall e :: e in stream ==> !IsNotice(e, sid)
  }

  /** An answered connection that is open and has room for at least one envelope. */
  ghost predicate Drainable(s: State) {
    Ordered(s) && HasPage(s) && s.conn.capacity > 0 && NoticeFree(Pipeline(s), s.sid)
  }

  /** What remains to be moved: every envelope counts the stages before it. */
  function Work(s: State): nat {
    6 * |s.pending| + 5 * |s.inflight| + 4 * |s.sending| + 4 * |s.replay| + 4 * |s.conn.buffer| + 3 * |s.conn.queue| + 2 * |s.wire|
    + (if s.stage == Replaying then 2 else if s.stage == Flushing then 1 else 0)
  }

  /** The writer and the device first, then the replay, the flush, and what went live. */
  function Next(s: State): Action {
    if s.conn.queue != [] then Write
    else if s.wire != [] then HandleFrame(0)
    else if s.stage == Replaying then (if s.replay != [] then SendReplayed else BeginFlush)
    else if s.stage == Flushing then (if s.conn.buffer != [] then FlushOne(false) else EndFlush)
    else if s.sending != [] then FinishSend(0, false)
    else if s.inflight != [] then EnterSend(0)
    else Snapshot(0)
  }

  /** The connection stays the same one. */
  predicate SameConnection(s: State, t: State) {
    && t.sid == s.sid && t.journal == s.journal && t.reply == s.reply && t.subscribed == s.subscribed
    && t.base == s.base && t.hello == s.hello && t.pageEnd == s.pageEnd && t.cut == s.cut && t.conn.capacity == s.conn.capacity
  }

  lemma NextIsPossible(s: State)
    requires Drainable(s) && !(s.stage == Live && Drained(s))
    ensures Enabled(s, Next(s)) && InOrder(s, Next(s))
  {
    if s.wire != [] {
      assert s.wire[0] in Pipeline(s);
    }
  }

  lemma WriteMoves(s: State)
    requires Drainable(s) && s.conn.queue != []
    ensures var t := Do(s, Write); Work(t) < Work(s) && SameConnection(s, t) && HasPage(t) && NoticeFree(Pipeline(t), s.sid)
  {
    WriteFlows(s);
  }

  lemma FrameMoves(s: State)
    requires Drainable(s) && s.wire != []
    ensures var t := Do(s, HandleFrame(0)); Work(t) < Work(s) && SameConnection(s, t) && HasPage(t) && NoticeFree(Pipeline(t), s.sid)
  {
    FrameLeaves(s);
    TailOf(s.wire, s.conn.queue + (s.replay + Behind(s)));
  }

  lemma FrameLeaves(s: State)
    requires s.wire != []
    ensures var t := Do(s, HandleFrame(0));
            && t.wire == s.wire[1..] && t.conn == s.conn && t.stage == s.stage && SameConnection(s, t)
            && t.pending == s.pending && t.inflight == s.inflight && t.sending == s.sending && t.replay == s.replay
            && Pipeline(t) == s.wire[1..] + (s.conn.queue + (s.replay + Behind(s)))
  {
  }

  lemma TailOf<T>(a: seq<T>, b: seq<T>)
    requires a != []
    ensures forall e :: e in a[1..] + b ==> e in a + b
  {
    assert a[1..] + b == (a + b)[1..];
  }

  lemma ReplayMoves(s: State)
    requires Drainable(s) && s.conn.queue == [] && s.wire == [] && s.stage == Replaying && Enabled(s, Next(s))
    ensures var t := Do(s, Next(s)); Work(t) < Work(s) && SameConnection(s, t) && HasPage(t) && NoticeFree(Pipeline(t), s.sid)
  {
    if s.replay != [] {
      ReplayFlows(s);
    }
  }

  lemma FlushMoves(s: State)
    requires Drainable(s) && s.conn.queue == [] && s.wire == [] && s.stage == Flushing && Enabled(s, Next(s))
    ensures var t := Do(s, Next(s)); Work(t) < Work(s) && SameConnection(s, t) && HasPage(t) && NoticeFree(Pipeline(t), s.sid)
  {
    if s.conn.buffer != [] {
      FlushFlows(s, false);
    }
  }

  lemma LiveMoves(s: State)
    requires Drainable(s) && s.conn.queue == [] && s.wire == [] && s.stage == Live && !Drained(s) && Enabled(s, Next(s))
    ensures var t := Do(s, Next(s)); Work(t) < Work(s) && SameConnection(s, t) && HasPage(t) && NoticeFree(Pipeline(t), s.sid)
  {
    if s.sending != [] {
      FinishSendFlows(s, false);
    } else if s.inflight != [] {
      EnterSendFlows(s);
    } else if s.subscribed {
      SnapshotFlows(s);
    }
  }

  lemma NextMoves(s: State)
    requires Drainable(s) && !(s.stage == Live && Drained(s)) && Enabled(s, Next(s)) && InOrder(s, Next(s))
    ensures var t := Do(s, Next(s)); Work(t) < Work(s) && SameConnection(s, t) && HasPage(t) && NoticeFree(Pipeline(t), s.sid)
  {
    if s.conn.queue != [] {
      WriteMoves(s);
    } else if s.wire != [] {
      FrameMoves(s);
    } else if s.stage == Replaying {
      ReplayMoves(s);
    } else if s.stage == Flushing {
      FlushMoves(s);
    } else {
      LiveMoves(s);
    }
  }

  /** An answered connection can always be drained, and then the device is at its goal. */
  lemma {:induction false} Drain(s: State) returns (run: seq<Action>)
    requires Drainable(s)
    ensures AllInOrder(s, run) && forall a :: a in run ==> !a.Connect? && !a.Disconnect?
    ensures var t := Exec(s, run);
            && t.stage == Live && HasPage(t) && Drained(t) && Ordered(t) && SameConnection(s, t) && t.cursor == Goal(t)
    decreases Work(s)
  {
    if s.stage == Live && Drained(s) {
      run := [];
      assert Pipeline(s) == [];
    } else {
      NextIsPossible(s);
      NextMoves(s);
      OrderedStep(s, Next(s));
      var rest := Drain(Do(s, Next(s)));
      run := [Next(s)] + rest;
      ExecCons(s, Next(s), rest);
    }
  }

  /** A device that is offline, with nothing of an earlier socket left to handle. */
  ghost predicate Idle(s: State) {
    Ordered(s) && (s.stage == Offline || s.conn.closed) && s.wire == [] && s.cursor <= |s.journal|
  }

  function Reconnect(capacity: nat): seq<Action> {
    [Connect(capacity)] + ([Subscribe] + ([ReadReplay] + []))
  }

  lemma Reconnected(s: State, capacity: nat)
    requires Idle(s)
    ensures var t := Do(Do(Do(s, Connect(capacity)), Subscribe), ReadReplay);
            && t.stage == Replaying && !t.conn.closed && t.conn.capacity == capacity && t.reply == Whole
            && t.journal == s.journal && t.sid == s.sid && t.hello == s.cursor && t.base <= |s.journal|
            && t.pageEnd == Min(s.cursor + 100, |s.journal|) && NoticeFree(Pipeline(t), s.sid)
  {
    var t := Do(Do(Do(s, Connect(capacity)), Subscribe), ReadReplay);
    assert Pipeline(t) == t.replay + s.pending;
  }

  lemma ReconnectReads(s: State, capacity: nat)
    requires Idle(s) && capacity > 0
    ensures AllInOrder(s, Reconnect(capacity))
    ensures var t := Exec(s, Reconnect(capacity));
            && Drainable(t) && t.reply == Whole && t.journal == s.journal && t.sid == s.sid
            && t.hello == s.cursor && t.base <= |s.journal| && t.pageEnd == Min(s.cursor + 100, |s.journal|)
  {
    var s1 := Step(s, Connect(capacity));
    var s2 := Step(s1, Subscribe);
    var t := Step(s2, ReadReplay);
    ExecCons(s, Connect(capacity), [Subscribe] + ([ReadReplay] + []));
    ExecCons(s1, Subscribe, [ReadReplay] + []);
    ExecCons(s2, ReadReplay, []);
    Reconnected(s, capacity);
    OrderedStep(s, Connect(capacity));
    OrderedStep(s1, Subscribe);
    OrderedStep(s2, ReadReplay);
  }

  lemma {:induction false} ExecConcat(s: State, a: seq<Action>, b: seq<Action>)
    ensures Exec(s, a + b) == Exec(Exec(s, a), b)
    ensures AllInOrder(s, a + b) <==> AllInOrder(s, a) && AllInOrder(Exec(s, a), b)
    decreases |a|
  {
    if a == [] {
      assert a + b == b;
    } else {
      assert (a + b)[1..] == a[1..] + b;
      ExecConcat(Step(s, a[0]), a[1..], b);
    }
  }

  /** One connection of an idle device brings it 100 events further, or to the end. */
  lemma OneConnection(s: State, capacity: nat) returns (run: seq<Action>)
    requires Idle(s) && capacity > 0
    ensures AllInOrder(s, run)
    ensures var t := Exec(s, run);
            && t.stage == Live && !t.conn.closed && t.reply == Whole && Drained(t) && Ordered(t)
            && t.journal == s.journal && t.sid == s.sid && Min(s.cursor + 100, |s.journal|) <= t.cursor <= |s.journal|
  {
    var t := Exec(s, Reconnect(capacity));
    ReconnectReads(s, capacity);
    var drain := Drain(t);
    run := Reconnect(capacity) + drain;
    ExecConcat(s, Reconnect(capacity), drain);
  }

  lemma HangUp(s: State)
    requires Ordered(s) && s.stage != Offline
    ensures var t := Step(s, Disconnect);
            Ordered(t) && t.conn.closed && t.wire == s.wire && t.cursor == s.cursor && t.journal == s.journal && t.sid == s.sid
  {
    OrderedStep(s, Disconnect);
  }

  /** The frames of a socket that is gone are handled first. */
  lemma {:induction false} ClearWire(s: State, start: nat) returns (run: seq<Action>)
    requires Ordered(s) && Safe(s, start) && (s.stage == Offline || s.conn.closed) && NoticeFree(s.wire, s.sid)
    ensures AllInOrder(s, run)
    ensures var t := Exec(s, run); Idle(t) && Safe(t, start) && t.journal == s.journal && t.sid == s.sid && t.cursor >= s.cursor
    decreases |s.wire|
  {
    if s.wire == [] {
      run := [];
    } else {
      assert s.wire[0] in s.wire;
      var t := Step(s, HandleFrame(0));
      OrderedStep(s, HandleFrame(0));
      SafeStep(s, HandleFrame(0), start);
      assert t.wire == s.wire[1..];
      var rest := ClearWire(t, start);
      run := [HandleFrame(0)] + rest;
      ExecCons(s, HandleFrame(0), rest);
    }
  }

  /** As many connections as it takes. */
  lemma {:induction false} CatchUp(s: State, capacity: nat) returns (run: seq<Action>)
    requires Idle(s) && capacity > 0
    ensures AllInOrder(s, run)
    ensures var t := Exec(s, run);
            t.stage == Live && !t.conn.closed && t.reply == Whole && Drained(t) && t.journal == s.journal && t.sid == s.sid && t.cursor == |s.journal|
    decreases |s.journal| - s.cursor
  {
    run := OneConnection(s, capacity);
    var t := Exec(s, run);
    if t.cursor < |s.journal| {
      HangUp(t);
      var rest := CatchUp(Step(t, Disconnect), capacity);
      ExecCons(t, Disconnect, rest);
      ExecConcat(s, run, [Disconnect] + rest);
      run := run + ([Disconnect] + rest);
    }
  }

  /**
   Nothing is lost for good. From any state of an in-order run, wherever the connection
   stands and however far the device is behind, an in-order continuation without new
   events ends live, open and drained with the whole journal applied, each event once.
   The one thing in the way is a resync notice still to be handled.
   */
  lemma AlwaysRecovers(s: State, start: nat, capacity: nat) returns (run: seq<Action>)
    requires Ordered(s) && Safe(s, start) && NoticeFree(s.wire, s.sid) && capacity > 0
    ensures AllInOrder(s, run)
    ensures var t := Exec(s, run);
            && t.stage == Live && !t.conn.closed && t.reply == Whole && Drained(t) && t.journal == s.journal
            && t.cursor == |s.journal| && t.applied == Page(s.sid, s.journal, start, |s.journal|)
  {
    var u, hang := s, [];
    if s.stage != Offline {
      hang := [Disconnect];
      u := Step(s, Disconnect);
      HangUp(s);
      SafeStep(s, Disconnect, start);
      ExecCons(s, Disconnect, []);
      assert [Disconnect] + [] == hang;
    }
    var clear := ClearWire(u, start);
    var catch := CatchUp(Exec(u, clear), capacity);
    run := hang + (clear + catch);
    ExecConcat(s, hang, clear + catch);
    ExecConcat(u, clear, catch);
    OrderedRun(s, run, start);
  }

  /** In particular from the start: any device gets any journal, over as many connections as it takes. */
  lemma FirstContact(s: State, start: nat, capacity: nat) returns (run: seq<Action>)
    requires Init(s, start) && capacity > 0
    ensures AllInOrder(s, run)
    ensures var t := Exec(s, run);
            t.stage == Live && !t.conn.closed && t.reply == Whole && Drained(t) && t.applied == Page(s.sid, s.journal, start, |s.journal|)
  {
    InitIsSafe(s, start);
    run := AlwaysRecovers(s, start, capacity);
  }

  /** A gap of at most one page takes exactly one connection. */
  lemma OnePageOneConnection(s: State, start: nat, capacity: nat) returns (run: seq<Action>)
    requires Init(s, start) && capacity > 0 && |s.journal| - start <= 100
    ensures AllInOrder(s, run) && |run| >= 3 && run[..3] == [Connect(capacity), Subscribe, ReadReplay]
    ensures forall a :: a in run[3..] ==> !a.Connect? && !a.Disconnect?
    ensures var t := Exec(s, run);
            t.stage == Live && !t.conn.closed && t.reply == Whole && Drained(t) && t.cursor == |s.journal|
  {
    InitIsSafe(s, start);
    ReconnectReads(s, capacity);
    var t := Exec(s, Reconnect(capacity));
    var drain := Drain(t);
    run := Reconnect(capacity) + drain;
    ExecConcat(s, Reconnect(capacity), drain);
    assert run[3..] == drain;
  }

  /** An event committed while the device is live, up to date and drained reaches it. */
  lemma LiveDelivers(s: State, body: Body) returns (run: seq<Action>)
    requires Drainable(s) && s.stage == Live && s.reply == Whole && Drained(s) && s.cursor == |s.journal| && s.base <= s.pageEnd
    ensures AllInOrder(s, [Commit(body)] + run)
    ensures var t := Exec(s, [Commit(body)] + run);
            && t.stage == Live && !t.conn.closed && Drained(t)
            && t.journal == s.journal + [body] && t.cursor == |s.journal| + 1
  {
    var u := Step(s, Commit(body));
    OrderedStep(s, Commit(body));
    assert Pipeline(u) == [Event(s.sid, |s.journal| + 1, body)];
    run := Drain(u);
    ExecCons(s, Commit(body), run);
  }

  /** The writer moves the queue to the socket, in order. */
  lemma {:induction false} WritesDeliver(s: State, n: nat)
    requires s.stage != Offline && |s.conn.queue| == n
    ensures Exec(s, Writes(n)) == s.(conn := s.conn.(queue := []), wire := s.wire + s.conn.queue)
    decreases n
  {
    if n == 0 {
      assert s.wire + s.conn.queue == s.wire;
    } else {
      var t := Step(s, Write);
      WritesDeliver(t, n - 1);
      assert Writes(n)[1..] == Writes(n - 1);
      Shift(s.wire, s.conn.queue, []);
      assert t == s.(conn := s.conn.(queue := s.conn.queue[1..]), wire := s.wire + [s.conn.queue[0]]);
    }
  }

  function Writes(n: nat): seq<Action> {
    if n == 0 then [] else [Write] + Writes(n - 1)
  }

  /** A notice goes out behind what is queued, and sets the cursor back to the hello. */
  lemma NoticeArrives(s: State)
    requires s.stage == Live && !s.conn.closed && !s.conn.buffering && s.reply == Expired
    requires s.conn.queue == [] && s.wire == [] && s.conn.capacity > 0
    ensures var t := Step(Step(Step(s, SendNotice), Write), HandleFrame(0));
            t.cursor == s.hello && t.applied == s.applied && t.reply == Notified && t.wire == [] && t.conn.queue == []
  {
  }

  /** Frames of other sessions travel like any other: behind the buffered ones while buffering, straight to the queue otherwise. */
  lemma ForeignTravels(s: State, e: Envelope)
    requires Enabled(s, ForeignSend(e)) && !s.conn.closed && |s.conn.queue| < s.conn.capacity
    ensures var t := Step(s, ForeignSend(e));
            if s.conn.buffering then t.conn == s.conn.(buffer := s.conn.buffer + [e]) else t.conn == s.conn.(queue := s.conn.queue + [e])
    ensures Enabled(s, ForeignDirect(e)) ==> Step(s, ForeignDirect(e)).conn == s.conn.(queue := s.conn.queue + [e])
  {
  }

  /** The one queued event crosses the socket and is applied if it is the next one. */
  lemma LastLeg(s: State, e: Envelope)
    requires s.stage != Offline && s.conn.queue == [e] && s.wire == [] && Concerns(e, s.sid) && e.sequence == s.cursor + 1
    ensures Step(Step(s, Write), HandleFrame(0))
            == s.(conn := s.conn.(queue := []), cursor := s.cursor + 1, applied := s.applied + [e])
  {
    var t := Step(s, Write);
    assert t == s.(conn := s.conn.(queue := []), wire := [e]);
    assert Without([e], 0) == [];
  }

  /** A thinned page goes out as it is: its first event is applied if it is the next one. */
  lemma ThinnedTravels(s: State, page: seq<Envelope>)
    requires Enabled(s, ReadPurged(page)) && page != [] && page[0].sequence == s.cursor + 1
    requires !s.conn.closed && s.conn.queue == [] && s.wire == [] && s.conn.capacity > 0
    ensures var t := Step(Step(Step(Step(s, ReadPurged(page)), SendReplayed), Write), HandleFrame(0));
            t.cursor == s.cursor + 1 && t.applied == s.applied + [page[0]] && t.replay == page[1..]
  {
    var s2 := Step(Step(s, ReadPurged(page)), SendReplayed);
    assert s2.conn.queue == [page[0]];
    LastLeg(s2, page[0]);
  }
}
