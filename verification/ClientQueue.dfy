/**
 One WebSocket connection on the server: a bounded outbound queue, the replay
 buffer that holds live events back, and the backpressure close.
 The functions describe one atomic step each; the class runs them.
 */
module ClientQueue {
  import opened CursorGate
  import opened Outcomes

  /** The hub's limits: events replayed per cursor, slots of a client's queue. */
  const REPLAY_LIMIT: nat := 100
  const SEND_BUFFER: nat := 256

  const CLOSE_NORMAL := 4000
  const CLOSE_BACKPRESSURE := 4001

  datatype Connection = Connection(
    queue: seq<Envelope>,
    capacity: nat,
    buffering: bool,
    buffer: seq<Envelope>,
    closed: bool,
    slow: bool,
    closeCode: nat)
  {
    predicate Bounded() {
      |queue| <= capacity
    }
  }

  function Fresh(capacity: nat): Connection {
    Connection([], capacity, false, [], false, false, CLOSE_NORMAL)
  }

  function Closed(c: Connection): Connection {
    c.(closed := true)
  }

  function MarkSlow(c: Connection): Connection {
    Closed(c.(slow := true, closeCode := CLOSE_BACKPRESSURE))
  }

  /** The non-blocking channel send: queue it, or close the client when the queue is full. */
  function Enqueue(c: Connection, env: Envelope): Connection {
    if c.closed then c
    else if |c.queue| < c.capacity then c.(queue := c.queue + [env])
    else MarkSlow(c)
  }

  function Hold(c: Connection, env: Envelope): Connection {
    c.(buffer := c.buffer + [env])
  }

  function Send(c: Connection, env: Envelope): Connection {
    if c.closed then c
    else if c.buffering then Hold(c, env)
    else Enqueue(c, env)
  }

  function StartBuffering(c: Connection): Connection {
    c.(buffering := true, buffer := [])
  }

  /** Moves the buffered envelopes over one by one, and stops at the first that meets a closed client. */
  function Drain(c: Connection, held: seq<Envelope>): Connection
    decreases |held|
  {
    if held == [] || c.closed then c else Drain(Enqueue(c, held[0]), held[1..])
  }

  /** The end of a replay. On a closed client up to late buffered envelopes may still find room before the flush gives up. */
  function Flush(c: Connection, late: nat): Connection {
    (if c.closed then Squeeze(c, late) else Drain(c, c.buffer)).(buffer := [], buffering := false)
  }

  /** What a select between the queue and the closed signal may still let through. */
  function Squeeze(c: Connection, late: nat): Connection {
    c.(queue := c.queue + c.buffer[..Min(Min(late, |c.buffer|), Max(0, c.capacity - |c.queue|))])
  }

  lemma {:induction false} DrainSpec(c: Connection, held: seq<Envelope>)
    ensures !Drain(c, held).closed ==> Drain(c, held) == c.(queue := c.queue + held)
    ensures Drain(c, held).closed && !c.closed ==> Drain(c, held).slow && Drain(c, held).closeCode == 4001
    ensures !Drain(c, held).closed <==> !c.closed && (held == [] || |c.queue| + |held| <= c.capacity)
    ensures c.Bounded() ==> Drain(c, held).Bounded()
    ensures c.Bounded() && !c.closed ==> Drain(c, held).queue == c.queue + held[..Min(|held|, c.capacity - |c.queue|)]
    ensures Drain(c, held).capacity == c.capacity && Drain(c, held).buffering == c.buffering && Drain(c, held).buffer == c.buffer
    decreases |held|
  {
    if held == [] {
      assert c.queue + held == c.queue;
    } else if !c.closed {
      DrainSpec(Enqueue(c, held[0]), held[1..]);
      assert c.queue + [held[0]] + held[1..] == c.queue + held;
    }
  }

  /** Without buffered events a flush only ends the buffering. */
  lemma FlushNothing(c: Connection, late: nat)
    requires c.buffer == []
    ensures Flush(c, late) == c.(buffering := false)
  {
    assert c.queue + c.buffer[..0] == c.queue;
  }

  lemma {:induction false} DrainConcat(c: Connection, a: seq<Envelope>, b: seq<Envelope>)
    ensures Drain(c, a + b) == Drain(Drain(c, a), b)
    decreases |a|
  {
    if a == [] {
      assert a + b == b;
    } else if !c.closed {
      assert (a + b)[1..] == a[1..] + b;
      DrainConcat(Enqueue(c, a[0]), a[1..], b);
    }
  }

  // ------------------------------------------------------------ accounting over whole runs

  datatype Op =
    | DoSend(env: Envelope)
    | DoDirect(env: Envelope)
    | DoWrite
    | DoFailedWrite             // the writer takes an envelope, the socket refuses it
    | DoFlush(late: nat)
    | DoClose                   // the read loop has ended

  /** A connection together with what already went out on its socket. */
  datatype Traffic = Traffic(conn: Connection, written: seq<Envelope>)

  function Apply(t: Traffic, op: Op): Traffic {
    match op
    case DoSend(env) => t.(conn := Send(t.conn, env))
    case DoDirect(env) => t.(conn := Enqueue(t.conn, env))
    case DoFlush(late) => t.(conn := Flush(t.conn, late))
    case DoClose => t.(conn := Closed(t.conn))
    case DoFailedWrite => if t.conn.queue == [] then t else t.(conn := Closed(t.conn.(queue := t.conn.queue[1..])))
    case DoWrite =>
      if t.conn.queue == [] then t
      else Traffic(t.conn.(queue := t.conn.queue[1..]), t.written + [t.conn.queue[0]])
  }

  function Run(t: Traffic, ops: seq<Op>): Traffic
    decreases |ops|
  {
    if ops == [] then t else Run(Apply(t, ops[0]), ops[1..])
  }

  function Directs(ops: seq<Op>): seq<Envelope> {
    if ops == [] then [] else (if ops[0].DoDirect? then [ops[0].env] else []) + Directs(ops[1..])
  }

  function Lives(ops: seq<Op>): seq<Envelope> {
    if ops == [] then [] else (if ops[0].DoSend? then [ops[0].env] else []) + Lives(ops[1..])
  }

  function HandedBy(op: Op): seq<Envelope> {
    if op.DoSend? || op.DoDirect? then [op.env] else []
  }

  function Handed(ops: seq<Op>): seq<Envelope> {
    if ops == [] then []
    else HandedBy(ops[0]) + Handed(ops[1..])
  }

  predicate NoFlush(ops: seq<Op>) {
    forall op :: op in ops ==> !op.DoFlush?
  }

  /** How a connection may differ from an earlier self. */
  ghost predicate Evolves(c: Connection, d: Connection) {
    && d.capacity == c.capacity
    && (c.Bounded() ==> d.Bounded())
    && (c.closed ==> d.closed && d.slow == c.slow && d.closeCode == c.closeCode)
    && (Flagged(c) ==> Flagged(d))
  }

  /** Slow, code 4001 and closed by backpressure are one and the same. */
  predicate Flagged(c: Connection) {
    if c.slow then c.closed && c.closeCode == 4001 else c.closeCode == 4000
  }

  lemma StepEvolves(t: Traffic, op: Op)
    ensures Evolves(t.conn, Apply(t, op).conn)
  {
    DrainSpec(t.conn, t.conn.buffer);
  }

  /** Closing is final, the queue stays bounded, and slow and close code tell backpressure from every other close. */
  lemma {:induction false} RunEvolves(t: Traffic, ops: seq<Op>)
    ensures Evolves(t.conn, Run(t, ops).conn)
    decreases |ops|
  {
    if ops != [] {
      StepEvolves(t, ops[0]);
      RunEvolves(Apply(t, ops[0]), ops[1..]);
    }
  }

  lemma HeldStep(t: Traffic, op: Op)
    requires t.conn.buffering && !op.DoFlush? && !Apply(t, op).conn.closed
    ensures var u := Apply(t, op);
            u.conn.buffering
            && u.written + u.conn.queue == t.written + t.conn.queue + (if op.DoDirect? then [op.env] else [])
            && u.conn.buffer == t.conn.buffer + (if op.DoSend? then [op.env] else [])
  {
  }

  /** While live events are held back, retained events go out directly and nothing is lost. */
  lemma {:induction false} BufferingKeepsAll(t: Traffic, ops: seq<Op>)
    requires t.conn.buffering && NoFlush(ops) && !Run(t, ops).conn.closed
    ensures Run(t, ops).conn.buffering
    ensures Run(t, ops).written + Run(t, ops).conn.queue == t.written + t.conn.queue + Directs(ops)
    ensures Run(t, ops).conn.buffer == t.conn.buffer + Lives(ops)
    decreases |ops|
  {
    if ops != [] {
      var u, rest := Apply(t, ops[0]), ops[1..];
      RunEvolves(u, rest);
      HeldStep(t, ops[0]);
      BufferingKeepsAll(u, rest);
      var direct := if ops[0].DoDirect? then [ops[0].env] else [];
      Regroup(t.written + t.conn.queue, direct, Directs(rest));
      Regroup(t.conn.buffer, if ops[0].DoSend? then [ops[0].env] else [], Lives(rest));
    }
  }

  lemma LiveStep(t: Traffic, op: Op)
    requires !t.conn.buffering && t.conn.buffer == [] && !op.DoFlush? && !Apply(t, op).conn.closed
    ensures var u := Apply(t, op);
            !u.conn.buffering && u.conn.buffer == []
            && u.written + u.conn.queue == t.written + t.conn.queue + HandedBy(op)
  {
  }

  /** Once live, everything handed over goes out in the order it came. */
  lemma {:induction false} LiveKeepsAll(t: Traffic, ops: seq<Op>)
    requires !t.conn.buffering && t.conn.buffer == [] && NoFlush(ops) && !Run(t, ops).conn.closed
    ensures var r := Run(t, ops);
            !r.conn.buffering && r.conn.buffer == []
            && r.written + r.conn.queue == t.written + t.conn.queue + Handed(ops)
    decreases |ops|
  {
    if ops == [] {
      assert t.written + t.conn.queue + Handed(ops) == t.written + t.conn.queue;
    } else {
      var u := Apply(t, ops[0]);
      RunEvolves(u, ops[1..]);
      LiveStep(t, ops[0]);
      LiveKeepsAll(u, ops[1..]);
      Regroup(t.written + t.conn.queue, HandedBy(ops[0]), Handed(ops[1..]));
    }
  }

  lemma {:induction false} RunConcat(t: Traffic, a: seq<Op>, b: seq<Op>)
    ensures Run(t, a + b) == Run(Run(t, a), b)
    decreases |a|
  {
    if a == [] {
      assert a + b == b;
    } else {
      assert (a + b)[1..] == a[1..] + b;
      RunConcat(Apply(t, a[0]), a[1..], b);
    }
  }

  /**
   A connection that is still open has lost nothing: what was written and what is
   queued is every retained event, then every live event of the replay window,
   then everything handed over since. The queue never outgrows its bound, and a
   connection is marked slow and carries the backpressure code together or not at all.
   */
  lemma OpenClientsLoseNothing(capacity: nat, replaying: seq<Op>, late: nat, live: seq<Op>)
    requires NoFlush(replaying) && NoFlush(live)
    ensures var r := Run(Traffic(StartBuffering(Fresh(capacity)), []), replaying + [DoFlush(late)] + live);
            && r.conn.Bounded() && r.conn.capacity == capacity && Flagged(r.conn)
            && (!r.conn.closed ==>
                  r.written + r.conn.queue == Directs(replaying) + Lives(replaying) + Handed(live) && r.conn.buffer == [])
  {
    var t := Traffic(StartBuffering(Fresh(capacity)), []);
    RunEvolves(t, replaying + [DoFlush(late)] + live);
    ThreePhases(t, replaying, late, live);
    if !Run(t, replaying + [DoFlush(late)] + live).conn.closed {
      PhasesLoseNothing(t, replaying, late, live);
    }
  }

  lemma PhasesLoseNothing(t: Traffic, replaying: seq<Op>, late: nat, live: seq<Op>)
    requires NoFlush(replaying) && NoFlush(live) && t.conn.buffering && t.conn.buffer == []
    requires t.written == [] && t.conn.queue == []
    requires !Run(Apply(Run(t, replaying), DoFlush(late)), live).conn.closed
    ensures var r := Run(Apply(Run(t, replaying), DoFlush(late)), live);
            r.written + r.conn.queue == Directs(replaying) + Lives(replaying) + Handed(live) && r.conn.buffer == []
  {
    var t1 := Run(t, replaying);
    var t2 := Apply(t1, DoFlush(late));
    RunEvolves(t2, live);
    StepEvolves(t1, DoFlush(late));
    BufferingKeepsAll(t, replaying);
    FlushKeepsAll(t1, late);
    LiveKeepsAll(t2, live);
    assert [] + Directs(replaying) == Directs(replaying) && [] + Lives(replaying) == Lives(replaying);
  }

  lemma ThreePhases(t: Traffic, replaying: seq<Op>, late: nat, live: seq<Op>)
    ensures Run(t, replaying + [DoFlush(late)] + live) == Run(Apply(Run(t, replaying), DoFlush(late)), live)
  {
    Regroup(replaying, [DoFlush(late)], live);
    RunConcat(t, replaying, [DoFlush(late)] + live);
    assert ([DoFlush(late)] + live)[1..] == live;
  }

  /** A flush that the connection survives puts the buffered events behind the queued ones. */
  lemma FlushKeepsAll(t: Traffic, late: nat)
    requires !Apply(t, DoFlush(late)).conn.closed
    ensures var u := Apply(t, DoFlush(late));
            !u.conn.buffering && u.conn.buffer == [] && u.written + u.conn.queue == t.written + t.conn.queue + t.conn.buffer
  {
    DrainSpec(t.conn, t.conn.buffer);
  }

  /**
   Direct sends with writes in between: socket and queue get a prefix of what was sent,
   all of it while the connection is open, and never less than the free slots.
   */
  lemma {:induction false} DirectsDelivered(t: Traffic, ops: seq<Op>) returns (m: nat)
    requires forall op :: op in ops ==> op.DoDirect? || op.DoWrite?
    requires t.conn.Bounded() && !t.conn.closed
    ensures m <= |Directs(ops)| && (m < |Directs(ops)| ==> m >= t.conn.capacity - |t.conn.queue|)
    ensures var r := Run(t, ops);
            r.written + r.conn.queue == t.written + t.conn.queue + Directs(ops)[..m] && (r.conn.closed <==> m < |Directs(ops)|)
    decreases |ops|
  {
    if ops == [] {
      m := 0;
      assert t.written + t.conn.queue + Directs(ops)[..0] == t.written + t.conn.queue;
    } else {
      var u, rest := Apply(t, ops[0]), ops[1..];
      var sent := if ops[0].DoDirect? then [ops[0].env] else [];
      if u.conn.closed {
        m := 0;
        ClosedSendsNothing(u, rest);
        assert t.written + t.conn.queue + Directs(ops)[..0] == t.written + t.conn.queue;
      } else {
        var k := DirectsDelivered(u, rest);
        m := |sent| + k;
        DirectStep(t, ops[0]);
        assert Directs(ops)[..m] == sent + Directs(rest)[..k];
        Regroup(t.written + t.conn.queue, sent, Directs(rest)[..k]);
      }
    }
  }

  lemma DirectStep(t: Traffic, op: Op)
    requires (op.DoDirect? || op.DoWrite?) && !Apply(t, op).conn.closed
    ensures var u := Apply(t, op);
            u.written + u.conn.queue == t.written + t.conn.queue + (if op.DoDirect? then [op.env] else [])
  {
  }

  lemma {:induction false} ClosedSendsNothing(t: Traffic, ops: seq<Op>)
    requires t.conn.closed && forall op :: op in ops ==> op.DoDirect? || op.DoWrite?
    ensures Run(t, ops).written + Run(t, ops).conn.queue == t.written + t.conn.queue && Run(t, ops).conn.closed
    decreases |ops|
  {
    if ops != [] {
      var u := Apply(t, ops[0]);
      assert u.written + u.conn.queue == t.written + t.conn.queue;
      ClosedSendsNothing(u, ops[1..]);
    }
  }

  // ------------------------------------------------------ what a close may lose

  /** Everything the connection still accounts for. */
  function Kept(t: Traffic): multiset<Envelope> {
    multiset(t.written) + multiset(t.conn.queue) + multiset(t.conn.buffer)
  }

  /** The operation runs into a full queue. */
  predicate Overflows(c: Connection, op: Op) {
    match op
    case DoSend(_) => !c.buffering && |c.queue| >= c.capacity
    case DoDirect(_) => |c.queue| >= c.capacity
    case DoFlush(_) => c.buffer != [] && |c.queue| + |c.buffer| > c.capacity
    case _ => false
  }

  /** What an operation on an open connection drops. */
  function Dropped(c: Connection, op: Op): seq<Envelope> {
    match op
    case DoSend(env) => if Overflows(c, op) then [env] else []
    case DoDirect(env) => if Overflows(c, op) then [env] else []
    case DoFlush(_) => c.buffer[Min(|c.buffer|, Max(0, c.capacity - |c.queue|))..]
    case DoFailedWrite => c.queue[..Min(1, |c.queue|)]
    case _ => []
  }

  lemma FlushAccounts(t: Traffic, late: nat)
    requires !t.conn.closed && t.conn.Bounded()
    ensures Kept(Apply(t, DoFlush(late))) + multiset(Dropped(t.conn, DoFlush(late))) == Kept(t)
  {
    var c := t.conn;
    DrainSpec(c, c.buffer);
    var k := Min(|c.buffer|, c.capacity - |c.queue|);
    assert c.buffer == c.buffer[..k] + c.buffer[k..];
    assert multiset(Apply(t, DoFlush(late)).conn.queue) == multiset(c.queue) + multiset(c.buffer[..k]);
  }

  lemma WriteAccounts(t: Traffic, op: Op)
    requires !t.conn.closed && (op.DoWrite? || op.DoFailedWrite?)
    ensures Kept(Apply(t, op)) + multiset(Dropped(t.conn, op)) == Kept(t)
  {
    if t.conn.queue != [] {
      assert t.conn.queue == [t.conn.queue[0]] + t.conn.queue[1..];
      assert t.conn.queue[..1] == [t.conn.queue[0]];
    }
  }

  /**
   One operation on an open connection. Nothing is lost unless the operation closes it:
   by an overflow, which marks it slow and drops what found no room, or by a failed
   write, which loses the envelope in hand. A close by the read loop drops nothing.
   */
  lemma StepAccounts(t: Traffic, op: Op)
    requires !t.conn.closed && t.conn.Bounded() && Flagged(t.conn)
    ensures var u := Apply(t, op);
            && Kept(u) + multiset(Dropped(t.conn, op)) == Kept(t) + multiset(HandedBy(op))
            && (u.conn.slow <==> Overflows(t.conn, op))
            && (u.conn.closed <==> Overflows(t.conn, op) || op.DoClose? || (op.DoFailedWrite? && t.conn.queue != []))
            && (Dropped(t.conn, op) != [] ==> u.conn.closed && (u.conn.slow || op.DoFailedWrite?))
  {
    match op {
      case DoFlush(late) =>
        FlushAccounts(t, late);
        DrainSpec(t.conn, t.conn.buffer);
      case DoWrite => WriteAccounts(t, op);
      case DoFailedWrite => WriteAccounts(t, op);
      case _ =>
    }
  }

  /** The connection is open before operation n and closed by it. */
  predicate ClosedAt(t: Traffic, ops: seq<Op>, n: nat) {
    n < |ops| && !Run(t, ops[..n]).conn.closed && Apply(Run(t, ops[..n]), ops[n]).conn.closed
  }

  lemma RunOneMore(t: Traffic, ops: seq<Op>, n: nat)
    requires n < |ops|
    ensures Run(t, ops[..n + 1]) == Apply(Run(t, ops[..n]), ops[n])
  {
    assert ops[..n + 1] == ops[..n] + [ops[n]];
    RunConcat(t, ops[..n], [ops[n]]);
    assert [ops[n]][1..] == [];
  }

  /** As long as a connection is open, all it was ever handed is written, queued or buffered. */
  lemma {:induction false} OpenKeepsAll(t: Traffic, ops: seq<Op>)
    requires !Run(t, ops).conn.closed && !t.conn.closed && t.conn.Bounded() && Flagged(t.conn)
    ensures Kept(Run(t, ops)) == Kept(t) + multiset(Handed(ops))
    decreases |ops|
  {
    if ops != [] {
      var u := Apply(t, ops[0]);
      RunEvolves(u, ops[1..]);
      StepEvolves(t, ops[0]);
      StepAccounts(t, ops[0]);
      OpenKeepsAll(u, ops[1..]);
      assert Kept(u) == Kept(t) + multiset(HandedBy(ops[0]));
      Counted(HandedBy(ops[0]), Handed(ops[1..]));
    }
  }

  lemma Counted<T>(a: seq<T>, b: seq<T>)
    ensures multiset(a + b) == multiset(a) + multiset(b)
  {
  }

  lemma {:induction false} FirstClose(t: Traffic, ops: seq<Op>) returns (n: nat)
    requires !t.conn.closed && Run(t, ops).conn.closed
    ensures ClosedAt(t, ops, n)
  {
    if Run(t, ops[..|ops| - 1]).conn.closed {
      var init := ops[..|ops| - 1];
      n := FirstClose(t, init);
      assert init[..n] == ops[..n];
    } else {
      n := |ops| - 1;
      RunOneMore(t, ops, n);
      assert ops[..|ops|] == ops;
    }
  }

  /**
   Where everything went, for any mixture of operations. A connection that ended closed
   was closed by exactly one of them. Up to there all that was handed over is
   accounted for; that operation dropped nothing if it was the read loop's close, the
   envelope in hand if it was a failed write, and what found no room if it overflowed.
   The connection is marked slow if and only if it overflowed.
   */
  lemma ClosedClientsLoseAtTheClose(t: Traffic, ops: seq<Op>) returns (n: nat)
    requires !t.conn.closed && t.conn.Bounded() && Flagged(t.conn) && Run(t, ops).conn.closed
    ensures ClosedAt(t, ops, n)
    ensures var before, op := Run(t, ops[..n]), ops[n];
            && Kept(before) == Kept(t) + multiset(Handed(ops[..n]))
            && Kept(Run(t, ops[..n + 1])) + multiset(Dropped(before.conn, op)) == Kept(before) + multiset(HandedBy(op))
            && (Dropped(before.conn, op) != [] ==> op.DoFailedWrite? || Overflows(before.conn, op))
            && (Run(t, ops).conn.slow <==> Overflows(before.conn, op))
  {
    n := FirstClose(t, ops);
    var before := Run(t, ops[..n]);
    RunEvolves(t, ops[..n]);
    OpenKeepsAll(t, ops[..n]);
    RunOneMore(t, ops, n);
    StepAccounts(before, ops[n]);
    StaysAsClosed(t, ops, n + 1);
  }

  lemma StaysAsClosed(t: Traffic, ops: seq<Op>, n: nat)
    requires n <= |ops| && Run(t, ops[..n]).conn.closed
    ensures Run(t, ops).conn.slow == Run(t, ops[..n]).conn.slow
  {
    assert ops[..n] + ops[n..] == ops;
    RunConcat(t, ops[..n], ops[n..]);
    RunEvolves(Run(t, ops[..n]), ops[n..]);
  }

  // ------------------------------------------------------------ the class

  class Client {
    const capacity: nat
    var sendCh: seq<Envelope>
    var buffering: bool
    var buffer: seq<Envelope>
    var closed: bool
    var slow: bool
    var closeCode: nat
    var written: seq<Envelope>

    function State(): Connection
      reads this
    {
      Connection(sendCh, capacity, buffering, buffer, closed, slow, closeCode)
    }

    constructor (sendBuffer: nat)
      ensures State() == Fresh(sendBuffer) && written == []
      ensures State() == Connection([], sendBuffer, false, [], false, false, 4000)
    {
      capacity := sendBuffer;
      sendCh, buffering, buffer, closed, slow, closeCode, written := [], false, [], false, false, CLOSE_NORMAL, [];
    }

    /** Safe to call more than once; the caller unsubscribes a client it closed. */
    method Close()
      modifies this
      ensures State() == old(State()).(closed := true) && written == old(written)
    {
      closed := true;
    }

    method MarkClientSlow()
      modifies this
      ensures State() == old(State()).(slow := true, closeCode := 4001, closed := true) && written == old(written)
    {
      slow := true;
      closeCode := CLOSE_BACKPRESSURE;
      Close();
    }

    method SendEnvelope(env: Envelope)
      modifies this
      ensures State() == Send(old(State()), env) && written == old(written)
      ensures old(closed) ==> State() == old(State())
      ensures !old(closed) && old(buffering) ==> State() == old(State()).(buffer := old(buffer) + [env])
      ensures !old(closed) && !old(buffering) && |old(sendCh)| < capacity ==> State() == old(State()).(queue := old(sendCh) + [env])
      ensures !old(closed) && !old(buffering) && |old(sendCh)| >= capacity ==>
                State() == old(State()).(slow := true, closeCode := 4001, closed := true)
    {
      if closed {
        return;
      }
      if buffering {
        buffer := buffer + [env];
        return;
      }
      if |sendCh| < capacity {
        sendCh := sendCh + [env];
      } else {
        MarkClientSlow();
      }
    }

    method SendDirect(env: Envelope)
      modifies this
      ensures State() == Enqueue(old(State()), env) && written == old(written)
      ensures old(closed) ==> State() == old(State())
      ensures !old(closed) && |old(sendCh)| < capacity ==> State() == old(State()).(queue := old(sendCh) + [env])
      ensures !old(closed) && |old(sendCh)| >= capacity ==> State() == old(State()).(slow := true, closeCode := 4001, closed := true)
    {
      if closed {
        return;
      }
      if |sendCh| < capacity {
        sendCh := sendCh + [env];
      } else {
        MarkClientSlow();
      }
    }

    method BeginBuffering()
      modifies this
      ensures State() == StartBuffering(old(State())) && written == old(written)
      ensures State() == old(State()).(buffering := true, buffer := [])
    {
      buffering := true;
      buffer := [];
    }

    /**
     late says how often the select prefers the queue to the closed signal while both
     are ready: on a client that was closed before, so many envelopes may still get in.
     */
    method FlushAndStopBuffering(late: nat)
      modifies this
      ensures State() == Flush(old(State()), late) && written == old(written)
      ensures !buffering && buffer == [] && old(sendCh) <= sendCh
      ensures !old(closed) && |old(sendCh)| + |old(buffer)| <= capacity ==> !closed && sendCh == old(sendCh) + old(buffer)
    {
      DrainSpec(State(), buffer);
      ghost var start := State();
      var i, luck := 0, late;
      while i < |buffer|
        invariant 0 <= i <= |buffer| && buffer == start.buffer && written == old(written)
        invariant !start.closed ==> Drain(start, start.buffer) == Drain(State(), buffer[i..])
        invariant !start.closed && closed ==> |sendCh| >= capacity
        invariant start.closed ==> State() == start.(queue := start.queue + buffer[..i])
        invariant start.closed ==> i <= late && luck == late - i && (i > 0 ==> |sendCh| <= capacity)
        decreases |buffer| - i
      {
        assert buffer[i..][1..] == buffer[i + 1..];
        assert buffer[..i + 1] == buffer[..i] + [buffer[i]];
        if closed {
          if luck == 0 || |sendCh| >= capacity {
            buffer := [];
            buffering := false;
            return;
          }
          luck := luck - 1;
          Regroup(start.queue, start.buffer[..i], [start.buffer[i]]);
          sendCh := sendCh + [buffer[i]];
        } else if |sendCh| < capacity {
          sendCh := sendCh + [buffer[i]];
        } else {
          MarkClientSlow();
        }
        i := i + 1;
      }
      assert buffer[..|buffer|] == buffer && buffer[|buffer|..] == [];
      buffer := [];
      buffering := false;
    }

    /**
     Pumps the queue to the socket. outcomes lists the results of the next writes; the
     pump stops at a failed write, which closes the client, or when it would block. On a
     client that is closed already, its select may still prefer the queue late times.
     */
    method RunWriter(outcomes: seq<bool>, late: nat) returns (attempts: nat)
      modifies this
      ensures attempts <= |outcomes| && attempts <= |old(sendCh)|
      ensures sendCh == old(sendCh)[attempts..]
      ensures var ok := if attempts > 0 && !outcomes[attempts - 1] then attempts - 1 else attempts;
              written == old(written) + old(sendCh)[..ok] && (closed <==> old(closed) || ok < attempts)
              && forall k :: 0 <= k < ok ==> outcomes[k]
      ensures old(closed) ==> attempts <= late
      ensures !closed ==> attempts == |outcomes| || sendCh == []
      ensures State() == old(State()).(queue := sendCh, closed := closed)
    {
      attempts := 0;
      while attempts < |outcomes| && sendCh != [] && (!closed || attempts < late)
        invariant attempts <= |outcomes| && attempts <= |old(sendCh)| && (old(closed) ==> attempts <= late)
        invariant sendCh == old(sendCh)[attempts..] && closed == old(closed)
        invariant written == old(written) + old(sendCh)[..attempts]
        invariant forall k :: 0 <= k < attempts ==> outcomes[k]
        invariant State() == old(State()).(queue := sendCh)
        decreases |outcomes| - attempts
      {
        var env := sendCh[0];
        sendCh := sendCh[1..];
        if !outcomes[attempts] {
          Close();
          return attempts + 1;
        }
        written := written + [env];
        assert old(sendCh)[..attempts + 1] == old(sendCh)[..attempts] + [env];
        attempts := attempts + 1;
      }
    }
  }
}
