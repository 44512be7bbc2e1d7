/**
 The fan-out hub: per-session subscriber sets, publishing to a snapshot of them,
 and the replay that brings one client up to date before it goes live.
 */
module Hub {
  import opened Outcomes
  import opened CursorGate
  import opened Journal
  import Q = ClientQueue

  /** One resume point of a hello. */
  datatype Cursor = Cursor(session: SessionId, after: nat)

  function ToEnvelope(row: Row): Envelope {
    Event(row.session, row.sequence, row.body)
  }

  function ToEnvelopes(rows: seq<Row>): (envs: seq<Envelope>)
    ensures |envs| == |rows| && forall i :: 0 <= i < |rows| ==> envs[i] == ToEnvelope(rows[i])
  {
    seq(|rows|, i requires 0 <= i < |rows| => ToEnvelope(rows[i]))
  }

  /** The stored journal as replay sees it at one moment. */
  datatype Store = Store(table: seq<Row>, sessions: map<SessionId, SessionRow>, retention: nat, now: int)

  function ReplayOf(store: Store, cur: Cursor): Result<CursorResult, StoreError> {
    ReplayPage(SessionRows(store.table, cur.session),
               if cur.session in store.sessions then Some(store.sessions[cur.session]) else None,
               store.retention, store.now, cur.after, Q.REPLAY_LIMIT)
  }

  predicate Serves(store: Store, cur: Cursor) {
    ReplayOf(store, cur).Ok? && !ReplayOf(store, cur).value.resyncRequired
  }

  function FramesFor(store: Store, cur: Cursor): (frames: seq<Envelope>)
    ensures |frames| <= 100
    ensures forall e :: e in frames ==> e.Event? && e.session == cur.session
  {
    if Serves(store, cur) then
      var events := ReplayOf(store, cur).value.events;
      AfterMembers(SessionRows(store.table, cur.session), cur.after);
      ToEnvelopes(events)
    else []
  }

  lemma {:induction false} AfterMembers(rows: seq<Row>, after: int)
    ensures forall r :: r in After(rows, after) ==> r in rows
  {
    if rows != [] {
      AfterMembers(rows[1..], after);
    }
  }

  /** All retained events of a hello, cursor by cursor. */
  function Frames(store: Store, cursors: seq<Cursor>): seq<Envelope> {
    if cursors == [] then [] else Frames(store, cursors[..|cursors| - 1]) + FramesFor(store, cursors[|cursors| - 1])
  }

  function Resyncs(store: Store, cursors: seq<Cursor>): seq<Envelope> {
    if cursors == [] then []
    else
      var last := cursors[|cursors| - 1];
      Resyncs(store, cursors[..|cursors| - 1])
      + (if ReplayOf(store, last).Ok? && !Serves(store, last) then [Resync(last.session, last.after)] else [])
  }

  /** The cursor is beyond retention: its row is gone and the session is older than the retention time. */
  predicate BeyondRetention(store: Store, cur: Cursor) {
    && RowGone(store, cur)
    && cur.session in store.sessions && store.sessions[cur.session].createdAt.Some?
    && store.now - store.sessions[cur.session].createdAt.value > store.retention
  }

  /** Retention is on and the row of a cursor that is not at the start is missing. */
  predicate RowGone(store: Store, cur: Cursor) {
    store.retention != 0 && cur.after != 0 && forall r :: r in store.table && r.session == cur.session ==> r.sequence != cur.after
  }

  /** Which cursors are refused, and how: with a notice beyond retention, silently for an unknown session whose row is gone. */
  lemma RefusalIff(store: Store, cur: Cursor)
    ensures Serves(store, cur) <==> !BeyondRetention(store, cur) && !(RowGone(store, cur) && cur.session !in store.sessions)
    ensures ReplayOf(store, cur).Ok? && !Serves(store, cur) <==> BeyondRetention(store, cur)
  {
    assert Has(SessionRows(store.table, cur.session), cur.after)
           <==> exists r :: r in store.table && r.session == cur.session && r.sequence == cur.after;
  }

  /** One notice for every cursor beyond retention, naming it, in the order of the hello. */
  lemma {:induction false} NoticesInOrder(store: Store, cursors: seq<Cursor>) returns (from: seq<nat>)
    ensures |from| == |Resyncs(store, cursors)|
    ensures forall i :: 0 <= i < |from| ==>
              from[i] < |cursors| && Resyncs(store, cursors)[i] == Resync(cursors[from[i]].session, cursors[from[i]].after)
    ensures forall i, j :: 0 <= i < j < |from| ==> from[i] < from[j]
    ensures forall k: nat :: k < |cursors| ==> (k in from <==> BeyondRetention(store, cursors[k]))
  {
    from := [];
    if cursors != [] {
      var k := |cursors| - 1;
      from := NoticesInOrder(store, cursors[..k]);
      RefusalIff(store, cursors[k]);
      if BeyondRetention(store, cursors[k]) {
        from := from + [k];
      }
    }
  }

  predicate Asked(cursors: seq<Cursor>, sid: SessionId) {
    exists cur :: cur in cursors && cur.session == sid
  }

  predicate Refused(store: Store, cursors: seq<Cursor>, sid: SessionId) {
    exists cur :: cur in cursors && cur.session == sid && !Serves(store, cur)
  }

  // ---------------------------------------------------------------- catching up

  /** A journal nobody purged, as table rows. */
  ghost predicate Dense(rows: seq<Row>, sid: SessionId, journal: seq<Body>) {
    |rows| == |journal| && forall i :: 0 <= i < |rows| ==>
      rows[i].session == sid && rows[i].sequence == i + 1 && rows[i].body == journal[i]
  }

  /** What replay hands to one client is the journal page that starts at its cursor. */
  lemma ReplayIsPage(store: Store, cur: Cursor, journal: seq<Body>)
    requires Dense(SessionRows(store.table, cur.session), cur.session, journal)
    requires cur.after <= |journal|
    ensures Serves(store, cur)
    ensures FramesFor(store, cur) == Page(cur.session, journal, cur.after, Min(cur.after + 100, |journal|))
  {
    DenseReplay(SessionRows(store.table, cur.session), if cur.session in store.sessions then Some(store.sessions[cur.session]) else None,
                store.retention, store.now, cur, journal);
  }

  lemma DenseReplay(rows: seq<Row>, session: Option<SessionRow>, retention: nat, now: int, cur: Cursor, journal: seq<Body>)
    requires Dense(rows, cur.session, journal) && cur.after <= |journal|
    ensures var r := ReplayPage(rows, session, retention, now, cur.after, Q.REPLAY_LIMIT);
            && r.Ok? && !r.value.resyncRequired
            && ToEnvelopes(r.value.events) == Page(cur.session, journal, cur.after, Min(cur.after + Q.REPLAY_LIMIT, |journal|))
  {
    HeldCursor(rows, cur.after, cur.session, journal);
    AfterAt(rows, cur.after, cur.after);
    var end := Min(cur.after + Q.REPLAY_LIMIT, |journal|);
    TakeSlice(rows, cur.after, Q.REPLAY_LIMIT);
    DensePage(rows, cur.session, journal, cur.after, end);
    assert ReplayPage(rows, session, retention, now, cur.after, Q.REPLAY_LIMIT).value.events == rows[cur.after..end];
  }

  lemma HeldCursor(rows: seq<Row>, after: nat, sid: SessionId, journal: seq<Body>)
    requires Dense(rows, sid, journal) && after <= |journal|
    ensures after == 0 || Has(rows, after)
  {
    if after > 0 {
      assert rows[after - 1] in rows;
    }
  }

  lemma DensePage(rows: seq<Row>, sid: SessionId, journal: seq<Body>, lo: nat, hi: nat)
    requires Dense(rows, sid, journal) && lo <= hi <= |journal|
    ensures ToEnvelopes(rows[lo..hi]) == Page(sid, journal, lo, hi)
  {
    forall i | 0 <= i < hi - lo ensures ToEnvelopes(rows[lo..hi])[i] == Page(sid, journal, lo, hi)[i] {
      assert rows[lo..hi][i] == rows[lo + i];
    }
  }

  /** Frames of other sessions, whole or cut off, leave the cursor where it is. */
  lemma {:induction false} FramesAreOf(store: Store, cursors: seq<Cursor>, sid: SessionId)
    requires forall cur :: cur in cursors ==> cur.session != sid
    ensures forall e :: e in Frames(store, cursors) ==> !Concerns(e, sid)
  {
    if cursors != [] {
      FramesAreOf(store, cursors[..|cursors| - 1], sid);
    }
  }

  lemma {:induction false} FramesConcat(store: Store, a: seq<Cursor>, b: seq<Cursor>)
    ensures Frames(store, a + b) == Frames(store, a) + Frames(store, b)
    decreases |b|
  {
    if b == [] {
      assert a + b == a;
    } else {
      var init, last := b[..|b| - 1], b[|b| - 1];
      assert (a + b)[..|a + b| - 1] == a + init && (a + b)[|a + b| - 1] == last;
      FramesConcat(store, a, init);
      Regroup(Frames(store, a), Frames(store, init), FramesFor(store, last));
    }
  }

  /** The first k frames of a cursor's own page move it by k. */
  lemma OwnPrefix(store: Store, cur: Cursor, journal: seq<Body>, k: nat)
    requires Dense(SessionRows(store.table, cur.session), cur.session, journal)
    requires cur.after <= |journal| && k <= |FramesFor(store, cur)|
    ensures |FramesFor(store, cur)| == Gap(cur, journal)
    ensures Gate(cur.after, cur.session, FramesFor(store, cur)[..k]) == cur.after + k
  {
    ReplayIsPage(store, cur, journal);
    assert FramesFor(store, cur)[..k] == Page(cur.session, journal, cur.after, cur.after + k);
    GatePage(cur.after, cur.session, journal, cur.after, cur.after + k);
  }

  /** How far a replay page can bring a cursor: the K events ahead of it, 100 at most. */
  function Gap(cur: Cursor, journal: seq<Body>): nat
    requires cur.after <= |journal|
  {
    Min(|journal| - cur.after, Q.REPLAY_LIMIT)
  }

  /** The sequence before + own + behind, cut off after m elements. */
  lemma CutOff<T>(before: seq<T>, own: seq<T>, behind: seq<T>, m: nat)
    requires m <= |before| + |own| + |behind|
    ensures var k := Min(|own|, Max(0, m - |before|));
            (before + own + behind)[..m] == before[..Min(m, |before|)] + own[..k] + behind[..Max(0, m - |before| - |own|)]
  {
  }

  /** Cursor i after a connection that passes on the first m frames: its page, or what the frames before it leave of m. */
  function Brought(store: Store, cursors: seq<Cursor>, i: nat, journal: seq<Body>, m: nat): nat
    requires i < |cursors| && cursors[i].after <= |journal|
  {
    cursors[i].after + Min(Gap(cursors[i], journal), Max(0, m - |Frames(store, cursors[..i])|))
  }

  /** A cut stream moves the cursor as far as its own part is let through. */
  lemma CutGate(c: nat, sid: SessionId, before: seq<Envelope>, own: seq<Envelope>, behind: seq<Envelope>, m: nat)
    requires m <= |before| + |own| + |behind|
    requires forall e :: e in before || e in behind ==> !Concerns(e, sid)
    requires forall k :: 0 <= k <= |own| ==> Gate(c, sid, own[..k]) == c + k
    ensures Gate(c, sid, (before + own + behind)[..m]) == c + Min(|own|, Max(0, m - |before|))
  {
    var k := Min(|own|, Max(0, m - |before|));
    var head, tail := before[..Min(m, |before|)], behind[..Max(0, m - |before| - |own|)];
    CutOff(before, own, behind, m);
    GateConcat(c, sid, head + own[..k], tail);
    GateConcat(c, sid, head, own[..k]);
    GateSkips(c, sid, head);
    GateSkips(c + k, sid, tail);
  }

  /**
   What the first m frames of a hello do for cursor i: it moves by its page, or by as
   much of it as the frames before it leave room for.
   */
  lemma PrefixAdvances(store: Store, cursors: seq<Cursor>, i: nat, journal: seq<Body>, m: nat)
    requires i < |cursors| && m <= |Frames(store, cursors)|
    requires forall j :: 0 <= j < |cursors| && j != i ==> cursors[j].session != cursors[i].session
    requires Dense(SessionRows(store.table, cursors[i].session), cursors[i].session, journal)
    requires cursors[i].after <= |journal|
    ensures Gate(cursors[i].after, cursors[i].session, Frames(store, cursors)[..m])
            == Brought(store, cursors, i, journal, m)
    ensures |Frames(store, cursors)| >= |Frames(store, cursors[..i])| + Gap(cursors[i], journal)
  {
    var cur := cursors[i];
    var own := FramesFor(store, cur);
    SplitFrames(store, cursors, i);
    FramesAreOf(store, cursors[..i], cur.session);
    FramesAreOf(store, cursors[i + 1..], cur.session);
    OwnPrefix(store, cur, journal, 0);
    forall k | 0 <= k <= |own| ensures Gate(cur.after, cur.session, own[..k]) == cur.after + k {
      OwnPrefix(store, cur, journal, k);
    }
    CutGate(cur.after, cur.session, Frames(store, cursors[..i]), own, Frames(store, cursors[i + 1..]), m);
  }

  lemma SplitFrames(store: Store, cursors: seq<Cursor>, i: nat)
    requires i < |cursors|
    ensures Frames(store, cursors) == Frames(store, cursors[..i]) + FramesFor(store, cursors[i]) + Frames(store, cursors[i + 1..])
    ensures Frames(store, cursors[..i + 1]) == Frames(store, cursors[..i]) + FramesFor(store, cursors[i])
  {
    assert cursors == cursors[..i + 1] + cursors[i + 1..];
    FramesConcat(store, cursors[..i + 1], cursors[i + 1..]);
    assert cursors[..i + 1][..i] == cursors[..i];
  }

  /** All frames of a hello through a fresh connection, with the writer at work in between. */
  predicate Replays(ops: seq<Q.Op>, store: Store, cursors: seq<Cursor>) {
    (forall op :: op in ops ==> op.DoDirect? || op.DoWrite?) && Q.Directs(ops) == Frames(store, cursors)
  }

  /**
   What one connection does for its cursors. Whatever the writer manages meanwhile, the
   socket and the queue get the first m frames, at least as many as the queue has slots,
   and cursor i moves by min(K, 100) or by what the frames before it leave of m.
   */
  lemma ConnectionAdvances(store: Store, cursors: seq<Cursor>, ops: seq<Q.Op>, i: nat, journal: seq<Body>) returns (m: nat)
    requires Replays(ops, store, cursors) && i < |cursors|
    requires forall j :: 0 <= j < |cursors| && j != i ==> cursors[j].session != cursors[i].session
    requires Dense(SessionRows(store.table, cursors[i].session), cursors[i].session, journal)
    requires cursors[i].after <= |journal|
    ensures Min(256, |Frames(store, cursors)|) <= m <= |Frames(store, cursors)|
    ensures var r := Q.Run(Q.Traffic(Q.StartBuffering(Q.Fresh(256)), []), ops);
            && r.written + r.conn.queue == Frames(store, cursors)[..m] && (!r.conn.closed <==> m == |Frames(store, cursors)|)
            && Gate(cursors[i].after, cursors[i].session, r.written + r.conn.queue)
               == Brought(store, cursors, i, journal, m)
  {
    m := Q.DirectsDelivered(Q.Traffic(Q.StartBuffering(Q.Fresh(Q.SEND_BUFFER)), []), ops);
    PrefixAdvances(store, cursors, i, journal, m);
  }

  /** Where a connection leaves a cursor whose replay finds the writer idle. */
  function Reached(store: Store, cursors: seq<Cursor>, cur: Cursor): nat {
    Gate(cur.after, cur.session, AfterReplay(Q.Fresh(Q.SEND_BUFFER), store, cursors).queue)
  }

  lemma IdleQueue(store: Store, cursors: seq<Cursor>)
    ensures AfterReplay(Q.Fresh(Q.SEND_BUFFER), store, cursors).queue
            == Frames(store, cursors)[..Slots(store, cursors)]
  {
    var c, frames := Q.StartBuffering(Q.Fresh(Q.SEND_BUFFER)), Frames(store, cursors);
    Q.DrainSpec(c, frames);
    Q.FlushNothing(Q.Drain(c, frames), 0);
    assert c.queue + frames[..Slots(store, cursors)] == frames[..Slots(store, cursors)];
  }

  /** How many frames of a hello find a slot. */
  function Slots(store: Store, cursors: seq<Cursor>): (m: nat)
    ensures m <= |Frames(store, cursors)|
  {
    Min(|Frames(store, cursors)|, Q.SEND_BUFFER)
  }

  lemma ReachedThroughQueue(store: Store, cursors: seq<Cursor>, cur: Cursor)
    ensures Reached(store, cursors, cur) == Gate(cur.after, cur.session, Frames(store, cursors)[..Slots(store, cursors)])
  {
    IdleQueue(store, cursors);
  }

  /** With an idle writer cursor i moves by min(K, 100, what the frames before it leave of the 256 slots). */
  lemma IdleAdvances(store: Store, cursors: seq<Cursor>, i: nat, journal: seq<Body>)
    requires i < |cursors|
    requires forall j :: 0 <= j < |cursors| && j != i ==> cursors[j].session != cursors[i].session
    requires Dense(SessionRows(store.table, cursors[i].session), cursors[i].session, journal)
    requires cursors[i].after <= |journal|
    ensures Reached(store, cursors, cursors[i]) == Brought(store, cursors, i, journal, 256)
  {
    ReachedThroughQueue(store, cursors, cursors[i]);
    PrefixAdvances(store, cursors, i, journal, Slots(store, cursors));
    RoomLeft(store, cursors, i, journal);
  }

  /** Whether all slots are counted or only those that find a frame, the room for a page is the same. */
  lemma RoomLeft(store: Store, cursors: seq<Cursor>, i: nat, journal: seq<Body>)
    requires i < |cursors| && cursors[i].after <= |journal|
    requires |Frames(store, cursors)| >= |Frames(store, cursors[..i])| + Gap(cursors[i], journal)
    ensures Brought(store, cursors, i, journal, Slots(store, cursors)) == Brought(store, cursors, i, journal, Q.SEND_BUFFER)
  {
  }

  /** Cursors of distinct sessions, each inside its own unpurged journal. */
  ghost predicate Resumable(store: Store, cursors: seq<Cursor>, journals: seq<seq<Body>>) {
    && |journals| == |cursors|
    && (forall i, j :: 0 <= i < j < |cursors| ==> cursors[i].session != cursors[j].session)
    && (forall i :: 0 <= i < |cursors| ==>
          cursors[i].after <= |journals[i]|
          && Dense(SessionRows(store.table, cursors[i].session), cursors[i].session, journals[i]))
  }

  ghost predicate FullyServed(store: Store, cursors: seq<Cursor>, journals: seq<seq<Body>>, i: nat)
    requires Resumable(store, cursors, journals) && i < |cursors|
  {
    Reached(store, cursors, cursors[i]) == cursors[i].after + Gap(cursors[i], journals[i])
  }

  /** If the first n cursors are fully served, their frames fit. */
  lemma {:induction false} ServedFit(store: Store, cursors: seq<Cursor>, journals: seq<seq<Body>>, n: nat)
    requires Resumable(store, cursors, journals) && n <= |cursors|
    requires forall i :: 0 <= i < n ==> FullyServed(store, cursors, journals, i)
    ensures |Frames(store, cursors[..n])| <= Q.SEND_BUFFER
    decreases n
  {
    if n > 0 {
      ServedFit(store, cursors, journals, n - 1);
      assert FullyServed(store, cursors, journals, n - 1);
      OneMoreFits(store, cursors, n - 1, journals[n - 1]);
    }
  }

  lemma OneMoreFits(store: Store, cursors: seq<Cursor>, i: nat, journal: seq<Body>)
    requires i < |cursors|
    requires forall j :: 0 <= j < |cursors| && j != i ==> cursors[j].session != cursors[i].session
    requires Dense(SessionRows(store.table, cursors[i].session), cursors[i].session, journal)
    requires cursors[i].after <= |journal|
    requires Reached(store, cursors, cursors[i]) == cursors[i].after + Gap(cursors[i], journal)
    requires |Frames(store, cursors[..i])| <= Q.SEND_BUFFER
    ensures |Frames(store, cursors[..i + 1])| <= Q.SEND_BUFFER
  {
    IdleAdvances(store, cursors, i, journal);
    FramesUpTo(store, cursors, i, journal);
    PageFits(Gap(cursors[i], journal), |Frames(store, cursors[..i])|);
  }

  lemma FramesUpTo(store: Store, cursors: seq<Cursor>, i: nat, journal: seq<Body>)
    requires i < |cursors| && cursors[i].after <= |journal|
    requires Dense(SessionRows(store.table, cursors[i].session), cursors[i].session, journal)
    ensures |Frames(store, cursors[..i + 1])| == |Frames(store, cursors[..i])| + Gap(cursors[i], journal)
  {
    SplitFrames(store, cursors, i);
    OwnPrefix(store, cursors[i], journal, 0);
  }

  lemma PageFits(gap: nat, before: nat)
    requires before <= Q.SEND_BUFFER && gap == Min(gap, Max(0, Q.SEND_BUFFER - before))
    ensures before + gap <= Q.SEND_BUFFER
  {
  }

  /** Every cursor gets its full page from an idle connection if and only if all frames fit into its 256 slots. */
  lemma AllServedIff(store: Store, cursors: seq<Cursor>, journals: seq<seq<Body>>)
    requires Resumable(store, cursors, journals)
    ensures (forall i :: 0 <= i < |cursors| ==> FullyServed(store, cursors, journals, i))
            <==> |Frames(store, cursors)| <= 256
  {
    assert cursors[..|cursors|] == cursors;
    if |Frames(store, cursors)| <= Q.SEND_BUFFER {
      forall i | 0 <= i < |cursors| ensures FullyServed(store, cursors, journals, i) {
        IdleAdvances(store, cursors, i, journals[i]);
        PrefixAdvances(store, cursors, i, journals[i], 0);
      }
    }
    if forall i :: 0 <= i < |cursors| ==> FullyServed(store, cursors, journals, i) {
      ServedFit(store, cursors, journals, |cursors|);
    }
  }

  /** The cursor after one connection that ends when the replay has been applied. */
  function Reconnected(store: Store, cur: Cursor): Cursor {
    cur.(after := Reached(store, [cur], cur))
  }

  /** The cursor after n connections that each end when the replay has been applied. */
  function AfterConnections(store: Store, cur: Cursor, n: nat): nat
    decreases n
  {
    if n == 0 then cur.after
    else AfterConnections(store, Reconnected(store, cur), n - 1)
  }

  lemma OneConnection(store: Store, cur: Cursor, journal: seq<Body>)
    requires Dense(SessionRows(store.table, cur.session), cur.session, journal)
    requires cur.after <= |journal|
    ensures Reconnected(store, cur) == cur.(after := Min(|journal|, cur.after + Q.REPLAY_LIMIT))
  {
    IdleAdvances(store, [cur], 0, journal);
    assert Frames(store, [cur][..0]) == [];
  }

  lemma {:induction false} ConnectionsAdvance(store: Store, cur: Cursor, n: nat, journal: seq<Body>)
    requires Dense(SessionRows(store.table, cur.session), cur.session, journal)
    requires cur.after <= |journal|
    ensures AfterConnections(store, cur, n) == Min(|journal|, cur.after + n * Q.REPLAY_LIMIT)
    decreases n
  {
    if n > 0 {
      AfterOne(store, cur, n, journal);
      ConnectionsAdvance(store, cur.(after := Min(|journal|, cur.after + Q.REPLAY_LIMIT)), n - 1, journal);
      StepsAddUp(|journal|, cur.after, n);
    }
  }

  lemma AfterOne(store: Store, cur: Cursor, n: nat, journal: seq<Body>)
    requires Dense(SessionRows(store.table, cur.session), cur.session, journal)
    requires cur.after <= |journal| && n > 0
    ensures AfterConnections(store, cur, n) == AfterConnections(store, cur.(after := Min(|journal|, cur.after + Q.REPLAY_LIMIT)), n - 1)
  {
    OneConnection(store, cur, journal);
  }

  lemma StepsAddUp(top: nat, after: nat, n: nat)
    requires after <= top && n > 0
    ensures Min(top, Min(top, after + Q.REPLAY_LIMIT) + (n - 1) * Q.REPLAY_LIMIT) == Min(top, after + n * Q.REPLAY_LIMIT)
  {
  }

  /** ceil(K / 100) connections are enough, and no fewer are. */
  lemma CatchUpTerminates(store: Store, cur: Cursor, n: nat, journal: seq<Body>)
    requires Dense(SessionRows(store.table, cur.session), cur.session, journal)
    requires cur.after <= |journal|
    ensures AfterConnections(store, cur, n) == Min(|journal|, cur.after + n * 100)
    ensures AfterConnections(store, cur, n) == |journal| <==> n >= (|journal| - cur.after + 100 - 1) / 100
  {
    ConnectionsAdvance(store, cur, n, journal);
    CeilingIff(|journal| - cur.after, n);
  }

  lemma CeilingIff(k: nat, n: nat)
    ensures n * Q.REPLAY_LIMIT >= k <==> n >= (k + Q.REPLAY_LIMIT - 1) / Q.REPLAY_LIMIT
  {
  }

  lemma {:induction false} FramesBound(store: Store, cursors: seq<Cursor>)
    ensures |Frames(store, cursors)| <= |cursors| * Q.REPLAY_LIMIT
  {
    if cursors != [] {
      FramesBound(store, cursors[..|cursors| - 1]);
    }
  }

  /** The state a client is left in by a replay during which nothing is published or written; its buffer is empty. */
  function AfterReplay(conn: Q.Connection, store: Store, cursors: seq<Cursor>): Q.Connection {
    Q.Flush(Q.Drain(Q.StartBuffering(conn), Frames(store, cursors)), 0)
  }

  /** A fresh client survives its replay exactly when the frames fit, and two cursors always fit. */
  lemma TwoCursorsFit(store: Store, cursors: seq<Cursor>)
    ensures var r := AfterReplay(Q.Fresh(256), store, cursors);
            && (!r.closed <==> |Frames(store, cursors)| <= 256)
            && (!r.closed ==> r.queue == Frames(store, cursors) && !r.buffering)
            && (|cursors| <= 2 ==> !r.closed)
  {
    FramesBound(store, cursors);
    Q.DrainSpec(Q.StartBuffering(Q.Fresh(Q.SEND_BUFFER)), Frames(store, cursors));
  }

  /** How the replay of a hello grows by one cursor. */
  lemma ServedPrefix(conn: Q.Connection, store: Store, cursors: seq<Cursor>, i: nat)
    requires i < |cursors|
    ensures var cur, done, more := cursors[i], cursors[..i], cursors[..i + 1];
            && Q.Drain(conn, Frames(store, more)) == Q.Drain(Q.Drain(conn, Frames(store, done)), FramesFor(store, cur))
            && Resyncs(store, more) == Resyncs(store, done)
                 + (if ReplayOf(store, cur).Ok? && !Serves(store, cur) then [Resync(cur.session, cur.after)] else [])
            && forall s :: Refused(store, more, s) <==> Refused(store, done, s) || (s == cur.session && !Serves(store, cur))
  {
    var cur := cursors[i];
    assert cursors[..i + 1] == cursors[..i] + [cur];
    assert cursors[..i + 1][..i] == cursors[..i];
    Q.DrainConcat(conn, Frames(store, cursors[..i]), FramesFor(store, cur));
  }

  // -------------------------------------------------------------------- the hub

  /** A subscription table without some clients; sessions that lose all of theirs lose their entry. */
  ghost function Without(subs: map<SessionId, set<Q.Client>>, gone: set<Q.Client>): map<SessionId, set<Q.Client>> {
    map s | s in subs && subs[s] - gone != {} :: subs[s] - gone
  }

  lemma WithoutNobody(subs: map<SessionId, set<Q.Client>>)
    requires forall s :: s in subs ==> subs[s] != {}
    ensures Without(subs, {}) == subs
  {
    assert forall s :: s in subs ==> subs[s] - {} == subs[s];
  }

  lemma WithoutOneMore(subs: map<SessionId, set<Q.Client>>, gone: set<Q.Client>, c: Q.Client)
    ensures Without(Without(subs, gone), {c}) == Without(subs, gone + {c})
  {
    assert forall s :: s in subs ==> subs[s] - gone - {c} == subs[s] - (gone + {c});
  }

  class Broadcaster {
    const journal: CursorRepository
    var subs: map<SessionId, set<Q.Client>>

    constructor (journal: CursorRepository)
      ensures this.journal == journal && subs == map[] && Valid()
    {
      this.journal := journal;
      subs := map[];
    }

    /** Sessions without subscribers have no entry. */
    ghost predicate Valid()
      reads this
    {
      forall sid :: sid in subs ==> subs[sid] != {}
    }

    function Subscribers(sid: SessionId): set<Q.Client>
      reads this
    {
      if sid in subs then subs[sid] else {}
    }

    function View(now: int): Store
      reads journal
    {
      Store(journal.table, journal.sessions, journal.retention, now)
    }

    method Subscribe(c: Q.Client, sid: SessionId)
      requires Valid()
      modifies this
      ensures Valid()
      ensures forall s :: Subscribers(s) == if s == sid then old(Subscribers(s)) + {c} else old(Subscribers(s))
    {
      subs := subs[sid := Subscribers(sid) + {c}];
    }

    method Unsubscribe(c: Q.Client)
      requires Valid()
      modifies this
      ensures Valid()
      ensures forall s :: Subscribers(s) == old(Subscribers(s)) - {c}
    {
      var left := subs.Keys;
      while left != {}
        invariant Valid() && left <= subs.Keys
        invariant forall s :: Subscribers(s) == if s in left then old(Subscribers(s)) else old(Subscribers(s)) - {c}
      {
        var sid :| sid in left;
        var rest := subs[sid] - {c};
        subs := if rest == {} then subs - {sid} else subs[sid := rest];
        left := left - {sid};
      }
    }

    method UnsubscribeSession(c: Q.Client, sid: SessionId)
      requires Valid()
      modifies this
      ensures Valid()
      ensures forall s :: Subscribers(s) == if s == sid then old(Subscribers(s)) - {c} else old(Subscribers(s))
    {
      if sid in subs {
        var rest := subs[sid] - {c};
        subs := if rest == {} then subs - {sid} else subs[sid := rest];
      }
    }

    /** Every subscriber of the event's session gets it; a client that overflows is closed and unsubscribed everywhere. */
    method Publish(env: Envelope)
      requires Valid() && env.Event?
      modifies this, Subscribers(env.session)
      ensures Valid()
      ensures forall c :: c in old(Subscribers(env.session)) ==>
                c.State() == Q.Send(old(c.State()), env) && c.written == old(c.written)
      ensures forall s :: Subscribers(s) ==
                old(Subscribers(s)) - (set c | c in old(Subscribers(env.session)) && c.closed && !old(c.closed))
    {
      ghost var clients, table := Subscribers(env.session), subs;
      ghost var before := map c: Q.Client | c in clients :: c.State();
      ghost var gone := SendToAll(Subscribers(env.session), env, before);
      assert forall c :: c in clients ==> c.closed == c.State().closed && old(c.closed) == before[c].closed;
      assert gone == set c | c in clients && c.closed && !old(c.closed);
      assert forall s :: s in subs <==> s in table && table[s] - gone != {};
    }

    /** Sends to each of a snapshot of clients; gone are those the event closes. */
    method SendToAll(clients: set<Q.Client>, env: Envelope, ghost before: map<Q.Client, Q.Connection>) returns (ghost gone: set<Q.Client>)
      requires Valid() && env.Event?
      requires before.Keys == clients && forall c :: c in clients ==> before[c] == c.State()
      modifies this, clients
      ensures forall c :: c in clients ==> c.State() == Q.Send(before[c], env) && c.written == old(c.written)
      ensures subs == Without(old(subs), gone)
      ensures forall c :: c in gone <==> c in clients && ClosedBy(before[c], env)
    {
      var left := clients;
      gone := {};
      WithoutNobody(subs);
      while left != {}
        invariant left <= clients && subs == Without(old(subs), gone)
        invariant forall c :: c in clients ==> c.State() == if c in left then before[c] else Q.Send(before[c], env)
        invariant forall c :: c in clients ==> c.written == old(c.written)
        invariant forall c :: c in gone <==> c in clients && c !in left && ClosedBy(before[c], env)
      {
        var c :| c in left;
        SendLive(c, env);
        if ClosedBy(before[c], env) {
          WithoutOneMore(old(subs), gone, c);
          gone := gone + {c};
        }
        left := left - {c};
      }
    }

    /** An open connection that the event closes. */
    ghost predicate ClosedBy(conn: Q.Connection, env: Envelope) {
      !conn.closed && Q.Send(conn, env).closed
    }

    /** One subscriber of a published event: a client the event closes is unsubscribed. */
    method SendLive(c: Q.Client, env: Envelope)
      requires Valid() && env.Event?
      modifies this, c
      ensures Valid()
      ensures c.State() == Q.Send(old(c.State()), env) && c.written == old(c.written)
      ensures subs == if c.closed && !old(c.closed) then Without(old(subs), {c}) else old(subs)
    {
      var wasClosed := c.closed;
      c.SendEnvelope(env);
      if c.closed && !wasClosed {
        Unsubscribe(c);
        assert forall s :: s in subs <==> Subscribers(s) != {};
        assert subs == Without(old(subs), {c});
      }
    }

    /**
     Subscribes first, then replays each cursor straight into the queue, then flushes
     what was published meanwhile. Refused cursors end up unsubscribed. A client that is
     closed on return stays subscribed exactly when it was closed before, so that its close
     callback will not run again, and some session was served or subscribed already.
     */
    method ReplayAndSubscribe(c: Q.Client, cursors: seq<Cursor>, now: int, late: nat) returns (resyncs: seq<Envelope>)
      requires Valid()
      modifies this, c
      ensures Valid()
      ensures resyncs == Resyncs(View(now), cursors)
      ensures c.State() == AfterReplay(old(c.State()), View(now), cursors)
      ensures forall s :: Subscribers(s) ==
                if c.closed && !old(c.closed) then old(Subscribers(s)) - {c}
                else if !Asked(cursors, s) then old(Subscribers(s))
                else if Refused(View(now), cursors, s) then old(Subscribers(s)) - {c}
                else old(Subscribers(s)) + {c}
      ensures c.closed ==>
                ((exists s :: c in Subscribers(s))
                 <==> old(c.closed) && exists s :: if Asked(cursors, s) then !Refused(View(now), cursors, s) else c in old(Subscribers(s)))
    {
      c.BeginBuffering();
      label Buffering:
      SubscribeAll(c, cursors);
      resyncs := ServeAll(c, cursors, now);
      Q.DrainSpec(old@Buffering(c.State()), Frames(View(now), cursors));
      label Flushing:
      Q.FlushNothing(c.State(), late);
      Q.FlushNothing(c.State(), 0);
      c.FlushAndStopBuffering(late);
      assert forall s :: Subscribers(s) == old@Flushing(Subscribers(s));
      forall s ensures Asked(cursors, s) || !Refused(View(now), cursors, s) {
        if Refused(View(now), cursors, s) {
          var cur :| cur in cursors && cur.session == s;
          assert Asked(cursors, s);
        }
      }
    }

    method SubscribeAll(c: Q.Client, cursors: seq<Cursor>)
      requires Valid()
      modifies this
      ensures Valid()
      ensures forall s :: Subscribers(s) == if Asked(cursors, s) then old(Subscribers(s)) + {c} else old(Subscribers(s))
    {
      for i := 0 to |cursors|
        invariant Valid()
        invariant forall s :: Subscribers(s) ==
                    if Asked(cursors[..i], s) then old(Subscribers(s)) + {c} else old(Subscribers(s))
      {
        assert cursors[..i + 1] == cursors[..i] + [cursors[i]];
        Subscribe(c, cursors[i].session);
      }
      assert cursors[..|cursors|] == cursors;
    }

    method ServeAll(c: Q.Client, cursors: seq<Cursor>, now: int) returns (resyncs: seq<Envelope>)
      requires Valid()
      modifies this, c
      ensures Valid() && View(now) == old(View(now))
      ensures resyncs == Resyncs(View(now), cursors)
      ensures c.State() == Q.Drain(old(c.State()), Frames(View(now), cursors)) && (old(c.closed) ==> c.closed)
      ensures forall s :: Subscribers(s) ==
                if (c.closed && !old(c.closed)) || Refused(View(now), cursors, s) then old(Subscribers(s)) - {c}
                else old(Subscribers(s))
    {
      resyncs := [];
      ghost var start, view := c.State(), View(now);
      assert cursors[..0] == [];
      for i := 0 to |cursors|
        invariant Valid() && View(now) == view
        invariant c.State() == Q.Drain(start, Frames(view, cursors[..i])) && (start.closed ==> c.closed)
        invariant resyncs == Resyncs(view, cursors[..i])
        invariant forall s :: Subscribers(s) ==
                    if (c.closed && !start.closed) || Refused(view, cursors[..i], s) then old(Subscribers(s)) - {c}
                    else old(Subscribers(s))
      {
        ServedPrefix(start, view, cursors, i);
        var notice := ServeCursor(c, cursors[i], now);
        resyncs := resyncs + notice;
      }
      assert cursors[..|cursors|] == cursors;
    }

    /** Replays one cursor, or refuses it. */
    method ServeCursor(c: Q.Client, cur: Cursor, now: int) returns (notice: seq<Envelope>)
      requires Valid()
      modifies this, c
      ensures Valid() && View(now) == old(View(now))
      ensures c.State() == Q.Drain(old(c.State()), FramesFor(View(now), cur))
      ensures old(c.closed) ==> c.closed
      ensures notice == if ReplayOf(View(now), cur).Ok? && !Serves(View(now), cur) then [Resync(cur.session, cur.after)] else []
      ensures forall s :: Subscribers(s) ==
                if (c.closed && !old(c.closed)) || (s == cur.session && !Serves(View(now), cur)) then old(Subscribers(s)) - {c}
                else old(Subscribers(s))
    {
      notice := [];
      var result := journal.Replay(cur.session, cur.after, Q.REPLAY_LIMIT, now);
      assert result == ReplayOf(View(now), cur);
      if result.Err? {
        UnsubscribeSession(c, cur.session);
      } else if result.value.resyncRequired {
        notice := [Resync(cur.session, cur.after)];
        UnsubscribeSession(c, cur.session);
      } else {
        SendRetained(c, result.value.events);
      }
    }

    /** sendDirect for each retained event of one page. */
    method SendRetained(c: Q.Client, events: seq<Row>)
      requires Valid()
      modifies this, c
      ensures Valid()
      ensures c.State() == Q.Drain(old(c.State()), ToEnvelopes(events)) && c.written == old(c.written)
      ensures old(c.closed) ==> c.closed
      ensures forall s :: Subscribers(s) == if c.closed && !old(c.closed) then old(Subscribers(s)) - {c} else old(Subscribers(s))
    {
      ghost var all := ToEnvelopes(events);
      for k := 0 to |events|
        invariant Valid() && c.written == old(c.written) && (old(c.closed) ==> c.closed)
        invariant Q.Drain(old(c.State()), all) == Q.Drain(c.State(), all[k..])
        invariant forall s :: Subscribers(s) == if c.closed && !old(c.closed) then old(Subscribers(s)) - {c} else old(Subscribers(s))
      {
        var wasClosed := c.closed;
        label Sending:
        c.SendDirect(ToEnvelope(events[k]));
        assert forall s :: Subscribers(s) == old@Sending(Subscribers(s));
        if c.closed && !wasClosed {
          Unsubscribe(c);
        }
        assert all[k..][1..] == all[k + 1..];
      }
    }
  }
}
