/**
 The event journal: one append-only table with UNIQUE(session, sequence), replay by
 cursor with a page limit, a retention check, and purging of old rows.
 Times are integers (nanoseconds); the clock is a parameter.
 */
module Journal {
  import opened Outcomes
  import opened CursorGate

  datatype Row = Row(session: SessionId, sequence: nat, body: Body, occurredAt: int)

  datatype SessionRow = SessionRow(createdAt: Option<int>, lastSequence: nat)

  datatype CursorResult = CursorResult(events: seq<Row>, nextAfter: int, resyncRequired: bool, hasMore: bool)

  datatype StoreError = NoSuchSession | Duplicate

  // ------------------------------------------------------------------ queries

  function OnlyIf(chosen: bool, row: Row): seq<Row> {
    if chosen then [row] else []
  }

  function SessionRows(table: seq<Row>, sid: SessionId): (rows: seq<Row>)
    ensures forall r :: r in rows <==> r in table && r.session == sid
  {
    if table == [] then []
    else OnlyIf(table[0].session == sid, table[0]) + SessionRows(table[1..], sid)
  }

  /** WHERE sequence > after, in table order. */
  function After(rows: seq<Row>, after: int): (rest: seq<Row>)
    ensures |rest| <= |rows|
  {
    if rows == [] then []
    else OnlyIf(rows[0].sequence > after, rows[0]) + After(rows[1..], after)
  }

  function Take(rows: seq<Row>, limit: nat): seq<Row> {
    if |rows| <= limit then rows else rows[..limit]
  }

  function GetBySequence(rows: seq<Row>, after: int, limit: nat): seq<Row> {
    Take(After(rows, after), limit)
  }

  function MaxSequence(rows: seq<Row>): nat {
    if rows == [] then 0 else Max(rows[|rows| - 1].sequence, MaxSequence(rows[..|rows| - 1]))
  }

  predicate Has(rows: seq<Row>, sequence: int) {
    exists r :: r in rows && r.sequence == sequence
  }

  /** DELETE WHERE occurred_at < before. */
  function Purge(table: seq<Row>, before: int): (kept: seq<Row>)
    ensures |kept| <= |table|
  {
    if table == [] then []
    else OnlyIf(table[0].occurredAt >= before, table[0]) + Purge(table[1..], before)
  }

  predicate Ascending(rows: seq<Row>) {
    forall i, j :: 0 <= i < j < |rows| ==> rows[i].sequence < rows[j].sequence
  }

  /** Rows first+1, first+2, ... without a hole. */
  predicate Contiguous(rows: seq<Row>, first: int) {
    forall i :: 0 <= i < |rows| ==> rows[i].sequence == first + i + 1
  }

  function ClampLimit(limit: int): (n: nat)
    ensures 1 <= n <= 500
  {
    var l := if limit <= 0 then 100 else limit;
    if l > 500 then 500 else l
  }

  function CursorExpired(rows: seq<Row>, session: Option<SessionRow>, retention: nat, now: int, after: int): Result<bool, StoreError> {
    if retention == 0 || after == 0 || Has(rows, after) then Ok(false)
    else match session
      case None => Err(NoSuchSession)
      case Some(SessionRow(None, _)) => Ok(false)
      case Some(SessionRow(Some(created), _)) => Ok(now - created > retention)
  }

  function ReplayPage(rows: seq<Row>, session: Option<SessionRow>, retention: nat, now: int, after: int, limit: int): Result<CursorResult, StoreError> {
    match CursorExpired(rows, session, retention, now, after)
    case Err(e) => Err(e)
    case Ok(true) => Ok(CursorResult([], after, true, false))
    case Ok(false) =>
      var n := ClampLimit(limit);
      var events := GetBySequence(rows, after, n);
      var next := if events == [] then after else events[|events| - 1].sequence;
      Ok(CursorResult(events, next, false, |events| == n && GetBySequence(rows, next, 1) != []))
  }

  // --------------------------------------------------------- facts about queries

  lemma {:induction false} SessionRowsConcat(a: seq<Row>, b: seq<Row>, sid: SessionId)
    ensures SessionRows(a + b, sid) == SessionRows(a, sid) + SessionRows(b, sid)
    decreases |a|
  {
    if a == [] {
      assert a + b == b;
    } else {
      assert (a + b)[1..] == a[1..] + b;
      SessionRowsConcat(a[1..], b, sid);
      Regroup(OnlyIf(a[0].session == sid, a[0]), SessionRows(a[1..], sid), SessionRows(b, sid));
    }
  }

  lemma AppendRow(table: seq<Row>, row: Row, sid: SessionId)
    ensures SessionRows(table + [row], sid) == SessionRows(table, sid) + OnlyIf(row.session == sid, row)
  {
    SessionRowsConcat(table, [row], sid);
    assert [row][1..] == [];
  }

  /** A row numbered MAX + 1 keeps its session ascending, and no other session sees it. */
  lemma AppendAscending(table: seq<Row>, row: Row, sid: SessionId)
    requires Ascending(SessionRows(table, sid))
    requires row.session == sid ==> row.sequence == MaxSequence(SessionRows(table, sid)) + 1
    ensures Ascending(SessionRows(table + [row], sid))
  {
    AppendRow(table, row, sid);
    if row.session == sid {
      MaxOfAscending(SessionRows(table, sid));
      NextAscends(SessionRows(table, sid), row);
    }
  }

  lemma NextAscends(rows: seq<Row>, row: Row)
    requires Ascending(rows) && (rows != [] ==> rows[|rows| - 1].sequence < row.sequence)
    ensures Ascending(rows + [row])
  {
  }

  lemma {:induction false} PurgeCommutes(table: seq<Row>, before: int, sid: SessionId)
    ensures SessionRows(Purge(table, before), sid) == Purge(SessionRows(table, sid), before)
  {
    if table != [] {
      var head, rest := table[0], table[1..];
      PurgeCommutes(rest, before, sid);
      var kept, mine := Purge(rest, before), SessionRows(rest, sid);
      assert ([head] + kept)[1..] == kept && ([head] + mine)[1..] == mine;
      if head.session == sid {
        assert SessionRows(table, sid) == [head] + mine;
      } else {
        assert SessionRows(table, sid) == mine;
      }
      if head.occurredAt < before {
        assert Purge(table, before) == kept;
      } else {
        assert Purge(table, before) == [head] + kept;
      }
    }
  }

  lemma {:induction false} MaxOfAscending(rows: seq<Row>)
    requires Ascending(rows)
    ensures MaxSequence(rows) == if rows == [] then 0 else rows[|rows| - 1].sequence
  {
    if |rows| > 1 {
      MaxOfAscending(rows[..|rows| - 1]);
    }
  }

  lemma {:induction false} AfterAt(rows: seq<Row>, after: int, k: nat)
    requires k <= |rows|
    requires forall i :: 0 <= i < k ==> rows[i].sequence <= after
    requires forall i :: k <= i < |rows| ==> rows[i].sequence > after
    ensures After(rows, after) == rows[k..]
  {
    if rows != [] {
      assert rows == [rows[0]] + rows[1..];
      AfterAt(rows[1..], after, if k == 0 then 0 else k - 1);
    }
  }

  /** On an ascending table the rows after a cursor are a suffix. */
  lemma {:induction false} AfterIsSuffix(rows: seq<Row>, after: int) returns (k: nat)
    requires Ascending(rows)
    ensures k <= |rows| && After(rows, after) == rows[k..]
    ensures forall i :: 0 <= i < k ==> rows[i].sequence <= after
    ensures forall i :: k <= i < |rows| ==> rows[i].sequence > after
  {
    k := 0;
    while k < |rows| && rows[k].sequence <= after
      invariant k <= |rows| && forall i :: 0 <= i < k ==> rows[i].sequence <= after
    {
      k := k + 1;
    }
    AfterAt(rows, after, k);
  }

  // -------------------------------------------------------------- paged replay

  /** HasMore is exact: it says whether anything is left beyond this page. */
  lemma HasMoreExact(rows: seq<Row>, session: Option<SessionRow>, retention: nat, now: int, after: int, limit: int)
    requires Ascending(rows) && CursorExpired(rows, session, retention, now, after) == Ok(false)
    ensures var n := (if limit <= 0 then 100 else if limit <= 500 then limit else 500); var all := After(rows, after);
            var r := ReplayPage(rows, session, retention, now, after, limit);
            && r.Ok? && !r.value.resyncRequired
            && r.value.events == all[..Min(n, |all|)]
            && (r.value.hasMore <==> |all| > n)
            && After(rows, r.value.nextAfter) == all[|r.value.events|..]
            && (r.value.nextAfter == after || Has(rows, r.value.nextAfter))
  {
    PageExact(rows, after, ClampLimit(limit));
  }

  lemma PageExact(rows: seq<Row>, after: int, n: nat)
    requires Ascending(rows) && n > 0
    ensures var all := After(rows, after);
            var page := GetBySequence(rows, after, n);
            var next := if page == [] then after else page[|page| - 1].sequence;
            && page == all[..Min(n, |all|)]
            && (|page| == n && GetBySequence(rows, next, 1) != [] <==> |all| > n)
            && After(rows, next) == all[|page|..]
            && (next == after || Has(rows, next))
  {
    NextRows(rows, after, n);
  }

  /** Asking again from the last sequence of a page finds what the page left out. */
  lemma NextRows(rows: seq<Row>, after: int, n: nat)
    requires Ascending(rows) && n > 0
    ensures var page := GetBySequence(rows, after, n);
            var next := if page == [] then after else page[|page| - 1].sequence;
            After(rows, next) == After(rows, after)[|page|..] && (next == after || Has(rows, next))
  {
    var k := AfterIsSuffix(rows, after);
    TakeSlice(rows, k, n);
    var page := GetBySequence(rows, after, n);
    if page != [] {
      PageEnds(rows, after, k, page);
    }
  }

  lemma TakeSlice(rows: seq<Row>, from: nat, limit: nat)
    requires from <= |rows|
    ensures Take(rows[from..], limit) == rows[from..Min(from + limit, |rows|)]
  {
  }

  /** A served page holds the first rows after the cursor, as many as the limit allows, 100 by default and 500 at most. */
  lemma ServedPage(rows: seq<Row>, session: Option<SessionRow>, retention: nat, now: int, after: int, limit: int)
    ensures var r := ReplayPage(rows, session, retention, now, after, limit);
            r.Ok? && !r.value.resyncRequired ==>
              var n := if limit <= 0 then 100 else if limit <= 500 then limit else 500;
              var all := After(rows, after);
              && r.value.events == all[..Min(n, |all|)]
              && (Ascending(rows) ==> (r.value.hasMore <==> |all| > n))
  {
    if Ascending(rows) && CursorExpired(rows, session, retention, now, after) == Ok(false) {
      HasMoreExact(rows, session, retention, now, after, limit);
    }
  }

  /** The last sequence of a page is the cursor of the rows behind the page. */
  lemma PageEnds(rows: seq<Row>, after: int, k: nat, page: seq<Row>)
    requires Ascending(rows) && k + |page| <= |rows| && page != [] && page == rows[k..k + |page|]
    requires After(rows, after) == rows[k..]
    ensures var next := page[|page| - 1].sequence;
            After(rows, next) == After(rows, after)[|page|..] && Has(rows, next)
  {
    var last := rows[k + |page| - 1];
    assert page[|page| - 1] == last && last in rows;
    AfterAt(rows, last.sequence, k + |page|);
    assert rows[k..][|page|..] == rows[k + |page|..];
  }

  /** Ask for pages until the answer says there is no more. */
  ghost function Collect(rows: seq<Row>, session: Option<SessionRow>, retention: nat, now: int, after: int, limit: int): Result<seq<Row>, StoreError>
    requires Ascending(rows) && CursorExpired(rows, session, retention, now, after) == Ok(false)
    decreases |After(rows, after)|
  {
    HasMoreExact(rows, session, retention, now, after, limit);
    var page := ReplayPage(rows, session, retention, now, after, limit).value;
    if !page.hasMore then Ok(page.events)
    else
      match Collect(rows, session, retention, now, page.nextAfter, limit)
      case Ok(rest) => Ok(page.events + rest)
      case Err(e) => Err(e)
  }

  /** Paging with any limit yields every event after the cursor, once each, in order. */
  lemma {:induction false} PagedReplayIsFullReplay(rows: seq<Row>, session: Option<SessionRow>, retention: nat, now: int, after: int, limit: int)
    requires Ascending(rows) && CursorExpired(rows, session, retention, now, after) == Ok(false)
    ensures Collect(rows, session, retention, now, after, limit) == Ok(After(rows, after))
    decreases |After(rows, after)|
  {
    HasMoreExact(rows, session, retention, now, after, limit);
    var all := After(rows, after);
    var page := ReplayPage(rows, session, retention, now, after, limit).value;
    if page.hasMore {
      PagedReplayIsFullReplay(rows, session, retention, now, page.nextAfter, limit);
      assert page.events + all[|page.events|..] == all;
    }
  }

  // ------------------------------------------------------------------- purging

  /**
   One session over time. lo counts the purged rows; steps advance the clock,
   append a row stamped no earlier than the previous one, or purge.
   */
  datatype History = History(rows: seq<Row>, lo: nat, createdAt: int, now: int, retention: nat)

  datatype HistoryStep =
    | Tick(d: nat)
    | Append(body: Body, occurredAt: int)
    | PurgeBefore(before: int)

  /** GetRetentionBoundary: no boundary at all without retention. */
  function RetentionBoundary(now: int, retention: nat): Option<int> {
    if retention == 0 then None else Some(now - retention)
  }

  predicate NewestSurvives(rows: seq<Row>, before: int) {
    rows == [] || rows[|rows| - 1].occurredAt >= before
  }

  predicate Allowed(h: History, step: HistoryStep) {
    match step
    case Tick(_) => true
    case Append(_, t) => h.createdAt <= t <= h.now && (h.rows == [] || h.rows[|h.rows| - 1].occurredAt <= t)
    case PurgeBefore(before) =>
      RetentionBoundary(h.now, h.retention).Some? && before <= RetentionBoundary(h.now, h.retention).value
      && NewestSurvives(h.rows, before)
  }

  function Advance(h: History, sid: SessionId, step: HistoryStep): History {
    if !Allowed(h, step) then h
    else match step
      case Tick(d) => h.(now := h.now + d)
      case Append(body, t) => h.(rows := h.rows + [Row(sid, MaxSequence(h.rows) + 1, body, t)])
      case PurgeBefore(before) =>
        var kept := Purge(h.rows, before);
        h.(rows := kept, lo := h.lo + |h.rows| - |kept|)
  }

  function Lived(h: History, sid: SessionId, steps: seq<HistoryStep>): History
    decreases |steps|
  {
    if steps == [] then h else Lived(Advance(h, sid, steps[0]), sid, steps[1..])
  }

  ghost predicate Retained(h: History) {
    && Contiguous(h.rows, h.lo)
    && (forall i, j :: 0 <= i < j < |h.rows| ==> h.rows[i].occurredAt <= h.rows[j].occurredAt)
    && (forall i :: 0 <= i < |h.rows| ==> h.createdAt <= h.rows[i].occurredAt)
    && (h.rows == [] ==> h.lo == 0)
    && (h.lo > 0 ==> h.retention > 0 && h.now - h.createdAt > h.retention)
  }

  lemma {:induction false} PurgeDropsPrefix(rows: seq<Row>, before: int)
    requires forall i, j :: 0 <= i < j < |rows| ==> rows[i].occurredAt <= rows[j].occurredAt
    ensures var k := |rows| - |Purge(rows, before)|;
            Purge(rows, before) == rows[k..] && forall i :: 0 <= i < k ==> rows[i].occurredAt < before
  {
    if rows != [] {
      PurgeDropsPrefix(rows[1..], before);
      assert |rows| > 1 ==> rows[0].occurredAt <= rows[1..][0].occurredAt;
      var k := |rows[1..]| - |Purge(rows[1..], before)|;
      if rows[0].occurredAt < before {
        assert rows[1..][k..] == rows[k + 1..];
        forall i | 0 <= i < k + 1 ensures rows[i].occurredAt < before {
          if i > 0 { assert rows[1..][i - 1].occurredAt < before; }
        }
      } else {
        assert rows == [rows[0]] + rows[1..];
      }
    }
  }

  lemma {:induction false} PurgeLast(rows: seq<Row>, before: int)
    requires rows != [] && NewestSurvives(rows, before)
    ensures Purge(rows, before) != [] && Purge(rows, before)[|Purge(rows, before)| - 1] == rows[|rows| - 1]
  {
    if |rows| > 1 {
      PurgeLast(rows[1..], before);
    }
  }

  lemma RetainedAppend(h: History, sid: SessionId, step: HistoryStep)
    requires Retained(h) && step.Append? && Allowed(h, step)
    ensures Retained(Advance(h, sid, step))
  {
    MaxOfAscending(h.rows);
    var row := Row(sid, MaxSequence(h.rows) + 1, step.body, step.occurredAt);
    assert row.sequence == h.lo + |h.rows| + 1;
    assert h.rows != [] ==> forall i :: 0 <= i < |h.rows| ==> h.rows[i].occurredAt <= h.rows[|h.rows| - 1].occurredAt;
  }

  lemma RetainedPurge(h: History, sid: SessionId, step: HistoryStep)
    requires Retained(h) && step.PurgeBefore? && Allowed(h, step) && h.rows != []
    ensures Retained(Advance(h, sid, step))
  {
    PurgeDropsPrefix(h.rows, step.before);
    PurgeLast(h.rows, step.before);
    var k := |h.rows| - |Purge(h.rows, step.before)|;
    assert forall i :: 0 <= i < |h.rows| - k ==> h.rows[k..][i] == h.rows[k + i];
  }

  lemma RetainedStep(h: History, sid: SessionId, step: HistoryStep)
    requires Retained(h)
    ensures Retained(Advance(h, sid, step))
  {
    if Allowed(h, step) {
      match step {
        case Tick(_) =>
        case Append(_, _) => RetainedAppend(h, sid, step);
        case PurgeBefore(_) => if h.rows != [] { RetainedPurge(h, sid, step); }
      }
    }
  }

  /** What an allowed step does: the clock advances, one row is added behind the newest, or older rows go. */
  lemma AllowedStepActs(h: History, sid: SessionId, step: HistoryStep)
    requires Retained(h) && Allowed(h, step)
    ensures var g := Advance(h, sid, step);
            match step
            case Tick(d) => g == h.(now := h.now + d)
            case Append(body, t) => g == h.(rows := h.rows + [Row(sid, h.lo + |h.rows| + 1, body, t)])
            case PurgeBefore(before) =>
              && g.lo + |g.rows| == h.lo + |h.rows|
              && forall i :: 0 <= i < |h.rows| ==> (h.lo + i >= g.lo <==> h.rows[i].occurredAt >= before)
  {
    match step {
      case Tick(_) =>
      case Append(_, _) => MaxOfAscending(h.rows);
      case PurgeBefore(before) =>
        PurgeDropsPrefix(h.rows, before);
        PurgeMembers(h.rows, before);
        var k := |h.rows| - |Purge(h.rows, before)|;
        forall i | 0 <= i < |h.rows| ensures i >= k <==> h.rows[i].occurredAt >= before {
          if i >= k {
            assert h.rows[k..][i - k] == h.rows[i];
            assert h.rows[i] in Purge(h.rows, before);
          }
        }
    }
  }

  /** A new session satisfies it. */
  lemma NewSessionIsRetained(createdAt: int, now: int, retention: nat)
    ensures Retained(History([], 0, createdAt, now, retention))
  {
  }

  lemma {:induction false} RetainedRun(h: History, sid: SessionId, steps: seq<HistoryStep>)
    requires Retained(h)
    ensures Retained(Lived(h, sid, steps))
    decreases |steps|
  {
    if steps != [] {
      RetainedStep(h, sid, steps[0]);
      RetainedRun(Advance(h, sid, steps[0]), sid, steps[1..]);
    }
  }

  function Newest(h: History): nat {
    h.lo + |h.rows|
  }

  /** Replay when all its statements see one moment. */
  function Answer(h: History, after: int, limit: int): Result<CursorResult, StoreError> {
    ReplayPage(h.rows, Some(SessionRow(Some(h.createdAt), Newest(h))), h.retention, h.now, after, limit)
  }

  /**
   Replay as the separate statements it is, outside any transaction: it counts the
   cursor's row in one state of the journal, compares the clock in a later one,
   fetches the page in a third and looks for more in a fourth.
   */
  function SplitAnswer(count: History, clock: History, fetch: History, more: History, after: int, limit: int): CursorResult {
    if count.retention != 0 && after != 0 && !Has(count.rows, after) && clock.now - count.createdAt > count.retention then
      CursorResult([], after, true, false)
    else
      var n := ClampLimit(limit);
      var events := GetBySequence(fetch.rows, after, n);
      var next := if events == [] then after else events[|events| - 1].sequence;
      CursorResult(events, next, false, |events| == n && GetBySequence(more.rows, next, 1) != [])
  }

  lemma OneMoment(h: History, after: int, limit: int)
    ensures Answer(h, after, limit) == Ok(SplitAnswer(h, h, h, h, after, limit))
  {
  }

  /** The page continues the cursor: the next events up to newest, as many as the limit allows. */
  predicate Continues(r: CursorResult, after: int, newest: int, limit: int) {
    !r.resyncRequired && Contiguous(r.events, after)
    && |r.events| == Min((if limit <= 0 then 100 else if limit <= 500 then limit else 500), newest - after)
  }

  /** A page fetched from a purged table starts behind the hole, if the cursor is in front of it. */
  lemma FetchedPage(h: History, after: int, n: nat)
    requires Retained(h) && 0 <= after <= Newest(h) && n > 0
    ensures var page := GetBySequence(h.rows, after, n);
            && (h.lo <= after ==> Contiguous(page, after) && |page| == Min(n, Newest(h) - after))
            && (h.lo > after ==> page != [] && page[0].sequence == h.lo + 1)
  {
    if h.lo <= after {
      AfterAt(h.rows, after, after - h.lo);
      TakeContiguous(h.rows, h.lo, after - h.lo, n);
    } else {
      AfterAt(h.rows, after, 0);
    }
  }

  lemma TakeContiguous(rows: seq<Row>, lo: int, k: nat, n: nat)
    requires Contiguous(rows, lo) && k <= |rows|
    ensures Contiguous(Take(rows[k..], n), lo + k) && |Take(rows[k..], n)| == Min(n, |rows| - k)
  {
    assert forall i :: 0 <= i < |rows| - k ==> rows[k..][i] == rows[k + i];
  }

  /** The row of a cursor 1..newest is there exactly when it has not been purged. */
  lemma HeldIff(h: History, after: int)
    requires Retained(h) && 1 <= after <= Newest(h)
    ensures Has(h.rows, after) <==> after > h.lo
  {
    if after > h.lo {
      assert h.rows[after - h.lo - 1] in h.rows;
    }
  }

  /** Session settings are fixed; the clock, the hole and the newest sequence only move forward. */
  lemma {:induction false} OnlyForward(h: History, sid: SessionId, steps: seq<HistoryStep>)
    ensures var g := Lived(h, sid, steps);
            && g.createdAt == h.createdAt && g.retention == h.retention
            && g.now >= h.now && g.lo >= h.lo && Newest(g) >= Newest(h)
    decreases |steps|
  {
    if steps != [] {
      OnlyForward(Advance(h, sid, steps[0]), sid, steps[1..]);
    }
  }

  /** HasMore, asked in a later state, is exact for that state. */
  lemma MoreIff(h: History, next: int)
    requires Retained(h) && 0 <= next <= Newest(h)
    ensures GetBySequence(h.rows, next, 1) != [] <==> Newest(h) > next
  {
    FetchedPage(h, next, 1);
  }

  /**
   Purging and replay, statement by statement. The journal lives on between the
   statements of a replay (s1, s2, s3) as it did before it (s0): appends, clock
   advances, and purges at the retention boundary that keep the newest row. A device
   with a cursor 1..newest is told to resync if and only if its row was gone when
   counted. Otherwise its page continues the cursor if and only if no purge has
   passed the cursor by the time the page is fetched; HasMore is exact.
   */
  lemma ReplayContinuesIff(h: History, sid: SessionId, s0: seq<HistoryStep>, s1: seq<HistoryStep>, s2: seq<HistoryStep>,
                           s3: seq<HistoryStep>, after: int, limit: int)
    requires Retained(h) && 1 <= after <= Newest(Lived(h, sid, s0))
    ensures var count := Lived(h, sid, s0);
            var clock := Lived(count, sid, s1);
            var fetch := Lived(clock, sid, s2);
            var more := Lived(fetch, sid, s3);
            var r := SplitAnswer(count, clock, fetch, more, after, limit);
            && (r.resyncRequired <==> after <= count.lo)
            && (!r.resyncRequired ==>
                  && (Continues(r, after, Newest(fetch), limit) <==> fetch.lo <= after)
                  && (r.hasMore <==> |r.events| == (if limit <= 0 then 100 else if limit <= 500 then limit else 500) && Newest(more) > r.nextAfter))
  {
    var count := Lived(h, sid, s0);
    var clock := Lived(count, sid, s1);
    var fetch := Lived(clock, sid, s2);
    RetainedRun(h, sid, s0);
    RetainedRun(count, sid, s1);
    RetainedRun(clock, sid, s2);
    OnlyForward(count, sid, s1);
    OnlyForward(clock, sid, s2);
    HeldIff(count, after);
    if after > count.lo {
      LateFetch(fetch, sid, s3, after, limit);
    }
  }

  /** The fetch and what follows it. */
  lemma LateFetch(fetch: History, sid: SessionId, s3: seq<HistoryStep>, after: int, limit: int)
    requires Retained(fetch) && 1 <= after <= Newest(fetch)
    ensures var n, more := ClampLimit(limit), Lived(fetch, sid, s3);
            var page := GetBySequence(fetch.rows, after, n);
            var next := if page == [] then after else page[|page| - 1].sequence;
            && (Contiguous(page, after) && |page| == Min(n, Newest(fetch) - after) <==> fetch.lo <= after)
            && (GetBySequence(more.rows, next, 1) != [] <==> Newest(more) > next)
  {
    var n := ClampLimit(limit);
    var page := GetBySequence(fetch.rows, after, n);
    FetchedPage(fetch, after, n);
    RetainedRun(fetch, sid, s3);
    OnlyForward(fetch, sid, s3);
    var k := AfterIsSuffix(fetch.rows, after);
    if page != [] {
      assert page[|page| - 1] == fetch.rows[k + |page| - 1];
    }
    MoreIff(Lived(fetch, sid, s3), if page == [] then after else page[|page| - 1].sequence);
  }

  /** Without a purge in between, a cursor 1..newest never meets a silent gap. */
  lemma PurgeNeverSilent(h: History, sid: SessionId, steps: seq<HistoryStep>, after: int, limit: int)
    requires Retained(h)
    requires 1 <= after <= Newest(Lived(h, sid, steps))
    ensures var g := Lived(h, sid, steps); var r := Answer(g, after, limit);
            && r.Ok?
            && (r.value.resyncRequired || Continues(r.value, after, Newest(g), limit))
            && (r.value.resyncRequired <==> after <= g.lo)
  {
    OneMoment(Lived(h, sid, steps), after, limit);
    ReplayContinuesIff(h, sid, steps, [], [], [], after, limit);
  }

  /** A session with three rows; the boundary has passed the first two, and none is purged yet. */
  function Overdue(sid: SessionId): History {
    History([Row(sid, 1, "a", 1), Row(sid, 2, "b", 50), Row(sid, 3, "c", 95)], 0, 0, 100, 10)
  }

  /** It happens: the row of cursor 1 is counted, a purge removes rows 1 and 2, and the page starts at 3. */
  lemma SilentGapBetweenStatements(sid: SessionId)
    ensures var h := Overdue(sid); var purge := [PurgeBefore(90)]; var fetch := Lived(h, sid, purge);
            var r := SplitAnswer(h, h, fetch, fetch, 1, 100);
            && Retained(h) && Allowed(h, purge[0])
            && !r.resyncRequired && r.events == [h.rows[2]] && fetch.lo == 2
  {
    var h := Overdue(sid);
    var r1, r2, r3 := h.rows[0], h.rows[1], h.rows[2];
    assert h.rows[0] in h.rows && Has(h.rows, 1);
    assert h.rows[1..] == [r2, r3] && [r2, r3][1..] == [r3] && [r3][1..] == [];
    assert Purge([r3], 90) == [r3] && Purge([r2, r3], 90) == [r3];
    assert Purge(h.rows, 90) == [r3];
    assert Lived(h, sid, [PurgeBefore(90)]) == Advance(h, sid, PurgeBefore(90)) by {
      assert [PurgeBefore(90)][1..] == [];
    }
    assert After([r3], 1) == [r3];
  }

  /**
   Cursor 0 is never reported as expired, so a device that starts from nothing is
   served without a gap exactly when no row has been purged.
   */
  lemma StartCursorIsSilent(h: History, limit: int)
    requires Retained(h)
    ensures var r := Answer(h, 0, limit);
            && r.Ok? && !r.value.resyncRequired
            && (Continues(r.value, 0, Newest(h), limit) <==> h.lo == 0)
  {
    FetchedPage(h, 0, ClampLimit(limit));
  }

  /**
   Numbering goes on after a purge exactly when the newest row survives it (or there
   was none): MAX + 1 over what is left is the only memory of how far it got.
   */
  lemma NumberingSurvivesPurge(rows: seq<Row>, before: int)
    requires Ascending(rows) && (forall i :: 0 <= i < |rows| ==> rows[i].sequence >= 1)
    ensures MaxSequence(Purge(rows, before)) == MaxSequence(rows) <==> NewestSurvives(rows, before)
  {
    var kept := Purge(rows, before);
    PurgeAscending(rows, before);
    PurgeMembers(rows, before);
    MaxOfAscending(rows);
    MaxOfAscending(kept);
    if rows != [] && NewestSurvives(rows, before) {
      PurgeLast(rows, before);
    } else if kept != [] {
      assert kept[|kept| - 1] in kept;
    }
  }

  lemma {:induction false} PurgeMembers(rows: seq<Row>, before: int)
    ensures forall r :: r in Purge(rows, before) <==> r in rows && r.occurredAt >= before
  {
    if rows != [] {
      PurgeMembers(rows[1..], before);
      assert rows == [rows[0]] + rows[1..];
    }
  }

  lemma {:induction false} PurgeAscending(rows: seq<Row>, before: int)
    requires Ascending(rows)
    ensures Ascending(Purge(rows, before))
  {
    if rows != [] {
      var rest := rows[1..];
      assert rows == [rows[0]] + rest;
      PurgeAscending(rest, before);
      var kept := Purge(rest, before);
      forall j | 0 <= j < |kept| ensures rows[0].sequence < kept[j].sequence {
        PurgeMembers(rest, before);
        assert kept[j] in kept;
      }
    }
  }

  /** No row that goes stands between two rows that stay. */
  predicate NoneBetween(rows: seq<Row>, before: int) {
    forall i, j, k :: 0 <= i < j < k < |rows| && rows[i].occurredAt >= before && rows[k].occurredAt >= before
                      ==> rows[j].occurredAt >= before
  }

  lemma {:induction false} AllGone(rows: seq<Row>, before: int)
    requires forall r :: r in rows ==> r.occurredAt < before
    ensures Purge(rows, before) == []
  {
    if rows != [] {
      AllGone(rows[1..], before);
    }
  }

  lemma {:induction false} PrefixKept(rows: seq<Row>, before: int)
    requires rows != [] && rows[0].occurredAt >= before && NoneBetween(rows, before)
    ensures Purge(rows, before) == rows[..|Purge(rows, before)|]
  {
    var rest := rows[1..];
    assert NoneBetween(rest, before) by {
      assert forall i :: 0 <= i < |rest| ==> rest[i] == rows[i + 1];
    }
    if rest != [] && rest[0].occurredAt >= before {
      PrefixKept(rest, before);
    } else {
      forall r | r in rest ensures r.occurredAt < before {
        var k :| 0 <= k < |rest| && rest[k] == r;
        assert rows[k + 1] == r && rest[0] == rows[1];
      }
      AllGone(rest, before);
    }
  }

  lemma {:induction false} KeptSlice(rows: seq<Row>, before: int) returns (a: nat, b: nat)
    requires NoneBetween(rows, before)
    ensures a <= b <= |rows| && Purge(rows, before) == rows[a..b]
  {
    if rows == [] {
      a, b := 0, 0;
    } else if rows[0].occurredAt >= before {
      PrefixKept(rows, before);
      a, b := 0, |Purge(rows, before)|;
    } else {
      var rest := rows[1..];
      assert forall i :: 0 <= i < |rest| ==> rest[i] == rows[i + 1];
      var c, d := KeptSlice(rest, before);
      a, b := c + 1, d + 1;
      assert rest[c..d] == rows[a..b];
    }
  }

  /** In a contiguous table, a row between two kept rows is needed to fill its number. */
  lemma KeptBetween(rows: seq<Row>, before: int, lo: nat, m: nat, i: nat, j: nat, k: nat)
    requires Contiguous(rows, lo) && Contiguous(Purge(rows, before), m)
    requires i < j < k < |rows| && rows[i].occurredAt >= before && rows[k].occurredAt >= before
    ensures rows[j].occurredAt >= before
  {
    var kept := Purge(rows, before);
    PurgeMembers(rows, before);
    assert rows[i] in rows && rows[k] in rows;
    var x :| 0 <= x < |kept| && kept[x] == rows[i];
    var z :| 0 <= z < |kept| && kept[z] == rows[k];
    var y := x + (j - i);
    assert kept[y].sequence == rows[j].sequence;
    assert kept[y] in kept;
    var w :| 0 <= w < |rows| && rows[w] == kept[y];
  }

  /**
   Exactly when a purge leaves no hole in the numbering, whatever the timestamps:
   no row that goes stands between two rows that stay. Timestamps that never
   decrease with the sequence are the simplest way to meet this.
   */
  lemma NoHoleIff(rows: seq<Row>, before: int, lo: nat)
    requires Contiguous(rows, lo)
    ensures (exists m: nat :: Contiguous(Purge(rows, before), m)) <==> NoneBetween(rows, before)
  {
    if NoneBetween(rows, before) {
      var a, b := KeptSlice(rows, before);
      assert Contiguous(Purge(rows, before), lo + a);
    }
    if exists m: nat :: Contiguous(Purge(rows, before), m) {
      var m: nat :| Contiguous(Purge(rows, before), m);
      forall i, j, k | 0 <= i < j < k < |rows| && rows[i].occurredAt >= before && rows[k].occurredAt >= before
        ensures rows[j].occurredAt >= before
      {
        KeptBetween(rows, before, lo, m, i, j, k);
      }
    }
  }

  // ------------------------------------------------------------- the repository

  class CursorRepository {
    const retention: nat
    var sessions: map<SessionId, SessionRow>
    var table: seq<Row>

    constructor (retention: nat)
      ensures this.retention == retention && sessions == map[] && table == []
    {
      this.retention := retention;
      sessions := map[];
      table := [];
    }

    ghost predicate Valid()
      reads this
    {
      && (forall sid :: Ascending(SessionRows(table, sid)))
      && (forall r :: r in table ==> r.session in sessions && r.sequence >= 1)
    }

    function Rows(sid: SessionId): seq<Row>
      reads this
    {
      SessionRows(table, sid)
    }

    function Session(sid: SessionId): Option<SessionRow>
      reads this
    {
      if sid in sessions then Some(sessions[sid]) else None
    }

    method IsCursorExpired(sid: SessionId, after: int, now: int) returns (r: Result<bool, StoreError>)
      ensures r == CursorExpired(Rows(sid), Session(sid), retention, now, after)
      ensures r == Ok(true) <==>
                && retention != 0 && after != 0 && (forall row :: row in table && row.session == sid ==> row.sequence != after)
                && sid in sessions && sessions[sid].createdAt.Some? && now - sessions[sid].createdAt.value > retention
      ensures r.Err? <==>
                && retention != 0 && after != 0 && (forall row :: row in table && row.session == sid ==> row.sequence != after)
                && sid !in sessions
    {
      if retention == 0 {
        return Ok(false);
      }
      if after == 0 {
        return Ok(false);
      }
      var count := 0;
      for i := 0 to |table|
        invariant count > 0 <==> exists r :: r in table[..i] && r.session == sid && r.sequence == after
      {
        assert table[..i + 1] == table[..i] + [table[i]];
        if table[i].session == sid && table[i].sequence == after {
          count := count + 1;
        }
      }
      assert table[..|table|] == table;
      assert Has(Rows(sid), after) <==> count > 0;
      if count == 0 {
        if sid !in sessions {
          return Err(NoSuchSession);
        }
        match sessions[sid].createdAt {
          case None => return Ok(false);
          case Some(created) =>
            if now - created > retention {
              return Ok(true);
            }
        }
      }
      return Ok(false);
    }

    method Replay(sid: SessionId, after: int, limit: int, now: int) returns (r: Result<CursorResult, StoreError>)
      ensures r == ReplayPage(Rows(sid), Session(sid), retention, now, after, limit)
      ensures r.Ok? && !r.value.resyncRequired ==>
                var n := if limit <= 0 then 100 else if limit <= 500 then limit else 500;
                var all := After(Rows(sid), after);
                && r.value.events == all[..Min(n, |all|)]
                && (Ascending(Rows(sid)) ==> (r.value.hasMore <==> |all| > n))
      ensures r.Ok? && r.value.resyncRequired ==> r.value.events == [] && r.value.nextAfter == after && !r.value.hasMore
    {
      ServedPage(Rows(sid), Session(sid), retention, now, after, limit);
      var n := limit;
      if n <= 0 {
        n := 100;
      }
      if n > 500 {
        n := 500;
      }
      var expired := IsCursorExpired(sid, after, now);
      if expired.Err? {
        return Err(expired.error);
      }
      if expired.value {
        return Ok(CursorResult([], after, true, false));
      }
      var events := GetBySequence(Rows(sid), after, n);
      var nextAfter := after;
      if |events| > 0 {
        nextAfter := events[|events| - 1].sequence;
      }
      var hasMore := false;
      if |events| == n {
        var more := GetBySequence(Rows(sid), nextAfter, 1);
        hasMore := |more| > 0;
      }
      return Ok(CursorResult(events, nextAfter, false, hasMore));
    }

    /** One transaction: next number, insert, last_sequence; an error leaves everything as it was. */
    method AppendWithoutTx(sid: SessionId, body: Body, occurredAt: int) returns (r: Result<nat, StoreError>)
      requires Valid()
      modifies this
      ensures Valid()
      ensures sid !in old(sessions) ==> r == Err(NoSuchSession) && table == old(table) && sessions == old(sessions)
      ensures sid in old(sessions) ==>
                && r == Ok(MaxSequence(old(Rows(sid))) + 1)
                && table == old(table) + [Row(sid, r.value, body, occurredAt)]
                && sessions == old(sessions)[sid := old(sessions)[sid].(lastSequence := r.value)]
    {
      var nextSeq := MaxSequence(Rows(sid)) + 1;
      if sid !in sessions {
        return Err(NoSuchSession);
      }
      var row := Row(sid, nextSeq, body, occurredAt);
      forall other ensures Ascending(SessionRows(table + [row], other)) {
        AppendAscending(table, row, other);
      }
      table := table + [row];
      sessions := sessions[sid := sessions[sid].(lastSequence := nextSeq)];
      return Ok(nextSeq);
    }

    method PurgeExpired(before: int) returns (removed: nat)
      requires Valid()
      modifies this
      ensures Valid()
      ensures sessions == old(sessions) && removed == |old(table)| - |table|
      ensures forall sid :: Rows(sid) == Purge(old(Rows(sid)), before)
      ensures forall r :: r in table <==> r in old(table) && r.occurredAt >= before
    {
      var kept: seq<Row> := [];
      for i := 0 to |table|
        invariant table == old(table) && sessions == old(sessions)
        invariant kept == Purge(table[..i], before)
      {
        assert table[..i + 1] == table[..i] + [table[i]];
        PurgeConcat(table[..i], [table[i]], before);
        assert [table[i]][1..] == [];
        if table[i].occurredAt >= before {
          kept := kept + [table[i]];
        }
      }
      assert table[..|table|] == table;
      PurgeMembers(table, before);
      forall sid ensures SessionRows(kept, sid) == Purge(SessionRows(table, sid), before) && Ascending(SessionRows(kept, sid)) {
        PurgeCommutes(table, before, sid);
        PurgeAscending(SessionRows(table, sid), before);
      }
      removed := |table| - |kept|;
      table := kept;
    }
  }

  lemma {:induction false} PurgeConcat(a: seq<Row>, b: seq<Row>, before: int)
    ensures Purge(a + b, before) == Purge(a, before) + Purge(b, before)
    decreases |a|
  {
    if a == [] {
      assert a + b == b;
    } else {
      assert (a + b)[1..] == a[1..] + b;
      PurgeConcat(a[1..], b, before);
      Regroup(OnlyIf(a[0].occurredAt >= before, a[0]), Purge(a[1..], before), Purge(b, before));
    }
  }
}
