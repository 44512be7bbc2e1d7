/**
 Concurrent appends to the journal. A writer reads MAX(sequence) in one step and
 inserts in a later one; between the two any other writer may commit. Only the
 UNIQUE(session, sequence) constraint and the foreign key stand in its way.
 */
module ConcurrentAppends {
  import opened CursorGate
  import opened Journal

  type WriterId = nat

  /** A transaction that has read the highest committed sequence of its session. */
  datatype Writer = Writer(session: SessionId, body: Body, occurredAt: int, max: nat)

  datatype Outcome = Acked(writer: WriterId, row: Row) | Failed(writer: WriterId)

  datatype State = State(
    table: seq<Row>,
    sessions: map<SessionId, SessionRow>,
    writers: map<WriterId, Writer>,
    log: seq<Outcome>)

  datatype Action =
    | ReadMax(w: WriterId, session: SessionId, body: Body, occurredAt: int)
    | Commit(w: WriterId)
    | Rollback(w: WriterId)

  function RowOf(w: Writer): Row {
    Row(w.session, w.max + 1, w.body, w.occurredAt)
  }

  predicate Accepted(s: State, w: Writer) {
    w.session in s.sessions && forall r :: r in s.table ==> !(r.session == w.session && r.sequence == w.max + 1)
  }

  function Step(s: State, a: Action): State {
    match a
    case ReadMax(w, session, body, at) =>
      if w in s.writers then s
      else s.(writers := s.writers[w := Writer(session, body, at, MaxSequence(SessionRows(s.table, session)))])
    case Commit(w) =>
      if w !in s.writers then s
      else
        var writer := s.writers[w];
        if Accepted(s, writer) then
          State(s.table + [RowOf(writer)],
                s.sessions[writer.session := s.sessions[writer.session].(lastSequence := writer.max + 1)],
                s.writers - {w},
                s.log + [Acked(w, RowOf(writer))])
        else s.(writers := s.writers - {w}, log := s.log + [Failed(w)])
    case Rollback(w) =>
      if w !in s.writers then s else s.(writers := s.writers - {w}, log := s.log + [Failed(w)])
  }

  function Exec(s: State, run: seq<Action>): State
    decreases |run|
  {
    if run == [] then s else Exec(Step(s, run[0]), run[1..])
  }

  function AckedRows(log: seq<Outcome>): seq<Row> {
    if log == [] then []
    else AckedRows(log[..|log| - 1]) + (if log[|log| - 1].Acked? then [log[|log| - 1].row] else [])
  }

  function Bodies(rows: seq<Row>): seq<Body> {
    seq(|rows|, i requires 0 <= i < |rows| => rows[i].body)
  }

  ghost predicate SessionOk(rows: seq<Row>, sid: SessionId, sessions: map<SessionId, SessionRow>) {
    Contiguous(rows, 0) && (if sid in sessions then sessions[sid].lastSequence == |rows| else rows == [])
  }

  /** Sequences 1..N per session, last_sequence = N, and the table is exactly what was acknowledged. */
  ghost predicate Numbered(s: State) {
    && (forall sid :: SessionOk(SessionRows(s.table, sid), sid, s.sessions))
    && (forall w :: w in s.writers ==> s.writers[w].max <= |SessionRows(s.table, s.writers[w].session)|)
  }

  /** Sessions without events and an empty table are a starting state. */
  lemma EmptyIsNumbered(sessions: map<SessionId, SessionRow>)
    requires forall sid :: sid in sessions ==> sessions[sid].lastSequence == 0
    ensures Numbered(State([], sessions, map[], []))
  {
  }

  lemma NumberTaken(s: State, sid: SessionId, k: nat)
    requires Numbered(s) && k < |SessionRows(s.table, sid)|
    ensures exists r :: r in s.table && r.session == sid && r.sequence == k + 1
  {
    assert SessionRows(s.table, sid)[k] in SessionRows(s.table, sid);
  }

  /** An accepted writer read the true maximum: had it been overtaken, its number would be taken. */
  lemma AcceptedIsNext(s: State, w: Writer)
    requires Numbered(s) && Accepted(s, w) && w.max <= |SessionRows(s.table, w.session)|
    ensures w.max == |SessionRows(s.table, w.session)|
  {
    if w.max < |SessionRows(s.table, w.session)| {
      NumberTaken(s, w.session, w.max);
    }
  }

  /** A writer is accepted exactly when its session exists and nobody has overtaken it. */
  lemma AcceptedIff(s: State, w: WriterId)
    requires Numbered(s) && w in s.writers
    ensures var writer := s.writers[w]; var rows := SessionRows(s.table, writer.session);
            Accepted(s, writer) <==> writer.session in s.sessions && writer.max == |rows|
  {
    var writer := s.writers[w];
    var rows := SessionRows(s.table, writer.session);
    if Accepted(s, writer) {
      AcceptedIsNext(s, writer);
    }
    forall r | r in s.table && r.session == writer.session ensures r.sequence <= |rows| {
      NoneBeyond(s, r);
    }
  }

  lemma NoneBeyond(s: State, r: Row)
    requires Numbered(s) && r in s.table
    ensures r.sequence <= |SessionRows(s.table, r.session)|
  {
    var rows := SessionRows(s.table, r.session);
    assert SessionOk(rows, r.session, s.sessions) && r in rows;
    var k :| 0 <= k < |rows| && rows[k] == r;
  }

  /** What becomes of a commit: row, counter and acknowledgement together, or none of them. */
  lemma CommitIff(s: State, w: WriterId)
    requires Numbered(s) && w in s.writers
    ensures var writer := s.writers[w]; var n := |SessionRows(s.table, writer.session)|;
            var row := Row(writer.session, n + 1, writer.body, writer.occurredAt);
            Step(s, Commit(w)) ==
            if writer.session in s.sessions && writer.max == n then
              State(s.table + [row], s.sessions[writer.session := SessionRow(s.sessions[writer.session].createdAt, n + 1)],
                    s.writers - {w}, s.log + [Acked(w, row)])
            else State(s.table, s.sessions, s.writers - {w}, s.log + [Failed(w)])
  {
    AcceptedIff(s, w);
  }

  /** A writer that nothing comes between gets the next number of its session, if the session exists. */
  lemma LoneWriter(s: State, w: WriterId, sid: SessionId, body: Body, at: int)
    requires Numbered(s) && w !in s.writers
    ensures var row := Row(sid, |SessionRows(s.table, sid)| + 1, body, at);
            Exec(s, [ReadMax(w, sid, body, at), Commit(w)]) ==
            if sid in s.sessions then
              State(s.table + [row], s.sessions[sid := SessionRow(s.sessions[sid].createdAt, row.sequence)], s.writers, s.log + [Acked(w, row)])
            else s.(log := s.log + [Failed(w)])
  {
    ExecTwo(s, ReadMax(w, sid, body, at), Commit(w));
    ReadsLast(s, w, sid, body, at);
    CommitIff(Step(s, ReadMax(w, sid, body, at)), w);
  }

  lemma ReadsLast(s: State, w: WriterId, sid: SessionId, body: Body, at: int)
    requires Numbered(s) && w !in s.writers
    ensures var t := Step(s, ReadMax(w, sid, body, at));
            && Numbered(t) && t == s.(writers := t.writers)
            && t.writers == s.writers[w := Writer(sid, body, at, |SessionRows(s.table, sid)|)] && t.writers - {w} == s.writers
  {
    assert SessionOk(SessionRows(s.table, sid), sid, s.sessions);
    MaxOfAscending(SessionRows(s.table, sid));
    NumberedStep(s, ReadMax(w, sid, body, at));
  }

  /** Rolled back, a writer leaves nothing but its failure. */
  lemma RolledBack(s: State, w: WriterId, sid: SessionId, body: Body, at: int)
    requires w !in s.writers
    ensures Exec(s, [ReadMax(w, sid, body, at), Rollback(w)]) == s.(log := s.log + [Failed(w)])
  {
    ExecTwo(s, ReadMax(w, sid, body, at), Rollback(w));
    assert Step(s, ReadMax(w, sid, body, at)).writers - {w} == s.writers;
  }

  lemma ExecTwo(s: State, a: Action, b: Action)
    ensures Exec(s, [a, b]) == Step(Step(s, a), b)
  {
    assert [a, b][1..] == [b] && [b][1..] == [];
    assert Exec(Step(s, a), [b]) == Exec(Step(Step(s, a), b), []);
  }

  /** A commit whose row was accepted adds the next number of its session. */
  lemma CommitNumbered(s: State, w: WriterId)
    requires Numbered(s) && w in s.writers && Accepted(s, s.writers[w])
    ensures var t, row := Step(s, Commit(w)), RowOf(s.writers[w]);
            && row.sequence == |SessionRows(s.table, row.session)| + 1
            && t.table == s.table + [row] && Numbered(t)
  {
    var t, row := Step(s, Commit(w)), RowOf(s.writers[w]);
    AcceptedIsNext(s, s.writers[w]);
    forall sid ensures SessionOk(SessionRows(t.table, sid), sid, t.sessions) && |SessionRows(s.table, sid)| <= |SessionRows(t.table, sid)| {
      assert SessionOk(SessionRows(s.table, sid), sid, s.sessions);
      AppendRow(s.table, row, sid);
    }
    forall v | v in t.writers ensures t.writers[v].max <= |SessionRows(t.table, t.writers[v].session)| {
      assert s.writers[v] == t.writers[v];
    }
  }

  lemma NumberedStep(s: State, a: Action)
    requires Numbered(s)
    ensures Numbered(Step(s, a))
    ensures Step(s, a).table == s.table
            || (a.Commit? && a.w in s.writers && Step(s, a).table == s.table + [RowOf(s.writers[a.w])])
  {
    if a.ReadMax? {
      MaxOfAscending(SessionRows(s.table, a.session));
    } else if a.Commit? && a.w in s.writers && Accepted(s, s.writers[a.w]) {
      CommitNumbered(s, a.w);
    }
  }

  lemma RowsGrow(s: State, a: Action)
    requires Numbered(s)
    ensures forall sid :: SessionRows(s.table, sid) <= SessionRows(Step(s, a).table, sid)
  {
    NumberedStep(s, a);
    if Step(s, a).table != s.table {
      forall sid ensures SessionRows(s.table, sid) <= SessionRows(Step(s, a).table, sid) {
        AppendRow(s.table, RowOf(s.writers[a.w]), sid);
      }
    }
  }

  /**
   In every reachable state the committed sequences of every session are exactly
   1..N with last_sequence = N, whatever the interleaving and whoever fails.
   */
  lemma {:induction false} AlwaysNumbered(s: State, run: seq<Action>)
    requires Numbered(s)
    ensures Numbered(Exec(s, run))
    ensures forall sid :: SessionRows(s.table, sid) <= SessionRows(Exec(s, run).table, sid)
    decreases |run|
  {
    if run != [] {
      NumberedStep(s, run[0]);
      RowsGrow(s, run[0]);
      AlwaysNumbered(Step(s, run[0]), run[1..]);
    }
  }

  /** A failed writer leaves no trace, a successful one exactly one row: the table replays the acknowledgements. */
  lemma {:induction false} OnlyAckedRows(s: State, run: seq<Action>)
    requires s.table == AckedRows(s.log)
    ensures Exec(s, run).table == AckedRows(Exec(s, run).log)
    decreases |run|
  {
    if run != [] {
      AckedStep(s, run[0]);
      OnlyAckedRows(Step(s, run[0]), run[1..]);
    }
  }

  lemma AckedStep(s: State, a: Action)
    requires s.table == AckedRows(s.log)
    ensures Step(s, a).table == AckedRows(Step(s, a).log)
  {
    match a {
      case ReadMax(_, _, _, _) =>
      case Commit(w) =>
        if w in s.writers {
          AckedAppend(s.log, if Accepted(s, s.writers[w]) then Acked(w, RowOf(s.writers[w])) else Failed(w));
        }
      case Rollback(w) => AckedAppend(s.log, Failed(w));
    }
  }

  lemma AckedAppend(log: seq<Outcome>, e: Outcome)
    ensures AckedRows(log + [e]) == AckedRows(log) + (if e.Acked? then [e.row] else [])
  {
    assert (log + [e])[..|log|] == log;
  }

  /** Of two writers that read the same maximum at most one commits. */
  lemma RacersConflict(s: State, u: WriterId, w: WriterId)
    requires u != w && u in s.writers && w in s.writers
    requires s.writers[u].session == s.writers[w].session && s.writers[u].max == s.writers[w].max
    ensures Accepted(s, s.writers[u]) ==> !Accepted(Step(s, Commit(u)), s.writers[w])
  {
    if Accepted(s, s.writers[u]) {
      assert RowOf(s.writers[u]) in Step(s, Commit(u)).table;
    }
  }

  /** Seen from one session, each step leaves the journal alone or appends one event: the commit of the synchronisation model. */
  lemma JournalGrowsByOne(s: State, a: Action, sid: SessionId)
    requires Numbered(s)
    ensures var before, after := Bodies(SessionRows(s.table, sid)), Bodies(SessionRows(Step(s, a).table, sid));
            after == before || exists body :: after == before + [body]
  {
    NumberedStep(s, a);
    if Step(s, a).table != s.table {
      var row := RowOf(s.writers[a.w]);
      AppendRow(s.table, row, sid);
      if row.session == sid {
        BodiesAppend(SessionRows(s.table, sid), row);
      }
    }
  }

  lemma BodiesAppend(rows: seq<Row>, row: Row)
    ensures Bodies(rows + [row]) == Bodies(rows) + [row.body]
  {
  }
}
