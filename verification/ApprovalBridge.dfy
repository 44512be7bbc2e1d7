/**
 Approval requests and their decisions. A decision is a check-and-set under the
 bridge lock; the store write of a decision happens after the lock is released,
 all other writes happen inside it. An approval that is not in memory is loaded
 from the store first, outside the lock, as a private copy.
 */
module ApprovalBridge {
  import opened Outcomes

  type ApprovalId = string
  type CallId = nat

  const DEFAULT_EXPIRY: nat := 300_000_000_000

  datatype ApprovalState = Pending | Approved | Denied | Expired | Cancelled

  datatype Approval = Approval(
    session: string,
    state: ApprovalState,
    expiresAt: int,
    decidedAt: Option<int>,
    reason: Option<string>)

  datatype Outcome =
    | Won(approved: bool)
    | AlreadyFinal(state: ApprovalState)
    | TooLate
    | NotFound

  // ------------------------------------------------- what happens under the lock

  function Finish(a: Approval, state: ApprovalState, now: int): Approval {
    a.(state := state, decidedAt := Some(now))
  }

  function Verdict(approved: bool): ApprovalState {
    if approved then Approved else Denied
  }

  function DecideOn(a: Approval, approved: bool, reason: string, now: int): (Approval, Outcome) {
    if a.state != Pending then (a, AlreadyFinal(a.state))
    else if now > a.expiresAt then (Finish(a, Expired, now), TooLate)
    else (Finish(a, Verdict(approved), now).(reason := Some(reason)), Won(approved))
  }

  function CancelOn(a: Approval, now: int): Approval {
    if a.state == Pending then Finish(a, Cancelled, now) else a
  }

  function ExpireOn(a: Approval, now: int): Approval {
    if a.state == Pending && now > a.expiresAt then Finish(a, Expired, now) else a
  }

  function ExtendOn(a: Approval, d: int): Approval {
    if a.state == Pending then a.(expiresAt := a.expiresAt + d) else a
  }

  function ExpireAll(m: map<ApprovalId, Approval>, now: int): map<ApprovalId, Approval> {
    map id | id in m :: ExpireOn(m[id], now)
  }

  /** UPDATE approvals SET state, decided_at, decision_reason WHERE id: the expiry column is not written. */
  function StoreUpdate(store: map<ApprovalId, Approval>, id: ApprovalId, a: Approval): map<ApprovalId, Approval> {
    if id in store then store[id := store[id].(state := a.state, decidedAt := a.decidedAt, reason := a.reason)] else store
  }

  /** INSERT INTO approvals: fails on an id that has a row. */
  function StoreCreate(store: map<ApprovalId, Approval>, id: ApprovalId, a: Approval): map<ApprovalId, Approval> {
    if id in store then store else store[id := a]
  }

  // ------------------------------------------------------------- the step system

  /** A Decide call that has not found its approval in memory. */
  datatype Miss = Miss(id: ApprovalId, approved: bool, reason: string)

  datatype Load = Load(id: ApprovalId, approved: bool, reason: string, copy: Approval)

  datatype StoreWrite = StoreWrite(id: ApprovalId, value: Approval)

  datatype Answer = Answer(call: CallId, id: ApprovalId, outcome: Outcome, at: int)

  datatype State = State(
    now: int,
    mem: map<ApprovalId, Approval>,
    store: map<ApprovalId, Approval>,
    misses: map<CallId, Miss>,
    loads: map<CallId, Load>,
    writes: map<CallId, StoreWrite>,
    log: seq<Answer>)

  datatype Action =
    | Tick(d: nat)
    | Request(id: ApprovalId, session: string, ok: bool)
    | Decide(call: CallId, id: ApprovalId, approved: bool, reason: string)
    | LoadMissed(call: CallId)
    | ResumeLoaded(call: CallId)
    | WriteDecision(call: CallId, ok: bool)
    | Cancel(id: ApprovalId, ok: bool)
    | Extend(id: ApprovalId, delta: int, ok: bool)
    | CheckExpiry(failed: set<ApprovalId>)

  /** The locked part of Decide on approval a; resident says whether a is the shared record. */
  function Settle(s: State, call: CallId, load: Load, resident: bool): State {
    var (a, outcome) := DecideOn(load.copy, load.approved, load.reason, s.now);
    var t := s.(log := s.log + [Answer(call, load.id, outcome, s.now)]);
    if outcome.AlreadyFinal? then t
    else t.(mem := if resident || outcome.Won? then s.mem[load.id := a] else s.mem,
            writes := s.writes[call := StoreWrite(load.id, a)])
  }

  /** A call that has nothing under way. */
  predicate Idle(s: State, c: CallId) {
    c !in s.misses && c !in s.loads && c !in s.writes
  }

  /** The load from the store, outside the lock; memory is not looked at again. */
  function LoadFor(s: State, call: CallId, miss: Miss): State {
    if miss.id in s.store then s.(loads := s.loads[call := Load(miss.id, miss.approved, miss.reason, s.store[miss.id])])
    else s.(log := s.log + [Answer(call, miss.id, NotFound, s.now)])
  }

  function Step(s: State, act: Action): State {
    match act
    case Tick(d) => s.(now := s.now + d)
    case Request(id, session, ok) =>
      var a := Approval(session, Pending, s.now + DEFAULT_EXPIRY, None, None);
      s.(mem := s.mem[id := a], store := if ok then StoreCreate(s.store, id, a) else s.store)
    case Decide(call, id, approved, reason) =>
      if !Idle(s, call) then s
      else if id in s.mem then Settle(s, call, Load(id, approved, reason, s.mem[id]), true)
      else s.(misses := s.misses[call := Miss(id, approved, reason)])
    case LoadMissed(call) =>
      if call !in s.misses || call in s.loads || call in s.writes then s
      else LoadFor(s.(misses := s.misses - {call}), call, s.misses[call])
    case ResumeLoaded(call) =>
      if call !in s.loads || call in s.writes then s
      else Settle(s.(loads := s.loads - {call}), call, s.loads[call], false)
    case WriteDecision(call, ok) =>
      if call !in s.writes then s
      else
        var w := s.writes[call];
        s.(writes := s.writes - {call}, store := if ok then StoreUpdate(s.store, w.id, w.value) else s.store)
    case Cancel(id, ok) =>
      if id !in s.mem || s.mem[id].state != Pending then s
      else
        var a := CancelOn(s.mem[id], s.now);
        s.(mem := s.mem[id := a], store := if ok then StoreUpdate(s.store, id, a) else s.store)
    case Extend(id, delta, ok) =>
      if id !in s.mem || s.mem[id].state != Pending then s
      else
        var a := ExtendOn(s.mem[id], delta);
        s.(mem := s.mem[id := a], store := if ok then StoreUpdate(s.store, id, a) else s.store)
    case CheckExpiry(failed) =>
      s.(mem := ExpireAll(s.mem, s.now),
         store := map id | id in s.store ::
           if id in s.mem && ExpireOn(s.mem[id], s.now) != s.mem[id] && id !in failed
           then StoreUpdate(s.store, id, ExpireOn(s.mem[id], s.now))[id] else s.store[id])
  }

  function Exec(s: State, run: seq<Action>): State
    decreases |run|
  {
    if run == [] then s else Exec(Step(s, run[0]), run[1..])
  }

  // ------------------------------------------------------------------- one shot

  /** The decisions that won on one approval, oldest first. */
  function Wins(log: seq<Answer>, id: ApprovalId): seq<bool> {
    if log == [] then []
    else
      var last := log[|log| - 1];
      Wins(log[..|log| - 1], id) + (if last.id == id && last.outcome.Won? then [last.outcome.approved] else [])
  }

  /** No call is on its way to a private copy of id. */
  predicate NoLoad(s: State, id: ApprovalId) {
    (forall c :: c in s.loads ==> s.loads[c].id != id) && (forall c :: c in s.misses ==> s.misses[c].id != id)
  }

  predicate Resident(s: State, id: ApprovalId) {
    id in s.mem && NoLoad(s, id)
  }

  /** What the log says about approval id agrees with the record a. */
  ghost predicate Tells(log: seq<Answer>, id: ApprovalId, a: Approval) {
    && Wins(log, id) == (if a.state == Approved then [true] else if a.state == Denied then [false] else [])
    && (forall i :: 0 <= i < |log| && log[i].id == id && log[i].outcome.AlreadyFinal? ==>
          log[i].outcome.state == a.state && a.state != Pending)
    && (a.state == Approved || a.state == Denied ==> a.decidedAt.Some? && a.decidedAt.value <= a.expiresAt)
  }

  ghost predicate Told(s: State, id: ApprovalId)
    requires id in s.mem
  {
    Tells(s.log, id, s.mem[id])
  }

  lemma WinsAppend(log: seq<Answer>, e: Answer, id: ApprovalId)
    ensures Wins(log + [e], id) == Wins(log, id) + (if e.id == id && e.outcome.Won? then [e.outcome.approved] else [])
  {
    assert (log + [e])[..|log|] == log;
  }

  predicate Asks(act: Action, id: ApprovalId) {
    act.Request? && act.id == id
  }

  /** How often an id is requested in a run. */
  function Requests(run: seq<Action>, id: ApprovalId): nat {
    if run == [] then 0 else (if Asks(run[0], id) then 1 else 0) + Requests(run[1..], id)
  }

  predicate Deciding(act: Action) {
    act.Decide? || act.LoadMissed? || act.ResumeLoaded?
  }

  /** Every other step, short of a new request, leaves the log alone and touches only pending records. */
  lemma QuietStep(s: State, act: Action, id: ApprovalId)
    requires !Deciding(act) && !Asks(act, id) && id in s.mem
    ensures var t := Step(s, act);
            && t.log == s.log && t.loads == s.loads && t.misses == s.misses && id in t.mem
            && (t.mem[id] == s.mem[id]
                || (s.mem[id].state == Pending
                    && (t.mem[id].state == Pending || t.mem[id].state == Expired || t.mem[id].state == Cancelled)))
  {
  }

  /** One more answer, given by a decision on the record itself. */
  lemma TellsDecision(log: seq<Answer>, id: ApprovalId, a: Approval, call: CallId, approved: bool, reason: string, now: int)
    requires Tells(log, id, a)
    ensures var (b, outcome) := DecideOn(a, approved, reason, now);
            Tells(log + [Answer(call, id, outcome, now)], id, b) && (a.state != Pending ==> b == a)
  {
    WinsAppend(log, Answer(call, id, DecideOn(a, approved, reason, now).1, now), id);
  }

  lemma TellsOther(log: seq<Answer>, id: ApprovalId, a: Approval, e: Answer)
    requires Tells(log, id, a) && (e.id != id || e.outcome == NotFound)
    ensures Tells(log + [e], id, a)
  {
    WinsAppend(log, e, id);
  }

  lemma SettleTold(s: State, call: CallId, load: Load, resident: bool, id: ApprovalId)
    requires Resident(s, id) && Told(s, id)
    requires load.id == id ==> resident && load.copy == s.mem[id]
    ensures var t := Settle(s, call, load, resident);
            Resident(t, id) && Told(t, id) && (s.mem[id].state != Pending ==> t.mem[id] == s.mem[id])
  {
    if load.id == id {
      SettleOwn(s, call, load, id);
    } else {
      SettleOther(s, call, load, resident, id);
    }
  }

  lemma SettleOwn(s: State, call: CallId, load: Load, id: ApprovalId)
    requires Resident(s, id) && Told(s, id) && load.id == id && load.copy == s.mem[id]
    ensures var t := Settle(s, call, load, true);
            Resident(t, id) && Told(t, id) && (s.mem[id].state != Pending ==> t.mem[id] == s.mem[id])
  {
    var (a, outcome) := DecideOn(load.copy, load.approved, load.reason, s.now);
    var t := Settle(s, call, load, true);
    TellsDecision(s.log, id, s.mem[id], call, load.approved, load.reason, s.now);
    assert t.mem[id] == a && t.log == s.log + [Answer(call, id, outcome, s.now)] && t.loads == s.loads && t.misses == s.misses;
  }

  lemma SettleOther(s: State, call: CallId, load: Load, resident: bool, id: ApprovalId)
    requires Resident(s, id) && Told(s, id) && load.id != id
    ensures var t := Settle(s, call, load, resident);
            Resident(t, id) && Told(t, id) && t.mem[id] == s.mem[id]
  {
    var outcome := DecideOn(load.copy, load.approved, load.reason, s.now).1;
    var t, e := Settle(s, call, load, resident), Answer(call, load.id, outcome, s.now);
    TellsOther(s.log, id, s.mem[id], e);
    assert t.mem[id] == s.mem[id] && t.log == s.log + [e] && t.loads == s.loads && t.misses == s.misses;
  }

  lemma ToldDecide(s: State, act: Action, id: ApprovalId)
    requires act.Decide? && Resident(s, id) && Told(s, id)
    ensures Resident(Step(s, act), id) && Told(Step(s, act), id)
    ensures s.mem[id].state != Pending ==> Step(s, act).mem[id] == s.mem[id]
  {
    if Idle(s, act.call) && act.id in s.mem {
      SettleTold(s, act.call, Load(act.id, act.approved, act.reason, s.mem[act.id]), true, id);
    }
  }

  lemma ToldLoad(s: State, call: CallId, id: ApprovalId)
    requires Resident(s, id) && Told(s, id)
    ensures var t := Step(s, LoadMissed(call)); Resident(t, id) && Told(t, id) && t.mem == s.mem
  {
    if call in s.misses && call !in s.loads && call !in s.writes {
      var miss, t := s.misses[call], Step(s, LoadMissed(call));
      assert miss.id != id && t.mem == s.mem;
      if miss.id in s.store {
        assert t.log == s.log;
      } else {
        var e := Answer(call, miss.id, NotFound, s.now);
        assert t.log == s.log + [e];
        TellsOther(s.log, id, s.mem[id], e);
      }
    }
  }

  lemma ToldResume(s: State, call: CallId, id: ApprovalId)
    requires Resident(s, id) && Told(s, id)
    ensures var t := Step(s, ResumeLoaded(call));
            Resident(t, id) && Told(t, id) && (s.mem[id].state != Pending ==> t.mem[id] == s.mem[id])
  {
    if call in s.loads && call !in s.writes {
      SettleTold(s.(loads := s.loads - {call}), call, s.loads[call], false, id);
    }
  }

  lemma ToldStep(s: State, act: Action, id: ApprovalId)
    requires Resident(s, id) && Told(s, id) && !Asks(act, id)
    ensures Resident(Step(s, act), id) && Told(Step(s, act), id)
    ensures s.mem[id].state != Pending ==> Step(s, act).mem[id] == s.mem[id]
  {
    if act.Decide? {
      ToldDecide(s, act, id);
    } else if act.LoadMissed? {
      ToldLoad(s, act.call, id);
    } else if act.ResumeLoaded? {
      ToldResume(s, act.call, id);
    } else {
      QuietStep(s, act, id);
    }
  }

  /** A first request, persisted, is where the promises below start. */
  lemma RequestStarts(s: State, id: ApprovalId, session: string)
    requires Untouched(s, id) && id !in s.store
    ensures var t := Step(s, Request(id, session, true)); Resident(t, id) && Told(t, id) && Agrees(t, id)
  {
    NoAnswersNoWins(s.log, id);
  }

  /**
   One shot, for every interleaving: on an approval held in memory that is not requested
   again, pending is left at most once, a terminal record never changes again, at most
   one decision wins and it names the final state, every late answer names the true
   final state, and approved or denied is only reached no later than the expiry.
   */
  lemma {:induction false} OneShot(s: State, run: seq<Action>, id: ApprovalId)
    requires Resident(s, id) && Told(s, id) && Requests(run, id) == 0
    ensures Resident(Exec(s, run), id) && Told(Exec(s, run), id)
    ensures s.mem[id].state != Pending ==> Exec(s, run).mem[id] == s.mem[id]
    ensures |Wins(Exec(s, run).log, id)| <= 1
    decreases |run|
  {
    if run != [] {
      ToldStep(s, run[0], id);
      OneShot(Step(s, run[0]), run[1..], id);
    }
  }

  /** No step of the run finds the clock past the expiry that the record in memory then has. */
  ghost predicate InTime(s: State, run: seq<Action>, id: ApprovalId)
    decreases |run|
  {
    (id in s.mem ==> s.now <= s.mem[id].expiresAt) && (run == [] || InTime(Step(s, run[0]), run[1..], id))
  }

  /** Steps that may end or replace a pending approval by themselves. */
  predicate Ends(act: Action, id: ApprovalId) {
    (act.Decide? && act.id == id) || (act.Cancel? && act.id == id) || Asks(act, id)
  }

  lemma PendingStep(s: State, act: Action, id: ApprovalId)
    requires Resident(s, id) && s.mem[id].state == Pending && s.now <= s.mem[id].expiresAt && !Ends(act, id)
    ensures var t := Step(s, act);
            Resident(t, id) && t.mem[id] == if act.Extend? && act.id == id then s.mem[id].(expiresAt := s.mem[id].expiresAt + act.delta) else s.mem[id]
  {
    match act {
      case Decide(call, _, _, _) =>
      case LoadMissed(call) =>
      case ResumeLoaded(call) =>
      case WriteDecision(_, _) =>
      case _ => QuietStep(s, act, id);
    }
  }

  /** Nothing but a decision, a cancellation or the clock ends a pending approval. */
  lemma {:induction false} PendingStays(s: State, run: seq<Action>, id: ApprovalId)
    requires Resident(s, id) && s.mem[id].state == Pending && InTime(s, run, id)
    requires forall act :: act in run ==> !Ends(act, id)
    ensures Resident(Exec(s, run), id)
    ensures Exec(s, run).mem[id] == s.mem[id].(expiresAt := Exec(s, run).mem[id].expiresAt)
    decreases |run|
  {
    if run != [] {
      PendingStep(s, run[0], id);
      PendingStays(Step(s, run[0]), run[1..], id);
    }
  }

  /** And the clock does: once it has passed the expiry, the sweep ends it, and a decision comes too late. */
  lemma LateIsExpired(s: State, id: ApprovalId, d: nat, call: CallId, approved: bool)
    requires id in s.mem && id in s.store && s.mem[id].state == Pending && s.now + d > s.mem[id].expiresAt && Idle(s, call)
    ensures var t := Step(Step(s, Tick(d)), CheckExpiry({}));
            t.now == s.now + d && t.mem[id] == s.mem[id].(state := Expired, decidedAt := Some(s.now + d))
            && t.store[id].state == Expired
    ensures var t := Step(Step(s, Tick(d)), Decide(call, id, approved, ""));
            t.mem[id].state == Expired && t.log == s.log + [Answer(call, id, TooLate, s.now + d)]
    ensures var t := Step(Step(Step(s, Tick(d)), CheckExpiry({})), Decide(call, id, approved, ""));
            t.log == s.log + [Answer(call, id, AlreadyFinal(Expired), s.now + d)]
  {
  }

  // ------------------------------------------------ calls with nothing in between

  /** The record a decision makes of a pending approval, in time or too late. */
  function DecidedRecord(a: Approval, approved: bool, reason: string, now: int): Approval {
    if now > a.expiresAt then a.(state := Expired, decidedAt := Some(now))
    else a.(state := if approved then Approved else Denied, decidedAt := Some(now), reason := Some(reason))
  }

  /** A row of the store after a written record: all columns but session and expiry. */
  predicate RowWritten(before: map<ApprovalId, Approval>, after: map<ApprovalId, Approval>, id: ApprovalId, a: Approval) {
    if id in before
    then after == before[id := Approval(before[id].session, a.state, before[id].expiresAt, a.decidedAt, a.reason)]
    else after == before
  }

  /** A decision on a resident approval and its store write. */
  lemma DecideAtOnce(s: State, call: CallId, id: ApprovalId, approved: bool, reason: string, ok: bool)
    requires Idle(s, call) && id in s.mem
    ensures var t := Exec(s, [Decide(call, id, approved, reason), WriteDecision(call, ok)]);
            var a := s.mem[id]; var b := DecidedRecord(a, approved, reason, s.now);
            if a.state != Pending then t == s.(log := s.log + [Answer(call, id, AlreadyFinal(a.state), s.now)])
            else
              && t.mem == s.mem[id := b] && t.writes == s.writes && t.misses == s.misses && t.loads == s.loads
              && t.log == s.log + [Answer(call, id, if s.now > a.expiresAt then TooLate else Won(approved), s.now)]
              && (if ok then RowWritten(s.store, t.store, id, b) else t.store == s.store)
  {
    ExecTwo(s, Decide(call, id, approved, reason), WriteDecision(call, ok));
    var a := s.mem[id];
    DecidesResident(s, call, id, approved, reason);
    if a.state == Pending {
      var outcome := if s.now > a.expiresAt then TooLate else Won(approved);
      var t := s.(mem := s.mem[id := DecidedRecord(a, approved, reason, s.now)], log := s.log + [Answer(call, id, outcome, s.now)]);
      WritesRow(t, call, StoreWrite(id, DecidedRecord(a, approved, reason, s.now)), ok);
    }
  }

  lemma DecidesResident(s: State, call: CallId, id: ApprovalId, approved: bool, reason: string)
    requires Idle(s, call) && id in s.mem
    ensures var t := Step(s, Decide(call, id, approved, reason));
            var a := s.mem[id]; var b := DecidedRecord(a, approved, reason, s.now);
            t == if a.state != Pending then s.(log := s.log + [Answer(call, id, AlreadyFinal(a.state), s.now)])
                 else s.(mem := s.mem[id := b], writes := s.writes[call := StoreWrite(id, b)],
                         log := s.log + [Answer(call, id, if s.now > a.expiresAt then TooLate else Won(approved), s.now)])
  {
  }

  lemma WritesRow(s: State, call: CallId, w: StoreWrite, ok: bool)
    requires call !in s.writes
    ensures var t := Step(s.(writes := s.writes[call := w]), WriteDecision(call, ok));
            && t == s.(store := t.store)
            && (if ok then RowWritten(s.store, t.store, w.id, w.value) else t.store == s.store)
  {
    assert s.writes[call := w] - {call} == s.writes;
  }

  /** A decision on an approval that only the store has: a private copy, which enters memory if it wins. */
  lemma LoadAtOnce(s: State, call: CallId, id: ApprovalId, approved: bool, reason: string)
    requires Idle(s, call) && id !in s.mem
    ensures var t := Step(Step(Step(s, Decide(call, id, approved, reason)), LoadMissed(call)), ResumeLoaded(call));
            if id !in s.store then t == s.(log := s.log + [Answer(call, id, NotFound, s.now)])
            else
              var a := s.store[id]; var b := DecidedRecord(a, approved, reason, s.now);
              if a.state != Pending then t == s.(log := s.log + [Answer(call, id, AlreadyFinal(a.state), s.now)])
              else
                && t.mem == (if s.now > a.expiresAt then s.mem else s.mem[id := b]) && t.store == s.store
                && t.writes == s.writes[call := StoreWrite(id, b)] && t.misses == s.misses && t.loads == s.loads
                && t.log == s.log + [Answer(call, id, if s.now > a.expiresAt then TooLate else Won(approved), s.now)]
  {
    var miss := Miss(id, approved, reason);
    var s1 := Step(s, Decide(call, id, approved, reason));
    assert s1 == s.(misses := s.misses[call := miss]) && s1.misses - {call} == s.misses;
    if id in s.store {
      LoadedSettles(s, call, Load(id, approved, reason, s.store[id]));
    }
  }

  lemma LoadedSettles(s: State, call: CallId, load: Load)
    requires Idle(s, call)
    ensures Step(s.(loads := s.loads[call := load]), ResumeLoaded(call)) == Settle(s, call, load, false)
  {
    assert s.loads[call := load] - {call} == s.loads;
  }

  /** The calls that are one step: request, cancellation and extension. */
  lemma SingleStepsAct(s: State, id: ApprovalId, session: string, delta: int, ok: bool)
    ensures var t := Step(s, Request(id, session, ok));
            var a := Approval(session, Pending, s.now + 300_000_000_000, None, None);
            t == s.(mem := s.mem[id := a], store := if ok && id !in s.store then s.store[id := a] else s.store)
    ensures id !in s.mem || s.mem[id].state != Pending ==> Step(s, Cancel(id, ok)) == s && Step(s, Extend(id, delta, ok)) == s
    ensures id in s.mem && s.mem[id].state == Pending ==>
              var t := Step(s, Cancel(id, ok)); var a := s.mem[id].(state := Cancelled, decidedAt := Some(s.now));
              && t == s.(mem := s.mem[id := a], store := t.store)
              && (if ok then RowWritten(s.store, t.store, id, a) else t.store == s.store)
    ensures id in s.mem && s.mem[id].state == Pending ==>
              var t := Step(s, Extend(id, delta, ok)); var a := s.mem[id].(expiresAt := s.mem[id].expiresAt + delta);
              && t == s.(mem := s.mem[id := a], store := t.store)
              && (if ok then RowWritten(s.store, t.store, id, a) else t.store == s.store)
  {
  }

  // ------------------------------------------- how many decisions can win at all

  predicate Dead(a: Approval, now: int) {
    a.state != Pending || now > a.expiresAt
  }

  /** A private copy of id that is still open to a decision exists or can be made. */
  predicate StoredLive(s: State, id: ApprovalId) {
    id !in s.mem && id in s.store && !Dead(s.store[id], s.now)
  }

  /** The stored row is past its expiry for good: no statement ever writes the expiry column. */
  predicate Lapsed(s: State, id: ApprovalId) {
    id in s.store && s.now > s.store[id].expiresAt
  }

  /** No private copy of id can win, now or later. */
  ghost predicate NoLiveCopy(s: State, id: ApprovalId) {
    && !StoredLive(s, id)
    && (forall c :: c in s.loads && s.loads[c].id == id ==> Dead(s.loads[c].copy, s.now))
    && FinalWrites(s.writes, id)
    && (forall c :: c in s.misses && s.misses[c].id == id ==> id !in s.mem || Lapsed(s, id))
  }

  /** Decisions on their way to the store are final. */
  ghost predicate FinalWrites(writes: map<CallId, StoreWrite>, id: ApprovalId) {
    forall c :: c in writes && writes[c].id == id ==> writes[c].value.state != Pending
  }

  lemma OneMoreWrite(writes: map<CallId, StoreWrite>, id: ApprovalId, call: CallId, w: StoreWrite)
    requires FinalWrites(writes, id) && (w.id == id ==> w.value.state != Pending)
    ensures FinalWrites(writes[call := w], id)
  {
  }

  /** No decision is under way on id and none has been answered. */
  ghost predicate Untouched(s: State, id: ApprovalId) {
    && NoLoad(s, id) && (forall c :: c in s.writes ==> s.writes[c].id != id)
    && (forall i :: 0 <= i < |s.log| ==> s.log[i].id != id)
  }

  /** 1 while the record in memory can still be decided (an expired one can be extended). */
  function Undecided(s: State, id: ApprovalId): nat {
    if id in s.mem && s.mem[id].state == Pending then 1 else 0
  }

  lemma {:induction false} NoAnswersNoWins(log: seq<Answer>, id: ApprovalId)
    requires forall i :: 0 <= i < |log| ==> log[i].id != id
    ensures Wins(log, id) == []
  {
    if log != [] {
      NoAnswersNoWins(log[..|log| - 1], id);
    }
  }

  /** The wins so far and the one that the record in memory may still bring. */
  function Budget(s: State, id: ApprovalId): nat {
    |Wins(s.log, id)| + Undecided(s, id)
  }

  lemma BudgetSettleOwn(s: State, call: CallId, load: Load, resident: bool, id: ApprovalId)
    requires NoLiveCopy(s, id) && load.id == id
    requires if resident then id in s.mem && load.copy == s.mem[id] else Dead(load.copy, s.now)
    ensures var t := Settle(s, call, load, resident); NoLiveCopy(t, id) && Budget(t, id) <= Budget(s, id)
  {
    var (a, outcome) := DecideOn(load.copy, load.approved, load.reason, s.now);
    var t, e := Settle(s, call, load, resident), Answer(call, id, outcome, s.now);
    WinsAppend(s.log, e, id);
    assert t.log == s.log + [e] && t.store == s.store && t.loads == s.loads && t.misses == s.misses && t.now == s.now;
    if !outcome.AlreadyFinal? {
      OneMoreWrite(s.writes, id, call, StoreWrite(id, a));
    }
  }

  /** A settled call leaves every other approval alone. */
  lemma SettleLeaves(s: State, call: CallId, load: Load, resident: bool, id: ApprovalId)
    requires load.id != id
    ensures var t, outcome := Settle(s, call, load, resident), DecideOn(load.copy, load.approved, load.reason, s.now).1;
            && t.log == s.log + [Answer(call, load.id, outcome, s.now)]
            && (id in t.mem <==> id in s.mem) && (id in s.mem ==> t.mem[id] == s.mem[id])
            && t.store == s.store && t.loads == s.loads && t.misses == s.misses && t.now == s.now
  {
  }

  lemma BudgetSettleOther(s: State, call: CallId, load: Load, resident: bool, id: ApprovalId)
    requires NoLiveCopy(s, id) && load.id != id
    ensures var t := Settle(s, call, load, resident); NoLiveCopy(t, id) && Budget(t, id) == Budget(s, id)
  {
    var (a, outcome) := DecideOn(load.copy, load.approved, load.reason, s.now);
    SettleLeaves(s, call, load, resident, id);
    WinsAppend(s.log, Answer(call, load.id, outcome, s.now), id);
    OneMoreWrite(s.writes, id, call, StoreWrite(load.id, a));
  }

  lemma BudgetSettle(s: State, call: CallId, load: Load, resident: bool, id: ApprovalId)
    requires NoLiveCopy(s, id)
    requires load.id == id ==> if resident then id in s.mem && load.copy == s.mem[id] else Dead(load.copy, s.now)
    ensures var t := Settle(s, call, load, resident); NoLiveCopy(t, id) && Budget(t, id) <= Budget(s, id)
  {
    if load.id == id {
      BudgetSettleOwn(s, call, load, resident, id);
    } else {
      BudgetSettleOther(s, call, load, resident, id);
    }
  }

  lemma BudgetDecide(s: State, act: Action, id: ApprovalId)
    requires NoLiveCopy(s, id) && act.Decide?
    ensures var t := Step(s, act); NoLiveCopy(t, id) && Budget(t, id) <= Budget(s, id)
  {
    if Idle(s, act.call) && act.id in s.mem {
      BudgetSettle(s, act.call, Load(act.id, act.approved, act.reason, s.mem[act.id]), true, id);
    }
  }

  lemma BudgetLoad(s: State, call: CallId, id: ApprovalId)
    requires NoLiveCopy(s, id)
    ensures var t := Step(s, LoadMissed(call)); NoLiveCopy(t, id) && Budget(t, id) == Budget(s, id)
  {
    if call in s.misses && call !in s.loads && call !in s.writes {
      var miss, t := s.misses[call], Step(s, LoadMissed(call));
      assert t.mem == s.mem && t.store == s.store && t.writes == s.writes && t.now == s.now;
      if miss.id in s.store {
        LoadIsDead(s, call, id);
      } else {
        WinsAppend(s.log, Answer(call, miss.id, NotFound, s.now), id);
      }
    }
  }

  lemma LoadIsDead(s: State, call: CallId, id: ApprovalId)
    requires NoLiveCopy(s, id) && call in s.misses && s.misses[call].id in s.store
    ensures var miss := s.misses[call]; miss.id == id ==> Dead(s.store[id], s.now)
    ensures var t := LoadFor(s, call, s.misses[call]); forall c :: c in t.loads && t.loads[c].id == id ==> Dead(t.loads[c].copy, t.now)
  {
  }

  lemma BudgetResume(s: State, call: CallId, id: ApprovalId)
    requires NoLiveCopy(s, id)
    ensures var t := Step(s, ResumeLoaded(call)); NoLiveCopy(t, id) && Budget(t, id) <= Budget(s, id)
  {
    if call in s.loads && call !in s.writes {
      BudgetSettle(s.(loads := s.loads - {call}), call, s.loads[call], false, id);
    }
  }

  lemma BudgetWrite(s: State, call: CallId, ok: bool, id: ApprovalId)
    requires NoLiveCopy(s, id)
    ensures var t := Step(s, WriteDecision(call, ok)); NoLiveCopy(t, id) && Budget(t, id) == Budget(s, id)
  {
    var t := Step(s, WriteDecision(call, ok));
    forall c | c in t.writes && t.writes[c].id == id ensures t.writes[c].value.state != Pending {
      assert c in s.writes && t.writes[c] == s.writes[c];
    }
  }

  /** What happens under the lock touches only records in memory and what the store has of them. */
  lemma BudgetLocked(s: State, act: Action, id: ApprovalId)
    requires NoLiveCopy(s, id) && (act.Tick? || act.Request? || act.Cancel? || act.Extend? || act.CheckExpiry?)
    requires Asks(act, id) ==> id in s.mem || Lapsed(s, id)
    ensures var t := Step(s, act);
            && t.log == s.log && t.loads == s.loads && t.misses == s.misses && t.writes == s.writes && t.now >= s.now
            && NoLiveCopy(t, id) && Undecided(t, id) <= Undecided(s, id) + (if Asks(act, id) then 1 else 0)
  {
    var t := Step(s, act);
    assert !StoredLive(t, id);
    forall c | c in t.loads && t.loads[c].id == id ensures Dead(t.loads[c].copy, t.now) {
      assert Dead(s.loads[c].copy, s.now);
    }
  }

  lemma BudgetStep(s: State, act: Action, id: ApprovalId)
    requires NoLiveCopy(s, id) && (Asks(act, id) ==> id in s.mem || Lapsed(s, id))
    ensures var t := Step(s, act);
            NoLiveCopy(t, id) && Budget(t, id) <= Budget(s, id) + (if Asks(act, id) then 1 else 0)
  {
    match act {
      case Decide(_, _, _, _) => BudgetDecide(s, act, id);
      case LoadMissed(call) => BudgetLoad(s, call, id);
      case ResumeLoaded(call) => BudgetResume(s, call, id);
      case WriteDecision(call, ok) => BudgetWrite(s, call, ok, id);
      case _ => BudgetLocked(s, act, id);
    }
  }

  /** Memory never forgets an approval, and a lapsed row stays lapsed. */
  lemma StaysKnown(s: State, act: Action, id: ApprovalId)
    ensures id in s.mem ==> id in Step(s, act).mem
    ensures Lapsed(s, id) ==> Lapsed(Step(s, act), id)
  {
    match act {
      case Decide(_, _, _, _) =>
      case LoadMissed(_) =>
      case ResumeLoaded(_) =>
      case WriteDecision(_, _) =>
      case Request(_, _, _) =>
      case Cancel(_, _) =>
      case Extend(_, _, _) =>
      case CheckExpiry(_) =>
      case Tick(_) =>
    }
  }

  /** Each request of an id that is in memory or whose row has lapsed lets at most one more decision win. */
  lemma {:induction false} WinsBound(s: State, run: seq<Action>, id: ApprovalId)
    requires NoLiveCopy(s, id) && (id in s.mem || Lapsed(s, id) || Requests(run, id) == 0)
    ensures |Wins(Exec(s, run).log, id)| <= Budget(s, id) + Requests(run, id)
    decreases |run|
  {
    if run != [] {
      BudgetStep(s, run[0], id);
      StaysKnown(s, run[0], id);
      WinsBound(Step(s, run[0]), run[1..], id);
    }
  }

  // The bound is reached: each request can be followed by a decision that wins.

  lemma OpenIsWon(s: State, id: ApprovalId, c: CallId)
    requires Idle(s, c) && id in s.mem && !Dead(s.mem[id], s.now)
    ensures var t := Step(Step(s, Decide(c, id, true, "")), WriteDecision(c, true));
            Idle(t, c) && Wins(t.log, id) == Wins(s.log, id) + [true]
  {
    WinsAppend(s.log, Answer(c, id, Won(true), s.now), id);
  }

  /** Ask again and decide, n times. */
  function Rounds(id: ApprovalId, c: CallId, n: nat): seq<Action> {
    if n == 0 then [] else [Request(id, "", true), Decide(c, id, true, ""), WriteDecision(c, true)] + Rounds(id, c, n - 1)
  }

  lemma {:induction false} RoundsWin(s: State, id: ApprovalId, c: CallId, n: nat)
    requires Idle(s, c)
    ensures |Wins(Exec(s, Rounds(id, c, n)).log, id)| == |Wins(s.log, id)| + n
    ensures Requests(Rounds(id, c, n), id) == n
    decreases n
  {
    if n > 0 {
      var asked := Step(s, Request(id, "", true));
      OpenIsWon(asked, id, c);
      var t := Step(Step(asked, Decide(c, id, true, "")), WriteDecision(c, true));
      RoundsWin(t, id, c, n - 1);
      RequestsOfFew([Request(id, "", true), Decide(c, id, true, ""), WriteDecision(c, true)], id);
      var round, rest := [Request(id, "", true), Decide(c, id, true, ""), WriteDecision(c, true)], Rounds(id, c, n - 1);
      ThreeSteps(s, round, rest);
      RequestsConcat(round, rest, id);
    }
  }

  lemma {:induction false} ExecConcat(s: State, a: seq<Action>, b: seq<Action>)
    ensures Exec(s, a + b) == Exec(Exec(s, a), b)
    decreases |a|
  {
    if a == [] {
      assert a + b == b;
    } else {
      assert (a + b)[1..] == a[1..] + b;
      ExecConcat(Step(s, a[0]), a[1..], b);
    }
  }

  lemma ExecTwo(s: State, a: Action, b: Action)
    ensures Exec(s, [a, b]) == Step(Step(s, a), b)
  {
    assert [a, b][1..] == [b] && [b][1..] == [];
    assert Exec(Step(s, a), [b]) == Exec(Step(Step(s, a), b), []);
  }

  lemma ThreeSteps(s: State, round: seq<Action>, rest: seq<Action>)
    requires |round| == 3
    ensures Exec(s, round + rest) == Exec(Step(Step(Step(s, round[0]), round[1]), round[2]), rest)
  {
    assert round + rest == [round[0], round[1]] + ([round[2]] + rest);
    ExecConcat(s, [round[0], round[1]], [round[2]] + rest);
    ExecTwo(s, round[0], round[1]);
    assert ([round[2]] + rest)[1..] == rest;
  }

  lemma {:induction false} RequestsConcat(a: seq<Action>, b: seq<Action>, id: ApprovalId)
    ensures Requests(a + b, id) == Requests(a, id) + Requests(b, id)
    decreases |a|
  {
    if a == [] {
      assert a + b == b;
    } else {
      assert (a + b)[1..] == a[1..] + b;
      RequestsConcat(a[1..], b, id);
    }
  }

  lemma RequestsOfFew(run: seq<Action>, id: ApprovalId)
    requires 1 <= |run| <= 3
    ensures Requests(run, id) == (if Asks(run[0], id) then 1 else 0) + (if |run| > 1 && Asks(run[1], id) then 1 else 0)
                                 + (if |run| > 2 && Asks(run[2], id) then 1 else 0)
  {
    if |run| > 1 {
      RequestsOfFew(run[1..], id);
    } else {
      assert run[1..] == [];
    }
  }

  /** A run with n requests in which the budget is used up. */
  function Spend(s: State, id: ApprovalId, c: CallId, n: nat): seq<Action> {
    if Undecided(s, id) == 0 then Rounds(id, c, n)
    else [Extend(id, Max(0, s.now - s.mem[id].expiresAt), true), Decide(c, id, true, ""), WriteDecision(c, true)] + Rounds(id, c, n)
  }

  lemma SpendWins(s: State, id: ApprovalId, c: CallId, n: nat)
    requires Idle(s, c)
    ensures |Wins(Exec(s, Spend(s, id, c, n)).log, id)| == Budget(s, id) + n
    ensures Requests(Spend(s, id, c, n), id) == n
  {
    if Undecided(s, id) == 0 {
      RoundsWin(s, id, c, n);
    } else {
      var extend := Extend(id, Max(0, s.now - s.mem[id].expiresAt), true);
      var round := [extend, Decide(c, id, true, ""), WriteDecision(c, true)];
      var extended := Step(s, extend);
      assert extended.log == s.log && extended.misses == s.misses && extended.loads == s.loads && extended.writes == s.writes && extended.now == s.now;
      OpenIsWon(extended, id, c);
      var t := Step(Step(extended, Decide(c, id, true, "")), WriteDecision(c, true));
      RoundsWin(t, id, c, n);
      ThreeSteps(s, round, Rounds(id, c, n));
      RequestsConcat(round, Rounds(id, c, n), id);
      RequestsOfFew(round, id);
    }
  }

  /** Two calls that both load before either settles. */
  function LatePair(c: CallId, d: CallId): seq<Action> {
    [LoadMissed(c), LoadMissed(d)] + [ResumeLoaded(c), ResumeLoaded(d)]
  }

  function Missing(id: ApprovalId, c: CallId, d: CallId): seq<Action> {
    [Decide(c, id, true, ""), Decide(d, id, false, "")]
  }

  /** Both calls find nothing in memory. */
  lemma BothMiss(s: State, id: ApprovalId, c: CallId, d: CallId)
    requires c != d && Idle(s, c) && Idle(s, d) && id !in s.mem
    ensures Exec(s, Missing(id, c, d)) == s.(misses := s.misses[c := Miss(id, true, "")][d := Miss(id, false, "")])
  {
    ExecTwo(s, Decide(c, id, true, ""), Decide(d, id, false, ""));
  }

  lemma LoaderWins(s: State, call: CallId)
    requires call in s.loads && call !in s.writes && !Dead(s.loads[call].copy, s.now)
    ensures var t, load := Step(s, ResumeLoaded(call)), s.loads[call];
            && t.log == s.log + [Answer(call, load.id, Won(load.approved), s.now)]
            && t.now == s.now && t.loads == s.loads - {call} && t.writes.Keys == s.writes.Keys + {call}
            && Wins(t.log, load.id) == Wins(s.log, load.id) + [load.approved]
  {
    WinsAppend(s.log, Answer(call, s.loads[call].id, Won(s.loads[call].approved), s.now), s.loads[call].id);
  }

  /** Two calls that missed memory and now find a live row both win, whatever memory says meanwhile. */
  lemma LatePairWins(s: State, id: ApprovalId, c: CallId, d: CallId)
    requires c != d && c in s.misses && s.misses[c] == Miss(id, true, "") && d in s.misses && s.misses[d] == Miss(id, false, "")
    requires c !in s.loads && c !in s.writes && d !in s.loads && d !in s.writes
    requires id in s.store && !Dead(s.store[id], s.now)
    ensures Wins(Exec(s, LatePair(c, d)).log, id) == Wins(s.log, id) + [true, false]
  {
    var t := Step(Step(s, LoadMissed(c)), LoadMissed(d));
    assert t.loads == s.loads[c := Load(id, true, "", s.store[id])][d := Load(id, false, "", s.store[id])];
    assert t.log == s.log && t.writes == s.writes && t.now == s.now;
    ExecConcat(s, [LoadMissed(c), LoadMissed(d)], [ResumeLoaded(c), ResumeLoaded(d)]);
    ExecTwo(s, LoadMissed(c), LoadMissed(d));
    ExecTwo(t, ResumeLoaded(c), ResumeLoaded(d));
    LoaderWins(t, c);
    LoaderWins(Step(t, ResumeLoaded(c)), d);
  }

  lemma NoRequestInPair(id: ApprovalId, c: CallId, d: CallId)
    ensures Requests(LatePair(c, d), id) == 0 && Requests(Missing(id, c, d), id) == 0
  {
    RequestsConcat([LoadMissed(c), LoadMissed(d)], [ResumeLoaded(c), ResumeLoaded(d)], id);
    RequestsOfFew([LoadMissed(c), LoadMissed(d)], id);
    RequestsOfFew([ResumeLoaded(c), ResumeLoaded(d)], id);
    RequestsOfFew(Missing(id, c, d), id);
  }

  lemma TwoLoadersWin(s: State, id: ApprovalId, c: CallId, d: CallId)
    requires c != d && Idle(s, c) && Idle(s, d) && Untouched(s, id) && StoredLive(s, id)
    ensures var run := Missing(id, c, d) + LatePair(c, d);
            Wins(Exec(s, run).log, id) == [true, false] && Requests(run, id) == 0
  {
    BothMiss(s, id, c, d);
    ExecConcat(s, Missing(id, c, d), LatePair(c, d));
    LatePairWins(Exec(s, Missing(id, c, d)), id, c, d);
    NoAnswersNoWins(s.log, id);
    NoRequestInPair(id, c, d);
    RequestsConcat(Missing(id, c, d), LatePair(c, d), id);
  }

  /** A request, and an extension that writes its pending state to the row. */
  function Renewal(id: ApprovalId): seq<Action> {
    [Request(id, "", true), Extend(id, 0, true)]
  }

  /**
   A request that comes between a miss and its load: two calls that missed before it
   both win on the row it leaves, with nothing stored at the start.
   */
  lemma RequestBetweenWins(s: State, id: ApprovalId, c: CallId, d: CallId)
    requires c != d && Idle(s, c) && Idle(s, d) && Untouched(s, id) && id !in s.mem && !Lapsed(s, id)
    ensures var run := Missing(id, c, d) + (Renewal(id) + LatePair(c, d));
            Wins(Exec(s, run).log, id) == [true, false] && Requests(run, id) == 1
  {
    var t := Exec(s, Missing(id, c, d));
    BothMiss(s, id, c, d);
    var u := Step(Step(t, Request(id, "", true)), Extend(id, 0, true));
    ExecTwo(t, Request(id, "", true), Extend(id, 0, true));
    assert u.log == s.log && u.misses == t.misses && u.loads == s.loads && u.writes == s.writes && u.now == s.now;
    assert id in u.store && u.store[id].state == Pending && u.now <= u.store[id].expiresAt;
    ExecConcat(s, Missing(id, c, d), Renewal(id) + LatePair(c, d));
    ExecConcat(t, Renewal(id), LatePair(c, d));
    LatePairWins(u, id, c, d);
    NoAnswersNoWins(s.log, id);
    NoRequestInPair(id, c, d);
    RequestsOfFew(Renewal(id), id);
    RequestsConcat(Renewal(id), LatePair(c, d), id);
    RequestsConcat(Missing(id, c, d), Renewal(id) + LatePair(c, d), id);
  }

  /** A request of an id that is not in memory can be overtaken by earlier misses, unless its row has lapsed. */
  predicate Overtakable(s: State, id: ApprovalId) {
    id !in s.mem && !Lapsed(s, id)
  }

  /**
   Exactly when the one-shot promise can be broken, in runs that request the id at most
   n times: if and only if the approval is stored, pending and unexpired but not in
   memory; or the undecided record in memory and the requests are two or more together,
   since a request of a known id overwrites its record with a new pending one; or a
   request may come between the miss and the load of calls to Decide, that is, the id is
   not in memory and has no row that is past its expiry.
   */
  lemma DoubleDecisionIff(s: State, id: ApprovalId, c: CallId, d: CallId, n: nat)
    requires c != d && Idle(s, c) && Idle(s, d) && Untouched(s, id)
    ensures (exists run :: Requests(run, id) <= n && |Wins(Exec(s, run).log, id)| > 1)
            <==> StoredLive(s, id) || Undecided(s, id) + n >= 2 || (n >= 1 && Overtakable(s, id))
  {
    NoAnswersNoWins(s.log, id);
    if StoredLive(s, id) {
      TwoLoadersWin(s, id, c, d);
    } else if Undecided(s, id) + n >= 2 {
      SpendWins(s, id, c, n);
    } else if n >= 1 && Overtakable(s, id) {
      RequestBetweenWins(s, id, c, d);
    } else {
      forall run | Requests(run, id) <= n ensures |Wins(Exec(s, run).log, id)| <= 1 {
        WinsBound(s, run, id);
      }
    }
  }

  /** Requested and decided twice: the terminal record is gone and the second decision wins as well. */
  lemma RequestedAgain(s: State, id: ApprovalId, c: CallId)
    requires Idle(s, c) && Untouched(s, id)
    ensures |Wins(Exec(s, Rounds(id, c, 2)).log, id)| == 2
  {
    NoAnswersNoWins(s.log, id);
    RoundsWin(s, id, c, 2);
  }

  // ----------------------------------------------------------- memory and store

  predicate SameRecord(a: Approval, b: Approval) {
    a.state == b.state && a.decidedAt == b.decidedAt && a.reason == b.reason
  }

  /** The one decision write of id that is in flight. */
  ghost predicate OnlyWrite(writes: map<CallId, StoreWrite>, id: ApprovalId, value: Approval, c: CallId) {
    && c in writes && writes[c] == StoreWrite(id, value)
    && forall d :: d in writes && writes[d].id == id ==> d == c
  }

  /** Agreement, or a stored record that still waits for exactly one decision write. */
  ghost predicate Agrees(s: State, id: ApprovalId) {
    && id in s.mem && id in s.store
    && (|| (SameRecord(s.store[id], s.mem[id]) && forall c :: c in s.writes ==> s.writes[c].id != id)
        || (s.store[id].state == Pending && s.mem[id].state != Pending
            && exists c :: OnlyWrite(s.writes, id, s.mem[id], c)))
  }

  predicate StoreWorks(act: Action) {
    match act
    case WriteDecision(_, ok) => ok
    case Cancel(_, ok) => ok
    case Extend(_, _, ok) => ok
    case Request(_, _, ok) => ok
    case CheckExpiry(failed) => failed == {}
    case _ => true
  }

  lemma AgreesSettle(s: State, call: CallId, load: Load, resident: bool, id: ApprovalId)
    requires Resident(s, id) && Agrees(s, id) && call !in s.writes
    requires load.id == id ==> resident && load.copy == s.mem[id]
    ensures Agrees(Settle(s, call, load, resident), id)
  {
    var t := Settle(s, call, load, resident);
    if s.store[id].state == Pending && s.mem[id].state != Pending {
      var c :| OnlyWrite(s.writes, id, s.mem[id], c);
      assert OnlyWrite(t.writes, id, t.mem[id], c);
    } else if load.id == id && s.mem[id].state == Pending {
      assert OnlyWrite(t.writes, id, t.mem[id], call);
    }
  }

  lemma AgreesLocked(s: State, act: Action, id: ApprovalId)
    requires act.Cancel? || act.Extend? || act.CheckExpiry? || act.Tick? || act.Request?
    requires Agrees(s, id) && StoreWorks(act) && !Asks(act, id)
    ensures Agrees(Step(s, act), id)
  {
    var t := Step(s, act);
    assert t.writes == s.writes;
    if s.store[id].state == Pending && s.mem[id].state != Pending {
      var c :| OnlyWrite(s.writes, id, s.mem[id], c);
      assert t.mem[id] == s.mem[id] && t.store[id].state == Pending;
      assert OnlyWrite(t.writes, id, t.mem[id], c);
    }
  }

  lemma AgreesLoad(s: State, act: Action, id: ApprovalId)
    requires act.LoadMissed? && Resident(s, id) && Agrees(s, id)
    ensures Resident(Step(s, act), id) && Agrees(Step(s, act), id)
  {
    var t := Step(s, act);
    assert t.mem == s.mem && t.store == s.store && t.writes == s.writes;
  }

  lemma AgreesWrite(s: State, call: CallId, id: ApprovalId)
    requires Agrees(s, id)
    ensures Agrees(Step(s, WriteDecision(call, true)), id)
  {
    var t := Step(s, WriteDecision(call, true));
    if s.store[id].state == Pending && s.mem[id].state != Pending {
      var c :| OnlyWrite(s.writes, id, s.mem[id], c);
      if c != call {
        assert OnlyWrite(t.writes, id, t.mem[id], c);
      }
    }
  }

  lemma AgreesStep(s: State, act: Action, id: ApprovalId)
    requires Resident(s, id) && Agrees(s, id) && StoreWorks(act) && !Asks(act, id)
    ensures Resident(Step(s, act), id) && Agrees(Step(s, act), id)
  {
    if !Deciding(act) {
      QuietStep(s, act, id);
    }
    match act {
      case WriteDecision(call, _) => AgreesWrite(s, call, id);
      case ResumeLoaded(call) =>
        if call in s.loads && call !in s.writes {
          AgreesSettle(s.(loads := s.loads - {call}), call, s.loads[call], false, id);
        }
      case Decide(call, other, approved, reason) =>
        if Idle(s, call) && other in s.mem {
          AgreesSettle(s, call, Load(other, approved, reason, s.mem[other]), true, id);
        }
      case LoadMissed(_) => AgreesLoad(s, act, id);
      case _ => AgreesLocked(s, act, id);
    }
  }

  /** Absent store errors and repeated requests, whenever no decision write is in flight the store says what memory says. */
  lemma {:induction false} MemoryAndStoreAgree(s: State, run: seq<Action>, id: ApprovalId)
    requires Resident(s, id) && Agrees(s, id)
    requires Requests(run, id) == 0 && forall act :: act in run ==> StoreWorks(act)
    ensures Agrees(Exec(s, run), id)
    ensures (forall c :: c in Exec(s, run).writes ==> Exec(s, run).writes[c].id != id)
            ==> SameRecord(Exec(s, run).store[id], Exec(s, run).mem[id])
    decreases |run|
  {
    if run != [] {
      AgreesStep(s, run[0], id);
      MemoryAndStoreAgree(Step(s, run[0]), run[1..], id);
    }
  }

  /** A repeated request breaks the agreement unless the store still has the id as it was first requested. */
  lemma RequestAgainAgreesIff(s: State, id: ApprovalId, session: string)
    requires Agrees(s, id)
    ensures Agrees(Step(s, Request(id, session, true)), id)
            <==> s.store[id].state == Pending && s.store[id].decidedAt == None && s.store[id].reason == None
                 && forall c :: c in s.writes ==> s.writes[c].id != id
  {
    var t := Step(s, Request(id, session, true));
    assert t.store == s.store && t.writes == s.writes && t.mem[id].state == Pending;
  }

  // ------------------------------------------------------------------- the class

  class Bridge {
    var approvals: map<ApprovalId, Approval>
    var store: map<ApprovalId, Approval>
    var decisions: seq<Answer>

    constructor ()
      ensures approvals == map[] && store == map[] && decisions == []
    {
      approvals, store, decisions := map[], map[], [];
    }

    /** Puts the approval in memory, then creates its row; the INSERT fails on a stored id. */
    method RequestApproval(id: ApprovalId, session: string, now: int, storeOk: bool) returns (created: bool)
      modifies this
      ensures var a := Approval(session, Pending, now + 300_000_000_000, None, None);
              && approvals == old(approvals)[id := a]
              && created == (storeOk && id !in old(store))
              && store == (if storeOk then StoreCreate(old(store), id, a) else old(store))
      ensures approvals[id] == Approval(session, Pending, now + 300_000_000_000, None, None)
      ensures created ==> store == old(store)[id := approvals[id]]
      ensures !created ==> store == old(store)
      ensures decisions == old(decisions)
    {
      var a := Approval(session, Pending, now + DEFAULT_EXPIRY, None, None);
      approvals := approvals[id := a];
      created := storeOk && id !in store;
      if created {
        store := store[id := a];
      }
    }

    /** One call of Decide that nothing interleaves with; failed says that it returns an error. */
    method DecideApproval(call: CallId, id: ApprovalId, approved: bool, reason: string, now: int, storeOk: bool)
      returns (outcome: Outcome, failed: bool)
      modifies this
      ensures id !in old(approvals) && id !in old(store) ==>
                outcome == NotFound && failed && approvals == old(approvals) && store == old(store) && decisions == old(decisions)
      ensures id in old(approvals) || id in old(store) ==>
                var (a, o) := DecideOn(if id in old(approvals) then old(approvals)[id] else old(store)[id], approved, reason, now);
                && outcome == o
                && (failed <==> o == TooLate || (o.Won? && !storeOk))
                && approvals == (if o.Won? || (o.TooLate? && id in old(approvals)) then old(approvals)[id := a] else old(approvals))
                && store == (if !o.AlreadyFinal? && storeOk then StoreUpdate(old(store), id, a) else old(store))
                && decisions == (if o.Won? && storeOk then old(decisions) + [Answer(call, id, o, now)] else old(decisions))
      ensures id in old(approvals) || id in old(store) ==>
                var a := if id in old(approvals) then old(approvals)[id] else old(store)[id];
                if a.state != Pending then
                  outcome == AlreadyFinal(a.state) && approvals == old(approvals) && store == old(store)
                else if now > a.expiresAt then
                  outcome == TooLate
                  && (id in old(approvals) ==> approvals[id] == a.(state := Expired, decidedAt := Some(now)))
                  && (id in old(store) && storeOk ==> store[id].state == Expired && store[id].decidedAt == Some(now))
                else
                  outcome == Won(approved)
                  && id in approvals
                  && approvals[id] == a.(state := if approved then Approved else Denied, decidedAt := Some(now), reason := Some(reason))
                  && (id in old(store) && storeOk ==>
                        store[id] == old(store)[id].(state := approvals[id].state, decidedAt := Some(now), reason := Some(reason)))
      ensures forall other :: other != id ==>
                (other in approvals <==> other in old(approvals)) && (other in store <==> other in old(store))
                && (other in old(approvals) ==> approvals[other] == old(approvals)[other])
                && (other in old(store) ==> store[other] == old(store)[other])
    {
      var approval: Approval;
      var resident := id in approvals;
      if resident {
        approval := approvals[id];
      } else {
        if id !in store {
          return NotFound, true;
        }
        approval := store[id];
      }
      if approval.state != Pending {
        return AlreadyFinal(approval.state), false;
      }
      if now > approval.expiresAt {
        approval := Finish(approval, Expired, now);
        if resident {
          approvals := approvals[id := approval];
        }
        if storeOk {
          store := StoreUpdate(store, id, approval);
        }
        return TooLate, true;
      }
      approval := approval.(state := if approved then Approved else Denied, decidedAt := Some(now), reason := Some(reason));
      approvals := approvals[id := approval];
      if storeOk {
        store := StoreUpdate(store, id, approval);
        decisions := decisions + [Answer(call, id, Won(approved), now)];
      }
      return Won(approved), !storeOk;
    }

    method CancelApproval(id: ApprovalId, now: int, storeOk: bool) returns (cancelled: bool)
      modifies this
      ensures cancelled == (id in old(approvals) && old(approvals)[id].state == Pending && storeOk)
      ensures id in old(approvals) && old(approvals)[id].state == Pending ==>
                var a := CancelOn(old(approvals)[id], now);
                approvals == old(approvals)[id := a] && store == (if storeOk then StoreUpdate(old(store), id, a) else old(store))
      ensures id in old(approvals) && old(approvals)[id].state == Pending ==>
                approvals[id] == old(approvals)[id].(state := Cancelled, decidedAt := Some(now))
                && (storeOk && id in old(store) ==> store[id].state == Cancelled && store[id].decidedAt == Some(now))
      ensures !(id in old(approvals) && old(approvals)[id].state == Pending) ==>
                approvals == old(approvals) && store == old(store)
      ensures decisions == old(decisions)
    {
      if id !in approvals {
        return false;
      }
      var approval := approvals[id];
      if approval.state != Pending {
        return false;
      }
      approval := approval.(state := Cancelled, decidedAt := Some(now));
      approvals := approvals[id := approval];
      if storeOk {
        store := StoreUpdate(store, id, approval);
      }
      return storeOk;
    }

    /** The expiry moves in memory whether or not the store can be written; no column of the store does. */
    method ExtendExpiry(id: ApprovalId, d: int, storeOk: bool) returns (extended: bool)
      modifies this
      ensures extended == (id in old(approvals) && old(approvals)[id].state == Pending && storeOk)
      ensures id in old(approvals) && old(approvals)[id].state == Pending ==>
                approvals == old(approvals)[id := ExtendOn(old(approvals)[id], d)]
                && store == if storeOk then StoreUpdate(old(store), id, old(approvals)[id]) else old(store)
      ensures id in old(approvals) && old(approvals)[id].state == Pending ==>
                approvals[id] == old(approvals)[id].(expiresAt := old(approvals)[id].expiresAt + d)
                && (id in old(store) ==> store[id].expiresAt == old(store)[id].expiresAt)
      ensures !(id in old(approvals) && old(approvals)[id].state == Pending) ==> approvals == old(approvals) && store == old(store)
      ensures decisions == old(decisions)
    {
      if id !in approvals || approvals[id].state != Pending {
        return false;
      }
      var approval := approvals[id];
      approval := approval.(expiresAt := approval.expiresAt + d);
      approvals := approvals[id := approval];
      if storeOk {
        store := StoreUpdate(store, id, approval);
      }
      return storeOk;
    }

    /** The sweep over every approval in memory; unwritable says whose store write fails, which nobody is told. */
    method SweepExpired(now: int, unwritable: set<ApprovalId>)
      modifies this
      ensures approvals == ExpireAll(old(approvals), now)
      ensures approvals.Keys == old(approvals).Keys && store.Keys == old(store).Keys
      ensures forall id :: id in approvals ==>
                approvals[id] == if old(approvals)[id].state == Pending && now > old(approvals)[id].expiresAt
                                 then old(approvals)[id].(state := Expired, decidedAt := Some(now)) else old(approvals)[id]
      ensures forall id :: id in store ==>
                store[id] == if id in old(approvals) && old(approvals)[id].state == Pending && now > old(approvals)[id].expiresAt && id !in unwritable
                             then old(store)[id].(state := Expired, decidedAt := Some(now), reason := old(approvals)[id].reason) else old(store)[id]
      ensures forall id :: id in store ==>
                store[id] == if id in old(approvals) && ExpireOn(old(approvals)[id], now) != old(approvals)[id] && id !in unwritable
                             then StoreUpdate(old(store), id, approvals[id])[id] else old(store)[id]
      ensures decisions == old(decisions)
    {
      var left := approvals.Keys;
      while left != {}
        invariant left <= approvals.Keys && approvals.Keys == old(approvals).Keys && store.Keys == old(store).Keys
        invariant decisions == old(decisions)
        invariant forall id :: id in approvals ==>
                    approvals[id] == if id in left then old(approvals)[id] else ExpireOn(old(approvals)[id], now)
        invariant forall id :: id in store ==>
                    store[id] == if id in old(approvals) && id !in left && id !in unwritable
                                    && ExpireOn(old(approvals)[id], now) != old(approvals)[id]
                                 then StoreUpdate(old(store), id, ExpireOn(old(approvals)[id], now))[id] else old(store)[id]
      {
        var id :| id in left;
        var a := approvals[id];
        if a.state == Pending && now > a.expiresAt {
          a := a.(state := Expired, decidedAt := Some(now));
          approvals := approvals[id := a];
          if id !in unwritable {
            store := StoreUpdate(store, id, a);
          }
        }
        left := left - {id};
      }
    }

    /** The pending approvals of a session, in some order, each once. */
    method PendingOf(session: string) returns (ids: seq<ApprovalId>)
      ensures forall id :: id in ids <==> id in approvals && approvals[id].session == session && approvals[id].state == Pending
      ensures forall i, j :: 0 <= i < j < |ids| ==> ids[i] != ids[j]
    {
      ids := [];
      var left := approvals.Keys;
      while left != {}
        invariant left <= approvals.Keys
        invariant forall id :: id in ids <==>
                    id in approvals && id !in left && approvals[id].session == session && approvals[id].state == Pending
        invariant forall i, j :: 0 <= i < j < |ids| ==> ids[i] != ids[j]
      {
        var id :| id in left;
        if approvals[id].session == session && approvals[id].state == Pending {
          ids := ids + [id];
        }
        left := left - {id};
      }
    }
  }
}
