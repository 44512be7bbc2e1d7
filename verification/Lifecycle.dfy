/**
 Startup reconciliation and graceful shutdown. Both write session states without
 regard to the transition table; Start and Shutdown do not overlap.
 */
module Lifecycle {
  import opened Outcomes
  import opened SessionMachine

  datatype Phase = PhaseStarting | PhaseRunning | PhaseDraining | PhaseStopped

  /** What an adapter reports about a session; run states share the session names. */
  datatype Report = Reported(state: SessionState) | PendingRun | Unknown(name: string)

  datatype Recovery = RecoverError | Recovered(report: Report, canRecover: bool)

  /** The adapter's answer for each session it is asked about, or none when no reconciler is configured. */
  type Reconciler = Option<map<SessionKey, Recovery>>

  predicate Nonterminal(s: SessionState) {
    match s
    case Created => true
    case Starting => true
    case Active => true
    case WaitingApproval => true
    case Recovering => true
    case _ => false
  }

  /** None stands for an error, which also ends in failed. */
  function Resolve(reconciler: Reconciler, id: SessionKey): Option<SessionState> {
    match reconciler
    case None => Some(Failed)
    case Some(answers) =>
      match (if id in answers then answers[id] else RecoverError)
      case RecoverError => None
      case Recovered(report, canRecover) =>
        if !canRecover then Some(Failed)
        else match report
          case Reported(Active) => Some(Active)
          case Reported(Completed) => Some(Completed)
          case Reported(Failed) => Some(Failed)
          case Reported(Resumable) => Some(Resumable)
          case Reported(Starting) => Some(Starting)
          case PendingRun => Some(Starting)
          case Reported(Interrupted) => Some(Interrupted)
          case _ => Some(Failed)
  }

  /** The reconciler fails on this session. */
  predicate Errs(reconciler: Reconciler, id: SessionKey, s: SessionState) {
    Nonterminal(s) && Resolve(reconciler, id) == None
  }

  function AfterStartup(reconciler: Reconciler, id: SessionKey, s: SessionState): SessionState {
    if !Nonterminal(s) then s
    else match Resolve(reconciler, id)
      case None => Failed
      case Some(resolved) => resolved
  }

  /**
   What is written for an unfinished session, and whether it counts as failed: nothing
   but a state the adapter can recover and reports by name is taken over.
   */
  predicate Answered(reconciler: Reconciler, id: SessionKey, to: SessionState, bad: nat) {
    if reconciler.None? then to == Failed && bad == 0
    else if id !in reconciler.value || reconciler.value[id] == RecoverError then to == Failed && bad == 1
    else
      var Recovered(report, canRecover) := reconciler.value[id];
      && bad == 0
      && (if canRecover && report in {Reported(Active), Reported(Completed), Reported(Resumable), Reported(Starting), Reported(Interrupted)}
          then report == Reported(to)
          else to == if canRecover && report == PendingRun then Starting else Failed)
  }

  lemma AnswerIsWritten(reconciler: Reconciler, id: SessionKey)
    ensures forall s :: s in {Created, Starting, Active, WaitingApproval, Recovering} ==>
              Answered(reconciler, id, AfterStartup(reconciler, id, s), if Errs(reconciler, id, s) then 1 else 0)
    ensures forall s :: Nonterminal(s) <==> s in {Created, Starting, Active, WaitingApproval, Recovering}
  {
  }

  function StartupRows(reconciler: Reconciler, rows: map<SessionKey, SessionState>): map<SessionKey, SessionState> {
    map id | id in rows :: AfterStartup(reconciler, id, rows[id])
  }

  function Unfinished(rows: map<SessionKey, SessionState>): (ids: set<SessionKey>)
    ensures ids <= rows.Keys
  {
    set id | id in rows && Nonterminal(rows[id])
  }

  function Broken(reconciler: Reconciler, rows: map<SessionKey, SessionState>): (ids: set<SessionKey>)
    ensures ids <= rows.Keys
  {
    set id | id in rows && Errs(reconciler, id, rows[id])
  }

  function AfterShutdown(s: SessionState, timedOut: bool): SessionState {
    if timedOut || Nonterminal(s) then Recovering else s
  }

  /** Some run of the session does not finish within the drain timeout. */
  predicate TimedOut(runs: map<string, SessionKey>, drained: set<string>, id: SessionKey) {
    exists r :: r in runs && r !in drained && runs[r] == id
  }

  function ShutdownRows(rows: map<SessionKey, SessionState>, runs: map<string, SessionKey>, drained: set<string>): map<SessionKey, SessionState> {
    map id | id in rows :: AfterShutdown(rows[id], TimedOut(runs, drained, id))
  }

  /** Startup settles what was settled already, and never leaves a session created, waiting or recovering. */
  lemma StartupResolves(reconciler: Reconciler, id: SessionKey, s: SessionState)
    ensures var t := AfterStartup(reconciler, id, s);
            && t != Created && t != WaitingApproval && t != Recovering
            && (!Nonterminal(s) ==> t == s)
            && (Nonterminal(t) ==> reconciler.Some?)
  {
  }

  /**
   A shutdown and a restart without a reconciler, for any table and any runs: every
   session is settled. Those that were unfinished, or had a run that did not drain,
   have failed; all others are as they were. The restart counts exactly the former.
   */
  lemma RestartSettles(rows: map<SessionKey, SessionState>, runs: map<string, SessionKey>, drained: set<string>)
    ensures var stopped := ShutdownRows(rows, runs, drained); var settled := StartupRows(None, stopped);
            && settled.Keys == rows.Keys && Unfinished(settled) == {}
            && (forall id :: id in rows ==>
                  settled[id] == if TimedOut(runs, drained, id) || Nonterminal(rows[id]) then Failed else rows[id])
            && Broken(None, stopped) == {}
            && (forall id :: id in rows ==> (id in Unfinished(stopped) <==> TimedOut(runs, drained, id) || Nonterminal(rows[id])))
  {
  }

  ghost predicate Visited(reconciler: Reconciler, before: map<SessionKey, SessionState>, left: set<SessionKey>, rows: map<SessionKey, SessionState>) {
    && rows.Keys == before.Keys
    && (forall id :: id in before ==> rows[id] == if id in left then before[id] else AfterStartup(reconciler, id, before[id]))
  }

  /** Where the startup loop stands when the sessions of left are still to be visited. */
  ghost predicate Progress(reconciler: Reconciler, before: map<SessionKey, SessionState>, left: set<SessionKey>,
                           rows: map<SessionKey, SessionState>, reconciled: nat, failed: nat)
  {
    && Visited(reconciler, before, left, rows)
    && failed == |Broken(reconciler, before) - left|
    && reconciled + failed == |Unfinished(before) - left|
  }

  lemma NothingDone(reconciler: Reconciler, before: map<SessionKey, SessionState>)
    ensures Progress(reconciler, before, before.Keys, before, 0, 0)
  {
    assert Broken(reconciler, before) - before.Keys == {} && Unfinished(before) - before.Keys == {};
  }

  lemma OneFewer(all: set<SessionKey>, left: set<SessionKey>, id: SessionKey)
    requires id in left
    ensures |all - (left - {id})| == |all - left| + (if id in all then 1 else 0)
  {
    assert all - (left - {id}) == (all - left) + (if id in all then {id} else {});
  }

  lemma OneMoreDone(reconciler: Reconciler, before: map<SessionKey, SessionState>, left: set<SessionKey>,
                    rows: map<SessionKey, SessionState>, reconciled: nat, failed: nat, id: SessionKey)
    requires Progress(reconciler, before, left, rows, reconciled, failed) && id in left && id in before
    ensures var bad := if Errs(reconciler, id, before[id]) then 1 else 0;
            var visited := if Nonterminal(before[id]) then 1 else 0;
            Progress(reconciler, before, left - {id}, rows[id := AfterStartup(reconciler, id, before[id])],
                     reconciled + visited - bad, failed + bad)
  {
    OneMoreVisited(reconciler, before, left, rows, id);
    OneFewer(Broken(reconciler, before), left, id);
    OneFewer(Unfinished(before), left, id);
    assert id in Broken(reconciler, before) <==> Errs(reconciler, id, before[id]);
    assert id in Unfinished(before) <==> Nonterminal(before[id]);
  }

  lemma OneMoreVisited(reconciler: Reconciler, before: map<SessionKey, SessionState>, left: set<SessionKey>,
                       rows: map<SessionKey, SessionState>, id: SessionKey)
    requires Visited(reconciler, before, left, rows) && id in before
    ensures Visited(reconciler, before, left - {id}, rows[id := AfterStartup(reconciler, id, before[id])])
  {
  }

  lemma AllDone(reconciler: Reconciler, before: map<SessionKey, SessionState>,
                rows: map<SessionKey, SessionState>, reconciled: nat, failed: nat)
    requires Progress(reconciler, before, {}, rows, reconciled, failed)
    ensures rows == StartupRows(reconciler, before)
    ensures reconciled + failed == |Unfinished(before)| && failed == |Broken(reconciler, before)|
  {
    assert Unfinished(before) - {} == Unfinished(before) && Broken(reconciler, before) - {} == Broken(reconciler, before);
  }

  class Manager {
    const table: SessionTable
    var phase: Phase
    var activeRuns: map<string, SessionKey>

    constructor (table: SessionTable)
      ensures this.table == table && phase == PhaseStarting && activeRuns == map[]
    {
      this.table := table;
      phase := PhaseStarting;
      activeRuns := map[];
    }

    method Start(reconciler: Reconciler) returns (ok: bool, reconciled: nat, failed: nat)
      modifies this, table
      ensures ok <==> old(phase) == PhaseStarting
      ensures !ok ==> phase == old(phase) && table.rows == old(table.rows) && reconciled == failed == 0
      ensures ok ==> phase == PhaseRunning
      ensures ok ==> table.rows == StartupRows(reconciler, old(table.rows))
      ensures ok ==> reconciled + failed == |Unfinished(old(table.rows))|
      ensures ok ==> failed == |Broken(reconciler, old(table.rows))|
      ensures activeRuns == old(activeRuns)
    {
      if phase != PhaseStarting {
        return false, 0, 0;
      }
      reconciled, failed := ReconcileOnStartup(reconciler);
      phase := PhaseRunning;
      ok := true;
    }

    method ReconcileOnStartup(reconciler: Reconciler) returns (reconciled: nat, failed: nat)
      modifies table
      ensures table.rows == StartupRows(reconciler, old(table.rows))
      ensures reconciled + failed == |Unfinished(old(table.rows))|
      ensures failed == |Broken(reconciler, old(table.rows))|
    {
      var sessions := table.rows;
      var left := sessions.Keys;
      reconciled, failed := 0, 0;
      NothingDone(reconciler, sessions);
      while left != {}
        invariant left <= sessions.Keys
        invariant Progress(reconciler, sessions, left, table.rows, reconciled, failed)
      {
        var id :| id in left;
        OneMoreDone(reconciler, sessions, left, table.rows, reconciled, failed, id);
        var good, bad := ReconcileOne(reconciler, id, sessions[id]);
        reconciled, failed := reconciled + good, failed + bad;
        left := left - {id};
      }
      AllDone(reconciler, sessions, table.rows, reconciled, failed);
    }

    /** Leaves a settled session alone; marks any other recovering, asks for its state and writes the answer. */
    method ReconcileOne(reconciler: Reconciler, id: SessionKey, state: SessionState) returns (good: nat, bad: nat)
      requires id in table.rows && table.rows[id] == state
      modifies table
      ensures table.rows == old(table.rows)[id := AfterStartup(reconciler, id, state)]
      ensures bad == (if Errs(reconciler, id, state) then 1 else 0)
      ensures good + bad == (if Nonterminal(state) then 1 else 0)
      ensures state in {Interrupted, Completed, Failed, Resumable} ==> table.rows == old(table.rows) && good + bad == 0
      ensures state in {Created, Starting, Active, WaitingApproval, Recovering} ==> Answered(reconciler, id, table.rows[id], bad)
    {
      AnswerIsWritten(reconciler, id);
      if !Nonterminal(state) {
        return 0, 0;
      }
      var marked := table.UpdateState(id, Recovering, None);
      match Resolve(reconciler, id) {
        case None =>
          var done := table.UpdateState(id, Failed, None);
          return 0, 1;
        case Some(to) =>
          var done := table.UpdateState(id, to, Some(Recovering));
          return 1, 0;
      }
    }

    method RegisterRun(session: SessionKey, run: string) returns (ok: bool)
      modifies this
      ensures ok <==> old(phase) == PhaseRunning
      ensures phase == old(phase)
      ensures activeRuns == if ok then old(activeRuns)[run := session] else old(activeRuns)
    {
      if phase != PhaseRunning {
        return false;
      }
      activeRuns := activeRuns[run := session];
      return true;
    }

    method CompleteRun(run: string)
      modifies this
      ensures phase == old(phase) && activeRuns == old(activeRuns) - {run}
    {
      activeRuns := activeRuns - {run};
    }

    /** drained says which runs finish within the drain timeout. */
    method Shutdown(drained: set<string>) returns (initiated: bool)
      modifies this, table
      ensures initiated <==> old(phase) == PhaseStarting || old(phase) == PhaseRunning
      ensures !initiated ==> phase == old(phase) && table.rows == old(table.rows)
      ensures initiated ==> phase == PhaseStopped
      ensures initiated ==> table.rows == ShutdownRows(old(table.rows), activeRuns, drained)
      ensures initiated ==> forall id :: id in table.rows ==>
                table.rows[id] == if old(table.rows)[id] in {Created, Starting, Active, WaitingApproval, Recovering}
                                     || (exists r :: r in activeRuns && r !in drained && activeRuns[r] == id)
                                  then Recovering else old(table.rows)[id]
      ensures activeRuns == old(activeRuns)
    {
      if phase == PhaseStopped || phase == PhaseDraining {
        return false;
      }
      phase := PhaseDraining;
      var left := activeRuns.Keys;
      while left != {}
        invariant left <= activeRuns.Keys && activeRuns == old(activeRuns) && phase == PhaseDraining
        invariant table.rows == map id | id in old(table.rows) ::
                    if exists r :: r in activeRuns && r !in left && r !in drained && activeRuns[r] == id
                    then Recovering else old(table.rows)[id]
      {
        var run :| run in left;
        if run !in drained {
          var marked := table.UpdateState(activeRuns[run], Recovering, None);
        }
        left := left - {run};
      }
      MarkUnresolved();
      phase := PhaseStopped;
      return true;
    }

    method MarkUnresolved()
      modifies table
      ensures table.rows == map id | id in old(table.rows) :: AfterShutdown(old(table.rows)[id], false)
      ensures forall id :: id in old(table.rows) ==>
                table.rows[id] == if old(table.rows)[id] in {Created, Starting, Active, WaitingApproval, Recovering}
                                  then Recovering else old(table.rows)[id]
    {
      var sessions := table.rows;
      var left := sessions.Keys;
      while left != {}
        invariant left <= sessions.Keys && table.rows.Keys == sessions.Keys
        invariant forall id :: id in sessions ==>
                    table.rows[id] == if id in left then sessions[id] else AfterShutdown(sessions[id], false)
      {
        var id :| id in left;
        if Nonterminal(sessions[id]) {
          var marked := table.UpdateState(id, Recovering, None);
        }
        left := left - {id};
      }
    }
  }
}
