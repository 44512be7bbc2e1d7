/**
 The session state machine: the table of allowed transitions, the compare-and-set
 row update, and the application service whose concurrent calls act on copies of the
 session that may be arbitrarily stale.
 */
module SessionMachine {
  import opened Outcomes

  type SessionKey = string
  type CallId = nat

  datatype SessionState =
    | Created | Starting | Active | WaitingApproval | Interrupted | Completed | Failed | Resumable | Recovering

  function ValidTransitions(from: SessionState): seq<SessionState> {
    match from
    case Created => [Starting, Failed]
    case Starting => [Active, Failed]
    case Active => [WaitingApproval, Interrupted, Completed, Failed]
    case WaitingApproval => [Active, Interrupted, Failed]
    case Interrupted => [Resumable, Failed]
    case Completed => [Resumable]
    case Failed => []
    case Resumable => [Starting]
    case Recovering => [Active, Completed, Failed]
  }

  predicate Edge(from: SessionState, to: SessionState) {
    to in ValidTransitions(from)
  }

  /** The edges, by target. */
  lemma EdgesByTarget(from: SessionState)
    ensures !Edge(from, Created) && !Edge(from, Recovering)
    ensures Edge(from, Starting) <==> from in {Created, Resumable}
    ensures Edge(from, Active) <==> from in {Starting, WaitingApproval, Recovering}
    ensures Edge(from, WaitingApproval) <==> from == Active
    ensures Edge(from, Interrupted) <==> from in {Active, WaitingApproval}
    ensures Edge(from, Completed) <==> from in {Active, Recovering}
    ensures Edge(from, Resumable) <==> from in {Interrupted, Completed}
    ensures Edge(from, Failed) <==> from !in {Completed, Failed, Resumable}
  {
  }

  method CanTransition(from: SessionState, to: SessionState) returns (ok: bool)
    ensures ok <==> Edge(from, to)
    ensures ok <==> match to
                    case Starting => from in {Created, Resumable}
                    case Active => from in {Starting, WaitingApproval, Recovering}
                    case WaitingApproval => from == Active
                    case Interrupted => from in {Active, WaitingApproval}
                    case Completed => from in {Active, Recovering}
                    case Resumable => from in {Interrupted, Completed}
                    case Failed => from !in {Completed, Failed, Resumable}
                    case _ => false
  {
    EdgesByTarget(from);
    var targets := ValidTransitions(from);
    for i := 0 to |targets|
      invariant to !in targets[..i]
    {
      if targets[i] == to {
        return true;
      }
      assert targets[..i + 1] == targets[..i] + [targets[i]];
    }
    assert targets[..|targets|] == targets;
    return false;
  }

  // ------------------------------------------------------------------ the table

  /** UPDATE ... WHERE id = ? [AND state = expected]. */
  function Updated(rows: map<SessionKey, SessionState>, id: SessionKey, to: SessionState, expected: Option<SessionState>): map<SessionKey, SessionState> {
    if id in rows && (expected == None || expected == Some(rows[id])) then rows[id := to] else rows
  }

  class SessionTable {
    var rows: map<SessionKey, SessionState>

    constructor (rows: map<SessionKey, SessionState>)
      ensures this.rows == rows
    {
      this.rows := rows;
    }

    method UpdateState(id: SessionKey, to: SessionState, expected: Option<SessionState>) returns (changed: bool)
      modifies this
      ensures rows == Updated(old(rows), id, to, expected)
      ensures rows == if changed then old(rows)[id := to] else old(rows)
      ensures changed <==> id in old(rows) && (expected == None || expected == Some(old(rows)[id]))
    {
      if id !in rows {
        return false;
      }
      if expected.Some? && rows[id] != expected.value {
        return false;
      }
      rows := rows[id := to];
      return true;
    }
  }

  // ------------------------------------------------------- the application service

  /** A service call in progress and the copy of the session state it acts on. */
  datatype Proc =
    | StartRead(local: SessionState)
    | Launching(local: SessionState)
    | InterruptRead(local: SessionState)
    | Observing(local: SessionState)

  datatype State = State(actual: SessionState, procs: map<CallId, Proc>, trace: seq<SessionState>)

  datatype Action =
    | BeginStart(c: CallId)
    | StartCas(c: CallId)
    | LaunchFails(c: CallId)
    | LaunchOk(c: CallId)
    | BeginInterrupt(c: CallId)
    | InterruptCas(c: CallId)
    | ApprovalRequested(c: CallId)
    | Refresh(c: CallId)
    | RunCompleted(c: CallId, exitCode: int)
    | Drop(c: CallId)

  function Cas(s: State, expected: SessionState, to: SessionState): State {
    if s.actual == expected then s.(actual := to, trace := s.trace + [to]) else s
  }

  function CompletionState(exitCode: int): SessionState {
    if exitCode != 0 then Failed else Completed
  }

  /** The observer keeps the copy StartRun read before its own compare-and-set. */
  function Step(s: State, a: Action): State {
    match a
    case BeginStart(c) => if c in s.procs then s else s.(procs := s.procs[c := StartRead(s.actual)])
    case BeginInterrupt(c) => if c in s.procs then s else s.(procs := s.procs[c := InterruptRead(s.actual)])
    case StartCas(c) =>
      if c !in s.procs || !s.procs[c].StartRead? then s
      else if !Edge(s.procs[c].local, Starting) then s.(procs := s.procs - {c})
      else Cas(s.(procs := s.procs[c := Launching(s.procs[c].local)]), s.procs[c].local, Starting)
    case LaunchFails(c) =>
      if c !in s.procs || !s.procs[c].Launching? then s
      else Cas(s.(procs := s.procs - {c}), Starting, Failed)
    case LaunchOk(c) =>
      if c !in s.procs || !s.procs[c].Launching? then s
      else Cas(s.(procs := s.procs[c := Observing(s.procs[c].local)]), Starting, Active)
    case InterruptCas(c) =>
      if c !in s.procs || !s.procs[c].InterruptRead? then s
      else
        var local := s.procs[c].local;
        var t := s.(procs := s.procs - {c});
        if local == Active || local == WaitingApproval then Cas(t, local, Interrupted) else t
    case ApprovalRequested(c) =>
      if c !in s.procs || !s.procs[c].Observing? || !Edge(s.procs[c].local, WaitingApproval) then s
      else Cas(s, s.procs[c].local, WaitingApproval)
    case Refresh(c) =>
      if c !in s.procs || !s.procs[c].Observing? then s else s.(procs := s.procs[c := Observing(s.actual)])
    case RunCompleted(c, exitCode) =>
      if c !in s.procs || !s.procs[c].Observing? || !Edge(s.procs[c].local, CompletionState(exitCode)) then s
      else Cas(s, s.procs[c].local, CompletionState(exitCode))
    case Drop(c) => s.(procs := s.procs - {c})
  }

  function Exec(s: State, run: seq<Action>): State
    decreases |run|
  {
    if run == [] then s else Exec(Step(s, run[0]), run[1..])
  }

  /** How far a session has come; no service call ever goes back. */
  function Rank(s: SessionState): nat {
    match s
    case Created => 0
    case Resumable => 0
    case Recovering => 0
    case Starting => 1
    case Active => 2
    case WaitingApproval => 3
    case Interrupted => 4
    case Completed => 4
    case Failed => 5
  }

  /** Consecutive states of the trace are edges of the table and climb in rank. */
  ghost predicate Lawful(s: State) {
    && s.trace != [] && s.trace[|s.trace| - 1] == s.actual
    && forall i :: 0 <= i < |s.trace| - 1 ==> Edge(s.trace[i], s.trace[i + 1]) && Rank(s.trace[i]) < Rank(s.trace[i + 1])
  }

  /** The targets the service writes are reached by climbing edges only. */
  lemma ServiceEdgesClimb(from: SessionState)
    ensures Edge(from, Starting) ==> Rank(from) < Rank(Starting)
    ensures Edge(from, WaitingApproval) ==> Rank(from) < Rank(WaitingApproval)
    ensures Edge(from, Completed) ==> Rank(from) < Rank(Completed)
    ensures Edge(from, Failed) ==> Rank(from) < Rank(Failed)
    ensures Edge(Starting, Active) && Edge(Starting, Failed) && Edge(Active, Interrupted) && Edge(WaitingApproval, Interrupted)
  {
  }

  /** Each service step is at most one compare-and-set along a climbing edge. */
  lemma StepIsOneEdge(s: State, a: Action)
    ensures var t := Step(s, a);
            || (t.actual == s.actual && t.trace == s.trace)
            || (t.trace == s.trace + [t.actual] && Edge(s.actual, t.actual) && Rank(s.actual) < Rank(t.actual))
  {
    ServiceEdgesClimb(s.actual);
    match a {
      case StartCas(c) =>
      case LaunchFails(c) =>
      case LaunchOk(c) =>
      case InterruptCas(c) =>
      case ApprovalRequested(c) =>
      case RunCompleted(c, exitCode) =>
      case _ =>
    }
  }

  lemma LawfulStep(s: State, a: Action)
    requires Lawful(s)
    ensures Lawful(Step(s, a)) && s.trace <= Step(s, a).trace
  {
    StepIsOneEdge(s, a);
    var t := Step(s, a);
    assert t.trace == s.trace || t.trace == s.trace + [t.actual];
  }

  lemma {:induction false} LawfulRun(s: State, run: seq<Action>)
    requires Lawful(s)
    ensures Lawful(Exec(s, run)) && s.trace <= Exec(s, run).trace
    decreases |run|
  {
    if run != [] {
      LawfulStep(s, run[0]);
      LawfulRun(Step(s, run[0]), run[1..]);
    }
  }

  lemma {:induction false} Climbs(trace: seq<SessionState>, i: nat, j: nat)
    requires i < j < |trace|
    requires forall k :: 0 <= k < |trace| - 1 ==> Rank(trace[k]) < Rank(trace[k + 1])
    ensures Rank(trace[i]) + (j - i) <= Rank(trace[j])
    decreases j - i
  {
    if i + 1 < j {
      Climbs(trace, i, j - 1);
    }
  }

  /**
   Compare-and-set keeps the state machine. Whatever the interleaving and however stale
   the copies (procs is arbitrary at the start), every change of the stored state is
   an edge of the table; failed and completed are left by no call; no state is entered
   twice.
   */
  lemma CasKeepsTheMachine(actual: SessionState, procs: map<CallId, Proc>, run: seq<Action>)
    ensures var t := Exec(State(actual, procs, [actual]), run);
            && t.trace != [] && t.trace[0] == actual && t.trace[|t.trace| - 1] == t.actual
            && (forall i :: 0 <= i < |t.trace| - 1 ==> Edge(t.trace[i], t.trace[i + 1]))
            && (forall i, j :: 0 <= i < j < |t.trace| ==> t.trace[i] != t.trace[j])
            && (actual == Failed || actual == Completed ==> t.actual == actual)
            && |t.trace| <= 6
  {
    var s := State(actual, procs, [actual]);
    LawfulRun(s, run);
    var t := Exec(s, run);
    forall i, j | 0 <= i < j < |t.trace| ensures t.trace[i] != t.trace[j] {
      Climbs(t.trace, i, j);
    }
    if |t.trace| > 1 {
      Climbs(t.trace, 0, |t.trace| - 1);
      assert Edge(t.trace[0], t.trace[1]);
    }
  }

  /** A session that has once waited for an approval can no longer complete: no call leads it back to active. */
  lemma WaitingNeverCompletes(actual: SessionState, procs: map<CallId, Proc>, run: seq<Action>, i: nat)
    requires var t := Exec(State(actual, procs, [actual]), run); i < |t.trace| && t.trace[i] == WaitingApproval
    ensures var t := Exec(State(actual, procs, [actual]), run);
            t.actual == WaitingApproval || t.actual == Interrupted || t.actual == Failed
  {
    var s := State(actual, procs, [actual]);
    LawfulRun(s, run);
    var t := Exec(s, run);
    var last := |t.trace| - 1;
    if i < last {
      assert Edge(t.trace[i], t.trace[i + 1]) && Rank(t.trace[i]) < Rank(t.trace[i + 1]);
      if i + 1 < last {
        Climbs(t.trace, i + 1, last);
      }
    }
  }

  // ----------------------------------------------------------------- who completes

  /** The observers and the calls that are launching still hold the copy from before the start. */
  ghost predicate StaleObservers(s: State) {
    forall c :: c in s.procs && (s.procs[c].Launching? || s.procs[c].Observing?) ==> Edge(s.procs[c].local, Starting)
  }

  lemma StaleStep(s: State, a: Action)
    requires StaleObservers(s) && s.actual != Completed && !a.Refresh?
    ensures StaleObservers(Step(s, a)) && Step(s, a).actual != Completed
  {
    match a {
      case StartCas(c) =>
      case LaunchFails(c) =>
      case LaunchOk(c) =>
      case InterruptCas(c) =>
      case ApprovalRequested(c) =>
      case RunCompleted(c, exitCode) =>
      case _ =>
    }
  }

  /**
   Only an approval request makes an observer reload the session. Without one no session
   ever completes, whoever runs it and however it exits: the copy from before the start
   has no edge to completed.
   */
  lemma {:induction false} UnrefreshedNeverCompletes(s: State, run: seq<Action>)
    requires StaleObservers(s) && s.actual != Completed && forall a :: a in run ==> !a.Refresh?
    ensures Exec(s, run).actual != Completed
    decreases |run|
  {
    if run != [] {
      StaleStep(s, run[0]);
      UnrefreshedNeverCompletes(Step(s, run[0]), run[1..]);
    }
  }

  /** An observer handles k approval requests: a compare-and-set from its copy, then the reload. */
  function Asks(c: CallId, k: nat): seq<Action> {
    if k == 0 then [] else [ApprovalRequested(c), Refresh(c)] + Asks(c, k - 1)
  }

  /** One StartRun call that nothing interleaves with: k approval requests, then the agent exits. */
  function LoneRun(c: CallId, k: nat, exitCode: int): seq<Action> {
    [BeginStart(c), StartCas(c), LaunchOk(c)] + (Asks(c, k) + [RunCompleted(c, exitCode)])
  }

  /** Where a lone run leaves its session. */
  function LoneEnd(k: nat, exitCode: int): SessionState {
    if k == 0 then Active
    else if exitCode != 0 then Failed
    else if k == 1 then Completed
    else WaitingApproval
  }

  lemma {:induction false} ExecConcat(s: State, a: seq<Action>, b: seq<Action>)
    ensures Exec(s, a + b) == Exec(Exec(s, a), b)
    decreases |a|
  {
    if a == [] {
      assert a + b == b;
    } else {
      assert (a + b)[1..] == a[1..] + b;
      ExecConcat(Step(s, a[0]), a[1..], b);
    }
  }

  lemma ExecTwo(s: State, a: Action, b: Action)
    ensures Exec(s, [a, b]) == Step(Step(s, a), b)
  {
    assert [a, b][1..] == [b] && [b][1..] == [];
    assert Exec(Step(s, a), [b]) == Exec(Step(Step(s, a), b), []);
  }

  /** Whoever has an up-to-date copy of an active or waiting session waits after any request. */
  lemma {:induction false} AsksWait(s: State, c: CallId, k: nat)
    requires c in s.procs && s.procs[c] == Observing(s.actual) && s.actual in {Active, WaitingApproval}
    ensures var t := Exec(s, Asks(c, k));
            && c in t.procs && t.procs[c] == Observing(t.actual)
            && t.actual == if k == 0 then s.actual else WaitingApproval
    decreases k
  {
    if k > 0 {
      var t := Step(Step(s, ApprovalRequested(c)), Refresh(c));
      ExecTwo(s, ApprovalRequested(c), Refresh(c));
      ExecConcat(s, [ApprovalRequested(c), Refresh(c)], Asks(c, k - 1));
      AsksWait(t, c, k - 1);
    }
  }

  /** The first request finds the copy too old to act on, and brings it up to date. */
  lemma FirstAsk(s: State, c: CallId, k: nat)
    requires c in s.procs && s.procs[c].Observing? && Edge(s.procs[c].local, Starting) && s.actual == Active
    ensures var t := Exec(s, Asks(c, k));
            && c in t.procs && t.procs[c] == (if k == 0 then s.procs[c] else Observing(t.actual))
            && t.actual == if k <= 1 then Active else WaitingApproval
  {
    if k > 0 {
      var t := Step(Step(s, ApprovalRequested(c)), Refresh(c));
      ExecTwo(s, ApprovalRequested(c), Refresh(c));
      ExecConcat(s, [ApprovalRequested(c), Refresh(c)], Asks(c, k - 1));
      AsksWait(t, c, k - 1);
    }
  }

  lemma LoneStart(start: SessionState, c: CallId)
    requires Edge(start, Starting)
    ensures var t := Exec(State(start, map[], [start]), [BeginStart(c), StartCas(c), LaunchOk(c)]);
            t.actual == Active && t.procs == map[c := Observing(start)]
  {
    var s := State(start, map[], [start]);
    var t := Step(Step(s, BeginStart(c)), StartCas(c));
    assert [BeginStart(c), StartCas(c), LaunchOk(c)] == [BeginStart(c), StartCas(c)] + [LaunchOk(c)];
    ExecTwo(s, BeginStart(c), StartCas(c));
    ExecConcat(s, [BeginStart(c), StartCas(c)], [LaunchOk(c)]);
    assert [LaunchOk(c)][1..] == [] && Exec(t, [LaunchOk(c)]) == Exec(Step(t, LaunchOk(c)), []);
    assert t.procs == map[c := Launching(start)] && t.actual == Starting;
  }

  /**
   How a run that nothing interferes with ends, for every startable state, number of
   approval requests and exit code: a clean exit completes the session if and only if
   there was exactly one request, and a failing exit fails it if and only if there was
   at least one. Without any, the session stays active; after several, a clean exit
   leaves it waiting.
   */
  lemma LoneRunIff(start: SessionState, c: CallId, k: nat, exitCode: int)
    requires Edge(start, Starting)
    ensures var t := Exec(State(start, map[], [start]), LoneRun(c, k, exitCode));
            && t.actual == LoneEnd(k, exitCode)
            && (exitCode == 0 ==> (t.actual == Completed <==> k == 1))
            && (exitCode != 0 ==> (t.actual == Failed <==> k >= 1))
  {
    var s := State(start, map[], [start]);
    var begin, done := [BeginStart(c), StartCas(c), LaunchOk(c)], [RunCompleted(c, exitCode)];
    var s1 := Exec(s, begin);
    var s2 := Exec(s1, Asks(c, k));
    LoneStart(start, c);
    FirstAsk(s1, c, k);
    ExecConcat(s, begin, Asks(c, k) + done);
    ExecConcat(s1, Asks(c, k), done);
    assert done[1..] == [] && Exec(s2, done) == Exec(Step(s2, RunCompleted(c, exitCode)), []);
  }

  // --------------------------------------------------------- a call with nothing in between

  /** An interrupt that nothing interleaves with interrupts an active or waiting session and no other. */
  lemma InterruptAtOnce(s: State, c: CallId)
    requires c !in s.procs
    ensures var t := Exec(s, [BeginInterrupt(c), InterruptCas(c)]);
            && t.procs == s.procs
            && (if s.actual in {Active, WaitingApproval} then t.actual == Interrupted && t.trace == s.trace + [Interrupted]
                else t.actual == s.actual && t.trace == s.trace)
  {
    ExecTwo(s, BeginInterrupt(c), InterruptCas(c));
    assert s.procs[c := InterruptRead(s.actual)] - {c} == s.procs;
  }

  /** A start that nothing interleaves with: refused, failed for want of an agent, or active under an observer with the old copy. */
  lemma StartAtOnce(s: State, c: CallId, launched: bool)
    requires c !in s.procs
    ensures var t := Exec(s, [BeginStart(c), StartCas(c), if launched then LaunchOk(c) else LaunchFails(c)]);
            if s.actual !in {Created, Resumable} then t == s
            else
              && t.actual == (if launched then Active else Failed) && t.trace == s.trace + [Starting, t.actual]
              && t.procs == if launched then s.procs[c := Observing(s.actual)] else s.procs
  {
    var last := if launched then LaunchOk(c) else LaunchFails(c);
    var t := Step(Step(s, BeginStart(c)), StartCas(c));
    assert [BeginStart(c), StartCas(c), last] == [BeginStart(c), StartCas(c)] + [last];
    ExecTwo(s, BeginStart(c), StartCas(c));
    ExecConcat(s, [BeginStart(c), StartCas(c)], [last]);
    assert [last][1..] == [] && Exec(t, [last]) == Exec(Step(t, last), []);
    EdgesByTarget(s.actual);
    var read := s.procs[c := StartRead(s.actual)];
    assert read - {c} == s.procs;
    if Edge(s.actual, Starting) {
      assert t == State(Starting, read[c := Launching(s.actual)], s.trace + [Starting]);
      assert t.procs - {c} == s.procs && t.procs[c := Observing(s.actual)] == s.procs[c := Observing(s.actual)];
    }
  }

  // ------------------------------------------------------ how often an agent is launched

  /** StartRun ignores whether its compare-and-set took effect: the copy it read decides. */
  lemma LaunchIff(s: State, c: CallId)
    requires c in s.procs && s.procs[c].StartRead?
    ensures var t := Step(s, StartCas(c));
            (c in t.procs && t.procs[c].Launching?) <==> Edge(s.procs[c].local, Starting)
  {
  }

  predicate LaunchedBy(s: State, a: Action) {
    a.StartCas? && a.c in s.procs && s.procs[a.c].StartRead? && a.c in Step(s, a).procs && Step(s, a).procs[a.c].Launching?
  }

  /** The number of agent processes a run launches. */
  function Launches(s: State, run: seq<Action>): nat
    decreases |run|
  {
    if run == [] then 0 else (if LaunchedBy(s, run[0]) then 1 else 0) + Launches(Step(s, run[0]), run[1..])
  }

  function Reads(k: nat, n: nat): seq<Action>
    decreases n - k
  {
    if k >= n then [] else [BeginStart(k)] + Reads(k + 1, n)
  }

  function Attempts(k: nat, n: nat): seq<Action>
    decreases n - k
  {
    if k >= n then [] else [StartCas(k)] + Attempts(k + 1, n)
  }

  /** Calls k .. n-1 hold a copy from which starting is allowed. */
  predicate Readers(s: State, k: nat, n: nat) {
    forall c :: k <= c < n ==> c in s.procs && s.procs[c].StartRead? && Edge(s.procs[c].local, Starting)
  }

  lemma {:induction false} AllRead(s: State, k: nat, n: nat)
    requires Edge(s.actual, Starting) && Readers(s, 0, k) && (forall c :: k <= c < n ==> c !in s.procs) && k <= n
    ensures Readers(Exec(s, Reads(k, n)), 0, n) && Launches(s, Reads(k, n)) == 0
    decreases n - k
  {
    if k < n {
      var t := Step(s, BeginStart(k));
      AllRead(t, k + 1, n);
      assert Reads(k, n)[1..] == Reads(k + 1, n);
    }
  }

  lemma {:induction false} AllLaunch(s: State, k: nat, n: nat)
    requires Readers(s, k, n) && k <= n
    ensures Launches(s, Attempts(k, n)) == n - k
    decreases n - k
  {
    if k < n {
      var t := Step(s, StartCas(k));
      LaunchIff(s, k);
      assert Readers(t, k + 1, n) by {
        forall c | k + 1 <= c < n ensures c in t.procs && t.procs[c] == s.procs[c] {
        }
      }
      AllLaunch(t, k + 1, n);
      assert Attempts(k, n)[1..] == Attempts(k + 1, n);
    }
  }

  lemma {:induction false} LaunchesConcat(s: State, a: seq<Action>, b: seq<Action>)
    ensures Launches(s, a + b) == Launches(s, a) + Launches(Exec(s, a), b)
    decreases |a|
  {
    if a == [] {
      assert a + b == b;
    } else {
      assert (a + b)[1..] == a[1..] + b;
      LaunchesConcat(Step(s, a[0]), a[1..], b);
    }
  }

  /** Nobody holds a copy from which starting is allowed, and there is none to be read. */
  ghost predicate Unstartable(s: State) {
    !Edge(s.actual, Starting) && forall c :: c in s.procs && s.procs[c].StartRead? ==> !Edge(s.procs[c].local, Starting)
  }

  lemma UnstartableStep(s: State, a: Action)
    requires Unstartable(s)
    ensures Unstartable(Step(s, a)) && !LaunchedBy(s, a)
  {
    match a {
      case StartCas(c) =>
      case LaunchFails(c) =>
      case LaunchOk(c) =>
      case InterruptCas(c) =>
      case ApprovalRequested(c) =>
      case RunCompleted(c, exitCode) =>
      case _ =>
    }
  }

  lemma {:induction false} UnstartableRun(s: State, run: seq<Action>)
    requires Unstartable(s)
    ensures Launches(s, run) == 0
    decreases |run|
  {
    if run != [] {
      UnstartableStep(s, run[0]);
      UnstartableRun(Step(s, run[0]), run[1..]);
    }
  }

  /**
   A session launches as many agents as there are calls that read it in time, or none:
   for any n > 0 some run from a quiet session launches n of them if and only if its
   state has an edge to starting. With n = 2, two calls read before either writes.
   */
  lemma LaunchesIff(actual: SessionState, n: nat)
    requires n > 0
    ensures (exists run :: Launches(State(actual, map[], [actual]), run) >= n) <==> Edge(actual, Starting)
  {
    var s := State(actual, map[], [actual]);
    if Edge(actual, Starting) {
      AllRead(s, 0, n);
      AllLaunch(Exec(s, Reads(0, n)), 0, n);
      LaunchesConcat(s, Reads(0, n), Attempts(0, n));
      assert Launches(s, Reads(0, n) + Attempts(0, n)) >= n;
    } else {
      forall run ensures Launches(s, run) == 0 {
        UnstartableRun(s, run);
      }
    }
  }

  /** The shortest case: two calls, two agents, one change of state. */
  lemma TwoLaunches()
    ensures var s := State(Created, map[], [Created]);
            var t := Exec(s, [BeginStart(0), BeginStart(1), StartCas(0), StartCas(1)]);
            0 in t.procs && t.procs[0].Launching? && 1 in t.procs && t.procs[1].Launching? && t.trace == [Created, Starting]
  {
    var s := State(Created, map[], [Created]);
    var first, second := [BeginStart(0), BeginStart(1)], [StartCas(0), StartCas(1)];
    assert [BeginStart(0), BeginStart(1), StartCas(0), StartCas(1)] == first + second;
    ExecConcat(s, first, second);
    ExecTwo(s, BeginStart(0), BeginStart(1));
    ExecTwo(Exec(s, first), StartCas(0), StartCas(1));
  }
}
