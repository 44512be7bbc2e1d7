/**
 A tool permission from end to end, for one run: the helper asks, the adapter parks
 the request and signals it, the observer turns it into an approval, operators
 resolve it, the decision travels back, and every exit that is not a delivered
 approval answers deny. All parties interleave freely. Tool-use ids are distinct.
 */
module PermissionFlow {
  import opened Outcomes
  import B = ApprovalBridge

  type ToolUseId = B.ApprovalId
  type CallId = nat

  datatype Decision = Decision(allow: bool, message: string)

  const RUN_NOT_FOUND := Decision(false, "CAR: run not found (fail-closed)")
  const RUN_ENDED := Decision(false, "CAR: run ended (fail-closed)")
  const TIMED_OUT := Decision(false, "CAR: approval timed out (fail-closed)")
  const FAIL_CLOSED := Decision(false, "CAR: approval unavailable (fail-closed)")

  /** One handlePermission call: run looked up, waiting on its channel, returning, returned. */
  datatype Handler = Looked | Waiting(reply: Option<Decision>) | Leaving(dec: Decision) | Done(dec: Decision)

  /** A ResolveApproval call whose Decide won; announced once its emitEvent has returned, with or without an error. */
  datatype Resolution = Resolution(id: ToolUseId, approved: bool, reason: string, announced: bool)

  datatype Word = Approve | Deny | CancelledWord

  /** What the outside can observe, in order. */
  datatype Note =
    | Moved(id: ToolUseId, approved: bool)       // the bridge decided the approval
    | Announced(id: ToolUseId, word: Word)       // approval.resolved event, persisted and published
    | Lost(id: ToolUseId, word: Word)            // the append of that event failed, unnoticed
    | Notified(id: ToolUseId, approved: bool)    // DecideApproval called on the adapter
    | Delivered(id: ToolUseId, approved: bool)   // the decision reached the parked request
    | Answered(id: ToolUseId, allow: bool)       // what the agent was told

  datatype State = State(
    now: int,
    listed: bool,                                // the run is in the adapter's table
    bridge: map<ToolUseId, B.Approval>,
    calls: map<CallId, Resolution>,
    cancels: seq<ToolUseId>,                     // cancelled on completion, event not emitted yet
    parked: set<ToolUseId>,
    handlers: map<ToolUseId, Handler>,
    signals: set<ToolUseId>,
    answers: map<ToolUseId, bool>,
    history: seq<Note>)

  datatype Action =
    | Tick(d: nat)
    | Ask(id: ToolUseId)
    | Park(id: ToolUseId, dropped: bool)
    | Observe(id: ToolUseId)
    | Resolve(call: CallId, id: ToolUseId, approved: bool, reason: string)
    | StoreFailed(call: CallId)
    | Announce(call: CallId, ok: bool)
    | Notify(call: CallId, found: bool)
    | CancelPending(id: ToolUseId, stored: bool)
    | AnnounceCancel(ok: bool)
    | Sweep
    | Extend(id: ToolUseId, delta: int)
    | RemoveRun
    | Cleanup
    | Receive(id: ToolUseId)
    | GiveUp(id: ToolUseId, ended: bool)
    | Leave(id: ToolUseId)
    | Panic(id: ToolUseId)
    | Reply(id: ToolUseId, ok: bool)
    | HelperFails(id: ToolUseId)

  /** emitEvent: the event is out, or its append failed and nobody is told. */
  function Emitted(id: ToolUseId, word: Word, ok: bool): Note {
    if ok then Announced(id, word) else Lost(id, word)
  }

  function WordFor(approved: bool): Word {
    if approved then Approve else Deny
  }

  // ------------------------------------------------------ the parked requests

  /** A non-blocking send on the one-slot channel of a parked request. */
  function Offer(h: Handler, d: Decision): Handler {
    if h == Waiting(None) then Waiting(Some(d)) else h
  }

  function OfferTo(handlers: map<ToolUseId, Handler>, id: ToolUseId, d: Decision): map<ToolUseId, Handler> {
    if id in handlers then handlers[id := Offer(handlers[id], d)] else handlers
  }

  function OfferAll(handlers: map<ToolUseId, Handler>, ids: set<ToolUseId>, d: Decision): map<ToolUseId, Handler> {
    map id | id in handlers :: if id in ids then Offer(handlers[id], d) else handlers[id]
  }

  predicate Busy(s: State, id: ToolUseId) {
    id in s.handlers && !s.handlers[id].Done?
  }

  function Note1(s: State, n: Note): State {
    s.(history := s.history + [n])
  }

  function Answer(s: State, id: ToolUseId, allow: bool): State {
    Note1(s.(answers := s.answers[id := allow]), Answered(id, allow))
  }

  /** DecideApproval for a listed run: hand the decision to the parked request, if there is one. */
  function Deliver(s: State, id: ToolUseId, d: Decision): State {
    if !s.listed || id !in s.parked || id !in s.handlers then s
    else
      var t := s.(parked := s.parked - {id}, handlers := OfferTo(s.handlers, id, d));
      if s.handlers[id] == Waiting(None) then Note1(t, Delivered(id, d.allow)) else t
  }

  predicate HandlerAction(a: Action) {
    a.Tick? || a.Ask? || a.Park? || a.RemoveRun? || a.Cleanup? || a.Receive? || a.GiveUp? || a.Leave? || a.Panic?
  }

  /** The parking side: handlePermission, its exits, and the end of the run. */
  function ParkStep(s: State, a: Action): State
    requires HandlerAction(a)
  {
    match a
    case Tick(d) => s.(now := s.now + d)
    case Ask(id) =>
      if id in s.handlers then s
      else s.(handlers := s.handlers[id := if s.listed then Looked else Done(RUN_NOT_FOUND)])
    case Park(id, dropped) =>
      if id !in s.handlers || s.handlers[id] != Looked then s
      else s.(handlers := s.handlers[id := Waiting(None)], parked := s.parked + {id},
              signals := if dropped then s.signals else s.signals + {id})
    case RemoveRun => s.(listed := false)
    case Cleanup =>
      if s.listed then s
      else s.(handlers := OfferAll(s.handlers, s.parked, RUN_ENDED), parked := {})
    case Receive(id) =>
      if id in s.handlers && s.handlers[id].Waiting? && s.handlers[id].reply.Some?
      then s.(handlers := s.handlers[id := Leaving(s.handlers[id].reply.value)]) else s
    case GiveUp(id, ended) =>
      if id in s.handlers && s.handlers[id].Waiting?
      then s.(handlers := s.handlers[id := Leaving(if ended then RUN_ENDED else TIMED_OUT)]) else s
    case Leave(id) =>
      if id in s.handlers && s.handlers[id].Leaving?
      then s.(handlers := s.handlers[id := Done(s.handlers[id].dec)], parked := s.parked - {id}) else s
    case Panic(id) =>
      if Busy(s, id) then s.(handlers := s.handlers[id := Done(FAIL_CLOSED)], parked := s.parked - {id}) else s
  }

  /** The approval side: requests, decisions, announcements, and the answers to the agent. */
  function DecisionStep(s: State, a: Action): State
    requires !HandlerAction(a)
  {
    match a
    case Observe(id) =>
      if id !in s.signals || id in s.bridge then s
      else s.(signals := s.signals - {id},
              bridge := s.bridge[id := B.Approval("", B.Pending, s.now + B.DEFAULT_EXPIRY, None, None)])
    case Resolve(call, id, approved, reason) =>
      if call in s.calls || id !in s.bridge then s
      else
        var (rec, outcome) := B.DecideOn(s.bridge[id], approved, reason, s.now);
        if outcome.Won? then Win(s, call, Resolution(id, approved, reason, false), rec) else s.(bridge := s.bridge[id := rec])
    case StoreFailed(call) =>
      if call in s.calls && !s.calls[call].announced then s.(calls := s.calls - {call}) else s
    case Announce(call, ok) =>
      if call !in s.calls || s.calls[call].announced then s
      else
        var r := s.calls[call];
        Note1(s.(calls := s.calls[call := r.(announced := true)]), Emitted(r.id, WordFor(r.approved), ok))
    case Notify(call, found) =>
      if call !in s.calls || !s.calls[call].announced then s
      else
        var r := s.calls[call];
        var t := s.(calls := s.calls - {call});
        if !found then t
        else Deliver(Note1(t, Notified(r.id, r.approved)), r.id, Decision(r.approved, r.reason))
    case CancelPending(id, stored) =>
      if id !in s.bridge || s.bridge[id].state != B.Pending then s
      else s.(bridge := s.bridge[id := B.CancelOn(s.bridge[id], s.now)], cancels := if stored then s.cancels + [id] else s.cancels)
    case AnnounceCancel(ok) =>
      if s.cancels == [] then s
      else Note1(s.(cancels := s.cancels[1..]), Emitted(s.cancels[0], CancelledWord, ok))
    case Sweep => s.(bridge := B.ExpireAll(s.bridge, s.now))
    case Extend(id, delta) =>
      if id in s.bridge then s.(bridge := s.bridge[id := B.ExtendOn(s.bridge[id], delta)]) else s
    case Reply(id, ok) =>
      if id !in s.handlers || !s.handlers[id].Done? || id in s.answers then s
      else Answer(s, id, ok && s.handlers[id].dec.allow)
    case HelperFails(id) =>
      if id in s.answers then s else Answer(s, id, false)
  }

  /** The bridge records a winning decision. */
  function Win(s: State, call: CallId, r: Resolution, rec: B.Approval): State {
    Note1(s.(bridge := s.bridge[r.id := rec], calls := s.calls[call := r]), Moved(r.id, r.approved))
  }

  function Step(s: State, a: Action): State {
    if HandlerAction(a) then ParkStep(s, a) else DecisionStep(s, a)
  }

  function Exec(s: State, run: seq<Action>): State
    decreases |run|
  {
    if run == [] then s else Exec(Step(s, run[0]), run[1..])
  }

  /** The run has just started; nothing has been asked. */
  function Start(now: int): State {
    State(now, true, map[], map[], [], {}, map[], {}, map[], [])
  }

  // ------------------------------------------------------- what history may say

  /** Two notes with the same slot never both occur. */
  datatype Slot = Slot(kind: int, id: ToolUseId)

  function SlotOf(n: Note): Slot {
    match n
    case Moved(id, _) => Slot(0, id)
    case Announced(id, _) => Slot(1, id)
    case Lost(id, _) => Slot(1, id)
    case Notified(id, _) => Slot(2, id)
    case Delivered(id, _) => Slot(3, id)
    case Answered(id, _) => Slot(4, id)
  }

  /** Notes that only come after another. */
  predicate Dependent(n: Note) {
    match n
    case Moved(_, _) => false
    case Announced(_, word) => word != CancelledWord
    case Lost(_, word) => word != CancelledWord
    case Notified(_, _) => true
    case Delivered(_, _) => true
    case Answered(_, allow) => allow
  }

  /** m is what must come before n. The adapter is notified after the event, appended or lost. */
  predicate Backs(m: Note, n: Note) {
    match n
    case Moved(_, _) => false
    case Announced(id, word) => m == Moved(id, word == Approve)
    case Lost(id, word) => m == Moved(id, word == Approve)
    case Notified(id, approved) => m == Announced(id, WordFor(approved)) || m == Lost(id, WordFor(approved))
    case Delivered(id, approved) => m == Notified(id, approved)
    case Answered(id, _) => m == Delivered(id, true)
  }

  ghost predicate Unique(h: seq<Note>) {
    forall i, j :: 0 <= i < j < |h| ==> SlotOf(h[i]) != SlotOf(h[j])
  }

  ghost predicate BackedBefore(h: seq<Note>, n: Note, k: int) {
    exists j :: 0 <= j < k && j < |h| && Backs(h[j], n)
  }

  ghost predicate Causal(h: seq<Note>) {
    forall k :: 0 <= k < |h| && Dependent(h[k]) ==> BackedBefore(h, h[k], k)
  }

  lemma HistoryAppend(h: seq<Note>, n: Note)
    requires Unique(h) && Causal(h)
    requires forall m :: m in h ==> SlotOf(m) != SlotOf(n)
    requires Dependent(n) ==> BackedBefore(h, n, |h|)
    ensures Unique(h + [n]) && Causal(h + [n])
  {
    forall k | 0 <= k < |h + [n]| && Dependent((h + [n])[k])
      ensures BackedBefore(h + [n], (h + [n])[k], k)
    {
      var j := Backer(h, (h + [n])[k], k);
      assert (h + [n])[j] == h[j];
    }
  }

  ghost function Backer(h: seq<Note>, n: Note, k: nat): (j: nat)
    requires BackedBefore(h, n, k)
    ensures j < k && j < |h| && Backs(h[j], n)
  {
    var j :| 0 <= j < k && j < |h| && Backs(h[j], n);
    j
  }

  lemma BackedIn(h: seq<Note>, m: Note, n: Note)
    requires m in h && Backs(m, n)
    ensures BackedBefore(h, n, |h|)
  {
    var j :| 0 <= j < |h| && h[j] == m;
  }

  /** A dependent note of a causal history has its backer in the history. */
  lemma BackerOf(h: seq<Note>, n: Note) returns (m: Note)
    requires Causal(h) && n in h && Dependent(n)
    ensures m in h && Backs(m, n)
  {
    var k :| 0 <= k < |h| && h[k] == n;
    m := h[Backer(h, n, k)];
  }

  /** The adapter, the request and the agent only ever hear of approvals that the bridge moved. */
  lemma HeardIsMoved(h: seq<Note>, n: Note)
    requires Causal(h) && n in h && (n.Notified? || n.Delivered?)
    ensures Moved(n.id, n.approved) in h
  {
    var m := BackerOf(h, n);
    if n.Delivered? {
      m := BackerOf(h, m);
    }
    var o := BackerOf(h, m);
  }

  // ------------------------------------------------------------------ invariant

  function FinalFor(word: Word): B.ApprovalState {
    match word
    case Approve => B.Approved
    case Deny => B.Denied
    case CancelledWord => B.Cancelled
  }

  ghost predicate NoteOk(s: State, n: Note) {
    match n
    case Moved(id, approved) => id in s.bridge && s.bridge[id].state == B.Verdict(approved)
    case Announced(id, word) =>
      && id in s.bridge && s.bridge[id].state == FinalFor(word) && id !in s.cancels
      && forall c :: c in s.calls && s.calls[c].id == id ==> s.calls[c].announced
    case Lost(id, word) =>
      && id in s.bridge && s.bridge[id].state == FinalFor(word) && id !in s.cancels
      && forall c :: c in s.calls && s.calls[c].id == id ==> s.calls[c].announced
    case Notified(id, approved) => forall c :: c in s.calls ==> s.calls[c].id != id
    case Delivered(id, _) => id in s.handlers
    case Answered(id, allow) => id in s.answers && s.answers[id] == allow
  }

  /** The event has been handed to emitEvent, whatever became of it. */
  predicate Said(h: seq<Note>, id: ToolUseId, word: Word) {
    Announced(id, word) in h || Lost(id, word) in h
  }

  ghost predicate CallOk(s: State, r: Resolution) {
    && Moved(r.id, r.approved) in s.history
    && (r.announced ==> Said(s.history, r.id, WordFor(r.approved)))
  }

  function Carried(h: Handler): Option<Decision> {
    match h
    case Looked => None
    case Waiting(reply) => reply
    case Leaving(dec) => Some(dec)
    case Done(dec) => Some(dec)
  }

  /** An allow on its way out was delivered by a notification. */
  ghost predicate HandlerOk(s: State, id: ToolUseId)
    requires id in s.handlers
  {
    Carried(s.handlers[id]).Some? && Carried(s.handlers[id]).value.allow ==> Delivered(id, true) in s.history
  }

  ghost predicate CallsOk(s: State) {
    && (forall c :: c in s.calls ==> CallOk(s, s.calls[c]))
    && (forall c, d :: c in s.calls && d in s.calls && s.calls[c].id == s.calls[d].id ==> c == d)
  }

  ghost predicate CancelsOk(s: State) {
    && (forall i :: 0 <= i < |s.cancels| ==> s.cancels[i] in s.bridge && s.bridge[s.cancels[i]].state == B.Cancelled)
    && (forall i, j :: 0 <= i < j < |s.cancels| ==> s.cancels[i] != s.cancels[j])
  }

  ghost predicate AnswersOk(s: State) {
    && (forall id :: id in s.answers ==> Answered(id, s.answers[id]) in s.history)
    && (forall id :: id in s.answers && s.answers[id] ==> id in s.handlers && s.handlers[id].Done? && s.handlers[id].dec.allow)
  }

  ghost predicate Facts(s: State) {
    && (forall n :: n in s.history ==> NoteOk(s, n))
    && CallsOk(s) && CancelsOk(s) && AnswersOk(s)
    && (forall id :: id in s.handlers ==> HandlerOk(s, id))
  }

  ghost predicate Inv(s: State) {
    Unique(s.history) && Causal(s.history) && Facts(s)
  }

  // Steps that leave history alone.

  /** What the parking side may do on its own: pass a decision on, or deny. */
  ghost predicate HandlersMove(before: map<ToolUseId, Handler>, after: map<ToolUseId, Handler>) {
    && (forall id :: id in before ==> id in after && (before[id].Done? ==> after[id] == before[id]))
    && (forall id :: id in after && Carried(after[id]).Some? && Carried(after[id]).value.allow ==>
          id in before && Carried(before[id]) == Carried(after[id]))
  }

  lemma HandlerStep(s: State, a: Action)
    requires HandlerAction(a)
    ensures var t := ParkStep(s, a);
            && t.bridge == s.bridge && t.calls == s.calls && t.cancels == s.cancels
            && t.answers == s.answers && t.history == s.history
            && HandlersMove(s.handlers, t.handlers)
  {
    if a.Cleanup? || a.Receive? || a.GiveUp? || a.Leave? || a.Panic? {
      HandlersLeave(s, a);
    }
  }

  /** The exits: what a parked request carries away was given to it, or is a denial. */
  lemma HandlersLeave(s: State, a: Action)
    requires a.Cleanup? || a.Receive? || a.GiveUp? || a.Leave? || a.Panic?
    ensures HandlersMove(s.handlers, ParkStep(s, a).handlers)
  {
    match a {
      case Cleanup =>
      case Receive(_) =>
      case GiveUp(_, _) =>
      case Leave(_) =>
      case Panic(_) =>
    }
  }

  lemma HandlersFrame(s: State, t: State)
    requires Facts(s) && HandlersMove(s.handlers, t.handlers)
    requires t.bridge == s.bridge && t.calls == s.calls && t.cancels == s.cancels
    requires t.answers == s.answers && t.history == s.history
    ensures Facts(t)
  {
    forall n | n in t.history ensures NoteOk(t, n) {
      assert NoteOk(s, n);
    }
    forall c | c in t.calls ensures CallOk(t, t.calls[c]) {
      assert CallOk(s, s.calls[c]);
    }
    forall id | id in t.handlers ensures HandlerOk(t, id) {
      assert id in s.handlers ==> HandlerOk(s, id);
    }
  }

  /** Only records that are still pending ever change. */
  ghost predicate BridgeMoves(before: map<ToolUseId, B.Approval>, after: map<ToolUseId, B.Approval>) {
    forall id :: id in before ==> id in after && (before[id].state != B.Pending ==> after[id].state == before[id].state)
  }

  lemma BridgeFrame(s: State, t: State)
    requires Facts(s) && BridgeMoves(s.bridge, t.bridge)
    requires t.handlers == s.handlers && t.calls == s.calls && t.cancels == s.cancels
    requires t.answers == s.answers && t.history == s.history
    ensures Facts(t)
  {
    forall n | n in t.history ensures NoteOk(t, n) {
      assert NoteOk(s, n);
    }
    forall c | c in t.calls ensures CallOk(t, t.calls[c]) {
      assert CallOk(s, s.calls[c]);
    }
    forall id | id in t.handlers ensures HandlerOk(t, id) {
      assert HandlerOk(s, id);
    }
  }

  /** Dropping a call whose decision will not be passed on. */
  lemma CallsFrame(s: State, call: CallId)
    requires Facts(s)
    ensures Facts(s.(calls := s.calls - {call}))
  {
    var t := s.(calls := s.calls - {call});
    forall n | n in t.history ensures NoteOk(t, n) {
      assert NoteOk(s, n);
    }
    forall c | c in t.calls ensures CallOk(t, t.calls[c]) {
      assert CallOk(s, s.calls[c]);
    }
    forall id | id in t.handlers ensures HandlerOk(t, id) {
      assert HandlerOk(s, id);
    }
  }

  // Steps that speak.

  /** A note that is true of the state and has nothing before it in its slot can be added. */
  lemma Speak(s: State, n: Note)
    requires Inv(s) && NoteOk(s, n)
    requires forall m :: m in s.history ==> SlotOf(m) != SlotOf(n)
    requires Dependent(n) ==> BackedBefore(s.history, n, |s.history|)
    ensures Inv(Note1(s, n))
  {
    HistoryAppend(s.history, n);
    var t := Note1(s, n);
    forall m | m in t.history ensures NoteOk(t, m) {
      assert m == n || NoteOk(s, m);
    }
    forall c | c in t.calls ensures CallOk(t, t.calls[c]) {
      assert CallOk(s, s.calls[c]);
    }
    forall id | id in t.handlers ensures HandlerOk(t, id) {
      assert HandlerOk(s, id);
    }
  }

  /** A call that has won but not announced anything: nobody else has, either. */
  lemma UnannouncedCall(s: State, call: CallId)
    requires Inv(s) && call in s.calls
    ensures var r := s.calls[call];
            && r.id in s.bridge && s.bridge[r.id].state == B.Verdict(r.approved)
            && Moved(r.id, r.approved) in s.history && r.id !in s.cancels
            && (r.announced ==> Said(s.history, r.id, WordFor(r.approved)))
            && (forall n :: n in s.history && (n.Announced? || n.Lost?) && n.id == r.id ==> r.announced)
            && (forall n :: n in s.history && (n.Notified? || n.Delivered?) ==> n.id != r.id)
  {
    var r := s.calls[call];
    assert CallOk(s, r) && NoteOk(s, Moved(r.id, r.approved));
    forall n | n in s.history && (n.Notified? || n.Delivered?) ensures n.id != r.id {
      if n.Delivered? {
        var m := BackerOf(s.history, n);
        assert NoteOk(s, m);
      } else {
        assert NoteOk(s, n);
      }
    }
    forall n | n in s.history && (n.Announced? || n.Lost?) && n.id == r.id ensures r.announced {
      assert NoteOk(s, n);
    }
  }

  /** Nothing has been said about an approval that is still pending. */
  lemma PendingIsSilent(s: State, id: ToolUseId)
    requires Inv(s) && id in s.bridge && s.bridge[id].state == B.Pending
    ensures forall n :: n in s.history && !n.Answered? ==> n.id != id
    ensures forall c :: c in s.calls ==> s.calls[c].id != id
    ensures id !in s.cancels
  {
    forall n | n in s.history && !n.Answered? ensures n.id != id {
      assert NoteOk(s, n);
      if n.Notified? || n.Delivered? {
        HeardIsMoved(s.history, n);
        assert NoteOk(s, Moved(n.id, n.approved));
      }
    }
    forall c | c in s.calls ensures s.calls[c].id != id {
      UnannouncedCall(s, c);
    }
  }

  lemma CancelInv(s: State, id: ToolUseId, stored: bool)
    requires Inv(s) && id in s.bridge && s.bridge[id].state == B.Pending
    ensures Inv(DecisionStep(s, CancelPending(id, stored)))
  {
    PendingIsSilent(s, id);
    var u := s.(bridge := s.bridge[id := B.CancelOn(s.bridge[id], s.now)]);
    BridgeFrame(s, u);
    var t := u.(cancels := if stored then u.cancels + [id] else u.cancels);
    forall n | n in t.history ensures NoteOk(t, n) {
      assert NoteOk(u, n);
    }
    forall c | c in t.calls ensures CallOk(t, t.calls[c]) {
      assert CallOk(u, u.calls[c]);
    }
    forall k | k in t.handlers ensures HandlerOk(t, k) {
      assert HandlerOk(u, k);
    }
  }

  /** A call may join when nothing contradicts what it claims. */
  lemma CallJoins(s: State, call: CallId, r: Resolution)
    requires Inv(s) && call !in s.calls && CallOk(s, r)
    requires forall c :: c in s.calls ==> s.calls[c].id != r.id
    requires forall n :: n in s.history && n.Notified? ==> n.id != r.id
    requires forall n :: n in s.history && (n.Announced? || n.Lost?) && n.id == r.id ==> r.announced
    ensures Inv(s.(calls := s.calls[call := r]))
  {
    var t := s.(calls := s.calls[call := r]);
    forall n | n in t.history ensures NoteOk(t, n) {
      assert NoteOk(s, n);
    }
    forall c | c in t.calls ensures CallOk(t, t.calls[c]) {
      assert c != call ==> CallOk(s, s.calls[c]);
    }
    forall k | k in t.handlers ensures HandlerOk(t, k) {
      assert HandlerOk(s, k);
    }
  }

  lemma WinInv(s: State, call: CallId, r: Resolution, rec: B.Approval)
    requires Inv(s) && call !in s.calls && r.id in s.bridge && s.bridge[r.id].state == B.Pending
    requires rec.state == B.Verdict(r.approved) && !r.announced
    ensures Inv(Win(s, call, r, rec))
  {
    PendingIsSilent(s, r.id);
    var u := s.(bridge := s.bridge[r.id := rec]);
    BridgeFrame(s, u);
    Speak(u, Moved(r.id, r.approved));
    var v := Note1(u, Moved(r.id, r.approved));
    CallJoins(v, call, r);
    assert v.(calls := v.calls[call := r]) == Win(s, call, r, rec);
  }

  lemma ResolveInv(s: State, a: Action)
    requires Inv(s) && a.Resolve? && a.call !in s.calls && a.id in s.bridge
    ensures Inv(DecisionStep(s, a))
  {
    var (rec, outcome) := B.DecideOn(s.bridge[a.id], a.approved, a.reason, s.now);
    if outcome.Won? {
      WinInv(s, a.call, Resolution(a.id, a.approved, a.reason, false), rec);
    } else {
      BridgeFrame(s, s.(bridge := s.bridge[a.id := rec]));
    }
  }

  /** An unannounced call that was taken out speaks and comes back as announced. */
  lemma AnnouncedInv(s: State, call: CallId, r: Resolution, ok: bool)
    requires Inv(s) && call !in s.calls
    requires r.id in s.bridge && s.bridge[r.id].state == B.Verdict(r.approved) && r.id !in s.cancels
    requires Moved(r.id, r.approved) in s.history
    requires forall c :: c in s.calls ==> s.calls[c].id != r.id
    requires forall n :: n in s.history && (n.Announced? || n.Lost? || n.Notified?) ==> n.id != r.id
    ensures Inv(Note1(s, Emitted(r.id, WordFor(r.approved), ok)).(calls := s.calls[call := r.(announced := true)]))
  {
    var n := Emitted(r.id, WordFor(r.approved), ok);
    BackedIn(s.history, Moved(r.id, r.approved), n);
    Speak(s, n);
    CallJoins(Note1(s, n), call, r.(announced := true));
  }

  lemma AnnounceInv(s: State, call: CallId, ok: bool)
    requires Inv(s) && call in s.calls && !s.calls[call].announced
    ensures Inv(DecisionStep(s, Announce(call, ok)))
  {
    var r := s.calls[call];
    UnannouncedCall(s, call);
    CallsFrame(s, call);
    AnnouncedInv(s.(calls := s.calls - {call}), call, r, ok);
    assert (s.calls - {call})[call := r.(announced := true)] == s.calls[call := r.(announced := true)];
  }

  lemma AnnounceCancelInv(s: State, ok: bool)
    requires Inv(s) && s.cancels != []
    ensures Inv(DecisionStep(s, AnnounceCancel(ok)))
  {
    var id := s.cancels[0];
    assert id in s.cancels;
    var u := s.(cancels := s.cancels[1..]);
    forall n | n in u.history ensures NoteOk(u, n) {
      assert NoteOk(s, n);
    }
    forall c | c in u.calls ensures CallOk(u, u.calls[c]) {
      assert CallOk(s, s.calls[c]);
    }
    forall k | k in u.handlers ensures HandlerOk(u, k) {
      assert HandlerOk(s, k);
    }
    forall c | c in u.calls ensures u.calls[c].id != id {
      UnannouncedCall(s, c);
    }
    forall m | m in u.history ensures SlotOf(m) != SlotOf(Emitted(id, CancelledWord, ok)) {
      assert NoteOk(s, m);
    }
    Speak(u, Emitted(id, CancelledWord, ok));
  }

  /** Nothing was answered before, and an allow follows its delivery. */
  lemma AnswerHistory(s: State, id: ToolUseId, allow: bool)
    requires Inv(s) && id !in s.answers
    requires allow ==> id in s.handlers && s.handlers[id].Done? && s.handlers[id].dec.allow
    ensures Unique(s.history + [Answered(id, allow)]) && Causal(s.history + [Answered(id, allow)])
  {
    forall m | m in s.history ensures SlotOf(m) != SlotOf(Answered(id, allow)) {
      assert NoteOk(s, m);
    }
    if allow {
      assert HandlerOk(s, id);
      BackedIn(s.history, Delivered(id, true), Answered(id, allow));
    }
    HistoryAppend(s.history, Answered(id, allow));
  }

  lemma AnswerInv(s: State, id: ToolUseId, allow: bool)
    requires Inv(s) && id !in s.answers
    requires allow ==> id in s.handlers && s.handlers[id].Done? && s.handlers[id].dec.allow
    ensures Inv(Answer(s, id, allow))
  {
    var t := Answer(s, id, allow);
    AnswerHistory(s, id, allow);
    forall m | m in t.history ensures NoteOk(t, m) {
      assert m == Answered(id, allow) || NoteOk(s, m);
    }
    forall c | c in t.calls ensures CallOk(t, t.calls[c]) {
      assert CallOk(s, s.calls[c]);
    }
    forall k | k in t.handlers ensures HandlerOk(t, k) {
      assert HandlerOk(s, k);
    }
  }

  /** A decision that history calls delivered is put into the reply slot. */
  lemma HandOver(s: State, id: ToolUseId, d: Decision)
    requires Inv(s) && id in s.handlers && s.handlers[id] == Waiting(None) && Delivered(id, d.allow) in s.history
    ensures Inv(s.(parked := s.parked - {id}, handlers := OfferTo(s.handlers, id, d)))
  {
    var t := s.(parked := s.parked - {id}, handlers := OfferTo(s.handlers, id, d));
    forall m | m in t.history ensures NoteOk(t, m) {
      assert NoteOk(s, m);
    }
    forall c | c in t.calls ensures CallOk(t, t.calls[c]) {
      assert CallOk(s, s.calls[c]);
    }
    forall k | k in t.handlers ensures HandlerOk(t, k) {
      assert HandlerOk(s, k);
    }
  }

  lemma DeliverWaiting(s: State, id: ToolUseId, d: Decision)
    requires Inv(s) && Notified(id, d.allow) in s.history && id in s.handlers && s.handlers[id] == Waiting(None)
    requires forall n :: n in s.history && n.Delivered? ==> n.id != id
    ensures Inv(Note1(s, Delivered(id, d.allow)).(parked := s.parked - {id}, handlers := OfferTo(s.handlers, id, d)))
  {
    BackedIn(s.history, Notified(id, d.allow), Delivered(id, d.allow));
    Speak(s, Delivered(id, d.allow));
    HandOver(Note1(s, Delivered(id, d.allow)), id, d);
  }

  lemma DeliverInv(s: State, id: ToolUseId, d: Decision)
    requires Inv(s) && Notified(id, d.allow) in s.history
    requires forall n :: n in s.history && n.Delivered? ==> n.id != id
    ensures Inv(Deliver(s, id, d))
  {
    if s.listed && id in s.parked && id in s.handlers {
      if s.handlers[id] == Waiting(None) {
        DeliverWaiting(s, id, d);
      } else {
        HandlersFrame(s, Deliver(s, id, d));
      }
    }
  }

  lemma NotifiedInv(s: State, r: Resolution)
    requires Inv(s) && Said(s.history, r.id, WordFor(r.approved))
    requires forall c :: c in s.calls ==> s.calls[c].id != r.id
    requires forall n :: n in s.history && (n.Notified? || n.Delivered?) ==> n.id != r.id
    ensures Inv(Deliver(Note1(s, Notified(r.id, r.approved)), r.id, Decision(r.approved, r.reason)))
  {
    var n, word := Notified(r.id, r.approved), WordFor(r.approved);
    BackedIn(s.history, if Announced(r.id, word) in s.history then Announced(r.id, word) else Lost(r.id, word), n);
    Speak(s, n);
    DeliverInv(Note1(s, Notified(r.id, r.approved)), r.id, Decision(r.approved, r.reason));
  }

  lemma NotifyInv(s: State, call: CallId, found: bool)
    requires Inv(s) && call in s.calls && s.calls[call].announced
    ensures Inv(DecisionStep(s, Notify(call, found)))
  {
    UnannouncedCall(s, call);
    CallsFrame(s, call);
    if found {
      NotifiedInv(s.(calls := s.calls - {call}), s.calls[call]);
    }
  }

  lemma CallInv(s: State, a: Action)
    requires Inv(s) && (a.Resolve? || a.StoreFailed? || a.Announce? || a.Notify?)
    ensures Inv(DecisionStep(s, a))
  {
    match a {
      case Resolve(call, id, _, _) => if call !in s.calls && id in s.bridge { ResolveInv(s, a); }
      case StoreFailed(call) => CallsFrame(s, call);
      case Announce(call, ok) => if call in s.calls && !s.calls[call].announced { AnnounceInv(s, call, ok); }
      case Notify(call, found) => if call in s.calls && s.calls[call].announced { NotifyInv(s, call, found); }
    }
  }

  lemma BridgeInv(s: State, a: Action)
    requires Inv(s) && (a.Observe? || a.Sweep? || a.Extend?)
    ensures Inv(DecisionStep(s, a))
  {
    OnlyBridgeMoves(s, a);
    BridgeFrame(s, DecisionStep(s, a));
  }

  lemma OnlyBridgeMoves(s: State, a: Action)
    requires a.Observe? || a.Sweep? || a.Extend?
    ensures var t := DecisionStep(s, a);
            && BridgeMoves(s.bridge, t.bridge)
            && t.handlers == s.handlers && t.calls == s.calls && t.cancels == s.cancels
            && t.answers == s.answers && t.history == s.history
  {
    match a {
      case Observe(_) =>
      case Sweep =>
      case Extend(_, _) =>
    }
  }

  lemma AgentInv(s: State, a: Action)
    requires Inv(s) && (a.Reply? || a.HelperFails?)
    ensures Inv(DecisionStep(s, a))
  {
    match a {
      case Reply(id, ok) =>
        if id in s.handlers && s.handlers[id].Done? && id !in s.answers {
          AnswerInv(s, id, ok && s.handlers[id].dec.allow);
        }
      case HelperFails(id) => if id !in s.answers { AnswerInv(s, id, false); }
    }
  }

  lemma DecisionInv(s: State, a: Action)
    requires Inv(s) && !HandlerAction(a)
    ensures Inv(DecisionStep(s, a))
  {
    match a {
      case CancelPending(id, stored) => if id in s.bridge && s.bridge[id].state == B.Pending { CancelInv(s, id, stored); }
      case AnnounceCancel(ok) => if s.cancels != [] { AnnounceCancelInv(s, ok); }
      case Reply(_, _) => AgentInv(s, a);
      case HelperFails(_) => AgentInv(s, a);
      case Observe(_) => BridgeInv(s, a);
      case Sweep => BridgeInv(s, a);
      case Extend(_, _) => BridgeInv(s, a);
      case _ => CallInv(s, a);
    }
  }

  lemma InvStep(s: State, a: Action)
    requires Inv(s)
    ensures Inv(Step(s, a))
  {
    if HandlerAction(a) {
      HandlerStep(s, a);
      HandlersFrame(s, ParkStep(s, a));
    } else {
      DecisionInv(s, a);
    }
  }

  lemma {:induction false} InvRun(s: State, run: seq<Action>)
    requires Inv(s)
    ensures Inv(Exec(s, run))
    decreases |run|
  {
    if run != [] {
      InvStep(s, run[0]);
      InvRun(Step(s, run[0]), run[1..]);
    }
  }

  // -------------------------------------------------------------- main results

  /** Position i of history holds n. */
  predicate At(h: seq<Note>, i: int, n: Note) {
    0 <= i < |h| && h[i] == n
  }

  /** The way an allow came about, step by step; the event was on its way between move and notification. */
  ghost predicate Justified(h: seq<Note>, id: ToolUseId, k: int) {
    exists m, a, n, d :: m < a < n < d < k
      && At(h, m, Moved(id, true)) && (At(h, a, Announced(id, Approve)) || At(h, a, Lost(id, Approve)))
      && At(h, n, Notified(id, true)) && At(h, d, Delivered(id, true))
  }

  lemma AllowIsJustified(h: seq<Note>, id: ToolUseId, k: nat)
    requires Causal(h) && At(h, k, Answered(id, true))
    ensures Justified(h, id, k) && Moved(id, true) in h
  {
    var d := Backer(h, Answered(id, true), k);
    var n := Backer(h, Delivered(id, true), d);
    var a := Backer(h, Notified(id, true), n);
    var m := Backer(h, h[a], a);
    assert At(h, m, Moved(id, true)) && At(h, n, Notified(id, true)) && At(h, d, Delivered(id, true));
    assert At(h, a, Announced(id, Approve)) || At(h, a, Lost(id, Approve));
  }

  /**
   Allow implies approved. In every run of the whole path, an allow answer stands in
   history after the delivery of an approving decision to its parked request, which
   stands after the notification and the bridge's own move to approved; and the
   approval is approved. Whether the event was persisted is another matter.
   */
  lemma AllowImpliesApproved(now: int, run: seq<Action>, id: ToolUseId, k: nat)
    requires At(Exec(Start(now), run).history, k, Answered(id, true))
    ensures var s := Exec(Start(now), run);
            Justified(s.history, id, k) && id in s.bridge && s.bridge[id].state == B.Approved
  {
    InvRun(Start(now), run);
    var s := Exec(Start(now), run);
    AllowIsJustified(s.history, id, k);
    assert NoteOk(s, Moved(id, true));
  }

  /**
   The resolved event precedes the allow if and only if its append did not fail:
   ResolveApproval goes on to notify the adapter either way.
   */
  lemma EventPrecedesAllowIff(now: int, run: seq<Action>, id: ToolUseId, k: nat)
    requires At(Exec(Start(now), run).history, k, Answered(id, true))
    ensures var h := Exec(Start(now), run).history;
            Announced(id, Approve) in h[..k] <==> Lost(id, Approve) !in h
  {
    InvRun(Start(now), run);
    EventBeforeAllow(Exec(Start(now), run).history, id, k);
  }

  lemma EventBeforeAllow(h: seq<Note>, id: ToolUseId, k: nat)
    requires Unique(h) && Causal(h) && At(h, k, Answered(id, true))
    ensures Announced(id, Approve) in h[..k] <==> Lost(id, Approve) !in h
  {
    var d := Backer(h, Answered(id, true), k);
    var n := Backer(h, Delivered(id, true), d);
    var a := Backer(h, Notified(id, true), n);
    assert h[..k][a] == h[a];
    forall j | 0 <= j < |h| && SlotOf(h[j]) == Slot(1, id) ensures j == a {
      assert SlotOf(h[a]) == Slot(1, id);
    }
    assert forall j :: 0 <= j < |h| && h[j] == Lost(id, Approve) ==> SlotOf(h[j]) == Slot(1, id);
    assert forall j :: 0 <= j < k && h[..k][j] == Announced(id, Approve) ==> SlotOf(h[j]) == Slot(1, id);
  }

  /**
   Announced at most once. In every run each approval has at most one resolved event
   and the adapter hears of it at most once; the event names the final state; an
   approval that was cancelled or has expired is never sent to the adapter; and a
   parked request gets at most one decision.
   */
  lemma ResolvedOnce(now: int, run: seq<Action>)
    ensures var s := Exec(Start(now), run);
            && Unique(s.history)
            && (forall n :: n in s.history && n.Announced? ==> n.id in s.bridge && s.bridge[n.id].state == FinalFor(n.word))
            && (forall n :: n in s.history && n.Notified? ==> n.id in s.bridge && s.bridge[n.id].state == B.Verdict(n.approved))
  {
    InvRun(Start(now), run);
    var s := Exec(Start(now), run);
    forall n | n in s.history && n.Announced? ensures n.id in s.bridge && s.bridge[n.id].state == FinalFor(n.word) {
      assert NoteOk(s, n);
    }
    forall n | n in s.history && n.Notified? ensures n.id in s.bridge && s.bridge[n.id].state == B.Verdict(n.approved) {
      HeardIsMoved(s.history, n);
      assert NoteOk(s, Moved(n.id, n.approved));
    }
  }

  /** A decision that has reached a parked request is the one it returns, unless it gives up or panics and denies. */
  lemma ReplyIsFinal(s: State, a: Action, id: ToolUseId)
    requires id in s.handlers && Carried(s.handlers[id]).Some?
    ensures var t := Step(s, a);
            && id in t.handlers && Carried(t.handlers[id]).Some?
            && (Carried(t.handlers[id]) == Carried(s.handlers[id]) || !Carried(t.handlers[id]).value.allow)
  {
  }

  lemma Parks(now: int, id: ToolUseId)
    ensures Step(Step(Step(Start(now), Ask(id)), Park(id, false)), Observe(id))
            == State(now, true, map[id := B.Approval("", B.Pending, now + B.DEFAULT_EXPIRY, None, None)], map[], [], {id},
                     map[id := Waiting(None)], {}, map[], [])
  {
    var s1 := Step(Start(now), Ask(id));
    assert s1.handlers == map[id := Looked];
    var s2 := Step(s1, Park(id, false));
    assert s2.handlers == map[id := Waiting(None)] && s2.signals == {id} && s2.parked == {id};
  }

  /** The request is parked and undecided, its approval pending and in time, and nothing is on its way. */
  predicate Open(s: State, id: ToolUseId, call: CallId) {
    && s.listed && id in s.parked && id in s.handlers && s.handlers[id] == Waiting(None) && id !in s.answers && call !in s.calls
    && id in s.bridge && s.bridge[id].state == B.Pending && s.now <= s.bridge[id].expiresAt
  }

  lemma Decides(s: State, id: ToolUseId, call: CallId, approved: bool, reason: string, ok: bool)
    requires Open(s, id, call)
    ensures var t := Step(Step(Step(s, Resolve(call, id, approved, reason)), Announce(call, ok)), Notify(call, true));
            && id in t.handlers && t.handlers[id] == Waiting(Some(Decision(approved, reason))) && t.answers == s.answers
            && t.history == s.history + [Moved(id, approved), Emitted(id, WordFor(approved), ok), Notified(id, approved), Delivered(id, approved)]
            && id in t.bridge && t.bridge[id].state == (if approved then B.Approved else B.Denied)
            && t.bridge[id].decidedAt == Some(s.now)
  {
    var s1 := Step(s, Resolve(call, id, approved, reason));
    assert s1.calls == s.calls[call := Resolution(id, approved, reason, false)];
    var s2 := Step(s1, Announce(call, ok));
    assert s2.calls[call] == Resolution(id, approved, reason, true) && s2.bridge == s1.bridge;
    assert s2.handlers == s.handlers && s2.parked == s.parked && s2.listed && s2.answers == s.answers;
  }

  lemma Answers(s: State, id: ToolUseId, d: Decision, ok: bool)
    requires id in s.handlers && s.handlers[id] == Waiting(Some(d)) && id !in s.answers
    ensures var t := Step(Step(Step(s, Receive(id)), Leave(id)), Reply(id, ok));
            && t.answers == s.answers[id := ok && d.allow] && t.history == s.history + [Answered(id, ok && d.allow)]
            && t.bridge == s.bridge
  {
    var s1 := Step(s, Receive(id));
    assert s1.handlers[id] == Leaving(d);
    var s2 := Step(s1, Leave(id));
    assert s2.handlers[id] == Done(d) && s2.answers == s.answers;
  }

  /** A decision and its way to the agent with nothing in between; ok says whether the append of its event succeeds. */
  function Decided(id: ToolUseId, call: CallId, approved: bool, reason: string, ok: bool): seq<Action> {
    [Resolve(call, id, approved, reason), Announce(call, ok), Notify(call, true), Receive(id), Leave(id), Reply(id, true)]
  }

  /**
   The path is open: wherever a run stands, a decision in time on a parked request gets
   to the agent as it was made, with its event or, if the append fails, without it.
   */
  lemma DecisionReachesAgent(s: State, id: ToolUseId, call: CallId, approved: bool, reason: string, ok: bool)
    requires Open(s, id, call)
    ensures var t := Exec(s, Decided(id, call, approved, reason, ok));
            && t.answers == s.answers[id := approved]
            && id in t.bridge && t.bridge[id].state == (if approved then B.Approved else B.Denied)
            && t.history == s.history + [Moved(id, approved), Emitted(id, WordFor(approved), ok), Notified(id, approved),
                                         Delivered(id, approved), Answered(id, approved)]
  {
    var run := Decided(id, call, approved, reason, ok);
    ExecThree(s, run);
    Decides(s, id, call, approved, reason, ok);
    var t := Step(Step(Step(s, run[0]), run[1]), run[2]);
    Answers(t, id, Decision(approved, reason), true);
    ExecThree(t, run[3..]);
    assert run[3..][3..] == [];
  }

  /** A run that starts with a request, decided within five minutes, ends with that decision; later, it expires undecided. */
  lemma ApprovalReachesAgent(now: int, id: ToolUseId, call: CallId, approved: bool, reason: string, ok: bool, elapsed: nat)
    ensures var parked := Exec(Start(now), [Ask(id), Park(id, false), Observe(id), Tick(elapsed)]);
            && (elapsed <= 300_000_000_000 ==>
                  Exec(parked, Decided(id, call, approved, reason, ok)).answers == map[id := approved])
            && (elapsed > 300_000_000_000 ==>
                  var t := Step(parked, Resolve(call, id, approved, reason));
                  id in t.bridge && t.bridge[id].state == B.Expired && t.calls == map[] && t.history == [])
  {
    var run := [Ask(id), Park(id, false), Observe(id), Tick(elapsed)];
    Parks(now, id);
    ExecThree(Start(now), run);
    assert run[3..] == [Tick(elapsed)] && [Tick(elapsed)][1..] == [];
    var s3 := Step(Step(Step(Start(now), run[0]), run[1]), run[2]);
    var parked := Step(s3, Tick(elapsed));
    assert Exec(s3, [Tick(elapsed)]) == Exec(parked, []) == parked;
    if elapsed <= 300_000_000_000 {
      DecisionReachesAgent(parked, id, call, approved, reason, ok);
    }
  }

  /** Every other way out is a denial: giving up, a panic, the end of the run, an unknown run, a failing helper. */
  lemma ExitsDeny(s: State, id: ToolUseId, ended: bool, ok: bool)
    requires id !in s.answers
    ensures Step(s, HelperFails(id)).answers == s.answers[id := false]
    ensures id in s.handlers && s.handlers[id].Waiting? ==>
              && Exec(s, [GiveUp(id, ended), Leave(id), Reply(id, ok)]).answers == s.answers[id := false]
              && Step(Step(s, Panic(id)), Reply(id, ok)).answers == s.answers[id := false]
    ensures id in s.parked && id in s.handlers && s.handlers[id] == Waiting(None) ==>
              Exec(Step(Step(s, RemoveRun), Cleanup), [Receive(id), Leave(id), Reply(id, ok)]).answers == s.answers[id := false]
    ensures id !in s.handlers && !s.listed ==> Step(Step(s, Ask(id)), Reply(id, ok)).answers == s.answers[id := false]
  {
    HelperDenies(s, id);
    if id in s.handlers && s.handlers[id].Waiting? {
      GivesUp(s, id, ended, ok);
      Panics(s, id, ok);
    }
    if id in s.parked && id in s.handlers && s.handlers[id] == Waiting(None) {
      RunEnds(s, id, ok);
    }
    if id !in s.handlers && !s.listed {
      Unlisted(s, id, ok);
    }
  }

  lemma HelperDenies(s: State, id: ToolUseId)
    requires id !in s.answers
    ensures Step(s, HelperFails(id)).answers == s.answers[id := false]
  {
  }

  lemma Panics(s: State, id: ToolUseId, ok: bool)
    requires id in s.handlers && s.handlers[id].Waiting? && id !in s.answers
    ensures Step(Step(s, Panic(id)), Reply(id, ok)).answers == s.answers[id := false]
  {
    assert Step(s, Panic(id)).handlers[id] == Done(FAIL_CLOSED);
  }

  lemma Unlisted(s: State, id: ToolUseId, ok: bool)
    requires id !in s.handlers && !s.listed && id !in s.answers
    ensures Step(Step(s, Ask(id)), Reply(id, ok)).answers == s.answers[id := false]
  {
    assert Step(s, Ask(id)).handlers[id] == Done(RUN_NOT_FOUND);
  }

  lemma GivesUp(s: State, id: ToolUseId, ended: bool, ok: bool)
    requires id in s.handlers && s.handlers[id].Waiting? && id !in s.answers
    ensures Exec(s, [GiveUp(id, ended), Leave(id), Reply(id, ok)]).answers == s.answers[id := false]
  {
    var run := [GiveUp(id, ended), Leave(id), Reply(id, ok)];
    ExecThree(s, run);
    assert run[3..] == [];
    var s1 := Step(s, GiveUp(id, ended));
    assert s1.handlers[id] == Leaving(if ended then RUN_ENDED else TIMED_OUT);
    var s2 := Step(s1, Leave(id));
    assert s2.handlers[id].Done? && !s2.handlers[id].dec.allow && s2.answers == s.answers;
  }

  lemma RunEnds(s: State, id: ToolUseId, ok: bool)
    requires id in s.parked && id in s.handlers && s.handlers[id] == Waiting(None) && id !in s.answers
    ensures Exec(Step(Step(s, RemoveRun), Cleanup), [Receive(id), Leave(id), Reply(id, ok)]).answers == s.answers[id := false]
  {
    var t := Step(Step(s, RemoveRun), Cleanup);
    assert t.handlers[id] == Waiting(Some(RUN_ENDED)) && t.answers == s.answers;
    var run := [Receive(id), Leave(id), Reply(id, ok)];
    ExecThree(t, run);
    Answers(t, id, RUN_ENDED, ok);
    assert run[3..] == [];
  }

  /** Completion cancels a pending approval and says so, or nothing if the row could not be written. */
  lemma CancelIsAnnounced(s: State, id: ToolUseId, stored: bool, ok: bool)
    requires id in s.bridge && s.bridge[id].state == B.Pending && s.cancels == []
    ensures var t := Step(Step(s, CancelPending(id, stored)), AnnounceCancel(ok));
            && id in t.bridge && t.bridge[id].state == B.Cancelled && t.bridge[id].decidedAt == Some(s.now) && t.cancels == []
            && t.history == if stored then s.history + [Emitted(id, CancelledWord, ok)] else s.history
  {
  }

  /** The sweep and an extension act on the pending approvals of the bridge and on nothing else. */
  lemma BridgeStepsAct(s: State, id: ToolUseId, delta: int)
    ensures var t := Step(s, Sweep);
            && t == s.(bridge := t.bridge) && t.bridge.Keys == s.bridge.Keys
            && forall k :: k in s.bridge ==>
                 t.bridge[k] == if s.bridge[k].state == B.Pending && s.now > s.bridge[k].expiresAt
                                then s.bridge[k].(state := B.Expired, decidedAt := Some(s.now)) else s.bridge[k]
    ensures var t := Step(s, Extend(id, delta));
            if id in s.bridge && s.bridge[id].state == B.Pending
            then t == s.(bridge := s.bridge[id := s.bridge[id].(expiresAt := s.bridge[id].expiresAt + delta)])
            else t == s
  {
    if id in s.bridge {
      assert s.bridge[id := s.bridge[id]] == s.bridge;
    }
  }

  /** A decision whose row could not be written, or whose run has no adapter, goes no further. */
  lemma DecisionsLost(s: State, call: CallId)
    requires call in s.calls
    ensures !s.calls[call].announced ==> Step(s, StoreFailed(call)) == s.(calls := s.calls - {call})
    ensures s.calls[call].announced ==> Step(s, Notify(call, false)) == s.(calls := s.calls - {call})
  {
  }

  lemma ExecThree(s: State, run: seq<Action>)
    requires |run| >= 3
    ensures Exec(s, run) == Exec(Step(Step(Step(s, run[0]), run[1]), run[2]), run[3..])
  {
    assert run[1..][1..] == run[2..] && run[2..][1..] == run[3..];
    assert Exec(s, run) == Exec(Step(s, run[0]), run[1..]);
    assert Exec(Step(s, run[0]), run[1..]) == Exec(Step(Step(s, run[0]), run[1]), run[2..]);
  }
}
