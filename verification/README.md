# Verification of the CAR control plane

CAR keeps a journal of events per agent session, fans it out to devices over
WebSockets, and lets an operator decide whether a coding agent may use a tool. This
project models the logic behind those promises in Dafny and proves it, for every
input and every interleaving of the modelled steps.

| file | what it models |
|---|---|
| `CursorGate.dfy` | the device's cursor and the gate that applies only the next event |
| `ClientQueue.dfy` | one server-side connection: bounded queue, replay buffer, backpressure close |
| `Journal.dfy` | the journal tables: append, replay page, cursor expiry, purge |
| `ConcurrentAppends.dfy` | writers racing between reading the maximum and inserting |
| `Hub.dfy` | the subscriber table, publishing, and replay of a hello; catching up over connections |
| `EventSync.dfy` | one session towards one device: commit, snapshot, send, subscribe, replay, flush, write, apply, close, reconnect |
| `ApprovalBridge.dfy` | approvals in memory and in the store, decisions, expiry, cancellation |
| `PermissionFlow.dfy` | a tool permission from the agent's question to its answer, all parties interleaving |
| `McpPermission.dfy` | the parked-request table, the fail-closed socket, the JSON-RPC server |
| `SessionMachine.dfy` | the transition table and compare-and-set from stale copies |
| `Lifecycle.dfy` | reconciliation at startup, draining at shutdown |
| `Redaction.dfy` | redaction of nested audit contexts |
| `LineParser.dfy` | line splitting with carry-over, and the stream scanner |
| `Identity.dfy` | pairing codes, access tokens, pruning, revocation |
| `Outcomes.dfy` | option and result types |

Two forms stand side by side. Objects that the code updates in place are classes whose
methods are proved against functions of the old state; code that runs concurrently is a
step system (`State`, `Action`, `Step`, `Exec`), one action per atomic piece (a lock
section, a statement on a table, a channel operation), and a theorem speaks about `Exec`
of every list of actions. An action that is not enabled leaves the state as it is. The
step systems use the same functions (`Send`, `Enqueue`, `Flush`, `DecideOn`, `CancelOn`,
`ExpireAll`, `WithChallenge`, `WithoutExpired`, `ReplayPage`) that the class methods
are proved to compute.

## Hypotheses and findings

* **Event synchronisation.** That the device applies exactly the journal's events, once
  and in order, holds for any order of publishes, sends and frame handlers, and across
  drops, closes and reconnects, as long as a resync notice is only handled while the
  cursor is the one it names; `CursorStore.set` is unconditional, so a notice that comes
  after late frames of the previous socket lets events in twice (`NoticeKeepsPrefixIff`,
  `NoticeRepeats`). That the device ends up with *all* events needs in-order publishing
  and handling (`InOrder`). Under that hypothesis, and when the replay was answered from
  a journal without holes (`reply == Whole`), the exact condition is
  `base <= hello + 100`: what was published before the client subscribed must fit on the
  one page that a connection replays. When the replay fails, the server unsubscribes the
  session and keeps the connection (internal/ws/hub.go:172-175): the device gets what
  went live before that, if it follows its cursor directly, and misses everything after
  (`RefusedHandover`, `RefusalLoses`). The server ignores `HasMore`, so a device
  more than a page behind stops at the end of its page (`LongGapTruncates`), and
  `ceil(K / 100)` connections are needed (`CatchUpTerminates`). A connection with
  several cursors shares its 256 slots among them: with an idle writer every cursor gets
  its full page exactly when all frames fit (`AllServedIff`). None of this is
  final: unless a notice is still on the wire, a device can always be brought to the end
  of the journal (`AlwaysRecovers`), by one connection if it is at most a page behind
  (`OnePageOneConnection`).
* **Closing.** An open client is marked slow exactly when an operation runs into its full queue;
  a failed write and the end of the read loop close it without that mark. Up to the
  closing operation nothing is lost (`ClosedClientsLoseAtTheClose`). A client that is
  closed before its replay begins stays subscribed, since its close callback has run.
* **Purging.** Replay is several statements outside any transaction. When timestamps do
  not decrease with the sequence, the newest row survives and the boundary is the
  retention boundary, a cursor `1..last` that was not told to resync is continued exactly
  when no purge has passed it between the count of its row and the fetch of the page
  (`ReplayContinuesIff`). Such a purge does leave a silent gap
  (`SilentGapBetweenStatements`); without one there is none (`PurgeNeverSilent`).
  Cursor 0 is never reported as expired, so it is served without a gap exactly when
  nothing has been purged (`StartCursorIsSilent`); without the hypothesis on timestamps
  a purge leaves no hole exactly under the condition of `NoHoleIff`; numbering goes on
  exactly when the newest row survives (`NumberingSurvivesPurge`).
* **Approvals.** One-shot holds for an approval that is in memory, is not requested again,
  and that no call to `Decide` missed before it was requested. It can be broken in three
  ways, and only in these (`DoubleDecisionIff`). For an approval that is only stored,
  `Decide` checks a private copy outside the lock, so two decisions can both win when it
  is stored, pending, unexpired and not in memory. `Request` overwrites the record of a
  known id with a new pending one before its INSERT fails, so each further request lets
  one more decision win (`WinsBound`, reached by `SpendWins`). And calls that miss memory
  before a request and load the row after it hold private pending copies as well
  (`RequestBetweenWins`).
  `ExtendExpiry` calls the store, but the store's update does not write the expiry column
  (internal/approval/store.go:49-57); the model follows the code.
* **Permissions.** An allow is always preceded by the bridge's move to approved and by the
  notification. It is not always preceded by the approval.resolved event: `ResolveApproval`
  ignores the error of `emitEvent` (internal/app/session_service.go:305) and goes on, so
  the event precedes the allow exactly when its append did not fail
  (`EventPrecedesAllowIff`; with `ok` false, `DecisionReachesAgent` is a run without it).
* **Sessions.** The observer acts on the copy `StartRun` read before its own
  compare-and-set, and reloads it only when it handles an approval request. The database
  rejects every stale write, so all changes are edges of the table, and most runs do not
  complete. A run without an approval request never does (`UnrefreshedNeverCompletes`),
  and a session that once waited cannot either (`WaitingNeverCompletes`). A run that
  nothing interferes with completes on a clean exit exactly when it made one request, and
  fails on a failing exit exactly when it made at least one (`LoneRunIff`). `StartRun` ignores
  whether its own compare-and-set took effect, so every call that read the session in a
  state with an edge to starting launches an agent (`LaunchIff`, `LaunchesIff`).
* **JSON-RPC.** The comment on `Serve` says that notifications get no response, as section
  4.1 of the JSON-RPC 2.0 specification demands. The code answers every notification
  except `notifications/initialized` (`NotificationsAnswered`).
* **Redaction.** A pattern is removed from every text, whatever the other patterns and
  their order, exactly when it does not overlap the mark `[REDACTED]` (`NoOverlap`);
  sharing no character with the mark is sufficient (`DisjointHasNoOverlap`). Nothing but
  the occurrences of a pattern is taken from a text (`ReplacedIff`, `ExposedKeepsRest`).
* **Tokens.** Deleting expired tokens never changes a verdict at the current time. A call
  that read the clock earlier can see the difference, exactly when the token was pruned
  although it was alive at that reading (`StaleReadingIff`, `OrderOfPruneMatters`). Without
  such a call whole runs are the same as on a table that never deletes
  (`PruningChangesNoRun`).

## Model

| member | source | states |
|---|---|---|
| CursorGate.CursorStore.AdvanceIfContiguous | android/app/src/main/java/io/codeallremote/car/android/net/CursorStore.kt:26-31 | The cursor advances if and only if the sequence is the next one (0 for an unknown session); otherwise nothing changes. |
| CursorGate.CursorStore.Set | android/app/src/main/java/io/codeallremote/car/android/net/CursorStore.kt:34-36 | Sets one session's cursor and no other. |
| CursorGate.CursorStore.Forget | android/app/src/main/java/io/codeallremote/car/android/net/CursorStore.kt:38-40 | Removes one session's cursor and no other. |
| CursorGate.Listener.HelloCursors | android/app/src/main/java/io/codeallremote/car/android/net/CarWsClient.kt:157-165 | The hello names, for every known session, the cursor a reader of the store would get; an unnamed session reads as 0. |
| CursorGate.Listener.HandleMessage | android/app/src/main/java/io/codeallremote/car/android/net/CarWsClient.kt:182-215 | An event is emitted if and only if it moved its session's cursor; a resync notice sets the cursor; every other session is untouched. |
| CursorGate.Listener.HandleAll | android/app/src/main/java/io/codeallremote/car/android/net/CarWsClient.kt:182-215 | Over any list of frames, each session without a resync notice ends at the gate's cursor and the UI got exactly the admitted events. |
| CursorGate.GateConcat | android/app/src/main/java/io/codeallremote/car/android/net/CursorStore.kt:26-31 | Passing two streams through the gate one after the other is passing their concatenation. |
| CursorGate.GateMonotone | android/app/src/main/java/io/codeallremote/car/android/net/CursorStore.kt:26-31 | A device that is ahead stays ahead on the same stream. |
| CursorGate.GatePage | android/app/src/main/java/io/codeallremote/car/android/net/CursorStore.kt:26-31 | A journal page moves a cursor inside it to the page's end. |
| CursorGate.GateForeign | android/app/src/main/java/io/codeallremote/car/android/net/CarWsClient.kt:182-215 | Frames of other sessions change nothing, wherever they are interleaved. |
| CursorGate.AdmittedIsContiguous | android/app/src/main/java/io/codeallremote/car/android/net/CarWsClient.kt:196-212 | What comes through the gate is numbered cursor+1, cursor+2, ... up to the new cursor, from any stream. |
| ClientQueue.Client.SendEnvelope | internal/ws/client.go:63-86 | On a closed client nothing; while buffering the envelope joins the buffer; with room it joins the queue; otherwise the client is slow, closed, with code 4001. Nothing else changes. |
| ClientQueue.Client.SendDirect | internal/ws/client.go:90-102 | Bypasses the buffer: nothing on a closed client, the queue if there is room, otherwise slow, closed, code 4001. |
| ClientQueue.Client.BeginBuffering | internal/ws/client.go:106-111 | Starts with an empty buffer and leaves queue and socket alone. |
| ClientQueue.Client.FlushAndStopBuffering | internal/ws/client.go:117-133 | If queue and buffer fit, the buffer goes behind the queue in order and the client stays open; otherwise the overflow closes it. What was queued stays queued. On a client closed before, up to `late` envelopes may still get in, as the select chooses. |
| ClientQueue.Client.MarkClientSlow | internal/ws/client.go:137-141 | Marks slow, sets close code 4001, closes. |
| ClientQueue.Client.Close | internal/ws/client.go:148-157 | Closing is idempotent and keeps queue and buffer. |
| ClientQueue.Client.RunWriter | internal/ws/client.go:161-181 | Writes a prefix of the queue in order; a failed write closes the client and ends it; on a client closed before at most `late` more are taken, as the select chooses. |
| ClientQueue.DrainSpec | internal/ws/client.go:117-133 | A flush leaves the client open if and only if everything fits, and then the queue got all of it in order; otherwise it is closed, slow, with code 4001. |
| ClientQueue.RunEvolves | internal/ws/client.go:63-181 | Over any operations, failed writes and closes by the read loop included: the queue stays within its capacity, closing is final, and slow, closed and code 4001 go together. |
| ClientQueue.BufferingKeepsAll | internal/ws/client.go:63-111 | While a client that stays open is buffering, written ++ queued is what was sent directly and the buffer is every live event, in order. |
| ClientQueue.LiveKeepsAll | internal/ws/client.go:63-102 | Once live, written ++ queued grows by exactly what is handed over, in order. |
| ClientQueue.OpenClientsLoseNothing | internal/ws/client.go:63-156 | For any capacity and traffic, an open client has written ++ queued = replayed, then buffered live, then later events; slow and code 4001 are set together or not at all. |
| ClientQueue.StepAccounts | internal/ws/client.go:63-181 | One operation on an open client loses nothing unless it closes it: what an overflow found no room for, and then it is marked slow, or the envelope of a failed write; the read loop's close drops nothing. |
| ClientQueue.ClosedClientsLoseAtTheClose | internal/ws/client.go:63-181 | For any mixture of operations that ends closed there is one closing operation: before it everything handed over is written, queued or buffered, what is missing after it is what it dropped, and the client is slow if and only if it overflowed. |
| ClientQueue.DirectsDelivered | internal/ws/client.go:90-102 | Direct sends with writes in between: socket and queue get a prefix of what was sent, at least as much as there was room for, and all of it if and only if the client stays open. |
| Journal.CursorRepository.Replay | internal/storage/cursor_repository.go:41-92 | When all statements see one state: the first rows behind the cursor, 100 of them by default, otherwise as many as the limit says and 500 at most; HasMore if and only if there are more; or a resync with an empty page and an unmoved cursor. |
| Journal.CursorRepository.IsCursorExpired | internal/storage/cursor_repository.go:96-135 | Expired exactly when retention is on, the cursor is not 0, its row is gone and the session is older than the retention; unknown sessions are an error. |
| Journal.CursorRepository.AppendWithoutTx | internal/storage/cursor_repository.go:141-184 | Adds one row numbered MAX + 1, sets last_sequence to it, keeps every session ascending; an unknown session changes nothing. |
| Journal.CursorRepository.PurgeExpired | internal/storage/cursor_repository.go:188-202 | Exactly the rows with occurred_at not before the boundary stay, in order, session by session; the count is the number removed. |
| Journal.AfterIsSuffix | internal/storage/event_repository.go:63-82 | On an ascending table the rows after a cursor are a suffix. |
| Journal.HasMoreExact | internal/storage/cursor_repository.go:41-92 | A served page is the first rows behind the cursor, 100 by default, otherwise as many as the limit says and 500 at most; HasMore holds if and only if there are more, and NextAfter continues exactly behind the page. |
| Journal.AllowedStepActs | internal/storage/cursor_repository.go:141-202 | What an allowed step does to a session: the clock advances, a row numbered last + 1 is added at the end, or exactly the rows before the boundary go and are counted. |
| Journal.PagedReplayIsFullReplay | internal/storage/cursor_repository.go:41-92 | Asking page after page, with any limit, ends and yields every event after the cursor, once each, in order. |
| Journal.PurgeNeverSilent | internal/storage/cursor_repository.go:41-135 | When no purge comes between the statements of a replay, a cursor 1..newest is told to resync if and only if its row was purged, and otherwise continues exactly where it stopped. |
| Journal.ReplayContinuesIff | internal/storage/cursor_repository.go:41-121 | Statement by statement, with any appends, clock advances and purges in between: resync if and only if the cursor's row was gone when counted; otherwise the page continues the cursor if and only if no purge has passed it by the time of the fetch; HasMore is exact. |
| Journal.SilentGapBetweenStatements | internal/storage/cursor_repository.go:50-62 | A purge between the count and the fetch that skips row 2 for cursor 1 without a resync. |
| Journal.StartCursorIsSilent | internal/storage/cursor_repository.go:96-105 | Cursor 0 is never told to resync and is served without a gap if and only if nothing was purged. |
| Journal.NewSessionIsRetained | internal/storage/cursor_repository.go:96-135 | A session without events is a state to start from. |
| Journal.NumberingSurvivesPurge | internal/storage/cursor_repository.go:141-171 | MAX + 1 goes on where it stopped after a purge if and only if the newest row survives. |
| Journal.NoHoleIff | internal/storage/cursor_repository.go:188-202 | For any timestamps, a purge leaves a contiguous numbering if and only if no removed row stands between two kept ones. |
| Journal.PurgeCommutes | internal/storage/cursor_repository.go:188-202 | Purging the table and looking at one session is looking at the session and purging it. |
| ConcurrentAppends.AlwaysNumbered | internal/storage/cursor_repository.go:141-184 | In every reachable state the committed sequences of every session are exactly 1..N with last_sequence = N, and rows only get added at the end. |
| ConcurrentAppends.EmptyIsNumbered | internal/storage/migrations.go:64-74 | An empty journal is a state to start from. |
| ConcurrentAppends.AcceptedIsNext | internal/storage/migrations.go:64-74 | A writer that passes UNIQUE(session, sequence) had read the true maximum, however stale its reading was allowed to be. |
| ConcurrentAppends.AcceptedIff | internal/storage/event_repository.go:44-60 | In a numbered journal a writer is accepted if and only if its session exists and its maximum is still the number of rows. |
| ConcurrentAppends.CommitIff | internal/storage/cursor_repository.go:141-184 | A commit adds row, last_sequence and acknowledgement together, exactly under that condition; otherwise it leaves nothing but the failure. |
| ConcurrentAppends.LoneWriter | internal/storage/cursor_repository.go:141-184 | A writer that nothing comes between commits the next number of its session, or fails if the session does not exist. |
| ConcurrentAppends.RolledBack | internal/storage/cursor_repository.go:141-184 | A rolled-back writer leaves nothing but its failure. |
| ConcurrentAppends.OnlyAckedRows | internal/storage/event_repository.go:44-60 | The table is exactly the acknowledged rows in order: a failed writer leaves no trace. |
| ConcurrentAppends.RacersConflict | internal/storage/migrations.go:64-74 | Of two writers that read the same maximum at most one commits. |
| ConcurrentAppends.JournalGrowsByOne | internal/storage/cursor_repository.go:141-184 | Seen from one session each step leaves the journal alone or appends one event. |
| Hub.Broadcaster.Publish | internal/ws/hub.go:93-115 | Every subscriber of the session is sent the event once; those it closes, and only those, lose all their subscriptions. |
| Hub.Broadcaster.SendToAll | internal/ws/hub.go:93-115 | The loop over the snapshot of subscribers. |
| Hub.Broadcaster.Subscribe | internal/ws/hub.go:118-125 | Adds the client to one session's subscribers. |
| Hub.Broadcaster.Unsubscribe | internal/ws/hub.go:128-137 | Removes the client from every session and drops empty entries. |
| Hub.Broadcaster.UnsubscribeSession | internal/ws/hub.go:140-149 | Removes the client from one session and drops an empty entry. |
| Hub.Broadcaster.ReplayAndSubscribe | internal/ws/hub.go:159-206 | The resync list, the final client state and the final subscriptions of a hello, for any cursors: refused cursors end up unsubscribed, a client that overflows loses all, and a closed client stays subscribed if and only if it was closed before and some session was served or subscribed already. |
| Hub.Broadcaster.ServeAll | internal/ws/hub.go:170-199 | The loop over the cursors accumulates exactly the frames and resync notices of the cursors served so far. |
| Hub.ReplayIsPage | internal/ws/hub.go:170-199 | On an unpurged journal, replay hands out the page of at most 100 events behind the cursor. |
| Hub.RefusalIff | internal/ws/hub.go:159-206 | A cursor is refused with a notice if and only if retention is on, its row is gone and its session is older than the retention; without one if and only if its row is gone and its session is unknown; else it is served. |
| Hub.NoticesInOrder | internal/ws/hub.go:159-206 | One resync notice for each cursor beyond retention, naming session and cursor, in the order of the hello, and none for any other. |
| Hub.ConnectionAdvances | internal/ws/hub.go:170-199 | Whatever the writer manages meanwhile, socket and queue get the first m frames of a hello, at least as many as the queue has slots, and cursor i moves by min(K, 100) or what the frames before it leave of m. |
| Hub.IdleAdvances | internal/ws/hub.go:80-87 | With an idle writer cursor i moves by min(K, 100, what the frames before it leave of the 256 slots). |
| Hub.AllServedIff | internal/ws/hub.go:170-199 | Every cursor of a hello gets its full page from an idle connection if and only if all frames fit into the 256 slots. |
| Hub.CatchUpTerminates | internal/ws/hub.go:80-87 | n connections bring the cursor to min(last, cursor + 100 n), and to the end if and only if n is at least ceil(K / 100). |
| Hub.TwoCursorsFit | internal/ws/hub.go:80-87 | A fresh client survives its replay if and only if the frames fit into 256 slots, and up to two cursors always fit. |
| EventSync.AppliedPrefix | internal/ws/hub.go:93-115 | In every run in which no resync notice moves the cursor, with any publish order, drops, closes, reconnects and replay pages that purges have thinned out: the applied events are exactly start+1 .. cursor of the journal, each once, unaltered. |
| EventSync.NoticeKeepsPrefixIff | android/app/src/main/java/io/codeallremote/car/android/net/CarWsClient.kt:191-196 | A resync notice keeps that if and only if the cursor is still the one it names when it is handled. |
| EventSync.NoticeRepeats | android/app/src/main/java/io/codeallremote/car/android/net/CursorStore.kt:34-36 | After a notice that names an earlier cursor the next event is applied a second time. |
| EventSync.SafeStep | android/app/src/main/java/io/codeallremote/car/android/net/CarWsClient.kt:157-215 | Each step keeps this and never shortens journal or cursor. |
| EventSync.OrderedStep | internal/ws/client.go:63-133 | Each in-order step keeps the pipeline invariant: what is in the socket, queue, replay page, buffer and in flight, passed through the gate in that order, ends at the goal. |
| EventSync.NoLossHandover | internal/ws/hub.go:159-206 | After any in-order run that ends live, open and drained, with a replay answered from a journal without holes, the cursor is the journal length if and only if what was published before subscribing is at most 100 events ahead of the hello's cursor, which is when it fits on the page; otherwise it is the end of the page. |
| EventSync.AlwaysRecovers | internal/ws/hub.go:159-206 | From any state of an in-order run with no resync notice on the wire, an in-order continuation without new events ends live, open and drained, with the journal applied from the start to its end, each event once. |
| EventSync.FirstContact | internal/ws/hub.go:159-206 | From the start, any device gets any journal, over as many connections as it takes. |
| EventSync.OnePageOneConnection | internal/ws/hub.go:159-206 | A device at most 100 events behind is brought to the end by one connection: an explicit in-order run that ends live, open, whole and drained. |
| EventSync.LiveDelivers | internal/ws/hub.go:93-115 | An event committed while the device is live, up to date and drained is published, queued, written and applied. |
| EventSync.WritesDeliver | internal/ws/client.go:161-181 | As many writes as envelopes are queued empty the queue and put exactly those on the wire, in order. |
| EventSync.NoticeArrives | internal/ws/handler.go:164-172 | A resync notice on an idle live connection is queued, written and handled: it sets the cursor to that of the hello and applies nothing. |
| EventSync.ForeignTravels | internal/ws/client.go:63-102 | A frame of another session is held back while buffering and queued otherwise; a direct one is queued. |
| EventSync.ThinnedTravels | internal/storage/cursor_repository.go:41-92 | A page thinned by a purge goes out as it is, and its first event is applied exactly if it is the next one. |
| EventSync.RefusedHandover | internal/ws/hub.go:170-185 | The same with a replay that failed or was refused as expired and no notice sent: the device ends at its hello, or where it was cut off if what went live follows its cursor, and is complete if and only if that is the end of the journal. |
| EventSync.RefusalLoses | internal/ws/hub.go:172-175 | A run in which the replay fails, the connection stays up, live and drained, and a later event is missed. |
| EventSync.LiveIsAnswered | internal/ws/hub.go:159-206 | An in-order run that ends live and open has had its replay answered, so whole, thinned, refused and expired are all the cases. |
| EventSync.LongGapTruncates | internal/ws/hub.go:170-199 | A device that connects and reads its page misses the condition of the handover if and only if it is more than 100 events behind. |
| ApprovalBridge.Bridge.RequestApproval | internal/approval/approval.go:113-148 | The approval is pending in memory, replacing any record of that id; its row is created unless the id has one or the store fails. |
| ApprovalBridge.Bridge.DecideApproval | internal/approval/approval.go:170-251 | The check-and-set, the load of a stored approval, the store write after it, the answer, and when an error is returned although the decision stands in memory. |
| ApprovalBridge.Bridge.CancelApproval | internal/approval/approval.go:358-380 | Cancels only a pending approval; the store follows unless it fails, which is reported. |
| ApprovalBridge.Bridge.ExtendExpiry | internal/approval/approval.go:383-403 | Moves the expiry of a pending approval in memory, whether or not the store fails; no store column changes. |
| ApprovalBridge.Bridge.SweepExpired | internal/approval/approval.go:332-350 | For every approval: expired, with the time of the sweep, if and only if it was pending and the time is past its expiry; all others are unchanged; the store follows for the rows that can be written. |
| ApprovalBridge.Bridge.PendingOf | internal/approval/approval.go:270-282 | Lists exactly the pending approvals of a session. |
| ApprovalBridge.OneShot | internal/approval/approval.go:170-251 | Over every interleaving without a repeated request, for an approval in memory that no call is about to load: pending is left once, terminal records never change, at most one decision wins, late answers name the final state, approved or denied is reached no later than the expiry. |
| ApprovalBridge.PendingStays | internal/approval/approval.go:332-350 | A pending approval in memory stays pending over any run that neither decides, cancels nor requests it and does not pass its expiry; only its expiry may move. |
| ApprovalBridge.LateIsExpired | internal/approval/approval.go:332-350 | Once the clock has passed the expiry a sweep ends it, and a decision comes too late, before or after the sweep. |
| ApprovalBridge.DecideAtOnce | internal/approval/approval.go:170-251 | A decision and its write with nothing in between: an ended approval is answered with its state; a pending one is approved or denied in time and expired too late; the row follows if it can be written. |
| ApprovalBridge.LoadAtOnce | internal/approval/approval.go:170-251 | The same for an approval that is only stored: not found, ended, or a private copy that enters memory if and only if the decision wins. |
| ApprovalBridge.SingleStepsAct | internal/approval/approval.go:113-403 | Request, cancellation and extension as steps, in memory and in the store. |
| ApprovalBridge.RequestStarts | internal/approval/approval.go:113-148 | A first request establishes what one-shot and the agreement of memory and store start from. |
| ApprovalBridge.WinsBound | internal/approval/approval.go:113-251 | Where no private copy is open to a decision, and the id is in memory, has lapsed or is not requested: at most one decision wins for the undecided record in memory and one for each request. |
| ApprovalBridge.SpendWins | internal/approval/approval.go:113-251 | That bound is reached, for every number of requests. |
| ApprovalBridge.RequestedAgain | internal/approval/approval.go:132-142 | The id requested and decided twice: both decisions win. |
| ApprovalBridge.TwoLoadersWin | internal/approval/approval.go:178-193 | Two calls that both load a stored approval both win. |
| ApprovalBridge.RequestBetweenWins | internal/approval/approval.go:178-193 | Two calls that miss memory before a request and load after it both win. |
| ApprovalBridge.DoubleDecisionIff | internal/approval/approval.go:113-251 | Some run with at most n requests of the id has two winners if and only if the approval is stored, pending, unexpired and not in memory; or an undecided record in memory and the n requests are two or more together; or n is positive and the id is neither in memory nor stored past its expiry. |
| ApprovalBridge.MemoryAndStoreAgree | internal/approval/approval.go:221-241 | Absent store errors and repeated requests, memory and store agree in every reachable state, or the store is still pending with exactly one decision write in flight that carries the record in memory. |
| ApprovalBridge.RequestAgainAgreesIff | internal/approval/approval.go:132-142 | A repeated request keeps the agreement if and only if the stored row is still pending and undecided with no write in flight. |
| PermissionFlow.AllowImpliesApproved | internal/adapter/claude/claude.go:453-468 | In every run an allow answer stands after delivery, notification and the bridge's move to approved, in that order, and the approval is approved. |
| PermissionFlow.EventPrecedesAllowIff | internal/app/session_service.go:305-326 | The approval.resolved event precedes the allow if and only if its append did not fail. |
| PermissionFlow.ResolvedOnce | internal/app/session_service.go:278-331 | Each approval is moved, announced, sent to the adapter and delivered at most once; the event names the final state; cancelled or expired approvals never reach the adapter. |
| PermissionFlow.InvRun | internal/app/session_service.go:412-422 | The invariant behind both holds over every interleaving of resolutions, completion, expiry, parking and exits. |
| PermissionFlow.ReplyIsFinal | internal/adapter/claude/claude.go:544-626 | A delivered decision is returned as it is, or replaced by a denial on timeout, end of run or panic. |
| PermissionFlow.ApprovalReachesAgent | internal/adapter/claude/claude.go:544-603 | From the question on: decided within five minutes, the agent gets that decision; later, the approval expires and nothing is sent. |
| PermissionFlow.DecisionReachesAgent | internal/adapter/claude/claude.go:453-603 | Wherever a run stands, an approval or denial in time on a parked request, undisturbed, is the answer the agent gets, with its event or, if the append fails, without it; the history is exactly that. |
| PermissionFlow.ExitsDeny | internal/adapter/claude/claude.go:544-626 | Every other way out answers deny: giving up, a panic, the end of the run, an unlisted run, a failing helper. |
| PermissionFlow.CancelIsAnnounced | internal/app/session_service.go:389-423 | Completion cancels a pending approval and emits its event if and only if the row was written. |
| PermissionFlow.BridgeStepsAct | internal/approval/approval.go:332-403 | Sweep and extension act on pending approvals of the bridge and on nothing else. |
| PermissionFlow.DecisionsLost | internal/app/session_service.go:278-331 | A decision whose row could not be written, or whose run has no adapter, goes no further. |
| PermissionFlow.HandlerStep | internal/adapter/claude/claude.go:544-586 | No exit of a parked request makes up an allow: it passes on what it was given or denies. |
| McpPermission.ParkedRequests.ParkRequest | internal/adapter/claude/claude.go:551-556 | Parks one request with an empty reply slot and touches no other. |
| McpPermission.ParkedRequests.ResolveParked | internal/adapter/claude/claude.go:590-603 | Delivers to a parked request at most once, the decision as it is, and forgets it; false if and only if nothing was parked; no other request is touched. |
| McpPermission.ParkedRequests.CleanupPermission | internal/adapter/claude/claude.go:607-626 | The end of a run denies every request still parked and leaves none. |
| McpPermission.DecideOverSocket | internal/mcpperm/socket.go:37-68 | Helper of the path above: one round trip that allows only if each of its steps worked and the reply allows, and otherwise fails closed. |
| McpPermission.Serve | internal/mcpperm/server.go:52-165 | One response per answerable line, in order, with its request's raw id: initialize gets the protocol version (the client's, or 2025-11-25), tools/list the tools, an unknown method an empty result, a tool call an allow exactly when the decision allows, with the decision's updated input or else its own. |
| McpPermission.EveryRequestOnce | internal/mcpperm/server.go:52-165 | The answerable lines are exactly the requests other than notifications/initialized, each once, in the order of the input. |
| McpPermission.NotificationsAnswered | internal/mcpperm/server.go:50-165 | The server answers no notification if and only if all notifications are notifications/initialized. |
| SessionMachine.CanTransition | internal/session/manager.go:36-52 | True exactly for the edges of the table, listed by target state. |
| SessionMachine.EdgesByTarget | internal/session/manager.go:13-52 | All edges, by target: starting from created and resumable only, and so on for every state. |
| SessionMachine.SessionTable.UpdateState | internal/storage/session_repository.go:85-117 | The row becomes the new state if and only if it exists and is in the expected state, if one is given; no other row changes. |
| SessionMachine.StepIsOneEdge | internal/app/session_service.go:86-160 | Every service step changes the stored state along one edge of the table, upwards in rank, or not at all. |
| SessionMachine.CasKeepsTheMachine | internal/session/manager.go:13-52 | With arbitrarily stale copies, every change of the stored state is an edge, failed and completed are absorbing, no state is entered twice. |
| SessionMachine.LaunchIff | internal/app/session_service.go:96-121 | Helper: the copy a StartRun call read decides whether it launches, whatever its compare-and-set answered. |
| SessionMachine.LaunchesIff | internal/app/session_service.go:86-121 | For any n > 0 some run launches n agents for a quiet session if and only if its state has an edge to starting. |
| SessionMachine.TwoLaunches | internal/app/session_service.go:107-121 | Witness: two calls from created, two agents launched, one change of the stored state. |
| SessionMachine.WaitingNeverCompletes | internal/app/session_service.go:335-423 | A session that once waited for an approval ends waiting, interrupted or failed. |
| SessionMachine.UnrefreshedNeverCompletes | internal/app/session_service.go:389-410 | From any state that is not completed and whose observers hold the copy from before the start, no run without a reload completes, for any number of calls and exit codes. |
| SessionMachine.LoneRunIff | internal/app/session_service.go:335-410 | A StartRun call that nothing interleaves with, from any startable state with k approval requests: exit 0 completes if and only if k is 1, any other exit fails if and only if k is positive, and where it ends otherwise. |
| SessionMachine.InterruptAtOnce | internal/app/session_service.go:236-275 | An interrupt with nothing in between interrupts an active or waiting session and leaves any other alone. |
| SessionMachine.StartAtOnce | internal/app/session_service.go:86-160 | A start with nothing in between: refused unless created or resumable; failed if no agent could be launched; else active, under an observer that holds the copy from before. |
| Lifecycle.Manager.Start | internal/lifecycle/manager.go:67-87 | Runs once: every row becomes its resolved state and the counts add up to the unfinished sessions. |
| Lifecycle.Manager.ReconcileOnStartup | internal/lifecycle/manager.go:90-149 | The loop leaves settled rows alone, resolves every other, counts each once, and counts as failed exactly those whose reconciler errs. |
| Lifecycle.Manager.ReconcileOne | internal/lifecycle/manager.go:114-185 | A settled session is left alone. Any other becomes what the adapter reports, if it can recover it and reports active, completed, resumable, starting (or pending) or interrupted; it fails in every other case, and only an error is counted as failed. |
| Lifecycle.Manager.Shutdown | internal/lifecycle/manager.go:199-260 | Initiated once: the sessions of runs that did not drain and those created, starting, active, waiting or recovering end recovering, all others as they were. |
| Lifecycle.Manager.MarkUnresolved | internal/lifecycle/manager.go:273-301 | Marks exactly the created, starting, active, waiting and recovering sessions recovering. |
| Lifecycle.Manager.RegisterRun | internal/lifecycle/manager.go:304-320 | Accepts a run only while running. |
| Lifecycle.Manager.CompleteRun | internal/lifecycle/manager.go:323-336 | Forgets one run. |
| Lifecycle.StartupResolves | internal/lifecycle/manager.go:152-185 | Startup leaves no session created, waiting or recovering, and settled ones unchanged. |
| Lifecycle.RestartSettles | internal/lifecycle/manager.go:199-301 | For any table and runs, shutdown and restart without a reconciler settle every session; it has failed if it was unfinished or a run of it did not drain and is unchanged otherwise; exactly those sessions are counted, none as an error. |
| Redaction.RedactPatterns | internal/audit/writer.go:221-228 | The patterns of four bytes or more are applied in order; each puts the mark in place of every leftmost occurrence and keeps all other text. |
| Redaction.ReplacedIff | internal/audit/writer.go:224 | Replacing is characterised without recursion: the result is r if and only if there are parts, joined by the pattern the text and joined by the mark r, each occurrence the leftmost and none in the last part. |
| Redaction.SeparatedOnce | internal/audit/writer.go:224 | Those parts are unique. |
| Redaction.RedactAllRedacts | internal/audit/writer.go:221-228 | A list of patterns does this one after the other, in the order of the list, and passes over patterns below four bytes. |
| Redaction.IsSensitiveKey | internal/audit/writer.go:210-218 | True if and only if some configured key stands somewhere in the name, letter by letter, in upper or lower case. |
| Redaction.Writer.constructor | internal/audit/writer.go:64-74 | A new writer has exactly the fourteen default keys, in order, and no patterns. |
| Redaction.Writer.WithRedactPatterns | internal/audit/writer.go:77-82 | Adds patterns and changes nothing else. |
| Redaction.Writer.WithRedactKeys | internal/audit/writer.go:85-90 | Adds keys and changes nothing else. |
| Redaction.Writer.Record | internal/audit/writer.go:94-124 | Rejects an entry without actor or action; otherwise stores one row with the same keys, each value redacted under its key. |
| Redaction.ReplaceRemoves | internal/audit/writer.go:221-228 | Replacing a pattern that does not overlap the mark leaves no occurrence of it. |
| Redaction.ReplaceKeepsOut | internal/audit/writer.go:221-228 | Replacing any other pattern cannot bring it back. |
| Redaction.PatternGone | internal/audit/writer.go:221-228 | Such a pattern is gone whatever the other patterns and their order. |
| Redaction.DisjointHasNoOverlap | internal/audit/writer.go:221-228 | A pattern that shares no character with the mark does not overlap it. |
| Redaction.SafePatternIff | internal/audit/writer.go:221-228 | An active pattern is removed from every text by every list that contains it if and only if it does not overlap the mark. |
| Redaction.RedactionIsComplete | internal/audit/writer.go:162-228 | At every path of a redacted value: only the mark under a sensitive name, no byte leaves, no safe pattern in any string, no path that was not there before. |
| Redaction.ExposedIsKept | internal/audit/writer.go:181-207 | Below names that are not sensitive every value is at its place, redacted as if alone. |
| Redaction.ExposedKeepsRest | internal/audit/writer.go:162-228 | At such a path a text keeps all but its patterns, an object its keys, with the mark under the sensitive ones, a list its length, and any other value itself. |
| Redaction.RedactTwice | internal/audit/writer.go:181-228 | Redacting twice is redacting once when no active pattern overlaps the mark. |
| LineParser.ParseBuffer | internal/adapter/claude_parser.go:276-307 | At the end the events of all lines and no remainder; before it the events of the complete lines, and the last line as remainder. |
| LineParser.ParseStream | internal/adapter/claude_parser.go:261-273 | The events of the lines before the first that does not fit the scanner's buffer. |
| LineParser.JoinSplit | internal/adapter/claude_parser.go:276-284 | Splitting loses nothing: joining the lines gives the text. |
| LineParser.RemainderCarries | internal/adapter/claude_parser.go:292-304 | Prepending the remainder to the next chunk splits like the whole text. |
| LineParser.ChunkingDoesNotMatter | internal/adapter/claude_parser.go:276-307 | Any cut into chunks, each prepended with the previous remainder, yields the events of one complete parse. |
| LineParser.StreamAgreesIff | internal/adapter/claude_parser.go:261-307 | The stream parser agrees with a complete parse if and only if no line from the first over-long one on holds an event. |
| LineParser.ShortLinesAgree | internal/adapter/claude_parser.go:261-307 | They agree whenever every line is at most 65535 bytes long. |
| LineParser.TrimTwice | internal/adapter/claude_parser.go:229-236 | Trimming a trimmed line changes nothing, so trimming in the buffer parser and again in the line parser is harmless. |
| LineParser.TrimIsSlice | internal/adapter/claude_parser.go:229-236 | Trimming gives the slice from the first to the last character that is not a space, tab, newline, vertical tab, form feed or carriage return. |
| LineParser.ParseLineMeans | internal/adapter/claude_parser.go:229-258 | A line means what that slice means, and nothing if it is empty. |
| LineParser.EventsInOrder | internal/adapter/claude_parser.go:261-307 | The events of a list of lines are those of the lines that have one, once each, in order. |
| LineParser.LinesEndTheText | internal/adapter/claude_parser.go:261-273 | The lines of the stream scanner are the parts between newlines without an empty last one. |
| Identity.Service.SetAccessExpiry | internal/identity/service.go:80-84 | Changes the lifetime of later tokens and nothing else. |
| Identity.Service.CreateChallenge | internal/identity/service.go:92-120 | The live codes stay as they are, or go if there are 1024 of them; used and expired ones go; the new code is live for its time; at most 1024 are held. |
| Identity.Service.PairDevice | internal/identity/service.go:130-183 | Every error case; the code is spent whatever happens; device and token are added exactly for a live code with complete, unused data. |
| Identity.Service.IssueToken | internal/identity/service.go:186-198 | Removes exactly the expired tokens, then adds one bound to the device, unless its value is still taken; all others stay as they are. |
| Identity.Service.RefreshToken | internal/identity/service.go:202-216 | Unknown keys and revoked devices get an error and change nothing; otherwise a token for the device with that key. |
| Identity.Service.AuthorizeToken | internal/identity/service.go:220-239 | Ok(d) if and only if the token exists, is not past its expiry and belongs to d, a known device that is not revoked; device-revoked if and only if all that holds of a revoked device; token-invalid otherwise. |
| Identity.Service.RevokeDevice | internal/identity/service.go:245-259 | Marks one known device revoked; tokens stay. |
| Identity.AuthorizeAtOnce | internal/identity/service.go:220-239 | The three steps of an authorisation with nothing in between add a grant if and only if the verdict is Ok, for that device, and change nothing else. |
| Identity.PairAtOnce | internal/identity/service.go:130-198 | The steps of a pairing with nothing in between spend the code and add the device and one token, as PairDevice does. |
| Identity.RefreshAtOnce | internal/identity/service.go:186-216 | The steps of a refresh with nothing in between prune and add one token for the device with that key. |
| Identity.SingleStepsAct | internal/identity/service.go:80-259 | A revocation marks one device; the lifetime, the clock and a new code change just what they name. |
| Identity.RefusalsAct | internal/identity/service.go:130-216 | Steps that are refused: an unknown, used or expired code, incomplete or known device data, an unknown key or a revoked device. |
| Identity.PairedThenAuthorized | internal/identity/service.go:92-239 | The whole way from a new code: the paired device is authorised for fifteen minutes and until it is revoked, and then no more. |
| Identity.PruningIsInvisible | internal/identity/service.go:292-294 | In every reachable state every token gets, at the current time, the verdict it would get from a table that never deletes. |
| Identity.PruningChangesNoRun | internal/identity/service.go:186-239 | Over whole runs: unless a call fetches its token with a reading older than a prune, the same run on a table that never deletes passes through the same states but for the deleted rows, and grants the same. |
| Identity.UntimelyFetchIff | internal/identity/service.go:220-228 | One fetch takes the two apart if and only if its token was pruned while alive at its reading. |
| Identity.StaleReadingIff | internal/identity/service.go:220-228 | At any reading of the clock the verdicts agree if and only if the token was not pruned while alive at that reading. |
| Identity.NoEarlierThanPrunes | internal/identity/service.go:220-294 | A reading no earlier than any with which tokens were deleted gives every token the verdict of a table that never deletes. |
| Identity.OrderOfPruneMatters | internal/identity/service.go:220-228 | A call in flight goes on or is refused depending on whether it fetches before or after the prune. |
| Identity.GrantsAreBacked | internal/identity/service.go:220-239 | Every authorisation was for a token issued to that device and alive when the call read the clock. |
| Identity.RevocationIsPermanent | internal/identity/service.go:220-259 | Over every interleaving a revoked device stays revoked and is never authorised again, not even by a call under way that has not yet read the device row. |
| Identity.OneCodeOneDevice | internal/identity/service.go:92-183 | Over every interleaving a code pairs at most one device, every device was paired by an issued code, at most 1024 codes are held. |
| Identity.KeysStayUnique | internal/identity/service.go:130-183 | Over every interleaving no two devices share a public key. |
| Identity.ChallengesAreBounded | internal/identity/service.go:88-118 | Adding a code to any map leaves at most 1024. |

## Left out

- HTTP, JSON and SQL text, drivers, logging, metrics, configuration, process spawning, pipes and signals: plumbing without state worth proving here; tables are modelled as sequences and maps with their constraints and atomic commit.
- Android screens, view models and key stores; the mirror of the persistent cursor store; the seeding and live merge of the timeline in the repository class: only the cursor gate, the hello and the apply logic are modelled.
- One `handleMessage` is one atomic step. The Kotlin code launches a coroutine per frame around a check and a set that are not atomic together; frames may be handled in any order, but two handlers do not overlap.
- EventSync follows one session and one device; events of other sessions enter as foreign frames, a foreign send is one step, and the choice a select makes on a closed client is modelled for the followed session's sends and for the flush (`late`), not for foreign sends. What a device does over REST after a resync notice is left out, so no completeness is claimed once a notice has been sent.
- Hub.Broadcaster.ReplayAndSubscribe: runs without other goroutines in between; the interleavings are the subject of EventSync.
- Hub.ReplayIsPage: on an unpurged journal; what purging does to a page is PurgeNeverSilent.
- Journal.CursorRepository.Replay: reads one state; what happens between its statements is the subject of ReplayContinuesIff.
- Journal.ReplayContinuesIff: nondecreasing timestamps, a surviving newest row and a monotone clock are hypotheses of the history; NoHoleIff, StartCursorIsSilent and NumberingSurvivesPurge say what happens without them. With retention 0 the code asks for no boundary and never expires a cursor.
- ConcurrentAppends.AlwaysNumbered: a purge is not one of its steps; other insert errors, such as a repeated message id, are the Rollback step.
- ClientQueue.Client.Close: the callback that unsubscribes the client is part of the hub's methods.
- ClientQueue.RunEvolves: a send and the mark it may lead to are one step; in the code another goroutine may close the client between the two, so slow and 4001 can also be set on a client that was closed for another reason.
- ApprovalBridge.DoubleDecisionIff: a `Request` is one step, so no `Decide` falls between its write to memory and its INSERT; the miss, the load and the settling of a `Decide` are steps of their own. The notification channels of the bridge are not modelled.
- PermissionFlow covers one run with distinct tool-use ids, each approval requested once (what a repeated request does is the subject of ApprovalBridge); the fallback that writes to the agent's standard input has no effect on the answer and is left out.
- McpPermission.Serve: cancellation of the context and the scanner's line limit are left out.
- SessionMachine.CasKeepsTheMachine: between a startup and a shutdown; the lifecycle manager writes without an expected state and is modelled on its own. Run rows are left out, and so is an observer whose approval request the bridge rejects.
- Lifecycle.Manager.Start: storage succeeds, start and shutdown do not overlap, and sessions are visited in no particular order; which runs drain in time is a parameter.
- Lifecycle.Manager.ReconcileOnStartup: the branches in which storage fails, which also count a session as failed, are left out with that hypothesis.
- Lifecycle.Manager.Shutdown: waiting is not modelled, only which runs have drained when it ends.
- Redaction.IsSensitiveKey: lower-casing is ASCII only; strings are byte sequences. Values of other Go types pass through as `Opaque`.
- Redaction.Writer.Record: JSON encoding, database errors and the entry's type and target columns are left out.
- Redaction.SafePatternIff: needs one character that occurs neither in the pattern nor in the mark, for the text that exhibits a survivor.
- LineParser.ParseBuffer: one line's meaning is a parameter that sees the trimmed line; white space is ASCII; the degraded flag of the parser is left out. The adapter's read loop does not prepend the remainder (internal/adapter/claude/claude.go:252-253), so the chunking theorem is about the parser and a caller that does.
- Identity.Service.AuthorizeToken: database errors other than a missing row are left out; random codes, ids and token values are parameters, fresh in the step system.
- HTTP idempotency replay, the protocol dispatcher, the error catalogue, manifest validation, backoff, encryption and file handling: only easy members, or foreign libraries.
