# Garrison's protocols, modelled and proved in Dafny

Garrison runs AI agents in containers under a Go supervisor and lets an operator steer them from a
TypeScript dashboard. What is hard in it is not any single function but a handful of small protocols
in which several writers, failing calls and crashes meet. This project models those protocols and
proves what they guarantee over every run, input or interleaving; where the code does not keep what
its comments promise, the exact condition under which it does is proved instead.

Run `dafny verify dfyconfig.toml`.

| file | what it models |
|---|---|
| `Broker.dfy`, `BrokerSafety.dfy`, `BrokerHandle.dfy`, `ActionPolicy.dfy` | the action broker: claim, gate, fetch, post, commit by any number of dispatchers, against operators' decisions |
| `Docker.dfy`, `ShapeReconcile.dfy`, `Reconcile.dfy` | the two boot-time container walks over a Docker engine any of whose calls may fail or lose its reply |
| `ChatPolicy.dfy`, `ChatStream.dfy`, `ToolChips.dfy` | the live answer and its tool chips, supervisor and dashboard |
| `ChatTurns.dfy`, `ChatTurnsSafety.dfy`, `ChatWorker.dfy` | turn allocation, per-session mutex, cost cap, recovery sweeps |
| `Demux.dfy` | the raw-stream demultiplexer |
| `Invites.dfy` | invite redemption |
| `ScheduleAudit.dfy`, `ScheduleRaces.dfy`, `ScheduleStamps.dfy` | scheduled-task actions against their audit rows: as whole transactions, with reads and writes apart, and in the order of `created_at` |
| `Catchup.dfy`, `CatchupPaging.dfy` | the activity feed's catch-up: one page, and call after call |
| `PathTree.dfy`, `Throttle.dfy`, `Channels.dfy` | the path trie, the dedupe window, the channel printer and parser |

How the protocols are modelled: a state, a `Step` per database statement, network call or crash
(carrying its outcome), and a total `Apply`. A step whose actor is not ready, or that a lock blocks,
changes nothing, so a run is any sequence of steps at all and theorems quantify over all sequences.
The imperative code itself is modelled as classes and methods that change their fields; a method is
proved to be a path of those steps, or equal to a function about which the theorems are proved.
Row locks, uniqueness constraints and commit or rollback are kept; every outcome of a database,
network or vault call, every read chunk and every clock reading is a parameter.

## Where the code and its comments disagree

- Broker, operator side: a decision that lost the race is described as a no-op. The status update is;
  the outcome row is inserted all the same (`BrokerSafety.HistoryCleanIff`, `BrokerSafety.RejectedYetPosted`).
- Broker, claim: the oldest claimable row is claimed again and again even while it waits for approval,
  and shuts a lone dispatcher out of the rows behind it (`BrokerHandle.HeadOfLineBlocks`).
- Demultiplexer: the comment promises an error for a frame cut mid-way. A cut header gives one; a cut
  payload ends like a clean stream (`Demux.CutStream`, `Demux.EndClassified`).
- Shape reconcile: two agents whose ids share eight hex digits share a container name; then no boot
  is ever a no-op (`ShapeReconcile.SecondWalkQuietIff`, `ShapeReconcile.UuidsCollide`).
- Chat ceilings: "first set wins" fails exactly when the tool-call ceiling fires later than another
  (`ChatPolicy.FirstSetWinsIff`, `ChatPolicy.TicketsThenCalls`). The messages say the turn is being terminated; `OnStreamEvent` only
  records and reports, so a turn goes on after a ceiling.
- Live answer: the consumer's scrub branch does not check for a stale block, so order matters
  (`ChatStream.BlockGoesBackIff`, `ChatStream.LateScrubLosesText`).
- Chat sends: `TurnIndexCollision` is never raised; a second collision surfaces as the database error
  (`ChatTurnsSafety.SendWithRetry`). An operator row directly followed by another is never answered
  (`ChatTurnsSafety.FollowedRowNeverAnswered`).
- Invites: a sign-up that made the account but returned no token undoes the claim, so one invite can
  make two accounts (`Invites.TwoAccounts`). The classification is called monotone; the redeemed mark
  is not, and an invite that expires at the very instant of the attempt is reported as already redeemed
  (`Invites.MisreportedIff`).
- Scheduled-task edits: the diff is computed from a row read without a lock
  (`ScheduleRaces.ReplayIsTableIff`, `ScheduleRaces.SilentRevert`, `ScheduleAudit.StaleUndoIff`). And the
  audit rows carry the start of their transaction, not its commit, so of two overlapping edits the table
  may keep one and the audit, read by `created_at`, the other (`ScheduleStamps.ReplayByStartIff`,
  `ScheduleStamps.FirstBegunLastCommitted`).
- Catch-up: without a cursor the comment promises the most recent rows; the query reads the oldest, and
  the page is the most recent one only when everything fits or by one accident
  (`Catchup.NoCursorGivesMostRecentIff`). Unknown channels are dropped after the page limit
  (`Catchup.PageIsFirstEventsIff`). The cursor is called the timestamp of the last delivered event; it is
  that time cut to the millisecond, while the queries compare microseconds. So rows are lost, and rows
  come twice (`CatchupPaging.NextPageContinuesIff`, `CatchupPaging.NothingLostIff`,
  `CatchupPaging.RepeatsFirst`): a row that is not on a whole millisecond is delivered on every call when
  it is the last (`CatchupPaging.SingleRowForEver`), and a page's worth of rows within one millisecond
  stops the paging there (`CatchupPaging.KnownPagingEndsIff`, `CatchupPaging.SameMillisecondStalls`).
  The merge, too, compares milliseconds only (`Catchup.PageOrdered`). The one caller looks its cursor up
  in the outbox alone, so after a page that ends in a vault row it starts over from the oldest
  (`CatchupPaging.ReconnectCursorIff`, `CatchupPaging.VaultRowRestarts`).

## Model

| member | source | states |
|---|---|---|
| BrokerSafety.PostsAccounted | supervisor/internal/actionbroker/dispatcher.go:169-264 | At most once, exactly, in every interleaving with failures anywhere: a row's posts are its one settled post, plus one per run that posted and did not commit, plus the one in flight; so at most 1 + lost commits |
| BrokerSafety.LostCommitAllowsSecondPost | supervisor/internal/actionbroker/dispatcher.go:240-264 | That bound is met: from any claimable, open row a crash between post and commit lets the row be posted twice |
| BrokerSafety.OneHolder | migrations/queries/m11_action_broker.sql:55-70 | No two dispatchers ever hold the same row |
| BrokerSafety.TerminalForever | supervisor/internal/actionbroker/dispatcher.go:178-198 | An executed, failed, rejected or done row keeps its status for ever and is never claimed or posted again |
| BrokerSafety.PostNeedsApproval | supervisor/internal/actionbroker/dispatcher.go:271-321 | Every post is of a row that is not human_only, and if its type is on the floor (whatever the policy table held) or its tier is approve, an operator's approval of that row took effect before it |
| BrokerSafety.VaultFailureNeverPosts | supervisor/internal/actionbroker/dispatcher.go:218-228 | After a failed vault fetch nobody posts the row while the run holds it, and the run can only commit 'failed' |
| BrokerSafety.OutcomesMatchStatus | supervisor/internal/actionbroker/dispatcher.go:323-412 | Executed iff exactly one executed outcome, then exactly one notified iff the tier is notify; failed iff exactly one failed outcome; never both |
| BrokerSafety.ExecutedIffAnswered | supervisor/internal/actionbroker/dispatcher.go:218-264 | Over every run a row is executed iff the run that settled it had posted it and was answered well, and failed iff it was settled by a run that had not posted or was not |
| BrokerSafety.OperatorDecides | dashboard/app/[locale]/(app)/admin/outbox/actions.ts:146-204 | Each verb's undisturbed decision on a pending row: its status, its one outcome and the approval logged; on any other row the action does not start |
| BrokerSafety.RequestedTier | supervisor/internal/actionbroker/policy.go:127-140 | A requested row is pending, and below the approve tier iff the table says so and the type is not the comment on the floor |
| BrokerSafety.HistoryCleanIff | dashboard/app/[locale]/(app)/admin/outbox/actions.ts:146-204 | A row's history is requested / decided / dispatched and nothing else, iff no operator transaction committed on it after it had left 'pending' |
| BrokerSafety.RejectedYetPosted | dashboard/app/[locale]/(app)/admin/outbox/actions.ts:157-198 | The race itself: two operators, one approval and one rejection both recorded, and the row is posted |
| Broker.StepKeeps | supervisor/internal/actionbroker/dispatcher.go:169-412 | Every step of dispatchers and operators keeps the invariant tying locks, runs, rows, histories and the log of posts together |
| BrokerHandle.Dispatcher.Handle | supervisor/internal/actionbroker/dispatcher.go:169-264 | One pass, whatever its calls return, is a path of the protocol's steps, claims a row than which none claimable is older, and leaves exactly the stated row and posts, no lock and no run behind |
| BrokerHandle.PassMeans | supervisor/internal/actionbroker/dispatcher.go:207-412 | What a pass does to the claimed row, in its own terms: nothing while it waits for approval; executed, and notified on the notify tier, if secret, target and post are fine; failed if one is not; nothing but a lost post if a write or the commit fails |
| BrokerHandle.Dispatcher.Settle | supervisor/internal/actionbroker/dispatcher.go:327-412 | Statement by statement, then commit: all of the plan is written or none of it |
| BrokerHandle.Dispatcher.FindOldest | migrations/queries/m11_action_broker.sql:64-70 | Returns a claimable row than which none is older, and nothing only when nothing is claimable |
| BrokerHandle.Dispatcher.Rollback | supervisor/internal/actionbroker/dispatcher.go:174 | Releases the lock, drops every uncommitted write and records a post that is thereby lost |
| BrokerHandle.Dispatcher.RunLoop | supervisor/internal/actionbroker/dispatcher.go:128-156 | However many ticks and whatever the calls return, the loop is a path of the protocol's steps and leaves no lock and no run behind; a stalled store it never changes |
| BrokerHandle.NoTraceIff | supervisor/internal/actionbroker/dispatcher.go:207-264 | Exactly when a pass that claimed a row leaves no trace |
| BrokerHandle.HeadOfLineBlocks | migrations/queries/m11_action_broker.sql:64-70 | An unapproved approve-tier row older than all others keeps a lone dispatcher from every row behind it |
| BrokerHandle.StalledIff | supervisor/internal/actionbroker/dispatcher.go:296-307 | With distinct ages a store is stalled iff its oldest claimable row is an unapproved approve-tier one |
| ActionPolicy.NestedScopesRestore | supervisor/internal/actionbroker/policy.go:85-95 | Properly nested registrations and cleanups, however deep, restore any policy table |
| ActionPolicy.OverlapRestoresIff | supervisor/internal/actionbroker/policy.go:85-95 | Two cleanups run in the order of registration restore the table iff the types differ or the first changed nothing |
| ActionPolicy.PolicyTable.RegisterTestPolicyEntry | supervisor/internal/actionbroker/policy.go:85-95 | Sets one entry and captures what was there |
| ActionPolicy.PolicyTable.RunCleanup | supervisor/internal/actionbroker/policy.go:88-94 | Puts back what was captured, deleting the entry if there was none |
| ShapeReconcile.TurnKeeps | supervisor/internal/agentcontainer/shape.go:41-101 | One spec's turn under any failures: touches only the container of its name, never takes it further from its shape, reports success in the bucket of the state it found and only when it then runs with that shape; without failures it succeeds with exactly 4, 2, 1 or 0 mutating calls |
| ShapeReconcile.TurnSucceedsIff | supervisor/internal/agentcontainer/shape.go:41-101 | Under any faults, a turn succeeds iff its inspection and every call its container needs is fine, all but the best-effort stop before a replacement |
| ShapeReconcile.RankNeverRises | supervisor/internal/agentcontainer/shape.go:28-39 | Over a whole walk, whatever fails, the rank of an agent no other spec of the list contradicts (same container name, other shape) never goes up, and a reported success means rank 0 at the end |
| ShapeReconcile.UnaddressedUntouched | supervisor/internal/agentcontainer/shape.go:22-24 | Containers of names no valid spec addresses keep id, label and run state, and none appears |
| ShapeReconcile.FailureFreeConverges | supervisor/internal/agentcontainer/shape.go:28-39 | From any Docker state a failure-free walk fails only for invalid specs and leaves every uncontradicted agent present, running and in shape |
| ShapeReconcile.QuietIff | supervisor/internal/agentcontainer/shape.go:80-89 | A failure-free walk makes no mutating call iff every valid spec was already in shape; then nothing changed and all are Unchanged |
| ShapeReconcile.SecondWalkQuietIff | supervisor/internal/agentcontainer/shape.go:28-101 | The second of two failure-free boots does nothing iff no two specs claim one name with different shapes |
| ShapeReconcile.NamesCollide | supervisor/internal/agentcontainer/socketproxy.go:450-458 | Ids name one container iff their first eight digits, dashes left out, agree |
| ShapeReconcile.DashesDropped | supervisor/internal/agentcontainer/socketproxy.go:450-458 | Dashes, wherever they stand, and nothing else is left out of the name |
| ShapeReconcile.CollidingAgentsNeverQuiet | supervisor/internal/agentcontainer/socketproxy.go:450-458 | With any two such agents of different shapes among the specs, a boot after a failure-free one still makes mutating calls, from any Docker state |
| ShapeReconcile.UuidsCollide | supervisor/internal/agentcontainer/socketproxy.go:450-458 | Two UUIDs that do |
| ShapeReconcile.BucketsPartition | supervisor/internal/agentcontainer/shape.go:29-38 | Each agent lands in exactly one bucket or in the joined error |
| ShapeReconcile.ReconcileShape | supervisor/internal/agentcontainer/shape.go:28-39 | The loop changes Docker and fills the report exactly as the walk those theorems are about |
| ShapeReconcile.ReconcileShapeOne | supervisor/internal/agentcontainer/shape.go:41-90 | One iteration, appending to one bucket only on success |
| Docker.Engine.Perform | supervisor/internal/agentcontainer/socketproxy.go:178-239 | A create, start, stop or remove is refused, takes effect, or takes effect and loses its reply; 304 counts as success, 404 and 409 do not |
| Docker.DoMeans | supervisor/internal/agentcontainer/socketproxy.go:178-239 | When a call works and is reported, and what each kind of call leaves of the containers |
| Docker.Engine.ContainerInspect | supervisor/internal/agentcontainer/shape.go:116-130 | Finds the one container of a name, tells absence from failure, and changes nothing |
| Reconcile.FailureFreeReaches | supervisor/internal/agentcontainer/reconcile.go:19-57 | After a failure-free walk every container is what it should be: expected ones run or do not, orphans and to-be-removed ones are gone, unmanaged ones untouched |
| Reconcile.EachAsBeforeOrDesired | supervisor/internal/agentcontainer/reconcile.go:60-119 | Under any failures each managed container ends as it was or as it should be, and as it should be unless the report has a failed call for it |
| Reconcile.SecondPassOnlyReports | supervisor/internal/agentcontainer/reconcile.go:43-55 | A second pass makes no mutating call whatever fails, only adopts, and reports missing exactly the rows missing before or removed by the first pass |
| Reconcile.EntryMeans | supervisor/internal/agentcontainer/reconcile.go:30-57 | Every line of the report is true of the world the caller is left with, whatever failed: adopted containers as they were, restarted ones running, collected ones unwanted and gone, failed calls needed, missing ones missing |
| Reconcile.ReportHolds | supervisor/internal/agentcontainer/reconcile.go:30-119 | The report is complete under any failures: for every listed container, behind the lines of those before it, exactly its line (adopted, restarted, collected or failed, with its agent), and none iff it should be stopped and is, or stops when told |
| Reconcile.MissingHolds | supervisor/internal/agentcontainer/reconcile.go:43-55 | And behind those, in order, one line for each expected row whose container was not listed |
| Reconcile.LastRowCounts | supervisor/internal/agentcontainer/reconcile.go:25-28 | Of several expected rows for one container the last counts |
| Reconcile.ReconcileAll | supervisor/internal/agentcontainer/reconcile.go:25-57 | The three loops (index, walk, missing) do to Docker and the report what those theorems are about; the last row for an id wins |
| Reconcile.IndexById | supervisor/internal/agentcontainer/reconcile.go:25-28 | The last expected row for an id wins |
| Reconcile.ReconcileExpected | supervisor/internal/agentcontainer/reconcile.go:72-119 | One expected container: at most one call and one report line |
| ChatStream.LiveAnswer | supervisor/internal/chat/policy.go:419-477 | For every turn, loss pattern and in-order arrival with re-deliveries among other messages, the dashboard shows what lost scrubs left standing, then a subsequence of the supervisor's answer buffer as it stood at some moment, short by exactly the lost text; with all frames received that moment is now, or the last block that emitted a frame |
| ChatStream.VisibleIsShown | dashboard/lib/sse/chatStream.ts:178-226 | Under any re-deliveries the visible buffer is the text of the frames received since the last scrub or block change, independent of other messages |
| ChatStream.FaithfulMeans | supervisor/internal/chat/policy.go:441-471 | The screen shows the owed text iff nothing was lost and nothing stands in front; for a block that emitted a frame that text is `contentBuf` |
| ChatStream.NoScrubLost | supervisor/internal/chat/policy.go:217-227 | Without a lost scrub nothing ever stands in front |
| ChatStream.TurnMirrored | supervisor/internal/chat/transport.go:82-107 | Frames are numbered increasingly, blocks never go back, and the mirrored text accounts for every lost character |
| ChatStream.LostScrubKeepsPreamble | supervisor/internal/chat/policy.go:217-228 | A lost scrub leaves the preamble in front of the answer; harmless iff nothing was shown |
| ChatStream.BlockGoesBackIff | dashboard/lib/sse/chatStream.ts:194-200 | The block pointer goes back iff an unseen scrub of an earlier block arrives |
| ChatStream.LateScrubLosesText | dashboard/lib/sse/chatStream.ts:194-219 | A late scrub erases the current block's text; harmless iff there was none |
| ChatStream.LateTextDropped | dashboard/lib/sse/chatStream.ts:186-212 | Late text of an earlier block, and any frame seen before, changes no screen |
| ChatStream.ChatStreamStore.Delta | dashboard/lib/sse/chatStream.ts:178-226 | The in-place reducer: dedupe, scrub, reset, drop or append |
| ChatPolicy.ChatPolicy.OnStreamEvent | supervisor/internal/chat/policy.go:419-483 | What each event does to buffer, counters, frames and ceilings |
| ChatPolicy.ChatPolicy.HandleToolUseBlockStart | supervisor/internal/chat/policy.go:217-242 | Scrub, dropped preamble, chip frame, then the three counters and ceilings in order |
| ChatPolicy.ChatPolicy.MaybeFireToolCallCeiling | supervisor/internal/chat/policy.go:349-370 | Fires once and overwrites the bail reason |
| ChatPolicy.EachCeilingOnce | supervisor/internal/chat/policy.go:253-370 | Over a turn each ceiling's error goes out exactly once if its uses exceed its limit and never otherwise, and the bail reason is the tool-call ceiling's whenever that fired |
| ChatPolicy.FirstSetWinsIff | supervisor/internal/chat/policy.go:349-354 | The first ceiling to fire names the bail reason iff the tool-call ceiling did not fire after another |
| ChatPolicy.TicketsThenCalls | supervisor/internal/chat/policy.go:217-262 | With the default limits, eleven tickets and then forty more calls: the ticket ceiling fires first, the bail reason is the other |
| ChatPolicy.LimitsAre | supervisor/internal/chat/policy.go:99-111 | Configured ceilings are kept; those not positive become 50, 10 and 3 |
| ChatPolicy.ChatPolicy.OnUser | supervisor/internal/chat/policy.go:167-198 | One frame per tool result that gets out, in order, and the event kept for the envelope |
| ToolChips.LiveEqualsRebuiltIff | dashboard/lib/sse/replay.ts:18-61 | For every well-formed log and every loss of frames, live and rebuilt chips are equal iff every use went out and, for each, the last result sent after it says what the last one stored says; with every use out they agree in ids, names and order anyway |
| ToolChips.FramesAreSent | supervisor/internal/chat/policy.go:167-346 | The frames these results are about are what the policy sends: over every turn, in order, one use frame per tool_use start with an id and one result frame per tool result, of those that get out, and nothing else |
| ToolChips.CollectMeans | dashboard/lib/sse/replay.ts:28-43 | Whatever ids an envelope repeats: one chip each, named by the last use |
| ToolChips.CollectKeepsPlaces | dashboard/lib/sse/replay.ts:22-43 | And in the place of the first |
| ToolChips.NothingMissedIff | dashboard/lib/sse/chatStream.ts:287-312 | Without losses that is: no used id has results only from before its use |
| ToolChips.ReloadShowsTheSame | dashboard/lib/sse/chatStream.ts:256-312 | Under any re-deliveries, once all frames that went out arrived, the chips on screen are the chips a reload rebuilds iff those frames missed nothing |
| ToolChips.NoLossNothingMissed | supervisor/internal/chat/policy.go:167-198 | Which is so when no frame was lost and results follow their uses |
| ToolChips.RedeliveryHarmless | dashboard/lib/sse/chatStream.ts:269-286 | Re-delivered and foreign frames never change a message's list |
| ToolChips.SentResultsStored | supervisor/internal/chat/policy.go:167-198 | When all go out, the results sent as frames are, in order, the results stored in the envelope |
| ToolChips.ReconstructToolCalls | dashboard/lib/sse/replay.ts:18-61 | The two nested passes compute the list those theorems are about |
| ToolChips.ToolStore.ToolResult | dashboard/lib/sse/chatStream.ts:287-312 | Updates every chip of that id and no other |
| ToolChips.ToolStore.ToolUse | dashboard/lib/sse/chatStream.ts:256-286 | Appends one chip per message and id, ever |
| ChatTurnsSafety.TurnsContiguous | supervisor/internal/chat/worker.go:120-149 | In every reachable state a session's indices are exactly 0..n-1 and every assistant row directly follows an operator row |
| ChatTurnsSafety.AnsweredIffNewest | supervisor/internal/chat/worker.go:120-126 | A worker's answer row goes in, and its turn spawns, iff its operator row is still the newest |
| ChatTurnsSafety.SweptIffNewest | supervisor/internal/chat/listener.go:235-263 | However late it writes, the orphan sweep only answers the newest row, and then the session is closed |
| ChatTurnsSafety.OrphanFoundIff | migrations/queries/chat.sql:182-200 | The sweep can find an operator row iff it is the newest of an active session |
| ChatTurnsSafety.FollowedRowNeverAnswered | dashboard/lib/actions/chat.ts:101-126 | An operator row directly followed by another is never answered in any later state |
| ChatTurnsSafety.TwoSendsInARow | dashboard/lib/actions/chat.ts:88-126 | And two sends before a worker locks produce such a row, from any active session |
| ChatTurnsSafety.RowForever | migrations/queries/chat.sql:71-85 | A row keeps its role for as long as its session exists; a deleted session never comes back |
| ChatTurnsSafety.SessionBegins | dashboard/lib/actions/chat.ts:51-79 | How a started and an empty session begin |
| ChatTurnsSafety.DeletedForever | dashboard/lib/actions/chat.ts:277-299 | A deleted session never returns, in any run |
| ChatTurnsSafety.CostBounded | supervisor/internal/chat/persistence.go:46-62 | With the cap enabled a session's total stays below the cap plus what its most recently spawned turn rolled up; the total is always the sum of everything rolled up |
| ChatTurnsSafety.ClearedIff | supervisor/internal/chat/worker.go:105-117 | A worker is cleared to spawn iff its session is there and active, and the cap is off or not reached |
| ChatTurnsSafety.ClosedGainsNothing | supervisor/internal/chat/persistence.go:28-40 | A closed session stays as it was closed, and turns checked after that never roll a cost up into it, in any run |
| ChatTurnsSafety.ResultMeans | supervisor/internal/chat/policy.go:589-602 | A committed result adds its cost, one not committed nothing |
| ChatTurnsSafety.OneWorkerPerSession | supervisor/internal/chat/worker.go:101-103 | No two workers are ever inside the same session |
| ChatTurnsSafety.SendWithRetry | dashboard/lib/actions/chat.ts:101-139 | A send gets through iff its first attempt does, or collides and the second does; TurnIndexCollision never surfaces |
| ChatTurnsSafety.SendStartsIff | dashboard/lib/actions/chat.ts:88-100 | A send starts on an active session only |
| ChatTurnsSafety.SendInsertMeans | dashboard/lib/actions/chat.ts:101-139 | Its row goes in where the index is free; a collision sends it back once |
| ChatTurns.StepKeeps | supervisor/internal/chat/worker.go:91-150 | Every step of sends, workers, sweeps, endings and deletions keeps the invariant behind these |
| ChatWorker.AcquireAll | supervisor/internal/chat/sessionmutex.go:26-44 | Two callers get the same mutex iff they name the same session; invalid ids share one |
| ChatWorker.SessionMutexRegistry.AcquireForSession | supervisor/internal/chat/sessionmutex.go:26-35 | The registry keeps every mutex it ever handed out and never hands out one for two keys |
| ChatWorker.ChatStore.HandleMessageInSession | supervisor/internal/chat/worker.go:91-150 | One undisturbed turn is a path of the protocol's steps, releases the mutex on every path, and leaves exactly the stated rows, total and roll-ups |
| ChatWorker.TurnMeans | supervisor/internal/chat/worker.go:91-150 | In the session's own terms: unread or followed, nothing; not active or at its cap, a failed answer and no cost; else an answer and the committed costs |
| ChatWorker.CommittedCostsMean | supervisor/internal/chat/policy.go:589-602 | The costs kept are those of the committed results, in order |
| ChatWorker.ChatStore.SpawnTurn | supervisor/internal/chat/policy.go:589-602 | Each committed result is added to the total once, in its own transaction; uncommitted ones leave no trace |
| ChatWorker.ChatStore.RunOrphanOperatorSweep | supervisor/internal/chat/listener.go:199-229 | Each orphan whose transaction commits gets its aborted answer and an aborted session, independent of the others' failures; nothing else changes |
| Demux.RoundTrip | supervisor/internal/agentcontainer/demux.go:24-58 | Demultiplexing the encoding of any frame list gives exactly the concatenated payloads of each side |
| Demux.BigEndianOrder | supervisor/internal/agentcontainer/demux.go:46 | Sizes compare as their bytes do, most significant first |
| Demux.UnknownStreamEndsBoth | supervisor/internal/agentcontainer/demux.go:40-45 | An unknown stream byte ends both sides with that error, after everything before it |
| Demux.CutIsPrefix | supervisor/internal/agentcontainer/demux.go:24-58 | Cutting any byte string anywhere leaves both outputs prefixes of the uncut ones |
| Demux.CutStream | supervisor/internal/agentcontainer/demux.go:46-54 | A framed stream cut after k bytes errs iff the cut is inside a header, and no payload byte among the k is lost |
| Demux.EndClassified | supervisor/internal/agentcontainer/demux.go:60-74 | For every byte string: which of the three ends both readers see |
| Demux.BytesDelivered | supervisor/internal/agentcontainer/demux.go:46-54 | For every byte string: exactly the whole frames and the cut payload after them are delivered |
| Demux.DemuxRawStream | supervisor/internal/agentcontainer/demux.go:24-58 | The loop, under every read chunking, gives both pipes exactly those bytes and closes both with the same end |
| Demux.ReadFull | supervisor/internal/agentcontainer/demux.go:30-33 | Under any chunking, a full header or how the stream ended |
| Demux.CopyN | supervisor/internal/agentcontainer/demux.go:47-54 | Under any chunking, the payload in order, or what there was of it and the end |
| Invites.OneHolder | dashboard/lib/auth/invites.ts:109-121 | At most one redeemer holds an invite's claim, and a held invite is redeemed, unrevoked and unstamped |
| Invites.InviteAccounts | dashboard/drizzle/schema.dashboard.ts:172-175 | Never both revoked and redeemed; at most one stamp; accounts made equal claims undone after making one, plus the current claim's |
| Invites.OnlyHolderReopens | dashboard/lib/auth/invites.ts:167-176 | An invite becomes unredeemed again iff its claim holder's undo commits |
| Invites.RevokedForever | dashboard/lib/auth/invites.ts:77-88 | A revoked invite is never claimed, redeemed or un-revoked in any run |
| Invites.ClaimedIff | dashboard/lib/auth/invites.ts:109-121 | A claim takes exactly an invite that is there, unrevoked, unredeemed and not yet expired; otherwise nothing happens |
| Invites.ExpiredForever | dashboard/lib/auth/invites.ts:109-121 | No run without a claim before the expiry ever takes, redeems or stamps the invite |
| Invites.RevokedIff | dashboard/lib/auth/invites.ts:77-88 | A revocation takes effect on exactly the unredeemed invites that are there |
| Invites.GeneratedIs | dashboard/lib/auth/invites.ts:41-52 | A new invite is open until the instant it is given |
| Invites.StampedForever | dashboard/lib/auth/invites.ts:178-187 | A stamped redemption keeps its user and is never reopened or revoked |
| Invites.TwoAccounts | dashboard/lib/auth/invites.ts:156-176 | One invite makes two accounts when the first sign-up lost its token or reply |
| Invites.MisreportedIff | dashboard/lib/auth/invites.ts:123-145 | On an unchanged row AlreadyRedeemed is wrong iff both clock readings are the expiry itself |
| Invites.StepKeeps | dashboard/lib/auth/invites.ts:77-190 | Every step of redeemers, revokers and crashes keeps the invariant behind these |
| Invites.InviteStore.RedeemInvite | dashboard/lib/auth/invites.ts:103-190 | One undisturbed redemption is a path of the protocol's steps and ends with the stated columns and answer, for every outcome of its calls |
| Invites.RedeemedMeans | dashboard/lib/auth/invites.ts:103-190 | By the invite as found: refused for the first reason that holds and unchanged (expired if so at the lookup), or signed in and stamped, given back, or left claimed, as its calls go |
| Invites.InviteStore.RevokeInvite | dashboard/lib/auth/invites.ts:77-88 | Revokes only an invite that is neither revoked nor redeemed |
| ScheduleAudit.ReplayIsTable | dashboard/lib/actions/scheduledTasks.ts:312-339 | For every sequence of actions and ticks, folding the audit rows gives the live table, next_fire_at excepted on rows ticked since |
| ScheduleAudit.NamesStayUnique | dashboard/drizzle/schema.supervisor.ts:497 | Live names stay unique over every run |
| ScheduleAudit.EditUndone | dashboard/lib/actions/scheduledTasks.ts:405-473 | An edit row's `before` undoes the edit, and both sides name exactly the fields that changed |
| ScheduleAudit.DeleteSnapshots | dashboard/lib/actions/scheduledTasks.ts:608-637 | A delete row's pre_state is the row deleted and what the earlier audit replays to |
| ScheduleAudit.CreateMeans | dashboard/lib/actions/scheduledTasks.ts:271-347 | A task is created iff its trimmed fields are given, its schedule validates and no live task has its name; row and audit row outright |
| ScheduleAudit.EditMeans | dashboard/lib/actions/scheduledTasks.ts:442-530 | When an edit takes effect; column by column what it leaves, next_fire_at moving only with a new expression |
| ScheduleAudit.FlagsMean | dashboard/lib/actions/scheduledTasks.ts:534-637 | When a pause, resume, delete and tick take effect, and what each changes and audits |
| ScheduleAudit.EditPatchMeans | dashboard/lib/actions/scheduledTasks.ts:366-403 | An edit is turned down iff empty or blanking a name, role or template; what is trimmed and what is not |
| ScheduleAudit.TrimMeans | dashboard/lib/actions/scheduledTasks.ts:277-280 | Trimming takes all blanks off both ends and nothing else |
| ScheduleAudit.SpacesAre | dashboard/lib/actions/scheduledTasks.ts:277-280 | What counts as a blank, by code point (ECMA-262, sections 12.2 and 12.3) |
| ScheduleAudit.StaleReplayIff | dashboard/lib/actions/scheduledTasks.ts:447-464 | With a stale prior row, replay still matches iff each patched column that equalled the row read still equals it |
| ScheduleAudit.StaleUndoIff | dashboard/lib/actions/scheduledTasks.ts:447-470 | And `before` still undoes iff every patched column, and next_fire_at if it moved, was as read |
| ScheduleRaces.ReplayIsTableIff | dashboard/lib/actions/scheduledTasks.ts:442-637 | Over every interleaving of reads, writes and ticks the audit, in the order of commits, replays to the live table at every moment, iff no edit committed that put back, unrecorded, a column changed since its read; stale pauses, resumes and deletes never break it |
| ScheduleStamps.ReplayByStartIff | dashboard/drizzle/schema.supervisor.ts:385-398 | Over every interleaving and every choice of transaction starts, the audit in the order of `created_at` replays to the live table at every moment, iff no edit reverted so and no row was committed behind a later-begun one of its task that sets the same column to something else (or, for a deletion, creates it) |
| ScheduleStamps.StepByStartIff | dashboard/lib/actions/scheduledTasks.ts:442-637 | Step by step: where the fold in the order of starts gave the table, it still does iff neither happens |
| ScheduleStamps.InOrderNeverOvertaken | dashboard/drizzle/schema.supervisor.ts:385-398 | Nothing is overtaken while each row committed on a task began no earlier than those before it, as when no two transactions on a task overlap |
| ScheduleStamps.FirstBegunLastCommitted | dashboard/lib/actions/scheduledTasks.ts:447-470 | The overlap itself: two edits of one row's role, neither a revert; the first begun commits last, the table has its role and the audit by `created_at` ends with the other |
| ScheduleStamps.TableIsAudit | dashboard/drizzle/schema.supervisor.ts:385-398 | The stamped table is the audit row for row, sorted by `created_at` |
| ScheduleRaces.SilentRevert | dashboard/lib/actions/scheduledTasks.ts:447-470 | The race itself: a role change is undone with an empty diff, and replay keeps it |
| ScheduleRaces.UndisturbedEdit | dashboard/lib/actions/scheduledTasks.ts:442-470 | Undisturbed between read and write, an edit is the one transaction it looks like |
| ScheduleRaces.UndisturbedPauseOrDelete | dashboard/lib/actions/scheduledTasks.ts:534-637 | So are a pause and a deletion |
| ScheduleRaces.UndisturbedResume | dashboard/lib/actions/scheduledTasks.ts:564-603 | And a resume, its check and its transaction apart |
| ScheduleRaces.LateWriteOnlyAudits | dashboard/lib/actions/scheduledTasks.ts:447-637 | A write to a row deleted since its read changes no row and is audited all the same |
| ScheduleRaces.AbandonedLeavesNoTrace | dashboard/lib/actions/scheduledTasks.ts:526-559 | An action given up leaves no trace |
| ScheduleRaces.NamesStayUniqueInRaces | dashboard/drizzle/schema.supervisor.ts:497 | Live names stay unique in every interleaving |
| ScheduleAudit.BuildEditAuditDiff | dashboard/lib/actions/scheduledTasks.ts:405-437 | The loop over the patch computes the two sides of the diff |
| ScheduleAudit.ScheduledTasks.EditScheduledTask | dashboard/lib/actions/scheduledTasks.ts:442-530 | Validation, not-found, collision and success, on table and audit |
| ScheduleAudit.ScheduledTasks.CreateScheduledTask | dashboard/lib/actions/scheduledTasks.ts:271-347 | Validation, collision and success, on table and audit |
| ScheduleAudit.ScheduledTasks.ResumeScheduledTask | dashboard/lib/actions/scheduledTasks.ts:564-603 | Undisturbed: the check outside the transaction, the validation, then the transaction |
| ScheduleAudit.ScheduledTasks.RunResumeTransaction | dashboard/lib/actions/scheduledTasks.ts:585-598 | The transaction alone, which does not look at the flag: clears it, moves next_fire_at and audits both |
| ScheduleAudit.ScheduledTasks.PauseScheduledTask | dashboard/lib/actions/scheduledTasks.ts:534-559 | Sets the flag of an unpaused live row and audits it |
| ScheduleAudit.ScheduledTasks.DeleteScheduledTask | dashboard/lib/actions/scheduledTasks.ts:608-642 | Soft-deletes a live row and audits its full pre-state |
| PathTree.BuildTreeFromPaths | dashboard/components/ui/PathTreeView.tsx:55-78 | The heap tree grown in place is a trie: leaves are exactly the normalised non-empty inputs, nodes exactly their prefixes, siblings have distinct labels, a node's prefix is its parent's plus its label |
| PathTree.SamePathsSameTree | dashboard/components/ui/PathTreeView.tsx:57-58 | The represented set depends on neither order nor repeats |
| PathTree.NodesArePrefixes | dashboard/components/ui/PathTreeView.tsx:62-70 | The nodes are the root and exactly the prefixes of the inputs, and each node's own prefix string splits back into its position |
| PathTree.LeavesAreInputs | dashboard/components/ui/PathTreeView.tsx:59-75 | The leaves are exactly the inputs that are not blank |
| PathTree.SegmentsSplit | dashboard/components/ui/PathTreeView.tsx:59 | Splitting at any slash is splitting both sides; a word without one is its only segment |
| PathTree.JoinedSplits | dashboard/components/ui/PathTreeView.tsx:59-64 | Printing a position and splitting it round-trip |
| PathTree.JoinedNormal | dashboard/components/ui/PathTreeView.tsx:61-64 | A printed prefix begins with a slash, and every slash in it is followed by a word |
| PathTree.LeafStrings | dashboard/components/ui/PathTreeView.tsx:59-73 | The strings on the leaves are exactly the inputs with slashes normalised, the blank ones left out |
| PathTree.Tree.AddPath | dashboard/components/ui/PathTreeView.tsx:59-75 | One path adds exactly its prefixes as nodes and itself as a leaf |
| PathTree.Tree.Descend | dashboard/components/ui/PathTreeView.tsx:66-70 | Finds the child of that label or pushes exactly one |
| Catchup.PageIsFirstEventsIff | dashboard/lib/queries/activityCatchup.ts:46-111 | The capped merge is the first `cap` events of the full one iff no later known row belongs before position `cap` |
| Catchup.PageIsFirstEvents | dashboard/lib/queries/activityCatchup.ts:46-111 | In particular when the outbox page was not full or dropped nothing |
| Catchup.PageOrdered | dashboard/lib/queries/activityCatchup.ts:96-111 | In all cases the page is ordered by millisecond, keeps each table's order, and puts the outbox strictly first on ties; the only events out of database order are an outbox row before an earlier vault row of its millisecond |
| CatchupPaging.NextPageContinuesIff | dashboard/lib/queries/activityCatchup.ts:44-111 | A page of the two capped, filtered queries and all that the next call sees past the truncated cursor make up the full merge iff no known row cut off belongs before the page's end, the first row off the page in each table is later than the cursor, and no row of the page is |
| CatchupPaging.NothingLostIff | dashboard/lib/queries/activityCatchup.ts:54-74 | What is lost: with distinct rows, a page and all later calls deliver or still see every known event iff the first row off the page in each table is later than the truncated cursor |
| CatchupPaging.OnlyTiesLost | dashboard/lib/queries/activityCatchup.ts:54-74 | If no cut-off row belongs on the page, the events lost are exactly those off it whose time is the cursor itself |
| CatchupPaging.RepeatsFirst | dashboard/lib/queries/activityCatchup.ts:54-74 | What comes twice: then exactly the page's events later than the cursor, in their order, at the head of the next page |
| CatchupPaging.DrainDeliversAllIff | dashboard/lib/queries/activityCatchup.ts:40-112 | Over distinct rows, any number of calls beyond the number of rows delivers every known event, in order and once, iff every page along the way is in order, loses nothing and repeats nothing, and none stays behind the last |
| CatchupPaging.NeverDeliveredIff | dashboard/lib/queries/activityCatchup.ts:40-112 | An event is never delivered, however many calls are made, iff before a page has it the paging ends, a page repeats for ever, or the truncated cursor passes it |
| CatchupPaging.PagingEndsIff | dashboard/lib/queries/activityCatchup.ts:54-80 | After as many calls as there are rows the page is empty, and stays so, iff no page on the way was stuck, that is, had a truncated cursor before every row it saw; otherwise the page repeats for ever |
| CatchupPaging.KnownPagingEndsIff | dashboard/lib/queries/activityCatchup.ts:54-80 | With every channel known: paging ends iff the newest event is on a whole millisecond and no millisecond has a page or more of events past its beginning |
| CatchupPaging.NewestNeverEnds | dashboard/lib/queries/activityCatchup.ts:68-77 | Whatever the channels, a vault row later than every row's truncated time keeps every page from being empty |
| CatchupPaging.DeliveredIsPages | dashboard/lib/queries/activityCatchup.ts:40-112 | What n + 1 calls deliver is what n deliver and then the page of the next call |
| CatchupPaging.FetchAtIsPageAt | dashboard/lib/queries/activityCatchup.ts:54-74 | Asking the whole tables with the cursor each call leaves is paging through what is left of them, for it never goes back |
| CatchupPaging.SameMillisecondStalls | dashboard/lib/queries/activityCatchup.ts:54-80 | Rows at 200 and 700 microseconds of one millisecond, pages of one: the first on every call, the second never |
| CatchupPaging.SingleRowForEver | dashboard/lib/queries/activityCatchup.ts:54-80 | A single row past the beginning of its millisecond is delivered on every call |
| CatchupPaging.ReconnectCursorIff | dashboard/app/api/sse/activity/route.ts:119-135 | A reconnection has the last page's truncated cursor iff the page ends in an outbox row; after a vault row it has none |
| CatchupPaging.ConnectionIs | dashboard/app/api/sse/activity/route.ts:44-58 | A connection without a cursor gets the oldest page of two hundred, any other the rows after its cursor |
| CatchupPaging.VaultRowRestarts | dashboard/app/api/sse/activity/route.ts:44-58 | Over any number of reconnections: once a catch-up ends in a vault row, the following ones go through the same pages from the oldest again |
| CatchupPaging.RowLostForGood | dashboard/lib/queries/activityCatchup.ts:56-80 | A known row never delivered: behind an unknown one at the page limit, overtaken by a vault row whose truncated time is not before it |
| CatchupPaging.EmptyPageIff | dashboard/lib/queries/activityCatchup.ts:79-80 | A page is empty, and the cursor stays, iff its outbox rows are all unknown and the vault is quiet |
| CatchupPaging.UnknownPageStalls | dashboard/lib/queries/activityCatchup.ts:79-80 | Then paging has ended, and the known rows behind are never delivered |
| CatchupPaging.ShortPageContinues | dashboard/lib/queries/activityCatchup.ts:56-80 | A page short of the first `cap` events may still lose nothing |
| CatchupPaging.OnlyOutOfOrder | dashboard/lib/queries/activityCatchup.ts:79-111 | The order is a condition of its own: a page that loses nothing and repeats nothing, and is still not the merge's |
| Catchup.NoCursorGivesMostRecentIff | dashboard/lib/queries/activityCatchup.ts:29-33 | For all streams of distinct rows, the page without a cursor is the last `cap` events of the full merge iff everything fits and nothing known was cut off, or the outbox page is all unknown and exactly `cap` vault rows all come last |
| Catchup.FetchEventsAfter | dashboard/lib/queries/activityCatchup.ts:40-112 | The clamp, the cursor filter and the merge loop compute that page, at most 500 events |
| Catchup.CapIs | dashboard/lib/queries/activityCatchup.ts:44 | The limit asked for, clamped to 1 and 500 |
| Catchup.MergePages | dashboard/lib/queries/activityCatchup.ts:96-110 | The index loop is the merge by millisecond with ties to the first stream |
| Throttle.ThrottleStreamStore.PushEvent | dashboard/lib/sse/throttleStream.ts:53-74 | For every arrival sequence: `events` is the newest-first last 100 of the accepted, ids distinct, and `seenIds` exactly their ids |
| Throttle.DuplicatesFarApart | dashboard/lib/sse/throttleStream.ts:60-68 | An id is accepted again only a hundred acceptances later |
| Throttle.AcceptedIffArrived | dashboard/lib/sse/throttleStream.ts:53-74 | An id has been accepted iff an event with it ever arrived |
| Channels.MoveRoundTrip | dashboard/lib/sse/channels.ts:233-250 | For any three strings, the printed move parses back to them iff they are slugs, and otherwise to unknown, never to another move |
| Channels.ParsedMovePrints | dashboard/lib/sse/channels.ts:233-250 | A channel that parses to a move is the one that move prints |
| Channels.PrinterInjective | dashboard/lib/audit/events.ts:75-93 | Given slugs in their alphabets, two events print the same channel iff they are the same event in the same department |
| Channels.PrintedChannels | dashboard/lib/audit/events.ts:75-93 | The printed channels, word for word; a move without a department is refused |
| Channels.KindsHaveChannels | dashboard/lib/sse/events.ts:16-140 | The kinds of event on literal channels and the listed channels correspond one to one, and the parser recognises each |
| Channels.Alphabets | dashboard/lib/sse/channels.ts:57-70 | The three character classes, spelled out |
| Channels.UnknownIff | dashboard/lib/sse/channels.ts:252-319 | A channel is unknown iff it is off the allowlist or a vault channel of an unhandled kind |
| Channels.SelectedVaultRowsKnown | dashboard/lib/queries/activityCatchup.ts:65-77 | Every vault outcome the catch-up selects becomes its own kind of event |
| Channels.SelectedIffHandled | dashboard/lib/sse/channels.ts:256-305 | The outcomes selected are exactly those the parser handles |

## Left out

- ChatStream.LiveAnswer: assumes the message's frames arrive in order; what happens otherwise is `BlockGoesBackIff` and `LateScrubLosesText`.
- ToolChips.LiveEqualsRebuiltIff: says nothing of a chip's arguments or result text, which the two sides take from different events.
- ScheduleAudit.ReplayIsTable: takes each transaction as one step; `ScheduleRaces.ReplayIsTableIff` does not.
- ScheduleRaces.ReplayIsTableIff: reads the audit in the order of commits, which the audit table does not record; `ScheduleStamps.ReplayByStartIff` reads it by `created_at`.
- ScheduleStamps.ReplayByStartIff: audit rows of one and the same `created_at` stay in the order of their commits.
- ShapeReconcile.FailureFreeConverges: containers that exit by themselves between calls, and paused or restarting ones (on which a start can fail), are not part of this model; a container runs or does not.
- Catchup.FetchEventsAfter: the tables are given as sorted streams; SQL is not modelled, and a `timestamptz` is taken to arrive as the Date the code declares.
- CatchupPaging.DrainDeliversAllIff: no row is written between the calls.
- CatchupPaging.VaultRowRestarts: nor do live events come between a connection's catch-up and the next.
- JSON, SHA-256 and regular-expression engines: decoded datatypes, an opaque shape hash and character classes stand in. `buildCreateBody` is its hash, or its rejection of the spec.
- Commit replies: a commit either happens and is known to, or does not happen.
- The demultiplexer's pipe readers: closing one early and the goroutine's lifetime.
- The committed answer's status and error kind (`commitAssistantTerminal`), token counts and per-message cost; only the session's roll-up is kept. Costs are integers, so rounding of the float comparison is out.
- Message statuses and the pending-message sweep: it appears as closing the session.
- Audit rows written by the chat verb for scheduled tasks, ownership checks, archiving, and the tick's run rows.
- Locale order of the sorted paths, React rendering, EventSource lifecycle, HTTP, configuration, logging, timing and backoff.
- `FakeController` and the `ClaimFn` test seam.
