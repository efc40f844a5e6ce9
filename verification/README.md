# AORT-R runtime state machines, in Dafny

AORT-R runs language-model agents the way an operating system runs processes. Agents share context
through a content-addressed page store (the CVM), are picked by a token-aware scheduler, exchange page
references over a blackboard, work in per-agent file trees, and are checkpointed, watched and restarted
by a server. This project models those machines and proves what they promise. `dafny verify
dfyconfig.toml` checks all of it.

The page store is at the centre. Under deduplication, in-place compression, reference counting and
eviction, an agent should see the plain concatenation of the texts it mounted:

- `CvmModel.dfy` specifies each call as a step on a value; `CvmStore.dfy` is the class with the source's
  fields, whose methods and loops are proved against those steps.
- `CvmIndex.dfy`, `CvmBytes.dfy` and `CvmLedger.dfy` hold what every run keeps: page tables and owners
  agree, bytes are conserved, reference counts equal holders. `CvmLedger.dfy` also states the release
  discipline: a release by `""` uses up a create handle, a release by an agent needs the page mounted.
- `CvmRefinement.dfy` proves that the store refines a map from agent to list of texts.
- `PageUse.dfy` says what a page's flag, counts and times tell of the run so far, and that eviction and
  compression go by exactly that.

Around it:

- `SchedulerModel.dfy`, `SchedulerChoice.dfy`, `SchedulerPolicies.dfy` and `Scheduler.dfy` are the four
  policies, `Fairness.dfy` repeats select-then-charge, `Dispatch.dfy` is the server's launch loop, and
  `DispatchInputs.dfy` what each of its turns decides on.
- `Blackboard.dfy` is the topic log, `GatewayModel.dfy` and `Gateway.dfy` the system calls, and
  `Exchange.dfy` the interleaving of polls, publishes and store calls, one lock region a step, with
  `ExchangeOrder.dfy` on the order of one poll's mounts and the runs that lose it, `PollSchedules.dfy` on
  several polls at once, and `Spawn.dfy` on a child's inherited pages.
- `FileTrees.dfy` is the removal and copy loops, each free to fail after any entry, `Workspace.dfy` the
  per-agent trees built on them and `WorkspaceManager.dfy` the object that does so. `WorkspaceSteps.dfy` says
  what one step achieves, `WorkspaceRuns.dfy` what holds over runs in which anything may fail, and
  `WorkspaceSnapshots.dfy` what base snapshots give the agents prepared from them.
  `Names.dfy` is the safe-name function of the two file-keeping stores.
- `Checkpoint.dfy` and `Recovery.dfy` are snapshots and restarts, `Dag.dfy` the task graph, `Hub.dfy` the
  event hub, and `Registry.dfy` the worker registry with its failure detector.
- `Prelude.dfy`, `Sorting.dfy` and `Avp.dfy` are shared: sums over maps, stable insertion sort, agents.

Some promises that read well do not hold of the code. Each is stated with an input that breaks it and the
condition under which it holds:

- a delta of text the agent already mounts appends nothing (`CvmRefinement.DeltaAppendsOnce`);
- a page published and then forgotten fails the poll, and a failed poll is not repeated
  (`ExchangeOrder.ForgottenPageFailsPoll`, `GatewayModel.FailedPollIsNotRepeated`);
- two polls of one subscriber at once can mount out of log order (`ExchangeOrder.OverlappingPollsReorder`,
  `PollSchedules.SchedulesKeepOrderIff`);
- after a restart reports and registry disagree when tasks share an agent id that one has finished and another
  has not (`Recovery.CollidingIds`, `Recovery.RestartMatchesReportIff`);
- a failed commit is not rolled back, and an overlay record that lost its mount loses a command's output in a
  commit that reports success (`GatewayModel.FailedCommitKeepsChanges`, `WorkspaceSteps.CommitKeepsWorkIffMounted`);
- vruntime distances and the prefix-affinity window are right up to 2^53 and not beyond
  (`SchedulerChoice.DistanceExactIff`, `SchedulerChoice.WindowHoldsIff`);
- `LoadLatest` can return another task's snapshot, or lose one, when safe names collide
  (`Checkpoint.LoadLatestIffUndisturbed`);
- a rollback with a mount that is stuck empties the agent's view (`WorkspaceSnapshots.StuckRollbackEmptiesView`);
- an agent whose safe name is that of the task directory deletes all base snapshots
  (`WorkspaceSnapshots.TasksAgentLosesBases`);
- a rebuild or destroy that fails half way can cost a workspace its lower tree
  (`WorkspaceRuns.LowerSafeIffUndamaging`);
- a state set before registration hides the agent's heartbeats (`Registry.ContactRecordedIffOwnEntry`), and a
  restored agent keeps its old last contact (`Checkpoint.RestoredSurvivesTickIff`).

## Model

| member | source | states |
|---|---|---|
| `CvmStore.Store.CreatePage` | internal/cvm/store.go:95-129 | content already stored gains a reference and counts the bytes and tokens saved; new content gets a fresh page; an empty kind is refused |
| `CvmStore.Store.MountPage` | internal/cvm/store.go:131-156 | an unknown page is an error that changes nothing; a page already in the table changes no table and no count; otherwise it is appended and referenced, and the agent becomes an owner |
| `CvmStore.Store.WriteDelta` | internal/cvm/store.go:158-167 | a delta is a create followed by a mount of its hash, and the mount error cannot occur |
| `CvmStore.Store.Materialize` | internal/cvm/store.go:169-190 | the loop over the table reads what the recursive specification reads, counts the accesses, and stops at the first page that cannot be read |
| `CvmStore.Store.TouchPage` | internal/cvm/store.go:192-204 | one access more and a new access time, or an error for an unknown page |
| `CvmStore.Store.PinPage` | internal/cvm/store.go:206-217 | only the pinned flag changes, or an error for an unknown page; that the flag is then set, and stays set, is `PageUse.PinnedPagesStay` |
| `CvmStore.Store.ReleasePage` | internal/cvm/store.go:219-236 | the count falls unless it is zero, whoever releases; a named agent loses the page from its table and from the owners, `""` loses nothing |
| `CvmStore.Store.CompressColdPages` | internal/cvm/store.go:238-273 | whatever the map order, exactly the uncompressed, unpinned pages at or below the access limit are compressed, and the two results are their number and their saving |
| `CvmStore.Store.EvictColdPages` | internal/cvm/store.go:275-311 | a negative budget or one already met changes nothing; otherwise the loop evicts along some sorted order of the candidates, any order of ties being possible; which pages that takes is `PageUse.EvictsLeastUsedInEveryRun` |
| `CvmStore.Store.EvictInOrder` | internal/cvm/store.go:294-307 | the loop with its running byte count is the recursive specification of eviction |
| `CvmStore.Store.CurrentBytes` | internal/cvm/store.go:426-432 | the loop over the map is the order-free sum of the resident bytes |
| `CvmStore.AppendUniqueString` | internal/cvm/store.go:447-457 | appends a non-empty value that is not there yet, and leaves every other list alone |
| `CvmStore.RemoveString` | internal/cvm/store.go:459-467 | the in-place filter leaves the list without the value, order kept |
| `CvmModel.Packed` | internal/cvm/store.go:238-273 | the stored form of a page is never longer than its text: gzip output that does not help is dropped |
| `CvmIndex.ApplyKeepsIndex` | internal/cvm/store.go:95-311 | with no discipline on callers every call keeps: tables hold no duplicates and only live pages, and the owners of a page are exactly the non-empty agents whose table lists it, once each |
| `CvmIndex.IndexInEveryRun` | internal/cvm/store.go:131-236 | hence in every run, and no reachable state gives any agent the missing-page error |
| `CvmBytes.EvictionMeetsBudget` | internal/cvm/store.go:275-311 | eviction drops the shortest prefix of its order that meets the budget, or all of it; it reports exactly the bytes and pages that went; tables lose exactly the victims; nothing else changes |
| `CvmBytes.EvictionTakesColdest` | internal/cvm/store.go:275-299 | without a budget nothing goes; otherwise at the end the budget is met or every page left is referenced or pinned. Survivors are untouched, victims were unreferenced and unpinned, and each was accessed less often than any such survivor, or as often but no later |
| `CvmBytes.CompressionSavesWhatItReports` | internal/cvm/store.go:238-273 | the reported saving is the drop in resident bytes and the rise of the counter, never negative, and the reported number is the number of pages newly compressed |
| `CvmBytes.CallConservesBytes` | internal/cvm/store.go:238-311 | every call: resident bytes + compression savings + bytes it freed = before + bytes it created, and live + evicted pages grow by the pages it created |
| `CvmBytes.BytesConservedInEveryRun` | internal/cvm/store.go:400-432 | over every run, bytes ever created = resident bytes + compression savings + bytes ever freed, and pages ever created = live + evicted |
| `CvmLedger.StepKeepsLedger` | internal/cvm/store.go:95-156 | every balanced step keeps: the reference count of a live page is its open create handles plus unfinished deltas on it plus the tables listing it, and a held page is live |
| `CvmLedger.LedgerInEveryRun` | internal/cvm/store.go:219-236 | hence in every balanced run |
| `CvmLedger.EvictionSparesTables` | internal/cvm/store.go:292-303 | in such a state the table scrub inside eviction changes nothing: a mounted page is never a candidate |
| `CvmLedger.HeldPagesSurvive` | internal/cvm/store.go:275-299 | in every balanced run a pinned page, or one that anybody holds, survives eviction with any budget |
| `CvmLedger.DraftMountNeverFails` | internal/cvm/store.go:158-167 | with the two halves of a delta as separate steps and any balanced steps of others in between, the mount half succeeds and the page is in the table |
| `PageUse.PinnedPagesStay` | internal/cvm/store.go:206-217 | in every balanced run a page pinned while live is live and pinned at every later point, whatever is released and evicted |
| `PageUse.PinnedIffAsked` | internal/cvm/store.go:206-299 | and the flag is set on exactly the pages that some step pinned while live |
| `PageUse.UsesCountedInEveryRun` | internal/cvm/store.go:131-204 | in every balanced run the access count of a page is one for its creation and one for each touch, mount into a table and read of a table since, and its access time is that of the last |
| `PageUse.EvictsLeastUsedInEveryRun` | internal/cvm/store.go:275-299 | an eviction at any point of any balanced run takes only pages that nobody holds and nobody ever pinned, each used in that run less often than any such page it leaves, or as often but no later; it meets its budget unless only claimed pages are left |
| `PageUse.CompressesLeastUsedInEveryRun` | internal/cvm/store.go:238-273 | compression at any point of any balanced run takes exactly the plain, never pinned, non-empty pages used at most the given number of times, or once where that is less, and leaves the shorter of gzip form and text |
| `PageUse.BornInEveryRun` | internal/cvm/store.go:95-129 | a page keeps the kind and time of the step that first brought it, whoever creates its content again as another kind |
| `PageUse.SavingsInEveryRun` | internal/cvm/store.go:101-147 | in every balanced run the bytes and tokens reported as saved are those of the texts created while already there and of the texts mounted while more than one holder had them |
| `CvmRefinement.StepRefines` | internal/cvm/store.go:95-311 | every balanced step of the store is a step of a machine that keeps only a list of texts per agent, in which touch, pin, compress, evict and read do nothing |
| `CvmRefinement.RefinementInEveryRun` | internal/cvm/store.go:95-311 | hence over every balanced run, interleaved deltas included |
| `CvmRefinement.AgentsReadWhatTheyMounted` | internal/cvm/store.go:169-190 | in every balanced run an agent reads the concatenation, in mount order, of the distinct texts it still mounts |
| `CvmRefinement.OthersReadTheSame` | internal/cvm/store.go:158-190 | a step of one agent, or of nobody, leaves what every other agent reads unchanged |
| `CvmRefinement.DeltaAppendsOnce` | internal/cvm/store.go:138-142 | a finished delta appends its text to the agent's list unless the agent has it already, and then appends nothing |
| `CvmRefinement.CompressionKeepsText` | internal/cvm/store.go:400-417 | a compressed page still reads as the text it was created with |
| `Scheduler.Scheduler.constructor` | internal/scheduler/scheduler.go:83-88 | an empty policy means fifo; the affinity threshold is 50 |
| `Scheduler.Scheduler.SetPolicy` | internal/scheduler/scheduler.go:90-100 | exactly the four known policies are accepted, and an unknown one changes nothing |
| `Scheduler.Scheduler.Select` | internal/scheduler/scheduler.go:142-157 | no ready candidate: no decision and no change; otherwise the policy's choice among the ready ones is returned, remembered, and logged with the ids it was chosen from; what each policy chooses is `SchedulerPolicies` |
| `Scheduler.Scheduler.RememberLast` | internal/scheduler/scheduler.go:135-140 | the agent remembered is the one later picks share pages with |
| `Scheduler.Scheduler.SelectPrefixAffinity` | internal/scheduler/scheduler.go:181-202 | the loop with its running best is the specified scan |
| `Scheduler.Scheduler.SelectResourceAware` | internal/scheduler/scheduler.go:204-218 | the loop over scores is the specified maximum |
| `Scheduler.Scheduler.CountShared` | internal/scheduler/scheduler.go:310-327 | the loops count, per candidate, the pages it shares with the last agent |
| `Scheduler.Scheduler.FilterReady` | internal/scheduler/scheduler.go:342-350 | the READY candidates, in order |
| `SchedulerChoice.FifoIsEarliest` | internal/scheduler/scheduler.go:352-358 | fifo picks the first candidate that nobody precedes in creation time |
| `SchedulerChoice.TokenCfsIsLowest` | internal/scheduler/scheduler.go:360-369 | token-CFS picks the first candidate that nobody precedes in (vruntime, creation time) |
| `SchedulerChoice.AffinityScanIsBest` | internal/scheduler/scheduler.go:188-200 | the scan ends on the most shared pages among those near the base; the base wins ties, then the earliest candidate |
| `SchedulerChoice.PrefixAffinityMaximizesSharing` | internal/scheduler/scheduler.go:181-202 | with unique ids the pick shares the most pages with the last agent among the candidates within the threshold of the minimum, and is the minimum itself unless it shares more |
| `SchedulerChoice.SharedPagesCounts` | internal/scheduler/scheduler.go:310-327 | with unique ids each count is the number of entries of the candidate's page lists found among the last agent's pages |
| `SchedulerChoice.ResourceAwareIsTop` | internal/scheduler/scheduler.go:204-218 | the pick is the first candidate that none beats by score, ties going to the earlier creation and then the earlier index |
| `SchedulerChoice.DominantNeverScoresLower` | internal/scheduler/scheduler.go:220-247 | a candidate at least as good on every input never scores lower, through clamping, rounding and every pressure |
| `SchedulerChoice.ChooseIsCandidate` | internal/scheduler/scheduler.go:167-179 | whatever the policy, the choice is one of the candidates |
| `SchedulerChoice.ChooseWithinWindow` | internal/scheduler/scheduler.go:181-202 | token-CFS always picks a minimum vruntime; prefix affinity, while vruntimes are at most 2^53, picks within the threshold of every candidate |
| `SchedulerChoice.DistanceExactUpTo` | internal/scheduler/scheduler.go:371-373 | up to 2^53 the float distance is the exact difference |
| `SchedulerChoice.DistanceExactIff` | internal/scheduler/scheduler.go:371-373 | it is exact for all vruntimes up to a bound if and only if the bound is at most 2^53 |
| `SchedulerChoice.WindowFailsAbove` | internal/scheduler/scheduler.go:181-202 | at every threshold up to 2^53, the default 50 included, an agent threshold + 1 above the minimum is picked once it lies at 2^53 + 1 |
| `SchedulerChoice.WindowHoldsIff` | internal/scheduler/scheduler.go:181-202 | at every such threshold the window holds for all vruntimes up to a bound if and only if the bound is at most 2^53 |
| `SchedulerPolicies.FifoPicks` | internal/scheduler/scheduler.go:176-177 | under "fifo" and every unknown policy the choice is the first candidate with the least creation time |
| `SchedulerPolicies.TokenCfsPicks` | internal/scheduler/scheduler.go:169-170 | under "token-cfs" it is the first candidate with the least vruntime and, among those, the least creation time |
| `SchedulerPolicies.CountedShares` | internal/scheduler/scheduler.go:310-327 | with unique ids a candidate's count is the number of its page-table and context entries that the last pick lists in either |
| `SchedulerPolicies.PrefixAffinityPicks` | internal/scheduler/scheduler.go:171-202 | under prefix affinity, with unique ids, it is the token-CFS pick, or the first candidate near that one that shares more with the last pick than it and as much as any near candidate |
| `SchedulerPolicies.NearMeansWithin` | internal/scheduler/scheduler.go:371-373 | up to 2^53 near means a vruntime at most the threshold above |
| `SchedulerPolicies.ResourceAwarePicks` | internal/scheduler/scheduler.go:204-218 | under the resource-aware policy, with unique ids, it is the first candidate with the top score under the counted shares and, among those, the least creation time |
| `SchedulerPolicies.ScoreWeighs` | internal/scheduler/scheduler.go:220-229 | to half a thousandth the score is 1000/(1 + vruntime), 30 a shared page and 5 a priority level, less 180, 160, 120 and 90 times the memory, process, throttling and stall loads, each the larger of the candidate's own and the global one cut to 0..1 |
| `SchedulerPolicies.ReadyInOrder` | internal/scheduler/scheduler.go:342-350 | the candidates chosen among are exactly the READY ones, in the order given |
| `Fairness.ChargeTracksTokens` | internal/scheduler/scheduler.go:329-340 | one positive charge moves vruntime by at least 1 and at most the tokens, and weight times the gain is less than one weight off the tokens |
| `Fairness.RefundWrapsIff` | internal/scheduler/scheduler.go:329-340 | a charge of no or negative tokens lowers the vruntime by its truncated share, wrapping round to the top exactly when that is more than there is |
| `Fairness.SpreadBounded` | internal/scheduler/scheduler.go:329-373 | over every run of select-then-charge on ready agents with gains at most D, the spread stays within the larger of the initial one and K + D; prefix affinity needs vruntimes up to 2^53, token-CFS only that no charge wraps around |
| `Fairness.NobodyStarves` | internal/scheduler/scheduler.go:167-202 | in every such run longer than the sum of max(0, v_a + K + 1 - v_j) over the other agents, a waits at most that many turns before it is picked |
| `Fairness.VRuntimeTracksTokens` | internal/scheduler/scheduler.go:329-340 | after n charges at weight w, w times the vruntime gained is within n(w - 1) of the tokens charged |
| `Dispatch.RunDispatch` | internal/api/server.go:307-320 | the loop terminates and launches what the specification launches, deciding each turn under the pressure just read and resampling it after the decision; it ends early when nothing is ready or a start fails |
| `Dispatch.SchedulerCandidates` | internal/api/server.go:1407-1432 | the registered pending agents, READY, with their page tables and, where it can be read, their usage, in order; the greatest pressures read replace the scheduler's |
| `Dispatch.PopSpec` | internal/api/server.go:1552-1561 | one spec comes out and the others stay: nothing is lost or doubled |
| `Dispatch.PopsTheSpec` | internal/api/server.go:1552-1561 | with unique ids it is the spec of the chosen agent that comes out |
| `Dispatch.EachLaunchedOnce` | internal/api/server.go:307-320 | with unique registered ids and successful starts, under every policy, each spec is launched exactly once |
| `Dispatch.TokenCfsLaunchesInOrder` | internal/api/server.go:307-320 | under token-CFS the launch order holds each candidate once, sorted by vruntime and then creation time, and keeps the order of those that agree on both |
| `Dispatch.AffinityLaunchesNearMinimum` | internal/api/server.go:307-320 | under prefix affinity the next launch is within the threshold of every pending vruntime |
| `Dispatch.AffinityLaunchesInWindow` | internal/api/server.go:307-320 | hence over the whole launch order no launch is ahead of a later one by more than the threshold |
| `DispatchInputs.CandidatesSeen` | internal/api/server.go:1411-1426 | the candidates of a turn are, in order, the registered pending agents: their registry entries made READY, with their current page tables and any usage read, and nothing else changed |
| `DispatchInputs.TurnPressure` | internal/api/server.go:1409-1430 | a turn that reads no usage keeps the pressure it has; otherwise each of the four pressures is the greatest read, cut to 0..1 and rounded to thousandths |
| `DispatchInputs.EveryTurnDecides` | internal/api/server.go:307-320 | every launch is what the policy picks among exactly the specs not launched before it, against the launch before it, under the pressure read in that turn or else sampled after the turn before |
| `DispatchInputs.LaunchesUntilFailure` | internal/api/server.go:307-320 | with unique registered ids the loop launches all specs, or stops exactly where a spec it picked does not start |
| `Blackboard.Blackboard.Publish` | internal/ipc/blackboard.go:54-78 | a negative size counts as zero, an empty mode as page-reference; the message is appended and both totals grow |
| `Blackboard.Blackboard.Poll` | internal/ipc/blackboard.go:80-102 | the rest of the log from the subscriber's offset, which moves to the end; the metric adds up the delivered sizes |
| `Blackboard.Blackboard.Metrics` | internal/ipc/blackboard.go:104-113 | in every consistent state the totals reported are the sums over all topics of log lengths and of message sizes |
| `Blackboard.After` | internal/ipc/blackboard.go:47-134 | in every run total is the sum of log lengths, the avoided copies the sum of message sizes, and no offset lies beyond its log |
| `Blackboard.LogIsPublished` | internal/ipc/blackboard.go:54-78 | in every run a topic's log is what was published on it, in order |
| `Blackboard.DeliveredExactlyOnce` | internal/ipc/blackboard.go:80-102 | in every run the concatenation of a subscriber's poll results is the topic log up to its offset: each message once, in order |
| `Blackboard.NeverDeliveredAgain` | internal/ipc/blackboard.go:80-102 | in every run, after a poll the subscriber is handed only messages published since, whatever became of the poll |
| `Blackboard.SubscribersIndependent` | internal/ipc/blackboard.go:80-102 | polls of other subscribers or other topics change neither the offset, nor the log, nor what is delivered |
| `Exchange.SubscribedInEveryRun` | internal/syscall/gateway.go:373-484 | for CVM steps, publishes and half-done polls interleaved at every lock region: every page awaited by a subscriber that the run retains stays protected, and every delivered one is mounted or about to be |
| `Exchange.PollMountsNeverFail` | internal/syscall/gateway.go:458-469 | in every such run each mount of a poll succeeds |
| `Exchange.PolledPagesAreMounted` | internal/syscall/gateway.go:450-484 | in every such run, when this subscriber's own polls of the topic are done, whatever others do, its page table holds every page id of the log up to the offset |
| `ExchangeOrder.PollAppendsInOrder` | internal/syscall/gateway.go:450-469 | in every such run, whatever the agent's table held when a poll began and however others interleave, the poll appends its new pages in log order, as far as it has come, while the agent makes no other mount and no release |
| `ExchangeOrder.OrderInEveryRun` | internal/syscall/gateway.go:458-469 | so when the agent polls one topic only, one poll at a time, and mounts nothing else, its table is at every moment the mounted prefix of the log: each id once, in log order |
| `ExchangeOrder.PolledInLogOrder` | internal/syscall/gateway.go:458-469 | and between its polls the whole log up to the offset |
| `ExchangeOrder.OverlappingPollsReorder` | internal/syscall/gateway.go:458-469 | a run with every page retained in which two polls at once leave the table in the opposite order |
| `PollSchedules.SchedulesKeepOrderIff` | internal/syscall/gateway.go:458-469 | for any pending polls of a subscriber, every schedule of their mounts, others interleaving, keeps the table a beginning of what they append in the order they began, if and only if each poll alone appends such a beginning |
| `ExchangeOrder.ForgottenPageFailsPoll` | internal/syscall/gateway.go:373-448 | for every budget below the page's size, a run in which a published page loses its only reference, is evicted, and the poll that delivers it cannot mount it |
| `Gateway.Gateway.Audit` | internal/syscall/gateway.go:155-200 | one record with agent, name and final status is put after all earlier ones |
| `Gateway.Gateway.Handle` | internal/syscall/gateway.go:155-231 | a call is served by its name, leaves exactly one record, changes no machine but those of its kind, and is denied if nobody serves the name |
| `Gateway.Gateway.ContextMaterialize` | internal/syscall/gateway.go:303-335 | controls first, and a failed control reads nothing; then the read; one audit record in every case |
| `Gateway.Gateway.ApplyCvmControls` | internal/syscall/gateway.go:337-356 | pins in order up to the first unknown page, then compression if asked, then eviction if asked |
| `Gateway.Gateway.ContextWriteDelta` | internal/syscall/gateway.go:358-371 | missing content is denied and changes nothing; otherwise the delta is written |
| `Gateway.Gateway.IpcPublish` | internal/syscall/gateway.go:373-448 | denied without topic, page id or a known page; the size defaults to the page's, and a shared-memory mode that failed falls back to page-reference |
| `Gateway.Gateway.IpcPoll` | internal/syscall/gateway.go:450-484 | the poll moves the offset, then the mounts run up to the first failure; page ids are returned only if all succeed |
| `Gateway.Gateway.AgentSpawn` | internal/api/server.go:1746-1775 | without a spawner an error, without a role a denial; otherwise an unknown child is registered, a workspace made if it has none and attached, and the child mounts its parent's page table |
| `Gateway.Gateway.AgentReport` | internal/syscall/gateway.go:592-601 | an empty status is denied; otherwise the registry records the report |
| `Gateway.ReportSetsState` | internal/syscall/gateway.go:592-601 | a report that is passed on leaves the agent in the state it names, where its entry is its own or new |
| `Gateway.EnlistedOnce` | internal/api/server.go:1746-1775 | a spawned child is registered as created, on its task and in its role, unless it is known; nobody else's entry changes |
| `Gateway.Gateway.LlmCall` | internal/syscall/gateway.go:233-258 | without a client an error that reads nothing; without a prompt the agent's context is read, with all a read changes, and is the prompt; an empty one is denied |
| `Gateway.Gateway.ToolExec` | internal/syscall/gateway.go:486-554 | an empty command is denied; the workspace is made first; a working directory that escapes or cannot be made ends the call there; otherwise commit on success and rollback on failure or timeout |
| `GatewayModel.ControlsInvisible` | internal/syscall/gateway.go:303-356 | in every balanced run, materialize with any pin, compress and evict arguments reads what it reads with none, and is an error exactly when a pin id is unknown |
| `GatewayModel.PinAllOkIffKnown` | internal/syscall/gateway.go:337-343 | the pins succeed exactly when every id is known |
| `GatewayModel.ControlsPin` | internal/syscall/gateway.go:341-355 | after the controls, eviction included, exactly the pages pinned before and those named ahead of the first unknown one are pinned, and all of them are there; accepted controls pin every page named |
| `GatewayModel.ControlsMeetBudget` | internal/syscall/gateway.go:352-354 | accepted controls with a budget meet it or leave only referenced and pinned pages; without a budget, or refused, they drop nothing |
| `GatewayModel.ControlsCompressCold` | internal/syscall/gateway.go:346-351 | of the pages left, exactly those are newly compressed that were plain, unpinned, not to be pinned, not empty and used at most the given number of times, or once; none if refused or not asked |
| `GatewayModel.MountAllAppendsInOrder` | internal/syscall/gateway.go:462-469 | the mounts of a poll succeed exactly when every id is known, append the new ids in log order, and touch no other table |
| `GatewayModel.AppendAllNewKeeps` | internal/syscall/gateway.go:462-469 | the table afterwards extends the old one, without duplicates, by exactly the delivered ids |
| `GatewayModel.FailedPollIsNotRepeated` | internal/syscall/gateway.go:458-469 | a poll fails exactly when it is handed an unknown page, and in every run its messages are in no later delivery |
| `GatewayModel.ChildInheritsParent` | internal/api/server.go:1762-1766 | with nothing in between, a child, known or new, ends with its own pages and then its parent's new ones, in the parent's order |
| `Spawn.SpawnInherits` | internal/api/server.go:1762-1766 | the same over every balanced run with others interleaving between the mounts, while the parent releases nothing and the child mounts nothing else |
| `GatewayModel.FailedToolLeavesLower` | internal/syscall/gateway.go:531-546 | a failed or timed-out command with no workspace error leaves the view equal to lower, and lower and the committed output as they were, on the call that makes the workspace too |
| `GatewayModel.FailedToolRestoresSeed` | internal/syscall/gateway.go:531-546 | in every run such a command gives an agent whose workspace was not damaged its seed back |
| `GatewayModel.FailedCommitKeepsChanges` | internal/syscall/gateway.go:547-551 | a failed commit is an error but is not rolled back: the view is what the command made it, on the call that makes the workspace too |
| `GatewayModel.CommitFailsIff` | internal/syscall/gateway.go:547-551 | the commit fails exactly when a step of it does, something is marked deleted, or the manifest's name is a directory |
| `FileTrees.RemoveTree` | internal/workspace/manager.go:903-923 | the removal loop: entry after entry in any order, stopping where it fails |
| `FileTrees.RemovalEmpties` | internal/workspace/manager.go:715-725 | a removal succeeds exactly when it is not stopped, then leaves nothing, and otherwise leaves exactly what it had not got to |
| `FileTrees.CopyTree` | internal/workspace/manager.go:855-883 | the copy loop: into whatever the destination holds, blocked by a file in a directory's place or a deletion mark |
| `FileTrees.CopyLaysPrefix` | internal/workspace/manager.go:855-901 | a copy lays exactly the entries it got to over what was there, and stops only where it is stopped or blocked |
| `FileTrees.CopyOverlays` | internal/workspace/manager.go:855-901 | it succeeds exactly when it is not stopped and nothing blocks it, and the destination is then overlaid with the whole source |
| `WorkspaceManager.Manager.Create` | internal/workspace/manager.go:583-652 | the loops empty the old directories, seed the new ones and mount or copy; each failure leaves what was removed or copied by then |
| `WorkspaceManager.Manager.PrepareAgent` | internal/workspace/manager.go:404-430 | needs both ids and a recorded base; if the base is gone the old workspace is already removed |
| `WorkspaceManager.Manager.CreateBaseSnapshot` | internal/workspace/manager.go:369-402 | the base is emptied and filled file by file; a failure leaves the files written so far and no new task record; what a success leaves is `WorkspaceSnapshots.SnapshotTakesFiles` |
| `WorkspaceManager.Manager.Commit` | internal/workspace/manager.go:183-230 | the output is emptied, and the upper layer of an overlay record or the whole plain copy is copied into it, with a manifest; a failure stops where it happens |
| `WorkspaceManager.Manager.Rollback` | internal/workspace/manager.go:232-299 | the upper layer is emptied and remounted, or the mount given up for a refilled copy, or the copy refilled; a failure stops where it happens |
| `WorkspaceManager.Manager.Destroy` | internal/workspace/manager.go:301-323 | directories and records go together; a removal that fails keeps the record over what it left; when is `WorkspaceSnapshots.DestroyedIff` |
| `WorkspaceSteps.RollbackRestores` | internal/workspace/manager.go:232-299 | a rollback that reports no error leaves the merged view equal to lower in overlay, degraded and fallback modes and records an overlay exactly where one is mounted; none alters lower or the committed output |
| `WorkspaceSteps.RollbackSucceedsIff` | internal/workspace/manager.go:232-299 | it reports no error exactly when its loops run to the end and an overlay is remounted, or unmounted and replaced by a copy |
| `WorkspaceSnapshots.StuckRollbackEmptiesView` | internal/workspace/manager.go:238-264 | a rollback that can neither unmount nor mount again fails and leaves the agent an empty view |
| `WorkspaceSteps.CommitPublishes` | internal/workspace/manager.go:183-230 | a commit changes nothing but the output; it succeeds exactly when no step fails and nothing is marked deleted, and then publishes exactly the upper layer of an overlay record, or the plain copy |
| `WorkspaceSteps.ManifestListsFiles` | internal/workspace/manager.go:206-222 | the manifest of a commit names its agent and exactly the files published, no directory among them |
| `WorkspaceSteps.CommittedOutputGivesBack` | internal/workspace/manager.go:183-230 | while an overlay record is mounted, committed output over lower gives back every file of the view, and brings deleted files back exactly where a directory above them was deleted or replaced |
| `WorkspaceSteps.CommitKeepsWorkIffMounted` | internal/workspace/manager.go:183-230 | for an overlay record, whatever a command writes is in a commit that reports success if and only if the mount is there or the stale layer cannot be published |
| `WorkspaceRuns.LostOutputRun` | internal/workspace/manager.go:232-270 | there is a run that ends with a command's file missing from a successful commit: create, a rollback that unmounts and then fails, the command |
| `WorkspaceRuns.IsolatedInEveryRun` | internal/workspace/manager.go:179-323 | in every run, failures anywhere included, an agent's record and trees change only by its own operations |
| `WorkspaceRuns.LowerIsSeedInEveryRun` | internal/workspace/manager.go:583-652 | in every run, other agents' failures included, a workspace none of whose own operations damaged it keeps as lower tree the seed last written |
| `WorkspaceRuns.LowerSafeIffUndamaging` | internal/workspace/manager.go:301-323 | an operation is safe for an existing lower tree, wherever its failing loops stop, exactly when it does not remove the directories, in whole or part, without seeding them again |
| `WorkspaceRuns.RollbackRestoresSeed` | internal/workspace/manager.go:232-299 | hence in every such run a successful rollback gives the agent its seed back |
| `WorkspaceSnapshots.SnapshotTakesFiles` | internal/workspace/manager.go:369-402 | a snapshot succeeds exactly when it names a task and no loop fails; the task is then recorded and its base holds exactly the given files. It touches no other base, no other task and no agent in any case |
| `WorkspaceSnapshots.BaseInEveryRun` | internal/workspace/manager.go:369-402 | in every run a base holds the files last taken for it until another snapshot of it is attempted |
| `WorkspaceSnapshots.MadeIff` | internal/workspace/manager.go:583-652 | a workspace is made exactly when its place could be cleared, its whole seed written, and an overlay mounted or the seed copied; it is recorded as what it is, shows its seed and has no output |
| `WorkspaceSnapshots.TasksAgentLosesBases` | internal/workspace/manager.go:583-612 | an agent filed under the name of the task directory costs every task its base, and can be prepared from none |
| `WorkspaceSnapshots.NothingMade` | internal/workspace/manager.go:404-412 | without an agent, a task or a recorded base, or with the runtime root for a directory, nothing is made and nothing changes |
| `WorkspaceSnapshots.PreparedGetsFiles` | internal/workspace/manager.go:404-430 | in every run an agent prepared from a task has as lower tree and view exactly the files last taken for the task, and no output |
| `WorkspaceSnapshots.PreparedKeepsFiles` | internal/workspace/manager.go:404-430 | its lower tree stays those files, whatever it, others and later snapshots do, until it is remade or removed |
| `WorkspaceSnapshots.PreparedRollsBackToFiles` | internal/workspace/manager.go:232-299 | and every rollback that succeeds until then shows them again |
| `WorkspaceSnapshots.DestroyedIff` | internal/workspace/manager.go:301-323 | a destroy succeeds exactly when the mount goes and every removal runs to its end; directories, record and task are then gone, and otherwise record and task stay; nobody else's change |
| `Names.SanitizedIsPlain` | internal/workspace/manager.go:834-837 | a safe name holds no separator and no `..`, is not empty unless the name was, and starts with a dot only if the name did |
| `Names.PlainIsKept` | internal/checkpoint/checkpoint.go:251-254 | a name without special parts is its own safe name |
| `Names.SanitizedInTwoPasses` | internal/workspace/manager.go:834-837 | the one pass of the replacer does what two would: special characters first, then double dots, left to right |
| `Checkpoint.Store.Save` | internal/checkpoint/checkpoint.go:58-81 | an empty task id is refused; sequence, mode and time get defaults; the file of that task directory and sequence is overwritten; what a later load gives back is `Checkpoint.LoadsGreatestSequence` |
| `Checkpoint.Store.LoadLatest` | internal/checkpoint/checkpoint.go:83-95 | the last entry of the sorted task directory, or not found |
| `Checkpoint.Store.List` | internal/checkpoint/checkpoint.go:97-121 | every file, once, sorted by task, sequence and time |
| `Checkpoint.Store.RecoverAll` | internal/checkpoint/checkpoint.go:123-146 | each task on disk once, in id order, each entry describing its task's highest sequence |
| `Checkpoint.SummarizeRecovery` | internal/checkpoint/checkpoint.go:207-237 | the loops count page references of named agents, collect finished and unfinished agents, and sort them |
| `Checkpoint.LastPerTask` | internal/checkpoint/checkpoint.go:196-205 | the loop keeps, per non-empty task id, the last entry of the list |
| `Checkpoint.LatestByTaskIsLast` | internal/checkpoint/checkpoint.go:196-205 | the entry kept for a task is one of the list that no other of the task follows |
| `Checkpoint.LatestIsLatest` | internal/checkpoint/checkpoint.go:123-146 | over the listing of all files, a task has an entry exactly when it has a file, and it is that of its highest sequence |
| `Checkpoint.LoadLatestIffNotCrowded` | internal/checkpoint/checkpoint.go:83-95 | LoadLatest(t) is t's latest snapshot, or not found without one, exactly when no greater task id has a file in its directory, or for a task without a file when the directory is empty |
| `Checkpoint.LoadsAsListed` | internal/checkpoint/checkpoint.go:83-121 | and then it is the task's entry in the latest of List |
| `Checkpoint.LoadLatestIffUndisturbed` | internal/checkpoint/checkpoint.go:58-95 | for every save history, LoadLatest(t) is the last save at the highest sequence asked for with t, with what its caller passed, or not found if there was none, exactly when no other task overwrote it, comes after it in the shared directory, or alone fills it |
| `Checkpoint.LoadsAnotherTask` | internal/checkpoint/checkpoint.go:251-254 | with only task a/b saved, LoadLatest("a_b") returns it |
| `Checkpoint.LosesSnapshot` | internal/checkpoint/checkpoint.go:58-81 | a save of a/b at the same sequence replaces the snapshot of a_b |
| `Checkpoint.LoadLatestIsLastSave` | internal/checkpoint/checkpoint.go:58-121 | for every save history in which no other task shares t's directory, LoadLatest(t) is the last save at its highest sequence, or not found |
| `Checkpoint.LoadsGreatestSequence` | internal/checkpoint/checkpoint.go:58-95 | for such a task, of the saves with the greatest sequence asked for, none counting as 1, the last is loaded, with its caller's task, agents, page tables and vruntimes, and mode and time where given |
| `Checkpoint.ReportLists` | internal/checkpoint/checkpoint.go:207-237 | an id is listed ready, or completed, exactly when an agent of the snapshot with that id is unfinished, or completed |
| `Checkpoint.ReportCounts` | internal/checkpoint/checkpoint.go:207-237 | the report counts the agents and every page-table entry of a named agent, and carries the snapshot's task, sequence and vruntimes |
| `Checkpoint.ReportMatchesRestore` | internal/api/server.go:1665-1682 | the ready agents of a task's report are exactly those restored READY; final states, vruntimes, tokens and page tables are kept |
| `Checkpoint.RestoreTasksIsRestoreAll` | internal/api/server.go:1586-1591 | restoring task after task is restoring all their agents in turn |
| `Checkpoint.RestoreLeavesOthers` | internal/worker/registry.go:125-146 | an agent that is not restored keeps its entry |
| `Checkpoint.RestoredSurvivesTickIff` | internal/api/server.go:1665-1678 | a restored agent is still READY after the first heartbeat check exactly when its old process id or last contact is zero or recent; otherwise it is FAILED |
| `Recovery.RecoverFromCheckpoints` | internal/api/server.go:1563-1592 | the report is that of the checkpoints, and the registry gets the agents of exactly the snapshots reported |
| `Recovery.RecoverRegistryAgents` | internal/api/server.go:1665-1678 | the loop restores each agent, READY unless its state was final |
| `Recovery.RestartMatchesReport` | internal/api/server.go:1563-1592 | with ids unique over all tasks, every agent is in the registry after a restart, READY or COMPLETED exactly as its task's report says, with its vruntime, tokens and page table |
| `Recovery.RestartKeepsLast` | internal/api/server.go:1586-1591 | with ids shared between tasks, the entry of an id is the last restored agent with that id, in task order |
| `Recovery.RestartReadyIff` | internal/api/server.go:1665-1678 | every agent is restored READY exactly as its own snapshot says if and only if agents that share an id are all final or all unfinished |
| `Recovery.RestartMatchesReportIff` | internal/api/server.go:1563-1592 | when the ids of each task are distinct, every report agrees with the registry under that same condition and no other |
| `Recovery.CollidingIds` | internal/api/server.go:1586-1591 | two tasks with the same agent id, completed in the first and running in the second: the first reports it completed, the registry has it READY |
| `Dag.Graph.AddNode` | internal/dag/dag.go:13-15 | the node's dependencies are replaced |
| `Dag.Graph.Ready` | internal/dag/dag.go:17-39 | exactly the incomplete nodes whose dependencies are all complete, each once, sorted |
| `Dag.AcyclicNeverStuck` | internal/dag/dag.go:17-39 | on an acyclic graph whose dependencies are all nodes, some node is ready whenever one is incomplete |
| `Dag.NeverStuckIffAcyclic` | internal/dag/dag.go:17-39 | and only such graphs have that property |
| `Dag.ScheduleIsShort` | internal/dag/dag.go:17-39 | completing ready nodes one after another ends within as many turns as there are nodes |
| `Dag.ScheduleIsOrdered` | internal/dag/dag.go:17-39 | no node is completed twice or before its dependencies |
| `Dag.StoppedScheduleIsTopological` | internal/dag/dag.go:17-39 | on such a graph, when no node is ready any more all are complete, in a topological order |
| `Dag.ScheduleExtends` | internal/dag/dag.go:17-39 | every partial schedule can be carried on to a complete one |
| `Dag.ReadyIsStable` | internal/dag/dag.go:17-39 | completing more nodes never un-readies an incomplete one |
| `Hub.EventHub.constructor` | internal/events/hub.go:38-47 | the buffer is at least 256 |
| `Hub.EventHub.Subscribe` | internal/events/hub.go:49-60 | the new channel is open, holds the whole history, and joins those sent to; the hub takes the specified step |
| `Hub.EventHub.Publish` | internal/events/hub.go:72-85 | the hub takes the specified step: the history keeps its last 256, and every open channel gets the event at its end unless full; no send is to a closed channel |
| `Hub.EventHub.Cancel` | internal/events/hub.go:61-69 | the hub takes the specified step: the channel ends closed, keeps what is buffered and is no longer sent to, and cancelling again does nothing |
| `Hub.EventHub.Receive` | internal/events/hub.go:49-60 | the oldest buffered event is taken, closed channel or not, and is the one the run counts as received |
| `Hub.SaneInEveryRun` | internal/events/hub.go:49-85 | in every run the channels sent to are exactly the open ones |
| `Hub.HistoryIsLastPublished` | internal/events/hub.go:72-76 | in every run the history is the last min(256, n) published events |
| `Hub.OfferedIsHistoryThenLive` | internal/events/hub.go:49-85 | an open channel was offered the last 256 events from before it and then every event since |
| `Hub.CancelledIsOfferedNothing` | internal/events/hub.go:61-69 | in every run a cancelled channel is closed for good and is offered nothing more |
| `Hub.ReceivedInOrder` | internal/events/hub.go:77-83 | in every run what was received and then what is buffered is what was accepted, in order |
| `Hub.AcceptedFromOffered` | internal/events/hub.go:77-83 | what was accepted is a subsequence of what was offered |
| `Hub.NothingDroppedIffKeepsUp` | internal/events/hub.go:77-83 | nothing is dropped exactly when the subscriber never falls behind by more than its buffer |
| `Hub.SubscriberSeesAll` | internal/events/hub.go:49-85 | such a subscriber receives the replayed history and then every live event, each once, in order |
| `Registry.WorkerRegistry.CreateAgent` | internal/worker/registry.go:29-46 | a fresh CREATED entry with priority and weight 100 replaces any entry of that id |
| `Registry.WorkerRegistry.HandleMessage` | internal/worker/registry.go:48-57 | register, heartbeat and report update the sender's entry; other kinds do nothing; what the sender's entry then holds is `Registry.ContactLeaves` |
| `Registry.WorkerRegistry.RestoreAgent` | internal/worker/registry.go:125-146 | times, priority and weight left at zero are filled in, the rest is kept |
| `Registry.WorkerRegistry.SetAgentState` | internal/worker/registry.go:115-123 | the state is set, on a blank entry if the agent is unknown |
| `Registry.WorkerRegistry.MarkHeartbeatLost` | internal/worker/registry.go:148-167 | exactly the agents that are silent past the threshold become FAILED, and each is listed once |
| `Registry.KeyedInEveryRun` | internal/worker/registry.go:115-246 | in every run each entry holds its own id, or is a blank made for an unknown agent |
| `AvpModel.StateNameRoundTrip` | internal/worker/registry.go:208-215 | the name in a report is that of the state it leads to, and every state the runtime knows is recognised by its name |
| `Registry.ContactLeaves` | internal/worker/registry.go:177-239 | a message leaves its sender RUNNING with its process id, as it was with a new contact, or in the state it names; a new sender starts from its message and the defaults; nothing else of a known one changes |
| `Registry.ContactRecordedIffOwnEntry` | internal/worker/registry.go:223-239 | a contact is recorded under the agent's id exactly when that entry is not such a blank |
| `Registry.BlankEntryHidesContact` | internal/worker/registry.go:115-123 | a state set before registration makes a blank that the later registration never fills |
| `Registry.RecentContactIsSpared` | internal/worker/registry.go:148-167 | in every run with a nondecreasing clock and no old entry restored since, a tick spares an agent heard from at most the timeout before |
| `Registry.SilentAgentFails` | internal/worker/registry.go:148-167 | in every run the tick more than the timeout after an agent's last contact leaves it FAILED, or KILLED if it was, whatever states were set in between |
| `Registry.FailedStaysFailed` | internal/worker/registry.go:195-206 | and heartbeats alone never bring it back |
| `Registry.ReportedStateLasts` | internal/worker/registry.go:208-221 | what an agent last reported stays its state through heartbeats, ticks and calls for others, unless a tick fails it |

## Left out

- Hash, gzip and token estimate: parameters of the model (`Codec`). The refinement results assume that the hash is injective and that decompression undoes compression; the other results assume nothing.
- Clocks: each lock region takes its time as an argument, one value per region.
- Integer widths: vruntime is 64-bit with wrap-around and charged tokens fit 64 bits; every other integer is unbounded.
- Floating point: scores and pressures are reals. The distance of two vruntimes is rounded as a 64-bit float would be, and a float too large for 64 bits is taken to convert to the largest value.
- Duplicate page fields (page id, hash, size) and the `Page`, `Pages`, `PageTable` and `Stats` snapshots, with the aliasing of owner lists between snapshots and the store.
- Events published by the stores and their payloads, evidence modes and reason strings.
- HTTP handlers, command line, worker launcher, socket server, control groups, kernel observation and shared memory: whether shared memory is available is a flag.
- Gateway.Gateway.LlmCall: whether there is a client and whether its completion succeeds are parameters; provider, role and usage are left out.
- Dispatch.SchedulerCandidates: what the control groups and the pressure files report is a parameter of each turn.
- Dispatch.RunDispatch: the budgets, tasks and checkpoints that the demo run makes around its loop.
- Exchange.PollMountsNeverFail: assumes that published pages stay referenced or pinned until polled and that the subscriber releases none of the log's pages, because `ipc.publish` itself takes no reference; `ExchangeOrder.ForgottenPageFailsPoll` is a run without that.
- Fairness.SpreadBounded: assumes an always-ready agent set; a failed, suspended or late agent is not part of the run.
- Gateway.Gateway.AgentSpawn: an id made up for a nameless child is a parameter, and the task entry of the child is left out.
- Gateway.Gateway.Handle: what a call does to its machines is stated by the method that serves it, not again by the dispatch.
- Gateway.Gateway.Audit: times, sizes and error text of a record.
- Gateway.Gateway.ToolExec: whether the working directory escapes or cannot be made is a parameter, not computed from paths.
- Registry.RecentContactIsSpared: assumes no restore of an old entry since the contact, because a restored entry carries its own last contact.
- Registry: capsule and workspace paths are not fields of the model; attaching one only stamps the entry.
- WorkspaceManager.Manager.RunTool: a command changes only the agent's upper layer or merged copy; commands that reach outside their directory are not modelled.
- WorkspaceManager.Manager.Create: mounting and unmounting are modelled by their results. A tree is a flat map of paths, listed in any order, and a removal that fails leaves an arbitrary part of it; symbolic links and file modes are left out. Building under the name of the task directory is taken to empty all base snapshots, and the work directory is not kept apart from the upper layer.
- WorkspaceManager.Manager.Destroy: a directory that is missing is one with empty trees, so a copy from a missing lower tree counts as a copy of an empty one.
- WorkspaceManager.Manager.CreateBaseSnapshot: file names are taken to be clean paths inside the base; the confinement test is left out.
- WorkspaceRuns.IsolatedInEveryRun: excludes agents whose safe names collide or equal that of the task directory, which share directories.
- Checkpoint.Store.Save: a file is its snapshot, since writing and reading JSON is taken as an identity; failing reads and writes are left out.
- Recovery.RecoverFromCheckpoints: the server's task map, its recovery events, and reports of files that cannot be read.
- Transition table of agent states, configuration, experiments, reports and replay text: each is settled by reading one branch.
