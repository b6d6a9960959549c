# Linear connector: verified models of its bookkeeping state machines

The connector routes Linear tickets to agents. What makes it safe to leave running is bookkeeping that must stay
bounded, idempotent and consistent over long runs of events, retries, restarts and re-entries. This project models
those state machines and proves what they guarantee over every run. Network calls, clocks, files and injected
callbacks are inputs: each read may fail, each write may be refused, each callback may throw.

`dafny verify dfyconfig.toml` checks everything.

## What each part is

- **Circuit breaker** (`CircuitBreaker`, `StuckDetector`): the per-ticket wake counters and seen-state history that stop
  a dead-dispatch loop, and the older class that alerts on a stuck ticket.
- **Session creation** (`SessionProtocol`): the in-flight lock and the dedup window, as segments between awaits that
  interleave in any order.
- **Ping-pong detector** (`PingPong`): delegate chains pruned a little at every call, and the bounce count over them.
- **First-action watchdog** (`Reroute`, `Watchdog`, `WatchdogRuns`): the per-ticket escalation ladder across sweeps.
- **Barrier** (`FanoutOutcomeStore`, `OutcomeRuns`, `Barrier`, `BarrierProtocol`, `StallDetection`): when a parent may
  leave a state that waits for its children, with checks as sequences of awaits among everything that changes meanwhile;
  the outcome records the checks consult, loaded and written in segments that overlap; deferral accounting and stall
  events.
- **Fan-out** (`SpecSections`, `SpecRoundTrip`, `SpecUpsert`, `ReadBack`, `Fanout`, `FanoutRuns`): entries parsed out of
  a spec section character by character, derived sections printed into it, children read back from Linear, the
  partition of a spec against them, the mint loop, and runs of re-entries.
- **Repair sweep** (`RepairSweep`, `RepairRuns`): five passes over one snapshot that write to the live tickets.
- **State migration** (`StateMigration`), **agent registry** (`AgentRegistry`), **health badge** (`DispatchHealth`),
  **conformance matrix** (`ConformanceMatrix`).

`Prelude`, `Text` and `Labels` hold what they share. Operations that change state are classes and methods with the
source's fields and loops, each tied by its postconditions to a step function on values; runs are folds of those
functions over event sequences, and the theorems are lemmas about all of them.

## Assumptions

- A read-back that fails looks like "no children" to the fan-out, and a child without a `wf:*` label is not read back;
  the run theorems say which reads have to succeed, and minted children keep title, description and label.
- The content hash (`deriveFindingId`), the `[wf:...]` title mark and the JSON fallback are parameters; the hash is not
  assumed injective. A mark is only assumed to start with `[wf:` after an optional backslash.
- Letter case is folded for ASCII letters; Linear returns titles and descriptions as they were written.
- Linear spells native state types in lower case; a label name identifies a label.
- An entry state that bootstrap adds is not `state:done`, and the team's completed state has type `completed`.

## Where the code and its documentation part

- A dispatch without a state label closes an open breaker and forgets its history (`StaysOpenExactly`,
  `LabellessDispatchForgetsTheTrip`), and the trip rule needs positive caps (`TripRuleHoldsExactly`).
- In the stuck detector one delegate activity silences a ticket until it is reset (`StuckDetector.AlertsExactly`).
- The session window is per issue only between requests that do not overlap (`CreationGapsExactly`).
- A callback that throws leaves the ladder unstored, so the same alert is raised again (`FiredRungsAreStoredExactly`,
  `WatchdogRuns.AlertsExactly`, `ThrowingEscalationRepeatsTheAlert`).
- The outcome store calls itself loaded before it has read the file. A call that falls into the load reads an empty
  store, or is overwritten by the file, and its write drops the other records (`LoadIsSafeExactly`,
  `ReadingInsideALoadExactly`, `LoadedReadingExactly`, `SecondCallerMissesTheRefusal`).
- A record whose write threw is believed until the restart; it survives it exactly when a later write carries it
  (`RecordSurvivesExactly`).
- A partly missing expected set is not noticed (`MissingExpectedChildIsNotNoticed`), and a manual continue ignores the
  barrier scope (`ScopedBarrierHoldsWhereManualPasses`).
- What changes between a check's reading and its exit is not seen (`ExitUnderHoldingOutcomeExactly`,
  `ExitAfterLabelLossExactly`, `LateChangesAreNotSeen`).
- A parent whose state label is not spelled in lower case never advances (`PollReachesTheMutationExactly`).
- Without an SLA a stall event is measured against 30 minutes, not against the threshold that made it
  (`StallEventsAreExact`).
- An earlier heading of the section's name with text behind it hides everything the engine appends
  (`AppendReadsBackExactly`, `UpsertNeverConverges`).
- The comment at src/fanout.ts:2352-2357 promises an id-only fallback for children without a workflow; line 2411 drops
  such children, so the fallback is never reached from a read (`ReadChildrenHaveWorkflows`).
- Escape is read off the native state's name, not off the `state:escape` label (`HeldExactly`,
  `EscapeIsReadFromTheNativeState`).
- One entry mints two children for two spec entries of one id and workflow, and after a failed read it mints children
  that are there already (`NoDuplicateLiveChildExactly`, `ReadEntryKeepsOneExactly`, `UnreadEntryDuplicatesExactly`).
- The repair sweep moves a native duplicate labelled `state:done` to the completed state (`NativeStateIsKeptExactly`),
  strips all labels when the label read answers without data (`OtherLabelsAreKeptExactly`), seats blindly when the live
  re-read fails (`SignedOffTicketIsSeatedExactly`), and counts a refused bootstrap write as a heal
  (`HealedMeansChangedExactly`, `CountsAreChangesExactly`).
- A state label in other letter case is migrated again in every sweep (`OtherSpellingMigratesForever`), and validation
  accepts a mapping to no state or to an unknown one (`SilentStrandExactly`, `StrandedForeverExactly`).
- Storing tokens neither promotes a never-onboarded agent (`TokensDoNotPromote`) nor mints a proxy token
  (`CredentialsStayBrokeredExactly`), and it can leave an active agent without a credential
  (`ActiveAgentsHaveCredentialsExactly`).
- The health badge depends on the order of tied events (`OrderMattersExactly`).

## Model

| member | source | states |
|---|---|---|
| CircuitBreaker.Breaker.RecordDispatch | src/dispatch-circuit-breaker.ts:399-539 | stores and returns what the dispatch step says; a tripped revisit returns a refreshed copy and stores nothing new; other tickets keep their records |
| CircuitBreaker.Breaker.RecordFailedWake | src/dispatch-circuit-breaker.ts:547-604 | counts a failed wake against the record, at most trips it, never touches an open or missing one |
| CircuitBreaker.Breaker.CheckBreaker | src/dispatch-circuit-breaker.ts:642-653 | blocked exactly when the stored record is tripped |
| CircuitBreaker.Breaker.RecordRepokeAndCheck | src/dispatch-circuit-breaker.ts:629-635 | a re-poke counts on the same record and is suppressed exactly when that leaves it tripped |
| CircuitBreaker.Breaker.ResetBreaker | src/dispatch-circuit-breaker.ts:659-666 | removes exactly that ticket's record |
| CircuitBreaker.TripRuleHolds | src/dispatch-circuit-breaker.ts:399-604 | after any run with positive caps the stored flag holds exactly when one of the two counters reached its cap |
| CircuitBreaker.TripRuleHoldsExactly | src/dispatch-circuit-breaker.ts:399-604 | over all runs the flag follows the counters exactly when both caps are positive |
| CircuitBreaker.RunKeepsHistory | src/dispatch-circuit-breaker.ts:375-396 | every stored seen-state history is present, duplicate-free and made of labels really dispatched |
| CircuitBreaker.UntrippedDispatchesAreBounded | src/dispatch-circuit-breaker.ts:399-604 | with D labels and k wipes of its history a ticket gets at most (k+1)*D*maxRevisits untripped labelled dispatches, over any run |
| CircuitBreaker.ChurnTrips | src/dispatch-circuit-breaker.ts:441-539 | a ticket that only revisits seen states trips after maxRevisits dispatches and then stays as it is |
| CircuitBreaker.ConsecutiveWakesTrip | src/dispatch-circuit-breaker.ts:441-604 | maxWakes wakes in one state trip, dispatched and failed ones counting together |
| CircuitBreaker.StaysOpenExactly | src/dispatch-circuit-breaker.ts:408-604 | an open breaker stays open through a run, its record untouched, exactly when the run holds no reset, label-less dispatch or state never seen |
| StuckDetector.Detector.RecordWake | src/dispatch-circuit-breaker.ts:207-274 | one wake changes exactly that ticket's tracking, by the wake step |
| StuckDetector.Detector.RecordDelegateActivity | src/dispatch-circuit-breaker.ts:281-291 | activity zeroes a tracked ticket's count and stamps it; an untracked ticket stays untracked |
| StuckDetector.Detector.Evaluate | src/dispatch-circuit-breaker.ts:296-350 | reports an alert only for a governed ticket that is not awaiting a named approver |
| StuckDetector.AlertsExactly | src/dispatch-circuit-breaker.ts:207-350 | an alert is due exactly when the latest wake is governed and unapproved, maxWakes wakes happened, and no activity ever did since tracking began |
| SessionProtocol.SessionDesk.Begin | src/agent-session.ts:32-60 | joins the request in flight, else skips inside the window, else takes the lock |
| SessionProtocol.SessionDesk.Record | src/agent-session.ts:95-107 | writes the issue's entry and nothing else |
| SessionProtocol.AtMostOneInFlight | src/agent-session.ts:32-60 | in every interleaving at most one creation per (issue, agent) is in flight |
| SessionProtocol.SameAgentCreationsApart | src/agent-session.ts:32-107 | two recorded creations of one (issue, agent) are 30 seconds apart, other agents' writes in between or not |
| SessionProtocol.CloseCreationsOverlap | src/agent-session.ts:32-107 | creations on one issue closer than the window come from different agents and overlapped |
| SessionProtocol.CreationGapsExactly | src/agent-session.ts:32-107 | the gaps that occur between two creations on one issue are exactly those of at least 30 seconds for one agent, and any at all for two |
| SessionProtocol.JoinedRequestsShareTheResult | src/agent-session.ts:39-60 | a joined request ends with exactly its owner's session or failure |
| SessionProtocol.SkippedRequestsNameARecentSession | src/agent-session.ts:46-52 | a skipped request is handed a session really recorded on its issue inside the window |
| PingPong.ChainTracker.RecordAssignment | src/delegate-ping-pong-detector.ts:192-207 | prunes the chain and appends the assignment |
| PingPong.ChainTracker.DetectCycle | src/delegate-ping-pong-detector.ts:225-255 | stores the pruned chain; every reported count is the delegate's number of maximal runs in it, cycling are exactly those at the cap |
| PingPong.ChainTracker.CheckAndHandle | src/delegate-ping-pong-detector.ts:433-546 | suppresses exactly on a cycle whose target is not exempt |
| PingPong.CountBounces | src/delegate-ping-pong-detector.ts:230-243 | the loop counts, for exactly the delegates of the chain, their maximal runs |
| PingPong.ChainIsWindowedHistory | src/delegate-ping-pong-detector.ts:192-271 | with a monotone clock the pruned chain is the whole assignment history cut to the window |
| PingPong.ChainIsWindowedHistoryExactly | src/delegate-ping-pong-detector.ts:192-271 | over all such runs that holds exactly when the window is not negative |
| PingPong.DetectionSeesWindowedHistory | src/delegate-ping-pong-detector.ts:225-271 | a detection works on the full history cut to the window at its own time |
| PingPong.CycleNeedsAssignments | src/delegate-ping-pong-detector.ts:230-255 | a cycle needs at least 2*maxBounces-1 assignments in the window |
| PingPong.ShortestCycle | src/delegate-ping-pong-detector.ts:230-255 | an alternation of that length reaches the cap, so the bound is tight |
| PingPong.AdjacentDuplicateIsInvisible | src/delegate-ping-pong-detector.ts:236-243 | repeating an assignment right after itself changes no count |
| Reroute.RerouteTargetIsLegal | src/first-action-watchdog.ts:260-275 | a target exists exactly when the role is not exclusive and someone else fills it, and it is never the delegate |
| Reroute.InferredRoleAlwaysReroutes | src/first-action-watchdog.ts:282-301 | the inferred role always has a target, and one is inferred whenever a role of the delegate can move |
| Watchdog.WatchdogStore.SweepOne | src/first-action-watchdog.ts:393-681 | one ticket's visit leaves the ladder, fires the rungs and counts what the visit function says |
| Watchdog.WatchdogStore.Sweep | src/first-action-watchdog.ts:364-684 | the loop over all tickets is the fold of those visits over the stored ladders |
| Watchdog.Escalate | src/first-action-watchdog.ts:478-665 | which rungs fire on a breach by cause, rung count and throwing callbacks, and what is counted |
| WatchdogRuns.LadderIsBounded | src/first-action-watchdog.ts:407-677 | over any undisturbed run for one dispatch at most maxRungs redispatches, one alert and two reroutes |
| WatchdogRuns.AlertsExactly | src/first-action-watchdog.ts:407-681 | without stale verdicts the alerts of a run are exactly those whose visit threw, and one more if the ladder ends with the verdict |
| WatchdogRuns.AtMostOneAlert | src/first-action-watchdog.ts:407-681 | so at most one, plus the visits whose alerting callbacks threw |
| WatchdogRuns.SilentAfterAlert | src/first-action-watchdog.ts:407-677 | once an alert was stored no later visit fires anything for that dispatch |
| WatchdogRuns.FiredRungsAreStoredExactly | src/first-action-watchdog.ts:478-681 | an escalation is remembered exactly when no callback that its branch invokes throws; a throw leaves the ladder as it was |
| WatchdogRuns.ThrowingEscalationRepeatsTheAlert | src/first-action-watchdog.ts:678-680 | while escalation throws, n sweeps raise n alerts |
| WatchdogRuns.RungsComeAfterTheDeadline | src/first-action-watchdog.ts:407-442 | in any run every rung fires a full deadline after the delivery, to a ticket without an action in that time |
| WatchdogRuns.ArmedAfterDeliveryAlways | src/first-action-watchdog.ts:427-431 | over any run ladders are armed at or after delivery |
| WatchdogRuns.BacklogGetsAFreshDeadline | src/first-action-watchdog.ts:422-431 | a dispatch past the two-hour horizon when the store first meets it gets a full fresh deadline, over any run |
| WatchdogRuns.SweepIsPerTicket | src/first-action-watchdog.ts:393-684 | a sweep does to each ticket what its own visits do and nothing else |
| WatchdogRuns.TallyConserves | src/first-action-watchdog.ts:393-684 | every ticket is excluded or armed, and escalations never outnumber breaches |
| FanoutOutcomeStore.OutcomeStore.BeginLoad | src/fanout-outcome-store.ts:90-95 | clears the memory and marks it loaded before anything is read; only the first caller goes on to read |
| FanoutOutcomeStore.OutcomeStore.ReadFile | src/fanout-outcome-store.ts:96-110 | takes the file as it is at that moment, an unreadable one as empty |
| FanoutOutcomeStore.OutcomeStore.FinishLoad | src/fanout-outcome-store.ts:98-102 | writes what was read over whatever the memory holds by then |
| FanoutOutcomeStore.OutcomeStore.GetFanoutOutcome | src/fanout-outcome-store.ts:154-157 | answers from the memory, loaded or being loaded |
| FanoutOutcomeStore.OutcomeStore.RecordFanoutOutcome | src/fanout-outcome-store.ts:134-147 | changes the memory at once and starts a write of all of it |
| FanoutOutcomeStore.OutcomeStore.RemoveFanoutOutcome | src/fanout-outcome-store.ts:171-179 | removes the record and starts a write exactly when there was one |
| FanoutOutcomeStore.OutcomeStore.FinishWrite | src/fanout-outcome-store.ts:118-126 | any one of the started writes lands next, or throws and leaves the file |
| OutcomeRuns.ReadingIsLastRecord | src/fanout-outcome-store.ts:90-179 | in runs without a call inside a load, with writes landing in order, every reading is the last record, restarts anywhere |
| OutcomeRuns.LoadIsSafeExactly | src/fanout-outcome-store.ts:90-179 | whatever the file holds, every reading in and after a load is the last record exactly when no reading, record or removal falls into the load |
| OutcomeRuns.ReadingInsideALoadExactly | src/fanout-outcome-store.ts:90-157 | a reading inside a load is the last record exactly for a parent recorded or removed since it began, or never on file |
| OutcomeRuns.LoadedReadingExactly | src/fanout-outcome-store.ts:90-179 | after the load a parent reads right exactly when the content read agrees with the last request for it, or says nothing and the parent was touched meanwhile or never on file |
| OutcomeRuns.SecondCallerMissesTheRefusal | src/fanout-outcome-store.ts:90-157 | right after a restart a second caller reads no outcome where the file has a refusal |
| OutcomeRuns.RecordSurvivesExactly | src/fanout-outcome-store.ts:118-147 | a record survives a restart exactly when the last write to land was started with it or after it |
| OutcomeRuns.RecordSurvivesIfAnyWriteLands | src/fanout-outcome-store.ts:118-147 | with no older write on its way, exactly when any write after it succeeds, also another record's |
| Barrier.AllTerminalExactly | src/barrier.ts:534-589 | satisfied exactly when the children were read, all in scope are terminal and none orphaned, and a scoped check has some child |
| Barrier.OutOfScopeSiblingIsInvisible | src/barrier.ts:545-563 | adding or removing an out-of-scope sibling changes no part of the result |
| Barrier.OutOfScopeSiblingMayChange | src/barrier.ts:545-563 | nor does changing one |
| Barrier.NothingInScope | src/barrier.ts:548-572 | with nothing in scope the verdict holds exactly when the check is unscoped |
| Barrier.FinishedChildWithoutStateLabelHolds | src/barrier.ts:407-420 | a natively finished child without a state label is terminal, orphaned, and holds every check it is in |
| Barrier.ExpectedSetIsDoneExactlyWhenPresent | src/barrier.ts:545-563 | a satisfied check shows the whole expected set done exactly when all of it is still present |
| Barrier.MissingExpectedChildIsNotNoticed | src/barrier.ts:545-563 | one of two expected children gone, the other alone satisfies the check |
| Barrier.ManualContinueExactly | src/barrier.ts:602-654 | a manual continue passes exactly on a readable, non-empty, settled awaited set under an outcome that does not hold |
| Barrier.RefusalNamesTheCulprits | src/barrier.ts:634-651 | orphans are named before pending children, and exactly those children |
| Barrier.ManualImpliesAutomatic | src/barrier.ts:534-654 | on the same read it satisfies the automatic barrier non-vacuously, except under the owned-infra scope, where exactly when an awaited child is in scope |
| Barrier.ScopedBarrierHoldsWhereManualPasses | src/barrier.ts:514-532 | the owned-infra scope holds a barrier a person may leave |
| BarrierProtocol.BarrierTargetIsForward | src/barrier.ts:995-1002 | the target is that of a `complete` edge, else of one that is not break-glass; none exactly when there is neither |
| BarrierProtocol.EveryExitIsJustified | src/barrier.ts:769-1267 | in every interleaving each exit was made by a check whose own outcome reading did not hold and whose own, later child read succeeded and was settled in scope, along the state's own edge |
| BarrierProtocol.TransitionSwapsOneLabel | src/barrier.ts:902-963 | an accepted transition replaces exactly the state label it read |
| BarrierProtocol.ExitsGoByTheLastRecord | src/barrier.ts:769-931 | while no call falls into someone else's load and writes land in order, the outcome an exit went by is the last one recorded when its check looked |
| BarrierProtocol.ExitUnderHoldingOutcomeExactly | src/barrier.ts:769-963 | in every interleaving an exit is made under a holding outcome exactly when the last change of the parent's record came after the check's reading and left a holding one |
| BarrierProtocol.ExitAfterLabelLossExactly | src/barrier.ts:902-963 | an automatic exit finds the state label gone exactly when the last change of the labels came after the check's fetch and dropped it |
| BarrierProtocol.PollReachesTheMutationExactly | src/barrier.ts:769-931 | undisturbed, a poll reaches the mutation exactly when outcome, barrier state, children, edge and lower-case label allow it |
| StallDetection.DeferralAccountant.StartDeferral | src/barrier.ts:224-234 | a restart accumulates and begins anew, other children keep theirs |
| StallDetection.DeferralAccountant.StopDeferral | src/barrier.ts:237-244 | forgets the child and returns its deferral |
| StallDetection.DeferralAccountant.GetDeferralMs | src/barrier.ts:247-251 | accumulated time plus the time since the last start |
| StallDetection.DeferralTelescopes | src/barrier.ts:220-262 | after any run the deferral is now minus the first start since the last stop |
| StallDetection.DetectStalledChildren | src/barrier.ts:1556-1648 | the loop reports exactly the stalled children in order; an unreadable set reports none |
| StallDetection.StallEventsAreExact | src/barrier.ts:1591-1673 | over any run a reported child has no deferral; with an SLA its breach is its time in state minus the SLA; without one it is measured from the threshold exactly when that is 30 minutes or nothing exceeds it |
| SpecSections.ParseSpecEntries | src/fanout.ts:432-475 | the line loop yields the entries of the line-by-line definition |
| SpecSections.SplitJoined | src/fanout.ts:441 | splitting undoes joining lines that hold no newline |
| SpecSections.SectionStartIsFirst | src/fanout.ts:588-592 | the section starts behind the leftmost heading of the name, and is absent exactly when no position has one |
| SpecRoundTrip.ExtractSpecFindings | src/fanout.ts:580-685 | the loop yields the marked-up entries, falling back to JSON exactly when there are none |
| SpecRoundTrip.LineReads | src/fanout.ts:433-461 | a printed bullet line reads back as its title and description |
| SpecRoundTrip.BodyReads | src/fanout.ts:432-475 | prose, the derived mark and printed lines read back as exactly the printed findings |
| SpecRoundTrip.ExtractedFindingsAreTrimmed | src/fanout.ts:470-684 | every extracted entry has a trimmed description and the id derived from its text |
| SpecUpsert.AppendReadsBackExactly | src/fanout.ts:2617-2639 | a section appended to a description without entries reads back as printed exactly when no earlier heading of that name has text behind it |
| SpecUpsert.UpsertRoundTrip | src/fanout.ts:2617-2639 | the upserted description yields the same titles and descriptions in order, and a second upsert yields none |
| SpecUpsert.UpsertNeverConverges | src/fanout.ts:2617-2639 | under an earlier empty section with text behind it every upsert appends again |
| SpecUpsert.ProseUnderHeadingExample | src/fanout.ts:588-592 | a description of that kind |
| ReadBack.FetchExistingSpawnChildren | src/fanout.ts:2362-2427 | the loop reads back exactly the readable nodes; a failed read is an empty list |
| ReadBack.ReadChildrenHaveWorkflows | src/fanout.ts:2405-2416 | every child read back has a workflow and a `wf:` label |
| ReadBack.StrippingUndoesMinting | src/fanout.ts:379-389 | stripping the built description returns exactly the trimmed original, also one that starts with `Parent:` itself |
| ReadBack.MintedChildReadsBack | src/fanout.ts:2397-2416 | a minted child reads back with its workflow and its entry's id |
| Fanout.DedupeSpawnSpec | src/fanout.ts:963-1006 | both loops yield the partition: entries to spawn, children without an entry, reported id-only matches |
| Fanout.ToSpawnExactly | src/fanout.ts:971-992 | an entry is spawned exactly when no live child of its id has its workflow or none |
| Fanout.UnmatchedExactly | src/fanout.ts:997-1003 | reported as unmatched are exactly this workflow's, or unknown, children whose entry is gone |
| Fanout.NoSilentSuppression | src/fanout.ts:977-989 | an entry held back has a live child of its workflow or a reported id-only match |
| Fanout.OtherFanoutsAreLeftAlone | src/fanout.ts:971-1003 | another workflow's child is never an orphan, and an escaped child never holds a slot |
| FanoutRuns.HeldExactly | src/fanout.ts:403-409 | an entry is held exactly by a child that reads back its id and workflow and whose native state is not named escape, whatever its labels say |
| Fanout.ParentIssue.MintChildren | src/fanout.ts:1987-2197 | the mint loop creates a child for each entry that is neither refused nor failed, in order, and records the others |
| Fanout.ParentIssue.ExecuteFanout | src/fanout.ts:1595-2201 | one entry adds exactly the new children and returns what was matched, orphaned, minted and failed |
| Fanout.AttemptsAreAccounted | src/fanout.ts:1987-2197 | created plus errors are the attempted entries, and the errors name exactly those not created |
| Fanout.SiblingFanoutChildrenAreAwaited | src/fanout.ts:1760-1767 | the awaited set also holds live children a sibling fan-out minted from the same entries |
| FanoutRuns.EnterIsExecuteFanout | src/fanout.ts:1595-2201 | a step of a run is the class method's effect on the children |
| FanoutRuns.NoDuplicateLiveChildExactly | src/fanout.ts:963-1006 | over any run, reads and creations failing or not, no entry of a workflow ever has two live children exactly when no step mints two spawned entries of one key or repeats a live child |
| FanoutRuns.NoDuplicateLiveChild | src/fanout.ts:963-1006 | with successful reads and distinct keys per spec no run does |
| FanoutRuns.UnreadEntryDuplicatesExactly | src/fanout.ts:2423-2426 | after a failed read an entry duplicates exactly when an entry is minted live while its live child exists, or two of one key are |
| FanoutRuns.ReadEntryKeepsOneExactly | src/fanout.ts:971-992 | after a successful read it does so exactly when two of the spawned entries have one key and are both created live |
| FanoutRuns.FailedEntriesAreRetried | src/fanout.ts:1987-2197 | an attempted entry is held next time exactly if its own mint, or that of an entry of the same key, succeeded |
| FanoutRuns.FinishedSpecSpawnsNothing | src/fanout.ts:1785-1796 | once everything was minted the same spec spawns nothing, whatever happens while no child escapes |
| RepairSweep.Board.RunPass | src/bootstrap-reconciliation-sweep.ts:648-1090 | one loop over the candidates changes each exactly as its pass says, from the snapshot, and counts it |
| RepairSweep.Board.RunSweep | src/bootstrap-reconciliation-sweep.ts:596-1098 | a sweep is the per-ticket composition of the passes on the queried tickets, its counters the sum over them; a failed query changes nothing |
| RepairRuns.AtMostOnePassChanges | src/bootstrap-reconciliation-sweep.ts:647-1090 | a sweep changes a ticket by at most one pass, between standings that fit the change |
| RepairRuns.AtMostTwoChanges | src/bootstrap-reconciliation-sweep.ts:647-1090 | over any run of sweeps, whatever fails, a ticket is changed at most twice |
| RepairRuns.RunUsesUpWhatRemains | src/bootstrap-reconciliation-sweep.ts:647-1090 | a measure of at most two falls by one with every change |
| RepairRuns.OnlyTenHistories | src/bootstrap-reconciliation-sweep.ts:647-1090 | every run of sweeps makes one of ten change histories and leaves the ticket where that one says |
| RepairRuns.HistoriesExactly | src/bootstrap-reconciliation-sweep.ts:647-1090 | the histories that happen are exactly those ten |
| RepairRuns.TwoSweepsSettle | src/bootstrap-reconciliation-sweep.ts:647-1090 | under constant answers two sweeps reach a fixed point |
| RepairRuns.SignedOffTicketIsSeatedExactly | src/bootstrap-reconciliation-sweep.ts:979-1036 | a ticket signed off since the snapshot is seated exactly when the re-read failed and the seat itself works |
| RepairRuns.NativeStateIsKeptExactly | src/bootstrap-reconciliation-sweep.ts:647-1090 | over any run the native state is kept exactly when the ticket is never reconciled, and reconciling takes every type but completed and canceled to completed |
| RepairRuns.OtherLabelsAreKeptExactly | src/bootstrap-reconciliation-sweep.ts:283-829 | over any run the other labels are kept exactly when there are none or no close goes ahead on a label answer without data |
| RepairRuns.HealedMeansChangedExactly | src/bootstrap-reconciliation-sweep.ts:685-692 | a ticket the first pass counts as healed is changed exactly when the bootstrap write was accepted |
| RepairRuns.CountsAreChangesExactly | src/bootstrap-reconciliation-sweep.ts:647-1090 | over any run the counted heals and seats plus the accepted rejections are the changes plus the refused bootstrap writes |
| StateMigration.ValidateDefStateRemovals | src/def-state-migration.ts:122-141 | the loop errs on exactly the removed states that are neither mapped nor acknowledged |
| StateMigration.ErrorsExactly | src/def-state-migration.ts:122-141 | membership of those errors, both ways |
| StateMigration.Tickets.RunDefStateMigrationSweep | src/def-state-migration.ts:296-360 | the loop migrates each governed ticket by its plan and reports exactly the migrated and the errors |
| StateMigration.SweepIsPerTicket | src/def-state-migration.ts:296-360 | a sweep does to each ticket what its own plan and answer say and nothing else |
| StateMigration.SweepsFollowTheChain | src/def-state-migration.ts:96-340 | after any number of successful sweeps a ticket stands that many mappings further, on one state label with its others kept |
| StateMigration.MigrationComesToRest | src/def-state-migration.ts:96-340 | an accepted definition with live targets puts a ticket on a live state or an acknowledged strand in one sweep, one state label, the others kept, the second sweep idle |
| StateMigration.SecondSweepIsIdleExactly | src/def-state-migration.ts:318-325 | after a migration the second sweep is idle exactly when the label was spelled in lower case and the target is not mapped on |
| StateMigration.OtherSpellingMigratesForever | src/def-state-migration.ts:318-325 | a label spelled otherwise is migrated by the same plan in every sweep |
| StateMigration.SilentStrandExactly | src/def-state-migration.ts:96-141 | an accepted removed state rests neither live nor acknowledged after its sweep exactly when its mapping names no target or one that is neither |
| StateMigration.GhostTargetExample | src/def-state-migration.ts:122-141 | such a definition: a mapping to a state that does not exist |
| StateMigration.StrandedForeverExactly | src/def-state-migration.ts:96-340 | through chains of mappings a ticket never reaches a live or acknowledged state exactly when none of the first targets, as many as there are mappings, is one |
| AgentRegistry.Registry.UpsertAgent | src/agents.ts:950-998 | merges into the agent found by name, else by non-empty user id, else appends; one more agent exactly when new |
| AgentRegistry.Registry.UpdateAgentMetadata | src/agents.ts:895-921 | edits and reconciles exactly the named agent, none when there is none |
| AgentRegistry.Registry.UpdateTokens | src/agents.ts:623-650 | stores the tokens on the named agent and clears its failure, everything else kept |
| AgentRegistry.Registry.RecordTokenFailure | src/agents.ts:652-665 | stamps the failure on the named agent only |
| AgentRegistry.NamesStayUnique | src/agents.ts:950-998 | over any run names stay unique, also when a record found by user id is renamed |
| AgentRegistry.ActiveAgentsHaveCredentialsExactly | src/agents.ts:623-998 | over any run no effectively active agent ever lacks a refresh token exactly when no step stores an empty one on an active agent |
| AgentRegistry.CredentialsStayBrokeredExactly | src/agents.ts:623-1011 | over any run every upstream token has a proxy token in front of it exactly when no token update meets an agent without one |
| DispatchHealth.BatchComputeDispatchHealth | src/dispatch-health.ts:188-200 | one badge for each ticket, computed from its own events |
| DispatchHealth.FirstOfSortedIsNewest | src/dispatch-health.ts:119-128 | the first of a class in the sorted events is the newest of the class over the unordered ones |
| DispatchHealth.OrderMattersExactly | src/dispatch-health.ts:94-179 | some order of the same events shows another badge or attempt exactly when two newest events of the class that decides the badge would show different attempts |
| DispatchHealth.HealthIsDecided | src/dispatch-health.ts:94-179 | badge and attempt come from a newest event of one class, which does not depend on the order, or from no single event |
| DispatchHealth.OrderDoesNotMatterAtDistinctTimes | src/dispatch-health.ts:94-179 | in particular when all times are distinct |
| ConformanceMatrix.BuildConformanceMatrix | src/conformance-matrix.ts:310-388 | the nested loops yield the matrix defined state by state, command by command, caller by caller, stake by stake |
| ConformanceMatrix.OneCellPerCombination | src/conformance-matrix.ts:310-388 | a combination has one cell for each state entry of that id that represents the caller, if command and stake are known, and none otherwise |
| ConformanceMatrix.CellsAreDistinctExactly | src/conformance-matrix.ts:310-388 | no two cells share a combination exactly when no two state entries share an id |
| ConformanceMatrix.CommandListExactly | src/conformance-matrix.ts:314-323 | the command list is break-glass and every mentioned command, each once |
| ConformanceMatrix.MatrixIsMonotone | src/conformance-matrix.ts:196-388 | of two cells of a matrix that differ in the stake only, the higher never lets a known body through nor stops an unknown one |
| ConformanceMatrix.LegalListAgrees | src/conformance-matrix.ts:196-388 | a wrong-state cell's command is not in its legal list; an allowed cell's is |

## Left out

- Linear GraphQL traffic, HTTP status handling, comments, alert and log text: every call is an answer from outside.
- Timers, cron registration and the poller loops: sweeps are called with a time.
- The admin routes, session cookies, encryption, secrets files and file watching: no bookkeeping state machine.
- The web of config loaders and liveness snapshots, and the dispatch reliability controller: easy members only.
- src/workflow-gate.ts beyond the label readers: what a manual continue does after the barrier lets it pass, and how an outcome is derived from a fan-out result.
- Barrier: the applied-state cache's expiry is an arbitrary change of its value; the summary comment after a transition.
- Fanout.ParentIssue.ExecuteFanout: caps, approval, previews, `spawn_if`, missing labels, sprint-title shapes and target-state validation are one input that stops the entry, without the flags such a stop sets in the result; integration-verify children, blocking relations, delegates and wakes are not modelled.
- Fanout.ParentIssue.MintChildren: the sprint-title guards are not computed from title and siblings; an entry they refuse is one whose answer is a failure, and the theorems take any answers.
- Fanout: arm inference and metadata only add a workflow, a delegate or a classification to an entry; an entry comes with its workflow.
- SpecRoundTrip.ExtractSpecFindings: the grammar of the `[wf:...]` mark and of the JSON block are parameters.
- RepairSweep.Board.RunSweep: the wake after a heal only logs its failure and is not modelled; who is seated comes from outside as a body.
- RepairRuns.AtMostTwoChanges: outside edits between sweeps start a new run; the race within a sweep is covered for seating only.
- StallDetection.DetectStalledChildren: SLA strings are parsed outside, and times are whole milliseconds.
- Watchdog: a workflow file that cannot be read is an absent override and owner role.
- StateMigration.Tickets.RunDefStateMigrationSweep: label names stand for label ids, and a sweep over definitions without any mapping reports no scanned tickets in the source.
- AgentRegistry.Registry.UpsertAgent: hooks, gateway and host fields are merged like the others and not modelled; a key present with an undefined value is.
- ConformanceMatrix.BuildConformanceMatrix: the agent-facing verbs beside the legal commands.
- FanoutOutcomeStore: a change of the store's path, the recording time, and a read that meets a half-written file other than as an unreadable one.
- DispatchHealth.HealthIsDecided: event times are numbers; a time that does not parse is not modelled.
