# Audio helper: model and proofs

This Dafny project models the control logic of the native audio helper
(`native/audio-helper/src`) and proves properties of it. The helper watches the
audio sessions of the machine, plans which process trees to capture, drives a
set of captures and the slots of a mixer towards that plan, mixes them into one
stream, and serves it to its parent process over pipes.

Windows appears only through arbitrary inputs: the session list, the process
snapshot, the outcome of a start, whether a capture still runs, clock readings,
and the arrival of stop requests.

| files | component |
|---|---|
| `Base`, `ExclusionPolicy`, `ProcessResolver`, `RootStability`, `CandidateOrder`, `SourcePlanner`, `PlanRules`, `PlannedRoots` | from the session list to at most 32 ranked process trees |
| `SlotTable`, `Reconciliation`, `ReconciliationRuns`, `ConvergenceOverRuns`, `LostEntries`, `DeadCaptures`, `FilteredMonitorController` | the reconciling controller: a pass as a function, runs of passes, and the class that refines it |
| `WakeProtocol` | the controller's wait loop and its notifiers as interleaved atomic steps |
| `FifoHistory`, `PcmQueue`, `MultiSourceMixer`, `MixMath`, `MixBlock` | the bounded queues and the mix |
| `GenerationAllocator`, `ServiceGate`, `ServiceStops` | stream generations and the check before each push |
| `JsonText`, `JsonSearch`, `SimpleJson`, `LineFraming` | the control protocol: JSON fields and newline framing |
| `SyntheticPacing` | the synthetic source's packet loop |
| `SessionAudit`, `EndpointAnswers`, `EndpointRecovery` | the endpoint capture thread and the sessions it owns |

The code that updates state in place is modelled by classes (the controller,
the mixer and its sources, the queues, the JSON builder, a connection, the
synthetic and the endpoint source). Each method is proved against a pure
specification, and the theorems are about that specification. The two
concurrent protocols are state machines over atomic steps.

Check everything with `dafny verify dfyconfig.toml`.

Where the code and its own comments disagree, the code is followed:
`MultiSourceMixer.h:159` announces a queue age limit of 50 ms, but the mixer
purges at 500 ms (`MultiSourceMixer.cpp:367`); `FilteredMonitorController.cpp:526-528`
says that the failure count is carried forward, but a retry that finds the mixer
full loses it (`PlannedEntryLostIff` says exactly when);
`AudioSessionMonitor.h:46-48` calls every session without a validated identity
consistent, but the code asks it to be dead and without a creation time too.

Some promises hold only under a condition, and the exact condition is proved:
one pass reaches the plan (`ConvergesInOneIff`), a planned entry survives a full
mixer (`PlannedEntryLostIff`), all processes up to a root resolve to it
(`RootStabilityIff`), an application start keeps the order of pushed generations
(`ApplicationStartSafeIff`), a string survives the JSON printer and reader
(`StringFieldRoundTrip`), and framing is exact (`FramingExactIff`,
`FramingExactAtEveryReadIff`).

## Model

| member | source | states |
|---|---|---|
| `Reconciliation.AgreementOverRuns` | native/audio-helper/src/FilteredMonitorController.cpp:452-610 | At every point of every run of passes, for any plans, start outcomes, capture deaths and clocks, the mixer's ids are exactly the pairwise distinct non-zero ids of the entries with a capture, entries without one have id 0 and at least one failure, and at most 32 captures are live (until 2^32 ids have been issued). |
| `Reconciliation.PassKeepsAgreement` | native/audio-helper/src/FilteredMonitorController.cpp:397-629 | One pass over any agreeing pair of tables leaves an agreeing pair. |
| `Reconciliation.AddOneKeepsAgreement` | native/audio-helper/src/FilteredMonitorController.cpp:635-742 | A start attempt keeps the agreement whether it succeeds, fails, or finds no slot, because a plan never lists an identity twice. |
| `Reconciliation.CleanedAgrees` | native/audio-helper/src/FilteredMonitorController.cpp:468-522 | Setting retries aside and freeing their slots keeps the agreement. |
| `Reconciliation.LiveCapturesMatchSlots` | native/audio-helper/src/MultiSourceMixer.cpp:32-38 | In agreement there are exactly as many live captures as slots, so never more than 32. |
| `Reconciliation.NewCandidatesFacts` | native/audio-helper/src/FilteredMonitorController.cpp:504-510 | What is up for a start is exactly the planned candidates without an entry, still without duplicates. |
| `Reconciliation.NewCandidatesInOrder` | native/audio-helper/src/FilteredMonitorController.cpp:504-510 | They are started in the order in which the plan ranks them. |
| `Reconciliation.PassIssuesAtMost32` | native/audio-helper/src/FilteredMonitorController.cpp:524-565 | A pass issues at most 32 mixer ids and never takes one back. |
| `ReconciliationRuns.ConvergesInTwo` | native/audio-helper/src/FilteredMonitorController.cpp:466-610 | From any agreeing state with a fixed plan, succeeding starts, expired leftovers, and planned captures that run or are due, dead ones included, two passes leave exactly the planned captures, all live, if they run in the second pass. |
| `ReconciliationRuns.ConvergesInOneIff` | native/audio-helper/src/FilteredMonitorController.cpp:524-610 | One such pass is enough if and only if the live and the planned captures fit into 32 slots together, since additions come before removals. |
| `ReconciliationRuns.ConvergedIsStable` | native/audio-helper/src/FilteredMonitorController.cpp:463-610 | Once the plan is reached and the captures keep running, a pass with the same plan starts, stops and reassigns nothing: every entry keeps its record and only gets a newer sighting time. |
| `ReconciliationRuns.FavourablePass` | native/audio-helper/src/FilteredMonitorController.cpp:463-610 | Such a pass keeps the planned captures that run and starts the others in rank order until the slots run out; everything else is gone. |
| `ReconciliationRuns.AddAllFillsSlots` | native/audio-helper/src/FilteredMonitorController.cpp:529-541 | With succeeding starts, candidates take slots in rank order until none is left. |
| `ReconciliationRuns.GraceOverRuns` | native/audio-helper/src/FilteredMonitorController.cpp:571-602 | Over any run with a monotone clock, an entry is removed for absence only if no pass within the preceding grace period planned it. |
| `ReconciliationRuns.SightingsAreRemembered` | native/audio-helper/src/FilteredMonitorController.cpp:468-471 | Over any run, an entry's sighting time is at least as late as every pass that planned it. |
| `ReconciliationRuns.UnplannedRemovedIffExpired` | native/audio-helper/src/FilteredMonitorController.cpp:573-603 | An unplanned entry is removed in a pass if and only if its last sighting is at least the grace period old; otherwise it is unchanged. |
| `ReconciliationRuns.BackoffOverRuns` | native/audio-helper/src/FilteredMonitorController.cpp:468-558 | While a process stays planned, the next start after a recorded failure begins at least 1, 2, 4, 8, then 30 seconds after the failed attempt began, by the number of consecutive failures. |
| `ReconciliationRuns.FailureIsRecorded` | native/audio-helper/src/FilteredMonitorController.cpp:541-558 | A failed start records one more consecutive failure than before and a retry exactly the backoff for that count later: 1, 2, 4, 8, then 30 seconds. |
| `ReconciliationRuns.StartedOnlyWhenDue` | native/audio-helper/src/FilteredMonitorController.cpp:473-481 | An entry is started again only when its retry time has come. |
| `DeadCaptures.DeadCaptureIsReplaced` | native/audio-helper/src/FilteredMonitorController.cpp:473-558 | A planned capture that stopped running is replaced in the very next pass: its slot is freed and not reused, and if the entry stays, a successful start gives it a slot issued in this pass, and a failed one leaves no capture and one failure. |
| `DeadCaptures.DueEntryIsRetried` | native/audio-helper/src/FilteredMonitorController.cpp:473-548 | A planned entry that is due and has no running capture is started: it goes if and only if the captures that stay alive and the earlier successful starts take all 32 slots, gets a newly issued slot on success, and counts one more failure otherwise. |
| `DeadCaptures.DeadSlotIsFreed` | native/audio-helper/src/FilteredMonitorController.cpp:514-522 | The slot of a dead capture is in no later table of the pass. |
| `DeadCaptures.UndisturbedUnlessDue` | native/audio-helper/src/FilteredMonitorController.cpp:468-501 | A planned entry whose capture runs, or whose retry time has not come, keeps its record and only gets a newer sighting time. |
| `LostEntries.PlannedEntryLostIff` | native/audio-helper/src/FilteredMonitorController.cpp:541-548 | An entry up for a start is lost in the pass, failure count included, if and only if the captures that stay alive and the earlier candidates that start successfully take all 32 slots. |
| `LostEntries.CrowdedRetryIsLost` | native/audio-helper/src/FilteredMonitorController.cpp:643-659 | It does happen: with 32 captures running, the retry of a planned entry with any number of failures loses it, although its start would succeed. |
| `LostEntries.SlotsAfterTurns` | native/audio-helper/src/FilteredMonitorController.cpp:529-541 | After any number of turns the slots taken are those taken before plus the successful starts, at most 32. |
| `ConvergenceOverRuns.EveryRunConverges` | native/audio-helper/src/FilteredMonitorController.cpp:463-610 | In every run, from any point at which the plan stops changing and its starts succeed: let the grace period and 30 seconds go by, whatever captures die meanwhile; if the captures run from then on, two passes later exactly the planned captures are active and live, and from then on each keeps its capture and slot. |
| `ConvergenceOverRuns.WaitingIsFavourable` | native/audio-helper/src/FilteredMonitorController.cpp:571-602 | Once that time has gone by, every unplanned entry is past its grace period and every planned one runs or is due for a start, dead captures included. |
| `ConvergenceOverRuns.EntriesAreClocked` | native/audio-helper/src/FilteredMonitorController.cpp:471-501 | At no point of a run is an entry seen in the future, or its retry more than 30 seconds away. |
| `Reconciliation.StartKeepsAgreementIff` | native/audio-helper/src/FilteredMonitorController.cpp:635-742 | A successful start keeps map and mixer in agreement if and only if the id it got is non-zero and unused, which the wrap of the counter may break. |
| `ReconciliationRuns.PlannedEntryStays` | native/audio-helper/src/FilteredMonitorController.cpp:468-501 | A planned entry that is not up for a start only gets a newer sighting time. |
| `FilteredMonitorController.FilteredMonitorController.ReconcileOnce` | native/audio-helper/src/FilteredMonitorController.cpp:397-629 | Returns false and changes nothing when the monitor, the mixer or the inventory is missing; otherwise both tables move exactly as one pass over the planner's result, and the agreement is kept. |
| `FilteredMonitorController.FilteredMonitorController.MoveTowardsPlan` | native/audio-helper/src/FilteredMonitorController.cpp:452-610 | The three phases, on the live map and mixer, amount to one pass of the specification. |
| `FilteredMonitorController.FilteredMonitorController.RefreshAndCollectRetries` | native/audio-helper/src/FilteredMonitorController.cpp:463-502 | Refreshes every planned entry, takes out exactly the ones due for a retry, and lists them with their failure counts and old slots. |
| `FilteredMonitorController.FilteredMonitorController.StopRetries` | native/audio-helper/src/FilteredMonitorController.cpp:514-522 | Frees exactly the slots the retried entries held. |
| `FilteredMonitorController.FilteredMonitorController.StartNew` | native/audio-helper/src/FilteredMonitorController.cpp:524-565 | Starts the candidates one after another, each with the failure count of its own retry. |
| `FilteredMonitorController.FilteredMonitorController.PriorOf` | native/audio-helper/src/FilteredMonitorController.cpp:530-539 | Finds the failure count of a retried identity, and none for a new one. |
| `FilteredMonitorController.FilteredMonitorController.StartOne` | native/audio-helper/src/FilteredMonitorController.cpp:541-558 | A repeated failure overwrites the fresh failure record with the grown count and backoff, and nothing else. |
| `FilteredMonitorController.FilteredMonitorController.AddSource` | native/audio-helper/src/FilteredMonitorController.cpp:635-742 | Reserves a slot, starts the capture, and on failure gives the slot back and records a first failure; a full mixer leaves no entry. |
| `FilteredMonitorController.FilteredMonitorController.ExpireAbsent` | native/audio-helper/src/FilteredMonitorController.cpp:567-610 | Whatever order the map is walked in, exactly the unplanned entries past grace are dropped with their slots. |
| `FilteredMonitorController.FilteredMonitorController.Start` | native/audio-helper/src/FilteredMonitorController.cpp:34-116 | Which outcome a start has up to the creation of the thread, and that the thread finds empty tables. |
| `FilteredMonitorController.FilteredMonitorController.Startup` | native/audio-helper/src/FilteredMonitorController.cpp:230-258 | The controller thread begins with one pass and reports the number of its entries; when the monitor or the first inventory fails it only reports so, and goes on running. |
| `FilteredMonitorController.FilteredMonitorController.Stop` | native/audio-helper/src/FilteredMonitorController.cpp:142-189 | A stopped controller holds no capture and no mixer. |
| `SlotTable.AddSlotSoundIff` | native/audio-helper/src/MultiSourceMixer.cpp:32-54 | Issuing an id keeps the table sound if and only if the id is non-zero and not in use. |
| `SlotTable.NextIdFresh` | native/audio-helper/src/MultiSourceMixer.cpp:40-46 | Until the 32-bit counter wraps, a new id is non-zero and unused. |
| `SlotTable.WrappedCounterLeaksSlot` | native/audio-helper/src/FilteredMonitorController.cpp:643-659 | After 2^32 - 1 ids the counter issues 0: the slot is taken although the controller is told that the limit was reached. |
| `SlotTable.RemoveOneMore` | native/audio-helper/src/MultiSourceMixer.cpp:63-82 | Freeing slots one by one, in any order, frees the set of them. |
| `SourcePlanner.Plan` | native/audio-helper/src/FilteredSourcePlanner.cpp:100-305 | The loops compute the ranked, deduplicated, truncated plan and all of its counters; total = system sounds + expired + invalid + Discord + ScreenLink + duplicates + limit-skipped + planned; active + inactive = total - system sounds - expired; validated live + failed lookups + inconsistent = total - system sounds. |
| `SourcePlanner.TallySessions` | native/audio-helper/src/FilteredSourcePlanner.cpp:113-246 | Each session is counted under its own verdict and its own state of identity, and the eligible candidates come in session order. |
| `SourcePlanner.IdentitiesPartition` | native/audio-helper/src/FilteredSourcePlanner.cpp:122-139 | Every session that is no system sound is validated and live, a failed lookup, or inconsistent, and only one of these. |
| `SourcePlanner.IndexRoots` | native/audio-helper/src/FilteredSourcePlanner.cpp:248-264 | The index maps each root to the entry that represents it, and every other entry of the root is counted as a duplicate. |
| `SourcePlanner.CollectCandidates` | native/audio-helper/src/FilteredSourcePlanner.cpp:266-271 | Walking the hash map in any order yields each representative once. |
| `SourcePlanner.VerdictsPartition` | native/audio-helper/src/FilteredSourcePlanner.cpp:113-246 | Every session has exactly one fate. |
| `SourcePlanner.RepresentativesRepresent` | native/audio-helper/src/FilteredSourcePlanner.cpp:248-264 | One candidate per root, taken from the entries, active if and only if some entry of the root is. |
| `SourcePlanner.PlanDeterminism` | native/audio-helper/src/FilteredSourcePlanner.cpp:248-304 | With roots named consistently, reordering or repeating sessions never changes the sequence of roots, names and active flags. |
| `SourcePlanner.PlanIsRankedAndDistinct` | native/audio-helper/src/FilteredSourcePlanner.cpp:273-303 | At most 32 sources, no process tree twice, in rank order. |
| `SourcePlanner.PlanMembers` | native/audio-helper/src/FilteredSourcePlanner.cpp:160-264 | A planned source stems from an eligible session, and is marked active if and only if some eligible session of its root is. |
| `SourcePlanner.PlanOmitsOnlyLowerRanked` | native/audio-helper/src/FilteredSourcePlanner.cpp:296-301 | An eligible root is left out only when 32 planned roots rank before it. |
| `SourcePlanner.PlanOrder` | native/audio-helper/src/FilteredSourcePlanner.cpp:276-294 | No inactive source precedes an active one; among equal flags the lower-case root names ascend, by the first differing character or as a proper prefix; among equal names the PIDs ascend, then the creation times. |
| `SourcePlanner.ActiveRootsComeFirst` | native/audio-helper/src/FilteredSourcePlanner.cpp:276-301 | A root with an active session is left out only when all 32 planned sources are active. |
| `PlanRules.EligibleIff` | native/audio-helper/src/FilteredSourcePlanner.cpp:113-245 | A session becomes a candidate exactly when its process is live and validated, its root is resolved, and no exclusion asked for matches it or its root; the candidate carries the root's identity and the session's names and state. |
| `PlanRules.RejectedIff` | native/audio-helper/src/FilteredSourcePlanner.cpp:116-243 | Which sessions are system sounds, expired or invalid, and that only a matching exclusion that was asked for excludes. |
| `PlanRules.ScreenLinkSessionIff` | native/audio-helper/src/FilteredSourcePlanner.cpp:50-98 | With a structured identity a session is the application's own exactly when its process or root is the known one by PID and creation time, its path is the application's, or its file name says so. |
| `PlanRules.LegacyPidIff` | native/audio-helper/src/FilteredSourcePlanner.cpp:82-95 | Without any structured identity only the file names and the single legacy PID count. |
| `PlanRules.ScreenLinkRootIff` | native/audio-helper/src/FilteredSourcePlanner.cpp:217-238 | A root is the application's own exactly when its file name says so or, unless it is named like Discord, its path is the helper or the application. |
| `PlanRules.ApplicationPathIff` | native/audio-helper/src/ExclusionPolicy.cpp:139-182 | A path is the application's exactly when it is the packaged executable or the entry point, or lies below the installation or the development root, neither of which may be a drive root or "Program Files". |
| `PlanRules.DiscordNames` | native/audio-helper/src/ExclusionPolicy.cpp:184-197 | Discord is recognised by exactly four file names, in any case and wherever they lie. |
| `PlanRules.CountersMean` | native/audio-helper/src/FilteredSourcePlanner.cpp:113-152 | What the verdict counters count, in terms of the session fields. |
| `PlanRules.RootIsSpokenForByFirst` | native/audio-helper/src/FilteredSourcePlanner.cpp:248-264 | The candidate that stands for a root is its first active entry or, when none is active, its first entry. |
| `SourcePlanner.PlanHonoursExclusions` | native/audio-helper/src/FilteredSourcePlanner.cpp:190-243 | Every planned source stems from a live, validated session that matches no exclusion the options ask for, neither itself nor by its root. |
| `CandidateOrder.RankedUnique` | native/audio-helper/src/FilteredSourcePlanner.cpp:276-294 | Two ranked sequences with the same elements are the same: the order is strict and total. |
| `CandidateOrder.SortRanks` | native/audio-helper/src/FilteredSourcePlanner.cpp:276-294 | Sorting keeps the candidates and ranks them. |
| `CandidateOrder.SortIgnoresOrder` | native/audio-helper/src/FilteredSourcePlanner.cpp:268-294 | The sorted result does not depend on the order in which the hash map was walked. |
| `CandidateOrder.BeforeMeans` | native/audio-helper/src/FilteredSourcePlanner.cpp:276-294 | The comparator: active first, then names, then PIDs, then creation times. |
| `CandidateOrder.StringLessIsAlphabetical` | native/audio-helper/src/FilteredSourcePlanner.cpp:283-287 | A name precedes another exactly when its character is the smaller one at the first difference, or it is a proper prefix. |
| `PlannedRoots.SnapshotPlanDeterminism` | native/audio-helper/src/FilteredSourcePlanner.cpp:160-304 | On one process snapshot the plan depends only on the set of sessions. |
| `PlannedRoots.PlannedSourcesAreNotNested` | native/audio-helper/src/FilteredSourcePlanner.cpp:160-183 | No two planned roots lie on one unbroken same-executable line of ancestors; asked is only that the eligible sessions are settled up to their roots. |
| `ProcessResolver.FindApplicationRootIndex` | native/audio-helper/src/ProcessResolver.cpp:166-208 | Finds the end of the longest unbroken run of same-family ancestors, and says whether a name comparison was needed on the way. |
| `ProcessResolver.RootIndexIsMaximal` | native/audio-helper/src/ProcessResolver.cpp:181-205 | No unbroken run of qualifying ancestors reaches past the root. |
| `ProcessResolver.RootReachesIff` | native/audio-helper/src/ProcessResolver.cpp:94-205 | The climb reaches an ancestor exactly when it and all before it are no system processes, can be queried, and run the same executable: by path in any case or, where a path is unknown, by name. |
| `ProcessResolver.ShellEndsTheClimb` | native/audio-helper/src/ProcessResolver.cpp:143-163 | The shell and the service processes never become a root. |
| `ProcessResolver.ResolvedRootIsDescribed` | native/audio-helper/src/ProcessResolver.cpp:262-325 | The result is the process on the target's chain at which the climb ends, with its path, its creation time, and a name taken from the path where there is one. |
| `ProcessResolver.ChainFollowsParents` | native/audio-helper/src/ProcessResolver.cpp:236-253 | The chain follows the parents and ends before PID 0, behind a process without an entry, or at the cap. |
| `ProcessResolver.WalkChain` | native/audio-helper/src/ProcessResolver.cpp:236-253 | The walk yields the parent chain, cut at 256 processes. |
| `RootStability.RootStabilityIff` | native/audio-helper/src/ProcessResolver.cpp:210-329 | With known paths up to the root, every process from a session to its root resolves to that same root if and only if the walk was not cut at its length cap below one more process of the family, whatever lies above the root. |
| `RootStability.RootStability` | native/audio-helper/src/ProcessResolver.cpp:240-253 | The same for the cap of 256 processes. |
| `RootStability.CycleIsUnstable` | native/audio-helper/src/ProcessResolver.cpp:240-253 | Such a circle exists with all paths known: the walk is cut and the two processes swap roots. |
| `RootStability.ExitedAncestorsDoNotMatter` | native/audio-helper/src/ProcessResolver.cpp:240-253 | An ordinary line, from an application over the shell to a parent that has exited, meets all that stability asks for. |
| `RootStability.SettledOnTheWay` | native/audio-helper/src/ProcessResolver.cpp:166-208 | What stability asks for holds for every process on the way to the root as well. |
| `RootStability.ResolutionIdempotent` | native/audio-helper/src/ProcessResolver.cpp:308-328 | Resolving a root that was not cut short gives the root itself. |
| `RootStability.RootsAreNotNested` | native/audio-helper/src/ProcessResolver.cpp:166-208 | Roots connected by an unbroken line of same-family ancestors are one root. |
| `RootStability.ParentCycleSwapsRoots` | native/audio-helper/src/ProcessResolver.cpp:240-253 | A cut walk for real: of two processes of one executable that are each other's parents, each is the root of the other. |
| `ExclusionPolicy.ContainmentIsComponentPrefix` | native/audio-helper/src/ExclusionPolicy.cpp:101-133 | A path is inside a directory if and only if the directory's components are a proper prefix of its own and the directory is no rejected broad root. |
| `ExclusionPolicy.PrefixIsComponentPrefix` | native/audio-helper/src/ExclusionPolicy.cpp:121-132 | The string test with a trailing separator is the component test. |
| `ExclusionPolicy.ContainmentIrreflexive` | native/audio-helper/src/ExclusionPolicy.cpp:101-133 | No path is inside itself. |
| `ExclusionPolicy.ContainmentTransitive` | native/audio-helper/src/ExclusionPolicy.cpp:101-133 | Inside of inside is inside. |
| `ExclusionPolicy.DevelopmentTreeIsExcluded` | native/audio-helper/src/ExclusionPolicy.cpp:226-270 | Everything below a directory of the development root is excluded, however deep. |
| `Text.IEqualsScan` | native/audio-helper/src/ExclusionPolicy.cpp:18-27 | The scan says whether two strings are equal after lower-casing. |
| `Text.IEqualsIsEqualityOfLower` | native/audio-helper/src/ProcessResolver.cpp:80-89 | Case-insensitive equality is equality of the lower-cased strings. |
| `Text.BasenameMeans` | native/audio-helper/src/ExclusionPolicy.cpp:41-49 | The file name is what stands behind the last backslash, or without one behind the last slash. |
| `MultiSourceMixer.MultiSourceMixer.MixOnce` | native/audio-helper/src/MultiSourceMixer.cpp:340-498 | One interval takes at most one packet per source. Every output sample lies in [-1, 1] and is the sum over the audible sources of their sample for that frame and channel, times the headroom, where that is in range, and otherwise the nearer bound; block energy never exceeds the summed energy of the mixed sources; the block is silent exactly when all its samples are within 1e-8 of zero. |
| `MultiSourceMixer.RenderBlock` | native/audio-helper/src/MultiSourceMixer.cpp:444-481 | Mixing and clamping yield that sample for every frame and channel, in range, with the energy bound. |
| `MultiSourceMixer.MultiSourceMixer.CollectContributions` | native/audio-helper/src/MultiSourceMixer.cpp:369-433 | Each source contributes its oldest fresh packet and keeps the rest. |
| `MultiSourceMixer.MultiSourceMixer.CollectCounted` | native/audio-helper/src/MultiSourceMixer.cpp:419-439 | As many contributions are mixed as sources had an audible packet to give, which is the number the headroom is made for. |
| `MultiSourceMixer.MultiSourceMixer.AddSource` | native/audio-helper/src/MultiSourceMixer.cpp:32-54 | Adds one empty source under the next id, or returns 0 and changes nothing when 32 are in use. |
| `MultiSourceMixer.MultiSourceMixer.RemoveSource` | native/audio-helper/src/MultiSourceMixer.cpp:63-82 | Removes the first source with the id and leaves every other source as it is. |
| `MultiSourceMixer.MultiSourceMixer.FeedPacket` | native/audio-helper/src/MultiSourceMixer.cpp:84-136 | Queues an owned copy with the source that has the id; an unknown id changes nothing. |
| `MixerQueue.CaptureSource.Feed` | native/audio-helper/src/MultiSourceMixer.cpp:100-135 | Appends a packet, dropping the oldest of four, and counts a discontinuity when the sequence number does not follow on. |
| `MixerQueue.CaptureSource.PurgeStale` | native/audio-helper/src/MultiSourceMixer.cpp:380-392 | Drops the stale prefix and counts it. |
| `MixerQueue.CaptureSource.Collect` | native/audio-helper/src/MultiSourceMixer.cpp:378-430 | Purges, then takes the oldest packet; without one it reports nothing. |
| `MixerQueue.CaptureSource.Clear` | native/audio-helper/src/MultiSourceMixer.cpp:70-74 | What is cleared with a removed source was neither consumed nor dropped. |
| `MixerQueue.CaptureSource.Bookkeeping` | native/audio-helper/src/MultiSourceMixer.cpp:100-135 | Fed = consumed + dropped + cleared + queued, depth at most 4, and the consumed packets are an in-order subsequence of those fed before the queue. |
| `MixerQueue.RemainingIsFresh` | native/audio-helper/src/MultiSourceMixer.cpp:380-392 | With a monotone clock, purging the front leaves no packet older than 500 ms anywhere in the queue. |
| `MixerQueue.CollectedByAge` | native/audio-helper/src/MultiSourceMixer.cpp:367-430 | An interval drops the leading packets more than 500 ms old, mixes the next one unless it is silent, with its own samples, size and flag, and leaves the rest. |
| `MixerQueue.ArrivalKeepsNewest` | native/audio-helper/src/MultiSourceMixer.cpp:100-112 | After an arrival the queue holds the newest packets, at most four. |
| `MixBlock.MixContributions` | native/audio-helper/src/MultiSourceMixer.cpp:449-470 | The nested loops add every audible source at its frame and channel, all indices in bounds. |
| `MixBlock.AddContribution` | native/audio-helper/src/MultiSourceMixer.cpp:456-467 | One source adds its scaled samples where it has any and changes nothing elsewhere. |
| `MixBlock.ClampBlock` | native/audio-helper/src/MultiSourceMixer.cpp:472-481 | Every sample ends up at the value in [-1, 1] nearest to it, and exactly the clipped ones are counted. |
| `MixBlock.MixIsFrameSum` | native/audio-helper/src/MultiSourceMixer.cpp:449-470 | What is mixed at an output position is the sum of the sources' samples for that frame and channel. |
| `MixBlock.MixedSamplesAreFrames` | native/audio-helper/src/MultiSourceMixer.cpp:449-481 | A block of such samples is the clamped, scaled frame sum everywhere. |
| `MixMath.ClampIsNearest` | native/audio-helper/src/MultiSourceMixer.cpp:474-479 | The clamped value lies in [-1, 1], is the sample itself there, and no other value in range is as near. |
| `MixMath.SilentMeansTiny` | native/audio-helper/src/AudioPacketAnalysis.h:20-61 | A packet counts as silent exactly when no sample exceeds 1e-8 in magnitude. |
| `MixBlock.IndexInBounds` | native/audio-helper/src/MultiSourceMixer.cpp:461-466 | Frame and channel indices stay inside a packet. |
| `MixBlock.BlockEnergyBound` | native/audio-helper/src/MultiSourceMixer.cpp:435-481 | The energy of a mixed block is at most the energy of its sources, for any number, length and channel count of packets. |
| `MixMath.MixedSampleEnergy` | native/audio-helper/src/MultiSourceMixer.cpp:435-481 | The same bound for one sample, clamping included. |
| `MixMath.CauchySchwarz` | native/audio-helper/src/MultiSourceMixer.cpp:435-439 | The square of a sum of n samples is at most n times their energy; with headroom 1/sqrt(n) the factor cancels. |
| `MixMath.MeasurePacketEnergy` | native/audio-helper/src/AudioPacketAnalysis.h:37-61 | Peak, energy and audible count of any buffer, empty ones included. |
| `PcmQueue.PcmPacketQueue.Push` | native/audio-helper/src/PipeTransport.cpp:81-113 | Evicts over-age packets from the front, then as many as the capacity demands, then appends. |
| `PcmQueue.PcmPacketQueue.TryPop` | native/audio-helper/src/PipeTransport.cpp:115-121 | Hands out the oldest packet, if any. |
| `PcmQueue.PcmPacketQueue.Reset` | native/audio-helper/src/PipeTransport.cpp:137-141 | Starts the accounts anew. |
| `PcmQueue.PcmPacketQueue.EvictOverAge` | native/audio-helper/src/PipeTransport.cpp:89-102 | Evicts exactly the leading packets past the age limit, for any timestamps and frequencies. |
| `PcmQueue.ArrivalDrops` | native/audio-helper/src/PipeTransport.cpp:85-108 | With clock readings that do not wrap: all leading stamped packets at least 250 ms old are dropped; below capacity nothing else is, and otherwise a younger one only so that exactly one place is free. |
| `PcmQueue.OverAgeMeans` | native/audio-helper/src/PipeTransport.cpp:89-102 | Without a wrap, over age means stamped and at least a quarter of a second old by the packet's own frequency. |
| `PcmQueue.PcmPacketQueue.Bookkeeping` | native/audio-helper/src/PipeTransport.cpp:81-141 | Between resets pushed = popped + dropped + size, the queue is a contiguous suffix of everything pushed, and the popped packets are an in-order subsequence. |
| `FifoHistory.Conservation` | native/audio-helper/src/PipeTransport.cpp:81-121 | Everything that entered a drop-oldest queue was taken, dropped, cleared or is still in it. |
| `FifoHistory.TakenIsSubsequence` | native/audio-helper/src/PipeTransport.cpp:81-121 | What a drop-oldest queue hands out keeps the order of arrival. |
| `PcmQueue.ValidHeaderFitsPacket` | native/audio-helper/src/PipeTransport.cpp:147-192 | An accepted header fits the reader's buffer and describes whole frames. |
| `PcmQueue.HeaderAcceptedIff` | native/audio-helper/src/PipeTransport.cpp:147-192 | The checks accept exactly headers with the fixed values, 1 to 960 frames, at most 1920 samples, and a payload of just these samples. |
| `WakeProtocol.NoWakeUpIsLost` | native/audio-helper/src/FilteredMonitorController.cpp:263-355 | In every interleaving of any number of notifiers, stops and the controller thread, the controller is never asleep, or about to sleep, with an unseen generation or stop flag unless some thread still owes a notify. |
| `WakeProtocol.StepKeepsInv` | native/audio-helper/src/FilteredMonitorController.cpp:327-350 | Every atomic step keeps that, together with mutual exclusion on the wake mutex. |
| `WakeProtocol.AsleepMeansServed` | native/audio-helper/src/FilteredMonitorController.cpp:331-348 | Asleep with nothing owed means that the last iteration began after the last notification. |
| `WakeProtocol.ServedInBoundedSteps` | native/audio-helper/src/FilteredMonitorController.cpp:265-355 | A pending notification or stop is followed by a new iteration or by exit within a bounded number of steps, five more for each notification that begins meanwhile. |
| `WakeProtocol.SomeoneCanMove` | native/audio-helper/src/FilteredMonitorController.cpp:811-816 | Until then some thread can move, with no help from the clock. |
| `WakeProtocol.WrappedGenerationLooksSeen` | native/audio-helper/src/FilteredMonitorController.cpp:337 | 2^64 increments between two loads look like none, so the bound on them is needed. |
| `ServiceGate.PushedInAllocationOrder` | native/audio-helper/src/ServiceSession.cpp:2498-2595 | With starts from idle, packets are pushed in the order in which their generations were allocated, each stamped with its own non-zero one, whatever the interleaving of checks, pushes, stops and ends. |
| `ServiceGate.StepKeepsInvIff` | native/audio-helper/src/ServiceSession.cpp:1127-1161 | Every atomic step keeps: at most one source alive, of the newest generation, and none in the idle state; except that an application start while an earlier source is alive always breaks it. |
| `ServiceGate.NothingPushedWhileQuiet` | native/audio-helper/src/ServiceSession.cpp:1145-1161 | Between a completed stop and the next start nothing is pushed. |
| `ServiceGate.StoppedMeansQuiet` | native/audio-helper/src/ServiceSession.cpp:1147-1156 | A completed stop has no source left. |
| `ServiceGate.AtMostOneInFlight` | native/audio-helper/src/ServiceSession.cpp:2505-2516 | Once the service has left the capturing state, at most the one packet past both checks is still pushed. |
| `ServiceGate.ApplicationStartSafeIff` | native/audio-helper/src/ServiceSession.cpp:1728 | The application start, which does not check for idle, keeps the order in every continuation if and only if no earlier source is alive; the idle state guarantees that. |
| `ServiceStops.StopStops` | native/audio-helper/src/ServiceSession.cpp:1127-1161 | After a stop or shutdown request, and until a start is accepted, the service never captures in any continuation: at most the one packet past both checks is pushed, and when it waits for requests again it is idle with no source alive. |
| `ServiceStops.StopCompletes` | native/audio-helper/src/ServiceSession.cpp:1145-1156 | Some run completes every stop: the sources end, are joined and released, and the service waits in the idle state with no active generation. |
| `ServiceStops.StopIsAccepted` | native/audio-helper/src/ServiceSession.cpp:1127-1161 | A stop or shutdown is accepted in every waiting state, and a stop while capturing takes effect. |
| `ServiceStops.StartStarts` | native/audio-helper/src/ServiceSession.cpp:1962-1992 | An accepted start with nothing failing leads to the capturing state with one new source, of a new generation that is the active one. |
| `ServiceStops.PacketGetsThrough` | native/audio-helper/src/ServiceSession.cpp:2498-2530 | A packet of the active generation is pushed while the service captures. |
| `ServiceStops.PushesAreChecked` | native/audio-helper/src/ServiceSession.cpp:2498-2530 | Only a packet that has passed both checks is pushed, with its own stamp. |
| `ServiceStops.OtherGenerationsAreRejected` | native/audio-helper/src/ServiceSession.cpp:2498-2516 | Along any run in which its generation is never the active one, or is zero, no packet of a source passes a check. |
| `GenerationAllocator.GenerationAllocator.Allocate` | native/audio-helper/src/ServiceSession.cpp:2488-2496 | The loop returns generation number k of a cycle through 1 to 2^32 - 1, across the wrap, never zero. |
| `GenerationAllocator.SameGenerationIff` | native/audio-helper/src/ServiceSession.cpp:2488-2496 | Two allocations agree if and only if their numbers differ by a multiple of 2^32 - 1, so any 2^32 - 1 consecutive ones are distinct. |
| `JsonSearch.MatchIffOwnField` | native/audio-helper/src/ServiceSession.cpp:160-163 | In a flat object with alphanumeric keys a key pattern is found exactly at the start of the fields with that key, never inside or across another. |
| `JsonSearch.FindsOwnField` | native/audio-helper/src/ServiceSession.cpp:160-164 | With distinct keys the first match is the field's own. |
| `JsonSearch.FindsStringField` | native/audio-helper/src/ServiceSession.cpp:86-90 | The pattern for strings finds the field if and only if its value is quoted. |
| `JsonSearch.AbsentKeyNotFound` | native/audio-helper/src/ServiceSession.cpp:160-163 | A key is not found if and only if no field has it. |
| `JsonSearch.QuotedHidesNoKey` | native/audio-helper/src/ServiceSession.cpp:179-204 | No key pattern starts inside a quoted value, because inner quotes are escaped. |
| `JsonText.EscapedQuotes` | native/audio-helper/src/ServiceSession.cpp:179-204 | In an escaped string every quote follows a backslash. |
| `JsonText.EscapedIsPrintable` | native/audio-helper/src/ServiceSession.cpp:179-204 | An escaped string has no character below 0x20. |
| `JsonText.EscapeJson` | native/audio-helper/src/ServiceSession.cpp:179-204 | The loop escapes character by character. |
| `JsonText.ScanString` | native/audio-helper/src/ServiceSession.cpp:90-113 | The scanning loop reads token by token up to the closing quote. |
| `JsonText.ReadBackIff` | native/audio-helper/src/ServiceSession.cpp:95-108 | Printing and reading gives a string back if and only if it has no character below 0x20 other than newline, carriage return and tab (string escapes of section 7 of RFC 8259). |
| `JsonText.IntRoundTrip` | native/audio-helper/src/ServiceSession.cpp:116-132 | A printed integer parses to its own sign and magnitude. |
| `SimpleJson.StringFieldRoundTrip` | native/audio-helper/src/ServiceSession.cpp:39-114 | A string field set by the builder reads back exactly if and only if it has no control character other than newline, carriage return and tab. |
| `SimpleJson.StringFieldReadsBack` | native/audio-helper/src/ServiceSession.cpp:86-114 | What a string field reads back as, character by character. |
| `SimpleJson.IntFieldRoundTrip` | native/audio-helper/src/ServiceSession.cpp:50-132 | Integer fields read back exactly where they fit into 64 bits, signed and unsigned; unsigned reading takes a negative one modulo 2^64, and anything else gives the default. |
| `SimpleJson.BoolFieldRoundTrip` | native/audio-helper/src/ServiceSession.cpp:60-140 | A flag reads back as present, and as true exactly when it was set to true. |
| `SimpleJson.AbsentFieldIsEmpty` | native/audio-helper/src/ServiceSession.cpp:86-164 | A field that nobody set reads as absent, so that readers give their default. |
| `SimpleJson.SetFieldsAreOneLine` | native/audio-helper/src/ServiceSession.cpp:34-81 | Whatever strings, numbers and flags are set, the rendered message has no line break, as the framing needs. |
| `SimpleJson.TwoFields` | native/audio-helper/src/ServiceSession.cpp:73-81 | Fields are printed in order with a comma between them. |
| `SimpleJson.RawFieldRoundTrip` | native/audio-helper/src/ServiceSession.cpp:160-175 | A raw value without quotes, separators or blanks reads back exactly. |
| `SimpleJson.DecimalStringRoundTrip` | native/audio-helper/src/ServiceSession.cpp:315-346 | A 64-bit number sent as a decimal string reads back exactly. |
| `SimpleJson.SetFieldsAreFlat` | native/audio-helper/src/ServiceSession.cpp:34-63 | Objects built from string, integer and boolean fields are flat, so the search theorems apply. |
| `SimpleJson.ParseUint64DecimalString` | native/audio-helper/src/ServiceSession.cpp:315-346 | Accepts exactly the non-empty digit strings below 2^64 and returns their value, 0 otherwise. |
| `SimpleJson.GetRawValue` | native/audio-helper/src/ServiceSession.cpp:160-175 | The loops cut out the raw value behind the first match. |
| `SimpleJson.GetString` | native/audio-helper/src/ServiceSession.cpp:86-114 | Reads the string behind the first match, empty when there is none. |
| `SimpleJson.SimpleJson.Str` | native/audio-helper/src/ServiceSession.cpp:73-81 | Renders the fields in order, separated by commas. |
| `SimpleJson.SimpleJson.SetString` | native/audio-helper/src/ServiceSession.cpp:39-42 | Adds a quoted, escaped field behind the others. |
| `LineFraming.FramingIndependence` | native/audio-helper/src/ServiceSession.cpp:528-636 | The requests served, up to the first shutdown, and the leftover depend only on the bytes and not on how reads split them, when no read before that ends inside a line longer than 65536. |
| `LineFraming.FramingExactIff` | native/audio-helper/src/ServiceSession.cpp:632-635 | A connection ends up with exactly the lines and the rest of its bytes if and only if no read ended inside such a line and no line was a shutdown. |
| `LineFraming.FramingExactAtEveryReadIff` | native/audio-helper/src/ServiceSession.cpp:528-636 | After every read the connection is where the bytes say, shutdowns included, if and only if no read before the first shutdown ended inside a line that was too long. |
| `LineFraming.ClearedLineCanGoUnnoticed` | native/audio-helper/src/ServiceSession.cpp:632-635 | Looking at the end alone is not enough: an over-long line that is cleared, and then sent again as a shutdown, leaves the very result predicted. |
| `LineFraming.NothingLostIff` | native/audio-helper/src/ServiceSession.cpp:632-635 | A running connection has lost characters if and only if it cleared an over-long line. |
| `LineFraming.SplitConcat` | native/audio-helper/src/ServiceSession.cpp:546-552 | Only the unfinished line of what was read before matters for what follows. |
| `LineFraming.TerminatedReadsBack` | native/audio-helper/src/ServiceSession.cpp:546-552 | Pieces sent with a line break each come out as the lines, in order, without the empty ones, and what follows the last break is the unfinished line. |
| `LineFraming.StopIsLast` | native/audio-helper/src/ServiceSession.cpp:549-630 | The first shutdown request is served, and nothing after it. |
| `LineFraming.ServedWithoutStop` | native/audio-helper/src/ServiceSession.cpp:549-630 | Without one every line is served. |
| `LineFraming.Connection.OnRead` | native/audio-helper/src/ServiceSession.cpp:546-635 | One read dispatches the finished non-empty lines up to a shutdown, keeps the rest, and clears it when it is too long. |
| `LineFraming.Connection.DispatchLines` | native/audio-helper/src/ServiceSession.cpp:549-630 | The inner loop dispatches every finished line in order, skipping empty ones, and stops at a shutdown. |
| `SyntheticPacing.SyntheticSource.Run` | native/audio-helper/src/SyntheticSource.cpp:131-295 | For any clock and callback, packet k has the sequence number, position, timestamp, content and flags of its slot, and the run ends exactly at the packet count, at a rejection or with the script. |
| `SyntheticPacing.SyntheticSource.Pace` | native/audio-helper/src/SyntheticSource.cpp:241-293 | The deadline moves on by one interval and by every missed one, after which the clock lags by less than one. |
| `SyntheticPacing.SyntheticSource.Advance` | native/audio-helper/src/SyntheticSource.cpp:235-294 | Position, sequence number and deadline move to the same next slot, and a jump leaves a pending discontinuity. |
| `SyntheticPacing.SyntheticSource.Build` | native/audio-helper/src/SyntheticSource.cpp:138-229 | One packet with the properties its mode gives it, the 100 ms jump of a one-off discontinuity included; a pending discontinuity is consumed. |
| `SyntheticPacing.PositionInLockstep` | native/audio-helper/src/SyntheticSource.cpp:219-237 | Position is frames per packet times (sequence number minus left-out numbers). |
| `SyntheticPacing.LagUnderOneInterval` | native/audio-helper/src/SyntheticSource.cpp:242-293 | After pacing the clock is less than one interval behind the packet's slot, slots are jumped over only when the clock has reached the new one, and the slot gives position and sequence number. |
| `SyntheticPacing.DiscontinuousIffGapOrMarked` | native/audio-helper/src/SyntheticSource.cpp:208-223 | A packet after the first is discontinuous if and only if its sequence number does not follow on or its mode marks it. |
| `SyntheticPacing.EndOfStreamIsLast` | native/audio-helper/src/SyntheticSource.cpp:177-186 | In a finite run that is never rejected exactly the last packet ends the stream. |
| `SyntheticPacing.ModeMeans` | native/audio-helper/src/SyntheticSource.cpp:72-203 | In a finite run: which packets are silent (all, or the middle third), which are marked discontinuous, which timestamp jumps by 100 ms, and which packet ends the stream. |
| `SyntheticPacing.UnpacedSequence` | native/audio-helper/src/SyntheticSource.cpp:219-237 | Without pacing, packet k has position k times the packet size and sequence number k, one more from the middle of the run on when a number is skipped. |
| `SyntheticPacing.OnlyEventsMark` | native/audio-helper/src/SyntheticSource.cpp:138-216 | Without pacing, exactly the event packet of the mode is discontinuous. |
| `EndpointRecovery.EndpointLoopbackSource.CaptureThread` | native/audio-helper/src/EndpointLoopbackSource.cpp:727-1183 | For every script of answers the thread ends with a sound log, holding nothing, with at most one startup signal. It acquires more than n sessions exactly when the first one opens and n device losses in a row are recovered before any stop request; every session but possibly the last is captured, and startup is reported as a success exactly when some session is captured. |
| `EndpointRecovery.EndpointLoopbackSource.RecoverEndpoint` | native/audio-helper/src/EndpointLoopbackSource.cpp:666-721 | Succeeds exactly when one of the four attempts, after 250, 500, 1000 and 2000 ms of waiting, is answered well before a stop request, with the first such answer; a failure has made all four attempts or been stopped. |
| `EndpointRecovery.EndpointLoopbackSource.CaptureRound` | native/audio-helper/src/EndpointLoopbackSource.cpp:824-1166 | A round releases its session on every path and reports startup once. Another round follows exactly when the engine starts, the device is lost after quiet rounds only, and an attempt brings it back, all before a stop request; it has the new session in hand. |
| `EndpointRecovery.EndpointLoopbackSource.OpenSession` | native/audio-helper/src/EndpointLoopbackSource.cpp:766-822 | At first a fresh session, or one recovered where the failure allows it, or a reported failure when neither answer is there; later the recovered session. |
| `EndpointRecovery.EndpointLoopbackSource.TryAgain` | native/audio-helper/src/EndpointLoopbackSource.cpp:670-710 | Waits out one backoff in 10 ms steps unless a stop request comes, then makes one attempt and takes its session if it is answered well. |
| `EndpointRecovery.EndpointLoopbackSource.BeginCapture` | native/audio-helper/src/EndpointLoopbackSource.cpp:828-885 | Starts the engine unless a stop request comes first, reports the startup accordingly, and releases a session that is not captured. |
| `EndpointRecovery.EndpointLoopbackSource.CaptureUntilLost` | native/audio-helper/src/EndpointLoopbackSource.cpp:887-1148 | Captures until the first answer that is no quiet round, releases session and sink, and says whether the device was lost without a stop request. |
| `EndpointAnswers.RecoversIff` | native/audio-helper/src/EndpointLoopbackSource.cpp:666-721 | In plain answers: a recovery succeeds exactly when the answer after 25, 76, 177 or 378 earlier ones is good and no stop request comes before it. |
| `EndpointAnswers.GoesOnIff` | native/audio-helper/src/EndpointLoopbackSource.cpp:1121-1163 | In plain answers, when another round follows a round. |
| `EndpointAnswers.OpensIff` | native/audio-helper/src/EndpointLoopbackSource.cpp:766-822 | In plain answers, when the first session opens. |
| `EndpointAnswers.SurvivesNext` | native/audio-helper/src/EndpointLoopbackSource.cpp:757-1167 | After a recovered loss the thread survives n more exactly when no stop request comes and the next round survives n - 1. |
| `SessionAudit.EndedRun` | native/audio-helper/src/EndpointLoopbackSource.cpp:746-1178 | In such a log each acquired session is released exactly once, at most one is held at any moment, startup is signalled at most once and no recovery makes more than four attempts. |
| `SessionAudit.SoundLogBalances` | native/audio-helper/src/EndpointLoopbackSource.cpp:824-840 | At any moment every session but the one held has been released as often as acquired. |
| `SessionAudit.SoundLogUnregisters` | native/audio-helper/src/EndpointLoopbackSource.cpp:1127-1141 | Every notification sink is unregistered once, while its session is still held. |

## Left out

- COM, WASAPI, pipes, handles, timers, thread creation and logging: their outcomes are arbitrary inputs.
- Diagnostics that feed no decision: dropped frames, peaks and RMS in the diagnostics, missed frames of the synthetic source.
- Path canonicalisation: `GetFullPathNameW` is an arbitrary function whose results keep at most the trailing separator of a drive root.
- Floating point: samples are reals and the headroom is a positive h with h*h*n = 1; rounding, tone generation, decibels and RMS are not modelled.
- `LinearResampler` and `ChannelDownmixer`: no capture path calls them.
- RootStability.RootStabilityIff: asks for known paths from the process to its root, and for a decided comparison with the root's parent, because the basename fallback is not transitive.
- Plan counters, failure counts, sequence numbers, positions and packet counts are unbounded; the widths that matter are modelled (mixer ids, generations, wake generation, PCM drop count and age, boundaries of the synthetic modes).
- Reconciliation.AgreementOverRuns: holds until 2^32 mixer ids have been issued; `WrappedCounterLeaksSlot` shows what the wrap does.
- FilteredMonitorController.FilteredMonitorController.Stop: the moment inside it when the map is cleared but the slots are still taken is not covered by the agreement; reinitialising the session monitor is not modelled.
- FilteredMonitorController.FilteredMonitorController.Start: does not model the wait for the thread's report, whose timeout makes the caller see a failure.
- Packets fed by a callback that still holds a source which has just been removed from the mixer.
- Memory ordering: every atomic load and store of the two protocols is one step of one interleaving.
- ServiceGate.PushedInAllocationOrder: assumes that a thread-based capture is not started over an unjoined `captureThread_`, which ends the process; process shutdown from the parent monitor thread is not modelled.
- Application start over a running application source: the old source's destruction is not modelled.
- JSON: doubles, nested objects, `GetObject`, duplicate keys and hand-concatenated results; a character stands for one byte.
- LineFraming.FramingIndependence: which lines are shutdown requests (authentication and dispatch) is an arbitrary predicate on lines.
- SyntheticPacing.SyntheticSource.Run: the packet interval is positive when pacing, since the code divides by it; the timer and the conversion of the clock to units of 100 ns are not modelled.
- Endpoint recovery measures time in its 10 ms sleeps, and the stop flag is read once with each question to the environment.
- Command dispatch, capability probing, WAV writing, the video helper and the TypeScript managers: pure plumbing, or only easy members.
