# Reactor's decision core

Reactor moves Kubernetes targets (Deployments, StatefulSets, CronJobs, Nodes) between levels while
conditions observed on a UniFi console hold, and puts them back afterwards. This project models how it
decides and how it writes, and proves what those two promise together:

- **The state store and its poller** (`Debounce`, `StateStore`, `StoreHistory`, `Poller`). Per key, a
  changed value is reported only after enough consecutive samples. The class is proved against a
  one-observation function, and that function against the whole history of observations. The poller
  is a loop on a clock; however many nudges arrive, they cannot shorten the proof a value needs.
- **Arbitration** (`Arbiter`, `Automations`, `Evaluation`, `Fields`, `Arbitration`, `Outcomes`,
  `Confluence`, `HoldWindow`, `Preview`, `Disagreement`, `Forecast`). One target's level is the lowest
  of what is claimed, or the lowest of what is handed back. The loops that gather, fold, report and
  write are methods; that the answer does not depend on who runs a pass, in which order, or when, is
  proved over whole runs. `Fields` says in terms of the spec's fields and the reported state alone what
  one Automation asks, and `Outcomes` where that leaves a target and what is reported.
- **The claim and release protocol** (`ApiServer`, `ClaimProtocol`, `ClaimRuns`, `Interleaving`,
  `Stranding`, `LostLevels`, `LevelWrites`). `ClaimProtocol` is the code, from a copy of any age,
  against a server that may drop any call or lose its answer. `ClaimRuns` is any run of passes one after
  another, with failures at every call and edits by others. `Interleaving` is any number of claims and
  releases in flight at once, each from any version there ever was, one API call a step. `Stranding`
  says exactly when a claim can then write with nothing recorded, `LostLevels` exactly when a baseline
  comes to name a level that only a claim set, and `LevelWrites` where overlapping claims and releases
  leave the level.
- **One reconcile and its edge** (`TargetPasses`, `EdgeActions`, `Reconciling`, `Reactions`,
  `CommitThenFire`, `Retry`). `Reconciling` is the code of one reconcile; `Reactions` says what it comes
  to, field by field; `CommitThenFire` is every interleaving of reconciles of one Automation from stale
  reads, with crashes and ambiguous writes.
- **The uninstall sweep** (`Release`).
- **Addressing and rewriting console documents** (`OutletRefs`, `ConsoleDocuments`).

`Text`, `Collecting` and `TargetKinds` hold what the rest shares.

A level is an integer, a lower one more restrictive; for a switch 0 is set and 1 is clear. An API call
that does not come back cleanly (a crash, a timeout, a refusal, a lost answer) is a `Fault`, and no
contract assumes there are none except where it says so. Map iteration order is arbitrary: every loop
over a map picks its next key freely.

## Where the code does not do quite what its comments say

- `internal/controller/arbitration.go:537-539` says that an Automation asking for no level on a target
  would change nothing about it by being put in force. It adds no claim, but while it is out of force
  its declared reversal counts in a release, and in force and matching it does not.
  `Preview.SilentAutomationChangesNothingWhen` proves that it changes nothing exactly when the target is
  not claimed, or somebody else claims it, or the Automation hands nothing back, or the others hand the
  target back at the same level without it. `Preview.SilentAutomationChangesThis` is a target it changes.
- A claim whose copy already shows a baseline writes without the lock, and a release clears without one
  (`internal/controller/arbitration.go:866`, `918-922`). A step *strands* such a claim if it takes the
  recorded baseline off while the claim is in flight and not satisfied with the level in its copy, or
  starts the claim from a reading older than the release. `Stranding.LossBeginsByStranding` proves that
  a claim can come to write a level onto a target with no baseline exactly from such a step on;
  `Stranding.OverlappingReleaseLosesTheBaseline` and `Stranding.OldReadingLosesTheBaseline` reach one of
  each sort on a target of any kind, at any level. What needs no such condition is proved without it: a
  recorded baseline is never overwritten, and always names the level found when it was recorded.
- That level need not be the workload's own. `internal/controller/arbitration.go:832-842` means it to be,
  and `918-921` takes clearing to be harmless, but a release that is slow to clear takes off the baseline
  of a claim that has since run to its end. `LostLevels.BaselineIsAClaimsLevelWhen` proves that a baseline
  names a level a claim set exactly when a step *orphaned* that level and nobody touched it before it was
  recorded; without stranding, the only such step is a release's clearing of a target a claim moved last.
  Where the release asked for no level, or for the one it leaves, that is intended. Otherwise the level is
  forgotten: `LostLevels.ForgottenExactlySince` says when, and `LostLevels.SlowReleaseForgetsTheLevel` is a
  run with Reactor alone that reaches it, on a target of any kind, at any level, with no claim stranded.
- A release still in flight after another has completed can move a target nobody holds. It does exactly
  if it came late (`LevelWrites.RestoresUnheldExactlySince`) and still has a level to write
  (`LevelWrites.OverdueReleaseWrites`). A switch's claim that an old copy satisfies completes without
  writing; `LevelWrites.CompletedFoldSettles` says when the level is nevertheless the claimed one.
- `internal/controller/automation_controller.go:179-181` lets a run that succeeded start the count of
  failures again. A run that fails after changing a target does so too (`:511-516`), and the budget of
  five is then not spent: `Reconciling.BudgetIsSpentWhen` says exactly when it is, and
  `Reconciling.ChangingPassesNeverSpend` is a run, of any length, in which it never is.
- Replaying transitions reproduces the stored state exactly when no key still observed last settled on
  the empty string (`StoreHistory.ReplayReproducesGet`): a transition spells "gone" as "".

## Model

| member | source | states |
|---|---|---|
| Debounce.MatchIsUnique | internal/engine/state.go:59-78 | two patterns of equal length matching one key are the same pattern, so ties cannot happen |
| Debounce.PatternSamples | internal/engine/state.go:68-78 | whatever order the map is walked in, the longest matching pattern decides, and a match is reported exactly when one exists |
| Debounce.LookupIsDeterministic | internal/engine/state.go:150-165 | an exact entry wins, else the unique longest pattern, else the provider's default |
| Debounce.LongestPrefixDecides | internal/engine/state.go:50-78 | without an entry of its own a key needs what the entry for its longest starred prefix says, and the default, at least one, if it begins with none |
| Debounce.Samples | internal/engine/state.go:150-165 | the lookup as run returns that value |
| StateStore.StateStore.Observe | internal/engine/state.go:174-233 | the stored and pending values become those of the one-observation function, other providers are untouched, and each changed key is reported once with its old and new value |
| StateStore.StateStore.TakeSample | internal/engine/state.go:184-217 | one key's sample touches that key alone and reports exactly a change of its believed value |
| StateStore.StateStore.DropVanished | internal/engine/state.go:219-229 | keys missing from an observation go at once, reported and with nothing left proving |
| StateStore.StateStore.Proving | internal/engine/state.go:244-248 | true exactly while some changed value is short of its samples |
| StateStore.StateStore.Get | internal/engine/state.go:253-265 | only believed values are visible |
| StoreHistory.StoreRefinesHistory | internal/engine/state.go:174-233 | over the whole history: the reported keys are those of the last observation, each value is the last that settled, and each pending count is the length of the trailing run |
| StoreHistory.MovesExactlyAfterEnoughSamples | internal/engine/state.go:205-217 | a known key moves to a new value if and only if its last n observations all gave that value |
| StoreHistory.NeverHeldNeverMoves | internal/engine/state.go:205-217 | a key that never holds n samples in a row never moves, however long it flaps |
| StoreHistory.RepeatsConverge | internal/engine/state.go:174-233 | repeating one observation as often as its keys need reaches it exactly, with nothing pending |
| StoreHistory.RepeatsMoveOnce | internal/engine/state.go:174-233 | over any repetition of one observation each key moves at most once, and to that observation for good |
| StoreHistory.ReplayGivesNonEmptyState | internal/engine/state.go:167-233 | replaying every transition ever returned gives the stored state without its empty values |
| StoreHistory.ReplayReproducesGet | internal/engine/state.go:253-265 | so replay gives what Get gives if and only if no key of the last observation last settled on an empty value |
| StoreHistory.ObserveStaysInStep | internal/engine/state.go:174-233 | the class's state after one more call is the history's state after one more observation |
| Poller.UniFiPoller.Start | internal/controller/unifi_poller.go:62-100 | one attempt a turn, with that turn's answer and duration, begun when the wait before it ended, up to the first wait that ends in none; each follows the one before it in time, and the store holds what the answered ones make it |
| Poller.UniFiPoller.AwaitNextObservation | internal/controller/unifi_poller.go:102-122 | the first wake to count ends it: a tick at its lateness after it was due, a nudge as soon as the smaller interval is over, the end of the context in no observation; a nudge counts only while nothing is proving itself |
| Poller.UniFiPoller.Observe | internal/controller/unifi_poller.go:124-148 | a failed observation changes nothing; an answered one is one observation of the store, at that time, and touches no other provider |
| Poller.UniFiPoller.WaitFor | internal/controller/unifi_poller.go:150-164 | what is left of the smaller interval is slept, unless the context ends first; nothing left, no sleep |
| Poller.AttemptsKeepApart | internal/controller/unifi_poller.go:76-118 | any two attempts are at least the smaller of the two intervals apart |
| Poller.PendingSince | internal/controller/unifi_poller.go:102-118 | a candidate with a count of c has been watched for c - 1 whole poll intervals |
| Poller.PromotionTakesIntervals | internal/controller/unifi_poller.go:76-118 | however many nudges arrive, at least n - 1 poll intervals pass between the first sample of a value and the one that promotes it |
| Arbiter.Resolve | internal/engine/arbiter.go:57-79 | the level is the attained minimum; winners and deferred are sorted and partition the claimants by whether they got it |
| Arbiter.ResolvedIsMeet | internal/engine/arbiter.go:57-79 | the same of the fold as a function |
| Arbiter.NamesPartition | internal/engine/arbiter.go:66-74 | every claimant is a winner or deferred, as often as it claimed and not both |
| Arbiter.ResolveForgetsOrder | internal/engine/arbiter.go:57-79 | the result is the same for every order of the intents |
| TargetKinds.BaselineRoundTrip | internal/controller/targets.go:271-272 | any level a target can hold reads back from its annotation as itself |
| TargetKinds.ParsedHolds | internal/controller/targets.go:337-347 | whatever an annotation says, a level read from it is one the kind can hold |
| Automations.TargetsOf | internal/controller/arbitration.go:84-97 | the targets of both action lists, each once, in order of their printed keys |
| Automations.TargetsAreWhatItMentions | internal/controller/arbitration.go:84-106 | a target is referenced exactly when some desired-state action names it, and is listed once |
| Automations.SameSpecSameOpinions | internal/controller/arbitration.go:108-164 | status and holds never change what an Automation references, asks for or hands back |
| Automations.LevelForIsTheFirst | internal/controller/arbitration.go:108-121 | among several actions on a target the first that names a level decides, and no level means none names one |
| Automations.LevelForFits | internal/controller/targets.go:371-385 | a level asked for always fits the 32 bits it is reported in |
| Evaluation.Evaluate | internal/controller/automation_controller.go:356-383 | known, observed, missing and matching are exactly what comparing wanted with reported keys gives, in any map order |
| Evaluation.MatchingOf | internal/controller/arbitration.go:736-742 | with every wanted key reported, whether each has the wanted value; otherwise the answer last recorded |
| Fields.ReferencesMeans | internal/controller/arbitration.go:84-106 | the targets referenced are those that a scaling, a suspension or a cordon in either block names: in the namespace given, else the Automation's own, and in none for a Node |
| Fields.LevelForMeans | internal/controller/arbitration.go:108-121 | the level of a block on a target is that of its first action there that has one: the replicas; 0 for suspend or cordon unless it says false, then 1 |
| Fields.MatchingMeans | internal/controller/arbitration.go:730-742 | an answer is that the reported state, cut down to the wanted keys, is the wanted one, or the last committed if some key is not reported; in force is neither suspended nor a dry run nor deleted |
| Fields.ClaimMeans | internal/controller/arbitration.go:123-136 | a claim is made in the name namespace/name at the first level of `actions` on the target, and only by one that stands |
| Fields.ReversalMeans | internal/controller/arbitration.go:138-164 | a reversal is the recorded baseline under Baseline, or by default without an onExit; the first onExit level on the target under Declared, or by default with one; none under None |
| Fields.ClaimantsIdentify | internal/controller/arbitration.go:76-80 | two Automations claim under one identity only if namespace and name are equal |
| Fields.KeyStringsIdentify | internal/controller/arbitration.go:47-95 | no two targets print alike, so sorting them by what they print has one result |
| Fields.KindsMean | internal/controller/targets.go:271-336 | where a level is kept, how it is written, what it does to the object and what it is called, for each kind |
| Disagreement.DisagreementOver | internal/controller/arbitration.go:202-222 | the method returns the report described by the next rows |
| Disagreement.ReportsExactlyWhenTwoDiffer | internal/controller/arbitration.go:192-222 | something is reported exactly when two intents differ, and then all of them are, sorted by claimant |
| Disagreement.DeclaredLists | internal/controller/arbitration.go:210-217 | each intent is listed under its own claimant with its own level in words |
| Disagreement.ReportForgetsOrder | internal/controller/arbitration.go:196-222 | with one intent a claimant the report does not depend on the order peers were gathered in |
| Disagreement.MostRestrictive | internal/controller/events.go:321-329 | the level returned is that of the first of the lowest entries |
| Disagreement.MostRestrictiveIsTheFold | internal/controller/events.go:319-329 | that entry's level is the minimum the fold would take, correctly put in words |
| Forecast.SameReportFromEverybody | internal/controller/arbitration.go:196-222 | every Automation sharing a target reports the same disagreement, entry for entry |
| Forecast.ReportedExactlyWhenTwoDisagree | internal/controller/arbitration.go:179-222 | a disagreement is reported exactly when two referencing Automations declare different levels |
| Forecast.TheReportForetellsTheRelease | internal/controller/arbitration.go:431-442 | with nobody claiming, a release leaves the target at the level the most restrictive entry names |
| ApiServer.PatchFromExactCopy | internal/controller/arbitration.go:928-948 | a merge patch built from an exact copy yields exactly the wanted annotations |
| ApiServer.PatchTouchesOnlyTheDifference | internal/controller/arbitration.go:884-948 | one built from any copy changes only the keys on which that copy and the wanted map differ |
| ClaimProtocol.Api.PatchTarget | internal/controller/arbitration.go:928-948 | a guarded patch is refused when the object moved; any patch may be stored although it reports failure |
| ClaimProtocol.ApplyLevel | internal/controller/targets.go:246-270 | from a copy of any age: annotations are left alone, a count succeeds only at the level asked for, a switch is left alone exactly if the copy shows it in position |
| ClaimProtocol.SetAnnotations | internal/controller/arbitration.go:884-904 | sends only what differs from the copy, nothing if nothing does, and nothing at all from a stale guarded copy |
| ClaimProtocol.RecordClaim | internal/controller/arbitration.go:843-882 | from a copy of any age, a baseline is recorded only from the level at the write and never over another; success leaves one recorded exactly unless the copy showed one the target no longer has; with every call answered the one re-read is enough to succeed |
| ClaimProtocol.ClaimTarget | internal/controller/arbitration.go:752-782 | from an exact copy it stops at the untouched, the recorded or the claimed target and nowhere else; from a copy of any age the baseline is kept or recorded, and a moved level stands on one exactly unless the copy showed one the target no longer has |
| ClaimProtocol.ClearAnnotations | internal/controller/arbitration.go:908-923 | from a copy of any age, takes off exactly the claim annotations that copy shows |
| ClaimProtocol.ReleaseTarget | internal/controller/arbitration.go:790-811 | from an exact copy it stops at the held, the restored or the released target and nowhere else; from a copy of any age only claim annotations go, and on success all the copy shows are gone |
| ClaimRuns.BaselineIsThePreClaimLevel | internal/controller/arbitration.go:832-882 | over any run of claims, releases, crashes and edits the recorded baseline reads back as the level the target last had unclaimed |
| ClaimRuns.ClaimsNeverMoveAnUnrecordedTarget | internal/controller/arbitration.go:744-782 | a claim that moved the level, however it ended, left that level's predecessor recorded |
| ClaimRuns.CompletedRelease | internal/controller/arbitration.go:784-811 | the level is the least of the peers' reversals or untouched if there are none; the five annotations are gone and all others kept |
| ClaimRuns.ReleaseByOne | api/v1alpha1/automation_types.go:747-759 | policy by policy: with no reversal the level stays; to the baseline, said or by default, it is what was recorded; declared, said or by default with an onExit, it is the first onExit level on the target |
| ClaimRuns.ReleaseRestoresPreClaimLevel | internal/controller/arbitration.go:790-811 | when every peer hands back to its baseline, said or by default, the level is exactly the pre-claim one |
| ClaimRuns.ReleaseLevelMeans | internal/controller/arbitration.go:431-437 | the folded level is what some peer hands back at, read off its policy and its onExit, and no peer hands back lower |
| Interleaving.TraceKeepsInv | internal/controller/arbitration.go:752-948 | every step of every interleaving keeps: what a task remembers is no newer than the object and at its version is the object; and while no step strands a claim, no claim is about to write unrecorded |
| Interleaving.SafeUnlessStranded | internal/controller/arbitration.go:863-868 | from a safe state a step leaves a safe one if and only if it strands no claim |
| Interleaving.OnlyClearingUnrecords | internal/controller/arbitration.go:908-923 | a recorded baseline is lost exactly by a release's clearing, from a copy that shows it |
| Interleaving.ClaimsWriteOnlyRecordedTargets | internal/controller/arbitration.go:744-782 | while no step strands a claim, every level a claim writes lands on a target whose baseline is recorded |
| Interleaving.BaselineNeverChanges | internal/controller/arbitration.go:848-868 | under any interleaving no step but a release's clearing changes or removes a recorded baseline |
| Interleaving.BaselineIsRecordedFromTheObject | internal/controller/arbitration.go:843-882 | under any interleaving a baseline that appears is a claim's and names the level the object has at that very step |
| Interleaving.BaselineIsThePreClaimLevel | internal/controller/arbitration.go:832-882 | under any interleaving, at every moment of a claimed episode the baseline reads back as the level held just before it |
| Interleaving.ClaimAlone | internal/controller/arbitration.go:752-782 | a claim's calls run without interference compose to what ClaimTarget is proved to do |
| Interleaving.ReleaseAlone | internal/controller/arbitration.go:790-811 | likewise for a release |
| Interleaving.ReleaseAfterAnyInterleaving | internal/controller/arbitration.go:784-811 | after any interleaving a release left alone puts the target back at the level it had when it last had no baseline; LostLevels says when a claim had put it there |
| Stranding.LossIsEndangerment | internal/controller/arbitration.go:863-868 | in every reachable state, some claim goes on to write a level onto a target with no baseline, without being stranded further, if and only if one is about to already |
| Stranding.LossBeginsByStranding | internal/controller/arbitration.go:863-868 | after a run that stranded nobody, the next step makes a claim's unrecorded write possible if and only if it strands a claim |
| Stranding.ClearingLosesByExposedClaims | internal/controller/arbitration.go:918-922 | a release that takes the baseline off makes a claim's unrecorded write possible if and only if a claim is in flight that has seen it and is not satisfied with its copy; what it does to a claim that has finished is in LostLevels |
| Stranding.OverlappingReleaseLosesTheBaseline | internal/controller/arbitration.go:863-868 | it happens: on a target of any kind and level, a release completing between a claim's recording and its level |
| Stranding.OldReadingLosesTheBaseline | internal/controller/arbitration.go:848-866 | and so it does to a claim that starts after a release from a reading made before it |
| LostLevels.OrphanedExactlySince | internal/controller/arbitration.go:908-923 | over any run, a target stands unrecorded where a claim put it if and only if some step took its baseline off with a claim's level on it, or wrote that level with nothing recorded, and nobody touched it since |
| LostLevels.CleanRunsOrphanByClearing | internal/controller/arbitration.go:918-922 | while no step strands a claim, the only such step is a release's clearing of a target that a claim moved last |
| LostLevels.BaselineIsAClaimsLevelWhen | internal/controller/arbitration.go:832-842 | the baseline names the level of the last unrecorded state, and a claim had put it there if and only if such a step came before and nobody touched the target until it was recorded |
| LostLevels.FoundLevelIsKept | internal/controller/arbitration.go:752-811 | after any run a claim left alone records whatever level it finds, and a release to that baseline then leaves the target there |
| LostLevels.ForgottenExactlySince | internal/controller/arbitration.go:790-811 | a target stands unrecorded where a claim put it, with no release having asked for that, if and only if a clearing that wanted another level, or an unrecorded claim's write, came before and nobody touched it since |
| LostLevels.SlowReleaseForgetsTheLevel | internal/controller/arbitration.go:908-923 | it happens with Reactor alone and no claim stranded: on a target of any kind and level, a release slow to clear takes off the baseline of a claim that has finished |
| LevelWrites.OverdueReleaseWrites | internal/controller/targets.go:246-336 | a release's call moves the level of an unrecorded target if and only if it is a count's second call on the version it read, elsewhere than the level asked for, or a switch's whose copy and object are both elsewhere |
| LevelWrites.RestoresUnheldExactlySince | internal/controller/arbitration.go:790-811 | over any run, a release still to restore faces an unrecorded target if and only if the baseline was taken off under it, or it started from a reading older than that, and nothing was recorded since |
| LevelWrites.CompletedClaimLeaves | internal/controller/targets.go:246-336 | a claim's last call leaves the level claimed if and only if it is not a switch's that an old copy satisfied while the switch stood elsewhere |
| LevelWrites.OneFoldOneLevel | internal/controller/arbitration.go:752-782 | however many claims agreeing on a level overlap, from any moment on the level is what it was until one of them writes, and the agreed one from then on |
| LevelWrites.CompletedFoldSettles | internal/controller/arbitration.go:752-782 | once one of them has completed, the level is the agreed one if and only if it was not satisfied by an old copy of a switch that stood elsewhere, or another has written since |
| Arbitration.ReferencingAutomations | internal/controller/arbitration.go:707-728 | self first, then every other listed Automation with a condition that references the target |
| Arbitration.Gather | internal/controller/arbitration.go:366-388 | the claims of those that stand, the reversals of those that do not, in peer order |
| Arbitration.ReconcileTarget | internal/controller/arbitration.go:323-454 | leaves the target where the gathered claims and reversals say or where a failed pass may stop, reports exactly what the fold resolved, and fails only if a call did |
| Arbitration.CompletedPassSettles | internal/controller/arbitration.go:418-446 | a pass none of whose calls failed can end in one state only |
| Outcomes.ClaimsMean | internal/controller/arbitration.go:366-388 | a claim is gathered exactly if self, claiming, or a peer that acts and whose condition holds, asks for that level first |
| Outcomes.ClaimedPass | internal/controller/arbitration.go:418-431 | somebody wants the target: a completed pass leaves it at the lowest level anybody wants, under the sorted names of all who do, with the level found recorded unless one was |
| Outcomes.ReleasedPass | internal/controller/arbitration.go:433-454 | nobody wants it: recorded, it is left at the lowest level anybody hands it back at, or where it was if nobody does, with the five annotations off; unrecorded, it is left alone |
| Outcomes.ReportedDesire | internal/controller/arbitration.go:390-393 | desired is the first level asked for while claiming and what would be handed back while not; a preview is shown exactly if asked for |
| Outcomes.ReportedLevel | internal/controller/arbitration.go:418-422 | effective is the lowest level anybody wants, in numbers and in words, and nothing if nobody does |
| Outcomes.ReportedDeferral | internal/controller/arbitration.go:423-425 | deferred by are exactly the others who want the effective level, when it is not the desired one |
| Outcomes.ReportedDisagreement | internal/controller/arbitration.go:179-222 | reported are the levels everybody with a say hands back at, each with its name and in words, exactly if two differ |
| Confluence.PeersAreTheReferencing | internal/controller/arbitration.go:704-728 | whoever gathers them, the peers are the same Automations |
| Confluence.ClaimsAreEverybodys | internal/controller/arbitration.go:366-388 | the claims gathered do not depend on which Automation is self |
| Confluence.AnybodyReconcilesAlike | internal/controller/arbitration.go:319-454 | the resulting target does not depend on which Automation runs the pass |
| Confluence.SettledStays | internal/controller/arbitration.go:884-948 | a pass over a settled target with the same claims writes nothing, not even a new version |
| Confluence.CommitChangesNoOpinion | internal/controller/automation_controller.go:505-510 | committing its matching changes nothing an Automation asks for |
| Confluence.PassesConverge | internal/controller/automation_controller.go:385-503 | any nonempty sequence of completed passes ends where the first one did, statuses committed or not |
| Confluence.OrderDoesNotMatter | internal/controller/automation_controller.go:388-394 | two such runs from one target differ in the claimed-at annotation at most |
| HoldWindow.ContributionHolds | internal/controller/automation_controller.go:461-492 | while an Automation in force cannot see its state it commits nothing and contributes what it last committed |
| HoldWindow.TargetHolds | internal/controller/automation_controller.go:469-481 | once at rest in such a window a target stays exactly as it is while the other claims stay put, whoever runs a pass and wherever that pass stops |
| HoldWindow.FirstPassIsTheLast | internal/controller/automation_controller.go:469-481 | a target not yet at rest is moved for the last time by the first pass that completes |
| Preview.SameClaims | internal/controller/arbitration.go:543-549 | the counterfactual folds the claims a real pass would, in another order |
| Preview.PreviewIsFaithful | internal/controller/arbitration.go:511-560 | previewed desired, effective, level and deferredBy are those a pass would report with the Automation in force and matching |
| Preview.WouldDeferIsExact | internal/controller/arbitration.go:557-611 | those named are the current winners if the added claim is strictly lower than all, and nobody otherwise |
| Preview.NothingToPreview | internal/controller/arbitration.go:535-540 | with no level asked for, no claim would be added |
| Preview.SilentAutomationChangesNothingWhen | internal/controller/arbitration.go:535-540 | yet over any list of Automations the target ends the same in force and out of it exactly when it is unclaimed, claimed by another, handed back at no level of its own, or handed back as low by the others |
| Preview.SilentAutomationChangesThis | internal/controller/arbitration.go:381-388 | an Automation and a target for which it does not |
| TargetPasses.ReconcileTargets | internal/controller/automation_controller.go:697-714 | targets are done in order up to the first failure, that one may be part way, the rest are untouched; every done one is told of with the report of what was gathered and whether it moved; no failing call, no failure |
| EdgeActions.EdgeActionsOf | internal/controller/edge_actions.go:68-80 | entering, the actions of `actions` that set no level, leaving, those of `onExit`: all of them, in order |
| EdgeActions.RunEdgeActions | internal/controller/edge_actions.go:104-157 | entering, the edge actions of `actions` are attempted once, in order and marked as entering, leaving, those of `onExit` marked as leaving, until the budget runs out; each is recorded as sent, failed or skipped |
| EdgeActions.SendsOneWay | internal/controller/edge_actions.go:68-80 | that leaves nothing open: the block, the direction and the budget decide what is sent |
| Reconciling.RecordApplyFailure | internal/controller/automation_controller.go:582-628 | the matching stays what it was, the failure is counted on top of the last run, and the delay is the backoff until the budget of five is spent; with the current version and an answer it is recorded |
| Reconciling.Commit | internal/controller/automation_controller.go:511-570 | edge actions are sent exactly for a flip in force whose status write was acknowledged, in the direction stored; a change is recorded as a success, the targets as reported, the edge actions as attempted |
| Reconciling.Reconcile | internal/controller/automation_controller.go:395-572 | the stored matching moves only from the version read and only after every target was written; nothing else is announced; blind and in force, nothing moves; deleted, every target is passed over without its claim and nothing is stored or sent; whatever fails, the targets are where such a pass may stop; with every call answered the pass is committed |
| Reconciling.HandBack | internal/controller/automation_controller.go:643-670 | a deleted Automation's targets are passed over without its claim, in order up to the first failure, and all of them if they answer |
| Reactions.EveryTargetTaken | internal/controller/automation_controller.go:694-714 | a pass through all targets takes each one mentioned to the lowest level wanted, or hands it back if nobody wants it |
| Reactions.NoOtherTargetTaken | internal/controller/automation_controller.go:694-714 | and moves no target the Automation does not mention |
| Reactions.DeletedHandsBack | internal/controller/automation_controller.go:643-651 | deleted, with nobody else claiming: a recorded target is cleared at the lowest level handed back, its own reversal counting |
| Reactions.CommittedReaction | internal/controller/automation_controller.go:487-570 | what is stored is whether reported and wanted agree; the edge is sent exactly if that is news and nothing holds the Automation back: of `actions` entering, of `onExit` leaving |
| Reactions.CommittedTargets | internal/controller/automation_controller.go:493-532 | every target mentioned is where its claim, as the fields give it, takes it, and the stored status says so |
| Reactions.FailedReaction | internal/controller/automation_controller.go:582-628 | a failed pass stores one failure more, or the first again, announces nothing, and comes back after 2, 4, 8, 16 and then 15 seconds |
| Reconciling.RecordedCount | internal/controller/automation_controller.go:182-187 | over any run of failing passes the recorded count is the length of the quiet tail, on top of what was counted before |
| Reconciling.BudgetIsSpentWhen | internal/controller/automation_controller.go:598-621 | the budget is spent after a failing pass if and only if none of the last four passes changed a target and five failures are counted in all |
| Reconciling.ChangingPassesNeverSpend | internal/controller/automation_controller.go:511-516 | and there is a run of failing passes, as long as one likes, in which it never is: each changes a target |
| CommitThenFire.TraceKeepsInv | internal/controller/automation_controller.go:487-571 | every step keeps: each announced or owed transition is a stored flip, and no flip is both or twice |
| CommitThenFire.FiringsAreFlips | internal/controller/automation_controller.go:541-571 | every firing announces a stored flip in its own direction, and no two announce the same one |
| CommitThenFire.FiringsAlternateOnRecord | internal/controller/automation_controller.go:541-571 | two firings in one direction have a stored flip in the other between them, announced or not (a fact about any record of answers, applied to the flips announced) |
| CommitThenFire.NothingIsAnnouncedEarly | internal/controller/edge_actions.go:87-99 | a firing comes, in the same pass, after an acknowledged write of its flip from the version read, itself after every target of the Automation was taken where a completed pass in its name takes it; nothing else announces that flip |
| CommitThenFire.ReconcileIsAPass | internal/controller/automation_controller.go:395-572 | a reconcile that commits is a worker's pass: in any state whose current version it read, the same steps are open, end at the same matching, and may announce exactly if it did; the pass is over all targets exactly when every target is done |
| CommitThenFire.OtherReconcilesArePasses | internal/controller/automation_controller.go:395-628 | so is every other: held, it notes that; failed on a target, it applied those before it and notes that; refused, it may have stored its matching unknowingly; the worker ends idle at the recorded matching and has announced nothing |
| Retry.BackoffIsExact | internal/controller/automation_controller.go:192-198 | with 64-bit wrap-around the delay is min(2s * 2^(n-1), 60s) for every attempt number |
| Retry.BackoffIsMonotone | internal/controller/automation_controller.go:189-198 | so it never shrinks and stays between 2s and 60s |
| Release.GroupByTarget | internal/controller/release.go:157-178 | each referenced target once, with exactly the Automations referencing it |
| Release.ReleaseClaimedTarget | internal/controller/release.go:199-244 | an unclaimed target is left alone, a claimed one is handed back or left where a release may stop |
| Release.Sweep | internal/controller/release.go:174-181 | every target is attempted whatever became of the others, and counted as failed exactly if a call made for it failed or its kind has no handler |
| Release.ReleaseAllClaims | internal/controller/release.go:138-181 | the sweep covers exactly the referenced targets, one whose calls answer is handed back, and target failures are counted exactly |
| Release.SweptInTheNameOf | internal/controller/release.go:157-178 | a target is swept in the name of exactly the listed Automations with a condition whose actions name it |
| Release.SweptTarget | internal/controller/release.go:199-244 | it is left at the lowest level any of them hands it back at, or where it was if none does, without a mark of a claim, and alone if nothing was recorded |
| Release.SweepIsOnePass | internal/controller/release.go:196-244 | a swept target is where one ordinary pass would leave it with every Automation out of force |
| OutletRefs.ParseUndoesPrint | internal/providers/unifi/write.go:226-329 | reading undoes printing for exactly the canonical references; the name may hold slashes |
| OutletRefs.PrintedEntriesReadBack | internal/providers/unifi/write.go:293-329 | the printed form of any accepted entry is accepted as the same reference |
| OutletRefs.NormalizingTwiceChangesNothing | internal/providers/unifi/write.go:331-337 | a normalized address is its own normal form |
| OutletRefs.EntriesAre | internal/providers/unifi/write.go:302-328 | an entry is accepted exactly if it reads as an address, a positive index and a name that is no placeholder, with slashes between, and as that reference |
| OutletRefs.AnySpellingIsAccepted | internal/providers/unifi/write.go:302-337 | with capitals for letters and dashes or dots for colons in its address, an entry is accepted as the canonical reference |
| OutletRefs.MacsArePairs | internal/providers/unifi/write.go:151 | an address is six pairs of lower-case hexadecimal digits with colons between, and nothing else is |
| OutletRefs.PlaceholdersAre | internal/providers/unifi/outlets.go:128-136 | a name is refused exactly if it reads spaces, Outlet or outlet, separators, digits, spaces |
| ConsoleDocuments.ObjectByIndex | internal/providers/unifi/write.go:946-968 | found exactly when some entry carries the index, and then the first |
| ConsoleDocuments.IndexIsWhole | internal/providers/unifi/write.go:975-978 | a number in range stands for the whole number left when its fraction is dropped |
| ConsoleDocuments.WholeNumberIsItself | internal/providers/unifi/write.go:952-978 | so an entry whose index is a whole number is addressed by that number and no other |
| ConsoleDocuments.EntriesMean | internal/providers/unifi/write.go:905-935 | an entry is refused for being no object, for an index that is no number, or for another name at the index addressed; else only the one addressed is sent back with relay_state set |
| ConsoleDocuments.RewriteOutletOverrides | internal/providers/unifi/write.go:897-939 | succeeds exactly when every entry is understood and one is addressed; keeps length, order and every other entry; otherwise names the first fault |
| ConsoleDocuments.OnlyTheRelayChanges | internal/providers/unifi/write.go:889-891 | the addressed entry differs in its relay state alone |
| ConsoleDocuments.LastPositionWins | internal/providers/unifi/write.go:897-939 | a rewritten document is refused exactly when the original would be and for the same reason, and rewriting it gives what rewriting the original gives |
| ConsoleDocuments.FindObjectWith | internal/providers/unifi/write.go:1009-1037 | terminates on every document and finds an object exactly when one in it qualifies, whatever the order of members |
| ConsoleDocuments.QualifiesMeans | internal/providers/unifi/write.go:1018-1037 | it qualifies if its member holds the text and every required member is there |
| Text.SplitUndoesJoin | internal/controller/arbitration.go:848-849 | the names joined in claimed-by can be told apart again |
| Text.LeqIsLexicographic | internal/controller/arbitration.go:95 | the order names and targets are sorted in: a prefix first, else by the first character that differs |
| Text.FormatIsDecimal | internal/controller/targets.go:271 | a baseline is written in decimal, digit by digit |
| Text.NumbersAre | internal/controller/targets.go:272 | and read from a sign or none and decimal digits, zeros in front allowed, within 32 bits |

## Left out

- Poller.UniFiPoller.Start: the poller runs against a finite script of wake-ups and answers, so the endless loop and its cancellation are a prefix of any length.
- ClaimProtocol.SetAnnotations: the source compares a missing annotation as "", which differs from the model only for an empty value, and a claim writes none.
- Reconciling.RecordApplyFailure: the failure counter is unbounded; the source's wraps after 2^31 consecutive failures.
- Reconciling.Reconcile: of a deleted Automation only the pass over its targets is modelled, not the finalizer nor the count of release attempts after which it is dropped.
- Arbitration.ReconcileTarget: its own read is of the current object; what claims and releases do from older readings is in `ClaimProtocol` and `Interleaving`. A preview's line about leaving the condition (`previewOnExit`) and targets declined to foreign managers (`internal/controller/arbitration.go:399-412`) are not modelled.
- CommitThenFire.NothingIsAnnouncedEarly: a pass's own run over the targets (`TargetRun`) assumes that nobody else moves a target between that pass's own calls on it; what happens when they do is in `Interleaving`.
- Release.ReleaseAllClaims: removing the finalizers, whose failures the source adds to the same count, and stopping the manager are not modelled, nor is a failing list call.
- OutletRefs.NormalizeMac: letters are lowered in ASCII; no other letter lowers to a hexadecimal digit, so no other address is accepted.
- ConsoleDocuments.DecodeIndex: converting a number outside 32 bits is left to the platform by Go, and is an arbitrary function here.
- Sorting is insertion sort; `Text.SortedIsUnique` shows that no sorting algorithm gives another result where keys identify members.
- HorizontalPodAutoscaler detection and the install-wide dry run are taken as off.
- An object whose scale reports no replicas (`internal/controller/targets.go:240-245`).
- Conditions, Events, metrics and log lines, apart from the disagreement list; how old an observation is.
- Claimed-at timestamps are arbitrary strings; per-action timeouts are failed calls.
- Executing an edge action: templates, secrets, HTTP clients and console sessions. An attempt is one entry in an outbox.
- Decoding UniFi payloads into states: an observation is a map of strings.
- Spec edits that drop a target while it is claimed: nothing in the source visits such a target again.
- Switch-port references (`parsePortRef`) and wireless networks: simpler cases of the outlet's.
