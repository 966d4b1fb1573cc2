# Verified model of the analysis worker's decision machinery

The worker asks language models to compare extracted facts with what a novel has
already established. Around those calls sits deterministic code that decides which
answers count: request-local state machines, drivers that split and recombine work,
conflict analysis and crash-tolerant protocols. This project models that code in Dafny
and proves what it guarantees for every behaviour of the provider, the token counter,
the backend and the operator. Whatever lies outside is a parameter of the model, so
every theorem holds for all of it.

- **Character facts.** `CharacterProjection` is the sequential snapshot with its three
  coupled maps; `CharacterDependencies` shows that the recorded dependencies suffice to
  replay part of a run; `CharacterComparator` is batch validation, normalisation and the
  salvage of a rejected batch; `CharacterBatchReports`, `CharacterBatchPlan` and
  `CharacterBatchPipeline` are one comparator call, the grounds of each call, and the driver
  that halves, salvages and retries.
- **Relationships.** `RelationshipValidation` and `RelationshipPartition` are the
  validator, the union-find over possible shared end-point pairs, planning, and the
  comparison whose pieces are validated alone and then together. `RelationshipGrouped`,
  `RelationshipGroupedDriver` and `RelationshipGroupedOutcome` are the pair-grouped
  variant with its repair call and its failures.
- **World settings.** `WorldScopePlan` and `WorldBatchValidator` say which batches are
  accepted and what applying them does to the two-level property trees. `WorldComponents`,
  `WorldRecoveryGroups`, `WorldRecovery`, `WorldRecoveryDriver`, `WorldRecoveryFixpoints`,
  `WorldRecoveryRegroup`, `WorldRecoveryOrder` and `WorldRecoveryOutcome` are the recovery
  of a rejected batch. `WorldWindow` is the look-ahead window over batches.
- **The rest.** `ChatBootstrap` is the crash-safe activation of chat, `EvidenceSpans` and
  `CitationCover` locate quotes, `SubjectReplay` resolves subjects by replay and halving,
  `AnalysisScheduler` and `ValidationScheduler` are the two bounded schedulers.
  `Options`, `Sequences`, `Graph` and `TextSearch` are shared helpers.

Objects that the program mutates are classes whose methods are proved against functions
on their values; loops are methods with invariants; what the program computes by
expression is a function. Where a provider is asked at most once about the same
candidates in a run, it is a function of what it is asked, which loses no behaviour.

Four places where the code does less than its surroundings suggest are stated exactly,
each by a condition that holds if and only if the code does what is expected and by a run
in which it does not:

- `SameRecordIffOutOfReach`: a salvaged decision is checked against a fresh state that knows
  no emptied slots. It records the same dependencies as in the caller's state in every case
  exactly when no candidate may be added to a slot that earlier decisions emptied.
  `RemovalLeavesARecord` is a case where one may.
- `AmbiguityStaysIff`: an ambiguous quote stays unlocated exactly when it is not just white
  space. `BlankAmbiguityIsResolved` locates one.
- `EditBetweenPreparations`: a resumed preparation overwrites an operator's CHAT_ENABLED
  exactly when the file had no such line when the preparation was recorded and the values
  differ. `EditIsLost` is such a run.
- `RefinesPlainLoop`: the window shows the pipeline what the plain claim loop would exactly
  when no claim overtakes a waiting claim error. `ErrorIsOvertaken` is a run in which one
  does: after a comparison that raises, the look-ahead claims again although an error waits.

A driver returns a ghost record of the calls it made: the log of the character driver, the
planned batches of the grouped comparison. What a decision or a failure is traced to is
always a member of that record.

## Model

| member | source | states |
|---|---|---|
| CharacterProjection.StepIsAtomic | app/analysis/character_fact_projection.py:85-173 | a call of apply either refuses a decision and changes nothing, or applies all of it; on a coherent snapshot the entry and slot maps stay inverse to each other, absence records stay disjoint from occupied slots, and the raises after validation cannot happen |
| CharacterProjection.EffectIsAtomic | app/analysis/character_fact_projection.py:124-173 | an accepted decision never meets an occupied slot or a missing reference halfway through its removals and its insertion |
| CharacterProjection.ValidateDecision | app/analysis/character_fact_projection.py:262-375 | the checks, run one after the other up to the first that fails, accept exactly the decisions that the declarative rules accept, and the fault of a refusal is one that the decision has |
| CharacterProjection.ProtectedSlotsStay | app/analysis/character_fact_projection.py:312-318 | for a candidate from a setting book no decision changes what a protected slot holds |
| CharacterProjection.LeavingWasAllowed | app/analysis/character_fact_projection.py:312-325 | an entry leaves the snapshot only if the chronology lets the candidate replace it under the operation that takes it out; it is the target in the resolved slot, or a STATUS entry removed by a STATUS candidate in the present |
| CharacterProjection.EnteringIsProposed | app/analysis/character_fact_projection.py:124-173 | what enters takes the resolved slot, carries the proposed value in the type of the candidate, is no inactive STATUS, and continues the provenance of the entry whose place it takes |
| CharacterProjection.AddFindsEmptySlot | app/analysis/character_fact_projection.py:347-368 | an accepted ADD always finds its slot free |
| CharacterProjection.DependenciesAreReadSupport | app/analysis/character_fact_projection.py:194-210 | the recorded dependencies are exactly the provenance of presence and absence of the cells that the decision reads |
| CharacterProjection.StepTransfers | app/analysis/character_fact_projection.py:85-173 | two snapshots that agree on the cells a decision reads give it the same verdict and the same new cells |
| CharacterProjection.CharacterProjectionState.FromEntries | app/analysis/character_fact_projection.py:52-68 | construction succeeds exactly when no reference and no slot is repeated, and yields the snapshot of those entries with no absence records |
| CharacterProjection.CharacterProjectionState.ListEntries | app/analysis/character_fact_projection.py:70-73 | the listing of a state rebuilds that state without its absence records |
| CharacterProjection.CharacterProjectionState.CollectDependencies | app/analysis/character_fact_projection.py:194-210 | the loop computes the dependency set of the decision |
| CharacterProjection.CharacterProjectionState.RemoveAll | app/analysis/character_fact_projection.py:183-192 | removing a list of references leaves exactly the other entries and records who emptied each slot |
| CharacterProjection.CharacterProjectionState.Apply | app/analysis/character_fact_projection.py:85-173 | the in-place update of the three maps is the value-level step, with its outcome |
| CharacterDependencies.SubrunReplays | app/analysis/character_fact_projection.py:85-210 | dropping a part of a run that nothing kept depends on leaves the verdicts and entries of everything kept unchanged |
| CharacterDependencies.DependencySoundness | app/analysis/character_fact_projection.py:56-60 | every dependency-closed subset of an accepted run, replayed in order from the initial snapshot, passes every validation and projects the same entries, ADDs into emptied slots included |
| CharacterDependencies.DependenciesAreTransitive | app/analysis/character_fact_projection.py:194-210 | recorded dependency sets point backwards and are transitively closed |
| CharacterDependencies.RecordedDependenciesSuffice | app/analysis/character_fact_projection.py:85-210 | one decision together with what it recorded is already dependency-closed, so it replays alone |
| CharacterComparator.NormalizationIsHarmless | app/analysis/character_fact_comparator.py:667-680 | a normalised decision gets the verdict and the projected fact of the original |
| CharacterComparator.NormalizedText | app/analysis/character_fact_comparator.py:667-680 | a number or truth value gets the canonical text of its typed value as display text; every other text and every other field but the reason stays |
| CharacterComparator.ValidateBatch | app/analysis/character_fact_comparator.py:881-942 | the loop over a throwaway state accepts exactly the batches whose every decision is valid where its turn comes |
| CharacterComparator.NormalizeBatch | app/analysis/character_fact_comparator.py:945-970 | the second loop returns the normalised batch, or nothing if some normalised decision does not apply |
| CharacterComparator.AcceptedBatchAppliesToCaller | app/analysis/character_fact_comparison_pipeline.py:418-432 | a batch accepted in the comparator's throwaway state applies, normalised, in the pipeline's long-lived state |
| CharacterComparator.IndependentDecisions | app/analysis/character_fact_comparator.py:973-1036 | the salvage loop retains exactly the rows that are valid where their turn comes and not blocked by an earlier failure |
| CharacterComparator.FailureCloses | app/analysis/character_fact_comparator.py:998-1036 | a candidate without a retained decision closes its own slot for all later ones; a STATUS ends the salvage, and so does one with a reference time whose slot was still open |
| CharacterComparator.RetryStaysInSlot | app/analysis/character_fact_projection.py:224-254 | a retried candidate other than STATUS touches only its own fixed slot |
| CharacterComparator.SalvageIsAFrame | app/analysis/character_fact_comparison_pipeline.py:360-415 | for every outcome of the singleton retries at the skipped positions, each retained decision still applies when its turn comes, with the same fact; with equal starting records also with the same dependencies |
| CharacterComparator.SalvageAppliesToCaller | app/analysis/character_fact_comparator.py:1000-1036 | the same for a salvage state rebuilt from the caller's entries; the dependencies are the same too if no candidate, up to one that ends the salvage, may be added to a slot that earlier decisions emptied |
| CharacterComparator.SameRecordIffOutOfReach | app/analysis/character_fact_comparator.py:998-1020 | for a given list of candidates, salvage records the caller's dependencies for every response and every retry if and only if none of the candidates, up to one that ends the salvage, may be added to a slot that earlier decisions emptied |
| CharacterComparator.RemovalLeavesARecord | app/analysis/character_fact_projection.py:183-192 | the condition can fail: a loaded entry, an accepted removal of it by one candidate, and a second candidate that may be added to its slot |
| CharacterBatchReports.CompareBatch | app/analysis/character_fact_comparator.py:293-413 | a call hands back the whole normalised batch exactly for an acceptable reply, and otherwise the salvage or the failure that the reply stands for |
| CharacterBatchPipeline.LargestFittingSegment | app/analysis/character_fact_comparison_pipeline.py:896-934 | only fitting prefixes are returned, something if the first candidate fits, the longest one if fitting is monotone, after logarithmically many counts |
| CharacterBatchPipeline.RetryOne | app/analysis/character_fact_comparison_pipeline.py:362-413 | a singleton retry is decided by what the call for it alone comes to, and an accepted one applies to the caller's state |
| CharacterBatchPipeline.ApplySegment | app/analysis/character_fact_comparison_pipeline.py:418-432 | applying a validated segment is never refused and reports every candidate with the decision offered for it |
| CharacterBatchPipeline.RecoverSegment | app/analysis/character_fact_comparison_pipeline.py:345-415 | retained decisions are applied and never lost, the others cost one call each, and a context that is too large fails the rest |
| CharacterBatchPipeline.ProcessSegment | app/analysis/character_fact_comparison_pipeline.py:310-432 | an acceptable reply decides the whole segment, a truncated one of several candidates halves it, a single rejected candidate fails, a foreign failure leaves the driver; the log gains exactly the calls made |
| CharacterBatchPipeline.Turn | app/analysis/character_fact_comparison_pipeline.py:279-308 | each turn asks about the longest fitting list between the first open candidate and the next segment end, which is the next middle or end of a list that was cut off, or the end of all; it advances the cursor or shrinks the window in front of it, within the call budget |
| CharacterBatchPipeline.ExecuteBatch | app/analysis/character_fact_comparison_pipeline.py:248-440 | the driver ends for every oracle; each candidate is reported exactly once, decisions in source order as an accepted run; the log holds every call, in the state and for the candidates it was made, as many as are counted, and each has its grounds in the calls before it: a list of the main loop starts at the first open candidate and is the longest that fits up to the next split point, the whole rest if that fits, and a retry is about a candidate that a rejected list left without a decision, once; each decision was offered by a logged call, each failure is due to a logged event; an early end is due to the last call; at most 2n-1 calls |
| CharacterBatchPipeline.OneCallIsEnough | app/analysis/character_fact_comparison_pipeline.py:284-316 | a list that fits and has an acceptable reply takes one call and ends with exactly the decisions of that reply |
| CharacterBatchPipeline.NoCauseNoFailure | app/analysis/character_fact_comparison_pipeline.py:279-440 | if in every state that the run went through each candidate not yet reported alone fits and is answered acceptably and the context fits, nothing fails and the decisions are those of all candidates in order |
| CharacterBatchPipeline.ReportedDependenciesSuffice | app/analysis/character_fact_comparison_pipeline.py:944-977 | confirming one reported decision with its reported dependencies and nothing else replays from the original snapshot with the same entries |
| RelationshipValidation.ValidateDecisions | app/analysis/relationship_comparator.py:213-304 | the one-pass validator accepts exactly the declaratively valid lists: each decision well formed, no slot, target or observation used twice, every new observation consumed; a rejection carries a fault that the list has |
| RelationshipValidation.SlotsCollide | app/analysis/relationship_comparator.py:107-111 | two relations take one slot exactly if they agree in axis, kind and direction and have the same ends, unordered unless they are directed |
| RelationshipValidation.KeepOrder | app/analysis/relationship_comparator.py:351-371 | a projection keeps the order of the observations it keeps |
| RelationshipValidation.LocalOkLifts | app/analysis/relationship_comparator.py:351-371 | a decision valid in a projection is valid in the full context, ADD freshness included |
| RelationshipValidation.SeparatedDecisionsAgree | app/analysis/relationship_comparator.py:213-304 | decisions of separated groups cannot collide on a slot, a target or an observation |
| RelationshipValidation.GroupwiseValidityComposes | app/analysis/relationship_comparator.py:405-415 | lists valid against their own projections of separated groups are together valid against the whole context |
| RelationshipPartition.DistinctPairExists | app/analysis/relationship_comparator.py:312-314 | the set test decides, without enumeration, whether two distinct end points can be chosen |
| RelationshipPartition.OverlapIsSharedPair | app/analysis/relationship_comparator.py:317-321 | the overlap test holds exactly when some unordered pair of distinct nodes is possible for both observations |
| RelationshipPartition.Root | app/analysis/relationship_comparator.py:331-335 | path halving ends, finds the representative and keeps the forest |
| RelationshipPartition.BuildForest | app/analysis/relationship_comparator.py:324-343 | the nested loops join exactly what overlaps |
| RelationshipPartition.TreesAreComponents | app/analysis/relationship_comparator.py:324-348 | two observations have one representative exactly when they are connected |
| RelationshipPartition.ComparisonClasses | app/analysis/relationship_comparator.py:324-348 | the result is the connected components that hold a new observation, each in input order, in the order of their first members |
| RelationshipPartition.ComponentsAreSeparated | app/analysis/relationship_comparator.py:324-348 | components share no observation and no pinned pair, and hold every new observation |
| RelationshipPartition.PlanIsTight | app/analysis/relationship_comparator.py:431-449 | no two neighbouring batches of a plan could have been merged |
| RelationshipPartition.PlanBatches | app/analysis/relationship_comparator.py:431-449 | at most 16 batches that all fit, still separated, together the components in order; refused exactly for a component that does not fit alone or too many batches |
| RelationshipPartition.Compare | app/analysis/relationship_comparator.py:405-415 | decisions come back exactly when every piece is answered acceptably and at most 512 are collected; then they are valid against the whole context, so the combined validation never rejects |
| RelationshipGrouped.BuildGroups | app/analysis/relationship_grouped_comparator.py:133-146 | one group for each pinned pair of a new observation, in the order of first occurrence, its new and held observations in their own order, the rest held one by one |
| RelationshipGrouped.ExpansionKeepsIdentity | app/analysis/relationship_grouped_comparator.py:158-186 | an expanded row can only join the group's pair or an owned relationship, whose ends, axis, kind and direction it keeps, and a MERGE its texts too |
| RelationshipGrouped.DirectionOfAdd | app/analysis/relationship_grouped_comparator.py:165-173 | for each direction a row of an ADD may name: which end of the pair is the source, which the target, and the stored direction |
| RelationshipGrouped.OppositeExchangesEnds | app/analysis/relationship_grouped_comparator.py:169-173 | naming the opposite direction, or the pair the other way round, exchanges source and target of a directed ADD and nothing else |
| RelationshipGrouped.ExpansionKeepsContent | app/analysis/relationship_grouped_comparator.py:158-186 | observations, operation, reference, scope and reason are the row's own, and so are the texts but for a MERGE, and axis and kind of an ADD |
| RelationshipGrouped.ExpansionIsRefused | app/analysis/relationship_grouped_comparator.py:158-186 | exactly when a row is refused |
| RelationshipGrouped.ExpandRow | app/analysis/relationship_grouped_comparator.py:158-186 | the fields, set one after the other, make the expansion |
| RelationshipGrouped.ExpandsEach | app/analysis/relationship_grouped_comparator.py:303-306 | the rows of a group expand exactly if each does, each to its own decision |
| RelationshipGrouped.IndexItems | app/analysis/relationship_grouped_comparator.py:286-295 | an envelope naming a foreign group is refused whole; a group named once is indexed with its rows, one named twice is marked |
| RelationshipGrouped.Call | app/analysis/relationship_grouped_comparator.py:269-313 | each requested group comes back with valid decisions exactly if the reply names it once with acceptable rows and names nothing foreign, and otherwise with a reason that is a fault of the reply |
| RelationshipGroupedDriver.FitsMeans | app/analysis/relationship_grouped_comparator.py:194-212 | a request fits exactly if the input limit admits it and it is for one group, or for at most 24 that leave a fifth of the output tokens |
| RelationshipGroupedDriver.Plan | app/analysis/relationship_grouped_comparator.py:214-230 | the batches are the first sixteen of the greedy packing and the rest is given up: no group is lost or planned twice, and one is given up only if it does not fit alone or sixteen batches are in use |
| RelationshipGroupedDriver.PackingIsTight | app/analysis/relationship_grouped_comparator.py:214-225 | every batch fits and none had room for the first group of the next one |
| RelationshipGroupedDriver.PackingKeepsOrder | app/analysis/relationship_grouped_comparator.py:214-225 | the batches together are the groups that fit, in order |
| RelationshipGroupedDriver.RunBatch | app/analysis/relationship_grouped_comparator.py:241-250 | one call, and a second one for exactly the unanswered groups; a group is answered by the first reply if that deserves it, else by the second, and fails with a fault of the second |
| RelationshipGroupedDriver.RunAll | app/analysis/relationship_grouped_comparator.py:232-250 | answered and failed groups partition the groups; the batches are the planned ones and the calls are one or two for each; blocked pairs fail unsent, a group left out of the plan is too large or met sixteen batches, and any other failure is a fault of the repair of its own batch |
| RelationshipGroupedOutcome.ProjectionUnaffected | app/analysis/relationship_grouped_comparator.py:258-264 | taking failed groups out of the payload does not change the projection of a group that remains |
| RelationshipGroupedOutcome.Accept | app/analysis/relationship_grouped_comparator.py:251-257 | what is kept has at most 512 decisions, and an answered group is given up only if it does not fit beside the rest |
| RelationshipGroupedOutcome.CombinedIsValid | app/analysis/relationship_grouped_comparator.py:258-264 | holds and accepted groups together are valid against the observations that did not fail |
| RelationshipGroupedOutcome.OutcomeIsPartition | app/analysis/relationship_grouped_comparator.py:232-267 | every new observation is decided or in exactly one failure, never both |
| RelationshipGroupedOutcome.Compare | app/analysis/relationship_grouped_comparator.py:232-267 | for every provider: decisions and failures partition the new observations, the final validation never rejects, every decision is a hold or part of the answer to a planned batch, every failure has its cause in the plan or in the repair of its batch, failures are in the order of their first observations, at most 32 calls |
| WorldScopePlan.PathConflictIsClash | app/analysis/world_setting_comparator.py:1831-1848 | the conflict test finds exactly the existing properties that clash with the path as scalar against scope |
| WorldScopePlan.LegalEditsHold | app/analysis/world_setting_comparator.py:1259-1439 | legal edits applied one by one leave the tree that the plan describes: old paths less the vacated ones plus the filled ones |
| WorldScopePlan.ScopePlanSafety | app/analysis/world_setting_comparator.py:1259-1439 | an accepted batch keeps well-formed trees well formed, loses no property, grows by exactly the number of ADDs, and gives each generated scope at least two children when siblings are required |
| WorldScopePlan.ProjectionKeepsEdits | app/analysis/world_setting_comparator.py:1231-1256 | the projected decisions edit the trees exactly like the originals |
| WorldScopePlan.ProjectionRestores | app/analysis/world_setting_comparator.py:1231-1256 | what is stored for one source: an exclusion or a review takes the source's path, a review of a conflict the matched one, only an ADD keeps moves, and nothing else changes |
| WorldScopePlan.TargetsAreOffered | app/analysis/world_setting_comparator.py:981-1060 | a decision of an accepted batch names only offered targets, the only one if there is one, and is about offered candidates of one scope |
| WorldScopePlan.PathsAreThere | app/analysis/world_setting_comparator.py:1126-1217 | in an accepted batch an ADD writes a free path without a clash, UPDATE and MERGE write the matched property, what is matched exists, and what moves is a root property that goes to a free path below another name |
| WorldBatchValidator.CheckScopePlan | app/analysis/world_setting_comparator.py:1259-1439 | the loops over final paths, root names, scope members and moves accept exactly the declarative plan |
| WorldBatchValidator.CheckDecisions | app/analysis/world_setting_comparator.py:962-1125 | the main loop accepts exactly the decisions that are valid one by one with every source used exactly once |
| WorldBatchValidator.ValidateBatch | app/analysis/world_setting_comparator.py:1126-1228 | the validator accepts exactly the accepted batches of the plan, before and after projection |
| WorldComponents.OverlapIsClash | app/analysis/world_setting_batch_recovery.py:133-138 | two touched paths overlap exactly when they are equal or clash in one target |
| WorldComponents.WritesAreEdits | app/analysis/world_setting_batch_recovery.py:141-153 | what a decision writes is exactly what it edits: the path it fills and both ends of each move |
| WorldComponents.WritesCover | app/analysis/world_setting_batch_recovery.py:141-153 | decisions leave every path outside their write sets as it is |
| WorldComponents.DependentMeans | app/analysis/world_setting_batch_recovery.py:156-161 | two groups depend on each other exactly if they share a candidate or a generated scope, or one writes what is, or could not stand together with, something that the other reads or writes |
| WorldComponents.Components | app/analysis/world_setting_batch_recovery.py:164-178 | the sweep yields the connected components of the dependency relation, each group once, in the order of their first groups |
| WorldRecoveryGroups.EveryRefOnce | app/analysis/world_setting_batch_recovery.py:510-518 | sound groups that share no candidate account for every candidate exactly once, as a decision or in a failure |
| WorldRecovery.Group.Retry | app/analysis/world_setting_batch_recovery.py:344-390 | a retry within the limit leaves exactly the validated decisions with a fresh footprint, or a failure whose footprint keeps everything attempted |
| WorldRecovery.FailAll | app/analysis/world_setting_batch_recovery.py:335-342 | exactly the chosen groups fail |
| WorldRecoveryDriver.GroupsFromRows | app/analysis/world_setting_batch_recovery.py:395-430 | one group for each row that names candidates, failed unless its decision is valid alone, and one failed group for each path of the unnamed candidates |
| WorldRecoveryDriver.FailDuplicates | app/analysis/world_setting_batch_recovery.py:431-439 | exactly the groups that share a candidate with another one fail |
| WorldRecoveryFixpoints.ConvergeFirst | app/analysis/world_setting_batch_recovery.py:441-464 | the loop ends with the fixpoint of failing what joint validation names, and the rest accepted together |
| WorldRecoveryFixpoints.RoundFailsBlamed | app/analysis/world_setting_batch_recovery.py:441-464 | a round whose error names a candidate of a surviving group fails exactly the surviving groups with such a candidate |
| WorldRecoveryFixpoints.SparedIsKept | app/analysis/world_setting_batch_recovery.py:441-464 | a group survives the loop as it is exactly if no error names one of its candidates, or names nobody, while it survives |
| WorldRecoveryFixpoints.ConvergeLast | app/analysis/world_setting_batch_recovery.py:484-509 | the loop ends with the fixpoint, everything connected to a failure failed and the rest accepted together |
| WorldRecoveryFixpoints.SparedLastIsKept | app/analysis/world_setting_batch_recovery.py:484-509 | a group survives the last loop as it is exactly if it is never connected to a failure, nor through survivors to a group that an error hits |
| WorldRecoveryFixpoints.MixedIsDragged | app/analysis/world_setting_batch_recovery.py:487-491 | the groups failed through their component are exactly the survivors connected to a failure |
| WorldRecoveryRegroup.KeepComponent | app/analysis/world_setting_batch_recovery.py:468-470 | a component without a failure keeps its groups as they are |
| WorldRecoveryRegroup.JoinComponent | app/analysis/world_setting_batch_recovery.py:471-480 | a component with a failure becomes one group with everything its members attempted, retried at most once |
| WorldRecoveryRegroup.Regroup | app/analysis/world_setting_batch_recovery.py:465-482 | afterwards no two groups share a candidate, none is lost, and the retries stay within the limit |
| WorldRecoveryOutcome.Recover | app/analysis/world_setting_batch_recovery.py:311-521 | for every reply: each source ends in exactly one decision or failure, so the closing check never raises; survivors, in the order of their first candidates, are an accepted batch; at most min(20, limit) retries |
| WorldRecoveryOrder.AcceptedInAnyOrder | app/analysis/world_setting_batch_recovery.py:512-513 | whether a batch is accepted does not depend on the order of its decisions |
| WorldRecoveryOrder.InOrderSorts | app/analysis/world_setting_batch_recovery.py:512 | the final sort loses no group and puts groups in the order of their first candidates |
| WorldRecoveryOrder.PlaceIsFirst | app/analysis/world_setting_batch_recovery.py:512 | a group is placed by the candidate of its own that comes first |
| WorldRecoveryOutcome.UnconnectedIsKept | app/analysis/world_setting_batch_recovery.py:465-470 | a salvaged group that no failure is connected with comes through regrouping unchanged |
| WorldRecoveryOutcome.BlamelessIsKept | app/analysis/world_setting_batch_recovery.py:441-513 | a group that is valid alone, is hit by no joint validation and is connected with no failure is not retried, and the outcome holds its decisions |
| WorldRecoveryOutcome.OneRetryForEachFailure | app/analysis/world_setting_batch_recovery.py:344-349 | the retries made are the components with a failure, capped by the limit |
| WorldRecoveryOutcome.SurvivorsAreIndependent | app/analysis/world_setting_batch_recovery.py:484-491 | no path written by a survivor equals or clashes with anything a failed group attempted |
| WorldRecoveryOutcome.RecoveredIsSafe | app/analysis/world_setting_batch_recovery.py:492-509 | a recovered batch is as safe to apply as one accepted at once |
| WorldWindow.ComparisonWindow.ClaimNext | app/analysis/world_setting_manuscript_pipeline.py:34-39 | the queue is served first, then a waiting claim error, then a new claim |
| WorldWindow.ComparisonWindow.LookAhead | app/analysis/world_setting_manuscript_pipeline.py:78-118 | a request is the batch and a prefix of the queue with one origin and disjoint identities; the queue only grows at its end, by exactly what was claimed; claims are made only with an empty queue and all but the last bring a batch; looking ahead stops only at a batch that may not join, at an error or when nothing can be claimed |
| WorldWindow.ComparisonWindow.Outcome | app/analysis/world_setting_manuscript_pipeline.py:68-129 | a cached decision is served only for an identical context; otherwise what the comparison of the collected request gives, the followers' decisions cached with their contexts; the claims made, the waiting claim error and the queue are those of the look-ahead |
| WorldWindow.ComparisonWindow.AfterSubjectResolutionReset | app/analysis/world_setting_manuscript_pipeline.py:41-50 | after a reset the reclaimed batch is first, the cache is empty and no old claim error is left |
| WorldWindow.ComparisonWindow.ClaimsInOrder | app/analysis/world_setting_manuscript_pipeline.py:34-39 | without resets, delivered batches and then the queue are the claimed batches in order, whatever raises |
| WorldWindow.ComparisonWindow.RefinesPlainLoop | app/analysis/world_setting_manuscript_pipeline.py:68-118 | without resets, what the pipeline has seen, the queue and the waiting end are answer for answer what the plain claim loop returns if and only if no claim overtook a waiting claim error; a run in which no comparison raises while an error waits satisfies this |
| WorldWindow.OrderedAgrees | app/analysis/world_setting_manuscript_pipeline.py:78-90 | a line of answers that obeys the claims is a prefix of them exactly if nothing was claimed past the waiting error and that error is the first |
| WorldWindow.ErrorIsOvertaken | app/analysis/world_setting_manuscript_pipeline.py:79-118 | the condition can fail: two batches, an error, a third batch; the first request meets the error and raises, the second claims again, and the third batch surfaces in the place of the error |
| ChatBootstrap.EditBetweenPreparations | deploy/bootstrap-chat-runtime.py:592-642 | for every host: after a preparation that stops once its changes are durable, an operator edit of CHAT_ENABLED and a second preparation, the edit survives if and only if the file had such a line when the changes were recorded or the edit says what was recorded |
| ChatBootstrap.EditIsLost | deploy/bootstrap-chat-runtime.py:610-633 | such a run in which the operator says true and the file does not |
| ChatBootstrap.ChangesFillIn | deploy/bootstrap-chat-runtime.py:597-614 | the recorded changes, written over the file, keep a secret and a URL that were set, fill in what is missing, and touch no line that is none of their settings |
| ChatBootstrap.RestartIsChange | deploy/bootstrap-chat-runtime.py:615-619 | a restart is needed exactly if the changes give the process another value of some setting but the marker |
| ChatBootstrap.EnabledIsTrue | deploy/bootstrap-chat-runtime.py:100-101 | chat counts as enabled exactly for the word true in any case |
| ChatBootstrap.Host.OperatorEdit | deploy/bootstrap-chat-runtime.py:139-174 | an operator edit of CHAT_ENABLED disturbs nothing the protocol relies on |
| ChatBootstrap.Host.PrepareApi | deploy/bootstrap-chat-runtime.py:592-642 | through any crash and any edits between the steps: the first durable record is kept and written, the file is exactly the edits before the write, the recorded changes over the content read first, and the edits after it; a secret or URL that was set is kept and a missing one is the one given, every other line stays; a restart is recorded as needed exactly if a resolved setting changes; a short secret is refused untouched; success means the changes are in the file and the process runs with them |
| ChatBootstrap.Host.ActivateApi | deploy/bootstrap-chat-runtime.py:644-690 | the enabling write happens at most once in a host's life, the result is fixed by the state read and the checks, only the lines of CHAT_ENABLED and of the activation change, the process is restarted before success is reported, and a later run leaves the file as the operator has it |
| ChatBootstrap.Host.Guarantees | deploy/bootstrap-chat-runtime.py:592-690 | prepared implies written and running with a secret of full length; every secret written is the recorded one; an operator OFF after the enabling write stands |
| ChatBootstrap.RunAll | deploy/bootstrap-chat-runtime.py:592-690 | the same over every sequence of runs, crashes and edits |
| EvidenceSpans.NormaliseQuotes | app/analysis/evidence_span_resolver.py:197-211 | the loop that overwrites its last range computes the normalised text with one source range per character |
| EvidenceSpans.NormaliseWhitespace | app/analysis/evidence_span_resolver.py:214-257 | the two-index loop computes the same with double quotes kept |
| EvidenceSpans.SliceCommutes | app/analysis/evidence_span_resolver.py:166-179 | cutting the source at the ranges of a normalised slice and normalising gives that slice, white space merged across removed quotes included |
| EvidenceSpans.QuotesFactor | app/analysis/evidence_span_resolver.py:197-211 | the quote normaliser factors through the white-space normaliser |
| EvidenceSpans.RelaxedIsExact | app/analysis/evidence_span_resolver.py:139-194 | a relaxed match returns a source slice that normalises to the normalised quote, which occurs only there |
| EvidenceSpans.AmbiguityStays | app/analysis/evidence_span_resolver.py:160-165 | a quote with a kept character that occurs twice also occurs twice after either normalisation, so no relaxed stage takes it |
| EvidenceSpans.AmbiguityStaysIff | app/analysis/evidence_span_resolver.py:139-194 | for every quote: it stays unlocated in every text in which it occurs twice if and only if it is empty or has a character that is not white space |
| EvidenceSpans.BlankAmbiguityIsResolved | app/analysis/evidence_span_resolver.py:139-179 | the whole resolution of such a quote: one space, twice in the text, is located |
| EvidenceSpans.Resolve | app/analysis/evidence_span_resolver.py:83-118 | offsets always delimit the returned quote; a quote is located exactly if one stage finds it in one place; an exact single occurrence is taken as it is; an ambiguous quote that is not just white space stays unlocated |
| CitationCover.ViewTiles | app/chatbot/hybrid_grounding.py:99-114 | the spans of the line-break view tile the text without gap or overlap |
| CitationCover.LineBreakView | app/chatbot/hybrid_grounding.py:99-114 | the scan computes the view |
| CitationCover.SliceViews | app/chatbot/hybrid_grounding.py:117-130 | the source slice under a slice of the view has that slice as its view |
| CitationCover.QuoteSpan | app/chatbot/hybrid_grounding.py:117-130 | a place is given exactly for a unique exact match or, failing any exact match, a unique match of the views; its slice has the quote's view; not found exactly when neither occurs |
| CitationCover.Furthest | app/chatbot/hybrid_grounding.py:84-92 | the selected citation covers the cursor and reaches furthest, the anchor winning ties and else the first; none exactly at a hole |
| CitationCover.Narrowest | app/chatbot/hybrid_grounding.py:75-80 | a citation that holds the whole span, the anchor first, else the first of the narrowest; none exactly if no citation holds it |
| CitationCover.CoverSpan | app/chatbot/hybrid_grounding.py:74-93 | the chosen citations cover the span, no choice needs fewer, and refusal happens exactly when the citations leave a hole |
| SubjectReplay.Replay | app/analysis/world_subject_batch.py:158-203 | the loop accepts exactly the replies that fold and computes outcomes and state of the fold |
| SubjectReplay.FoldSplits | app/analysis/world_subject_batch.py:319-326 | replaying a concatenation is replaying the halves with the state threaded through |
| SubjectReplay.ResolveSegment | app/analysis/world_subject_batch.py:291-327 | recursive halving computes one fold over the segment and makes at most 2n-1 requests |
| SubjectReplay.DeferredWasGivenUp | app/analysis/world_subject_batch.py:307-322 | a candidate is deferred only by a request that covered it, was not acceptable in its state, and could not be halved |
| SubjectReplay.ChosenWasOffered | app/analysis/world_subject_batch.py:291-327 | the row chosen for a candidate is its row in an accepted reply to a request that covered it, asked in the state that the choices in front of that request lead to |
| SubjectReplay.NothingDeferred | app/analysis/world_subject_batch.py:307-318 | without leave to continue an answer defers nobody |
| SubjectReplay.DeferralIsFold | app/analysis/world_subject_batch.py:318 | a deferred segment leaves the state unchanged |
| SubjectReplay.FoldChecksEach | app/analysis/world_subject_batch.py:170-202 | every row is checked and applied against the state left by the rows before it |
| SubjectReplay.SelectedWereCreated | app/analysis/world_subject_batch.py:171-193 | a selected new subject was created by a clear-new decision of an earlier candidate of the same category |
| SubjectReplay.OutcomesInOrder | app/analysis/world_subject_batch.py:158-203 | one outcome for each candidate, in order |
| SubjectReplay.UnorderedIsIndependent | app/analysis/world_subject_batch.py:185-202 | outside ordered mode the state never changes |
| AnalysisScheduler.Scheduler.SlotIsFree | scripts/run_analysis_worker.py:80-85 | taking a slot never blocks while fewer jobs than slots are active |
| AnalysisScheduler.Scheduler.ClaimOne | scripts/run_analysis_worker.py:80-125 | a claim is made only if no stop was seen after the slot was taken; it starts a job exactly when one arrives before a stop, and every other ending gives the slot back |
| AnalysisScheduler.Scheduler.Fill | scripts/run_analysis_worker.py:76-125 | filling goes on until every slot is taken, a stop was seen, the limit is reached or a claim found nothing |
| AnalysisScheduler.Scheduler.Run | scripts/run_analysis_worker.py:43-147 | free and held slots always add up to the concurrency, every claim has a free slot and no stop seen, the wait after a round of claims is bounded by the idle time exactly if the last claim found nothing to do, and after the drain every slot is free |
| AnalysisScheduler.Scheduler.Drain | scripts/run_analysis_worker.py:282-300 | draining leaves no job and returns every slot |
| ValidationScheduler.BackoffIsMonotone | scripts/run_validation_worker.py:89-91 | the delay grows with the failures, is never below the base, and is capped |
| ValidationScheduler.BackoffDoubles | scripts/run_validation_worker.py:89-91 | the delay is the base without a failure and doubles with each further one, up to the cap and the bounded exponent |
| ValidationScheduler.JobScheduler.Reap | scripts/run_validation_worker.py:177-189 | ended jobs are observed in claim order up to the first fatal ending, which is raised, and exactly the others stay active; a success clears the failures, a failure adds one or, with the worker closing, closes the loop |
| ValidationScheduler.JobScheduler.Claim | scripts/run_validation_worker.py:191-205 | what each answer of a claim does to jobs, failures and closing |
| ValidationScheduler.JobScheduler.Drain | scripts/run_validation_worker.py:242-259 | ended jobs are observed until none is left or the grace period is over; only then is anything cancelled; raises exactly for a fatal ending observed meanwhile |
| ValidationScheduler.JobScheduler.Run | scripts/run_validation_worker.py:261-276 | live jobs never exceed the concurrency, and every claim starts with a free slot before any reason to stop was seen; between two claims one delay is asked for, as long as the failures demand; once the loop has ended, every job started has had its ending observed or was cancelled; what it raises is exactly a cancelled claim or the first fatal ending observed, the drain included |

## Left out

- CharacterProjection.CharacterProjectionState.ListEntries: entries are listed in any order; the order of dictionaries is not modelled.
- CharacterProjection.CharacterProjectionState.CollectDependencies: the result is a set; its sorted form as a list is not modelled.
- CharacterBatchReports.CompareBatch: the attempts of one call, its retry prompts and the protected-slot conflict context are folded into the last reply; the counters of singleton fallbacks and validation failures and the advisory narrative context are not modelled.
- CharacterBatchPipeline.ExecuteBatch: a failure that is not local to the candidates ends the run without a result; that the snapshot entries are persisted ones is required, as the backend sends them.
- Source chronology, provenance merging, narrative time, wording rules for reasons and the canonical forms of status keys are uninterpreted parts of `Policy`.
- Display-value normalisation is taken to be idempotent.
- RelationshipValidation.ValidateDecisions: patterns of leaked references and text limits are flags of a text; axes and kinds are abstract; which of several faults is reported is not stated; node lists are sets.
- RelationshipPartition.Compare: the schema of a reply is a missing reply; which batch is reported first when several fail is not stated.
- RelationshipGroupedDriver.Plan: token and output estimates are the `Limits` parameter.
- WorldBatchValidator.CheckDecisions: the rules that are not about paths are the uninterpreted `policy` of a decision.
- WorldBatchValidator.ValidateBatch: the search for scope ambiguities, time and protected-path rules and consolidation checks are the uninterpreted `policy` of a decision; normalised names are abstract; failure texts are not modelled.
- WorldRecovery.Group.Retry: errors that recovery may not handle leave the whole recovery and have no result; what a rejected row adds to the footprint is arbitrary; diagnostics and failure codes are left out.
- WorldRecoveryOutcome.Recover: the diagnostics history and the failure codes that come with a failure are left out.
- WorldWindow.ComparisonWindow.LookAhead: requires that the fitting test admits no request beyond some size, which the token limit provides; claims are taken to return batches with different identifiers.
- ChatBootstrap.Host.PrepareApi: Compose interpolation is the file over fixed defaults; health checks, file permissions and the pool size are left out, and a restart or check that fails is a crash; the settings and the file are read at one moment; operator edits touch CHAT_ENABLED alone.
- The preparation of the AI host and the database steps of the bootstrap are not part of this model.
- EvidenceSpans.Resolve: white space and double quotes are an abstract classification of characters; deduplication and sorting of several spans are left out.
- CitationCover.CoverSpan: indexing of passages and the wrappers around one quote are left out.
- SubjectReplay.ResolveSegment: candidates fixed without the provider, the merge with them and the commit into the caller's lists are left out; identity-proof rules are a parameter.
- AnalysisScheduler.Scheduler.Run: a finite list of turns stands for a run of any length; times, the grace arithmetic and metrics are left out.
- ValidationScheduler.JobScheduler.Run: a finite list of turns and moments stands for a run of any length, and `unfinished` says that it is used up before the loop has ended; the time that a delay takes and the logged warning are left out.
- Prompts, JSON, token estimation, HTTP, the database, logging and the debug scripts are left out.
