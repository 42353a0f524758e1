# Traffic planning core: a verified model

This project models five parts of the traffic workflow backend and proves what they keep.

* **Decision context** (`Sorting`, `Projections`, `Ranking`, `Packing`, `Digest`, `PromptTree`, `Fingerprints`,
  `Sides`, `Prompt`, `PromptContents`).
  Evidence rows are ranked, packed under budgets and digested; the prompt tree is split into a trusted and an untrusted
  half and fingerprinted.
* **Replan lineage** (`Budget`, `RunStore`, `Continuation`, `LineageTree`). A tree of runs shares one budget.
  Claims and reservations charge it durably while a coordinator holds a copy it read earlier.
* **Memory** (`WriteGate`, `MemoryItems`, `MemorySlots`, `MemoryChains`, `MemoryRuns`, `MemoryWrites`, `Traces`, `Threads`,
  `Recall`, `MemoryContent`, `RecallSafety`, `RecallVerdicts`, `MemoryRepository`, `MemoryCoordinator`). Items with dedup keys
  and supersede links, a gate that compares authority, one trace row per run, event threads, and thread-scoped recall.
* **Case building** (`CaseBuild`). Look up, build, insert under a UNIQUE constraint, look up again on conflict.
* **Plan adapter** (`Adapter`). Dependencies become sorted successor lists behind one entry node.

Code that works step by step is a class or a method with loops, tied by its `ensures` to a specification function;
what the code promises is proved about those functions, and what each operation does is also stated on its inputs and
outputs alone: which row stands first, which one is packed, granted, stored or recalled, and what it carries. Protocols
(case building, run tree, recalls) are state machines: the theorems hold for every schedule of any number of clients, and a
crash is a client that never moves again.

Some of the code's claims hold only under a condition. In those places the exact condition is proved:

* The ranking is independent of the collectors' row order exactly when no two different rows share a ranking key. The
  comment in `rank_projections` says the last key component always decides; it does not when two rows agree in it. Equal
  digests still mean equal evidence: rows that share a key come from one source, and the digest keeps the order of those.
* The trust split can be undone exactly for separable trees. A list item with a nested dict that mixes both kinds
  loses fields; no field of a prompt is shaped like that except possibly the two free-form summaries.
* The fingerprint does not identify what the model is shown, in either direction. It hashes None values and empty dicts,
  which the split drops; and it does not tell an enum value from a plain string, which the split shows in different halves.
  Between contexts whose summaries hold strings of the same kinds and are separable, equal fingerprints mean equal halves
  and equal gaps, and the other way round; no tree that is not separable can be told from its twin by its halves. With
  free text at the same places, equal fingerprints mean equal halves exactly when the strings go to the same sides. For the
  summaries the assembler builds one case is left: a run without a trajectory, and one with a trajectory without metrics.
* The bound of 2^maxReplans runs holds as long as nothing stale is written, and is lost with the first stale write: from
  there the tree can outgrow it without another. A write is stale first when a cutover of its run commits between its read
  and itself. That happens in two ways. Two concurrent replans of one run overlap, because observation ids are random and
  `auto_continue` does not ask whether the run was already replanned. Or a durable reservation reads the run before a
  cutover and saves it whole afterwards, which gives the run its replan back and forgets its child.
* A cutover reads the run twice before it commits. What others spend after the first read is lost to both budgets. A claim
  granted between the reads stays registered; one granted after the second read loses its registration as well, so that the
  same key is granted twice.
* A durable reservation reads the run and saves it whole. A claim granted in between is lost with its charge. So exhaustion
  is not final: whatever others did, the saved run is exhausted exactly if it was when it was read or the reservation took
  the last of its counter.
* A completed call answers every later claim of its key with its result, except for assessments: a second completion
  overwrites the first, although the code calls it idempotent.
* Slots stay unique exactly for clear batches: a batch judged against the items stored before it can fill a slot twice.
  A user correction keeps them unique exactly when no earlier correction of the key is live and the most authoritative
  row under the key is the stable fact, if there is one.
* A batch judges its candidates before its transaction begins. If others commit in between, slots stay unique exactly when
  what is then live in a slot that gets a new item is still the row this item replaces, and no slot is written twice. The
  supersede links stay chains exactly when, besides, no row is replaced that was replaced before; this can fail while the
  slots stay unique, if the first replacement has expired.
* An exception inside one action does not stop a batch. A replacement that fails after its old row was marked leaves a
  superseded row without successor and an empty slot, unless another write of the batch replaces the same row.
* A patch overwrites the fields of its own phase even with empty ones, although `merge_trace` is described as letting nothing
  empty overwrite stored data. So a user correction clears what the write phase of its run had recorded.
* The session state names an active thread exactly unless a recall stands between closing just that thread and creating the
  next one. A recall that stopped there does no harm once another one has created a thread.
* A superseding row is stored without its event thread, so a stable fact that was ever replaced is never recalled
  again. User corrections have no event thread either, so no stable fact the user corrected is ever recalled.
* A conflict while building a case ends in an integrity error exactly when the truncated case id belongs to another run.
* The provenance report has no line for unknown source types, so its counts add up exactly when every type is known.

## Model

| member | source | states |
|---|---|---|
| Projections.ScoreRelevance | backend/planning/context_assembler.py:518-534 | the accumulated score is the sum its five criteria define |
| Projections.NothingScoresNothing | backend/planning/context_assembler.py:518-534 | a row of the lowest trust that nothing speaks for scores nothing |
| Projections.ReferenceAdds100 | backend/planning/context_assembler.py:522-523 | being referred to is worth 100 |
| Projections.StepAdds40 | backend/planning/context_assembler.py:524-525 | belonging to the current step is worth 40, whatever the current node is |
| Projections.NodeAdds30 | backend/planning/context_assembler.py:524-527 | belonging to the current node but not to the current step is worth 30 |
| Projections.EmptyIdsMatchNothing | backend/planning/context_assembler.py:524-527 | without a current step or node no row is local |
| Projections.FailureAdds20 | backend/planning/context_assembler.py:528-530 | a truthy error or one of two statuses is worth 20, once |
| Projections.PolicyEventAdds20 | backend/planning/context_assembler.py:531-532 | a policy decision is worth 20 |
| Projections.OtherFieldsDoNotCount | backend/planning/context_assembler.py:528-532 | no other field of a row moves its score |
| Projections.TrustLevelAdds5 | backend/planning/context_assembler.py:533 | each level of trust is worth 5 |
| Projections.ReferencedOutranksIff | backend/planning/context_assembler.py:518-534 | a row the decision point refers to outranks every other row, but for one exact tie |
| Projections.OwnFieldsAddAtMost40 | backend/planning/context_assembler.py:518-534 | what a row says about itself moves its score by at most 40, and by 40 exactly for a failure with a policy event |
| Projections.KeyAntisymmetric | backend/planning/context_assembler.py:547-554 | rows that compare equal have the same ranking key |
| Projections.StrLeqIff | backend/planning/context_assembler.py:547-556 | texts compare by their first differing character, a prefix coming first |
| Ranking.RankLeqIsTotalPreorder | backend/planning/context_assembler.py:547-556 | the ranking compares any two rows and is transitive |
| Ranking.RankProjections | backend/planning/context_assembler.py:537-568 | sorting and the one-per-type pass compute the specified ranking |
| Ranking.RankPermutes | backend/planning/context_assembler.py:537-568 | the ranking is a permutation of the collected rows |
| Ranking.RankLeadsWithBestOfEachType | backend/planning/context_assembler.py:558-568 | the first k rows are the best of each of the k source types, best first; the rest is sorted |
| Ranking.RankKeepsOrderWithinType | backend/planning/context_assembler.py:558-568 | within a source type the order is the sorted order |
| Ranking.OutrankingRowsStandFirst | backend/planning/context_assembler.py:547-568 | of two rows of one source type, of two leading rows, and of two others, the one with more relevance stands first; on equal relevance the more trusted, then the earlier, then type and reference decide |
| Ranking.EveryTypeLeadsOnce | backend/planning/context_assembler.py:558-568 | the leading rows have pairwise different source types, and every type is among them |
| Ranking.RankOrderIndependentIff | backend/planning/context_assembler.py:537-568 | all arrival orders give one ranking if and only if no two different rows share a ranking key |
| Ranking.RanksAgreeIffTiedRowsAgree | backend/planning/context_assembler.py:537-568 | two deliveries rank alike if and only if rows that share a ranking key arrive in the same order |
| Ranking.TieBreaksDeterminism | backend/planning/context_assembler.py:541-556 | any two different rows with one key give two arrival orders that rank differently |
| Packing.PackEvidence | backend/planning/context_assembler.py:576-621 | the greedy loop returns the specified evidence, truncation flag and provenance |
| Packing.Summary | backend/planning/context_assembler.py:86-110 | a summary is the full text or its prefix within the cap, and the full text exactly when nothing was cut |
| Packing.PackingBounded | backend/planning/context_assembler.py:586-613 | total, class and summary budgets hold, and the output is a subsequence of the input |
| Packing.PackingMaximal | backend/planning/context_assembler.py:594-606 | adding any dropped row to the final selection would break a budget |
| Packing.EntryDescribesItsRow | backend/planning/context_assembler.py:608-613 | the i-th entry carries reference, type, class, time, relevance and hash of the i-th kept row, and its text up to the cap of its class |
| Packing.RowIsPackedIffRoom | backend/planning/context_assembler.py:594-606 | a further row is packed behind the others if and only if it fits the total and the percentage of its class, in the numbers of the budget; otherwise nothing changes |
| Packing.SharesHold | backend/planning/decision_context.py:230-241 | of what is packed, each class has at most its percentage of the total |
| Packing.DroppedRowHasNoRoom | backend/planning/context_assembler.py:594-606 | a dropped row exceeds the total or the percentage of its class beside the final selection too |
| Packing.DecisionHasRoomIff | backend/planning/decision_context.py:204-241 | the numbers of the three decisions: 6000, 4000, 5000 characters, 400 a row, 200 for knowledge, and the four class shares |
| Packing.PackingPartitions | backend/planning/context_assembler.py:586-613 | every row is kept or dropped, never both |
| Packing.UntruncatedIffComplete | backend/planning/context_assembler.py:586-621 | truncated is false exactly when every row is packed with its full text |
| Packing.ReportConserved | backend/planning/context_assembler.py:614-621 | dropped is input less output; the counts add up exactly when every source type is known |
| Packing.ReportCountsEachType | backend/planning/context_assembler.py:615-620 | the line of each source type counts its rows before and after packing |
| Digest.AssembleDecisionContext | backend/planning/context_assembler.py:705-785 | ranking, packing and digest are wired as specified |
| Digest.SameDigestSameInput | backend/planning/decision_context.py:503-522 | equal digests mean the same rows, decision point and system state |
| Digest.SameDigestSameEvidence | backend/planning/context_assembler.py:746-761 | equal digests mean equal evidence, truncation flag and provenance, whatever order the rows arrived in and however many share a ranking key |
| Digest.DigestAgreesIffInputAgrees | backend/planning/decision_context.py:503-522 | digests agree if and only if the system state does and the rows of every source stand in the same order |
| Digest.SystemStatesAgreeIff | backend/planning/context_assembler.py:746-760 | system states agree if and only if decision, run, root, plan, goal, status, decision point, references, recommendation and budget do |
| Digest.DigestIdentifiesSnapshot | backend/planning/decision_context.py:503-522 | so digests agree if and only if all of these do and the rows of every source stand in the same order |
| Digest.DigestedRecord | backend/planning/decision_context.py:503-522 | the hashed record names each part, with one entry per row |
| Digest.ContextStaysWithinBudget | backend/planning/context_assembler.py:723-726 | the evidence of a context is the packed ranking, within the characters of its decision and of each class |
| Digest.ContextReportsRows | backend/planning/context_assembler.py:614-621 | the report counts, for each type, the rows collected and the entries shown, and then the rows left out |
| Digest.ContextTruncatedUnlessComplete | backend/planning/context_assembler.py:586-621 | a context is flagged as truncated unless every row is shown in ranking order with its full text |
| PromptTree.WalkTrust | backend/planning/decision_context.py:408-458 | the walk computes the specified halves |
| PromptTree.WalkDict | backend/planning/decision_context.py:423-435 | a dict is split entry by entry |
| PromptTree.WalkList | backend/planning/decision_context.py:436-458 | a list is trusted as a whole or rendered whole into the untrusted half |
| PromptTree.HalvesPresent | backend/planning/decision_context.py:408-458 | a half exists exactly when the tree holds something that belongs into it |
| PromptTree.TrustedLeavesAreSystem | backend/planning/decision_context.py:408-458 | every string leaf of the trusted half is a system string or an enum value at the same path of the tree |
| PromptTree.UntrustedLeavesKeepPath | backend/planning/decision_context.py:408-458 | every free or unmarked string is in the untrusted half at its own path |
| PromptTree.SplitLosesNothingIff | backend/planning/decision_context.py:408-458 | merging the halves rebuilds the tree without markers, None values and empty dicts, if and only if the tree is separable |
| PromptTree.SplitLosesNestedField | backend/planning/decision_context.py:436-458 | a list item with a nested mixed dict does lose a field |
| PromptTree.UntrustedHalfIsPartial | backend/planning/decision_context.py:423-458 | the untrusted half alone never amounts to a tree that also holds trusted content |
| Prompt.OutsideTextIsMarked | backend/planning/decision_context.py:350-405 | every text from outside carries the free-text marker in the prompt tree |
| Prompt.OutsideTextStaysUntrusted | backend/planning/decision_context.py:461-470 | every outside text is at its path in the untrusted half and nowhere in the trusted half |
| PromptContents.SystemTextIsTrusted | backend/planning/decision_context.py:350-470 | every identifier, code and completed step is at its own place in the trusted half |
| PromptContents.EvidenceLabelsStandByTheirText | backend/planning/decision_context.py:377-385 | the labels of an evidence entry stand beside its text, in the untrusted half |
| PromptContents.TrustedLeavesKeepPath | backend/planning/decision_context.py:408-458 | in any tree a system string, an enum value or a number keeps its place in the trusted half unless a list on the way holds untrusted text |
| PromptContents.NumbersAreTrusted | backend/planning/decision_context.py:350-470 | plan version, truncation flag and confidence are in the trusted half |
| PromptContents.PromptEntries | backend/planning/decision_context.py:350-405 | a prompt has these entries and no others; the recommendation is for semantic replans |
| PromptContents.MissingRecordsAreEmpty | backend/planning/decision_context.py:367-403 | without observation or recommendation their entries are there, and empty |
| PromptContents.BudgetIsShown | backend/planning/context_assembler.py:656-682 | every limit and counter is shown under its name, and what is left of each counter, never less than nothing |
| PromptContents.TrajectoryIsShownByName | backend/planning/context_assembler.py:685-702 | every metric is shown under its name, None if it is missing |
| Prompt.PromptSplitLosesNothingIff | backend/planning/decision_context.py:350-470 | splitting a prompt loses nothing if and only if its two free-form summaries are separable |
| Fingerprints.FingerprintPinsTree | backend/planning/decision_context.py:473-491 | among trees with strings of the same kinds a fingerprint belongs to one tree |
| Fingerprints.FingerprintIsHalvesAndGaps | backend/planning/decision_context.py:408-491 | between separable trees with strings of the same kinds, equal fingerprints mean equal halves and equal gaps, both ways |
| Fingerprints.InseparableTreesHaveTwins | backend/planning/decision_context.py:408-458 | every tree that is not separable has another one with the same kinds, gaps and halves |
| Sides.ShownAlikeIffSameSides | backend/planning/decision_context.py:408-491 | with equal fingerprints and free text at the same places, trees are shown alike if and only if their strings go to the same sides; in rendered lists only the choice of entries counts |
| Prompt.FingerprintCanBeSpelledOut | backend/planning/decision_context.py:473-491 | a system string can spell out the hash of a text, and is shown in the other half |
| Prompt.SameFingerprintIffSamePrompt | backend/planning/decision_context.py:461-500 | two contexts have one fingerprint if and only if the model is shown the same two halves and the summaries leave out the same |
| Prompt.SameFingerprintShowsTheSame | backend/planning/decision_context.py:461-500 | with summary strings of the same kinds, equal fingerprints mean equal halves, whatever the summaries hold |
| Prompt.ShownAlikeIffSummariesKeepSides | backend/planning/decision_context.py:461-500 | with equal fingerprints and summaries with free text at the same places, the halves agree if and only if no summary string changed sides |
| Prompt.AssembledFingerprintIff | backend/planning/context_assembler.py:666-702 | for contexts the assembler builds, one fingerprint means one prompt but for a missing against an empty trajectory |
| Prompt.NoneIsHashedNotShown | backend/planning/decision_context.py:423-500 | a None and a missing outcome differ in the fingerprint and are shown alike |
| Prompt.EnumCrossesUnseen | backend/planning/decision_context.py:423-500 | an enum value and a plain string have one fingerprint and are shown in different halves |
| Budget.ExecutionLineage.TryReserveStep | backend/planning/budget.py:210-214 | a step is granted unless the budget is exhausted, and charged |
| Budget.ExecutionLineage.TryReserveReplan | backend/planning/budget.py:238-242 | a replan is granted below its limit, and charged |
| Budget.ExecutionLineage.CloseActiveSegment | backend/planning/budget.py:300-304 | closing adds the open segment to the elapsed time once |
| Budget.CountersAdvance | backend/planning/budget.py:186-242 | over any sequence of operations no counter falls and none passes its limit |
| Budget.GrantedIffBelowLimit | backend/planning/budget.py:200-242 | a step needs all five budgets that exhaust a run, every other reservation its own counter alone |
| Budget.CountersCountGrants | backend/planning/budget.py:210-242 | over any sequence of operations each counter moves by the number of its granted reservations |
| Budget.ReservationsRunOutAtLimit | backend/planning/budget.py:217-242 | of n requests for one budget exactly what was left of it is granted, at most n |
| Budget.ExhaustionIsAbsorbing | backend/planning/budget.py:200-214 | once exhausted, always exhausted under pure operations: no later step is granted in the run or a descendant |
| Budget.ActiveTimeWithinClock | backend/planning/budget.py:295-304 | however segments are opened, reopened and closed, no time is counted twice: what is added is within what the clock advanced |
| Budget.SegmentAddsItsSpan | backend/planning/budget.py:295-304 | a segment opened and closed adds its span, none if the clock went back, and closing again adds nothing |
| Budget.RootStartsUnused | backend/planning/budget.py:71-182 | a root starts with nothing used, under the default limits |
| Budget.MissingKeysReadAsDefaults | backend/planning/budget.py:94-178 | a number missing in the stored dict reads as its default, and changes no other |
| RunStore.LineageRoundTrip | backend/planning/budget.py:155-178 | storing a lineage in a run state and reading it back changes nothing |
| RunStore.ClaimCharges | backend/workflow/repository.py:1032-1083 | the lineage read back after a claim is the old one with exactly the claim charged |
| RunStore.NewClaimIsRefusedIff | backend/workflow/repository.py:1032-1236 | a key that is not registered is refused if and only if the calls, or those of its kind, have reached their limit |
| RunStore.RegisteredClaimIsAnswered | backend/workflow/repository.py:1032-1236 | a registered key is answered from the registry of its own kind, whatever is left of the budget |
| RunStore.CriticClaimCharges | backend/workflow/repository.py:1061-1076 | a granted critic claim registers its key and charges one call and one critic call, nothing else |
| RunStore.SemanticClaimCharges | backend/workflow/repository.py:1190-1236 | a granted semantic claim registers its key and charges one call, nothing else |
| RunStore.AssessmentClaimCharges | backend/workflow/repository.py:1111-1158 | a granted assessment registers its key and charges one call and one assessment, nothing else |
| RunStore.CallsStayWithinLimits | backend/workflow/repository.py:1032-1236 | over any sequence of claims, completions and reservations no call counter passes its limit, unless it had before |
| RunStore.CallsCountGrants | backend/workflow/repository.py:1032-1236 | over any such sequence the counters account for every granted claim and reservation once, and for nothing else |
| RunStore.KeyIsGrantedOnce | backend/workflow/repository.py:1032-1236 | as long as everybody works in single transactions a key is granted at most once |
| RunStore.RunRepository.ReserveDurable | backend/planning/budget.py:255-272 | the run as it was read is saved with the reservation charged, over whatever others stored in between, or nothing is saved |
| RunStore.ReservationIsGrantedIff | backend/planning/budget.py:255-272 | a reservation is granted if and only if the run has a lineage that affords it and the save succeeds; otherwise it stores nothing |
| RunStore.ReservationKeepsChargesIff | backend/planning/budget.py:255-272 | the save accounts for every charge if and only if nobody spent since the read |
| RunStore.ClaimDuringReservationIsGrantedAgainIff | backend/planning/budget.py:255-272 | a claim granted in between is unregistered by the save and would be granted again, unless the reservation took the last call |
| RunStore.ReservationLeavesExhaustedIff | backend/planning/budget.py:200-272 | whatever others stored, the saved run is exhausted if and only if it was when read or the reservation took the last of its counter |
| RunStore.ReservationCanUndoExhaustion | backend/planning/budget.py:255-272 | an input: a run that a claim exhausted in between is not exhausted after the save |
| RunStore.RunRepository.ClaimTx | backend/workflow/repository.py:1032-1083 | a claim answers completed, started, exhausted or not eligible, or charges and registers |
| RunStore.CompletionStoresResultIff | backend/workflow/repository.py:1085-1109 | a completion stores its result if and only if the call was started or is an assessment, and changes no other entry and no budget |
| RunStore.CompletedAnswerIsFinalIff | backend/workflow/repository.py:1032-1188 | whatever happens later, claims of a completed key are answered with its result, if and only if it is no assessment |
| RunStore.RunRepository.CreateChildContinuationTx | backend/workflow/repository.py:961-1030 | child and parent are stored together |
| RunStore.DurableRefinesPure | backend/planning/budget.py:255-272 | any series of durable reservations leaves the lineage the pure ones compute and touches nothing else |
| Continuation.PlanningContinuationCoordinator.CreateAndExecuteChild | backend/planning/continuation.py:663-716 | the run is read a second time; child and parent are built from that and committed over what others stored meanwhile |
| Continuation.PlanningContinuationCoordinator.PerformReplan | backend/planning/continuation.py:602-661 | the lineage of the first read gets one more replan and is handed on, or the request is refused |
| Continuation.PlanningContinuationCoordinator.ExplicitReplan | backend/planning/continuation.py:274-305 | an explicit replan refuses unsuitable or already replanned runs, else continues |
| Continuation.PlanningContinuationCoordinator.AutoContinue | backend/planning/continuation.py:307-334 | the automatic path continues without asking whether the run was replanned |
| Continuation.CutoverKeepsStoredState | backend/planning/continuation.py:615-716 | child and parent get the usage of the first read with one more replan; the parent keeps the registries of the second read and every other key; no other run changes |
| Continuation.ChildStartsFromParent | backend/planning/continuation.py:674-689 | the child has the carried results it was given, the inherited part of its parent, empty registries, pointers to the parent, and the next version of its plan; it is pending |
| Continuation.ParentPointsToChild | backend/planning/continuation.py:691-707 | the parent is rejected if it was and failed otherwise, replanned to the child and its version; the rest of its state stays |
| Continuation.ReplanIsAnsweredIff | backend/planning/continuation.py:602-716 | which of five answers a replan gets: invalid revision, invalid carried results, no replan left, id taken, or child started |
| Continuation.RefusedReplanStoresNothing | backend/planning/continuation.py:628-714 | without a child nothing is stored but what others store |
| Continuation.RequestRootsRun | backend/planning/continuation.py:152-162 | a run without a lineage becomes a root with nothing used; any other keeps the lineage it has |
| Continuation.ReplanChargesExactly | backend/planning/continuation.py:496-661 | over a whole request child and parent get what was stored at the start, charged for the claims of the request and all that others spent until the revision step read the run, and one replan |
| Continuation.UndisturbedRequestCharges | backend/planning/continuation.py:496-661 | left alone, a request charges the critic call if its key is new and affordable, then the semantic call if its key is new, a replan was left and the critic did not take the last call |
| Continuation.NoClaimLostIffNoneInWindow | backend/planning/continuation.py:615-697 | the usage handed on is that of the commit and one replan, if and only if nobody spent since the first read |
| Continuation.RegistrationKeptIffBeforeSecondRead | backend/planning/continuation.py:674-697 | of the claims granted during a cutover exactly those before its second read stay registered |
| Continuation.LateClaimIsGrantedAgain | backend/planning/continuation.py:674-707 | a claim granted after the second read would be granted once more after the cutover |
| Continuation.ClaimBetweenReadsIsLost | backend/planning/continuation.py:615-697 | a claim between the reads stays registered but its call is missing from both budgets |
| Continuation.LateSaveReopensRun | backend/planning/budget.py:255-272 | a reservation read before a cutover and saved after it restores the run as it was, with its replan, while the child stays; the next replan starts a second child |
| LineageTree.ReplanIsACutover | backend/planning/continuation.py:615-707 | a started replan is a cutover of the tree: it leaves parent and child with the lineage its first read allows |
| LineageTree.ReservationIsASave | backend/planning/budget.py:255-272 | a durable reservation is a read and a save of the tree: it stores the copy with the reservation charged |
| LineageTree.ChainsAreShort | backend/planning/continuation.py:615-707 | in every interleaving, stale cutovers and saves included, a parent-to-child chain is no longer than the remaining replans |
| LineageTree.PotentialRisesIffStale | backend/planning/continuation.py:615-707 | a step raises the potential if and only if it is a cutover or a save that writes fewer replans than the run has |
| LineageTree.LineageIsBounded | backend/planning/budget.py:186-242 | while nothing stale was written, a root has at most two to the power of its remaining replans many runs |
| LineageTree.BoundIsLostIffStale | backend/planning/budget.py:186-272 | after a first stale write, and only then, the tree can outgrow the bound without another stale write |
| LineageTree.StaleIffSpansCutover | backend/planning/continuation.py:615-707 | a write is the first stale one if and only if a cutover of its run commits between its read and itself |
| LineageTree.SeparateCutoversAreBounded | backend/planning/continuation.py:615-707 | the bound holds in every execution in which no two cutovers of one run overlap and no reservation spans a cutover of its run |
| LineageTree.ConcurrentCutoversOverrunBound | backend/planning/continuation.py:307-334 | two coordinators that read one run before either commits overrun the bound |
| LineageTree.LateSaveOverrunsBound | backend/planning/budget.py:255-272 | a reservation saved after a cutover it did not see overruns the bound although no cutovers overlap |
| CaseBuild.CaseRepository.InsertCase | backend/case_memory/repository.py:131-157 | an insert stores the row or fails on either key and stores nothing |
| CaseBuild.CaseRepository.UpdateCasePreservingIdentity | backend/case_memory/repository.py:159-194 | a rebuild replaces the content and keeps case id and creation time |
| CaseBuild.TrafficCaseMemoryService.BuildFromWorkflowRun | backend/case_memory/service.py:27-42 | one call returns the existing, the rebuilt, the new, or after a conflict the winner's row |
| CaseBuild.StepKeepsInv | backend/case_memory/service.py:27-42 | every move of every client keeps the table keyed by run and the clients consistent with it |
| CaseBuild.BuiltExactlyOnce | backend/case_memory/service.py:27-42 | in every interleaving at most one call created the row, and all successful calls report its id and creation time |
| CaseBuild.RereadFindsIffOwnId | backend/case_memory/service.py:36-42 | the second look finds a row if and only if the case id is not held by another run |
| CaseBuild.NoIntegrityErrorWithDistinctIds | backend/case_memory/repository.py:50 | with distinct case ids no call ends in an integrity error |
| CaseBuild.CollidingIdsFail | backend/case_memory/models.py:33-37 | of two runs with one truncated id the second cannot be stored |
| CaseBuild.RebuildReplacesContent | backend/case_memory/repository.py:158-194 | left alone, a rebuild stores new content and time of update under the old id, run and time of creation, and changes no other row |
| CaseBuild.NewCaseIsStored | backend/case_memory/service.py:27-37 | left alone, a call for a run without a case stores one, or fails if its id is taken |
| CaseBuild.ExistingCaseIsReturned | backend/case_memory/service.py:28-30 | without rebuild an existing case is returned as it is |
| CaseBuild.LoserReturnsWinner | backend/case_memory/service.py:38-42 | a call that lost a race reports the stored case, neither created nor rebuilt |
| WriteGate.ConflictDecision | backend/memory/write_gate.py:156-196 | no conflict exactly when the slot is free; a replaced item has the slot, another value, and lower authority or a correcting user |
| WriteGate.GateReplacesUpwards | backend/memory/write_gate.py:51-101 | the gate creates only in free slots and replaces only upwards; a user correction record may replace anything |
| MemoryWrites.RulesRejectIff | backend/memory/policy.py:33-190 | which candidates the two rule tables together admit: source, type, dynamic names, key, expiry, status and confidence |
| MemoryWrites.HolderDecides | backend/memory/write_gate.py:156-196 | which of five ways the first item of the slot decides, by content, source and authority |
| MemoryItems.QueryMembers | backend/memory/sqlite_repository.py:373-411 | a query returns live matching rows only, at most the limit, and all of them if they fit |
| MemoryItems.QueryTakesNewest | backend/memory/sqlite_repository.py:373-411 | a query lists the live rows of its session, type and key, newest first, and leaves one out only for as many that are no older |
| MemoryItems.BatchShape | backend/memory/coordinator.py:142-192 | a batch only marks old rows superseded and appends its own, except exact repeats |
| MemoryWrites.FreeSlotIsFilled | backend/memory/coordinator.py:248-265 | for a free slot the candidate is stored field by field with the thread of the batch, unless it repeats a stored row |
| MemoryWrites.HolderIsReplaced | backend/memory/sqlite_repository.py:577-610 | a lower holder is marked superseded and the candidate stored naming it, without a thread; if it repeats a stored row the slot is left empty |
| MemoryWrites.HolderStays | backend/memory/write_gate.py:164-194 | a holder with the same content or as much authority stays, and the candidate is dropped |
| MemoryWrites.RejectedIsNotStored | backend/memory/coordinator.py:319-324 | what a rule rejects is not stored |
| MemoryWrites.FailedActionStores | backend/memory/coordinator.py:327-335 | an exception stores nothing, except that a replacement failing midway leaves the old row marked |
| MemorySlots.BatchKeepsSlotsUniqueIff | backend/memory/coordinator.py:142-192 | after a batch every slot holds one live item if and only if each created item found its slot free and no slot was written twice with different content, wherever actions fail |
| MemorySlots.BatchOnOldViewKeepsSlotsUniqueIff | backend/memory/coordinator.py:142-192 | the same for a batch whose view is older than its transaction: what is live in a slot must still be the row the new item replaces |
| MemorySlots.DistinctVisibleBatchIsClear | backend/memory/coordinator.py:142-149 | candidates of different slots, judged with the whole session in view, meet that condition |
| MemoryChains.BatchNamesOnceIff | backend/memory/sqlite_repository.py:577-610 | a batch keeps every row named by at most one replacement if and only if no row it replaces was replaced before |
| MemoryChains.WritesKeepBaseIffClean | backend/memory/sqlite_repository.py:577-610 | ids, keys, unique slots and upward chains survive a batch, whenever it was judged and wherever it fails, if and only if it lands cleanly |
| MemoryChains.CleanWritesKeepInv | backend/memory/sqlite_repository.py:577-610 | then every superseded row also stays named by its replacement, if no replacement fails midway for good |
| MemoryChains.SlotsSurviveIffMended | backend/memory/coordinator.py:256-335 | superseded rows stay named and occupied slots occupied, each if and only if no replacement failed midway for good |
| MemoryChains.ExpiryKeepsInv | backend/memory/sqlite_repository.py:614-651 | an expiry sweep keeps them too |
| MemoryChains.SweepEmptiesSlotIff | backend/memory/sqlite_repository.py:614-651 | a sweep empties a slot if and only if its item is in scope and due |
| MemoryWrites.SweepExpiresOverdue | backend/memory/sqlite_repository.py:614-651 | a sweep expires exactly the live rows in scope whose time lies before the clock |
| MemoryRuns.BatchOnOldViewKeepsBaseIff | backend/memory/coordinator.py:142-192 | a batch judged on any earlier table keeps slots unique and links sound if and only if it is allowed |
| MemoryRuns.FreshBatchIsAllowedIffClear | backend/memory/coordinator.py:142-192 | a batch judged on the table it is executed on is allowed if and only if it is clear |
| MemoryRuns.HistoryKeepsBase | backend/memory/coordinator.py:142-461 | over every history of allowed batches, corrections and sweeps, whatever fails and however old the tables the batches were judged on, each slot has at most one live item and the links are disjoint upward chains |
| MemoryRuns.HistoryKeepsInv | backend/memory/coordinator.py:142-461 | if no replacement failed midway for good, every superseded row is also named by its replacement |
| MemoryRuns.StepsEvolve | backend/memory/coordinator.py:142-170 | whatever other writers commit, rows stay in place under their ids, slots and authorities |
| MemoryRuns.SupersededByIsWellDefined | backend/memory/sqlite_repository.py:1062-1073 | the lookup finds a row exactly for superseded rows, and only one it could find |
| MemoryRuns.ChainsAreDisjoint | backend/memory/sqlite_repository.py:1062-1073 | no row supersedes two rows |
| MemoryRuns.ChainEndsInSlot | backend/memory/sqlite_repository.py:577-610 | following the links ends in the same slot at a row nothing replaced |
| MemoryRuns.EveryRowLeadsToHolder | backend/memory/sqlite_repository.py:577-610 | from a new table and without sweeps every row of a slot leads to its one live item |
| MemoryRuns.OccupiedSlotsStayOccupied | backend/memory/coordinator.py:248-291 | between sweeps, if no replacement fails midway for good, an occupied slot stays occupied and its authority never falls unless the user corrected it |
| MemoryRuns.CorrectionKeepsSlotsUniqueIff | backend/memory/coordinator.py:379-441 | a user correction keeps slots unique if and only if no earlier correction of the key is live and the row found is the live fact, if any |
| MemoryWrites.CorrectionStores | backend/memory/coordinator.py:379-441 | a correction appends the fact and its audit record field by field, and marks the row found under the key if that is a stable fact |
| MemoryWrites.FoundIsMostAuthoritative | backend/memory/sqlite_repository.py:413-431 | the row found under a key is live, and none under the key has more authority, or as much and is newer |
| MemoryRuns.OneBatchCanFillASlotTwice | backend/memory/coordinator.py:143-149 | two different goals in one batch both pass the gate and share the slot |
| MemoryRuns.TwoBatchesCanFillASlotTwice | backend/memory/coordinator.py:142-170 | a goal judged before another run stored its own is created beside it |
| MemoryRuns.OldViewCanReplaceTwice | backend/memory/coordinator.py:142-170 | a goal judged before the old one was replaced, and stored after the replacement expired, replaces it again; the slot stays unique |
| MemoryContent.GateAdmitsOnlyVetted | backend/memory/write_gate.py:75-154 | what both rule tables let pass: no dynamic field, decisions only from human review, fusion only summaries and issues |
| MemoryContent.EveryRowIsVetted | backend/memory/coordinator.py:142-461 | over any history of batches, corrections and sweeps every stored row, of any status, is like that |
| MemoryContent.DynamicFilterRejectsNothing | backend/memory/retriever.py:157-161 | so the retriever's own check for dynamic fields never rejects a row |
| MemoryContent.ReplacementsAreThreadless | backend/memory/sqlite_repository.py:588-607 | over any history every row that replaced another has no event thread |
| MemoryContent.CorrectedFactsAreThreadless | backend/memory/coordinator.py:379-427 | over any history every stable fact from a user correction has no event thread |
| Traces.RowHoldsLastOfEachPhase | backend/memory/sqlite_repository.py:673-737 | after any interleaving the row holds the last recall patch's recall fields and the last write patch's write fields |
| Traces.RowKeepsFirstSessionLastThread | backend/memory/sqlite_repository.py:719-737 | the first named session stays, the last named event thread wins |
| Traces.RowKeepsFirstIdentity | backend/memory/sqlite_repository.py:719-796 | trace id and time of creation are those of the first patch |
| Traces.PatchTakesStoredIdentity | backend/memory/sqlite_repository.py:719-735 | the patch object is completed with the stored trace id, session and time of creation; its own event thread goes first |
| Traces.WritePatchFillsBlankRecall | backend/memory/sqlite_repository.py:685-716 | a write patch sets all write fields and those recall fields it does not leave blank |
| Traces.RecallPatchFillsBlankWrite | backend/memory/sqlite_repository.py:685-716 | a recall patch sets all recall fields and those write fields it does not leave blank |
| Traces.InterleavingsAgree | backend/memory/sqlite_repository.py:673-737 | histories with the same patches per phase leave the same content |
| Traces.RepeatChangesNothing | backend/memory/sqlite_repository.py:673-737 | merging the last patch of either phase again changes no content, whatever the other phase merged in between |
| Traces.CorrectionKeepsRecallIff | backend/memory/coordinator.py:443-450 | a correction's trace keeps the recall fields if and only if the recall had the same intent |
| Traces.CorrectionTraceIsStored | backend/memory/coordinator.py:443-450 | a correction records its intent and clears what the write phase of the run had recorded |
| MemoryCoordinator.WriteTraceRecordsBatch | backend/memory/coordinator.py:109-192 | the trace of a batch holds its candidates and results beside the recall fields already stored |
| Threads.MoveKeepsInv | backend/memory/coordinator.py:489-530 | every store operation of every recall keeps threads, session states and what recalls know consistent |
| Threads.AtMostOneActiveThread | backend/memory/sqlite_repository.py:880-915 | however recalls interleave or crash, a session never has two active threads |
| Threads.PointerNamesActiveThread | backend/memory/coordinator.py:508-530 | in every schedule the session state names an active thread if and only if no recall of the session stands between closing that thread and creating the next |
| Threads.ActiveThreadIsPointed | backend/memory/coordinator.py:508-530 | in every schedule an active thread is the one its session state names |
| Threads.UndisturbedRecallResolves | backend/memory/coordinator.py:489-530 | a recall left alone does in its store operations exactly what the resolution specifies |
| Threads.RecallOpensOrContinues | backend/memory/coordinator.py:508-530 | a recall works in a thread of its own if it starts something new or the session has none, else in the session's; what that leaves of every thread |
| Threads.CreateOpensOneThread | backend/memory/sqlite_repository.py:880-915 | creating a thread closes those of its session, leaves all others, and appends an active one |
| Threads.CloseAndTouchChangeOneField | backend/memory/sqlite_repository.py:943-968 | closing and touching change one field of one thread |
| Threads.RecallLeavesActivePointerIff | backend/memory/coordinator.py:508-530 | after an undisturbed recall the session state names an active thread if and only if one was opened or it was active before |
| Threads.HalfwayRecallLeavesClosedPointer | backend/memory/coordinator.py:508-530 | a recall that stops halfway leaves the next one on a closed thread |
| Recall.BuildPlan | backend/memory/recall_planner.py:51-164 | the planner's assignments yield the plan specified for each intent |
| Recall.Retrieve | backend/memory/retriever.py:52-104 | the loops fetch, filter and cut off as specified |
| RecallVerdicts.PlanAsksFor | backend/memory/recall_planner.py:51-164 | which intents ask for a type, in which order, and how many items they allow |
| RecallVerdicts.PlanIncludes | backend/memory/recall_planner.py:91-164 | which intents let in proposals, other threads and run summaries, and the reason each gives |
| RecallVerdicts.CorrectionAsksForKeys | backend/memory/recall_planner.py:124-132 | which keys the hints of a correction ask for |
| RecallVerdicts.FactIsAcceptedIff | backend/memory/retriever.py:106-180 | in an active thread a fact or decision is accepted if and only if it is live, not past its expiry, of that thread, without dynamic field, not contradicted by the current event, and asked for |
| RecallVerdicts.OtherItemIsAcceptedIff | backend/memory/retriever.py:106-180 | any other item may also have no thread, or for a memory query another |
| RecallVerdicts.RejectionNamesFirstCause | backend/memory/retriever.py:113-177 | a rejection names the first of ten causes that applies |
| RecallVerdicts.CandidateIsSelectedIff | backend/memory/retriever.py:74-94 | a candidate is selected if and only if it is accepted and fewer accepted ones than the limit stand before it |
| RecallVerdicts.CandidateIff | backend/memory/retriever.py:52-71 | the candidates are the newest rows of each type asked for and of each key |
| RecallVerdicts.FactIsRecalledIff | backend/memory/retriever.py:52-180 | if nothing is cut off, a recall finds exactly the thread's live, timely, uncontradicted facts and decisions of the types asked for |
| RecallVerdicts.OtherItemIsRecalledIff | backend/memory/retriever.py:52-180 | and of the other types exactly those of the thread, of none, or for a memory query of any |
| RecallVerdicts.RejectedItemsCarryTheirCause | backend/memory/retriever.py:74-94 | every rejected item carries the verdict of the filter, or that there were too many |
| RecallSafety.FactsStayInTheirThread | backend/memory/retriever.py:127-136 | for every plan with an active thread each selected fact or decision belongs to it; only a memory query sees run summaries of others |
| RecallSafety.RecallPartitionsCandidates | backend/memory/retriever.py:74-104 | selected and rejected partition the candidates, which have distinct ids, within the limit |
| RecallSafety.ReplacementIsNeverRecalled | backend/memory/sqlite_repository.py:588-607 | over any history a row that replaced a fact or decision is selected by no plan |
| RecallSafety.CorrectedFactIsNeverRecalled | backend/memory/coordinator.py:413-427 | over any history a stable fact from a user correction is selected by no plan |
| RecallSafety.ReplacedFactIsForgotten | backend/memory/retriever.py:134-136 | once a fact was replaced its slot's holder is selected by no plan |
| MemoryRepository.MemoryStore.CreateItem | backend/memory/sqlite_repository.py:276-357 | creating is idempotent under the dedup key and returns the stored item |
| MemoryRepository.MemoryStore.SupersedeItem | backend/memory/sqlite_repository.py:577-610 | the old row is marked and the new one linked; an unknown id changes nothing; a failing insert leaves the mark |
| MemoryRepository.MemoryStore.ExpireDueItems | backend/memory/sqlite_repository.py:614-651 | exactly the due live rows in scope expire, and are counted |
| MemoryRepository.MemoryStore.MergeTrace | backend/memory/sqlite_repository.py:673-796 | the patch object is completed in place and the run's row is the specified merge |
| MemoryRepository.MemoryStore.CreateEventThread | backend/memory/sqlite_repository.py:880-915 | active threads of the session are closed, the new one appended and made current |
| Threads.CloseEndsOneThread | backend/memory/sqlite_repository.py:943-955 | closing ends the named thread alone, and closing again changes nothing |
| MemoryRepository.MemoryStore.Begin | backend/memory/sqlite_repository.py:249-258 | a transaction remembers the store; a nested one is refused |
| MemoryRepository.MemoryStore.Rollback | backend/memory/sqlite_repository.py:262-272 | a rollback restores everything stored before |
| MemoryCoordinator.ConflictResolver.Resolve | backend/memory/conflict_resolver.py:32-87 | gate decisions become actions one to one, and are logged |
| MemoryCoordinator.MemoryCoordinator.ExecuteAction | backend/memory/coordinator.py:229-335 | one action changes the items as specified; a failing one is reported and stores nothing, but a replacement may leave its old row marked |
| MemoryCoordinator.MemoryCoordinator.ExtractAndWrite | backend/memory/coordinator.py:109-227 | what was judged on the first read is stored with its trace over what others committed meanwhile, or nothing of it is |
| MemoryCoordinator.MemoryCoordinator.ApplyUserCorrection | backend/memory/coordinator.py:341-461 | fact, audit record and trace are stored together, or nothing is |
| MemoryCoordinator.MemoryCoordinator.ResolveThread | backend/memory/coordinator.py:508-530 | the thread of an undisturbed recall is resolved as specified |
| MemoryCoordinator.MemoryCoordinator.RecallItems | backend/memory/coordinator.py:489-542 | the selection is the plan's for the thread the session state then names, and its facts belong to that thread |
| Adapter.PlanToDefinition | backend/planning/adapter.py:77-153 | the loops build the specified nodes, or report a missing dependency |
| Adapter.SuccessorsInvertDependencies | backend/planning/adapter.py:86-92 | a step is a successor as often as it is depended on |
| Adapter.SortingChangesNothing | backend/planning/adapter.py:94-97 | successor lists are already in plan order before they are sorted |
| Adapter.DefinitionInvertsPlan | backend/planning/adapter.py:86-129 | successor lists are the dependencies inverted, in plan order; the entry node leads exactly to steps without dependencies |
| Adapter.NodeCarriesStep | backend/planning/adapter.py:118-129 | the node of a step carries its id, type, objective and timeout, one attempt more than retries, and a condition if it is a risk gate |
| Adapter.EntryNodeIsTrigger | backend/planning/adapter.py:103-112 | the entry node is the one structural node, a trigger tried once |
| Adapter.ApprovalNodeNamesItsAction | backend/planning/adapter.py:57-64 | an approval node is for the action of its own step and bound to the step it approves |
| Adapter.ActionNodeNamesItsAction | backend/planning/adapter.py:65-70 | an action node carries its action, its parameters unless falsy, and the version of its approval |
| Adapter.AgentTargetsIff | backend/planning/adapter.py:99-101 | a memory node serves exactly the agents that the agent steps of the plan name |
| Adapter.AllReachableIffNoneSelfSupporting | backend/planning/adapter.py:99-129 | every step is reachable if and only if no set of steps has all its dependencies inside itself |
| Adapter.AcyclicPlansAreReachable | backend/planning/adapter.py:99-129 | in an acyclic plan every step is reachable from the entry node |

## Left out

- FastAPI routes, LLM clients, prompts, retrieval over embeddings, and the frontend: I/O or library code.
- Hashing and JSON encoding: SHA-256 and canonical JSON are parameters, assumed injective where a lemma says so; the
  dedup key is the tuple that is hashed, so a `|` inside a field that would blur two tuples is not modelled.
- Database, clock and uuid: tables are sequences and maps, times and fresh ids are inputs. One SQL
  statement, one claim and one repository transaction are single steps.
- Python numbers: `1 == True`, float rounding, NaN, infinities and negative zero are not modelled; a float that is hashed
  is a mantissa and an exponent, elapsed seconds are real numbers, trust caps whole percents, relevance whole numbers.
- Order of dict keys, of rows with equal `updated_at` in a query, and normalisation of timestamps to UTC.
- Evidence collection and scrubbing, observation text, objectives and trajectory projections: they enter as inputs.
- A row's stable content hash is an input; the lemmas that need it ask that it hashes the row's own fields.
- Planner, critic, validator and replanner answers are parameters (`Continuation.Answers`); observation events and the
  execution of the child are not modelled.
- Memory extraction, recall classification, reranking, injection and the JSON of recall traces; a recall's answer
  whether it starts a new event is an input.
- `FilteredItem` flags: being selected or rejected is membership in the returned lists, and the `historical_reference`
  score is not kept.
- The gate never answers confirm, expire or no_op, so the actions for them are not modelled; nor are direct status
  changes through `update_item`, access counting, and deleting a session.
- `MemoryItem` fields that no modelled decision reads (scope, source id, valid_from, access counts).
- Adapter.PlanToDefinition: gives the nodes, not the definition record around them (id, name, status, metadata, dates).
- Digest.AssembleDecisionContext: gives evidence, truncation flag, provenance and digest; the other fields of a context are
  copied or come from projections named above.
- CaseBuild.TrafficCaseMemoryService.BuildFromWorkflowRun: lets one competing insert happen, at the one point where it
  matters to the call; every other interleaving is a run of the state machine in the same module.
- MemoryCoordinator.MemoryCoordinator.RecallItems: selects before reranking, which only reorders the items.
- RecallVerdicts.FactIsRecalledIff: asks that nothing is cut off; what a limit cuts off is `RecallVerdicts.CandidateIsSelectedIff`
  and `MemoryItems.QueryTakesNewest`.
- MemoryWrites.HolderIsReplaced: asks that the slot has one holder and the session is in view; batches of several candidates
  and older views are `MemorySlots.BatchOnOldViewKeepsSlotsUniqueIff`.
- MemoryRuns.HistoryKeepsBase: speaks of allowed steps; `MemoryRuns.BatchOnOldViewKeepsBaseIff` and
  `MemoryRuns.CorrectionKeepsSlotsUniqueIff` show that condition to be exact.
- MemoryRuns.OccupiedSlotsStayOccupied: says nothing across expiry sweeps; when a sweep empties a slot is
  `MemoryChains.SweepEmptiesSlotIff`.
- LineageTree.LineageIsBounded: assumes that nothing stale was written, because the code does not prevent it;
  `LineageTree.BoundIsLostIffStale` and `LineageTree.StaleIffSpansCutover` show that assumption to be exact.
- Sides.ShownAlikeIffSameSides: asks for free text at the same places; without that `Prompt.FingerprintCanBeSpelledOut`
  stands against it.
- Prompt.SameFingerprintIffSamePrompt: asks for summary strings of the same kinds and separable summaries; without the one
  `Prompt.EnumCrossesUnseen`, without the other `Fingerprints.InseparableTreesHaveTwins` stands against it.
