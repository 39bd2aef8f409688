# Spiral harness: models and proofs

This project models the protocols and algorithms under the Spiral benchmark harness and proves what they are for.
Every operation that works by updating state is a method or a class with its own loops and is proved against a specification;
what the harness promises is then proved about that specification for every input, every run or every store.

## What is modelled

- **Run journal** (`Prelude`, `PilotContracts`, `RunContracts`, `RunReplay`, `RunChain`, `RunSafety`, `RunExecution`, `RunMeaning`, `RunJournal`, `JournalMeaning`).
  An append-only hash-linked journal over a content-addressed store, its replay, and the live writer.
  `RunReplay` gives the transition function and the two loops. `RunChain` shows when a tail is accepted and that it fixes the history.
  `RunSafety` derives the action word of every run, `RunExecution` what every call executed.
  `RunJournal` is the writer class; it keeps agreement with the replay through successes and failures.
- **Families and roster** (`FamilyGraph`, `Sorting`, `RosterSelection`, `RosterMeaning`, `RosterAudit`).
  Union-find with path halving over names and templates, quota slicing of the ranked pool, and the audits after it.
- **Exception scrubber** (`ExceptionScrubber`).
  A worklist over a cyclic heap graph that destroys the links it follows.
- **Campaign plan** (`RowMajor`, `CampaignContracts`, `CampaignPlan`, `CampaignFlow`, `CampaignBuild`, `CampaignSlots`, `CampaignCounts`, `CampaignClose`, `CampaignTopology`, `CampaignClosure`, `CampaignTexts`, `CampaignMeaning`).
  Nested loops emitting a dependency and evidence graph, for any number of replicates, tasks, rollouts and pipelines.
- **Pilot plan** (`PilotPlan`, `PilotOrder`, `PilotClose`, `PilotTexts`, `PilotMeaning`).
  The schedule builder against its own structural checks, for any roster and seed function.
- **Semantic audit** (`SemanticAudit`, `AuditMeaning`). Two reviews and an adjudication over n items.
- **Fault partition** (`FaultContracts`, `FaultPartition`, `FaultMargins`, `FaultMeaning`).
  The generator against its anti-cheat validator, for every number of groups.
- **Calls, votes and framing** (`SchemaCaster`, `CastMeaning`, `ToolCalls`, `ModalVote`, `FileFraming`), over texts that can be read back (`Texts`).
- **Multi-agent runner** (`AgentContracts`, `AgentRunner`).
  A budgeted loop against an independently written transcript validator; backends are arbitrary functions.

The modules whose names end in `Meaning` read the specifications back: they state, on slots, identities, fields and stored artifacts,
exactly when an operation accepts and what everything it produces says, without the functions that the operations are specified by.

## Results that differ from a first reading

- Closing a run is the only journal operation whose failure can leave the journal moved: CLOSE is appended before the closure is published
  (`spiral_harness/benchmark/bfcl_v4_public_run_journal.py:415-449`). `CloseRun` states exactly when, `ClosurePublishesExactly` in terms of the store before the call,
  and `ClosureCanBeLockedOut` gives the failing store.
- The built pilot plan closes if and only if the holdout tasks are disjoint from the search tasks and the seed function separates the PURE@B samples;
  neither is implied by the builder (`PlanClosesExactly`).
- In the lexical audit both thresholds must hold, but the Jaccard threshold implies the containment threshold (`JaccardDecides`).
- A generated fault partition is accepted if and only if neither its group digests nor its resolution suffixes collide (`PartitionAcceptedExactly`).
- The name audit cannot reject a roster drawn from eligible singletons (`DrawnHasNoOverlap`), and the count checks of closure verification
  cannot reject a replayed closed run (`ClosedRunCounts`).

Verify the whole project with `dafny verify dfyconfig.toml`.

## Model

| member | source | states |
|---|---|---|
| RunReplay.ReadEntriesLoop | spiral_harness/benchmark/_bfcl_v4_public_run_replay.py:605-638 | the cursor walk over an untrusted, possibly cyclic store terminates and returns exactly `ReadEntries` |
| RunReplay.CheckJoins | spiral_harness/benchmark/_bfcl_v4_public_run_replay.py:626-637 | the loop over adjacent entries accepts exactly when every link joins its neighbour |
| RunReplay.ReplayLoop | spiral_harness/benchmark/_bfcl_v4_public_run_replay.py:641-677 | the loop that re-applies every event returns exactly `Replay` |
| RunReplay.ApplyEvent | spiral_harness/benchmark/_bfcl_v4_public_run_replay.py:530-602 | an accepted event always yields a state that satisfies the state contract and belongs to this plan |
| RunChain.WalkIsLinking | spiral_harness/benchmark/_bfcl_v4_public_run_replay.py:605-638 | whatever the walk returns is a linked list from a first entry up to the cursor |
| RunChain.ChainDigestsDistinct | spiral_harness/benchmark/_bfcl_v4_public_run_replay.py:605-638 | no digest occurs twice in a complete chain, so the cycle guard never rejects an honest one |
| RunChain.WalkFindsPrefix | spiral_harness/benchmark/_bfcl_v4_public_run_replay.py:605-638 | from any point of a complete chain the walk finds exactly the part before it |
| RunChain.ReadEntriesExact | spiral_harness/benchmark/_bfcl_v4_public_run_replay.py:605-638 | reading a tail accepts a list if and only if it is the complete root-to-tail chain with contiguous sequence numbers |
| RunChain.ChainUnique | spiral_harness/benchmark/_bfcl_v4_public_run_replay.py:605-638 | one store holds at most one complete chain for a tail |
| RunChain.ChainsAgree | spiral_harness/benchmark/_bfcl_v4_public_run_replay.py:605-638 | two stores with an injective digest hold the same chain for equal tails |
| RunChain.TailCommitsToHistory | spiral_harness/benchmark/_bfcl_v4_public_run_replay.py:641-677 | with an injective digest, two accepted replays of equal tails, in any two stores, have the same entries, events and state |
| RunChain.CompletionMonotone | spiral_harness/benchmark/_bfcl_v4_public_run_replay.py:389-423 | a completion accepted in a store is accepted in every larger store |
| RunChain.FreezeMonotone | spiral_harness/benchmark/_bfcl_v4_public_run_replay.py:426-455 | an accepted candidate freeze stays accepted when artifacts are added |
| RunChain.JointMonotone | spiral_harness/benchmark/_bfcl_v4_public_run_replay.py:488-527 | an accepted joint selection stays accepted when artifacts are added |
| RunChain.ApplyMonotone | spiral_harness/benchmark/_bfcl_v4_public_run_replay.py:530-602 | one accepted transition has the same result in every larger store |
| RunChain.ReplayMonotone | spiral_harness/benchmark/_bfcl_v4_public_run_replay.py:641-677 | adding artifacts to the store never changes an accepted replay |
| RunSafety.OneActionKind | spiral_harness/benchmark/_bfcl_v4_public_run_replay.py:530-602 | in every state at most one action kind can be accepted, and the state alone determines which |
| RunSafety.WordGrows | spiral_harness/benchmark/_bfcl_v4_public_run_replay.py:530-602 | each accepted event appends exactly its own step to the word spelled by the state |
| RunSafety.ReplayedWord | spiral_harness/benchmark/_bfcl_v4_public_run_replay.py:641-677 | the actions of an accepted replay spell exactly the word its final state determines |
| RunSafety.ClosedRunWord | spiral_harness/benchmark/_bfcl_v4_public_run_replay.py:530-602 | every accepted closed run is OPEN, 14 call pairs, FREEZE_CANDIDATES, 26 call pairs, FREEZE_SELECTIONS, 60 call pairs, CLOSE |
| RunSafety.ClosedWordCounts | spiral_harness/benchmark/bfcl_v4_public_run_journal.py:79-100 | for any barriers a, a+b, a+b+c the closed word has 2(a+b+c)+4 steps with exact multiplicities |
| RunSafety.ClosedRunCounts | spiral_harness/benchmark/bfcl_v4_public_run_journal.py:79-100 | every closed run has 204 transitions with the verified multiplicities, so those checks follow from the transitions |
| RunSafety.ClosureVerifiesExactly | spiral_harness/benchmark/bfcl_v4_public_run_journal.py:58-105 | closure verification accepts if and only if the tail replays and the closure repeats the replayed final references; the counts never reject |
| RunExecution.MaterializeKeeps | spiral_harness/benchmark/_bfcl_v4_public_run_replay.py:266-302 | opening a call keeps the run invariant: it is the authorised execution of the next slot |
| RunExecution.CompleteKeeps | spiral_harness/benchmark/_bfcl_v4_public_run_replay.py:389-423 | completing the open call keeps the run invariant |
| RunExecution.FreezeCandidatesKeeps | spiral_harness/benchmark/_bfcl_v4_public_run_replay.py:426-455 | freezing candidates keeps the run invariant |
| RunExecution.FreezeSelectionsKeeps | spiral_harness/benchmark/_bfcl_v4_public_run_replay.py:488-527 | freezing selections keeps the run invariant |
| RunExecution.ApplyKeepsInvariant | spiral_harness/benchmark/_bfcl_v4_public_run_replay.py:530-602 | every accepted event keeps the run invariant |
| RunExecution.ReplayedInvariant | spiral_harness/benchmark/_bfcl_v4_public_run_replay.py:641-677 | every replayed state satisfies the run invariant |
| RunExecution.CompletionsNeverRepeat | spiral_harness/benchmark/_bfcl_v4_public_run_replay.py:389-423 | a newly accepted completion differs from every recorded one, so completion digests stay distinct without a separate check |
| RunExecution.InvalidCandidateRunsParent | spiral_harness/benchmark/_bfcl_v4_public_run_replay.py:226-263 | in a closed run an arm whose candidate was frozen invalid executes the shared parent in all its evaluation calls |
| RunExecution.CandidateSlotsRunCandidate | spiral_harness/benchmark/_bfcl_v4_public_run_replay.py:226-263 | in a closed run a candidate slot executes its own arm's candidate exactly when that was frozen valid, with matching variant and fallback flag |
| RunExecution.FallbackIsHonest | spiral_harness/benchmark/_bfcl_v4_public_run_replay.py:266-302 | in a closed run a fallback is recorded exactly where the parent stands in on a candidate or HOLDOUT slot |
| RunExecution.ApplyKeepsCitations | spiral_harness/benchmark/_bfcl_v4_public_run_replay.py:530-602 | every accepted event keeps the freezes citing their own evidence |
| RunExecution.FreezesCiteTheirEvidence | spiral_harness/benchmark/_bfcl_v4_public_run_replay.py:426-527 | in a closed run an arm's candidate cites exactly its PROPOSAL completion and its selection exactly its GATE completions |
| RunExecution.EveryCallIsAccounted | spiral_harness/benchmark/_bfcl_v4_public_run_replay.py:305-386 | in a closed run exactly the calls that are neither controllers nor PURE@B samples are graded, each by a receipt for that call and its own prediction; each sample is recorded for its own call |
| RunExecution.ControlsRunParent | spiral_harness/benchmark/_bfcl_v4_public_run_replay.py:226-263 | in a closed run every parent-FIT call and every non-candidate GATE call executes the shared parent |
| RunExecution.HoldoutRunsSelection | spiral_harness/benchmark/_bfcl_v4_public_run_replay.py:226-263 | in a closed run every HOLDOUT call of an adaptive arm executes the one harness its frozen selection names |
| RunExecution.HoldoutGradesAreUnlocked | spiral_harness/benchmark/_bfcl_v4_public_run_replay.py:305-386 | every graded call after the second barrier carries a receipt bound to that call and unlocked by both frozen selections |
| RunMeaning.LoadsExactly | spiral_harness/benchmark/_bfcl_v4_public_run_replay.py:76-89 | an event, entry, state, materialization, completion or candidate freeze loads exactly when it is stored under that digest, size and media type and keeps its own contract |
| RunMeaning.LaterLoadsExactly | spiral_harness/benchmark/_bfcl_v4_public_run_replay.py:76-98 | the same for selections and closures; an opaque reference is present exactly when content has its digest and size |
| RunMeaning.JsonLoadsExactly | spiral_harness/benchmark/_bfcl_v4_public_run_replay.py:326-386 | predictions, receipts and samples load exactly when such content is stored and the media type may hold JSON |
| RunMeaning.RunsExactly | spiral_harness/benchmark/_bfcl_v4_public_run_replay.py:226-263 | the execution policy accepts exactly what the slot and the frozen artifacts name: harness, variant and fallback flag per arm, kind and slot variant |
| RunMeaning.EveryCallRuns | spiral_harness/benchmark/_bfcl_v4_public_run_replay.py:266-302 | in a closed run every call ran its own slot's harness and variant, as the frozen candidates and selections name them |
| RunMeaning.VariantsByKind | spiral_harness/benchmark/_bfcl_v4_public_run_replay.py:226-263 | in a closed run PURE and PURE@B calls ran bare, STATIC calls the frozen static harness, parent FIT and non-candidate GATE calls the parent, controllers their own variant, candidate slots the candidate exactly when it was frozen valid, and adaptive HOLDOUT calls the candidate exactly when their arm's selection chose it |
| RunMeaning.ClosedFreezeSays | spiral_harness/benchmark/bfcl_v4_public_run_contracts.py:71-136 | in a closed run both arms froze over one parent from different proposals: a valid candidate is a harness of its own and runs, an invalid one leaves the parent in its place with the fallback flag |
| RunMeaning.OpensExactly | spiral_harness/benchmark/_bfcl_v4_public_run_replay.py:266-302 | a materialization is accepted exactly when it repeats the next slot of this plan, its inputs exist and it runs what the slot has to run |
| RunMeaning.GradedExactly | spiral_harness/benchmark/_bfcl_v4_public_run_replay.py:305-386 | the grading check accepts exactly a receipt for this call, slot, task, role and prediction, unlocked by the two selections where needed; a sample for its own call; and nothing on a failed call |
| RunMeaning.ClosesExactly | spiral_harness/benchmark/_bfcl_v4_public_run_replay.py:389-423 | a completion is accepted exactly when it closes the open materialization of this plan with existing artifacts and its due grading |
| RunMeaning.FreezesExactly | spiral_harness/benchmark/_bfcl_v4_public_run_replay.py:426-455 | a candidate freeze is accepted exactly at its barrier, with each arm's parent the one harness its five FIT calls ran and its artifacts citing its own PROPOSAL |
| RunMeaning.SelectsExactly | spiral_harness/benchmark/_bfcl_v4_public_run_replay.py:458-527 | a joint selection is accepted exactly at its barrier, over the current freeze, each arm citing its own eight GATE calls and obeying the rollback policy |
| RunMeaning.LeadsExactly | spiral_harness/benchmark/_bfcl_v4_public_run_replay.py:530-602 | every action has exactly one possible successor state, in exactly the stated situations |
| RunMeaning.AppliesExactly | spiral_harness/benchmark/_bfcl_v4_public_run_replay.py:530-602 | a transition is accepted with a successor exactly when plan, openness and action allow it and the state contract holds |
| RunMeaning.ContractFollows | spiral_harness/benchmark/bfcl_v4_public_run_contracts.py:289-343 | in every state a run can reach, the contract of the next state follows from the transition itself, so that validator never rejects one |
| RunMeaning.ReachedAppliesExactly | spiral_harness/benchmark/_bfcl_v4_public_run_replay.py:530-602 | from every reachable state an event is applied with a successor exactly when it leads there, without a word about the state contract |
| RunMeaning.ErrorsSay | spiral_harness/benchmark/_bfcl_v4_public_run_replay.py:266-602 | a refused transition of a run is a protocol error only if the event is out of turn, and always then if its artifact is in order; anything else is an integrity error, but for an unlock over one selection twice |
| RunMeaning.ChainedExactly | spiral_harness/benchmark/_bfcl_v4_public_run_replay.py:605-638 | a tail reads as a list of entries exactly when each is stored, links to the one before, counts up and belongs to one another's states |
| RunMeaning.ReplaysExactly | spiral_harness/benchmark/_bfcl_v4_public_run_replay.py:641-677 | a tail replays to given events and a given state exactly when a complete chain recomputes them, state by state |
| RunMeaning.ClosureSays | spiral_harness/benchmark/bfcl_v4_public_run_journal.py:58-105 | a closure verifies exactly when it is stored and repeats the tail, the state and the two freezes at the end of a replay that ends closed |
| RunJournal.Repository.Publish | spiral_harness/benchmark/_bfcl_v4_public_run_replay.py:100-118 | publishing keeps existing content, returns a reference that loads the very value, or fails closed |
| RunJournal.Journal.constructor | spiral_harness/benchmark/bfcl_v4_public_run_journal.py:117-139 | a journal without a tail starts empty |
| RunJournal.Journal.Recover | spiral_harness/benchmark/bfcl_v4_public_run_journal.py:117-139 | a journal rebuilt from a tail holds exactly the replayed entries, events and state |
| RunJournal.Journal.TailReplays | spiral_harness/benchmark/bfcl_v4_public_run_journal.py:117-193 | in every reachable journal, replaying the current tail gives exactly the appended events and the in-memory state |
| RunJournal.Journal.StoreTransition | spiral_harness/benchmark/bfcl_v4_public_run_journal.py:160-193 | event, state and entry are published in that order, and success is exactly that all three could be published |
| RunJournal.Journal.Append | spiral_harness/benchmark/bfcl_v4_public_run_journal.py:160-193 | an append moves to the checked next state and grows history by one event, or fails leaving tail, state and sequence unchanged |
| RunJournal.Journal.OpenRun | spiral_harness/benchmark/bfcl_v4_public_run_journal.py:195-206 | opening succeeds only on an empty journal; on an honest store, exactly then |
| RunJournal.Journal.MaterializeNextCall | spiral_harness/benchmark/bfcl_v4_public_run_journal.py:208-255 | a stale tail or failed check leaves the journal unchanged; success opens exactly the checked materialization; on an honest store it succeeds exactly when checks pass |
| RunJournal.Journal.CompleteCall | spiral_harness/benchmark/bfcl_v4_public_run_journal.py:257-308 | success closes the open call, appends its completion and advances the slot; otherwise nothing moves |
| RunJournal.Journal.FreezeCandidates | spiral_harness/benchmark/bfcl_v4_public_run_journal.py:310-343 | success records exactly the checked joint freeze; otherwise nothing moves |
| RunJournal.Journal.FreezeSelections | spiral_harness/benchmark/bfcl_v4_public_run_journal.py:345-400 | success records exactly the checked joint selection over both published arm selections; otherwise nothing moves |
| RunJournal.Journal.UnlockHoldout | spiral_harness/benchmark/bfcl_v4_public_run_journal.py:402-413 | the unlock is available exactly after selections are frozen and names two different selections |
| RunJournal.Journal.CloseRun | spiral_harness/benchmark/bfcl_v4_public_run_journal.py:415-449 | a successful close yields a closure that verifies; the journal moves exactly when CLOSE was appended, and then an error happens exactly when the store had no room for the closure |
| RunJournal.Resume | spiral_harness/benchmark/bfcl_v4_public_run_journal.py:117-139 | starting from a tail succeeds exactly when the tail replays |
| RunJournal.Rebuild | spiral_harness/benchmark/bfcl_v4_public_run_journal.py:117-139 | rebuilding any reachable journal from its own tail always succeeds with the same tail, state, sequence and history |
| RunJournal.AgreementOutlives | spiral_harness/benchmark/bfcl_v4_public_run_journal.py:117-193 | adding artifacts keeps a journal position in agreement with its replay |
| RunJournal.AppendAgrees | spiral_harness/benchmark/bfcl_v4_public_run_journal.py:160-193 | an entry that loads back as written extends the replay by exactly its event, and its tail is new |
| RunJournal.AppendCommits | spiral_harness/benchmark/bfcl_v4_public_run_journal.py:160-193 | publishing event, state and entry is enough for the new tail to replay to the extended history |
| RunJournal.HonestAppends | spiral_harness/benchmark/bfcl_v4_public_run_journal.py:160-193 | on a store whose digests never collide with stored content, the three publications cannot fail |
| RunJournal.StoredCompletionApplies | spiral_harness/benchmark/bfcl_v4_public_run_journal.py:257-308 | a completion checked before publication is applied by replay after publication, so the append it triggers is never refused |
| RunJournal.PublishedClosureVerifies | spiral_harness/benchmark/bfcl_v4_public_run_journal.py:58-105 | the closure published for a closed journal passes closure verification with 204 transitions |
| RunJournal.ClosurePublishesExactly | spiral_harness/benchmark/bfcl_v4_public_run_journal.py:415-449 | after CLOSE is appended the closure can be published if and only if the store before had room: its digest was free or held the closure, and is none of the three appended artifacts' |
| RunJournal.ClosureCanBeLockedOut | spiral_harness/benchmark/bfcl_v4_public_run_journal.py:415-449 | from any honest store where CLOSE applies and the closure is not stored yet, another artifact under its digest makes a store where CLOSE is appended and the closure is not published |
| JournalMeaning.HoldsTail | spiral_harness/benchmark/bfcl_v4_public_run_journal.py:155-158 | the tail guard passes exactly for the current tail, and tells a reference that is no entry from a stale one |
| JournalMeaning.MaterializesExactly | spiral_harness/benchmark/bfcl_v4_public_run_journal.py:208-255 | the next call opens exactly if the request exists and the named harness, variant and fallback are what its slot has to run |
| JournalMeaning.CompletesExactly | spiral_harness/benchmark/bfcl_v4_public_run_journal.py:257-308 | the open call completes with exactly the given outcome exactly if that closes it |
| JournalMeaning.FreezesGiven | spiral_harness/benchmark/bfcl_v4_public_run_journal.py:310-343 | two given arm freezes freeze exactly if they are valid together and fit the run |
| JournalMeaning.SelectsGiven | spiral_harness/benchmark/bfcl_v4_public_run_journal.py:345-400 | two given selections freeze exactly if, once both are stored, references to exactly those two make a selection that fits the run |
| JournalMeaning.WithSelectionsSays | spiral_harness/benchmark/bfcl_v4_public_run_journal.py:345-400 | publishing two selections keeps what is stored and adds each under its digest where that is free |
| FamilyGraph.Find | spiral_harness/benchmark/bfcl_v4_public_development_v2.py:114-118 | find with path halving terminates, returns the root and keeps every root |
| FamilyGraph.Union | spiral_harness/benchmark/bfcl_v4_public_development_v2.py:120-123 | union merges exactly the two classes and keeps the forest acyclic |
| FamilyGraph.JoinCandidate | spiral_harness/benchmark/bfcl_v4_public_development_v2.py:125-132 | one candidate is joined to the first holder of each of its names and of its template, keeping labels sound and complete so far |
| FamilyGraph.FamilyComponents | spiral_harness/benchmark/bfcl_v4_public_development_v2.py:111-133 | two candidates get the same root exactly when a chain of shared names or equal templates connects them |
| FamilyGraph.AloneIsSingleton | spiral_harness/benchmark/bfcl_v4_public_development_v2.py:136-148 | a candidate is alone in its component exactly when it shares no name and no template with any other |
| FamilyGraph.EligibleSingletons | spiral_harness/benchmark/bfcl_v4_public_development_v2.py:136-148 | exactly the candidates outside v1 that share nothing with any other, in pool order |
| Sorting.SortByCorrect | spiral_harness/benchmark/bfcl_v4_public_development_v2.py:160-197 | ranking gives an ordered permutation |
| Sorting.SortForgetsOrder | spiral_harness/benchmark/bfcl_v4_public_development_v2.py:160-197 | ranking by a distinguishing key forgets the input order |
| RosterSelection.Select | spiral_harness/benchmark/bfcl_v4_public_development_v2.py:160-197 | selection succeeds exactly when every category has enough candidates, and then returns the specified slices |
| RosterSelection.SliceSplit | spiral_harness/benchmark/bfcl_v4_public_development_v2.py:184-196 | one split appends exactly its block of every category and advances every offset past it |
| RosterSelection.QuotasFilledExactly | spiral_harness/benchmark/bfcl_v4_public_development_v2.py:160-197 | each split/category cell holds exactly its quota, namely the consecutive ranks after the earlier splits |
| RosterSelection.SplitsAreRanked | spiral_harness/benchmark/bfcl_v4_public_development_v2.py:160-197 | within a category every candidate of an earlier split ranks strictly below every candidate of a later split |
| RosterSelection.TopIsDrawn | spiral_harness/benchmark/bfcl_v4_public_development_v2.py:160-197 | every rank below a category total is drawn |
| RosterSelection.LowestAreDrawn | spiral_harness/benchmark/bfcl_v4_public_development_v2.py:160-197 | every drawn candidate ranks strictly below every candidate of its category left over |
| RosterSelection.NoTaskTwice | spiral_harness/benchmark/bfcl_v4_public_development_v2.py:160-197 | no task stands at two positions of the selection, in one split or in two |
| RosterSelection.DrawnFromPool | spiral_harness/benchmark/bfcl_v4_public_development_v2.py:160-197 | every selection is a pool member carrying its own rank token |
| RosterSelection.SelectionForgetsOrder | spiral_harness/benchmark/bfcl_v4_public_development_v2.py:160-197 | neither success nor the result depends on the order of the eligible pool |
| RosterMeaning.PlaceIsRank | spiral_harness/benchmark/bfcl_v4_public_development_v2.py:160-181 | a candidate's place in its category is the number of candidates of that category with a smaller token, or an equal token and a smaller task |
| RosterMeaning.DrawnExactly | spiral_harness/benchmark/bfcl_v4_public_development_v2.py:160-197 | a pool member is drawn into a split if and only if its rank in its category lies between the quotas of the earlier splits and those up to this one |
| RosterMeaning.SelectionAscends | spiral_harness/benchmark/bfcl_v4_public_development_v2.py:182-197 | the selection lists split by split, in a split category by category, in a category by token and then task |
| RosterSelection.FrozenLayoutValid | spiral_harness/benchmark/bfcl_v4_public_development_v2_contracts.py:63-92 | the registered quotas add up to the registered category totals, so the layout the selection theorems ask for exists |
| RosterSelection.FrozenSelection | spiral_harness/benchmark/bfcl_v4_public_development_v2.py:182-197 | every selection by the registered quotas lists 5 FIT, then 4 GATE, then 16 HOLDOUT tasks |
| RosterAudit.JaccardDecides | spiral_harness/benchmark/bfcl_v4_public_development_v2.py:206-227 | a pair is flagged exactly when it meets the Jaccard threshold; containment never rejects a pair that Jaccard flags |
| RosterAudit.CompareSymmetric | spiral_harness/benchmark/bfcl_v4_public_development_v2.py:206-227 | comparison is symmetric, always flags equal texts and flags only texts with a common shingle |
| RosterAudit.CompareExactly | spiral_harness/benchmark/bfcl_v4_public_development_v2.py:200-227 | with the shingles of a text being exactly its three tokens in a row, or the whole text if it has no three: the counts are the sizes of intersection, union and smaller set, and the flag is the 67/100 threshold |
| RosterAudit.LexicalAudit | spiral_harness/benchmark/bfcl_v4_public_development_v2.py:230-258 | compares every pair across splits and every old/new pair once, and returns the number of flagged pairs; it is zero exactly when none is flagged |
| RosterAudit.NameOverlap | spiral_harness/benchmark/bfcl_v4_public_development_v2.py:275-282 | the overlap is the number of names shared, once for every pair of splits or old task sharing them; it is zero exactly when none is shared |
| RosterAudit.DrawnIsIsolated | spiral_harness/benchmark/bfcl_v4_public_development_v2.py:136-197 | a drawn candidate is new and shares no name and no template with any other candidate |
| RosterAudit.DrawnHasNoOverlap | spiral_harness/benchmark/bfcl_v4_public_development_v2.py:261-282 | the name audit of any drawn roster finds nothing, so it can never reject one |
| RosterAudit.DrawnFamiliesAreNew | spiral_harness/benchmark/bfcl_v4_public_development_v2.py:111-197 | no drawn candidate lies in the component of a v1 task |
| ExceptionScrubber.Scrub | spiral_harness/cli_exception_boundary.py:18-25 | visiting clears frames, traceback, cause and context of one exception |
| ExceptionScrubber.VisitKeeps | spiral_harness/cli_exception_boundary.py:12-25 | a visit keeps the worklist invariant stated over the original links, although it destroys them |
| ExceptionScrubber.FinishedHoldsReach | spiral_harness/cli_exception_boundary.py:12-25 | when the worklist is empty the visited set is exactly what the original links reach |
| ExceptionScrubber.DiscardExceptionGraph | spiral_harness/cli_exception_boundary.py:8-25 | on every finite graph it terminates, scrubs exactly the exceptions reachable through the original links and touches nothing else |
| CampaignBuild.BuildParents | spiral_harness/benchmark/bfcl_v4_public_development_v2_call_plan.py:176-195 | the nested loops emit exactly the parent-FIT drafts in site order |
| CampaignBuild.BuildDiagnoses | spiral_harness/benchmark/bfcl_v4_public_development_v2_call_plan.py:200-229 | the loops emit exactly the diagnosis drafts, each depending on its own arm's parent evidence behind the barrier |
| CampaignBuild.BuildProposals | spiral_harness/benchmark/bfcl_v4_public_development_v2_call_plan.py:231-261 | the loops emit exactly the proposal drafts; the first matching diagnosis exists and is the site's own |
| CampaignBuild.BuildCandidates | spiral_harness/benchmark/bfcl_v4_public_development_v2_call_plan.py:263-300 | the loops emit exactly the candidate-FIT drafts; the first matching proposal exists and is the site's own |
| CampaignBuild.BuildNominations | spiral_harness/benchmark/bfcl_v4_public_development_v2_call_plan.py:302-335 | the loops emit exactly the nomination drafts with their own arm's evidence |
| CampaignBuild.BuildGates | spiral_harness/benchmark/bfcl_v4_public_development_v2_call_plan.py:337-365 | the loops emit exactly the GATE drafts; the first matching nomination exists and is the site's own |
| CampaignBuild.BuildDecisions | spiral_harness/benchmark/bfcl_v4_public_development_v2_call_plan.py:367-393 | the loops emit exactly the decision drafts with their own nomination and GATE evidence |
| CampaignBuild.BuildEvaluations | spiral_harness/benchmark/bfcl_v4_public_development_v2_call_plan.py:395-440 | the loops emit exactly the HOLDOUT and PURE@B drafts, interleaved by replicate |
| CampaignBuild.BuildDrafts | spiral_harness/benchmark/bfcl_v4_public_development_v2_call_plan.py:176-440 | the whole builder returns exactly the specified plan `Drafts(c)` for any campaign sizes |
| CampaignMeaning.NodesExactly | spiral_harness/benchmark/bfcl_v4_public_development_v2_call_plan.py:176-440 | the plan has exactly the nodes its rosters, rollouts, pipelines, variants, arms and sample counts allow, with nothing else filled in |
| CampaignMeaning.PlanAscends | spiral_harness/benchmark/bfcl_v4_public_development_v2_call_plan.py:176-440 | the plan lists its nodes in lexicographic order of stage, replicate and the loops of the stage from the outside in |
| CampaignMeaning.DraftsSay | spiral_harness/benchmark/bfcl_v4_public_development_v2_call_plan.py:176-440 | stage, harness, feedback view, grader feedback, edit flag, outer seed and seed coordinate of every node, read off its identity |
| CampaignMeaning.SeedsExactly | spiral_harness/benchmark/bfcl_v4_public_development_v2_call_plan.py:176-440 | two calls have one seed coordinate exactly when both are FIT calls of a task and rollout, GATE calls of a task and rollout, HOLDOUT calls of a task, the same controller of a pipeline, or one sample of a task |
| CampaignMeaning.ProviderSeedsExactly | spiral_harness/benchmark/bfcl_v4_public_development_v2_call_plan.py:443-505 | under a seed function without collisions two calls have one provider seed exactly when, within one outer seed, they share a coordinate so |
| CampaignMeaning.DependenciesExactly | spiral_harness/benchmark/bfcl_v4_public_development_v2_call_plan.py:176-440 | a node depends on exactly the nodes of the whole stages, and of its own arm's controls, that its kind waits for |
| CampaignMeaning.SamplesExactly | spiral_harness/benchmark/bfcl_v4_public_development_v2_call_plan_contracts.py:313-333 | a task has the base number of samples, and one more exactly if it is among the remainder tasks |
| CampaignFlow.SitesMembers | spiral_harness/benchmark/bfcl_v4_public_development_v2_call_plan.py:176-440 | the plan visits every valid coordinate of every stage and no other |
| CampaignFlow.IdentityInjective | spiral_harness/benchmark/bfcl_v4_public_development_v2_call_plan_contracts.py:450-481 | distinct sites have distinct structural coordinates |
| CampaignTexts.NodeTextReads | spiral_harness/benchmark/bfcl_v4_public_development_v2_call_plan_contracts.py:450-481 | split at its slashes a node ID has replicate, arm, kind, task, the marked rollout, sample, pipeline and candidate numbers and the variant, each reading back |
| CampaignTexts.NodeTextInjective | spiral_harness/benchmark/bfcl_v4_public_development_v2_call_plan_contracts.py:450-481 | all coordinates can be read back from the joined node ID, if names differ, hold no slash and none is empty or `aggregate` |
| CampaignTexts.NodeTextsUnique | spiral_harness/benchmark/bfcl_v4_public_development_v2_campaign_contracts.py:277-278 | the node ID texts of a plan are unique, for any sizes and such names |
| CampaignFlow.IdentitiesUnique | spiral_harness/benchmark/bfcl_v4_public_development_v2_campaign_contracts.py:277-278 | the coordinates of a plan's nodes are unique |
| CampaignFlow.DependenciesPointBackward | spiral_harness/benchmark/bfcl_v4_public_development_v2_campaign_contracts.py:279-284 | every dependency is the identity of an earlier node |
| CampaignFlow.EvidenceExactly | spiral_harness/benchmark/bfcl_v4_public_development_v2_call_plan.py:176-440 | a node is evidence for a reader if and only if the information-flow rule lets it flow |
| CampaignFlow.EvidenceIsIsolated | spiral_harness/benchmark/bfcl_v4_public_development_v2_call_plan.py:176-440 | along any chain of evidence links everything stays in the reader's replicate and arm, is strictly earlier in stage, and is never HOLDOUT or PURE@B |
| CampaignFlow.BaselinesSeeNothing | spiral_harness/benchmark/bfcl_v4_public_development_v2_call_plan.py:395-440 | nodes outside the two adaptive arms have no evidence |
| CampaignFlow.RunsAfter | spiral_harness/benchmark/bfcl_v4_public_development_v2_call_plan.py:176-440 | in any execution order respecting dependencies a node runs after all nodes, in every replicate and arm, of all earlier stages |
| CampaignFlow.ExecutionsAreStageMonotone | spiral_harness/benchmark/bfcl_v4_public_development_v2_campaign_contracts.py:286-318 | every execution order that respects dependencies is stage-monotone over the whole campaign |
| CampaignSlots.FinalizeNodes | spiral_harness/benchmark/bfcl_v4_public_development_v2_call_plan.py:443-505 | every node gets the counts of its predecessors as its campaign, replicate and arm slots, and a seed exactly when it is a call |
| CampaignSlots.SlotsAreContiguous | spiral_harness/benchmark/bfcl_v4_public_development_v2_campaign_contracts.py:272-276 | for each of the five numberings the slots read along the plan are exactly 0, 1, 2, and so on |
| CampaignCounts.RemainderIsLowest | spiral_harness/benchmark/bfcl_v4_public_development_v2_call_plan_contracts.py:313-333 | every task given a remainder sample has a priority no higher than every task without one |
| CampaignCounts.SampleTotal | spiral_harness/benchmark/bfcl_v4_public_development_v2_call_plan_contracts.py:313-333 | the allocation totals base times tasks plus the remainder that fits |
| CampaignCounts.ArmBudgets | spiral_harness/benchmark/bfcl_v4_public_development_v2_campaign_contracts.py:351-356 | the calls counted along the plan for each replicate and arm equal the closed formula, for any sizes |
| CampaignCounts.BudgetsMatch | spiral_harness/benchmark/bfcl_v4_public_development_v2_call_plan_contracts.py:97-105 | at the registered sizes the two adaptive arms and PURE@B each get 110 calls and the two baselines 16 |
| CampaignClose.NodeCloses | spiral_harness/benchmark/bfcl_v4_public_development_v2_call_plan_contracts.py:521-587 | every built node passes the node contract: distinct dependencies without itself, evidence within dependencies, slots and seeds exactly on calls |
| CampaignClose.BuiltCampaignCloses | spiral_harness/benchmark/bfcl_v4_public_development_v2_campaign_contracts.py:272-356 | every finalized plan passes the campaign's slot, identity, dependency, stage-order and per-replicate checks, for any sizes and seeds |
| CampaignClose.BuildCampaign | spiral_harness/benchmark/bfcl_v4_public_development_v2_call_plan.py:508-511 | building and finalizing yields the numbered plan, which closes |
| CampaignTopology.StageLooksAlike | spiral_harness/benchmark/bfcl_v4_public_development_v2_campaign_contracts.py:82-87 | a reference to a whole stage, own nodes told apart from others, looks the same from every replicate |
| CampaignTopology.OwnLooksAlike | spiral_harness/benchmark/bfcl_v4_public_development_v2_campaign_contracts.py:82-87 | what a replicate selects among its own nodes of a stage looks the same from every replicate, in order |
| CampaignTopology.DependenciesAlike | spiral_harness/benchmark/bfcl_v4_public_development_v2_call_plan.py:176-440 | a node and its counterpart in another replicate have the same dependencies up to the replicate name |
| CampaignTopology.EvidenceAlike | spiral_harness/benchmark/bfcl_v4_public_development_v2_call_plan.py:176-440 | a node and its counterpart in another replicate have the same evidence up to the replicate name |
| CampaignTopology.SlotsFollow | spiral_harness/benchmark/bfcl_v4_public_development_v2_call_plan.py:443-505 | the slots inside a replicate are determined by the shapes of its own nodes alone |
| CampaignTopology.ReplicatesShareTopology | spiral_harness/benchmark/bfcl_v4_public_development_v2_campaign_contracts.py:125-164 | all replicates of a finalized plan have one topology projection, slots included, so the validator's comparison across outer seeds cannot fail |
| CampaignClosure.StageCounts | spiral_harness/benchmark/bfcl_v4_public_development_v2_campaign_contracts.py:320-330 | the nodes and the calls of every stage, for any sizes |
| CampaignClosure.ReplicateCounts | spiral_harness/benchmark/bfcl_v4_public_development_v2_campaign_contracts.py:338-343 | the nodes and the calls of every replicate, for any sizes |
| CampaignClosure.RegisteredCampaignCloses | spiral_harness/benchmark/bfcl_v4_public_development_v2_campaign_contracts.py:272-395 | at the registered sizes every finalized plan passes all structural checks with their constants: slots, stage, replicate and arm counts, barriers and one topology |
| CampaignClose.Totals | spiral_harness/benchmark/bfcl_v4_public_development_v2_campaign_contracts.py:272-276 | total nodes and total calls as sums of stage sizes |
| CampaignClose.FrozenTotals | spiral_harness/benchmark/bfcl_v4_public_development_v2_campaign_contracts.py:272-276 | at the registered sizes there are exactly 1098 nodes and 1086 calls |
| PilotPlan.FitCalls | spiral_harness/benchmark/bfcl_v4_public_pilot_plan.py:139-151 | the first loop emits the parent-FIT slots of the arm |
| PilotPlan.CandidateCalls | spiral_harness/benchmark/bfcl_v4_public_pilot_plan.py:185-198 | the loop emits the candidate-FIT slots, each depending on both proposals |
| PilotPlan.GateCalls | spiral_harness/benchmark/bfcl_v4_public_pilot_plan.py:199-217 | the double loop with its running slot emits the GATE slots, all depending on the arm's candidate slots |
| PilotPlan.AdaptiveSlots | spiral_harness/benchmark/bfcl_v4_public_pilot_plan.py:127-233 | the whole adaptive arm is exactly the position-indexed specification |
| PilotPlan.PureAtBSlots | spiral_harness/benchmark/bfcl_v4_public_pilot_plan.py:236-257 | the sample loop emits exactly the allocated samples per task |
| PilotPlan.BuildPlan | spiral_harness/benchmark/bfcl_v4_public_pilot_plan.py:260-303 | the builder returns exactly the specified plan, for any roster and seed function |
| PilotMeaning.CallsExactly | spiral_harness/benchmark/bfcl_v4_public_pilot_plan.py:48-303 | the plan has exactly the calls that arm, slot, kind, task and variant fix by their closed forms, for any roster |
| PilotMeaning.PlanSays | spiral_harness/benchmark/bfcl_v4_public_pilot_plan.py:58-257 | feedback view, grader feedback, both barrier flags and the seed of every call, read off its coordinates |
| PilotMeaning.PlanAscends | spiral_harness/benchmark/bfcl_v4_public_pilot_plan.py:271-294 | the plan lists stage by stage, in a stage arm by arm, in an arm slot by slot |
| PilotMeaning.SeedsExactly | spiral_harness/benchmark/bfcl_v4_public_pilot_plan.py:33-46 | paired calls share their seed, and under a seed function without collisions no others do: FIT calls of a task, GATE calls of a task, HOLDOUT calls of a task, the same controller, one sample |
| PilotMeaning.DependenciesExactly | spiral_harness/benchmark/bfcl_v4_public_pilot_plan.py:127-257 | a call depends on exactly the calls it waits for: its own arm's stage before it while the arms search apart, both arms' proposals and both arms' GATE calls at the joint barriers |
| PilotOrder.PositionRoundTrip | spiral_harness/benchmark/bfcl_v4_public_pilot_plan.py:271-294 | the global position of every arm slot maps back to that slot |
| PilotOrder.CellRoundTrip | spiral_harness/benchmark/bfcl_v4_public_pilot_plan.py:271-294 | every global position belongs to exactly one arm slot |
| PilotOrder.TopologicalAt | spiral_harness/benchmark/bfcl_v4_public_pilot_plan.py:271-287 | the zipped search stages followed by the holdout block put every slot at its closed-form position |
| PilotOrder.FilterByPositions | spiral_harness/benchmark/bfcl_v4_public_pilot_plan_contracts.py:131-135 | filtering a plan by arm returns the calls at that arm's positions, in order |
| PilotClose.ArmCallAt | spiral_harness/benchmark/bfcl_v4_public_pilot_plan_contracts.py:131-135 | filtering the built plan by an arm gives back that arm's slots renumbered |
| PilotClose.CallIdsDiffer | spiral_harness/benchmark/bfcl_v4_public_pilot_plan_contracts.py:208-209 | the coordinates behind the call IDs are unique in every built plan |
| PilotTexts.CallTextReads | spiral_harness/benchmark/bfcl_v4_public_pilot_plan.py:48-55 | split at its slashes a call ID has arm, padded slot, kind, task and variant, each reading back |
| PilotTexts.CallTextInjective | spiral_harness/benchmark/bfcl_v4_public_pilot_plan.py:48-55 | all coordinates can be read back from the joined call ID, if task names differ, hold no slash and none is empty or `aggregate` |
| PilotTexts.CallTextsDiffer | spiral_harness/benchmark/bfcl_v4_public_pilot_plan_contracts.py:208-209 | the call ID texts of every built plan are unique, for such names |
| PilotClose.PlanDependsEarlier | spiral_harness/benchmark/bfcl_v4_public_pilot_plan_contracts.py:210-219 | every dependency of every call is the identity of an earlier call |
| PilotClose.PlanArmsClose | spiral_harness/benchmark/bfcl_v4_public_pilot_plan_contracts.py:221-270 | arm slots, projected coordinates and the topological order close |
| PilotClose.PlanDependenciesClose | spiral_harness/benchmark/bfcl_v4_public_pilot_plan_contracts.py:272-290 | the dependency table rebuilt from the plan equals the dependencies the builder wrote, including both joint barriers |
| PilotClose.PlanFlagsClose | spiral_harness/benchmark/bfcl_v4_public_pilot_plan_contracts.py:292-386 | feedback views, both barrier flags and grader feedback sit on exactly the frozen kinds and positions |
| PilotClose.BarrierExactly | spiral_harness/benchmark/bfcl_v4_public_pilot_plan_contracts.py:312-316 | the holdout barrier check passes if and only if no holdout task is also a search task |
| PilotClose.PlanPairingCloses | spiral_harness/benchmark/bfcl_v4_public_pilot_plan_contracts.py:322-345 | SCORE and FULL agree slot by slot in kind, task, variant, seed and dependencies with the arm name erased |
| PilotClose.PlanSeedsClose | spiral_harness/benchmark/bfcl_v4_public_pilot_plan_contracts.py:347-363 | parent and candidate FIT share seeds, GATE variants share seeds, HOLDOUT seeds match across arms |
| PilotClose.SamplesExactly | spiral_harness/benchmark/bfcl_v4_public_pilot_plan_contracts.py:387-388 | PURE@B seeds are distinct if and only if the seed function separates those samples |
| PilotClose.PlanClosesExactly | spiral_harness/benchmark/bfcl_v4_public_pilot_plan_contracts.py:203-401 | the built plan passes all structural checks if and only if the holdout tasks are disjoint from search tasks and the seed function separates samples |
| PilotClose.FrozenPlanHasRunShape | spiral_harness/benchmark/bfcl_v4_public_pilot_plan.py:260-303 | at the frozen roster size the built plan has the shape the run journal relies on |
| SemanticAudit.PairsMembers | spiral_harness/benchmark/bfcl_v4_public_development_v2_semantic_audit.py:423-430 | the relation ranges over exactly the ordered pairs |
| SemanticAudit.AcceptedIsAdmissible | spiral_harness/benchmark/bfcl_v4_public_development_v2_semantic_audit.py:446-531 | an accepted final relation contains every pair both reviews join, none both separate, and never crosses a boundary |
| SemanticAudit.AdmissibleIsReachable | spiral_harness/benchmark/bfcl_v4_public_development_v2_semantic_audit.py:446-531 | every boundary-respecting equivalence between intersection and union of two disagreeing reviews has an accepted adjudication |
| SemanticAudit.ReachableExactly | spiral_harness/benchmark/bfcl_v4_public_development_v2_semantic_audit.py:446-531 | some list of decisions is accepted for a final labelling if and only if that labelling is admissible |
| SemanticAudit.DecisionsBind | spiral_harness/benchmark/bfcl_v4_public_development_v2_semantic_audit.py:481-505 | an accepted adjudication decides exactly the disagreements, once each, and the final relation follows every decision |
| SemanticAudit.AgreementIsSymmetric | spiral_harness/benchmark/bfcl_v4_public_development_v2_semantic_audit.py:446-531 | when the reviews agree the verdict is the same whichever is used as final |
| SemanticAudit.NoDisagreementLeft | spiral_harness/benchmark/bfcl_v4_public_development_v2_semantic_audit.py:446-531 | acceptance adjudicates every disagreement, and an adjudication is present exactly when there is one |
| AuditMeaning.ListingExactly | spiral_harness/benchmark/bfcl_v4_public_development_v2_semantic_audit.py:471-494 | the decided pairs equal the computed disagreements exactly when they are, in order and once each, the pairs the two reviews judge differently |
| AuditMeaning.VerifiesExactly | spiral_harness/benchmark/bfcl_v4_public_development_v2_semantic_audit.py:446-531 | the audit is accepted exactly when seven rules on pairs of items hold, reporting the number of decisions, and otherwise fails in the stage of the first rule that does not |
| FaultContracts.ObservableInjective | spiral_harness/benchmark/_harness_fault_cases.py:132-161 | for a fixed family and branch the observable determines the tag |
| FaultContracts.ObservableTextInjective | spiral_harness/benchmark/_harness_fault_cases.py:122-123 | label and value can be read back from the observable text, so observables are equal exactly when their texts are |
| Texts.DecimalReads | spiral_harness/benchmark/bfcl_v4_public_pilot_plan.py:48-55 | a decimal number text reads back digit by digit as its number and has no zero in front |
| Texts.QuotedReads | spiral_harness/benchmark/_harness_fault_cases.py:122-123 | a quoted text is its escaped body between quotation marks and reads back as that text |
| FaultContracts.TagInjective | spiral_harness/benchmark/_harness_fault_cases.py:224-238 | role and stem can be read back from a tag |
| FaultContracts.StemIsLower | spiral_harness/benchmark/_harness_fault_cases.py:259-267 | stems are lower-case text whatever the salt |
| FaultContracts.StemInjective | spiral_harness/benchmark/_harness_fault_cases.py:259-267 | stems of one family tell their groups apart whatever the salt |
| FaultMeaning.SafeExactly | spiral_harness/benchmark/_harness_fault_cases.py:95-119 | a repair rule takes the safe branch exactly for the listed families and contexts |
| FaultMeaning.BranchSays | spiral_harness/benchmark/_harness_fault_cases.py:126-161 | for either branch of every generated scenario: MATCH exactly for safe on even families and legacy on odd ones, and the observable text written out, with the family's trusted label over the primary input or its untrusted label over the secondary one; middleware shows the tag, or the raw inputs, on both sides of a bar |
| FaultMeaning.CellSays | spiral_harness/benchmark/_harness_fault_cases.py:251-345 | the scenario of a cell has the inputs with the tag between the family's fixed texts, the routed oracle of its role, the gold answer and observable of that branch, and its group, partition and question |
| FaultMeaning.PartitionSays | spiral_harness/benchmark/_harness_fault_cases.py:251-345 | every generated scenario says what the cell of some group fixes, for every number of groups |
| FaultMeaning.EveryCellIsThere | spiral_harness/benchmark/_harness_fault_cases.py:251-345 | every family, group and role has such a scenario |
| FaultPartition.GeneratePartition | spiral_harness/benchmark/_harness_fault_cases.py:251-345 | the nested loops emit every family, group and role cell once and the result is sorted by scenario |
| FaultPartition.BuildGroups | spiral_harness/benchmark/_harness_fault_cases.py:441-443 | the dictionary holds, per family and group, exactly its scenarios in order |
| FaultPartition.CheckGroups | spiral_harness/benchmark/_harness_fault_cases.py:441-446 | group checking accepts exactly when every family group consists of the four roles, once each |
| FaultPartition.ValidatePartition | spiral_harness/benchmark/_harness_fault_cases.py:434-460 | the validator method equals its specification, error branch by error branch |
| FaultMeaning.ValidatesExactly | spiral_harness/benchmark/_harness_fault_cases.py:434-460 | any list of scenarios, generated or not, is accepted exactly when every rule holds, with the counted summary, and is otherwise rejected for the first rule broken |
| FaultMargins.CorrectExactly | spiral_harness/benchmark/_harness_fault_cases.py:362-366 | a branch is correct for a scenario exactly when it is the oracle branch |
| FaultMargins.GeneratedCounts | spiral_harness/benchmark/_harness_fault_cases.py:251-345 | for every k: 28k scenarios, oracle right on 21k, SAFE on 11k, LEGACY on 10k, family patches on 12k or 11k, 14k of each answer |
| FaultMargins.GoldInjective | spiral_harness/benchmark/_harness_fault_cases.py:251-345 | without digest collisions no two cells share a gold output |
| FaultMargins.PartitionSummary | spiral_harness/benchmark/_harness_fault_cases.py:373-431 | the anti-cheat summary is exactly 21/28, 11/28, 1/(28k) and 12/28 |
| FaultMargins.GroupsAreComplete | spiral_harness/benchmark/_harness_fault_cases.py:441-446 | without digest collisions every generated group holds each role exactly once |
| FaultMargins.PartitionAccepted | spiral_harness/benchmark/_harness_fault_cases.py:434-460 | for every k the generated partition passes the anti-cheat validator with the exact summary |
| FaultMargins.PartitionAcceptedExactly | spiral_harness/benchmark/_harness_fault_cases.py:434-460 | the generated partition is accepted if and only if there is a group, the group digests of each family differ and the resolution suffixes differ |
| SchemaCaster.CastAllIsCanonical | spiral_harness/benchmark/bfcl_v4_public_pilot.py:212-266 | everything the cast visits ends in the six OpenAPI types |
| SchemaCaster.CanonicalAllIsFixed | spiral_harness/benchmark/bfcl_v4_public_pilot.py:212-266 | a canonical tree is accepted and unchanged |
| SchemaCaster.FixedExactly | spiral_harness/benchmark/bfcl_v4_public_pilot.py:212-266 | the cast leaves a tree unchanged if and only if it is canonical |
| SchemaCaster.CastIsIdempotent | spiral_harness/benchmark/bfcl_v4_public_pilot.py:212-266 | a second cast never fails and changes nothing, the appended float description included |
| SchemaCaster.CastLoop | spiral_harness/benchmark/bfcl_v4_public_pilot.py:212-266 | the loop over properties returns exactly the recursive specification, stopping at the first error |
| CastMeaning.TableExactly | spiral_harness/benchmark/bfcl_v4_public_pilot.py:40-69 | the table takes exactly these 26 names to their OpenAPI types and no other name |
| CastMeaning.CastValueSays | spiral_harness/benchmark/bfcl_v4_public_pilot.py:215-265 | a property is refused exactly for a type that is no text, a float without description or a refused child; otherwise its type, the float format and description, its children and every untouched key are as stated |
| CastMeaning.CastPropertiesSays | spiral_harness/benchmark/bfcl_v4_public_pilot.py:215-266 | properties are refused exactly if one is, and otherwise each is cast under its own key |
| CastMeaning.CastItemsSays | spiral_harness/benchmark/bfcl_v4_public_pilot.py:239-265 | items are refused exactly for an unnamed type at one of two levels or for their properties, and otherwise only types and those properties change |
| ToolCalls.NormalizedSays | spiral_harness/benchmark/bfcl_v4_public_pilot.py:364-392 | on success the output is ordered by name and arguments, and every name and arguments text occurs as often as there are calls whose wire name is bound to that name and whose arguments parse to that text |
| ToolCalls.EqualExactly | spiral_harness/benchmark/bfcl_v4_public_pilot.py:364-392 | two normalised outputs are equal exactly when, for every official name and arguments text, the samples hold equally many such calls |
| ToolCalls.FirstFailure | spiral_harness/benchmark/bfcl_v4_public_pilot.py:364-392 | normalising fails with the error of the first call that is unbound or has invalid arguments |
| ToolCalls.AbstainsExactly | spiral_harness/benchmark/bfcl_v4_public_pilot.py:395-438 | a sample abstains exactly when it has no calls or they cannot be normalised |
| ToolCalls.NormalizesExactly | spiral_harness/benchmark/bfcl_v4_public_pilot.py:364-392 | normalising succeeds exactly when bindings are present with unique wire names and every call is bound with valid arguments |
| ToolCalls.BuildReverse | spiral_harness/benchmark/bfcl_v4_public_pilot.py:376-378 | the reverse dictionary inverts the binding list |
| ToolCalls.NormalizeCalls | spiral_harness/benchmark/bfcl_v4_public_pilot.py:364-392 | the loop returns the sorted normal calls or the first error |
| ToolCalls.SelectPlurality | spiral_harness/benchmark/bfcl_v4_public_pilot.py:395-438 | rejects exactly empty or repeated sample lists; otherwise returns the least frozen index whose label is a most frequent non-abstaining label |
| ToolCalls.PluralityUnique | spiral_harness/benchmark/bfcl_v4_public_pilot.py:395-438 | the plurality specification determines the selection |
| ModalVote.AggregateVotes | spiral_harness/benchmark/bfcl_v4_public_development_v2_call_plan_contracts.py:398-447 | returns a most frequent vote, no-response included, least by tie key, with exact count and tie flag |
| ModalVote.AggregateUnique | spiral_harness/benchmark/bfcl_v4_public_development_v2_call_plan_contracts.py:398-447 | with an injective tie key the aggregate is unique |
| ModalVote.PermutationInvariant | spiral_harness/benchmark/bfcl_v4_public_development_v2_call_plan_contracts.py:398-447 | any permutation of the samples has the same aggregate |
| FileFraming.DecimalBytesInjective | spiral_harness/benchmark/bfcl_v4.py:319-342 | decimal size texts determine the size |
| FileFraming.CutFrame | spiral_harness/benchmark/bfcl_v4.py:319-342 | a frame is uniquely cut off the front of a stream |
| FileFraming.StreamInjective | spiral_harness/benchmark/bfcl_v4.py:319-342 | equal byte streams come from equal lists of path, size and leaf |
| FileFraming.StreamReads | spiral_harness/benchmark/bfcl_v4.py:319-342 | a reader written for the format alone gives back exactly the framed paths, sizes and leaves |
| FileFraming.IdentityExactly | spiral_harness/benchmark/bfcl_v4.py:319-342 | two file sets hash the same stream, in byte order of paths, if and only if they are the same multiset of entries, whatever order they were given in |
| FileFraming.IdentitySays | spiral_harness/benchmark/bfcl_v4.py:319-342 | a file set is refused exactly if it is empty or repeats a path; otherwise its stream reads back as its entries in strictly ascending order of paths, with their number and total size |
| FileFraming.BuildIdentity | spiral_harness/benchmark/bfcl_v4.py:319-342 | the accumulating loop hashes exactly the sorted stream and counts files and bytes |
| AgentContracts.CheckWorkflow | spiral_harness/agents/contracts.py:98-112 | the `seen` loop accepts exactly ordered DAGs with unique turn names |
| AgentContracts.SourceIsEarlier | spiral_harness/agents/contracts.py:249-259 | the dictionary check is exactly that every disclosed output is an earlier record's output |
| AgentContracts.CheckRecords | spiral_harness/agents/contracts.py:239-260 | the record loop accepts exactly transcripts with distinct turns whose records each disclose distinct, unchanged outputs of earlier records |
| AgentContracts.CheckRun | spiral_harness/agents/contracts.py:224-277 | the validator accepts exactly closed runs: totals, final output and every record |
| AgentRunner.CollectOutputs | spiral_harness/agents/orchestration.py:113-116 | no dependency lookup can fail, and the request discloses the declared dependencies in order |
| AgentRunner.BindingsExactly | spiral_harness/agents/orchestration.py:64-100 | the backend bindings are accepted exactly when every binding rule holds, and otherwise rejected for the first rule broken |
| AgentRunner.BuiltRequestSays | spiral_harness/agents/orchestration.py:118-128 | the request of a turn carries its team, workflow, task, turn, agent, role, instruction, objective and dependency outputs in declared order |
| AgentRunner.StepExactly | spiral_harness/agents/orchestration.py:111-155 | a turn succeeds exactly when every rule holds, and otherwise fails for the first one broken |
| AgentRunner.BoundExactly | spiral_harness/agents/orchestration.py:170-206 | a response is accepted exactly when it is bound to this request, agent, model and runtime |
| AgentRunner.RunTurn | spiral_harness/agents/orchestration.py:111-155 | one turn returns exactly the specified record or the first budget or binding failure |
| AgentRunner.Execute | spiral_harness/agents/orchestration.py:102-168 | the budgeted loop returns exactly the specified run or the first failure with the completed prefix |
| AgentRunner.DependencyFinished | spiral_harness/agents/orchestration.py:113-116 | on an ordered workflow every declared dependency has already a record |
| AgentRunner.TurnsKeepRules | spiral_harness/agents/orchestration.py:102-168 | after any number of turns every record obeys its rules and the running byte and token totals are within budget |
| AgentRunner.ErrorsCarryPrefix | spiral_harness/agents/orchestration.py:102-168 | every error carries exactly the records completed before the failing turn and names the first rule that turn broke |
| AgentRunner.DisclosedExactly | spiral_harness/agents/orchestration.py:113-128 | the i-th disclosed output is the i-th declared dependency's recorded output |
| AgentRunner.RecordDiscloses | spiral_harness/agents/orchestration.py:113-135 | every record's request discloses exactly its declared dependencies, once each |
| AgentRunner.CompletedRunCloses | spiral_harness/agents/orchestration.py:102-168 | every returned run passes the independent transcript validator and every frozen budget, for any backend; every request carries the role and instruction of its turn's own agent, the turn's objective and its dependency outputs, and every response is what the backend returned, with that agent's model and runtime |

## Left out

- SHA-256, HMAC and canonical JSON are parameters: one codec gives a digest per artifact, and a lemma says so where it needs the digest to be injective.
- Pinned digests, roster rows and provider-seed disjointness between outer seeds are concrete values, so the pinned-digest comparisons of the plans are not modelled.
- Call IDs, node IDs and observables are tuples of the coordinates that the source joins into text; CallTextInjective, NodeTextInjective and ObservableTextInjective link the two. Where the validators replace an arm or replicate name inside such a text, the model replaces the coordinate.
- Task identifiers, wire names and rank tokens are integers with the integer order in place of text order; file paths are byte texts in byte order.
- The journal takes a plan of the frozen shape where the source reloads the frozen plan by its digest; FrozenPlanHasRunShape links the two.
- Thread locks, the process-local capability object and deep-frozen models: the journal is a single writer.
- Traceback objects carry only whether their frames were cleared; suppression flags and the reuse of object identities are not part of this model.
- Git, subprocess, file-system and symlink checks, command lines and gateways.
- JSON parsing and Pydantic coercion: values are typed from the start, and argument parsing is a partial function given as a parameter.
- Rates and thresholds are exact integer ratios, not floating point.
- RunJournal.Journal.CloseRun: keeps the source's behaviour that a failed publication of the closure leaves the journal already moved to the closed state, so this one error is not without effect; the contract states exactly when it happens.
- SchemaCaster.CastLoop: works on values, so the half-updated tree that the source leaves behind when a cast fails, and aliasing between subtrees, are not captured.
- CampaignClose.BuiltCampaignCloses: for any sizes, so without the registered constants and the topology comparison, which RegisteredCampaignCloses adds; the schedule digests are left out of both.
- CampaignClose.BuildCampaign: closes in the sense of BuiltCampaignCloses.
- RosterAudit.LexicalAudit: the digest over the list of comparisons is not modelled, only which pairs are compared and flagged.
- RosterAudit.NameOverlap: the two other counts of the same audit, of older tasks and of their families, are zero by DrawnIsIsolated and DrawnFamiliesAreNew and not computed.
- PilotClose.PlanClosesExactly: leaves out membership of the outer seed in the frozen list and the schedule digest.
- FaultMargins.PartitionAccepted: states the summary of accepted partitions; PartitionAcceptedExactly has both directions.
- Question text, the public task parser and the verification of partition openings.
- Adapter and tool naming around the schema cast, the official weighted score and surrogate rejection.
- Agent evolution, lineage, receipts and instruction mutation: single record updates or branches.
