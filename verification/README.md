# Verified model of the incident analysis and protocol code

This project models the deterministic core of the sentinel in Dafny and proves what that core is relied on for.
`dafny verify dfyconfig.toml` checks all of it.

- **Attack components and progression** (`AttackComponents`, `StageScoring`, `CutPoints`, `AttackProgression`,
  `AttackRisk`, `CutPointLaws`, `ComponentTexts`, `ComponentCollisions`): a state graph is split into connected attack
  components, each is scored by stage and searched for cut points. `AttackRisk` and `CutPointLaws` say what the scores
  mean; the last two are about the texts that identifiers are hashed from.
- **World lines** (`WorldLine*`): components are followed over any number of snapshots. Every tick links the
  previous components to the current ones, groups the links, and carries lines on or mints new ones. The
  timeline is one function of the snapshots, which the builder computes for any identifiers. The laws in
  `WorldLineLaws` hold of every timeline, those about lines and transitions of every one whose components have
  different identifiers; `WorldLineScores` says what an overlap measures and when a line continues,
  `WorldLineRecords` what is reported, `WorldLineSnapshots` when an unchanged graph changes nothing.
- **Distributed launch** (`LaunchProtocol`, `LaunchHistory`, `LaunchMoves`, `LaunchReuse`, `MegatronTopology`): the
  ranks of any number of launches run as a step machine over the files they share; a step reads or writes one file,
  and a rank may die at any point.
- **Hold-out worker** (`HoldoutReplay*`, `HoldoutWorker*`, `HoldoutDocuments`, `HoldoutDirectory`): result lines become
  predictions and failures; a directory object is prepared, executed, finalized and verified.
- **Defense planning** (`DefenseAuthority`, `DefensePlanner`, `DefenseAssurance`, `DefenseLaws`, `DefenseConnector`,
  `MultiIncident*`): the base plan, the assurance gate on independent evidence, the connector envelope, and one plan
  for every incident.
- **Builders** (`Perception*`, `CorpusCatalog`, `CollectionBatch*`, `CollectionReports`, `AuthorityPolicy`): observations
  become a graph, inputs become a sealed corpus, grants become a decision.

Loops and objects of the source are methods and classes here; each is tied to a specification, and the laws are
lemmas about that specification.

## How the model reads the source

- Identifiers are natural numbers: only equality and the order of strings are used. Floats are reals.
- A sorted list without duplicates is kept as a set; where order is produced, it is a sequence in key order.
- A digest over a canonical document is a constructor around what it digests. The identifiers built by joining texts
  (components, world lines, observed relations) are any functions at all; what holds only when they tell things apart
  says so (`DistinctIds`, `TicksDiffer`, `TellsApart`), and `ComponentTexts` proves when the joined texts do.
- The response parser, the text formats, the inference command and the checks on perception receipts are parameters.
- Time passes only as "give up": a timeout is a step that may happen at any poll.

## What the code does that its documents do not say

- **Launch sessions.** The guard on resumes compares with the last recorded session only. Reusing an older one
  passes, and its old receipts can open the barrier (`LaunchReuse.ReusedSessionBreaksBarrier`). The barrier is safe
  when sessions are never reused (`LaunchProtocol.LaunchBarrier`).
- **Hold-out prompts.** A prompt does not name its case. Two cases with the same scenario and context share a
  request; the earlier one then always fails as missing, and the later one as a duplicate when both are answered
  (`HoldoutReplayLaws.FateInFaultlessRun`, `FaultlessRunIsCompleteIff`; `TwinsFail` is such a run).
- **Hold-out verification.** The verifier compares the run id, the source-plan file digest, the request-bindings
  digest of the plan and the session digest with nothing, while finalize refuses a wrong bindings digest
  (`HoldoutWorkerLaws.VerificationIgnoresUncheckedFields`).
- **Assurance policy.** Its validator accepts a Combat minimum above the Siege minimum; the connector then refuses
  Combat plans the gate allows (`DefenseConnector.DomainCheckFailsIff`, `ValidPolicyRefusedByConnector`).
- **Repeated snapshots.** Two components that guard one protected entity, or a zero threshold, can keep an unchanged
  graph from simply continuing its lines; `WorldLineSnapshots.RepeatedGraphContinuesIff` gives the exact condition
  and `RepeatedConvergingAttacksDoNotContinue` a graph on which the default policy fails.
- **Component identifiers.** They are hashed from identifiers joined with commas and bars, which identifiers may
  contain. Two components of a valid graph can have the same text: then the multi-incident builder raises its
  duplicate error, and a timeline puts both on one world line (`ComponentCollisions.IdentifiersCollide`,
  `ConfusingPlansAreDuplicates`, `ConfusingLinesCoincide`). `ComponentTexts.IdentifiersDifferIff` gives the exact
  condition; it is met when no active relation id, or no active entity id, has a comma or a bar (`CleanGraphsAreTold`).
- **Perception.** A source instance may have 256 characters but an evidence record's source only 128, so agreeing
  observations can be refused; and the spelling of a relation type and repeated evidence records follow the order
  of the observations (`PerceptionLaws.AgreementIsNotEnough`, `OrderFreeIffUniform`, `SpellingMakesOrderMatter`).
- **Collection seals.** An authorized artifact id repeated within one manifest is not reported: it inflates the
  rejected count, and only one of the contents reaches the corpus
  (`CollectionBatchLaws.CorpusCarriesEveryAuthorizedArtifactIff`; `RepeatedIdIsNotReported` is such a batch).

## Model

| member | source | states |
|---|---|---|
| AttackComponents.BreadthFirst | src/koschei_sentinel/attack_progression.py:344-351 | the queue loop terminates with exactly the nodes reachable from its start |
| AttackComponents.ComputeActiveComponents | src/koschei_sentinel/attack_progression.py:335-356 | the discovery loop returns the connectivity classes in order of their least entity, so the closing sort changes nothing |
| AttackComponents.ComponentsPartitionEntities | src/koschei_sentinel/attack_progression.py:335-356 | the components are non-empty, pairwise disjoint, cover exactly the endpoints of active relations, and two entities share one iff a path of active relations joins them |
| AttackComponents.ActiveRelationInOneComponent | src/koschei_sentinel/attack_progression.py:253-259 | an active relation has both ends in one component and none crosses two |
| AttackComponents.SubgraphIsValid | src/koschei_sentinel/attack_progression.py:364-373 | the entities and relations cut out for a component pass the graph validator, and are exactly the component's entities; the length of the subgraph's own name is checked by AnalyzeComponent |
| AttackComponents.ComponentDiscoveryIsIdempotent | src/koschei_sentinel/attack_progression.py:335-373 | component discovery on a component's subgraph gives back exactly that component |
| AttackComponents.ComponentsConserveRelations | src/koschei_sentinel/attack_progression.py:253-259 | the components' lists of active relations together hold every active relation of the graph exactly once |
| StageScoring.GroupByStage | src/koschei_sentinel/attack_progression.py:194-200 | the grouping loop collects, per stage, exactly the relations counted for it, in graph order |
| StageScoring.ComputeStageEvidence | src/koschei_sentinel/attack_progression.py:193-224 | the loop over the stages produces one row for each stage that has relations, in stage order |
| StageScoring.StageScoreInRange | src/koschei_sentinel/attack_progression.py:180-209 | every stage score lies in [0, 1] |
| StageScoring.StageScoreGrows | src/koschei_sentinel/attack_progression.py:193-224 | adding relations to a graph never lowers a stage score |
| StageScoring.CurrentStageMeaning | src/koschei_sentinel/attack_progression.py:227-231 | the current stage is the highest stage whose score is at least 0.5, and there is none iff no score is |
| StageScoring.CurrentStageNeverFallsBack | src/koschei_sentinel/attack_progression.py:193-231 | adding relations never moves the current stage back |
| AttackRisk.WeightMeaning | src/koschei_sentinel/attack_progression.py:180-190 | an observed relation weighs its confidence, an inferred one 0.65 and a predicted one 0.25 of it, each record of evidence adds 0.03, five at most, and 1 is the limit |
| AttackRisk.StageScoreMeaning | src/koschei_sentinel/attack_progression.py:205-209 | a stage scores as its heaviest relation and 0.04 more for every further one, five at most, capped at 1 |
| AttackRisk.StageRowMeaning | src/koschei_sentinel/attack_progression.py:193-224 | a stage has one row iff a relation speaks for it; the row lists exactly these and counts the observed and the inferred ones |
| AttackRisk.PredictionsMeaning | src/koschei_sentinel/attack_progression.py:234-250 | predicted are exactly the successors of the current stage without a credible row, in table order, the first with 0.72 if alone and 0.58 otherwise, each further one 0.08 less; limit and floor never act |
| CutPoints.ReachableCount | src/koschei_sentinel/attack_progression.py:277-286 | the queue loop counts exactly the other entities reachable along active relations |
| CutPoints.DownstreamIsBounded | src/koschei_sentinel/attack_progression.py:277-286 | an entity reaches at most all others, so the count is below the number of entities |
| CutPoints.IndexRelations | src/koschei_sentinel/attack_progression.py:292-297 | the index by entity lists, for each entity, the active relations that touch it, a self-loop twice |
| CutPoints.ComputeCutPoints | src/koschei_sentinel/attack_progression.py:289-332 | the loop returns the first eight candidates by falling effect and rising entity id |
| CutPoints.ClampsAreNoOps | src/koschei_sentinel/attack_progression.py:299-315 | neither clamp ever acts: centrality and effect are within [0, 1] without them |
| CutPoints.CutPointsDominate | src/koschei_sentinel/attack_progression.py:331-332 | at most eight cut points come back, sorted, all of them candidates, and no omitted candidate ranks before a returned one |
| CutPoints.CutPointsStayInside | src/koschei_sentinel/attack_progression.py:289-332 | a cut point is an entity of the graph that an active relation touches |
| CutPointLaws.DownstreamMeaning | src/koschei_sentinel/attack_progression.py:277-297 | downstream reach follows active relations from source to target |
| CutPointLaws.EffectMeaning | src/koschei_sentinel/attack_progression.py:299-330 | a cut point's effect is half its share of the other entities downstream, plus 0.35 of the greatest confidence of an active relation at it, plus 0.15 iff one of these was observed |
| CutPointLaws.SupportingMeaning | src/koschei_sentinel/attack_progression.py:324-326 | a cut point lists the identifiers of the active relations at its entity in order, a self-loop twice |
| CutPointLaws.BestCutPoints | src/koschei_sentinel/attack_progression.py:331-332 | cut points come by falling effect and then by entity, never two on one entity, and a candidate is left out only when eight others are better |
| AttackProgression.AnalyzeAttackProgression | src/koschei_sentinel/attack_progression.py:450-488 | the analysis is refused iff there is a component and the graph's name with the suffix of a subgraph exceeds 256 characters; otherwise it lists one report per component by falling risk and repeats the primary one at top level |
| AttackProgression.AnalyzeComponent | src/koschei_sentinel/attack_progression.py:364-424 | unless the subgraph's name is too long, a component's report is made from its subgraph alone: stages, cut points, confidence, predictions and risk |
| AttackProgression.ComponentsAreApart | src/koschei_sentinel/attack_progression.py:393-424 | for every valid graph, whatever the component identifiers are, listed components are non-empty and have pairwise disjoint entities and disjoint active relations |
| AttackProgression.ComponentsMeaning | src/koschei_sentinel/attack_progression.py:455-456 | the listed components are the reports on exactly the connectivity classes |
| AttackProgression.BestIsNotOutranked | src/koschei_sentinel/attack_progression.py:439-447 | no candidate outranks the primary component in risk, stage, confidence and identifier, compared in that order |
| AttackProgression.FocusSelectsComponent | src/koschei_sentinel/attack_progression.py:427-447 | focusing on any entity of a component selects exactly that component |
| AttackRisk.ReportNamesRelations | src/koschei_sentinel/attack_progression.py:364-412 | a report names the relations of the graph with both ends in the component, and of these the active and the disproved ones |
| AttackRisk.RiskMeaning | src/koschei_sentinel/attack_progression.py:376-390 | confidence is the greatest stage score; risk weighs the stage out of the last one with 0.45, confidence with 0.35, the greatest effect with 0.15 and size out of eight with 0.05, and its cap never acts |
| AttackRisk.RiskGrows | src/koschei_sentinel/attack_progression.py:376-390 | risk never falls when stage, confidence, best effect and size grow, and rises strictly with the stage |
| AttackRisk.ComponentsByRisk | src/koschei_sentinel/attack_progression.py:456 | components come by falling risk and, at equal risk, by identifier |
| AttackRisk.PrimaryIsMostUrgent | src/koschei_sentinel/attack_progression.py:427-447 | the primary component is one the focus touches, or any if it touches none, and none of these has more risk, or as much at a later stage, or the same stage with more confidence |
| AttackRisk.FurthestIsPrimary | src/koschei_sentinel/attack_progression.py:427-447 | of components alike in confidence, best effect and size the primary one is the furthest along |
| AttackRisk.AnalysisRepeatsPrimary | src/koschei_sentinel/attack_progression.py:459-488 | at top level an analysis repeats its primary component; without one it only lists the disproved relations of the graph |
| ComponentTexts.IdentifiersDifferIff | src/koschei_sentinel/attack_progression.py:359-361 | unless the hash collides, components of a graph get different identifiers iff their joined texts differ; equal texts collide whatever the hash |
| ComponentTexts.CleanGraphsAreTold | src/koschei_sentinel/attack_progression.py:359-361 | the texts of a graph's components differ if no active entity id, or no active relation id, has a comma or a bar |
| ComponentTexts.LinesTellApart | src/koschei_sentinel/attack_world_lines.py:121-131 | unless the hash collides, the joined text of a line tells ticks apart, and components whose identifiers have no bar, as hashed ones have not |
| ComponentCollisions.IdentifiersCollide | src/koschei_sentinel/attack_progression.py:359-361 | a valid graph whose two components have the joined text aaa, bar, bbb, comma, ccc, bar, ddd and so, for every hash, one identifier |
| ComponentCollisions.ConfusingPlansAreDuplicates | src/koschei_sentinel/assured_multi_incident_defense.py:70-75 | on that graph every check on a single component passes and the duplicate check of the multi-incident builder fires |
| ComponentCollisions.ConfusingLinesCoincide | src/koschei_sentinel/attack_world_lines.py:262-289 | a timeline that starts with that graph observes two components without a common entity on one world line |
| WorldLineGroups.LinkEdges | src/koschei_sentinel/attack_world_lines.py:149-169 | the double loop links exactly the pairs whose score reaches the threshold, with their scores and the anchor-only ones |
| WorldLineScores.JaccardMeaning | src/koschei_sentinel/attack_world_lines.py:75-79 | the share two sets have in common, times the size of the union, is the size of the intersection |
| WorldLineScores.OverlapInCounts | src/koschei_sentinel/attack_world_lines.py:82-99 | the overlap is the mean, by weight, of the shared entities and of the shared active relations, and its cap never acts |
| WorldLineScores.SameEntitiesOverlap | src/koschei_sentinel/attack_world_lines.py:82-99 | equal entities without a common relation overlap by the share of the entity weight |
| WorldLineScores.SameRelationsOverlap | src/koschei_sentinel/attack_world_lines.py:82-99 | equal active relations without a common entity overlap by the share of the relation weight |
| WorldLineScores.FullOverlapIff | src/koschei_sentinel/attack_world_lines.py:82-99 | the overlap is 1 iff every side with positive weight agrees and is not empty |
| WorldLineScores.OverlapRises | src/koschei_sentinel/attack_world_lines.py:82-99 | with unions as large, the overlap rises strictly with the shared entities, or relations, when these have weight |
| WorldLineGroups.CollectGroup | src/koschei_sentinel/attack_world_lines.py:176-192 | the queue loop collects exactly the connected component of its start, and marks it seen |
| WorldLineGroups.GroupLinks | src/koschei_sentinel/attack_world_lines.py:171-192 | the grouping loop terminates with disjoint groups that are whole connected components, cover every linked index and come by least current index |
| WorldLineTick.BipartiteGroups | src/koschei_sentinel/attack_world_lines.py:134-193 | the groups are exactly the connected components of the thresholded link graph, by least current index, with its scores and anchor-only edges |
| WorldLineFacts.GroupedOverlapReachesThreshold | src/koschei_sentinel/attack_world_lines.py:357-376 | the overlap a grouped transition reports bounds the scores of its links, is the score of one of them, and so reaches the threshold |
| WorldLineFacts.ReroutedIffAnchorOnly | src/koschei_sentinel/attack_world_lines.py:164-210 | a one-to-one link is a rerouting iff a shared anchor alone lifted it over the threshold |
| WorldLineScores.PairContinuesIff | src/koschei_sentinel/attack_world_lines.py:149-210 | two components with nothing else to be linked to: the line continues iff their overlap reaches the threshold, is rerouted iff only the bonus of a shared anchor lifts it there, and otherwise one ends and the other is new |
| WorldLineScores.LoneComponentContinuesIff | src/koschei_sentinel/attack_world_lines.py:149-339 | in a timeline whose snapshots have one component each, the line continues iff the shared entities and relations, weighed against all of them, reach the threshold |
| WorldLineFacts.LineLivesOnIff | src/koschei_sentinel/attack_world_lines.py:325-339 | when identifiers are different, a line is carried to the next tick iff its component is linked one to one |
| WorldLineFacts.NextLinesAreSound | src/koschei_sentinel/attack_world_lines.py:309-432 | when identifiers are different, a tick's lines are pairwise different and all minted by then |
| WorldLineFacts.CrossLinkIff | src/koschei_sentinel/attack_world_lines.py:149-169 | on a repeated snapshot two different components are linked iff the threshold is zero or they share an anchor whose bonus reaches it |
| WorldLineFacts.StutterContinuesIff | src/koschei_sentinel/attack_world_lines.py:149-210 | a repeated snapshot yields only CONTINUED iff it has no such cross link, and then every component keeps its line |
| WorldLineAdvance.AdvanceTick | src/koschei_sentinel/attack_world_lines.py:295-434 | for any identifiers, one tick's dictionary, observations and transitions are those of the groups, then of ended and of new components, in the order of the source |
| WorldLineAdvance.EmitGroups | src/koschei_sentinel/attack_world_lines.py:312-377 | the loop over groups emits the transition of each group and enters each successor with its line into dictionary and observations |
| WorldLineAdvance.EmitEnded | src/koschei_sentinel/attack_world_lines.py:379-395 | the loop over previous components emits the transition of exactly the unlinked ones, in index order, each an ENDED one |
| WorldLineAdvance.EmitNew | src/koschei_sentinel/attack_world_lines.py:397-432 | the loop over current components gives exactly the unlinked ones, in index order, a line, an observation and their transition, each a NEW one |
| WorldLineAdvance.LoneNode | src/koschei_sentinel/attack_world_lines.py:379-432 | an unlinked previous component's transition is its ENDED one; an unlinked current component's is its NEW one with a line minted from no predecessor |
| WorldLineTurns.OrderHoldsEach | src/koschei_sentinel/attack_world_lines.py:309-432 | a tick enters every current component exactly once |
| WorldLineTurns.TurnOfNode | src/koschei_sentinel/attack_world_lines.py:309-432 | every component of either side is accounted for by a listed transition, that of its cohort |
| WorldLineTurns.TurnsAreApart | src/koschei_sentinel/attack_world_lines.py:309-432 | no cohort is listed twice |
| WorldLineTurns.RememberedIsLast | src/koschei_sentinel/attack_world_lines.py:309-434 | the dictionary holds for an identifier the line of the last component entered with it |
| WorldLines.ComputeProtectedAnchors | src/koschei_sentinel/attack_world_lines.py:102-118 | the loop finds a component's own anchors and those one credible relation away |
| WorldLines.ComputeTick | src/koschei_sentinel/attack_world_lines.py:247-256 | unless the analysis refuses the snapshot, its tick holds the components of the analysis and the anchors of each |
| WorldLines.RunOfSnapshotsIsValid | src/koschei_sentinel/attack_world_lines.py:244-256 | for any identifiers, snapshots of valid graphs give a valid run; it is identified iff in each snapshot different components have different identifiers and minted lines tell them and ticks apart |
| WorldLines.AdvanceRun | src/koschei_sentinel/attack_world_lines.py:295-434 | reading a tick's predecessors from the carried dictionary and writing the next one gives the run's dictionary, observations and transitions |
| WorldLines.BuildLists | src/koschei_sentinel/attack_world_lines.py:256-434 | the loop over ticks gathers the observations and transitions of every tick in order |
| WorldLines.BuildTimeline | src/koschei_sentinel/attack_world_lines.py:232-461 | for every list of valid snapshots and any identifiers the builder returns the run's timeline, or refuses, in this order, no snapshots, non-positive weights, a snapshot whose analysis fails and a stream name outside 3 to 256 characters |
| WorldLineLaws.LineObservedOncePerTick | src/koschei_sentinel/attack_world_lines.py:295-434 | when identifiers are different, at no tick do two components share a world line |
| WorldLineLaws.ComponentObservedOnce | src/koschei_sentinel/attack_world_lines.py:341-413 | in every timeline each component of each tick has exactly one observation: observations of a tick that share an entity are the same, and so are those with the same identifier when identifiers are different |
| WorldLineLaws.NothingObservedTwice | src/koschei_sentinel/attack_world_lines.py:436 | in every timeline no observation is listed twice |
| WorldLineLaws.NothingRecordedTwice | src/koschei_sentinel/attack_world_lines.py:437-444 | when identifiers are different no transition is listed twice |
| WorldLineLaws.ListsAreSorted | src/koschei_sentinel/attack_world_lines.py:436-444 | every timeline lists observations and transitions in key order |
| WorldLineRecords.ListsByKey | src/koschei_sentinel/attack_world_lines.py:436-444 | observations come by tick, line and component; transitions by tick, alphabetically by the name of their kind, and by their lines before and after |
| WorldLineRecords.ObservationMeaning | src/koschei_sentinel/attack_world_lines.py:262-280 | every observation repeats entities, active relations, stage, risk, anchors and line of one component of its tick |
| WorldLineRecords.TransitionMeaning | src/koschei_sentinel/attack_world_lines.py:357-432 | every transition accounts for one cohort: its tick and the one before, the lines on both sides in order, and the anchors kept on both sides, or those of a new component |
| WorldLineRecords.MintedLineMeaning | src/koschei_sentinel/attack_world_lines.py:325-355 | a line that is not carried on is minted from stream, tick, component and the cohort's lines before, in order |
| WorldLineLaws.RememberedApartIff | src/koschei_sentinel/attack_world_lines.py:260-434 | the components of a tick are remembered under different lines iff their identifiers are different, given that they were so before |
| WorldLineLaws.FirstLinesApartIff | src/koschei_sentinel/attack_world_lines.py:262-269 | at the first tick the components' lines are different iff their identifiers are |
| WorldLineLaws.LineHasNoGaps | src/koschei_sentinel/attack_world_lines.py:295-434 | when identifiers are different, the ticks at which a line is observed form one contiguous interval |
| WorldLineLaws.GoneForGood | src/koschei_sentinel/attack_world_lines.py:325-339 | when identifiers are different, a line absent at one tick never comes back |
| WorldLineLaws.RetiredLineNeverReturns | src/koschei_sentinel/attack_world_lines.py:309-395 | when identifiers are different, a line that ended, split, merged or was reconfigured is never observed again |
| WorldLineLaws.EveryPredecessorOnce | src/koschei_sentinel/attack_world_lines.py:309-395 | when identifiers are different, at every step each previous component is a predecessor in exactly one transition |
| WorldLineLaws.EverySuccessorOnce | src/koschei_sentinel/attack_world_lines.py:309-432 | when identifiers are different, at every tick each current component is a successor in exactly one transition |
| WorldLineLaws.KindsMatchShapes | src/koschei_sentinel/attack_world_lines.py:196-210 | in every timeline each transition kind holds exactly when the predecessor and successor counts have its shape |
| WorldLineLaws.RepeatedSnapshot | src/koschei_sentinel/attack_world_lines.py:295-434 | over any run, a repeated snapshot continues every line iff no two of its components are cross-linked, and then every component keeps the line it was remembered under |
| WorldLineSnapshots.ProtectedAnchorsMeaning | src/koschei_sentinel/attack_world_lines.py:102-118 | an anchor of a component is a protected entity that is in it or is joined to it by a relation neither disproved nor below 0.5 |
| WorldLineSnapshots.RepeatedGraphContinuesIff | src/koschei_sentinel/attack_world_lines.py:102-434 | when its components have different identifiers, repeating a graph yields only CONTINUED, and keeps every line, iff the threshold is positive or there is at most one component, and the bonus misses the threshold or no two components guard a common protected entity |
| WorldLineSnapshots.RepeatWithoutPredictionsContinues | src/koschei_sentinel/attack_world_lines.py:102-434 | with a positive threshold and different identifiers, repeating a graph that predicts nothing with confidence 0.5 or more keeps every line, whatever is protected |
| WorldLineSnapshots.StutterWithoutAnchors | src/koschei_sentinel/attack_world_lines.py:232-434 | without protected anchors and with a positive threshold, a repeated snapshot yields only CONTINUED and keeps every line, whatever the identifiers |
| WorldLineSnapshots.RepeatedConvergingAttacksDoNotContinue | src/koschei_sentinel/attack_world_lines.py:33-36 | under the default policy, two attacks with different identifiers, predicted to reach one protected entity, do not all continue when their graph is repeated |
| LaunchProtocol.StepKeepsBarrier | src/koschei_sentinel/cyber_megatron_training.py:781-1025 | every step of an interleaving that never reuses a session keeps the barrier invariant |
| LaunchProtocol.LaunchBarrier | src/koschei_sentinel/cyber_megatron_training.py:933-1025 | in every run that never reuses a session, whenever a rank runs the training subprocess every rank has a receipt for that session with the same identity, rendezvous and plan, written within the same launch attempt |
| LaunchHistory.IdentityNeverChanges | src/koschei_sentinel/cyber_megatron_training.py:795-805 | over any sequence of launches the run identity never changes once written |
| LaunchHistory.OneFreshLaunchBinds | src/koschei_sentinel/cyber_megatron_training.py:796-803 | at most one fresh launch ever makes the output directory, and the identity on disk is that launch's own |
| LaunchHistory.IdentityIsMakers | src/koschei_sentinel/cyber_megatron_training.py:796-803 | an identity on disk is always that of a launch that made the directory |
| LaunchHistory.LaunchStateMovesForward | src/koschei_sentinel/cyber_megatron_training.py:1446-1510 | in every run that never reuses a session, what a session has written is a prefix of launching, ready, completed, or launching with at most ready after it and then failed: nothing is skipped or follows an end |
| LaunchHistory.StateIsLastEntry | src/koschei_sentinel/cyber_megatron_training.py:758-778 | the state on disk is always the last one written |
| LaunchHistory.ResumeComparesWithLastEntry | src/koschei_sentinel/cyber_megatron_training.py:804-835 | a resume is accepted iff nothing was written yet or the last written state has its identity and rendezvous and another session; earlier sessions are not looked at |
| LaunchMoves.AnnouncedAfterLaunching | src/koschei_sentinel/cyber_megatron_training.py:846-881 | in every run, reused sessions included, a process that has announced a plan belongs to the identity on disk and its own launch has been published |
| LaunchMoves.TrainsAfterReady | src/koschei_sentinel/cyber_megatron_training.py:956-1027 | in every run a rank trains only after its own launch was published as launching and as ready |
| LaunchMoves.ComparingMovesIff | src/koschei_sentinel/cyber_megatron_training.py:846-880 | a rank above 0 goes on to plan iff the identity on disk is its own and the state is its own launch, launching; it waits iff the directory is its own and that state is to come or over; otherwise it can only end |
| LaunchMoves.BarrierOpensIff | src/koschei_sentinel/cyber_megatron_training.py:1004-1026 | a rank above 0 leaves the barrier for training iff its own launch is ready, and otherwise only to end; it polls on only while its own launch is neither ready nor failed |
| LaunchMoves.BadReceiptEndsScan | src/koschei_sentinel/cyber_megatron_training.py:960-985 | rank 0 never reads past a receipt that differs from its own launch and plan |
| LaunchMoves.ResumePublishesIff | src/koschei_sentinel/cyber_megatron_training.py:802-834 | in every run a resuming rank 0 may publish iff nothing was written or the last state ever written has its identity and rendezvous and another session |
| LaunchMoves.StartingMovesIff | src/koschei_sentinel/cyber_megatron_training.py:793-803 | a fresh rank 0 makes the directory iff there is none, a resuming process goes on only on a directory with its identity, and other ranks wait |
| LaunchReuse.DisciplinedRunReachesTraining | src/koschei_sentinel/cyber_megatron_training.py:1410-1511 | a run that never reuses a session does reach training on two nodes |
| LaunchReuse.ReusedSessionBreaksBarrier | src/koschei_sentinel/cyber_megatron_training.py:829-834 | a run in which the guard accepts sessions 0, 1, 2 and 1 again, and rank 0 then trains on a receipt left by an earlier attempt |
| MegatronTopology.ParallelismFillsTheWorld | src/koschei_sentinel/cyber_megatron_training.py:60-88 | TP * PP * CP * DP is the world size, with at least one replica, and the expert size divides replicas and experts |
| MegatronTopology.AccumulationFillsTheBatch | src/koschei_sentinel/cyber_megatron_training.py:191-203 | micro batch * DP * accumulation steps is the global batch, with at least one step |
| MegatronTopology.CoherentIff | src/koschei_sentinel/cyber_megatron_training.py:60-88 | within its ranges a topology is coherent iff whole replicas fill the GPUs, whole expert groups fill the replicas and the 512 experts divide evenly; the replicas are the data-parallel size |
| MegatronTopology.BatchFitsIff | src/koschei_sentinel/cyber_megatron_training.py:191-203 | a batch fits a coherent topology iff whole steps of all replicas consume it |
| HoldoutReplay.ReadLines | src/koschei_sentinel/cyber_megatron_holdout_worker.py:826-877 | the loop over the lines stops at the first unplanned one, or leaves the dictionaries tracking every case |
| HoldoutReplay.BookCase | src/koschei_sentinel/cyber_megatron_holdout_worker.py:855-877 | booking a response leaves the dictionaries as the responses so far demand for its case, and alone for others |
| HoldoutReplay.Book | src/koschei_sentinel/cyber_megatron_holdout_worker.py:851-877 | booking a planned line keeps the dictionaries tracking every case |
| HoldoutReplay.SettleCases | src/koschei_sentinel/cyber_megatron_holdout_worker.py:879-889 | the closing loop adds the missing results and removes predictions of failed cases |
| HoldoutReplay.SettleCase | src/koschei_sentinel/cyber_megatron_holdout_worker.py:879-889 | settling a case leaves it either predicted or failed, and other cases alone |
| HoldoutReplay.ReplayRawResults | src/koschei_sentinel/cyber_megatron_holdout_worker.py:808-893 | replay succeeds iff every line is blank or a response to a planned request, and returns the sorted predictions and failures |
| HoldoutReplayLaws.AccountingOfCase | src/koschei_sentinel/cyber_megatron_holdout_worker.py:851-889 | a case is a prediction iff exactly one line answers it and that line parses; otherwise it fails as missing, duplicate or unparsable, as its line count says |
| HoldoutReplayLaws.PredictionIff | src/koschei_sentinel/cyber_megatron_holdout_worker.py:862-893 | a prediction is reported iff exactly one line answers its case and the parser makes that body of it |
| HoldoutReplayLaws.FailureIff | src/koschei_sentinel/cyber_megatron_holdout_worker.py:845-893 | a failure is reported iff its case, under its own scenario and context, has no answer, two, or one the parser refuses, whose text it then carries |
| HoldoutReplayLaws.RowsPartitionCases | src/koschei_sentinel/cyber_megatron_holdout_worker.py:879-893 | predictions and failures are sorted, disjoint, cover exactly the cases and add up to their number |
| HoldoutReplayLaws.LineOrderIsImmaterial | src/koschei_sentinel/cyber_megatron_holdout_worker.py:808-893 | the same lines in another order give the same predictions and failures and are refused alike |
| HoldoutReplayLaws.ShadowedCaseIsAlwaysMissing | src/koschei_sentinel/cyber_megatron_holdout_worker.py:814-817 | a case whose prompt a later case repeats fails as missing whatever the result lines are |
| HoldoutReplayLaws.DuplicateIffAnsweredTwice | src/koschei_sentinel/cyber_megatron_holdout_worker.py:814-863 | a case whose prompt no later case repeats fails as a duplicate iff two lines respond to its prompt |
| HoldoutReplayLaws.FateInFaultlessRun | src/koschei_sentinel/cyber_megatron_holdout_worker.py:814-889 | when every request is answered once and parses, a case is missing iff a later one repeats its prompt, a duplicate iff only earlier ones do, and predicted iff its prompt is its own |
| HoldoutReplayLaws.TwinsFail | src/koschei_sentinel/cyber_megatron_holdout_worker.py:814-889 | two cases with one prompt, both answered and parsed: one missing, one duplicate, no prediction |
| HoldoutReplayLaws.FaultlessRunIsCompleteIff | src/koschei_sentinel/cyber_megatron_holdout_worker.py:343-369 | when every request is answered once and parses, there are no failures iff the prompts are pairwise different |
| HoldoutDirectory.WorkerDirectory.Prepare | src/koschei_sentinel/cyber_megatron_holdout_worker.py:505-608 | prepare succeeds iff the sources agree and the output does not exist, and then writes exactly the plan, requests and bindings |
| HoldoutDirectory.WorkerDirectory.Execute | src/koschei_sentinel/cyber_megatron_holdout_worker.py:697-774 | the process starts iff the directory is the prepared one and the launch is cleared; its output stays, and a state is recorded unless the exit code is out of range |
| HoldoutDirectory.WorkerDirectory.Finalize | src/koschei_sentinel/cyber_megatron_holdout_worker.py:905-978 | finalize writes the three outputs iff every check passes, and leaves two of them without a receipt iff only the plan's request count is wrong |
| HoldoutDirectory.WorkerDirectory.Verify | src/koschei_sentinel/cyber_megatron_holdout_worker.py:981-1166 | each flag is set iff its stage and all before it pass, the verdict is valid iff the last flag is set, and nothing is changed |
| HoldoutDirectory.ReceiptIsValidIff | src/koschei_sentinel/cyber_megatron_holdout_worker.py:303-315 | the receipt's validator accepts finalize's receipt iff the plan counts the inference cases |
| HoldoutDocuments.ProfileIsValidIff | src/koschei_sentinel/cyber_megatron_holdout_worker.py:139-155 | a profile is valid iff a node is a tensor group and a pipeline stage, for 2 to 64 nodes with 1 to 16 GPUs; the product check follows |
| HoldoutDocuments.DigestsSeal | src/koschei_sentinel/cyber_megatron_holdout_worker.py:226-315 | valid plans, execution states or receipts with the same digest are the same |
| HoldoutDocuments.RecordedStateIsValid | src/koschei_sentinel/cyber_megatron_holdout_worker.py:256-268 | what a run records is valid iff its exit code fits, matches the plan, and is completed iff the process returned 0 and left results |
| HoldoutDocuments.PreparedManifest | src/koschei_sentinel/cyber_megatron_holdout_worker.py:343-372 | the prepared manifest binds every case to its own scenario, context and prompt, and is valid iff there is a case |
| HoldoutDocuments.ReadyIffPrepared | src/koschei_sentinel/cyber_megatron_holdout_worker.py:644-695 | a directory with the plan of the sources is ready to run iff it is file by file what prepare writes |
| HoldoutWorkerLaws.PipelineVerifies | src/koschei_sentinel/cyber_megatron_holdout_worker.py:505-1166 | prepare, a completed launch with planned results and finalize always succeed in turn and leave a directory that verifies |
| HoldoutWorkerLaws.AccountingFollows | src/koschei_sentinel/cyber_megatron_holdout_worker.py:1138-1145 | the closing accounting stage never fails: a directory is valid as soon as its receipt verifies |
| HoldoutWorkerLaws.FinalizeReproducesVerified | src/koschei_sentinel/cyber_megatron_holdout_worker.py:905-1125 | finalizing the inputs of a verified directory anew gives the same outputs, and is accepted iff the plan's bindings digest is right |
| HoldoutWorkerLaws.VerifiedIsDetermined | src/koschei_sentinel/cyber_megatron_holdout_worker.py:981-1125 | two verified directories with the same plan, results and execution state are the same in all eight files |
| HoldoutWorkerLaws.VerifiedIffPipelineOutput | src/koschei_sentinel/cyber_megatron_holdout_worker.py:505-1166 | apart from the fields verification does not check, a directory verifies iff some valid profile and good launch produce it |
| HoldoutWorkerLaws.VerificationIgnoresUncheckedFields | src/koschei_sentinel/cyber_megatron_holdout_worker.py:1044-1092 | changing the run id, the source-plan file digest, the bindings digest and the session digest, and resealing, keeps a directory valid, though finalize refuses a wrong bindings digest |
| DefenseAuthority.DecisionIsMonotone | src/koschei_sentinel/defense_authority.py:93-118 | a more severe assessment never earns a lower mode nor permits fewer actions |
| DefensePlanner.CorroboratingEvidence | src/koschei_sentinel/active_defense_planner.py:33-41 | the loop counts the distinct evidence ids on corroborating active relations |
| DefensePlanner.ComputeCriticalAtRisk | src/koschei_sentinel/active_defense_planner.py:44-62 | the loop answers whether an active relation or a cut point of the primary component touches a critical entity |
| DefensePlanner.BuildActiveDefensePlan | src/koschei_sentinel/active_defense_planner.py:75-162 | the builder refuses unknown critical entities, unknown focus entities and a graph name too long for the assessment's, in this order, and otherwise returns the plan of the analysis focused on the focus, or else on the critical entities |
| DefenseLaws.NameLimits | src/koschei_sentinel/active_defense_planner.py:113-114 | a graph's name may have 256 characters, 246 if the graph has a component, and 245 to be planned for |
| DefensePlanner.PlanSplitsPrimaryCutPoints | src/koschei_sentinel/active_defense_planner.py:122-129 | authorized and withheld split the cut points, all inside the primary component, by what the mode permits |
| DefenseLaws.ActiveProgressionMeaning | src/koschei_sentinel/active_defense_planner.py:104-107 | an attack counts as under way iff some stage before the last one is credible in the primary component |
| DefenseLaws.CriticalAtRiskIff | src/koschei_sentinel/active_defense_planner.py:44-62 | a critical entity is at risk iff the primary component holds one |
| DefenseLaws.ModeMeaning | src/koschei_sentinel/defense_authority.py:93-118 | Siege needs confidence 0.95, an attack under way, a critical entity inside, an effect of 0.7 and two pieces of evidence; Combat needs 0.8, two pieces and an attack under way or a critical entity; all else is Guard |
| DefenseLaws.EvidenceGapIff | src/koschei_sentinel/active_defense_planner.py:65-72 | the evidence has a gap iff no active relation is observed or more are inferred than observed |
| DefenseLaws.WithheldOnlyInGuard | src/koschei_sentinel/active_defense_planner.py:122-129 | above Guard every cut point is authorized, by the gate too; in Guard exactly those on network endpoints |
| DefenseAssurance.ActiveEvidenceDomains | src/koschei_sentinel/assured_active_defense.py:146-177 | the loops sort the active evidence sources into admitted principals with their domains and unknown ones |
| DefenseAssurance.AdmitEvidence | src/koschei_sentinel/assured_active_defense.py:165-171 | the loop over one relation's evidence adds its sources to the admitted or the unknown ones |
| DefenseAssurance.BuildAssuredActiveDefensePlan | src/koschei_sentinel/assured_active_defense.py:191-286 | the gate returns the base plan at the effective mode iff the receipts bind and the plan can be built |
| DefenseAssurance.EffectiveIsGreatestAllowed | src/koschei_sentinel/assured_active_defense.py:180-222 | the effective mode is the highest that neither the base decision nor the domain count forbids |
| DefenseAssurance.GateOnlyWithholds | src/koschei_sentinel/assured_active_defense.py:219-232 | the gate splits the same cut points, authorizes nothing the base plan withheld, and records a downgrade iff the mode fell |
| DefenseAssurance.MoreEnrollmentsNeverWithdraw | src/koschei_sentinel/assured_active_defense.py:146-232 | enrolling more sources never lowers the mode nor withdraws an authorized cut point |
| DefenseAssurance.DomainsAreWitnessed | src/koschei_sentinel/assured_active_defense.py:161-171 | every counted domain comes from an enabled enrollment whose source supports a corroborating relation of the primary component |
| DefenseLaws.ReceiptMeaning | src/koschei_sentinel/assured_active_defense.py:146-286 | the receipt divides the sources behind the active relations into enrolled and unknown ones, counts the domains of the enrolled, and names both modes and whether they differ |
| DefenseLaws.EffectiveModeMeaning | src/koschei_sentinel/assured_active_defense.py:180-222 | Siege takes a Siege base and its minimum of domains; anything above Guard a higher base and either minimum |
| DefenseLaws.FewDomainsHoldBack | src/koschei_sentinel/assured_active_defense.py:180-222 | under a valid policy one domain never gets past Guard, two never to Siege, and sixteen hold nothing back |
| DefenseConnector.DomainCheckFailsIff | src/koschei_sentinel/assured_defense_connector.py:82-88 | the connector's domain check fails on the gate's mode iff the base mode is Combat and the count lies between a Siege minimum and a larger Combat minimum |
| DefenseConnector.DomainCheckAlwaysPassesIff | src/koschei_sentinel/assured_defense_connector.py:82-88 | the check passes for every base mode and count iff the Combat minimum is at most the Siege minimum |
| DefenseConnector.EnvelopeBuiltIff | src/koschei_sentinel/assured_defense_connector.py:56-139 | for a plan from the gate an envelope is built iff the request names an authorized, in-scope step whose name fits, with one to 256 distinct evidence ids, and the domain count suffices; no other check can fail |
| DefenseConnector.EnvelopeIsWarranted | src/koschei_sentinel/assured_defense_connector.py:96-139 | a production command targets a cut point of the primary component, within its mode, with the domains that mode needs |
| DefenseConnector.CommandCarriesRequest | src/koschei_sentinel/assured_defense_connector.py:96-139 | a command carries action and target of the requested step, a dry run iff one was requested, and each evidence id once in the order given |
| MultiIncident.BuildMultiIncidentPlan | src/koschei_sentinel/assured_multi_incident_defense.py:88-174 | the builder returns the ranked component plans iff the critical entities are known, there is no component or the receipts bind and the graph's name is short enough, and no check fires; the duplicate error comes iff only its check fires |
| MultiIncident.PlanComponent | src/koschei_sentinel/assured_multi_incident_defense.py:109-138 | one iteration plans its component, or refuses it iff the receipts do not bind, the graph's name is too long or a boundary check fires |
| MultiIncidentLaws.BoundaryErrorsAreUnreachable | src/koschei_sentinel/assured_multi_incident_defense.py:38-135 | for every valid graph and any identifiers, no focus or boundary check of the builder can fire |
| MultiIncidentLaws.NoDuplicateIff | src/koschei_sentinel/assured_multi_incident_defense.py:70-75 | the duplicate check passes iff the components of the graph have different identifiers |
| MultiIncidentLaws.EveryComponentPlannedInOrder | src/koschei_sentinel/assured_multi_incident_defense.py:109-146 | every active component is planned exactly once and the plans come in priority order |
| MultiIncidentLaws.PlansByUrgency | src/koschei_sentinel/assured_multi_incident_defense.py:140-146 | plans come by falling priority, then by falling mode, then by identifier |
| MultiIncidentLaws.ComponentPlanMeaning | src/koschei_sentinel/assured_multi_incident_defense.py:109-138 | each plan is that of one listed component, with the critical entities it holds |
| MultiIncidentLaws.SummaryMeaning | src/koschei_sentinel/assured_multi_incident_defense.py:147-174 | the summary counts the plans with critical entities and those above Guard and names the greatest mode |
| MultiIncidentLaws.CriticalEntitiesArePartitioned | src/koschei_sentinel/assured_multi_incident_defense.py:110-156 | for any identifiers, the plans' critical sets are disjoint, and with the inactive ones, which no active relation touches, make up the declared set |
| MultiIncidentLaws.HighestModeMeaning | src/koschei_sentinel/assured_multi_incident_defense.py:147-151 | the highest mode is the greatest effective mode of any plan, Guard without plans |
| MultiIncidentLaws.PriorityCapIsNoOp | src/koschei_sentinel/assured_multi_incident_defense.py:76-85 | the cap never acts: a priority is the risk plus its bonuses, within [0, 1.7] |
| MultiIncidentLaws.IncidentsAreIndependent | src/koschei_sentinel/assured_multi_incident_defense.py:109-122 | for any identifiers, a component's plan within the whole graph is the plan its own subgraph would get alone |
| Perception.Compiler.MergeEntity | src/koschei_sentinel/cyber_perception.py:103-121 | merging a mention succeeds iff type and shared labels agree, adds its labels, and otherwise changes nothing |
| Perception.Compiler.RecordObservation | src/koschei_sentinel/cyber_perception.py:126-162 | recording succeeds iff the source text fits and a repeated evidence id repeats its digest, and merges evidence and confidence |
| Perception.Compiler.TakeIn | src/koschei_sentinel/cyber_perception.py:123-162 | an observation is taken in iff the batch stays consistent with it, and the dictionaries then hold the longer batch |
| Perception.CompilePerceptionBatch | src/koschei_sentinel/cyber_perception.py:99-168 | a batch compiles iff all mentions agree, evidence digests agree, source texts fit and the graph's name fits, and gives exactly the graph of its observations |
| PerceptionLaws.RelationSummarisesObservations | src/koschei_sentinel/cyber_perception.py:123-162 | a relation joins entities of the graph, has the greatest confidence of its observations, and one record for each of their evidence ids, in order |
| PerceptionRecords.EvidenceMeaning | src/koschei_sentinel/cyber_perception.py:126-162 | a relation has, for each evidence id of its observations, one record with source, digest and time of the last observation that brought it |
| PerceptionRecords.RelationIsOfFirst | src/koschei_sentinel/cyber_perception.py:137-148 | a relation joins the ends of its first observation and keeps its spelling of the type |
| PerceptionRecords.EntityMeaning | src/koschei_sentinel/cyber_perception.py:103-121 | the entities are those the observations name, each of the type of all its mentions |
| PerceptionRecords.LabelIff | src/koschei_sentinel/cyber_perception.py:103-121 | an entity carries exactly the labels of its mentions |
| PerceptionLaws.CompiledGraphIsValid | src/koschei_sentinel/cyber_perception.py:164-168 | a compiled graph passes the graph's validators iff its name fits |
| PerceptionLaws.OrderIsImmaterial | src/koschei_sentinel/cyber_perception.py:99-168 | success, entities, and each relation's confidence and evidence ids do not depend on the order or repetition of observations |
| PerceptionLaws.OrderFreeIffUniform | src/koschei_sentinel/cyber_perception.py:137-162 | the whole graph is independent of the order iff observations of a relation spell its type alike and repeat evidence records unchanged |
| PerceptionLaws.AgreementIsNotEnough | src/koschei_sentinel/cyber_perception.py:131-136 | a batch whose mentions and digests agree is still refused when a source text exceeds the 128 characters of an evidence record |
| PerceptionLaws.SpellingMakesOrderMatter | src/koschei_sentinel/cyber_perception.py:94-148 | whatever the identifier digest, two spellings of one relation type compile, to a graph that depends on which came first |
| CorpusCatalog.AuditArtifacts | src/koschei_sentinel/cyber_corpus_catalog.py:247-319 | the audit reports exactly the unknown sources, repeated contents and per-artifact offences, and is ready iff it reports nothing and some artifact is authorized |
| CorpusCatalog.AuditOne | src/koschei_sentinel/cyber_corpus_catalog.py:266-306 | an artifact is reported for exactly its offences against its source |
| CorpusCatalog.ScopeIsAlwaysResolved | src/koschei_sentinel/cyber_corpus_catalog.py:303-306 | the unresolved-scope report cannot occur for validated sources |
| CollectionBatch.CheckRows | src/koschei_sentinel/cyber_collection_batch.py:155-166 | the loop over a corpus reports exactly the offending rows and adds the matched ones to the collected corpus |
| CollectionBatch.CheckArtifacts | src/koschei_sentinel/cyber_collection_batch.py:143-151 | the loop over a manifest reports exactly the artifacts of another source or revision |
| CollectionBatch.CheckRow | src/koschei_sentinel/cyber_collection_batch.py:155-166 | a row is reported for exactly its defects and recorded iff it has an artifact |
| CollectionBatch.CheckInput | src/koschei_sentinel/cyber_collection_batch.py:129-174 | one input is reported for exactly its defects and adds its artifacts and matched rows |
| CollectionBatch.CheckInputs | src/koschei_sentinel/cyber_collection_batch.py:124-174 | the loop over the inputs stops iff a processed one cannot be loaded, and otherwise reports exactly their violations and collects all artifacts and rows |
| CollectionBatch.AuditBatch | src/koschei_sentinel/cyber_collection_batch.py:176-181 | the audit of all artifacts adds exactly its own violations and the repeated contents |
| CollectionBatch.SealCollectionBatch | src/koschei_sentinel/cyber_collection_batch.py:118-227 | sealing reports exactly the violations of inputs and audit, and states readiness, counts, manifest and corpus |
| CollectionBatchLaws.ReadyIff | src/koschei_sentinel/cyber_collection_batch.py:197-210 | a batch is ready iff nothing is reported and some artifact is authorized; the count comparison is implied |
| CollectionBatchLaws.CorpusIdsAreAuthorizedIds | src/koschei_sentinel/cyber_collection_batch.py:154-174 | without violations the corpus holds exactly the authorized artifact ids |
| CollectionBatchLaws.EveryRowIsVouchedFor | src/koschei_sentinel/cyber_collection_batch.py:145-166 | without violations every row has an authorized artifact with its digest, from an authorized source at the pinned revision under a fitting license |
| CollectionBatchLaws.CorpusContentsAreDistinct | src/koschei_sentinel/cyber_collection_batch.py:176-181 | without violations different rows hold different contents |
| CollectionBatchLaws.CorporaAreDisjoint | src/koschei_sentinel/cyber_collection_batch.py:155-166 | without violations no artifact id is in the corpora of two inputs |
| CollectionReports.ReportedIff | src/koschei_sentinel/cyber_collection_batch.py:118-181 | each report of a seal holds iff the batch has that very fault: one of an input, its artifacts or rows, one the audit finds, or a repeated content |
| CollectionReports.ManifestByIdentifier | src/koschei_sentinel/cyber_collection_batch.py:188-195 | the manifest holds all artifacts by identifier, those with the same one in the order of the inputs |
| CollectionReports.CorpusByIdentifier | src/koschei_sentinel/cyber_collection_batch.py:197-206 | the corpus holds the row of each authorized artifact that has one, by identifier |
| CollectionBatchLaws.RejectedCountsUnauthorizedIff | src/koschei_sentinel/cyber_collection_batch.py:209 | the rejected count is the number of unauthorized artifacts iff authorized artifact ids do not repeat |
| CollectionBatchLaws.CorpusCarriesEveryAuthorizedArtifactIff | src/koschei_sentinel/cyber_collection_batch.py:154-174 | without violations the corpus carries the content of every authorized artifact iff no two of them share an id |
| CollectionBatchLaws.RepeatedIdIsNotReported | src/koschei_sentinel/cyber_collection_batch.py:154-209 | a ready batch in which two authorized artifacts share an id: one content is missing from the corpus and one artifact counts as rejected |
| AuthorityPolicy.Evaluate | src/koschei_sentinel/authority_policy.py:53-104 | a chain is accepted iff it leads from the principal to the delegate, every grant is in force and none widens or follows a final grant; a refusal names a defect the chain has |
| AuthorityPolicy.ValidateGrant | src/koschei_sentinel/authority_policy.py:106-116 | a grant passes iff it has started, has not expired and is addressed to the audience |
| AuthorityPolicy.AllowedIsConferredByEveryGrant | src/koschei_sentinel/authority_policy.py:82-99 | effective scopes lie within every grant and a non-empty envelope, and an allowed request asks for no more |
| AuthorityPolicy.EffectiveScopesMeaning | src/koschei_sentinel/authority_policy.py:82-99 | effective are exactly the scopes every grant confers and the envelope names, an empty one naming all, and a request is allowed iff it asks for no others |
| AuthorityPolicy.SingleGrantIff | src/koschei_sentinel/authority_policy.py:53-116 | the shortest chain: one grant from principal to delegate, from its start until before its expiry, for its audience where both sides name one |
| AuthorityPolicy.NoDefectWhenAccepted | src/koschei_sentinel/authority_policy.py:53-116 | no accepted chain has a defect that a refusal names |
| AuthorityPolicy.ChainsCompose | src/koschei_sentinel/authority_policy.py:72-90 | a chain is accepted iff its two halves are, meeting at one subject, within the depth, with a seam that does not widen |
| AuthorityPolicy.PrefixIsAccepted | src/koschei_sentinel/authority_policy.py:72-90 | a prefix of an accepted chain is accepted for the delegate it ends at and confers at least as much |
| AuthorityPolicy.AcceptanceIsConvexInTime | src/koschei_sentinel/authority_policy.py:106-111 | a chain accepted at two times is accepted at every time between |
| AuthorityPolicy.NoAudienceIsWeakest | src/koschei_sentinel/authority_policy.py:113-116 | what is accepted for some audience is accepted when none is given |

## Left out

- Command-line entry points, argument parsing, JSON canonicalisation, hashing, symbolic-link checks and signatures.
- Length limits of fields that are copied from validated inputs with the same limit.
- The suffix the source appends to the name of a component's subgraph: the model keeps the name of the graph, and checks
  the longer one where the subgraph is built.
- Rationale texts, schema versions and messages of errors; an error is a constructor.
- The table that maps relation texts to attack stages: a relation type carries its stage.
- The checks that bind perception receipts to a graph and a registry: their outcome is a parameter of the gate.
- The interception planner: an interception plan is any list of steps.
- The timeline's own digest.
- Datasets, tokenizers, checkpoints on disk and the training command of the launch; a plan is its digest.
- Clocks, the length of timeouts, and liveness: nothing says that a launch ever gets through.
- Rounding of floating-point numbers: scores are compared as reals.
- The catalog audit, whose report is a list of counts, and the fields of sources and artifacts no check reads.
- HoldoutWorkerLaws.VerifiedIffPipelineOutput: does not constrain the fields the verifier never compares, because they are free in the code; VerificationIgnoresUncheckedFields says which.
- LaunchProtocol.LaunchBarrier: assumes that sessions are not reused and one process runs per session and rank, because ReusedSessionBreaksBarrier shows it fails otherwise.
- LaunchHistory.LaunchStateMovesForward: assumes the same, because a reused session starts its phases over.
- HoldoutDirectory.WorkerDirectory.Execute: treats the inference process as a choice of exit code and result file; it cannot touch the other files.
- WorldLines.BuildTimeline: the first tick is advanced like any other with no previous components, because the separate loop of the source does the same.
- CollectionBatch.SealCollectionBatch: keeps the reported violations as a set, because the seal sorts and deduplicates them.
- DefensePlanner.BuildActiveDefensePlan: does not build rationale texts.
- Perception.CompilePerceptionBatch: does not refuse sensitive label names or repeated observation ids, because the batch's own validators do so before.
- AuthorityPolicy.Evaluate: takes a positive depth and a non-empty chain, because the policy and chain constructors refuse others.
