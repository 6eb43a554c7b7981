# AI Incident Commander: verified model

AI Incident Commander is a control system around judgement it does not trust: model roles, humans and tools propose, and
deterministic code decides what is recorded, what runs next and what counts as known. This project models that code in
Dafny and proves what it keeps.

| module | what it models |
|---|---|
| `Reducers` | the merge law of every state channel |
| `Investigation`, `InvestigationSafety`, `InvestigationRouting`, `InvestigationBounds`, `InvestigationCeiling`, `ControlOwnership` | the cyclic investigation graph, with every node, human and process an arbitrary event |
| `PredictionDerivation`, `Planning`, `RouteVocabulary`, `PredictionEvaluation`, `EvaluationMeaning`, `HypothesisStanding`, `StatusMeaning`, `BeliefLoop` | the belief pipeline, stage by stage and as a loop over its channels |
| `JsonHeap`, `KeyOrder`, `CanonicalJson`, `BoundedJson`, `OwnValueSerde`, `OwnValueReach` | three walks over object graphs that may share or cycle |
| `FencedCheckpointer`, `LastEventId`, `RunEventStream`, `TrialEvidence`, `DurableRunner` | durable execution: a fence around a write, an ordered tail over a log, crash and replay around a commit-once port |
| `Registry`, `OracleArm` | the registry check against its meaning, and the reachability of the evaluator's optimum |

Three kinds of statement recur. A method has the loops and the updates of the source and is proved against a
specification. A lemma says what the specification means with no order, index or accumulator in it, down to the fields
of the records and the numbers the source writes down; the definitions in `OwnValueReach`, `InvestigationRouting`,
`EvaluationMeaning` and `StatusMeaning` are made for that and use none of the functions they are compared with. Where
code runs concurrently, a world with enabled moves says what can happen, a class runs the code as moves of that world,
and theorems quantify over every run.

Assumptions, made once:

- SHA-256 over an injective encoding is an injective constructor: two digest ids are equal when what they digest is.
- LangGraph runs one task at a time, merges a node's update by the declared reducers and then checkpoints.
- A database statement, or a fenced transaction, is one atomic step that may fail, and a committed one may lose its answer.
- An attempt number is claimed once, so an attempt that has lost a run does not hold it again.
- Scores are exact reals. `Date.parse` is given as the instant a text parses to, if any.

Two limits the proofs brought out, each with its exact condition:

- The per-run ceiling of the live model lane is read off the budget policy. It bounds every run exactly when the policy has
  at least one iteration or a reserve of at least three (`InvestigationCeiling.CeilingSoundness`): a run always plans
  once, so with no iterations and a smaller reserve the roles can run once more than published. The shipped policy has
  four iterations and is covered.
- The durable runner does not call the investigation again once its result is committed, if and only if takeovers wait:
  while nothing is committed, a process is started only when none is between its question to the port and its call
  (`DurableRunner.WaitingIsExact`, and for one takeover `DurableRunner.TakeoverIsSafeIffItWaits`). Whoever starts the
  processes keeps this by starting one only when every earlier one has stopped (`DurableRunner.OneAtATimeWaits`). Of a
  single process: while nothing is committed it can come to call late exactly when it has asked and not called, or holds
  the run and has yet to ask (`DurableRunner.LateCallersAreThoseWhoMay`). A late answer never replaces the committed one.

## Model

| member | source | states |
|---|---|---|
| `Reducers.UpsertById` | packages/domain/src/reducers.ts:3-23 | the copied list, index map and two loops compute the merge law |
| `Reducers.LookupAfterUpsert` | packages/domain/src/reducers.ts:3-23 | reading an id after a merge gives the update's last word on it, else what the channel held |
| `Reducers.UpsertKeepsPositions` | packages/domain/src/reducers.ts:3-23 | a merge moves and loses nothing, and keeps unique ids unique |
| `Reducers.UpsertIsIdempotent` | packages/domain/src/reducers.ts:3-23 | merging an update again changes nothing, so a replayed node is harmless |
| `Reducers.ChangedIsWhatDiffers` | packages/graph/src/nodes/evaluate-predictions.ts:52-68 | the part of an update that is handed over is every record the channel does not hold as it is, and no other |
| `ControlOwnership.PickGraphOwnedControl` | packages/graph/src/investigation.ts:1104-1139 | succeeds exactly when no graph-owned field is an accessor or missing, and names the first that is |
| `ControlOwnership.WithoutGraphOwnedControl` | packages/graph/src/investigation.ts:1140-1168 | keeps exactly the fields that are not graph-owned, whatever order they come in |
| `ControlOwnership.PreserveGraphOwnedControl` | packages/graph/src/investigation.ts:1169-1279 | the record it returns encodes the node's own half and the graph's half with only the two usage counters moved |
| `ControlOwnership.NodeCannotReachGraphFields` | packages/graph/src/investigation.ts:1104-1279 | whatever fields a node returns, no graph-owned field takes its value from them, and the node's own fields pass through |
| `Investigation.ParseChallengeResult` | packages/graph/src/investigation.ts:1460-1507 | accepts exactly the well-formed replies whose hypothesis is new and whose test ids are new and distinct |
| `Investigation.TestsAreFresh` | packages/graph/src/investigation.ts:1490-1504 | the growing seen set decides that the ids are distinct and none is taken |
| `InvestigationSafety.RunAccounts` | packages/graph/src/investigation.ts:1169-1279 | over any run four fields never change and five counters equal what the run did, event by event |
| `InvestigationSafety.EveryRunIsSafe` | packages/graph/src/investigation.ts:1516-1716 | from every accepted start and over every run: the iteration bound with re-entries, the conserved challenge reserve, the round cap, and a sufficient end from zero rounds has executed its challenge |
| `InvestigationSafety.EndsOnlyByConfirm` | packages/graph/src/investigation.ts:1718-1853 | a step that ends a run under human review is a confirm of the interrupt it waits on |
| `InvestigationSafety.EndedMeansConfirmed` | packages/graph/src/investigation.ts:1942-1946 | a run under human review that has ended contains that confirm, at a state waiting for it |
| `InvestigationSafety.AdditionsAreNew` | packages/graph/src/investigation.ts:864-890 | a hypothesis the challenge or a human adds is appended and never replaces one |
| `InvestigationSafety.StaleControlGoesNowhere` | packages/graph/src/investigation.ts:1368-1417 | a thread whose stored versions this graph does not read never advances again |
| `InvestigationRouting.ConcludesAsEarned` | packages/graph/src/investigation.ts:1516-1612 | a thread moves to its conclusion exactly when a check earned it a stop, told from the decision and the counters: round cap ambiguous, spent reserve or budget budget-exhausted, sufficient only after a challenge; and it takes that stop along |
| `InvestigationRouting.PlansAgain` | packages/graph/src/investigation.ts:1577-1605 | the check plans again exactly when more evidence is asked for within both budgets, with the stop cleared |
| `InvestigationRouting.ChallengesTarget` | packages/graph/src/investigation.ts:1527-1555 | the check challenges a hypothesis exactly when a challenge is called for, payable, below the round cap and of a hypothesis of the run |
| `InvestigationRouting.CheckLeadsNowhereElse` | packages/graph/src/investigation.ts:1557-1612 | any other step leaves the thread at its check, as it was |
| `InvestigationRouting.NodeMoves` | packages/graph/src/investigation.ts:1931-1946 | a lifecycle node that answers leads along the edge list, with what it returned merged and its calls counted |
| `InvestigationRouting.NodeMovesOnlySo` | packages/graph/src/investigation.ts:1169-1279 | a step that leaves a lifecycle node is such an answer: readable versions and counters, declared calls a safe integer, an interactive first node on its thread |
| `InvestigationRouting.ChallengeMoves` | packages/graph/src/investigation.ts:1614-1716 | an acceptable challenge leads to execution: one round and one reserve spent, both inline calls counted, its hypothesis and its tests merged |
| `InvestigationRouting.ChallengeMovesOnlySo` | packages/graph/src/investigation.ts:1614-1716 | a step that leaves the challenge is one of those |
| `InvestigationRouting.ReviewMoves` | packages/graph/src/investigation.ts:1718-1853 | a review is left exactly by an answer to the interrupt it waits on: confirm ends with the stop kept, reject generates again and an added new hypothesis derives again with it cleared |
| `InvestigationRouting.PausesForReview` | packages/graph/src/investigation.ts:1718-1806 | a thread comes to wait exactly when its review pauses it on readable control and its own thread |
| `InvestigationRouting.RunsAgain` | packages/graph/src/investigation.ts:1949-2000 | a stopped thread runs again exactly when it is called again before its end with versions this graph reads |
| `InvestigationRouting.StayingChangesNothing` | packages/graph/src/investigation.ts:1516-1853 | a step that moves nowhere changes nothing but whether and for what the thread waits |
| `InvestigationRouting.RunEndsAsEarned` | packages/graph/src/investigation.ts:1516-1853 | an ended run ends with the stop its last check earned, and has been concluding with it ever since |
| `InvestigationBounds.InvocationTerminates` | packages/graph/src/investigation.ts:1931-1947 | a measure bounds the effective steps of one invocation from every state, for any node functions |
| `InvestigationBounds.RunningIsNotStuck` | packages/graph/src/investigation.ts:1931-1947 | a running thread always has an event that moves it, so an invocation ends, throws or waits |
| `InvestigationBounds.RoleRunsBounded` | packages/graph/src/investigation.ts:1527-1716 | the four roles execute at most 1 + max(1, loop-backs both budgets allow) + 2 for each payable challenge round + 1 times; never from a start past the round cap, once when the iteration counter cannot grow |
| `InvestigationCeiling.BoundIsReached` | packages/graph/src/investigation.ts:1527-1716 | that bound is exact: from every accepted start some invocation reaches it, concluding wherever one can |
| `InvestigationCeiling.CeilingSoundness` | packages/evals/src/live-model-lane.ts:110-127 | the published per-run ceiling holds if and only if the policy has an iteration or a reserve of three |
| `CanonicalJson.CanonicalJsonMeaning` | packages/domain/src/execution.ts:40-108 | succeeds exactly on values that unfold to a finite JSON document, with its normal form; refuses exactly when a cycle or a non-JSON value is reachable, and for one of the kind its exception names |
| `CanonicalJson.NormalFormDecides` | packages/domain/src/execution.ts:40-87 | two documents have one normal form if and only if they differ only in key order |
| `CanonicalJson.CanonicalJsonLaws` | packages/domain/src/execution.ts:40-108 | the same for two values in two heaps, and a canonical value is a fixed point |
| `CanonicalJson.Canonicalizer.CanonicalizeValue` | packages/domain/src/execution.ts:40-87 | the walk with its ancestor set: it restores the set on every way out, and nests no deeper than what it returns |
| `CanonicalJson.Canonicalizer.CanonicalizeChildren` | packages/domain/src/execution.ts:55-86 | the element and key loops stop at the first refusal |
| `KeyOrder.SortedListsDecide` | packages/domain/src/execution.ts:74-86 | sorting by key forgets exactly the order of the entries |
| `KeyOrder.KeyLessAtDifference` | packages/domain/src/execution.ts:74-86 | keys are ordered by the code unit at their first difference, a prefix first |
| `BoundedJson.BoundedJsonViolation` | packages/domain/src/bounded-json.ts:55-108 | undefined exactly for a finite JSON document within both bounds, cyclic inputs included, and the stack never outgrows the node budget |
| `BoundedJson.Visit` | packages/domain/src/bounded-json.ts:62-104 | one turn of the loop, with its order of refusals |
| `BoundedJson.FittingIsAccepted` | packages/domain/src/bounded-json.ts:55-108 | a stack whose values fit the remaining depth and nodes is accepted |
| `BoundedJson.AcceptedFits` | packages/domain/src/bounded-json.ts:55-108 | an accepted stack can be rebuilt into documents within both bounds |
| `BoundedJson.ViolationIsReal` | packages/domain/src/bounded-json.ts:55-108 | each violation names what the value holds: a non-finite number, something that is not JSON, a hole, a non-plain object, a path past the depth, or a document with more nodes than the limit |
| `BoundedJson.MemoryIsBounded` | packages/domain/src/bounded-json.ts:55-108 | after any number of turns, on any input, visited plus waiting is within the node budget |
| `BoundedJson.AcceptedIsCanonicalizable` | packages/domain/src/execution.ts:40-108 | canonicalJson succeeds on an accepted value, with a result within the same depth |
| `BoundedJson.CanonicalizeAccepted` | packages/domain/src/execution.ts:40-108 | and its deepest chain of nested calls is at most maxDepth + 1 |
| `OwnValueSerde.Restorer.RestoreDeclared` | packages/persistence/src/own-value-serde.ts:236-322 | the walk with its shared node budget leaves the heap its specification gives |
| `OwnValueSerde.Restorer.RestoreEach` | packages/persistence/src/own-value-serde.ts:270-322 | the index and key loops stop at the first failure, with the repairs made so far in place |
| `OwnValueSerde.Restorer.RestoreSlot` | packages/persistence/src/own-value-serde.ts:147-235 | one slot: absent, accessor, equal, diverged or frozen leaf, and the container cases |
| `OwnValueSerde.RestoreFollowsPlan` | packages/persistence/src/own-value-serde.ts:147-322 | on a load where no slot a repair will change is read to find the way, container slots and the own lg_name of a snapshot alike, the interleaved walk is a plan read off the loaded heap, then executed |
| `OwnValueSerde.TreeLoadIsSeparate` | packages/persistence/src/own-value-serde.ts:147-322 | a load that visits no object twice is separate, and its declared leaves agree |
| `OwnValueSerde.ExecuteFailsClosed` | packages/persistence/src/own-value-serde.ts:147-322 | the walk returns exactly when both bounds hold, every container is verifiable and every diverged slot can be overwritten |
| `OwnValueSerde.RestoreDeclaredMeaning` | packages/persistence/src/own-value-serde.ts:147-322 | for every separate load whose paths agree, shared objects included: every data slot the plan repairs holds its leaf, nothing else changed, an honest load is untouched and a second pass changes nothing; `OwnValueReach` says which slots those are |
| `OwnValueSerde.UnaliasedLoadsAreRestored` | packages/persistence/src/own-value-serde.ts:147-322 | the same for every load that visits no object twice, whatever it does there |
| `OwnValueSerde.HonestLoadsAreUntouched` | packages/persistence/src/own-value-serde.ts:147-322 | a load that already holds every declared leaf is left alone by every walk, however its paths meet |
| `OwnValueSerde.MarkerRepairsRedirect` | packages/persistence/src/own-value-serde.ts:70-91 | a shared object whose lg_name is repaired under one key and read under another: the walk repairs a value it would not have, and in the other order a second walk changes what the first left |
| `OwnValueSerde.MarkerRepairIsNotSeparate` | packages/persistence/src/own-value-serde.ts:84-91 | that load is neither separate nor one that visits no object twice |
| `OwnValueReach.WalkedIsRuled` | packages/persistence/src/own-value-serde.ts:253-321 | the slots gone through at a node are those the rules name: each index an array pair shares, each key of a plain object that is no lc record, the value of a marked snapshot |
| `OwnValueReach.WalkedInOrder` | packages/persistence/src/own-value-serde.ts:259-321 | each once, in the order they are declared in |
| `OwnValueReach.PlanIsWhatIsReached` | packages/persistence/src/own-value-serde.ts:147-322 | a slot is read, repaired or refused if and only if a path of declared keys through containers leads to it |
| `OwnValueReach.PathsAreCounted` | packages/persistence/src/own-value-serde.ts:236-252 | one node is counted for each path that leads anywhere |
| `OwnValueReach.RestoredAsDeclared` | packages/persistence/src/own-value-serde.ts:147-322 | on every load it does not disturb itself on: the walk returns exactly when no path is past 64 levels, the paths are within 100000 nodes, no reached container is unverifiable and no slot to repair is frozen; then every reached data slot holds its declared leaf, every other slot is as it was and each path has been counted |
| `OwnValueReach.ThrowsAsDeclared` | packages/persistence/src/own-value-serde.ts:147-252 | what it throws is called for by something the declared tree reaches, the first such thing in its order |
| `OwnValueReach.UnaliasedIsUndisturbed` | packages/persistence/src/own-value-serde.ts:147-322 | a load in which no two paths lead to one object is one of those |
| `PredictionEvaluation.SummarizeObservation` | packages/domain/src/prediction-evaluation.ts:194-212 | the three match lists hold exactly the facts with each verdict |
| `PredictionEvaluation.DedupeByEvidence` | packages/domain/src/prediction-evaluation.ts:213-220 | one item for each evidence id that matched, none twice |
| `PredictionEvaluation.EvaluateSinglePrediction` | packages/domain/src/prediction-evaluation.ts:226-303 | the ordered reading of the lists is the verdict that the set of facts settles |
| `PredictionEvaluation.EvaluatePredictionObservations` | packages/domain/src/prediction-evaluation.ts:337-365 | outcomes and assessments are those of the set of qualifying evidence; fails exactly on an unreadable cut |
| `PredictionEvaluation.OnlyQualifyingEvidenceMatters` | packages/domain/src/prediction-evaluation.ts:337-365 | permuting, repeating or adding later evidence changes neither predictions nor the set of assessments |
| `PredictionEvaluation.DecidesIffAssesses` | packages/domain/src/prediction-evaluation.ts:311-365 | a prediction is decided by this evaluation if and only if it emits an assessment, and all of them have the matching effect |
| `PredictionEvaluation.RerunChangesNothing` | packages/domain/src/prediction-evaluation.ts:337-365 | run on its own output it returns it unchanged, with no assessments |
| `EvaluationMeaning.NormalizedSubject` | packages/domain/src/prediction-evaluation.ts:163-165 | normalising takes surrounding blanks away and makes capitals small, and does nothing else |
| `EvaluationMeaning.MatchingSays` | packages/domain/src/prediction-evaluation.ts:167-192 | what a fact says of an expectation, by form, subject, window, count, coverage and state: a zero count under partial coverage says nothing |
| `EvaluationMeaning.StatusByFacts` | packages/domain/src/prediction-evaluation.ts:226-303 | the status facts give an undecided prediction: confirmed, refuted by either case, or untestable, each exactly when |
| `EvaluationMeaning.AssessmentsByFacts` | packages/domain/src/prediction-evaluation.ts:304-330 | its assessments are one for each id of an item that says what decided, field by field |
| `EvaluationMeaning.EvaluatedByFacts` | packages/domain/src/prediction-evaluation.ts:163-365 | both over a whole evaluation, from the evidence list and the cut |
| `HypothesisStanding.CheckGrounds` | packages/domain/src/evaluation.ts:177-196 | names the first assessment whose evidence or prediction is not there, evidence before prediction |
| `HypothesisStanding.DeriveHypothesisStatus` | packages/domain/src/evaluation.ts:151-271 | fails exactly on an unknown version or an ungrounded assessment, else gives the status by precedence |
| `HypothesisStanding.DeriveHypothesisStanding` | packages/domain/src/hypothesis-standing.ts:74-107 | every status in order, and the leader is the first of best rank |
| `HypothesisStanding.OrderNeverMatters` | packages/domain/src/evaluation.ts:198-271 | status ignores the order and repetition of assessments and evidence |
| `HypothesisStanding.LeaderIgnoresOrder` | packages/domain/src/hypothesis-standing.ts:85-107 | so do the standings and the leader |
| `HypothesisStanding.SupportNeverHurts` | packages/domain/src/evaluation.ts:198-271 | one more supporting assessment never worsens the rank |
| `HypothesisStanding.ContradictionNeverHelps` | packages/domain/src/evaluation.ts:198-271 | one more contradicting assessment never improves it |
| `HypothesisStanding.ConfirmingNeverHurts` | packages/domain/src/evaluation.ts:198-271 | confirming an untested prediction never worsens the rank |
| `HypothesisStanding.RefutingNeverHelps` | packages/domain/src/evaluation.ts:198-271 | refuting one never improves it |
| `HypothesisStanding.VersionsDifferInOneReading` | packages/domain/src/status-rules.ts:54-127 | v0.1 is v0.2 with corroborated read as candidate |
| `StatusMeaning.StatusByFields` | packages/domain/src/evaluation.ts:198-271 | every status exactly: a medium or high contradiction weakens, two medium or high supports citing different evidence make supported with a confirmed prediction and, under v0.2 alone, corroborated without one; a contradiction on highly reliable evidence naming a refuted prediction rejects |
| `StatusMeaning.KnownVersions` | packages/domain/src/status-rules.ts:54-127 | two versions exist |
| `StatusMeaning.GroundedInTerms` | packages/domain/src/evaluation.ts:160-196 | grounded means it cites evidence, and a prediction of the hypothesis if any, that the state has |
| `StatusMeaning.RefusalByFields` | packages/domain/src/evaluation.ts:177-196 | the refusal is for the evidence when that is missing, else for the prediction |
| `StatusMeaning.LeaderByOrder` | packages/domain/src/hypothesis-standing.ts:55-107 | the leader comes before every earlier hypothesis and no later one before it, in the order supported, corroborated, candidate, weakened, rejected |
| `PredictionDerivation.DerivePredictions` | packages/domain/src/prediction-derivation.ts:132-166 | the nested loops compute the derivation, with the hypotheses they skip |
| `PredictionDerivation.DerivedMeaning` | packages/domain/src/prediction-derivation.ts:132-166 | one prediction for each template of each derivable hypothesis, and nothing else |
| `PredictionDerivation.DerivedByFields` | packages/domain/src/prediction-derivation.ts:128-166 | a prediction is derived if and only if a hypothesis without one names a component of 1 to 200 characters and a mechanism, and a template of it gives it field by field |
| `PredictionDerivation.DerivedInOrder` | packages/domain/src/prediction-derivation.ts:142-163 | hypotheses in their order |
| `PredictionDerivation.OneHypothesisInOrder` | packages/domain/src/prediction-derivation.ts:152-162 | and the templates of each in theirs |
| `PredictionDerivation.DerivedDistinct` | packages/domain/src/prediction-derivation.ts:121-166 | distinct hypotheses and template keys give distinct prediction ids |
| `PredictionDerivation.DerivingAgainIsNothing` | packages/domain/src/prediction-derivation.ts:132-166 | after its result is merged, deriving again yields nothing |
| `BeliefLoop.EvaluatePredictionsNode` | packages/graph/src/nodes/evaluate-predictions.ts:42-70 | the node hands over exactly the part of an evaluation that changed |
| `Reducers.OnlyChangesMatter` | packages/graph/src/nodes/evaluate-predictions.ts:52-68 | leaving out what did not change leaves the merge unchanged |
| `BeliefLoop.CitingIsSound` | packages/roles/src/investigation-roles.ts:645-690 | what the interpreting role lets through, with a predictionId or without one, refers only to what the state has |
| `BeliefLoop.StepKeepsInv` | packages/graph/src/nodes/evaluate-predictions.ts:42-70 | every step of the loop keeps channels distinct, every assessment grounded and every decided derived prediction accounted for |
| `BeliefLoop.StepAdds` | packages/domain/src/reducers.ts:3-23 | what each step adds to its own channel, the others left alone |
| `BeliefLoop.NothingIsTakenBack` | packages/domain/src/prediction-evaluation.ts:311-365 | over any run a decided prediction is never touched again and no rule's assessment is overwritten |
| `BeliefLoop.StatusIsAlwaysReadable` | packages/domain/src/evaluation.ts:177-196 | in every reachable state the status of every hypothesis can be read |
| `BeliefLoop.DecidedOnTheWay` | packages/domain/src/prediction-evaluation.ts:311-365 | over any run a prediction becomes decided only by a rule, whose assessment is then on the books |
| `BeliefLoop.RefutationIsForever` | packages/domain/src/evaluation.ts:198-225 | once a prediction is refuted its hypothesis is weakened or rejected at every later read, under both rule versions |
| `Planning.BuildRequest` | packages/domain/src/investigation-planning.ts:195-205 | a request exactly when the observation has every mapped field, filled from it |
| `Planning.PlanOne` | packages/domain/src/investigation-planning.ts:222-254 | one observation: unrouted, refused, unfillable and claimed requests plan nothing |
| `Planning.PlanInvestigation` | packages/domain/src/investigation-planning.ts:211-258 | the nested loops and the growing claimed set compute the plan; throws exactly on an input with no canonical form |
| `Planning.NewOnesAreFirstOccurrences` | packages/domain/src/investigation-planning.ts:211-258 | the plan is the first occurrences, in order, of the wanted requests no test carries |
| `Planning.PlanNeverRepeats` | packages/domain/src/investigation-planning.ts:211-258 | no request is planned twice or planned though a test carries it |
| `Planning.WantedByExpectation` | packages/domain/src/investigation-planning.ts:207-253 | a request is wanted for a prediction if and only if it is untested and an observation of its true or its false case has that request |
| `Planning.WantedInOrder` | packages/domain/src/investigation-planning.ts:207-222 | in order: by prediction, true case before false case, then position |
| `Planning.PlanByPlaces` | packages/domain/src/investigation-planning.ts:211-258 | the plan is one cheap planned test for each place that asks first for what no test carries, in that order, and nothing else |
| `Planning.RouteByTable` | packages/domain/src/investigation-planning.ts:223-238 | an observation is routed as the table says of its form, and of its signal where the form is routed by signal |
| `Planning.RequestByTable` | packages/domain/src/investigation-planning.ts:195-205 | a request has the route's tool and exactly the fields its mapping fills from the observation |
| `Planning.FieldsAreWritten` | packages/domain/src/contracts.ts:63-105 | the own properties of an observation, as they are written |
| `Planning.ValuesAreWritten` | packages/domain/src/contracts.ts:63-105 | and their enumerated values |
| `Planning.PlanCovers` | packages/domain/src/investigation-planning.ts:211-258 | afterwards some test carries the request of every expectation, of either case, of every untested prediction |
| `Planning.ReplanningIsNothing` | packages/domain/src/investigation-planning.ts:211-258 | planning over the merged tests plans nothing |
| `RouteVocabulary.EnsureAccumulator` | packages/domain/src/investigation-planning.ts:353-379 | refuses a second mapping of a tool, and the first unknown field of a new one |
| `RouteVocabulary.KnownFieldsByName` | packages/domain/src/investigation-planning.ts:280-280 | a mapping may read the subject, window, signal and log class, and nothing an observation expects |
| `RouteVocabulary.AddRoute` | packages/domain/src/investigation-planning.ts:381-396 | the accumulators keep track of exactly the entries reached so far |
| `RouteVocabulary.RouteRequestVocabulary` | packages/domain/src/investigation-planning.ts:349-438 | fails exactly on an unknown field or a tool with two mappings, at the first such entry; else one shape for each tool by first appearance |
| `RouteVocabulary.VocabularyIsExact` | packages/domain/src/investigation-planning.ts:211-438 | for a well-formed table the vocabulary names exactly the (tool, key, value) triples planning can form, in both directions |
| `RouteVocabulary.ShippedRoutesAreWellFormed` | packages/graph/src/investigation-routes.ts:85-112 | the shipped table is one the theorem covers |
| `FencedCheckpointer.Checkpointer.Guard` | packages/persistence/src/fenced-checkpointer.ts:59-62 | the fence, then the seam, as moves of the world |
| `FencedCheckpointer.Checkpointer.Recheck` | packages/persistence/src/fenced-checkpointer.ts:75-89 | swallows exactly a refusal that was recorded |
| `FencedCheckpointer.Checkpointer.Write` | packages/persistence/src/fenced-checkpointer.ts:91-96 | a call is a run of the machine among all other moves, and its outcome is the call's |
| `FencedCheckpointer.Checkpointer.AssertOwner` | packages/persistence/src/run-write-context.ts:151-162 | the fence query and the recording of a refusal, with the failure of either, a row that landed unseen included |
| `FencedCheckpointer.NoForkMeansOwned` | packages/persistence/src/fenced-checkpointer.ts:59-96 | a call that returned and recorded no fork was performed wholly under ownership |
| `FencedCheckpointer.ForkIsRecorded` | packages/persistence/src/fenced-checkpointer.ts:75-96 | a call that returned after landing while not owner has a recorded checkpoint_fork |
| `FencedCheckpointer.ForksAreReal` | packages/persistence/src/fenced-checkpointer.ts:75-96 | every recorded fork is of an attempt that has lost the run and has a write in the store |
| `FencedCheckpointer.RefusedNeverWrites` | packages/persistence/src/fenced-checkpointer.ts:59-62 | a call its guard refused never has a write in the inner store |
| `FencedCheckpointer.ReturnsTheAnswer` | packages/persistence/src/fenced-checkpointer.ts:91-96 | what a call returns is what the store answered for its own payload |
| `FencedCheckpointer.OwnerWrites` | packages/persistence/src/fenced-checkpointer.ts:59-96 | a worker that claims the run and is left alone writes, returns the store's answer and rejects nothing |
| `LastEventId.TextIsCanonical` | packages/domain/src/run-event-stream.ts:82-129 | the accepted strings are exactly the canonical decimals of 0..2147483647, read as the number each prints |
| `LastEventId.NumberIsItself` | packages/domain/src/run-event-stream.ts:114-118 | the accepted numbers are exactly the integers of that range |
| `LastEventId.TextAndNumberAgree` | packages/domain/src/run-event-stream.ts:114-129 | a number and its text are accepted alike and resume at the same place |
| `RunEventStream.ReadAfter` | packages/persistence/src/run-event-stream.ts:128-147 | fails exactly on an invalid id or limit, else the first rows after the id in order, as many as the limit allows |
| `RunEventStream.PageIsSlice` | packages/persistence/src/run-event-stream.ts:138-146 | on a gap-free log a page is the next slice of it |
| `RunEventStream.Tail` | packages/persistence/src/run-event-stream.ts:176-202 | delivers a gap-free prefix of the growing log after its start; unless aborted each poll brings an event or it has caught up |
| `RunEventStream.MoveKeepsInv` | packages/persistence/src/run-write-context.ts:229-261 | writers that lock the counter row keep the log gap-free and append-only through commits and aborts |
| `RunEventStream.SeenIsExact` | packages/persistence/src/run-event-stream.ts:176-202 | at every moment of every run, reconnects included, what a client has seen is a gap-free, duplicate-free, in-order prefix of the committed events after its start |
| `RunEventStream.NothingAppearsBehind` | packages/persistence/src/app-schema.ts:92-97 | no event is ever committed behind a reader |
| `RunEventStream.NeverStuck` | packages/persistence/src/run-event-stream.ts:128-202 | a client can always reconnect, and a poll behind the log brings events |
| `RunEventStream.NextEventArrives` | packages/persistence/src/run-event-stream.ts:176-202 | a waiting client behind the log is brought exactly the next event by a poll, a yield and a receive |
| `RunEventStream.LogIsWhatWasCommitted` | packages/persistence/src/run-write-context.ts:229-261 | the log changes by commits alone, each adding exactly what its transaction appended since it began, in order |
| `RunEventStream.ReadLimits` | packages/persistence/src/run-event-stream.ts:48-82 | 500 rows without a limit, else as many as asked and never more than 1000; anything but a positive integer is refused |
| `TrialEvidence.TrialEvidenceViolations` | packages/domain/src/trial-evidence-consistency.ts:38-75 | the two loops report exactly the violations the records commit |
| `TrialEvidence.NoViolationsMeansConsistent` | packages/domain/src/trial-evidence-consistency.ts:38-75 | none are committed if and only if trials and evidence name each other |
| `DurableRunner.Runner.CommittedOnce` | packages/persistence/src/run-write-context.ts:320-437 | peek, call and commit, each under the fence, as moves of the world |
| `DurableRunner.Runner.Invoke` | packages/graph/src/index.ts:187-318 | start and resume: a run of the machine whose answer is the process's |
| `DurableRunner.CommittedForever` | packages/persistence/src/run-write-context.ts:378-413 | a committed result is never replaced |
| `DurableRunner.RecordsByFields` | packages/graph/src/index.ts:193-257 | recordsOf throws exactly on a malformed part, on provenance inside the evidence or on malformed provenance, and its records are the job's and the answer's, field by field |
| `DurableRunner.CommitHolds` | packages/persistence/src/run-write-context.ts:378-413 | what a commit leaves committed and with its process, for every answer of its transaction |
| `DurableRunner.BudgetCountsTrials` | packages/graph/src/index.ts:106-115 | the budget used counts each trial id once |
| `DurableRunner.OnlyGoodResultsAreCommitted` | packages/graph/src/index.ts:258-287 | only what can be recorded is committed, and the projected rows are its trial and its evidence, field by field from the job and the answer |
| `DurableRunner.FinishesTheSame` | packages/graph/src/index.ts:106-115 | every process that finishes answers the same single trial and evidence, those of the job and the committed answer, budget one, no violation |
| `DurableRunner.NeverCalledAfterCommit` | packages/graph/src/index.ts:258-288 | over every run whose takeovers wait, overlapping processes included, the investigation is never called once its result is committed |
| `DurableRunner.OneAtATimeWaits` | packages/graph/src/index.ts:297-318 | a schedule that starts a process only when every earlier one has stopped is one whose takeovers wait |
| `DurableRunner.TakeoverIsSafeIffItWaits` | packages/persistence/src/run-write-context.ts:331-374 | while nothing is committed, a start makes a late call possible if and only if some process is between its question and its call |
| `DurableRunner.WaitingIsExact` | packages/graph/src/index.ts:258-288 | over a whole run: takeovers wait if and only if no late call can come from any of its worlds without a further start |
| `DurableRunner.LateCallersAreThoseWhoMay` | packages/persistence/src/run-write-context.ts:331-374 | while nothing is committed, a process can come to call late if and only if it has asked and not called, or holds the run and has yet to ask |
| `DurableRunner.LateCallersAskedBefore` | packages/persistence/src/run-write-context.ts:331-374 | whoever calls had asked, as owner, before the commit |
| `DurableRunner.OverlappingProcessesCanCallLate` | packages/persistence/src/run-write-context.ts:331-374 | for every answer recordsOf accepts there is a run from the start that commits it and then calls |
| `DurableRunner.ReplayFinishes` | packages/graph/src/index.ts:297-318 | from any reachable world with a committed result a fresh process finishes without calling |
| `DurableRunner.AloneFinishes` | packages/graph/src/index.ts:187-318 | from any reachable world without one, a process left alone with a good answer commits it, leaves a checkpoint and finishes |
| `DurableRunner.ResumeAnswersAtOnce` | packages/graph/src/index.ts:297-318 | once a process has finished, a resumed one answers the same without asking or calling |
| `Registry.CheckRegistry` | packages/domain/src/scope.ts:317-453 | the loops report exactly the issues the registry raises, and none if and only if it is sound |
| `Registry.CheckServices` | packages/domain/src/scope.ts:331-345 | duplicate names, and aliases listed twice or used by an earlier service |
| `Registry.CheckRefs` | packages/domain/src/scope.ts:359-391 | unknown environments, duplicate names and secrets shared between a writer and a reader |
| `Registry.FaultByFields` | packages/domain/src/scope.ts:392-451 | a reference is answered by the first thing wrong: no such credential, another environment's, or the other access |
| `Registry.NoIssueMeansSound` | packages/domain/src/scope.ts:317-453 | no issue is raised if and only if the order-free registry invariant holds |
| `Registry.ReadersAndWritersShareNoSecret` | packages/domain/src/scope.ts:379-451 | in an accepted registry a source binding and an action policy of one environment never name the same secret |
| `Registry.ScopeIsLinked` | packages/domain/src/scope.ts:475-485 | the primary-scope check accepts exactly the pairs the registry links, and each refusal means what it says |
| `OracleArm.OutcomeFromArmAnswer` | packages/evals/src/arm-answer.ts:90-138 | the loop over cited ids computes the projected outcome |
| `OracleArm.EvaluateStructuralRecord` | packages/evals/src/benchmark-evaluation.ts:664-756 | the metrics that apply, and only those, each with its evaluator's value; throws exactly without the structural root cause it needs |
| `OracleArm.OutcomeKeepsShown` | packages/evals/src/arm-answer.ts:90-138 | of an answer's evidence ids and readings the outcome keeps exactly those the fixture showed |
| `OracleArm.OutcomeByFields` | packages/evals/src/arm-answer.ts:90-138 | the rest of the outcome is the answer's, an id referenced once |
| `OracleArm.ScoresByFields` | packages/evals/src/benchmark-evaluation.ts:457-530 | every score from the outcome: the two shares as counts, stop and conclusion as expected, and each behaviour metric by the first of its checks that fails |
| `OracleArm.BehaviorByChecks` | packages/evals/src/behavior-evaluators.ts:294-463 | the ordered checks of each behaviour metric, with their reasons |
| `OracleArm.ThrowsByFields` | packages/evals/src/benchmark-evaluation.ts:664-756 | the evaluation throws exactly for a scored misleading-evidence metric without a structural root cause |
| `OracleArm.BestIsBest` | packages/evals/src/arm-answer.ts:52-59 | no outcome at all scores better than the best values |
| `OracleArm.OracleReachesTheOptimum` | packages/evals/src/oracle-arm.ts:94-204 | under both structural versions the oracle is best on every applicable metric if and only if the scenario is well formed |

## Left out

- CLI dispatch, LangSmith, model configuration, PostgreSQL and LangGraph's own scheduler: client plumbing, replaced by atomic steps.
- JavaScript prototypes, proxies, zod schema text and credential patterns: a slot is a data property, an accessor or absent; a schema check is whether a value has its type.
- JSON.stringify and byte encodings: two canonical texts are equal when the canonical documents are.
- JavaScript lists the integer-like keys of an object first whatever order they were added in; the canonical document here has its keys sorted by code unit throughout. Equality of canonical texts is not affected.
- `PredictionEvaluation.NormalizeSubject`: case folding and trimming are those of ASCII text.
- `Planning.PlanInvestigation`: a test's input is a record of strings, another JSON value or a value with no canonical form; the canonical form itself is `CanonicalJson`.
- `InvestigationBounds.RoleRunsBounded`: counts one invocation, the unit the ceiling is published for; a human's re-entries begin further ones.
- `BeliefLoop.RefutationIsForever`: leaves out a prediction that a role proposed as already refuted, which no rule's assessment stands behind.
- `BeliefLoop.StepKeepsInv`: the predictions a role proposes are new and have ids of their own. A model's assessments may have any id but that of a rule's assessment in the state, as packages/roles/src/investigation-roles.ts:645-690 checks; that the hypothesis named is one of the state, which it checks too, is not needed and not assumed.
- `OwnValueSerde.RestoreDeclaredMeaning`: says nothing of a load in which two declared paths meet in one data slot and declare different leaves for it, or in which a slot to be repaired is read as a container or as a snapshot's marker; `MarkerRepairsRedirect` shows why the last must be left out. The walk itself is modelled for every load.
- `OwnValueReach.RestoredAsDeclared`: leaves out the same loads, told from the declared paths (`Undisturbed`); no load without aliasing is among them.
- `OwnValueSerde.Restorer.RestoreDeclared`: what a prototype or a getter answers for lg_name stays the same through a walk, and loaded objects are ordinary ones, functions or arrays; a proxy, or a typed array that coerces what is defined on it, is not modelled.
- `DurableRunner.Runner.Invoke`: models the runner with its commit port; without one a resumed run calls the investigation again. A stored row is assumed untampered, so the result_sha check never fires.
- `RunEventStream.Tail`: the endless loop is run over the given number of polls; poll intervals and timers are not modelled.
- `OracleArm.OracleReachesTheOptimum`: the two structural evaluator versions; the fingerprint version 0.2 and the resource and experiment bookkeeping are not modelled. The structural truth of a scenario is a parameter, so a scenario missing from the table is not modelled.
- `Registry.CheckRegistry`: field schemas (slugs, secret names, configuration values) are checked before it and not modelled.
- Reconciling batch with incremental evaluation: decided predictions are final by design, so the two may differ.
- `evaluatePredictions` and `interpretResidualEvidence` of packages/domain/src/evaluation.ts: no node calls them; the loop's rules and its model assessments come from `evaluatePredictionObservations` and the interpreting role.
- Retention, incident store, final-evaluation files, prediction gap, regression gate, risk registry and proposed actions: each is one pass of independent checks over its argument, or leaves its guarantee to a database constraint, so what it promises is what its body says and nothing holds across its operations.
