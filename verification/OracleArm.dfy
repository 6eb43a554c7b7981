/**
  Can the structural evaluator's optimum be reached? packages/evals/src/oracle-arm.ts answers every scenario from its
  ground truth; arm-answer.ts projects the answer to an outcome, and benchmark-evaluation.ts and
  behavior-evaluators.ts score it.
 */
module OracleArm {
  import opened Wrappers
  import Contracts
  import PredictionEvaluation

  type Effect = Contracts.Effect

  // ---- Scenarios and answers --------------------------------------------------------------------------------------

  datatype Shown = Shown(id: string, kind: string, source: string, statement: string)
  datatype ToolResult = OkResult(output: seq<Shown>) | Refused
  type Fixture = seq<ToolResult>

  datatype RootCause = RootCause(component: string, mechanism: string)

  /** The accepted ground truth, as far as the structural evaluators read it; misleading says whether it lists any. */
  datatype GroundTruth = GroundTruth(hasRootCause: bool, hasMisleading: bool, expectedStopKind: string,
                                     expectedConclusionKind: string, expectedLeaderChange: Option<bool>)

  /** An entry of the structural ground truth. */
  datatype Truth = Truth(expectedEvidenceIds: seq<string>, misleadingEvidenceIds: Option<seq<string>>,
                         rootCause: Option<RootCause>)

  datatype Scenario = Scenario(id: string, groundTruth: GroundTruth, fixture: Fixture)

  datatype Reading = Reading(evidenceId: string, hypothesisId: string, effect: Effect)
  datatype CauseClaim = CauseClaim(hypothesisId: string, cause: RootCause, evidenceIds: seq<string>)
  datatype ArmAnswer = ArmAnswer(hypotheses: seq<(string, string)>, assessments: seq<Reading>, conclusionKind: string,
                                 causes: seq<CauseClaim>, stopKind: string)

  datatype ChallengeEffect = ChallengeEffect(executed: bool, invocations: int, leaderBefore: Option<string>,
                                             leaderAfter: Option<string>, statusBefore: Option<string>,
                                             statusAfter: Option<string>, discriminatingTrials: int)

  datatype Outcome = Outcome(claims: seq<seq<string>>, supportingEvidenceIds: seq<string>,
                             referencedEvidenceIds: seq<string>,
                             stopKind: string, conclusionKind: string, rootCause: Option<RootCause>,
                             rootCauseHypothesisId: Option<string>, assessments: seq<Reading>,
                             challengeEffect: Option<ChallengeEffect>)

  const MECHANISMS := {"deployment-regression", "connection-pool-exhaustion", "cache-stampede"}
  const NO_INCIDENT := "no-incident"

  function ShownOf(fixture: Fixture): seq<Shown> {
    if fixture == [] then [] else
    var last := fixture[|fixture| - 1];
    ShownOf(fixture[..|fixture| - 1]) + if last.OkResult? then last.output else []
  }

  function ShownIds(fixture: Fixture): set<string> {
    set e | e in ShownOf(fixture) :: e.id
  }

  // ---- From an answer to an outcome -------------------------------------------------------------------------------

  function CitedByCauses(causes: seq<CauseClaim>): seq<string> {
    if causes == [] then [] else CitedByCauses(causes[..|causes| - 1]) + causes[|causes| - 1].evidenceIds
  }

  function Cited(answer: ArmAnswer): seq<string> {
    CitedByCauses(answer.causes) + seq(|answer.assessments|, i requires 0 <= i < |answer.assessments| =>
                                         answer.assessments[i].evidenceId)
  }

  function Kept(ids: seq<string>, shown: set<string>): seq<string> {
    if ids == [] then [] else
    Kept(ids[..|ids| - 1], shown) + if ids[|ids| - 1] in shown then [ids[|ids| - 1]] else []
  }

  /** Each shown id once, in the order first cited. */
  function Referenced(ids: seq<string>, shown: set<string>): seq<string> {
    if ids == [] then [] else
    var rest, last := Referenced(ids[..|ids| - 1], shown), ids[|ids| - 1];
    if last in shown && last !in rest then rest + [last] else rest
  }

  function KeptReadings(readings: seq<Reading>, shown: set<string>): seq<Reading> {
    if readings == [] then [] else
    var last := readings[|readings| - 1];
    KeptReadings(readings[..|readings| - 1], shown) + if last.evidenceId in shown then [last] else []
  }

  function OutcomeOf(answer: ArmAnswer, fixture: Fixture, challengeEffect: Option<ChallengeEffect>): Outcome {
    var shown := ShownIds(fixture);
    Outcome(seq(|answer.causes|, i requires 0 <= i < |answer.causes| => answer.causes[i].evidenceIds),
            Kept(CitedByCauses(answer.causes), shown), Referenced(Cited(answer), shown),
            answer.stopKind, answer.conclusionKind,
            if answer.causes == [] then None else Some(answer.causes[0].cause),
            if answer.causes == [] then None else Some(answer.causes[0].hypothesisId),
            KeptReadings(answer.assessments, shown), challengeEffect)
  }

  /** The map from the id of shown evidence to the evidence. */
  method IndexShown(evidence: seq<Shown>) returns (shownById: map<string, Shown>)
    ensures shownById.Keys == set e | e in evidence :: e.id
  {
    shownById := map[];
    for i := 0 to |evidence|
      invariant shownById.Keys == set e | e in evidence[..i] :: e.id
    {
      assert evidence[..i + 1] == evidence[..i] + [evidence[i]];
      shownById := shownById[evidence[i].id := evidence[i]];
    }
    assert evidence[..|evidence|] == evidence;
  }

  /** The loop over the cited ids. */
  method CollectReferenced(cited: seq<string>, shownById: map<string, Shown>) returns (referenced: seq<string>)
    ensures referenced == Referenced(cited, shownById.Keys)
  {
    var seen: set<string> := {};
    referenced := [];
    for i := 0 to |cited|
      invariant referenced == Referenced(cited[..i], shownById.Keys)
      invariant seen == set id | id in referenced
    {
      assert cited[..i + 1][..i] == cited[..i];
      if cited[i] in shownById.Keys && cited[i] !in seen {
        seen, referenced := seen + {cited[i]}, referenced + [cited[i]];
      }
    }
    assert cited[..|cited|] == cited;
  }

  /** outcomeFromArmAnswer: the loop that grows referenced and seen. */
  method OutcomeFromArmAnswer(answer: ArmAnswer, fixture: Fixture, challengeEffect: Option<ChallengeEffect>)
    returns (outcome: Outcome)
    ensures outcome == OutcomeOf(answer, fixture, challengeEffect)
  {
    var shownById := IndexShown(ShownOf(fixture));
    var referenced := CollectReferenced(Cited(answer), shownById);
    var first := if answer.causes == [] then None else Some(answer.causes[0]);
    return Outcome(seq(|answer.causes|, i requires 0 <= i < |answer.causes| => answer.causes[i].evidenceIds),
                   Kept(CitedByCauses(answer.causes), shownById.Keys), referenced,
                   answer.stopKind, answer.conclusionKind,
                   if first.None? then None else Some(first.value.cause),
                   if first.None? then None else Some(first.value.hypothesisId),
                   KeptReadings(answer.assessments, shownById.Keys), challengeEffect);
  }

  // ---- The metrics ------------------------------------------------------------------------------------------------

  predicate Unsupported(evidenceIds: seq<string>, supporting: seq<string>) {
    !exists id :: id in evidenceIds && id in supporting
  }

  function UnsupportedCount(claims: seq<seq<string>>, supporting: seq<string>): (n: nat)
    ensures n <= |claims|
  {
    if claims == [] then 0 else
    UnsupportedCount(claims[..|claims| - 1], supporting)
    + if Unsupported(claims[|claims| - 1], supporting) then 1 else 0
  }

  function UnsupportedClaimRate(o: Outcome): real {
    if o.claims == [] then 0.0
    else UnsupportedCount(o.claims, o.supportingEvidenceIds) as real / |o.claims| as real
  }

  function CoveredCount(expected: seq<string>, referenced: seq<string>): (n: nat)
    ensures n <= |expected|
  {
    if expected == [] then 0 else
    CoveredCount(expected[..|expected| - 1], referenced) + if expected[|expected| - 1] in referenced then 1 else 0
  }

  function EvidenceCoverage(expected: seq<string>, referenced: seq<string>): real {
    if expected == [] then 1.0 else CoveredCount(expected, referenced) as real / |expected| as real
  }

  function TerminationCorrectness(g: GroundTruth, o: Outcome): real {
    if o.stopKind == g.expectedStopKind && o.conclusionKind == g.expectedConclusionKind then 1.0 else 0.0
  }

  datatype Version = V03 | V04
  datatype BehaviorKey = MisleadingEvidenceHandling | FalseAlertCorrectness | ChallengeEffectKey
  datatype Metric = Metric(version: Version, score: nat, reason: string)

  predicate ReferencesEvery(referenced: seq<string>, expected: seq<string>) {
    forall id :: id in expected ==> id in referenced
  }

  /** matchesRootCause; the claimed cause's component is read with trim().toLowerCase(). */
  predicate MatchesRootCause(truth: RootCause, claimed: Option<RootCause>) {
    && claimed.Some? && claimed.value.mechanism in MECHANISMS && claimed.value.mechanism == truth.mechanism
    && PredictionEvaluation.NormalizeSubject(claimed.value.component)
       == PredictionEvaluation.NormalizeSubject(truth.component)
  }

  function Misleading(truth: Truth): seq<string> {
    if truth.misleadingEvidenceIds.None? then [] else truth.misleadingEvidenceIds.value
  }

  predicate Reconciles(o: Outcome, evidenceId: string) {
    exists a :: a in o.assessments && a.evidenceId == evidenceId && Some(a.hypothesisId) == o.rootCauseHypothesisId
                && !a.effect.Supports?
  }

  function MisleadingHandling(truth: Truth, o: Outcome, version: Version): Metric
    requires truth.rootCause.Some?
  {
    if !ReferencesEvery(o.referencedEvidenceIds, Misleading(truth)) then
      Metric(version, 0, "misleading-evidence-not-investigated")
    else if !ReferencesEvery(o.referencedEvidenceIds, truth.expectedEvidenceIds) then
      Metric(version, 0, "expected-evidence-missing")
    else if !MatchesRootCause(truth.rootCause.value, o.rootCause) then Metric(version, 0, "root-cause-mismatch")
    else if o.rootCauseHypothesisId.Some? && forall id :: id in Misleading(truth) ==> Reconciles(o, id) then
      Metric(version, 1, "passed")
    else Metric(version, 0, "misleading-evidence-not-reconciled")
  }

  function FalseAlertOutcome(truth: Truth, g: GroundTruth, o: Outcome, version: Version): Metric {
    if o.stopKind != g.expectedStopKind then Metric(version, 0, "insufficient-investigation")
    else if !ReferencesEvery(o.referencedEvidenceIds, truth.expectedEvidenceIds) then
      Metric(version, 0, "expected-evidence-missing")
    else if o.conclusionKind != g.expectedConclusionKind then Metric(version, 0, "incorrect-outcome")
    else Metric(version, 1, "passed")
  }

  const NOT_CHALLENGED := ChallengeEffect(false, 0, None, None, None, None, 0)

  /** scoreChallengeEffect; version 0.4 also asks for an executed discriminating trial. */
  function ScoreChallengeEffect(expectedChange: bool, c: ChallengeEffect, version: Version): Metric {
    var leaderChanged := c.leaderBefore != c.leaderAfter;
    var statusChanged := c.statusBefore.Some? && c.statusAfter.Some? && c.statusBefore != c.statusAfter;
    if !c.executed || c.invocations < 1 then Metric(version, 0, "challenge-not-observed")
    else if c.leaderBefore.None? || c.leaderAfter.None? then Metric(version, 0, "leader-observation-missing")
    else if !leaderChanged && !statusChanged && c.discriminatingTrials <= 0 then
      Metric(version, 0, "no-investigation-change")
    else if version.V04? && c.discriminatingTrials <= 0 then Metric(version, 0, "no-discriminating-trial")
    else if leaderChanged != expectedChange then Metric(version, 0, "leader-change-mismatch")
    else Metric(version, 1, "passed")
  }

  datatype Evaluation = Evaluation(unsupportedClaimRate: real, evidenceCoverage: real, terminationCorrectness: real,
                                   behavior: map<BehaviorKey, Metric>)

  /** Which behaviour metrics a record has. */
  predicate Applies(g: GroundTruth, skipped: set<BehaviorKey>, key: BehaviorKey) {
    && key !in skipped
    && match key
       case MisleadingEvidenceHandling => g.hasRootCause && g.hasMisleading
       case FalseAlertCorrectness => g.expectedConclusionKind == NO_INCIDENT
       case ChallengeEffectKey => g.expectedLeaderChange.Some?
  }

  function BehaviorOf(truth: Truth, g: GroundTruth, o: Outcome, version: Version, key: BehaviorKey): Metric
    requires key.MisleadingEvidenceHandling? ==> truth.rootCause.Some?
    requires key.ChallengeEffectKey? ==> g.expectedLeaderChange.Some?
  {
    match key
    case MisleadingEvidenceHandling => MisleadingHandling(truth, o, version)
    case FalseAlertCorrectness => FalseAlertOutcome(truth, g, o, version)
    case ChallengeEffectKey =>
      ScoreChallengeEffect(g.expectedLeaderChange.value,
                           if o.challengeEffect.None? then NOT_CHALLENGED else o.challengeEffect.value, version)
  }

  /**
    The evaluation throws exactly when misleading evidence is to be scored and the structural truth has no root
    cause.
   */
  predicate Throws(truth: Truth, g: GroundTruth, skipped: set<BehaviorKey>) {
    Applies(g, skipped, MisleadingEvidenceHandling) && truth.rootCause.None?
  }

  ghost predicate IsEvaluation(e: Evaluation, truth: Truth, g: GroundTruth, o: Outcome, version: Version,
                               skipped: set<BehaviorKey>)
    requires !Throws(truth, g, skipped)
  {
    && e.unsupportedClaimRate == UnsupportedClaimRate(o)
    && e.evidenceCoverage == EvidenceCoverage(truth.expectedEvidenceIds, o.referencedEvidenceIds)
    && e.terminationCorrectness == TerminationCorrectness(g, o)
    && (forall key :: key in e.behavior <==> Applies(g, skipped, key))
    && forall key :: Applies(g, skipped, key) ==> e.behavior[key] == BehaviorOf(truth, g, o, version, key)
  }

  /** evaluateStructuralRecord: the metrics, written one by one. */
  method EvaluateStructuralRecord(truth: Truth, g: GroundTruth, o: Outcome, version: Version, skipped: set<BehaviorKey>)
    returns (r: Result<Evaluation, ()>)
    ensures r.Err? <==> Throws(truth, g, skipped)
    ensures r.Ok? ==> IsEvaluation(r.value, truth, g, o, version, skipped)
  {
    if Throws(truth, g, skipped) { return Err(()); }
    var behavior := EvaluateBehavior(truth, g, o, version, skipped);
    return Ok(Evaluation(UnsupportedClaimRate(o), EvidenceCoverage(truth.expectedEvidenceIds, o.referencedEvidenceIds),
                         TerminationCorrectness(g, o), behavior));
  }

  /** The behaviour metrics of evaluateStructuralRecord. */
  method EvaluateBehavior(truth: Truth, g: GroundTruth, o: Outcome, version: Version, skipped: set<BehaviorKey>)
    returns (behavior: map<BehaviorKey, Metric>)
    requires !Throws(truth, g, skipped)
    ensures forall key :: key in behavior <==> Applies(g, skipped, key)
    ensures forall key :: Applies(g, skipped, key) ==> behavior[key] == BehaviorOf(truth, g, o, version, key)
  {
    behavior := map[];
    if g.hasRootCause && g.hasMisleading && MisleadingEvidenceHandling !in skipped {
      behavior := behavior[MisleadingEvidenceHandling := MisleadingHandling(truth, o, version)];
    }
    if g.expectedConclusionKind == NO_INCIDENT && FalseAlertCorrectness !in skipped {
      behavior := behavior[FalseAlertCorrectness := FalseAlertOutcome(truth, g, o, version)];
    }
    if g.expectedLeaderChange.Some? && ChallengeEffectKey !in skipped {
      var observed := if o.challengeEffect.None? then NOT_CHALLENGED else o.challengeEffect.value;
      behavior := behavior[ChallengeEffectKey := ScoreChallengeEffect(g.expectedLeaderChange.value, observed, version)];
    }
  }

  // ---- The oracle -------------------------------------------------------------------------------------------------

  const ROOT_CAUSE_HYPOTHESIS := "oracle-root-cause"
  const INITIAL_LEADER_HYPOTHESIS := "oracle-initial-leader"
  const NO_ROOT_CAUSE_HYPOTHESIS := "oracle-reading"

  function Readings(ids: seq<string>, hypothesisId: string, effect: Effect): seq<Reading> {
    seq(|ids|, i requires 0 <= i < |ids| => Reading(ids[i], hypothesisId, effect))
  }

  /** oracleAnswerFor under a structural version: the structural truth, said as an answer. */
  function OracleAnswer(g: GroundTruth, truth: Truth): ArmAnswer {
    match truth.rootCause
    case Some(cause) =>
      ArmAnswer((if g.expectedLeaderChange == Some(true)
                 then [(INITIAL_LEADER_HYPOTHESIS, "the leader before the challenge")]
                 else []) + [(ROOT_CAUSE_HYPOTHESIS, cause.component + ": " + cause.mechanism)],
                Readings(truth.expectedEvidenceIds, ROOT_CAUSE_HYPOTHESIS, Contracts.Supports)
                + Readings(Misleading(truth), ROOT_CAUSE_HYPOTHESIS, Contracts.Contradicts),
                g.expectedConclusionKind, [CauseClaim(ROOT_CAUSE_HYPOTHESIS, cause, truth.expectedEvidenceIds)],
                g.expectedStopKind)
    case None =>
      ArmAnswer([(NO_ROOT_CAUSE_HYPOTHESIS, "what the evidence says about an incident")],
                Readings(truth.expectedEvidenceIds, NO_ROOT_CAUSE_HYPOTHESIS,
                         if g.expectedConclusionKind == NO_INCIDENT then Contracts.Contradicts else Contracts.Supports),
                g.expectedConclusionKind, [], g.expectedStopKind)
  }

  function OracleChallenge(g: GroundTruth): Option<ChallengeEffect> {
    match g.expectedLeaderChange
    case None => None
    case Some(changes) =>
      Some(ChallengeEffect(true, 1, Some(if changes then INITIAL_LEADER_HYPOTHESIS else ROOT_CAUSE_HYPOTHESIS),
                           Some(ROOT_CAUSE_HYPOTHESIS), None, None, 1))
  }

  function OracleOutcome(g: GroundTruth, truth: Truth, fixture: Fixture): Outcome {
    OutcomeOf(OracleAnswer(g, truth), fixture, OracleChallenge(g))
  }

  // ---- What the metrics count -------------------------------------------------------------------------------------

  lemma {:induction false} ReferencedMeaning(ids: seq<string>, shown: set<string>, id: string)
    ensures id in Referenced(ids, shown) <==> id in ids && id in shown
  {
    if ids != [] {
      ReferencedMeaning(ids[..|ids| - 1], shown, id);
      assert ids == ids[..|ids| - 1] + [ids[|ids| - 1]];
    }
  }

  lemma {:induction false} KeptMeaning(ids: seq<string>, shown: set<string>, id: string)
    ensures id in Kept(ids, shown) <==> id in ids && id in shown
  {
    if ids != [] {
      KeptMeaning(ids[..|ids| - 1], shown, id);
      assert ids == ids[..|ids| - 1] + [ids[|ids| - 1]];
    }
  }

  lemma {:induction false} KeptReadingsMeaning(readings: seq<Reading>, shown: set<string>, a: Reading)
    ensures a in KeptReadings(readings, shown) <==> a in readings && a.evidenceId in shown
  {
    if readings != [] {
      KeptReadingsMeaning(readings[..|readings| - 1], shown, a);
      assert readings == readings[..|readings| - 1] + [readings[|readings| - 1]];
    }
  }

  lemma {:induction false} FullyCovered(expected: seq<string>, referenced: seq<string>)
    ensures CoveredCount(expected, referenced) == |expected| <==> ReferencesEvery(referenced, expected)
  {
    if expected != [] {
      var n := |expected| - 1;
      FullyCovered(expected[..n], referenced);
      assert expected == expected[..n] + [expected[n]];
    }
  }

  lemma RatioIsOne(n: nat, d: nat)
    requires d > 0
    ensures n as real / d as real == 1.0 <==> n == d
    ensures n <= d ==> 0.0 <= n as real / d as real <= 1.0
  {
    var q := n as real / d as real;
    assert q * d as real == n as real;
    assert q > 1.0 ==> q * d as real > d as real;
  }

  lemma CoverageIsFull(expected: seq<string>, referenced: seq<string>)
    ensures EvidenceCoverage(expected, referenced) == 1.0 <==> ReferencesEvery(referenced, expected)
    ensures EvidenceCoverage(expected, referenced) <= 1.0
  {
    if expected != [] {
      FullyCovered(expected, referenced);
      RatioIsOne(CoveredCount(expected, referenced), |expected|);
    }
  }

  // ---- The scores, told from the outcome --------------------------------------------------------------------------

  /** The claims none of whose evidence supports anything. */
  function UnsupportedClaims(claims: seq<seq<string>>, supporting: seq<string>): set<nat> {
    set i: nat | i < |claims| && forall id :: id in claims[i] ==> id !in supporting
  }

  lemma {:induction false} UnsupportedAreCounted(claims: seq<seq<string>>, supporting: seq<string>)
    ensures UnsupportedCount(claims, supporting) == |UnsupportedClaims(claims, supporting)|
    decreases |claims|
  {
    if claims != [] {
      var n := |claims| - 1;
      UnsupportedAreCounted(claims[..n], supporting);
      var before := UnsupportedClaims(claims[..n], supporting);
      assert UnsupportedClaims(claims, supporting)
             == if Unsupported(claims[n], supporting) then before + {n} else before;
    }
  }

  /** The expected pieces of evidence that are referenced. */
  function ReferencedOnes(expected: seq<string>, referenced: seq<string>): set<nat> {
    set i: nat | i < |expected| && expected[i] in referenced
  }

  lemma {:induction false} ReferencedAreCounted(expected: seq<string>, referenced: seq<string>)
    ensures CoveredCount(expected, referenced) == |ReferencedOnes(expected, referenced)|
    decreases |expected|
  {
    if expected != [] {
      var n := |expected| - 1;
      ReferencedAreCounted(expected[..n], referenced);
      var before := ReferencedOnes(expected[..n], referenced);
      assert ReferencedOnes(expected, referenced) == if expected[n] in referenced then before + {n} else before;
    }
  }

  /** The metric passes when every check holds, and else fails with the reason of the first that does not. */
  predicate GradedBy(m: Metric, checks: seq<(bool, string)>) {
    if checks == [] then m.score == 1 && m.reason == "passed"
    else if checks[0].0 then GradedBy(m, checks[1..])
    else m.score == 0 && m.reason == checks[0].1
  }

  predicate Includes(ids: seq<string>, wanted: seq<string>) {
    forall i :: 0 <= i < |wanted| ==> wanted[i] in ids
  }

  lemma IncludesIsReferences(ids: seq<string>, wanted: seq<string>)
    ensures Includes(ids, wanted) <==> ReferencesEvery(ids, wanted)
  {}

  /** The claimed cause has the true mechanism, a known one, and the true component but for blanks and capitals. */
  predicate NamesCause(o: Outcome, cause: RootCause) {
    && o.rootCause.Some? && o.rootCause.value.mechanism == cause.mechanism
    && cause.mechanism in {"deployment-regression", "connection-pool-exhaustion", "cache-stampede"}
    && PredictionEvaluation.NormalizeSubject(o.rootCause.value.component)
       == PredictionEvaluation.NormalizeSubject(cause.component)
  }

  /** Every misleading piece is read against, or as saying nothing of, the hypothesis of the claimed cause. */
  predicate ReadsAgainst(o: Outcome, misleading: seq<string>) {
    && o.rootCauseHypothesisId.Some?
    && forall id :: id in misleading ==>
         exists a :: a in o.assessments && a.evidenceId == id && a.hypothesisId == o.rootCauseHypothesisId.value
                     && (a.effect == Contracts.Contradicts || a.effect == Contracts.Neutral)
  }

  predicate LeaderChanged(c: ChallengeEffect) {
    c.leaderBefore != c.leaderAfter
  }

  predicate SomethingChanged(c: ChallengeEffect) {
    || LeaderChanged(c) || c.discriminatingTrials > 0
    || (c.statusBefore.Some? && c.statusAfter.Some? && c.statusBefore.value != c.statusAfter.value)
  }

  /** The checks of each behaviour metric, in the order they are made. */
  function Checks(truth: Truth, g: GroundTruth, o: Outcome, version: Version, key: BehaviorKey): seq<(bool, string)>
    requires key.MisleadingEvidenceHandling? ==> truth.rootCause.Some?
    requires key.ChallengeEffectKey? ==> g.expectedLeaderChange.Some?
  {
    match key
    case MisleadingEvidenceHandling =>
      var misleading := if truth.misleadingEvidenceIds.Some? then truth.misleadingEvidenceIds.value else [];
      [(Includes(o.referencedEvidenceIds, misleading), "misleading-evidence-not-investigated"),
       (Includes(o.referencedEvidenceIds, truth.expectedEvidenceIds), "expected-evidence-missing"),
       (NamesCause(o, truth.rootCause.value), "root-cause-mismatch"),
       (ReadsAgainst(o, misleading), "misleading-evidence-not-reconciled")]
    case FalseAlertCorrectness =>
      [(o.stopKind == g.expectedStopKind, "insufficient-investigation"),
       (Includes(o.referencedEvidenceIds, truth.expectedEvidenceIds), "expected-evidence-missing"),
       (o.conclusionKind == g.expectedConclusionKind, "incorrect-outcome")]
    case ChallengeEffectKey =>
      if o.challengeEffect.None? then [(false, "challenge-not-observed")] else
      var c := o.challengeEffect.value;
      [(c.executed && c.invocations >= 1, "challenge-not-observed"),
       (c.leaderBefore.Some? && c.leaderAfter.Some?, "leader-observation-missing"),
       (SomethingChanged(c), "no-investigation-change"),
       (version == V03 || c.discriminatingTrials > 0, "no-discriminating-trial"),
       (LeaderChanged(c) == g.expectedLeaderChange.value, "leader-change-mismatch")]
  }

  lemma GradedByThree(m: Metric, checks: seq<(bool, string)>)
    requires |checks| == 3
    ensures GradedBy(m, checks)
            <==> if !checks[0].0 then m.score == 0 && m.reason == checks[0].1
                 else if !checks[1].0 then m.score == 0 && m.reason == checks[1].1
                 else if !checks[2].0 then m.score == 0 && m.reason == checks[2].1
                 else m.score == 1 && m.reason == "passed"
  {
    var second, third := checks[1..], checks[1..][1..];
    assert second[0] == checks[1] && third[0] == checks[2] && third[1..] == [];
    assert GradedBy(m, third)
           <==> if third[0].0 then GradedBy(m, third[1..]) else m.score == 0 && m.reason == third[0].1;
    assert GradedBy(m, second)
           <==> if second[0].0 then GradedBy(m, third) else m.score == 0 && m.reason == second[0].1;
  }

  lemma GradedByMore(m: Metric, checks: seq<(bool, string)>)
    requires |checks| > 3
    ensures GradedBy(m, checks)
            <==> if !checks[0].0 then m.score == 0 && m.reason == checks[0].1 else GradedBy(m, checks[1..])
  {}

  lemma MisleadingByChecks(truth: Truth, g: GroundTruth, o: Outcome, version: Version)
    requires truth.rootCause.Some?
    ensures GradedBy(MisleadingHandling(truth, o, version), Checks(truth, g, o, version, MisleadingEvidenceHandling))
  {
    var m, checks := MisleadingHandling(truth, o, version), Checks(truth, g, o, version, MisleadingEvidenceHandling);
    IncludesIsReferences(o.referencedEvidenceIds, Misleading(truth));
    IncludesIsReferences(o.referencedEvidenceIds, truth.expectedEvidenceIds);
    assert NamesCause(o, truth.rootCause.value) <==> MatchesRootCause(truth.rootCause.value, o.rootCause);
    assert ReadsAgainst(o, Misleading(truth))
           <==> o.rootCauseHypothesisId.Some? && forall id :: id in Misleading(truth) ==> Reconciles(o, id);
    GradedByMore(m, checks);
    GradedByThree(m, checks[1..]);
  }

  lemma FalseAlertByChecks(truth: Truth, g: GroundTruth, o: Outcome, version: Version)
    ensures GradedBy(FalseAlertOutcome(truth, g, o, version), Checks(truth, g, o, version, FalseAlertCorrectness))
  {
    IncludesIsReferences(o.referencedEvidenceIds, truth.expectedEvidenceIds);
    GradedByThree(FalseAlertOutcome(truth, g, o, version), Checks(truth, g, o, version, FalseAlertCorrectness));
  }

  lemma ChallengeByChecks(truth: Truth, g: GroundTruth, o: Outcome, version: Version)
    requires g.expectedLeaderChange.Some?
    ensures GradedBy(BehaviorOf(truth, g, o, version, ChallengeEffectKey),
                     Checks(truth, g, o, version, ChallengeEffectKey))
  {
    var m, checks := BehaviorOf(truth, g, o, version, ChallengeEffectKey),
                     Checks(truth, g, o, version, ChallengeEffectKey);
    if o.challengeEffect.Some? {
      GradedByMore(m, checks);
      GradedByMore(m, checks[1..]);
      GradedByThree(m, checks[1..][1..]);
    }
  }

  /** The share of n in d, and this when there are none. */
  predicate IsShare(share: real, n: nat, d: nat, ofNone: real) {
    if d == 0 then share == ofNone else share == n as real / d as real
  }

  /** The rate is the share of claims nothing supports, none when there are no claims. */
  lemma RateByClaims(o: Outcome)
    ensures IsShare(UnsupportedClaimRate(o), |UnsupportedClaims(o.claims, o.supportingEvidenceIds)|, |o.claims|, 0.0)
  {
    UnsupportedAreCounted(o.claims, o.supportingEvidenceIds);
  }

  /** The coverage is the share of expected evidence that is referenced, all of it when there is none. */
  lemma CoverageByExpected(expected: seq<string>, referenced: seq<string>)
    ensures IsShare(EvidenceCoverage(expected, referenced), |ReferencedOnes(expected, referenced)|, |expected|, 1.0)
  {
    ReferencedAreCounted(expected, referenced);
  }

  /** Each behaviour metric is graded by its checks. */
  lemma BehaviorByChecks(truth: Truth, g: GroundTruth, o: Outcome, version: Version, key: BehaviorKey)
    requires key.MisleadingEvidenceHandling? ==> truth.rootCause.Some?
    requires key.ChallengeEffectKey? ==> g.expectedLeaderChange.Some?
    ensures GradedBy(BehaviorOf(truth, g, o, version, key), Checks(truth, g, o, version, key))
    ensures BehaviorOf(truth, g, o, version, key).version == version
  {
    match key
    case MisleadingEvidenceHandling => MisleadingByChecks(truth, g, o, version);
    case FalseAlertCorrectness => FalseAlertByChecks(truth, g, o, version);
    case ChallengeEffectKey => ChallengeByChecks(truth, g, o, version);
  }

  /** Which behaviour metrics there are is told from the accepted ground truth. */
  predicate IsScored(g: GroundTruth, skipped: set<BehaviorKey>, key: BehaviorKey) {
    && key !in skipped
    && (key == MisleadingEvidenceHandling ==> g.hasRootCause && g.hasMisleading)
    && (key == FalseAlertCorrectness ==> g.expectedConclusionKind == "no-incident")
    && (key == ChallengeEffectKey ==> g.expectedLeaderChange != None)
  }

  /** The scored behaviour metrics, and no others, are there under their version and graded by their checks. */
  ghost predicate BehaviorGraded(e: Evaluation, truth: Truth, g: GroundTruth, o: Outcome, version: Version,
                                 skipped: set<BehaviorKey>)
    requires !Throws(truth, g, skipped)
  {
    && (forall key :: key in e.behavior <==> IsScored(g, skipped, key))
    && forall key :: Applies(g, skipped, key) && key in e.behavior ==>
         e.behavior[key].version == version && GradedBy(e.behavior[key], Checks(truth, g, o, version, key))
  }

  lemma BehaviorIsGraded(e: Evaluation, truth: Truth, g: GroundTruth, o: Outcome, version: Version,
                         skipped: set<BehaviorKey>)
    requires !Throws(truth, g, skipped) && IsEvaluation(e, truth, g, o, version, skipped)
    ensures BehaviorGraded(e, truth, g, o, version, skipped)
  {
    forall key
      ensures Applies(g, skipped, key) <==> IsScored(g, skipped, key)
    {}
    forall key | Applies(g, skipped, key)
      ensures e.behavior[key].version == version
      ensures GradedBy(e.behavior[key], Checks(truth, g, o, version, key))
    {
      BehaviorByChecks(truth, g, o, version, key);
    }
  }

  /**
    Every score of an evaluation, told from the outcome: the share of claims nothing supports, the share of expected
    evidence that is referenced, whether the run stopped and concluded as expected, and each behaviour metric by the
    first of its checks that fails.
   */
  lemma ScoresByFields(e: Evaluation, truth: Truth, g: GroundTruth, o: Outcome, version: Version,
                       skipped: set<BehaviorKey>)
    requires !Throws(truth, g, skipped) && IsEvaluation(e, truth, g, o, version, skipped)
    ensures IsShare(e.unsupportedClaimRate, |UnsupportedClaims(o.claims, o.supportingEvidenceIds)|, |o.claims|, 0.0)
    ensures IsShare(e.evidenceCoverage, |ReferencedOnes(truth.expectedEvidenceIds, o.referencedEvidenceIds)|,
                    |truth.expectedEvidenceIds|, 1.0)
    ensures e.terminationCorrectness
            == if o.stopKind == g.expectedStopKind && o.conclusionKind == g.expectedConclusionKind then 1.0 else 0.0
    ensures BehaviorGraded(e, truth, g, o, version, skipped)
  {
    RateByClaims(o);
    CoverageByExpected(truth.expectedEvidenceIds, o.referencedEvidenceIds);
    BehaviorIsGraded(e, truth, g, o, version, skipped);
  }

  /** The evaluation throws for a scored misleading-evidence metric whose structural truth names no cause. */
  lemma ThrowsByFields(truth: Truth, g: GroundTruth, skipped: set<BehaviorKey>)
    ensures Throws(truth, g, skipped)
            <==> MisleadingEvidenceHandling !in skipped && g.hasRootCause && g.hasMisleading && truth.rootCause == None
  {}

  // ---- The outcome, told from the answer --------------------------------------------------------------------------

  predicate IsShown(fixture: Fixture, id: string) {
    exists i :: 0 <= i < |fixture| && fixture[i].OkResult? && exists e :: e in fixture[i].output && e.id == id
  }

  lemma {:induction false} ShownByFixture(fixture: Fixture, id: string)
    ensures id in ShownIds(fixture) <==> IsShown(fixture, id)
    decreases |fixture|
  {
    if fixture != [] {
      var n := |fixture| - 1;
      ShownByFixture(fixture[..n], id);
      assert id in ShownIds(fixture)
             <==> || id in ShownIds(fixture[..n])
                  || (fixture[n].OkResult? && exists e :: e in fixture[n].output && e.id == id);
      assert IsShown(fixture[..n], id) ==> IsShown(fixture, id) by {
        assert forall i :: 0 <= i < n ==> fixture[..n][i] == fixture[i];
      }
    }
  }

  predicate CauseCites(answer: ArmAnswer, id: string) {
    exists c :: c in answer.causes && id in c.evidenceIds
  }

  lemma {:induction false} CitedByCausesMeaning(causes: seq<CauseClaim>, id: string)
    ensures id in CitedByCauses(causes) <==> exists c :: c in causes && id in c.evidenceIds
    decreases |causes|
  {
    if causes != [] {
      var n := |causes| - 1;
      CitedByCausesMeaning(causes[..n], id);
      assert causes == causes[..n] + [causes[n]];
    }
  }

  predicate NoRepeats(ids: seq<string>) {
    forall i, j :: 0 <= i < j < |ids| ==> ids[i] != ids[j]
  }

  lemma {:induction false} ReferencedOnce(ids: seq<string>, shown: set<string>)
    ensures NoRepeats(Referenced(ids, shown))
    decreases |ids|
  {
    if ids != [] {
      ReferencedOnce(ids[..|ids| - 1], shown);
      var rest := Referenced(ids[..|ids| - 1], shown);
      assert forall i :: 0 <= i < |rest| ==> rest[i] in rest;
    }
  }

  /** Of the answer's evidence ids and readings the outcome keeps those the fixture showed. */
  lemma OutcomeKeepsShown(answer: ArmAnswer, fixture: Fixture, challengeEffect: Option<ChallengeEffect>, id: string)
    ensures var o := OutcomeOf(answer, fixture, challengeEffect);
            && (id in o.supportingEvidenceIds <==> IsShown(fixture, id) && CauseCites(answer, id))
            && (id in o.referencedEvidenceIds <==>
                  IsShown(fixture, id)
                  && (CauseCites(answer, id) || exists a :: a in answer.assessments && a.evidenceId == id))
            && forall a: Reading :: a.evidenceId == id ==>
                 (a in o.assessments <==> a in answer.assessments && IsShown(fixture, id))
  {
    var shown := ShownIds(fixture);
    ShownByFixture(fixture, id);
    CitedByCausesMeaning(answer.causes, id);
    CitedMeaning(answer, id);
    KeptMeaning(CitedByCauses(answer.causes), shown, id);
    ReferencedMeaning(Cited(answer), shown, id);
    forall a: Reading | a.evidenceId == id
      ensures a in KeptReadings(answer.assessments, shown) <==> a in answer.assessments && id in shown
    {
      KeptReadingsMeaning(answer.assessments, shown, a);
    }
  }

  /** The rest of an outcome is the answer's: its claims, its first cause and its kinds; an id is referenced once. */
  lemma OutcomeByFields(answer: ArmAnswer, fixture: Fixture, challengeEffect: Option<ChallengeEffect>)
    ensures var o := OutcomeOf(answer, fixture, challengeEffect);
            && |o.claims| == |answer.causes|
            && (forall i :: 0 <= i < |o.claims| ==> o.claims[i] == answer.causes[i].evidenceIds)
            && NoRepeats(o.referencedEvidenceIds)
            && o.stopKind == answer.stopKind && o.conclusionKind == answer.conclusionKind
            && o.challengeEffect == challengeEffect
            && (o.rootCause.Some? <==> answer.causes != []) && (o.rootCauseHypothesisId.Some? <==> answer.causes != [])
            && (answer.causes != [] ==>
                  o.rootCause.value == answer.causes[0].cause
                  && o.rootCauseHypothesisId.value == answer.causes[0].hypothesisId)
  {
    ReferencedOnce(Cited(answer), ShownIds(fixture));
  }

  /** No answer at all does better than the best values. */
  lemma BestIsBest(e: Evaluation, truth: Truth, g: GroundTruth, o: Outcome, version: Version, skipped: set<BehaviorKey>)
    requires !Throws(truth, g, skipped) && IsEvaluation(e, truth, g, o, version, skipped)
    ensures 0.0 <= e.unsupportedClaimRate <= 1.0 && e.evidenceCoverage <= 1.0 && e.terminationCorrectness <= 1.0
    ensures forall key :: key in e.behavior ==> e.behavior[key].score <= 1
  {
    CoverageIsFull(truth.expectedEvidenceIds, o.referencedEvidenceIds);
    if o.claims != [] { RatioIsOne(UnsupportedCount(o.claims, o.supportingEvidenceIds), |o.claims|); }
  }

  // ---- The oracle reaches the optimum -----------------------------------------------------------------------------

  predicate AllShown(fixture: Fixture, ids: seq<string>) {
    forall id :: id in ids ==> id in ShownIds(fixture)
  }

  ghost predicate AllBest(e: Evaluation) {
    && e.unsupportedClaimRate == 0.0 && e.evidenceCoverage == 1.0 && e.terminationCorrectness == 1.0
    && forall key :: key in e.behavior ==> e.behavior[key].score == 1
  }

  /**
    The expected evidence is shown, a root cause has some, and where misleading evidence is scored there is a root cause
    with a known mechanism and the misleading evidence is shown.
   */
  predicate WellFormed(s: Scenario, truth: Truth, skipped: set<BehaviorKey>) {
    && AllShown(s.fixture, truth.expectedEvidenceIds)
    && (truth.rootCause.Some? ==> truth.expectedEvidenceIds != [])
    && (Applies(s.groundTruth, skipped, MisleadingEvidenceHandling) ==>
          && truth.rootCause.Some? && truth.rootCause.value.mechanism in MECHANISMS
          && AllShown(s.fixture, Misleading(truth)))
  }

  lemma ReadingsHold(ids: seq<string>, hypothesisId: string, effect: Effect)
    ensures forall id :: id in ids <==> Reading(id, hypothesisId, effect) in Readings(ids, hypothesisId, effect)
    ensures forall a :: a in Readings(ids, hypothesisId, effect) ==>
              a.evidenceId in ids && a.hypothesisId == hypothesisId && a.effect == effect
  {
    forall id | id in ids
      ensures Reading(id, hypothesisId, effect) in Readings(ids, hypothesisId, effect)
    {
      var i :| 0 <= i < |ids| && ids[i] == id;
      assert Readings(ids, hypothesisId, effect)[i] == Reading(id, hypothesisId, effect);
    }
  }

  lemma CitedMeaning(answer: ArmAnswer, id: string)
    ensures id in Cited(answer) <==>
              id in CitedByCauses(answer.causes) || exists a :: a in answer.assessments && a.evidenceId == id
  {
    var assessed := seq(|answer.assessments|, i requires 0 <= i < |answer.assessments| =>
                          answer.assessments[i].evidenceId);
    if exists a :: a in answer.assessments && a.evidenceId == id {
      var a :| a in answer.assessments && a.evidenceId == id;
      var i :| 0 <= i < |answer.assessments| && answer.assessments[i] == a;
      assert assessed[i] == id;
    }
    if id in assessed {
      var i :| 0 <= i < |assessed| && assessed[i] == id;
      assert answer.assessments[i] in answer.assessments;
    }
  }

  /**
    What the oracle's outcome refers to: the expected evidence that is shown, and the misleading beside a root cause.
   */
  lemma OracleRefersTo(s: Scenario, truth: Truth, id: string)
    ensures id in OracleOutcome(s.groundTruth, truth, s.fixture).referencedEvidenceIds <==>
              && id in ShownIds(s.fixture)
              && (id in truth.expectedEvidenceIds || (truth.rootCause.Some? && id in Misleading(truth)))
  {
    var answer := OracleAnswer(s.groundTruth, truth);
    ReferencedMeaning(Cited(answer), ShownIds(s.fixture), id);
    CitedMeaning(answer, id);
    match truth.rootCause
    case Some(cause) =>
      assert CitedByCauses(answer.causes) == truth.expectedEvidenceIds by {
        assert answer.causes[..0] == [];
      }
      ReadingsHold(truth.expectedEvidenceIds, ROOT_CAUSE_HYPOTHESIS, Contracts.Supports);
      ReadingsHold(Misleading(truth), ROOT_CAUSE_HYPOTHESIS, Contracts.Contradicts);
    case None =>
      var effect := if s.groundTruth.expectedConclusionKind == NO_INCIDENT then Contracts.Contradicts
                    else Contracts.Supports;
      ReadingsHold(truth.expectedEvidenceIds, NO_ROOT_CAUSE_HYPOTHESIS, effect);
  }

  lemma OracleReferences(s: Scenario, truth: Truth)
    ensures var o := OracleOutcome(s.groundTruth, truth, s.fixture);
            && (ReferencesEvery(o.referencedEvidenceIds, truth.expectedEvidenceIds)
                <==> AllShown(s.fixture, truth.expectedEvidenceIds))
            && (truth.rootCause.Some? ==>
                  (ReferencesEvery(o.referencedEvidenceIds, Misleading(truth))
                   <==> AllShown(s.fixture, Misleading(truth))))
  {
    forall id { OracleRefersTo(s, truth, id); }
  }

  lemma OracleClaims(s: Scenario, truth: Truth)
    requires AllShown(s.fixture, truth.expectedEvidenceIds)
    ensures UnsupportedClaimRate(OracleOutcome(s.groundTruth, truth, s.fixture)) == 0.0
            <==> (truth.rootCause.Some? ==> truth.expectedEvidenceIds != [])
  {
    var o := OracleOutcome(s.groundTruth, truth, s.fixture);
    if truth.rootCause.Some? {
      var causes := OracleAnswer(s.groundTruth, truth).causes;
      assert causes[..0] == [] && CitedByCauses(causes) == truth.expectedEvidenceIds;
      assert o.claims == [truth.expectedEvidenceIds] && o.claims[..0] == [];
      if truth.expectedEvidenceIds != [] {
        KeptMeaning(truth.expectedEvidenceIds, ShownIds(s.fixture), truth.expectedEvidenceIds[0]);
        assert truth.expectedEvidenceIds[0] in truth.expectedEvidenceIds;
      }
      assert UnsupportedCount(o.claims, o.supportingEvidenceIds)
             == if Unsupported(truth.expectedEvidenceIds, o.supportingEvidenceIds) then 1 else 0;
    }
  }

  lemma OracleReconciles(s: Scenario, truth: Truth, id: string)
    requires truth.rootCause.Some? && id in Misleading(truth) && id in ShownIds(s.fixture)
    ensures Reconciles(OracleOutcome(s.groundTruth, truth, s.fixture), id)
  {
    var answer := OracleAnswer(s.groundTruth, truth);
    var a := Reading(id, ROOT_CAUSE_HYPOTHESIS, Contracts.Contradicts);
    ReadingsHold(Misleading(truth), ROOT_CAUSE_HYPOTHESIS, Contracts.Contradicts);
    assert a in answer.assessments;
    KeptReadingsMeaning(answer.assessments, ShownIds(s.fixture), a);
  }

  lemma OracleHandlesMisleading(s: Scenario, truth: Truth, version: Version)
    requires truth.rootCause.Some?
    ensures MisleadingHandling(truth, OracleOutcome(s.groundTruth, truth, s.fixture), version).score == 1
            <==> && AllShown(s.fixture, truth.expectedEvidenceIds) && AllShown(s.fixture, Misleading(truth))
                 && truth.rootCause.value.mechanism in MECHANISMS
  {
    OracleReferences(s, truth);
    forall id | id in Misleading(truth) && id in ShownIds(s.fixture)
      ensures Reconciles(OracleOutcome(s.groundTruth, truth, s.fixture), id)
    {
      OracleReconciles(s, truth, id);
    }
  }

  lemma OracleIsChallenged(s: Scenario, truth: Truth, version: Version)
    requires s.groundTruth.expectedLeaderChange.Some?
    ensures BehaviorOf(truth, s.groundTruth, OracleOutcome(s.groundTruth, truth, s.fixture), version,
                       ChallengeEffectKey).score == 1
  {
    assert |ROOT_CAUSE_HYPOTHESIS| != |INITIAL_LEADER_HYPOTHESIS|;
  }

  lemma OracleAnswersFalseAlert(s: Scenario, truth: Truth, version: Version)
    ensures FalseAlertOutcome(truth, s.groundTruth, OracleOutcome(s.groundTruth, truth, s.fixture), version).score == 1
            <==> AllShown(s.fixture, truth.expectedEvidenceIds)
  {
    OracleReferences(s, truth);
  }

  /**
    Under both structural versions, for every scenario: the oracle's answer scores the best value on every metric that
    applies if and only if the scenario is well formed. An ill-formed one makes the evaluation throw or caps a metric.
   */
  lemma OracleReachesTheOptimum(s: Scenario, truth: Truth, version: Version, skipped: set<BehaviorKey>, e: Evaluation)
    requires !Throws(truth, s.groundTruth, skipped) ==>
               IsEvaluation(e, truth, s.groundTruth, OracleOutcome(s.groundTruth, truth, s.fixture), version, skipped)
    ensures !Throws(truth, s.groundTruth, skipped) && AllBest(e) <==> WellFormed(s, truth, skipped)
  {
    var g := s.groundTruth;
    var o := OracleOutcome(g, truth, s.fixture);
    if !Throws(truth, g, skipped) {
      CoverageIsFull(truth.expectedEvidenceIds, o.referencedEvidenceIds);
      OracleReferences(s, truth);
      if AllShown(s.fixture, truth.expectedEvidenceIds) { OracleClaims(s, truth); }
      forall key | Applies(g, skipped, key)
        ensures BehaviorOf(truth, g, o, version, key).score == 1 <==> BehaviorIsReachable(s, truth, key)
      {
        OracleBehaves(s, truth, version, key);
      }
      AllBehaviorIsReachable(s, truth, skipped);
    }
  }

  /** What a behaviour metric asks of the scenario for the oracle to pass it. */
  predicate BehaviorIsReachable(s: Scenario, truth: Truth, key: BehaviorKey) {
    match key
    case MisleadingEvidenceHandling =>
      && AllShown(s.fixture, truth.expectedEvidenceIds) && AllShown(s.fixture, Misleading(truth))
      && truth.rootCause.Some? && truth.rootCause.value.mechanism in MECHANISMS
    case FalseAlertCorrectness => AllShown(s.fixture, truth.expectedEvidenceIds)
    case ChallengeEffectKey => true
  }

  lemma OracleBehaves(s: Scenario, truth: Truth, version: Version, key: BehaviorKey)
    requires key.MisleadingEvidenceHandling? ==> truth.rootCause.Some?
    requires key.ChallengeEffectKey? ==> s.groundTruth.expectedLeaderChange.Some?
    ensures BehaviorOf(truth, s.groundTruth, OracleOutcome(s.groundTruth, truth, s.fixture), version, key).score == 1
            <==> BehaviorIsReachable(s, truth, key)
  {
    match key
    case MisleadingEvidenceHandling => OracleHandlesMisleading(s, truth, version);
    case FalseAlertCorrectness => OracleAnswersFalseAlert(s, truth, version);
    case ChallengeEffectKey => OracleIsChallenged(s, truth, version);
  }

  lemma AllBehaviorIsReachable(s: Scenario, truth: Truth, skipped: set<BehaviorKey>)
    ensures WellFormed(s, truth, skipped) <==>
              && AllShown(s.fixture, truth.expectedEvidenceIds)
              && (truth.rootCause.Some? ==> truth.expectedEvidenceIds != [])
              && forall key :: Applies(s.groundTruth, skipped, key) ==> BehaviorIsReachable(s, truth, key)
  {}
}
