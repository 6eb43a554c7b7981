/**
  The belief pipeline as a loop over the merged channels: hypotheses arrive, predictions are derived, evidence is
  ingested, predictions are evaluated and read by a model, in any order and any number of times.

  packages/graph/src/nodes/derive-predictions.ts and evaluate-predictions.ts call the domain functions and hand their
  updates to the reducers of packages/domain/src/reducers.ts.
 */
module BeliefLoop {
  import opened Wrappers
  import opened Contracts
  import opened Reducers
  import opened PredictionDerivation
  import opened PredictionEvaluation
  import opened HypothesisStanding

  datatype Loop = Loop(hypotheses: seq<Hypothesis>, beliefs: Beliefs)

  /**
    What one step merges. Hypotheses and evidence may replace earlier ones, and a model may reword its own assessments;
    the predictions it proposes have ids of their own.
     */
  datatype Step =
    | Hypothesize(hypotheses: seq<Hypothesis>)
    | Propose(proposed: seq<Prediction>)
    | Derive
    | Ingest(items: seq<Evidence>)
    | Evaluate(asOf: int, out: seq<Prediction>, assessments: seq<Assessment>)
    | Interpret(read: seq<Assessment>)

  const START := Loop([], Beliefs([], [], []))

  /** The assessment cites evidence of the state and, if it names a prediction, one of its hypothesis. */
  predicate Cites(b: Beliefs, a: Assessment) {
    && (exists e :: e in b.evidence && e.id == a.evidenceId)
    && (a.predictionId.Some? ==>
          exists p :: p in b.predictions && p.id == a.predictionId.value && p.hypothesisId == a.hypothesisId)
  }

  /** What the interpreting role lets through: it cites the state, and takes the id of no rule's assessment. */
  predicate Readable(b: Beliefs, a: Assessment) {
    && a.producedBy.Llm? && Cites(b, a)
    && forall r :: r in b.assessments && r.producedBy.Rule? ==> r.id != a.id
  }

  ghost predicate Permits(templates: TemplateSet, s: Loop, step: Step) {
    match step
    case Propose(proposed) =>
      && Distinct(Ids(PredictionId, proposed))
      && forall p :: p in proposed ==> p.id.Given? && LastIndex(PredictionId, s.beliefs.predictions, p.id) == -1
    case Evaluate(asOf, out, assessments) =>
      && Evaluated(s.beliefs.predictions, Qualifying(s.beliefs.evidence, asOf), asOf, out, assessments)
      && (Distinct(Ids(PredictionId, s.beliefs.predictions)) ==> Distinct(Ids(AssessmentId, assessments)))
    case Interpret(read) => forall a :: a in read ==> Readable(s.beliefs, a)
    case _ => true
  }

  function After(templates: TemplateSet, s: Loop, step: Step): Loop {
    var b := s.beliefs;
    match step
    case Hypothesize(hypotheses) => s.(hypotheses := Upsert(HypothesisId, s.hypotheses, hypotheses))
    case Propose(proposed) => s.(beliefs := b.(predictions := Upsert(PredictionId, b.predictions, proposed)))
    case Derive =>
      s.(beliefs := b.(predictions := Upsert(PredictionId, b.predictions,
                                             Derived(s.hypotheses, b.predictions, templates))))
    case Ingest(items) => s.(beliefs := b.(evidence := Upsert(EvidenceId, b.evidence, items)))
    case Evaluate(_, out, assessments) =>
      s.(beliefs := b.(
        predictions := Upsert(PredictionId, b.predictions, Changed(PredictionId, b.predictions, out)),
        assessments := Upsert(AssessmentId, b.assessments, Changed(AssessmentId, b.assessments, assessments))))
    case Interpret(read) => s.(beliefs := b.(assessments := Upsert(AssessmentId, b.assessments, read)))
  }

  /** The node of evaluate-predictions.ts: it hands over only what changed, and a step of the loop merges that. */
  method EvaluatePredictionsNode(b: Beliefs, asOf: Option<int>)
    returns (r: Result<(seq<Prediction>, seq<Assessment>), ()>, ghost out: seq<Prediction>, ghost all: seq<Assessment>)
    ensures r.Ok? <==> asOf.Some?
    ensures r.Ok? ==>
      && Evaluated(b.predictions, Qualifying(b.evidence, asOf.value), asOf.value, out, all)
      && (Distinct(Ids(PredictionId, b.predictions)) ==> Distinct(Ids(AssessmentId, all)))
      && r.value == (Changed(PredictionId, b.predictions, out), Changed(AssessmentId, b.assessments, all))
  {
    out, all := [], [];
    var evaluated := EvaluatePredictionObservations(b.predictions, b.evidence, asOf);
    if evaluated.Err? { return Err(()), out, all; }
    out, all := evaluated.value.0, evaluated.value.1;
    r := Ok((Changed(PredictionId, b.predictions, evaluated.value.0),
             Changed(AssessmentId, b.assessments, evaluated.value.1)));
  }

  // ---- Invariant --------------------------------------------------------------------------------------------------

  ghost predicate ChannelsDistinct(s: Loop) {
    && Distinct(Ids(HypothesisId, s.hypotheses))
    && Distinct(Ids(PredictionId, s.beliefs.predictions))
    && Distinct(Ids(AssessmentId, s.beliefs.assessments))
    && Distinct(Ids(EvidenceId, s.beliefs.evidence))
  }

  predicate IdFits(p: Prediction) {
    p.id.Given? || (p.id.PredictionOf? && p.id.hypothesisId == p.hypothesisId)
  }

  /** The assessment is about the k-th prediction. */
  predicate About(b: Beliefs, a: Assessment, k: int) {
    && 0 <= k < |b.predictions| && a.predictionId == Some(b.predictions[k].id)
    && a.hypothesisId == b.predictions[k].hypothesisId
  }

  /** It rests on the e-th evidence item. */
  predicate RestsOn(b: Beliefs, a: Assessment, e: int) {
    0 <= e < |b.evidence| && a.evidenceId == b.evidence[e].id
  }

  /** A rule's assessment says what its prediction was decided to be. */
  predicate RuleSays(b: Beliefs, a: Assessment, k: int)
    requires 0 <= k < |b.predictions|
  {
    && a.id == RuleAssessmentOf(b.predictions[k].id, a.evidenceId)
    && a.predictionId == Some(b.predictions[k].id) && a.hypothesisId == b.predictions[k].hypothesisId
    && Decided(b.predictions[k])
    && a.effect == (if b.predictions[k].status.Confirmed? then Supports else Contradicts) && a.strength == Medium
  }

  ghost predicate Sound(b: Beliefs, a: Assessment) {
    && (exists e :: RestsOn(b, a, e))
    && (a.predictionId.Some? ==> exists k :: About(b, a, k))
    && (a.producedBy.Rule? ==> exists k :: 0 <= k < |b.predictions| && RuleSays(b, a, k))
  }

  /** A derived prediction is decided only by a rule, and its assessment is on the books. */
  ghost predicate Accounted(b: Beliefs, k: int)
    requires 0 <= k < |b.predictions|
  {
    b.predictions[k].id.PredictionOf? && Decided(b.predictions[k]) ==>
      exists a :: a in b.assessments && a.producedBy.Rule? && RuleSays(b, a, k)
  }

  ghost predicate Inv(s: Loop) {
    && ChannelsDistinct(s)
    && (forall k :: 0 <= k < |s.beliefs.predictions| ==> IdFits(s.beliefs.predictions[k]) && Accounted(s.beliefs, k))
    && (forall a :: a in s.beliefs.assessments ==> Sound(s.beliefs, a))
  }

  /** Predictions keep place, id and hypothesis, and a decided one is left alone. */
  ghost predicate Keeps(ps: seq<Prediction>, ps': seq<Prediction>) {
    && |ps| <= |ps'|
    && forall k :: 0 <= k < |ps| ==>
         && ps'[k].id == ps[k].id && ps'[k].hypothesisId == ps[k].hypothesisId
         && (Decided(ps[k]) ==> ps'[k] == ps[k])
  }

  /** What no step takes back. */
  ghost predicate Advances(b: Beliefs, b': Beliefs) {
    && Keeps(b.predictions, b'.predictions)
    && (forall a :: a in b.assessments && a.producedBy.Rule? ==> a in b'.assessments)
    && |b.evidence| <= |b'.evidence|
    && (forall e :: 0 <= e < |b.evidence| ==> b'.evidence[e].id == b.evidence[e].id)
  }

  lemma AdvancesTransitively(b: Beliefs, b': Beliefs, b'': Beliefs)
    requires Advances(b, b') && Advances(b', b'')
    ensures Advances(b, b'')
  {}

  lemma AdvancesReflexively(b: Beliefs)
    ensures Advances(b, b)
  {}

  lemma AdvancingKeepsSound(b: Beliefs, b': Beliefs, a: Assessment)
    requires Advances(b, b') && Sound(b, a)
    ensures Sound(b', a)
  {
    var e :| RestsOn(b, a, e);
    assert RestsOn(b', a, e);
    if a.predictionId.Some? {
      var k :| About(b, a, k);
      assert About(b', a, k);
    }
    if a.producedBy.Rule? {
      var n :| 0 <= n < |b.predictions| && RuleSays(b, a, n);
      assert RuleSays(b', a, n);
    }
  }

  lemma AdvancingKeepsAccounted(b: Beliefs, b': Beliefs, k: int)
    requires Advances(b, b') && 0 <= k < |b.predictions| && Accounted(b, k)
    requires Decided(b.predictions[k])
    ensures Accounted(b', k)
  {
    if b.predictions[k].id.PredictionOf? {
      var a :| a in b.assessments && a.producedBy.Rule? && RuleSays(b, a, k);
      assert RuleSays(b', a, k);
    }
  }

  // ---- Every step keeps it ----------------------------------------------------------------------------------------

  lemma AppendingKeeps(ps: seq<Prediction>, more: seq<Prediction>)
    requires Distinct(Ids(PredictionId, more))
    requires forall p :: p in more ==> LastIndex(PredictionId, ps, p.id) == -1
    ensures Upsert(PredictionId, ps, more) == ps + more
    ensures Keeps(ps, Upsert(PredictionId, ps, more))
  {
    UpsertAppends(PredictionId, ps, more);
  }

  /** Steps that only append untouched predictions. */
  lemma AppendingKeepsInv(s: Loop, s': Loop, more: seq<Prediction>)
    requires Inv(s) && s' == s.(beliefs := s.beliefs.(predictions := s.beliefs.predictions + more))
    requires Upsert(PredictionId, s.beliefs.predictions, more) == s.beliefs.predictions + more
    requires forall p :: p in more ==> IdFits(p) && (p.id.PredictionOf? ==> p.status.Untested?)
    ensures Inv(s') && Advances(s.beliefs, s'.beliefs)
  {
    UpsertKeepsPositions(PredictionId, s.beliefs.predictions, more);
    forall a | a in s'.beliefs.assessments
      ensures Sound(s'.beliefs, a)
    {
      AdvancingKeepsSound(s.beliefs, s'.beliefs, a);
    }
    forall k | 0 <= k < |s'.beliefs.predictions|
      ensures IdFits(s'.beliefs.predictions[k]) && Accounted(s'.beliefs, k)
    {
      if k < |s.beliefs.predictions| {
        assert IdFits(s.beliefs.predictions[k]) && Accounted(s.beliefs, k);
        if Decided(s.beliefs.predictions[k]) { AdvancingKeepsAccounted(s.beliefs, s'.beliefs, k); }
      } else {
        assert s'.beliefs.predictions[k] in more;
      }
    }
  }

  lemma DerivedIsNew(s: Loop, templates: TemplateSet, p: Prediction)
    requires Inv(s) && p in Derived(s.hypotheses, s.beliefs.predictions, templates)
    ensures LastIndex(PredictionId, s.beliefs.predictions, p.id) == -1
    ensures IdFits(p) && p.status.Untested?
  {
    var ps := s.beliefs.predictions;
    DerivedMeaning(s.hypotheses, ps, templates, p);
    var h :| h in s.hypotheses && p in Instances(h, ps, templates);
    InstanceShape(h, ps, templates, p);
    assert forall k :: 0 <= k < |ps| ==> ps[k] in ps && IdFits(ps[k]);
  }

  lemma DeriveKeepsInv(templates: TemplateSet, s: Loop)
    requires DistinctKeys(templates) && Inv(s)
    ensures Inv(After(templates, s, Derive)) && Advances(s.beliefs, After(templates, s, Derive).beliefs)
  {
    var more := Derived(s.hypotheses, s.beliefs.predictions, templates);
    DerivedDistinct(s.hypotheses, s.beliefs.predictions, templates);
    forall p | p in more
      ensures LastIndex(PredictionId, s.beliefs.predictions, p.id) == -1 && IdFits(p) && p.status.Untested?
    {
      DerivedIsNew(s, templates, p);
    }
    AppendingKeeps(s.beliefs.predictions, more);
    AppendingKeepsInv(s, After(templates, s, Derive), more);
  }

  lemma ProposeKeepsInv(templates: TemplateSet, s: Loop, proposed: seq<Prediction>)
    requires Inv(s) && Permits(templates, s, Propose(proposed))
    ensures Inv(After(templates, s, Propose(proposed)))
    ensures Advances(s.beliefs, After(templates, s, Propose(proposed)).beliefs)
  {
    AppendingKeeps(s.beliefs.predictions, proposed);
    AppendingKeepsInv(s, After(templates, s, Propose(proposed)), proposed);
  }

  /** Steps that leave the predictions alone. */
  lemma KeepingPredictionsKeepsInv(s: Loop, s': Loop)
    requires Inv(s) && ChannelsDistinct(s') && s'.beliefs.predictions == s.beliefs.predictions
    requires Advances(s.beliefs, s'.beliefs)
    requires forall a :: a in s'.beliefs.assessments ==> a in s.beliefs.assessments || Sound(s'.beliefs, a)
    ensures Inv(s')
  {
    forall a | a in s'.beliefs.assessments
      ensures Sound(s'.beliefs, a)
    {
      if a in s.beliefs.assessments { AdvancingKeepsSound(s.beliefs, s'.beliefs, a); }
    }
    forall k | 0 <= k < |s'.beliefs.predictions|
      ensures IdFits(s'.beliefs.predictions[k]) && Accounted(s'.beliefs, k)
    {
      assert IdFits(s.beliefs.predictions[k]) && Accounted(s.beliefs, k);
      if Decided(s.beliefs.predictions[k]) { AdvancingKeepsAccounted(s.beliefs, s'.beliefs, k); }
    }
  }

  lemma IngestKeepsInv(templates: TemplateSet, s: Loop, items: seq<Evidence>)
    requires Inv(s)
    ensures Inv(After(templates, s, Ingest(items)))
    ensures Advances(s.beliefs, After(templates, s, Ingest(items)).beliefs)
  {
    UpsertKeepsPositions(EvidenceId, s.beliefs.evidence, items);
    KeepingPredictionsKeepsInv(s, After(templates, s, Ingest(items)));
  }

  lemma HypothesizeKeepsInv(templates: TemplateSet, s: Loop, hypotheses: seq<Hypothesis>)
    requires Inv(s)
    ensures Inv(After(templates, s, Hypothesize(hypotheses)))
    ensures Advances(s.beliefs, After(templates, s, Hypothesize(hypotheses)).beliefs)
  {
    UpsertKeepsPositions(HypothesisId, s.hypotheses, hypotheses);
    KeepingPredictionsKeepsInv(s, After(templates, s, Hypothesize(hypotheses)));
  }

  lemma CitingIsSound(b: Beliefs, a: Assessment)
    requires Cites(b, a) && a.producedBy.Llm?
    ensures Sound(b, a)
  {
    var item :| item in b.evidence && item.id == a.evidenceId;
    var e :| 0 <= e < |b.evidence| && b.evidence[e] == item;
    assert RestsOn(b, a, e);
    if a.predictionId.Some? {
      var p :| p in b.predictions && p.id == a.predictionId.value && p.hypothesisId == a.hypothesisId;
      var k :| 0 <= k < |b.predictions| && b.predictions[k] == p;
      assert About(b, a, k);
    }
  }

  /** An update that does not use an assessment's id leaves it in place. */
  lemma OthersStay(current: seq<Assessment>, update: seq<Assessment>, a: Assessment)
    requires a in current && forall x :: x in update ==> x.id != a.id
    ensures a in Upsert(AssessmentId, current, update)
  {
    UpsertSources(AssessmentId, current, update);
    assert forall i :: 0 <= i < |update| ==> update[i] in update && Ids(AssessmentId, update)[i] == update[i].id;
  }

  lemma InterpretKeepsInv(templates: TemplateSet, s: Loop, read: seq<Assessment>)
    requires Inv(s) && Permits(templates, s, Interpret(read))
    ensures Inv(After(templates, s, Interpret(read)))
    ensures Advances(s.beliefs, After(templates, s, Interpret(read)).beliefs)
  {
    var s' := After(templates, s, Interpret(read));
    UpsertKeepsPositions(AssessmentId, s.beliefs.assessments, read);
    UpsertSources(AssessmentId, s.beliefs.assessments, read);
    forall a | a in s.beliefs.assessments && a.producedBy.Rule?
      ensures a in s'.beliefs.assessments
    {
      OthersStay(s.beliefs.assessments, read, a);
    }
    forall a | a in read
      ensures Sound(s'.beliefs, a)
    {
      CitingIsSound(s.beliefs, a);
      AdvancingKeepsSound(s.beliefs, s'.beliefs, a);
    }
    KeepingPredictionsKeepsInv(s, s');
  }

  // ---- The evaluation step ----------------------------------------------------------------------------------------

  /** Under the invariant the evaluation's merge replaces the predictions, and adds its assessments. */
  lemma EvaluateMerges(templates: TemplateSet, s: Loop, step: Step)
    requires Inv(s) && step.Evaluate? && Permits(templates, s, step)
    ensures var b' := After(templates, s, step).beliefs;
            && b'.predictions == step.out && b'.evidence == s.beliefs.evidence
            && b'.assessments == Upsert(AssessmentId, s.beliefs.assessments, step.assessments)
    ensures Keeps(s.beliefs.predictions, step.out)
  {
    var b := s.beliefs;
    OutcomesKeep(b.predictions, Qualifying(b.evidence, step.asOf), step.out);
    RewriteMerges(b.predictions, step.out);
    OnlyChangesMatter(AssessmentId, b.assessments, step.assessments);
  }

  /** An evaluation leaves ids, hypotheses and decided predictions as they are. */
  lemma OutcomesKeep(ps: seq<Prediction>, seen: set<Evidence>, out: seq<Prediction>)
    requires |out| == |ps| && forall i :: 0 <= i < |out| ==> out[i] == Outcome(ps[i], seen)
    ensures Keeps(ps, out)
  {}

  /** Handing over what changed in place replaces the channel. */
  lemma RewriteMerges(ps: seq<Prediction>, out: seq<Prediction>)
    requires Distinct(Ids(PredictionId, ps)) && |out| == |ps| && Keeps(ps, out)
    ensures Upsert(PredictionId, ps, Changed(PredictionId, ps, out)) == out
  {
    assert Ids(PredictionId, out) == Ids(PredictionId, ps);
    OnlyChangesMatter(PredictionId, ps, out);
    UpsertRewrites(PredictionId, ps, out, |out|);
    assert out[..|out|] == out && ps[|out|..] == [];
  }

  /** An assessment of this evaluation: the position of its prediction, until now undecided, and what it says. */
  lemma NewAssessment(templates: TemplateSet, s: Loop, step: Step, b': Beliefs, a: Assessment) returns (k: int, e: int)
    requires Inv(s) && step.Evaluate? && Permits(templates, s, step) && a in step.assessments
    requires b'.predictions == step.out && b'.evidence == s.beliefs.evidence
    ensures About(b', a, k) && RestsOn(b', a, e) && a.producedBy.Rule?
    ensures RuleSays(b', a, k) && !Decided(s.beliefs.predictions[k])
  {
    var b := s.beliefs;
    var seen := Qualifying(b.evidence, step.asOf);
    var p :| p in b.predictions && a in AssessmentsFor(p, seen, step.asOf);
    k :| 0 <= k < |b.predictions| && b.predictions[k] == p;
    assert step.out[k] == Outcome(p, seen);
    var item := AssessmentSays(p, seen, step.asOf, a);
    e :| 0 <= e < |b.evidence| && b.evidence[e] == item;
  }

  /** What an assessment made for a prediction says of its outcome, and the evidence it rests on. */
  lemma AssessmentSays(p: Prediction, seen: set<Evidence>, asOf: int, a: Assessment) returns (item: Evidence)
    requires a in AssessmentsFor(p, seen, asOf)
    ensures a.id == RuleAssessmentOf(p.id, a.evidenceId) && a.producedBy.Rule? && a.strength == Medium
    ensures a.predictionId == Some(p.id) && a.hypothesisId == p.hypothesisId && !Decided(p)
    ensures var o := Outcome(p, seen);
            && o.id == p.id && o.hypothesisId == p.hypothesisId && Decided(o)
            && a.effect == if o.status.Confirmed? then Supports else Contradicts
    ensures item in seen && item.id == a.evidenceId
  {
    AssessmentNamesPrediction(p, seen, asOf, a);
    SettledDecides(p, seen);
    item :| item in seen && item.id == a.evidenceId;
  }

  /** No rule's assessment has its id: one that had would have decided the prediction already. */
  lemma NewAssessmentIsNew(templates: TemplateSet, s: Loop, step: Step, a: Assessment, earlier: Assessment)
    requires Inv(s) && step.Evaluate? && Permits(templates, s, step) && a in step.assessments
    requires earlier in s.beliefs.assessments && earlier.producedBy.Rule?
    ensures earlier.id != a.id
  {
    var b := s.beliefs;
    var k, e := NewAssessment(templates, s, step, b.(predictions := step.out), a);
    assert Sound(b, earlier);
    var n :| 0 <= n < |b.predictions| && RuleSays(b, earlier, n);
    assert step.out[k].id == b.predictions[k].id by {
      assert step.out[k] == Outcome(b.predictions[k], Qualifying(b.evidence, step.asOf));
    }
    if earlier.id == a.id { DistinctNames(b.predictions, k, n); }
  }

  lemma DistinctNames(ps: seq<Prediction>, i: int, j: int)
    requires Distinct(Ids(PredictionId, ps)) && 0 <= i < |ps| && 0 <= j < |ps| && ps[i].id == ps[j].id
    ensures i == j
  {
    assert Ids(PredictionId, ps)[i] == Ids(PredictionId, ps)[j];
  }

  /** What the evaluation merges into the assessments: its own arrive, and no rule's earlier one goes. */
  lemma EvaluateAdvances(templates: TemplateSet, s: Loop, step: Step)
    requires Inv(s) && step.Evaluate? && Permits(templates, s, step)
    ensures Advances(s.beliefs, After(templates, s, step).beliefs)
    ensures forall a :: a in step.assessments ==> a in After(templates, s, step).beliefs.assessments
    ensures forall a :: a in After(templates, s, step).beliefs.assessments ==>
              a in s.beliefs.assessments || a in step.assessments
  {
    var b, b' := s.beliefs, After(templates, s, step).beliefs;
    EvaluateMerges(templates, s, step);
    UpsertSources(AssessmentId, b.assessments, step.assessments);
    forall a | a in b.assessments && a.producedBy.Rule?
      ensures a in b'.assessments
    {
      forall x | x in step.assessments
        ensures x.id != a.id
      {
        NewAssessmentIsNew(templates, s, step, x, a);
      }
      OthersStay(b.assessments, step.assessments, a);
    }
    forall a | a in step.assessments
      ensures a in b'.assessments
    {
      MergedIsThere(AssessmentId, b.assessments, step.assessments, a);
    }
  }

  /** The k-th prediction was decided by a rule, and the assessment that did it is on the books. */
  ghost predicate DecidedByRule(b: Beliefs, k: int)
    requires 0 <= k < |b.predictions|
  {
    exists a :: a in b.assessments && a.producedBy.Rule? && RuleSays(b, a, k)
  }

  lemma EvaluateAssesses(templates: TemplateSet, s: Loop, step: Step, k: int)
    requires Inv(s) && step.Evaluate? && Permits(templates, s, step) && 0 <= k < |step.out|
    ensures |step.out| == |s.beliefs.predictions| == |After(templates, s, step).beliefs.predictions|
    ensures !Decided(s.beliefs.predictions[k]) && Decided(step.out[k]) ==>
              DecidedByRule(After(templates, s, step).beliefs, k)
  {
    var b, b' := s.beliefs, After(templates, s, step).beliefs;
    EvaluateMerges(templates, s, step);
    EvaluateAdvances(templates, s, step);
    if !Decided(b.predictions[k]) && Decided(step.out[k]) {
      var seen := Qualifying(b.evidence, step.asOf);
      DecidesIffAssesses(b.predictions, seen, step.asOf, step.out, step.assessments, k);
      var a :| a in step.assessments && a.predictionId == Some(b.predictions[k].id);
      var n, e := NewAssessment(templates, s, step, b', a);
      DistinctNames(b'.predictions, n, k);
      assert a in b'.assessments;
    }
  }

  lemma EvaluateAccounts(templates: TemplateSet, s: Loop, step: Step, k: int)
    requires Inv(s) && step.Evaluate? && Permits(templates, s, step) && 0 <= k < |step.out|
    ensures |step.out| == |s.beliefs.predictions| == |After(templates, s, step).beliefs.predictions|
    ensures Accounted(After(templates, s, step).beliefs, k)
  {
    var b, b' := s.beliefs, After(templates, s, step).beliefs;
    EvaluateMerges(templates, s, step);
    EvaluateAdvances(templates, s, step);
    assert Accounted(b, k);
    if Decided(b.predictions[k]) {
      AdvancingKeepsAccounted(b, b', k);
    } else {
      EvaluateAssesses(templates, s, step, k);
    }
  }

  lemma EvaluateKeepsSound(templates: TemplateSet, s: Loop, step: Step, a: Assessment)
    requires Inv(s) && step.Evaluate? && Permits(templates, s, step)
    requires a in After(templates, s, step).beliefs.assessments
    ensures Sound(After(templates, s, step).beliefs, a)
  {
    var b' := After(templates, s, step).beliefs;
    EvaluateMerges(templates, s, step);
    EvaluateAdvances(templates, s, step);
    if a in s.beliefs.assessments {
      AdvancingKeepsSound(s.beliefs, b', a);
    } else {
      var k, e := NewAssessment(templates, s, step, b', a);
    }
  }

  lemma EvaluateKeepsInv(templates: TemplateSet, s: Loop, step: Step)
    requires Inv(s) && step.Evaluate? && Permits(templates, s, step)
    ensures Inv(After(templates, s, step)) && Advances(s.beliefs, After(templates, s, step).beliefs)
  {
    var s' := After(templates, s, step);
    EvaluateMerges(templates, s, step);
    EvaluateAdvances(templates, s, step);
    forall a | a in s'.beliefs.assessments
      ensures Sound(s'.beliefs, a)
    {
      EvaluateKeepsSound(templates, s, step, a);
    }
    forall k | 0 <= k < |step.out|
      ensures IdFits(step.out[k]) && Accounted(s'.beliefs, k)
    {
      EvaluateAccounts(templates, s, step, k);
      assert IdFits(s.beliefs.predictions[k]);
    }
    assert Ids(PredictionId, s'.beliefs.predictions) == Ids(PredictionId, s.beliefs.predictions);
    UpsertKeepsPositions(AssessmentId, s.beliefs.assessments, step.assessments);
  }

  // ---- What a step merges -----------------------------------------------------------------------------------------

  /** Read by id, the channel after a merge says what the update says last, and else what it said before. */
  ghost predicate Merges<T>(idOf: T -> Id, current: seq<T>, update: seq<T>, after: seq<T>) {
    && |current| <= |after| && (forall i :: 0 <= i < |current| ==> idOf(after[i]) == idOf(current[i]))
    && forall id :: Lookup(idOf, after, id)
                    == if Lookup(idOf, update, id).Some? then Lookup(idOf, update, id) else Lookup(idOf, current, id)
  }

  lemma UpsertMerges<T>(idOf: T -> Id, current: seq<T>, update: seq<T>)
    ensures Merges(idOf, current, update, Upsert(idOf, current, update))
  {
    UpsertKeepsPositions(idOf, current, update);
    forall id
      ensures Lookup(idOf, Upsert(idOf, current, update), id)
              == if Lookup(idOf, update, id).Some? then Lookup(idOf, update, id) else Lookup(idOf, current, id)
    {
      LookupAfterUpsert(idOf, current, update, id);
    }
  }

  /** Each step adds its part to its own channel and leaves the others alone. */
  ghost predicate Adds(templates: TemplateSet, s: Loop, step: Step, s': Loop) {
    var b, b' := s.beliefs, s'.beliefs;
    && (if step.Hypothesize? then Merges(HypothesisId, s.hypotheses, step.hypotheses, s'.hypotheses)
        else s'.hypotheses == s.hypotheses)
    && (if step.Ingest? then Merges(EvidenceId, b.evidence, step.items, b'.evidence) else b'.evidence == b.evidence)
    && (match step
        case Propose(proposed) => b'.predictions == b.predictions + proposed
        case Derive => b'.predictions == b.predictions + Derived(s.hypotheses, b.predictions, templates)
        case Evaluate(_, out, _) => b'.predictions == out
        case _ => b'.predictions == b.predictions)
    && (match step
        case Evaluate(_, _, assessments) => Merges(AssessmentId, b.assessments, assessments, b'.assessments)
        case Interpret(read) => Merges(AssessmentId, b.assessments, read, b'.assessments)
        case _ => b'.assessments == b.assessments)
  }

  lemma DerivedIsAppended(templates: TemplateSet, s: Loop)
    requires DistinctKeys(templates) && Inv(s)
    ensures After(templates, s, Derive).beliefs.predictions
            == s.beliefs.predictions + Derived(s.hypotheses, s.beliefs.predictions, templates)
  {
    var more := Derived(s.hypotheses, s.beliefs.predictions, templates);
    DerivedDistinct(s.hypotheses, s.beliefs.predictions, templates);
    forall p | p in more
      ensures LastIndex(PredictionId, s.beliefs.predictions, p.id) == -1
    {
      DerivedIsNew(s, templates, p);
    }
    AppendingKeeps(s.beliefs.predictions, more);
  }

  lemma StepAdds(templates: TemplateSet, s: Loop, step: Step)
    requires DistinctKeys(templates) && Inv(s) && Permits(templates, s, step)
    ensures Adds(templates, s, step, After(templates, s, step))
  {
    var b := s.beliefs;
    match step
    case Hypothesize(hypotheses) => UpsertMerges(HypothesisId, s.hypotheses, hypotheses);
    case Propose(proposed) => AppendingKeeps(b.predictions, proposed);
    case Derive => DerivedIsAppended(templates, s);
    case Ingest(items) => UpsertMerges(EvidenceId, b.evidence, items);
    case Evaluate(_, _, assessments) =>
      EvaluateMerges(templates, s, step);
      UpsertMerges(AssessmentId, b.assessments, assessments);
    case Interpret(read) => UpsertMerges(AssessmentId, b.assessments, read);
  }

  // ---- Every run --------------------------------------------------------------------------------------------------

  lemma StepKeepsInv(templates: TemplateSet, s: Loop, step: Step)
    requires DistinctKeys(templates) && Inv(s) && Permits(templates, s, step)
    ensures Inv(After(templates, s, step)) && Advances(s.beliefs, After(templates, s, step).beliefs)
  {
    match step
    case Hypothesize(hypotheses) => HypothesizeKeepsInv(templates, s, hypotheses);
    case Propose(proposed) => ProposeKeepsInv(templates, s, proposed);
    case Derive => DeriveKeepsInv(templates, s);
    case Ingest(items) => IngestKeepsInv(templates, s, items);
    case Evaluate(_, _, _) => EvaluateKeepsInv(templates, s, step);
    case Interpret(read) => InterpretKeepsInv(templates, s, read);
  }

  ghost predicate Run(templates: TemplateSet, states: seq<Loop>, steps: seq<Step>) {
    && |states| == |steps| + 1 && states[0] == START
    && forall i :: 0 <= i < |steps| ==>
         Permits(templates, states[i], steps[i]) && states[i + 1] == After(templates, states[i], steps[i])
  }

  lemma {:induction false} RunKeepsInv(templates: TemplateSet, states: seq<Loop>, steps: seq<Step>, i: nat)
    requires DistinctKeys(templates) && Run(templates, states, steps) && i < |states|
    ensures Inv(states[i])
  {
    if i > 0 {
      RunKeepsInv(templates, states, steps, i - 1);
      StepKeepsInv(templates, states[i - 1], steps[i - 1]);
    }
  }

  /** Over any run: a decided prediction is never touched again, and no rule's assessment is ever overwritten. */
  lemma {:induction false} NothingIsTakenBack(templates: TemplateSet, states: seq<Loop>, steps: seq<Step>, i: nat,
                                              j: nat)
    requires DistinctKeys(templates) && Run(templates, states, steps) && i <= j < |states|
    ensures Advances(states[i].beliefs, states[j].beliefs)
    decreases j
  {
    if i < j {
      NothingIsTakenBack(templates, states, steps, i, j - 1);
      RunKeepsInv(templates, states, steps, j - 1);
      StepKeepsInv(templates, states[j - 1], steps[j - 1]);
      AdvancesTransitively(states[i].beliefs, states[j - 1].beliefs, states[j].beliefs);
    } else {
      AdvancesReflexively(states[i].beliefs);
    }
  }

  lemma {:induction false} FoundInPrefix(ps: seq<Prediction>, h: Id, id: Id, k: nat)
    requires k < |ps| && ps[k].id == id && ps[k].hypothesisId == h
    ensures PredictionOfHypothesis(ps, h, id).Some?
  {
    if k < |ps| - 1 { FoundInPrefix(ps[..|ps| - 1], h, id, k); }
  }

  /** In every reachable state every hypothesis has a status: no assessment refers to something that is not there. */
  lemma StatusIsAlwaysReadable(s: Loop, h: Id)
    requires Inv(s)
    ensures AllGrounded(s.beliefs, h)
  {
    forall a | a in s.beliefs.assessments && a.hypothesisId == h
      ensures Grounded(s.beliefs, h, a)
    {
      assert Sound(s.beliefs, a);
      var e :| RestsOn(s.beliefs, a, e);
      assert LastIndex(EvidenceId, s.beliefs.evidence, a.evidenceId) >= e;
      if a.predictionId.Some? {
        var k :| About(s.beliefs, a, k);
        FoundInPrefix(s.beliefs.predictions, h, a.predictionId.value, k);
      }
    }
  }

  /** Only an evaluation decides a prediction, and it leaves its assessment behind. */
  lemma StepDecidesByRule(templates: TemplateSet, s: Loop, step: Step, k: nat)
    requires DistinctKeys(templates) && Inv(s) && Permits(templates, s, step) && k < |s.beliefs.predictions|
    ensures var b' := After(templates, s, step).beliefs;
            k < |b'.predictions| && (!Decided(s.beliefs.predictions[k]) && Decided(b'.predictions[k]) ==>
                                     DecidedByRule(b', k))
  {
    StepKeepsInv(templates, s, step);
    match step
    case Evaluate(_, _, _) =>
      EvaluateMerges(templates, s, step);
      EvaluateAssesses(templates, s, step, k);
    case Propose(proposed) =>
      AppendingKeeps(s.beliefs.predictions, proposed);
    case Derive =>
      var more := Derived(s.hypotheses, s.beliefs.predictions, templates);
      DerivedDistinct(s.hypotheses, s.beliefs.predictions, templates);
      forall p | p in more { DerivedIsNew(s, templates, p); }
      AppendingKeeps(s.beliefs.predictions, more);
    case _ =>
  }

  /** A prediction undecided at i and decided by n, whoever proposed it, was decided by a rule. */
  lemma {:induction false} DecidedOnTheWay(templates: TemplateSet, states: seq<Loop>, steps: seq<Step>, i: nat, n: nat,
                                           k: nat)
    requires DistinctKeys(templates) && Run(templates, states, steps) && i <= n < |states|
    requires k < |states[i].beliefs.predictions| && !Decided(states[i].beliefs.predictions[k])
    ensures k < |states[n].beliefs.predictions|
    ensures Decided(states[n].beliefs.predictions[k]) ==> DecidedByRule(states[n].beliefs, k)
    decreases n
  {
    if i < n {
      DecidedOnTheWay(templates, states, steps, i, n - 1, k);
      RunKeepsInv(templates, states, steps, n - 1);
      StepKeepsInv(templates, states[n - 1], steps[n - 1]);
      StepDecidesByRule(templates, states[n - 1], steps[n - 1], k);
      if Decided(states[n - 1].beliefs.predictions[k]) {
        RuleStaysOnTheBooks(states[n - 1].beliefs, states[n].beliefs, k);
      }
    }
  }

  lemma RuleStaysOnTheBooks(b: Beliefs, b': Beliefs, k: nat)
    requires Advances(b, b') && k < |b.predictions| && DecidedByRule(b, k)
    ensures DecidedByRule(b', k) && b'.predictions[k] == b.predictions[k]
  {
    var a :| a in b.assessments && a.producedBy.Rule? && RuleSays(b, a, k);
    assert RuleSays(b', a, k);
  }

  /** The prediction is one the loop derived, or was undecided at some time before n. */
  ghost predicate OnceUndecided(states: seq<Loop>, n: nat, k: nat)
    requires n < |states| && k < |states[n].beliefs.predictions|
  {
    || states[n].beliefs.predictions[k].id.PredictionOf?
    || exists i: nat :: i <= n && k < |states[i].beliefs.predictions| && !Decided(states[i].beliefs.predictions[k])
  }

  /**
    Once a prediction is refuted its hypothesis is weakened or rejected at every later read, under both rule versions,
    whatever is proposed, observed, evaluated or interpreted in between. The one exception is a prediction a role
    proposed as already decided: no rule stands behind that.
     */
  lemma RefutationIsForever(templates: TemplateSet, states: seq<Loop>, steps: seq<Step>, n: nat, j: nat, k: nat,
                            rules: Rules)
    requires DistinctKeys(templates) && Run(templates, states, steps) && n <= j < |states|
    requires k < |states[n].beliefs.predictions| && KnownRules(rules)
    requires states[n].beliefs.predictions[k].status.Refuted? && OnceUndecided(states, n, k)
    ensures var p := states[n].beliefs.predictions[k];
            var status := StatusUnder(states[j].beliefs, p.hypothesisId, rules);
            && k < |states[j].beliefs.predictions| && states[j].beliefs.predictions[k] == p
            && AllGrounded(states[j].beliefs, p.hypothesisId)
            && (status.Weakened? || status.Rejected?)
  {
    RunKeepsInv(templates, states, steps, n);
    RunKeepsInv(templates, states, steps, j);
    NothingIsTakenBack(templates, states, steps, n, j);
    var b := states[n].beliefs;
    assert Accounted(b, k);
    if !b.predictions[k].id.PredictionOf? {
      var i: nat :| i <= n && k < |states[i].beliefs.predictions| && !Decided(states[i].beliefs.predictions[k]);
      DecidedOnTheWay(templates, states, steps, i, n, k);
    }
    var a :| a in b.assessments && a.producedBy.Rule? && RuleSays(b, a, k);
    StatusIsAlwaysReadable(states[j], b.predictions[k].hypothesisId);
    ContradictionWeakens(states[j].beliefs, b.predictions[k].hypothesisId, rules, a);
  }
}
