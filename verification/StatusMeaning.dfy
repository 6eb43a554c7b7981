/**
  What each status of a hypothesis says, told from the fields of its predictions, assessments and evidence and from the
  numbers the rule table writes down.
 */
module StatusMeaning {
  import opened Wrappers
  import opened Contracts
  import opened Reducers
  import opened HypothesisStanding

  predicate Material(strength: Strength) {
    strength == Medium || strength == High
  }

  predicate Supporting(b: Beliefs, h: Id, a: Assessment) {
    a in b.assessments && a.hypothesisId == h && a.effect == Supports && Material(a.strength)
  }

  /** Two supports of medium or high strength that rest on different evidence. */
  ghost predicate TwiceSupported(b: Beliefs, h: Id) {
    exists a, a' :: Supporting(b, h, a) && Supporting(b, h, a') && a.evidenceId != a'.evidenceId
  }

  /** A contradiction of medium or high strength. */
  ghost predicate Contradicted(b: Beliefs, h: Id) {
    exists a :: a in b.assessments && a.hypothesisId == h && a.effect == Contradicts && Material(a.strength)
  }

  ghost predicate HasConfirmed(b: Beliefs, h: Id) {
    exists p :: p in b.predictions && p.hypothesisId == h && p.status == Confirmed
  }

  /** The k-th prediction is the hypothesis's last with this id. */
  ghost predicate IsPrediction(b: Beliefs, h: Id, id: Id, k: int) {
    && 0 <= k < |b.predictions| && b.predictions[k].hypothesisId == h && b.predictions[k].id == id
    && forall j :: k < j < |b.predictions| ==> b.predictions[j].hypothesisId != h || b.predictions[j].id != id
  }

  /** The k-th evidence item is the last with this id. */
  ghost predicate IsEvidence(b: Beliefs, id: Id, k: int) {
    && 0 <= k < |b.evidence| && b.evidence[k].id == id
    && forall j :: k < j < |b.evidence| ==> b.evidence[j].id != id
  }

  /** A contradiction, of any strength, on highly reliable evidence, that names a refuted prediction. */
  ghost predicate Refuting(b: Beliefs, h: Id, a: Assessment) {
    && a in b.assessments && a.hypothesisId == h && a.effect == Contradicts && a.predictionId.Some?
    && (exists k :: IsPrediction(b, h, a.predictionId.value, k) && b.predictions[k].status == Refuted)
    && exists k :: IsEvidence(b, a.evidenceId, k) && b.evidence[k].reliability == Some(High)
  }

  ghost predicate Disproved(b: Beliefs, h: Id) {
    exists a :: Refuting(b, h, a)
  }

  // ---- Lookups ----------------------------------------------------------------------------------------------------

  lemma {:induction false} FoundPrediction(ps: seq<Prediction>, h: Id, id: Id) returns (k: int)
    ensures -1 <= k < |ps|
    ensures if k < 0 then PredictionOfHypothesis(ps, h, id) == None
            else PredictionOfHypothesis(ps, h, id) == Some(ps[k]) && ps[k].hypothesisId == h && ps[k].id == id
    ensures forall j :: k < j < |ps| ==> ps[j].hypothesisId != h || ps[j].id != id
    decreases |ps|
  {
    k := |ps| - 1;
    if ps != [] && !(ps[k].hypothesisId == h && ps[k].id == id) { k := FoundPrediction(ps[..k], h, id); }
  }

  lemma StatusIsFound(b: Beliefs, h: Id, id: Id, status: PredictionStatus)
    ensures HasStatus(b, h, id, status) <==> exists k :: IsPrediction(b, h, id, k) && b.predictions[k].status == status
  {
    var k := FoundPrediction(b.predictions, h, id);
    if k >= 0 { assert IsPrediction(b, h, id, k); }
  }

  lemma ReliabilityIsFound(b: Beliefs, id: Id, reliability: Strength)
    ensures HasReliability(b, id, reliability)
            <==> exists k :: IsEvidence(b, id, k) && b.evidence[k].reliability == Some(reliability)
  {
    var k := LastIndex(EvidenceId, b.evidence, id);
    assert forall j :: 0 <= j < |b.evidence| ==> EvidenceId(b.evidence[j]) == b.evidence[j].id;
    if k >= 0 { assert IsEvidence(b, id, k); }
  }

  lemma {:induction false} CountedIsConfirmed(ps: seq<Prediction>, h: Id)
    ensures ConfirmedCount(ps, h) > 0 <==> exists p :: p in ps && p.hypothesisId == h && p.status == Confirmed
    decreases |ps|
  {
    if ps != [] {
      assert ps == ps[..|ps| - 1] + [ps[|ps| - 1]];
      CountedIsConfirmed(ps[..|ps| - 1], h);
    }
  }

  lemma TwoMembers<T>(s: set<T>)
    ensures |s| >= 2 <==> exists x, y :: x in s && y in s && x != y
  {
    if s != {} {
      var x :| x in s;
      var rest := s - {x};
      assert s == rest + {x};
      if rest != {} {
        var y :| y in rest;
        assert x in s && y in s && x != y;
      }
    }
  }

  // ---- The rules, in these words ----------------------------------------------------------------------------------

  lemma RejectionInTerms(b: Beliefs, h: Id, version: RulesVersion)
    requires RulesOf(version).Some?
    ensures IsRejected(b, h, RulesOf(version).value) <==> Disproved(b, h)
  {
    forall a: Assessment | a.predictionId.Some?
      ensures a in b.assessments && Rejecting(b, h, RulesOf(version).value, a) <==> Refuting(b, h, a)
    {
      StatusIsFound(b, h, a.predictionId.value, Refuted);
      ReliabilityIsFound(b, a.evidenceId, High);
    }
  }

  lemma ContradictionInTerms(b: Beliefs, h: Id)
    ensures HasContradiction(b, h, {Medium, High}) <==> Contradicted(b, h)
  {
    assert forall a :: Contradicting(h, {Medium, High}, a)
                       <==> a.hypothesisId == h && a.effect == Contradicts && Material(a.strength);
  }

  lemma SupportInTerms(b: Beliefs, h: Id, version: RulesVersion)
    requires RulesOf(version).Some?
    ensures |IndependentSupports(b, h, RulesOf(version).value)| >= 2 <==> TwiceSupported(b, h)
  {
    var ids := IndependentSupports(b, h, RulesOf(version).value);
    TwoMembers(ids);
    assert forall a :: Supporting(b, h, a) ==> a.evidenceId in ids;
    if |ids| >= 2 {
      var x, y :| x in ids && y in ids && x != y;
      var a := SupportOf(b, h, version, x);
      var a' := SupportOf(b, h, version, y);
    }
  }

  lemma SupportOf(b: Beliefs, h: Id, version: RulesVersion, id: Id) returns (a: Assessment)
    requires RulesOf(version).Some? && id in IndependentSupports(b, h, RulesOf(version).value)
    ensures Supporting(b, h, a) && a.evidenceId == id
  {
    a :| a in b.assessments && a.hypothesisId == h && a.effect.Supports?
         && a.strength in RulesOf(version).value.supportStrengths && a.evidenceId == id;
  }

  /** Two rule versions exist. */
  lemma KnownVersions(version: RulesVersion)
    ensures RulesOf(version).Some? <==> version == V01 || version == V02
  {}

  /**
    Every status, in both versions. A disproof rejects and a material contradiction weakens, in this order; two
    independent supports make a hypothesis supported with a confirmed prediction, and corroborated without one under
    v0.2 alone; whatever is left is a candidate.
   */
  lemma StatusByFields(b: Beliefs, h: Id, version: RulesVersion)
    requires RulesOf(version).Some?
    ensures var status := StatusUnder(b, h, RulesOf(version).value);
            && (status == Rejected <==> Disproved(b, h))
            && (status == Weakened <==> !Disproved(b, h) && Contradicted(b, h))
            && (status == Supported <==>
                  !Disproved(b, h) && !Contradicted(b, h) && TwiceSupported(b, h) && HasConfirmed(b, h))
            && (status == Corroborated <==>
                  !Disproved(b, h) && !Contradicted(b, h) && TwiceSupported(b, h) && !HasConfirmed(b, h)
                  && version == V02)
            && (status == Candidate <==>
                  !Disproved(b, h) && !Contradicted(b, h)
                  && (!TwiceSupported(b, h) || (!HasConfirmed(b, h) && version == V01)))
  {
    RejectionInTerms(b, h, version);
    ContradictionInTerms(b, h);
    SupportInTerms(b, h, version);
    CountedIsConfirmed(b.predictions, h);
  }

  // ---- Refusals ---------------------------------------------------------------------------------------------------

  ghost predicate CitesEvidence(b: Beliefs, a: Assessment) {
    exists e :: e in b.evidence && e.id == a.evidenceId
  }

  ghost predicate CitesPrediction(b: Beliefs, h: Id, a: Assessment) {
    a.predictionId.Some? ==>
      exists p :: p in b.predictions && p.hypothesisId == h && p.id == a.predictionId.value
  }

  lemma GroundedInTerms(b: Beliefs, h: Id, a: Assessment)
    ensures Grounded(b, h, a) <==> CitesEvidence(b, a) && CitesPrediction(b, h, a)
  {
    var k := LastIndex(EvidenceId, b.evidence, a.evidenceId);
    assert forall j :: 0 <= j < |b.evidence| ==> EvidenceId(b.evidence[j]) == b.evidence[j].id;
    if k >= 0 { assert b.evidence[k] in b.evidence; }
    if a.predictionId.Some? {
      var n := FoundPrediction(b.predictions, h, a.predictionId.value);
      if n >= 0 { assert b.predictions[n] in b.predictions; }
    }
  }

  /** A status is refused for evidence that is not there, and for a prediction that is not only when the evidence is. */
  lemma RefusalByFields(b: Beliefs, h: Id, a: Assessment)
    requires !Grounded(b, h, a)
    ensures Complaint(b, h, a) == if CitesEvidence(b, a) then NoSuchPrediction(a.predictionId.value)
                                  else NoSuchEvidence(a.evidenceId)
    ensures CitesEvidence(b, a) ==> a.predictionId.Some? && !CitesPrediction(b, h, a)
  {
    GroundedInTerms(b, h, a);
    var k := LastIndex(EvidenceId, b.evidence, a.evidenceId);
    assert forall j :: 0 <= j < |b.evidence| ==> EvidenceId(b.evidence[j]) == b.evidence[j].id;
    if k >= 0 { assert b.evidence[k] in b.evidence; }
  }

  // ---- The leader -------------------------------------------------------------------------------------------------

  /** Supported before corroborated before candidate before weakened before rejected. */
  predicate Before(s: Status, t: Status) {
    match s
    case Supported => t != Supported
    case Corroborated => t == Candidate || t == Weakened || t == Rejected
    case Candidate => t == Weakened || t == Rejected
    case Weakened => t == Rejected
    case Rejected => false
  }

  /** The leader's status comes before every earlier one's, and after no later one's. */
  lemma LeaderByOrder(ss: seq<Standing>, k: int)
    ensures FirstBest(ss, k) <==>
              && 0 <= k < |ss|
              && (forall j :: 0 <= j < k ==> Before(ss[k].status, ss[j].status))
              && forall j :: k < j < |ss| ==> !Before(ss[j].status, ss[k].status)
  {
    assert forall s, t :: Before(s, t) <==> StandingRank(s) < StandingRank(t);
  }
}
