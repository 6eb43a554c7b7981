/**
  A hypothesis's status and the standing of all of them: packages/domain/src/evaluation.ts, status-rules.ts and
  hypothesis-standing.ts.
 */
module HypothesisStanding {
  import opened Wrappers
  import opened Contracts
  import opened Reducers

  datatype Status = Candidate | Supported | Weakened | Rejected | Corroborated
  datatype RulesVersion = V01 | V02 | UnknownVersion(name: string)

  datatype Rules = Rules(
    minimumIndependentSupports: nat,
    supportStrengths: set<Strength>,
    forbiddenContradictionStrengths: set<Strength>,
    minimumConfirmedPredictions: nat,
    weakeningStrengths: set<Strength>,
    rejectingStatus: PredictionStatus,
    rejectingReliability: Strength,
    corroboratedMaximumConfirmed: Option<nat>)

  const BASELINE_STATUS_RULES := Rules(2, {Medium, High}, {Medium, High}, 1, {Medium, High}, Refuted, High, None)
  const V02_STATUS_RULES := BASELINE_STATUS_RULES.(corroboratedMaximumConfirmed := Some(0))

  function RulesOf(version: RulesVersion): Option<Rules> {
    match version
    case V01 => Some(BASELINE_STATUS_RULES)
    case V02 => Some(V02_STATUS_RULES)
    case UnknownVersion(_) => None
  }

  datatype Failure = NoSuchRules | NoSuchEvidence(id: Id) | NoSuchPrediction(id: Id)

  /** The state a status is read from. */
  datatype Beliefs = Beliefs(predictions: seq<Prediction>, assessments: seq<Assessment>, evidence: seq<Evidence>)

  /** predictionsById: the last prediction of the hypothesis with this id. */
  function PredictionOfHypothesis(predictions: seq<Prediction>, h: Id, id: Id): Option<Prediction> {
    if predictions == [] then None else
    var last := predictions[|predictions| - 1];
    if last.hypothesisId == h && last.id == id then Some(last)
    else PredictionOfHypothesis(predictions[..|predictions| - 1], h, id)
  }

  function ConfirmedCount(predictions: seq<Prediction>, h: Id): nat {
    if predictions == [] then 0 else
    var last := predictions[|predictions| - 1];
    ConfirmedCount(predictions[..|predictions| - 1], h)
    + if last.hypothesisId == h && last.status.Confirmed? then 1 else 0
  }

  /** The assessment refers to evidence and to a prediction of its hypothesis that the state has. */
  predicate Grounded(b: Beliefs, h: Id, a: Assessment) {
    && Lookup(EvidenceId, b.evidence, a.evidenceId).Some?
    && (a.predictionId.Some? ==> PredictionOfHypothesis(b.predictions, h, a.predictionId.value).Some?)
  }

  ghost predicate AllGrounded(b: Beliefs, h: Id) {
    forall a :: a in b.assessments && a.hypothesisId == h ==> Grounded(b, h, a)
  }

  predicate Rejecting(b: Beliefs, h: Id, rules: Rules, a: Assessment) {
    && a.hypothesisId == h && a.effect.Contradicts? && a.predictionId.Some?
    && HasStatus(b, h, a.predictionId.value, rules.rejectingStatus)
    && HasReliability(b, a.evidenceId, rules.rejectingReliability)
  }

  predicate HasStatus(b: Beliefs, h: Id, id: Id, status: PredictionStatus) {
    var found := PredictionOfHypothesis(b.predictions, h, id);
    found.Some? && found.value.status == status
  }

  predicate HasReliability(b: Beliefs, id: Id, reliability: Strength) {
    var found := Lookup(EvidenceId, b.evidence, id);
    found.Some? && found.value.reliability == Some(reliability)
  }

  predicate Contradicting(h: Id, strengths: set<Strength>, a: Assessment) {
    a.hypothesisId == h && a.effect.Contradicts? && a.strength in strengths
  }

  function IndependentSupports(b: Beliefs, h: Id, rules: Rules): set<Id> {
    set a | a in b.assessments && a.hypothesisId == h && a.effect.Supports? && a.strength in rules.supportStrengths
      :: a.evidenceId
  }

  predicate IsRejected(b: Beliefs, h: Id, rules: Rules) {
    exists a :: a in b.assessments && Rejecting(b, h, rules, a)
  }

  predicate HasContradiction(b: Beliefs, h: Id, strengths: set<Strength>) {
    exists a :: a in b.assessments && Contradicting(h, strengths, a)
  }

  /** Enough independent support, and no contradiction that forbids it. */
  predicate Corroborates(b: Beliefs, h: Id, rules: Rules) {
    && |IndependentSupports(b, h, rules)| >= rules.minimumIndependentSupports
    && !HasContradiction(b, h, rules.forbiddenContradictionStrengths)
  }

  /** The precedence of deriveHypothesisStatus, over what it asks of the state. */
  function Precedence(rejected: bool, contradicted: bool, corroborated: bool, confirmed: nat, rules: Rules): Status {
    if rejected then Rejected
    else if contradicted then Weakened
    else if corroborated && confirmed >= rules.minimumConfirmedPredictions then Supported
    else if rules.corroboratedMaximumConfirmed.Some? && corroborated
            && confirmed <= rules.corroboratedMaximumConfirmed.value then Corroborated
    else Candidate
  }

  function StatusUnder(b: Beliefs, h: Id, rules: Rules): Status {
    Precedence(IsRejected(b, h, rules), HasContradiction(b, h, rules.weakeningStrengths), Corroborates(b, h, rules),
               ConfirmedCount(b.predictions, h), rules)
  }

  /** What deriveHypothesisStatus says of an assessment that is not grounded: evidence is checked before prediction. */
  function Complaint(b: Beliefs, h: Id, a: Assessment): Failure
    requires !Grounded(b, h, a)
  {
    if Lookup(EvidenceId, b.evidence, a.evidenceId).None? then NoSuchEvidence(a.evidenceId)
    else NoSuchPrediction(a.predictionId.value)
  }

  /** The i-th assessment is the hypothesis's first ungrounded one. */
  ghost predicate FirstUngrounded(b: Beliefs, h: Id, i: int) {
    && 0 <= i < |b.assessments| && b.assessments[i].hypothesisId == h && !Grounded(b, h, b.assessments[i])
    && forall j :: 0 <= j < i && b.assessments[j].hypothesisId == h ==> Grounded(b, h, b.assessments[j])
  }

  /** The checking loop of deriveHypothesisStatus. */
  method CheckGrounds(b: Beliefs, h: Id) returns (failure: Option<Failure>)
    ensures failure.None? <==> AllGrounded(b, h)
    ensures failure.Some? ==>
              exists i :: FirstUngrounded(b, h, i) && failure.value == Complaint(b, h, b.assessments[i])
  {
    for i := 0 to |b.assessments|
      invariant forall j :: 0 <= j < i && b.assessments[j].hypothesisId == h ==> Grounded(b, h, b.assessments[j])
    {
      var a := b.assessments[i];
      if a.hypothesisId == h {
        if Lookup(EvidenceId, b.evidence, a.evidenceId).None? {
          assert FirstUngrounded(b, h, i);
          return Some(NoSuchEvidence(a.evidenceId));
        }
        if a.predictionId.Some? && PredictionOfHypothesis(b.predictions, h, a.predictionId.value).None? {
          assert FirstUngrounded(b, h, i);
          return Some(NoSuchPrediction(a.predictionId.value));
        }
      }
    }
    return None;
  }

  /**
    deriveHypothesisStatus: refuses an unknown version, then the first ungrounded assessment, then reads the status.
   */
  method DeriveHypothesisStatus(b: Beliefs, h: Id, version: RulesVersion) returns (r: Result<Status, Failure>)
    ensures r.Ok? <==> RulesOf(version).Some? && AllGrounded(b, h)
    ensures r.Ok? ==> r.value == StatusUnder(b, h, RulesOf(version).value)
    ensures r.Err? ==> if RulesOf(version).None? then r.error == NoSuchRules else
              exists i :: FirstUngrounded(b, h, i) && r.error == Complaint(b, h, b.assessments[i])
  {
    var table := RulesOf(version);
    if table.None? { return Err(NoSuchRules); }
    var rules := table.value;
    var failure := CheckGrounds(b, h);
    if failure.Some? { return Err(failure.value); }
    if IsRejected(b, h, rules) { return Ok(Rejected); }
    if HasContradiction(b, h, rules.weakeningStrengths) { return Ok(Weakened); }
    var supports, confirmed := IndependentSupports(b, h, rules), ConfirmedCount(b.predictions, h);
    var shape := |supports| >= rules.minimumIndependentSupports
                 && !HasContradiction(b, h, rules.forbiddenContradictionStrengths);
    if shape && confirmed >= rules.minimumConfirmedPredictions { return Ok(Supported); }
    if rules.corroboratedMaximumConfirmed.Some? && shape && confirmed <= rules.corroboratedMaximumConfirmed.value {
      return Ok(Corroborated);
    }
    return Ok(Candidate);
  }

  // ---- Standing ---------------------------------------------------------------------------------------------------

  function StandingRank(s: Status): nat {
    match s
    case Supported => 0
    case Corroborated => 1
    case Candidate => 2
    case Weakened => 3
    case Rejected => 4
  }

  ghost function RankOf(b: Beliefs, h: Id, rules: Rules): nat {
    StandingRank(StatusUnder(b, h, rules))
  }

  datatype Standing = Standing(id: Id, status: Status)

  /** The k-th standing has the best rank, and no earlier one is as good. */
  ghost predicate FirstBest(standings: seq<Standing>, k: int) {
    && 0 <= k < |standings|
    && (forall j :: 0 <= j < |standings| ==> StandingRank(standings[k].status) <= StandingRank(standings[j].status))
    && (forall j :: 0 <= j < k ==> StandingRank(standings[k].status) < StandingRank(standings[j].status))
  }

  ghost predicate StandsAs(b: Beliefs, hypothesis: Hypothesis, rules: Rules, standing: Standing) {
    && AllGrounded(b, hypothesis.id)
    && standing == Standing(hypothesis.id, StatusUnder(b, hypothesis.id, rules))
  }

  /** deriveHypothesisStanding: every status in order, and the first hypothesis of best rank. */
  method DeriveHypothesisStanding(b: Beliefs, hypotheses: seq<Hypothesis>, version: RulesVersion)
    returns (r: Result<(seq<Standing>, Option<Id>), Failure>)
    ensures r.Ok? <==> RulesOf(version).Some? && forall k :: 0 <= k < |hypotheses| ==> AllGrounded(b, hypotheses[k].id)
    ensures r.Ok? ==> |r.value.0| == |hypotheses| && forall k :: 0 <= k < |hypotheses| ==>
              StandsAs(b, hypotheses[k], RulesOf(version).value, r.value.0[k])
    ensures r.Ok? ==> if hypotheses == [] then r.value.1.None? else
              exists k :: FirstBest(r.value.0, k) && r.value.1 == Some(r.value.0[k].id)
  {
    if RulesOf(version).None? { return Err(NoSuchRules); }
    var standings: seq<Standing>, leaderId: Option<Id>, leaderRank: nat := [], None, 5;
    ghost var leader := -1;
    for i := 0 to |hypotheses|
      invariant |standings| == i
      invariant forall k :: 0 <= k < i ==> StandsAs(b, hypotheses[k], RulesOf(version).value, standings[k])
      invariant i == 0 ==> leaderId == None && leaderRank == 5
      invariant i > 0 ==> FirstBest(standings, leader) && leaderId == Some(standings[leader].id)
                          && leaderRank == StandingRank(standings[leader].status)
    {
      var status := DeriveHypothesisStatus(b, hypotheses[i].id, version);
      if status.Err? {
        assert !AllGrounded(b, hypotheses[i].id);
        return Err(status.error);
      }
      var next, rank := Standing(hypotheses[i].id, status.value), StandingRank(status.value);
      assert StandsAs(b, hypotheses[i], RulesOf(version).value, next);
      if rank < leaderRank {
        leaderRank, leaderId, leader := rank, Some(hypotheses[i].id), i;
      }
      standings := standings + [next];
    }
    return Ok((standings, leaderId));
  }

  // ---- What standing depends on -----------------------------------------------------------------------------------

  lemma LookupsCarryOver(evidence: seq<Evidence>, evidence': seq<Evidence>, id: Id)
    requires Distinct(Ids(EvidenceId, evidence'))
    requires forall e :: e in evidence ==> e in evidence'
    ensures Lookup(EvidenceId, evidence, id).Some? ==>
              Lookup(EvidenceId, evidence', id) == Lookup(EvidenceId, evidence, id)
  {
    var k := LastIndex(EvidenceId, evidence, id);
    if k >= 0 {
      assert evidence[k] in evidence';
      LookupIsMembership(EvidenceId, evidence', evidence[k]);
    }
  }

  /** The order, and the repetition, of assessments and evidence never matters. */
  lemma OrderNeverMatters(b: Beliefs, b': Beliefs, h: Id, rules: Rules)
    requires b'.predictions == b.predictions
    requires forall a :: a in b.assessments <==> a in b'.assessments
    requires Distinct(Ids(EvidenceId, b.evidence)) && Distinct(Ids(EvidenceId, b'.evidence))
    requires forall e :: e in b.evidence <==> e in b'.evidence
    ensures AllGrounded(b, h) <==> AllGrounded(b', h)
    ensures StatusUnder(b, h, rules) == StatusUnder(b', h, rules)
  {
    forall id
      ensures Lookup(EvidenceId, b.evidence, id) == Lookup(EvidenceId, b'.evidence, id)
    {
      LookupsCarryOver(b.evidence, b'.evidence, id);
      LookupsCarryOver(b'.evidence, b.evidence, id);
    }
    assert forall a :: Rejecting(b, h, rules, a) == Rejecting(b', h, rules, a);
    assert IsRejected(b, h, rules) == IsRejected(b', h, rules);
    assert IndependentSupports(b, h, rules) == IndependentSupports(b', h, rules);
    assert forall strengths :: HasContradiction(b, h, strengths) == HasContradiction(b', h, strengths);
  }

  lemma OneFirstBest(ss: seq<Standing>, k: int, k': int)
    requires FirstBest(ss, k) && FirstBest(ss, k')
    ensures k == k'
  {
    assert StandingRank(ss[k].status) == StandingRank(ss[k'].status);
  }

  /** So the standings and the leader do not depend on it either. */
  lemma LeaderIgnoresOrder(b: Beliefs, b': Beliefs, hypotheses: seq<Hypothesis>, rules: Rules,
                           ss: seq<Standing>, ss': seq<Standing>, k: int, k': int)
    requires b'.predictions == b.predictions
    requires forall a :: a in b.assessments <==> a in b'.assessments
    requires Distinct(Ids(EvidenceId, b.evidence)) && Distinct(Ids(EvidenceId, b'.evidence))
    requires forall e :: e in b.evidence <==> e in b'.evidence
    requires |ss| == |ss'| == |hypotheses| && FirstBest(ss, k) && FirstBest(ss', k')
    requires forall i :: 0 <= i < |ss| ==> StandsAs(b, hypotheses[i], rules, ss[i])
    requires forall i :: 0 <= i < |ss| ==> StandsAs(b', hypotheses[i], rules, ss'[i])
    ensures ss == ss' && k == k'
  {
    forall i | 0 <= i < |ss|
      ensures ss[i] == ss'[i]
    {
      OrderNeverMatters(b, b', hypotheses[i].id, rules);
      assert StandsAs(b, hypotheses[i], rules, ss[i]) && StandsAs(b', hypotheses[i], rules, ss'[i]);
    }
    OneFirstBest(ss, k, k');
  }

  /** b' is b with one more assessment, wherever it was put. */
  ghost predicate OneMore(b: Beliefs, b': Beliefs, extra: Assessment) {
    && b'.predictions == b.predictions && b'.evidence == b.evidence
    && forall a :: a in b'.assessments <==> a in b.assessments || a == extra
  }

  predicate KnownRules(rules: Rules) {
    rules == BASELINE_STATUS_RULES || rules == V02_STATUS_RULES
  }

  /** Rank falls when a fault appears or a strength goes, and rises the other way round. */
  lemma PrecedenceIsMonotone(rejected: bool, rejected': bool, contradicted: bool, contradicted': bool,
                             corroborated: bool, corroborated': bool, confirmed: nat, confirmed': nat, rules: Rules)
    requires KnownRules(rules)
    requires (rejected ==> rejected') && (contradicted ==> contradicted') && (corroborated' ==> corroborated)
    requires confirmed' <= confirmed
    ensures StandingRank(Precedence(rejected, contradicted, corroborated, confirmed, rules))
            <= StandingRank(Precedence(rejected', contradicted', corroborated', confirmed', rules))
  {}

  /** The state c is no stronger for the hypothesis than b. */
  predicate NoStronger(b: Beliefs, c: Beliefs, h: Id, rules: Rules) {
    && (IsRejected(b, h, rules) ==> IsRejected(c, h, rules))
    && (HasContradiction(b, h, rules.weakeningStrengths) ==> HasContradiction(c, h, rules.weakeningStrengths))
    && (Corroborates(c, h, rules) ==> Corroborates(b, h, rules))
    && ConfirmedCount(c.predictions, h) <= ConfirmedCount(b.predictions, h)
  }

  lemma NoStrongerRanksNoBetter(b: Beliefs, c: Beliefs, h: Id, rules: Rules)
    requires KnownRules(rules) && NoStronger(b, c, h, rules)
    ensures RankOf(b, h, rules) <= RankOf(c, h, rules)
  {
    PrecedenceIsMonotone(IsRejected(b, h, rules), IsRejected(c, h, rules),
                         HasContradiction(b, h, rules.weakeningStrengths),
                         HasContradiction(c, h, rules.weakeningStrengths),
                         Corroborates(b, h, rules), Corroborates(c, h, rules),
                         ConfirmedCount(b.predictions, h), ConfirmedCount(c.predictions, h), rules);
  }

  lemma SupportsGrow(b: Beliefs, b': Beliefs, h: Id, rules: Rules)
    requires forall a :: a in b.assessments ==> a in b'.assessments
    ensures |IndependentSupports(b, h, rules)| <= |IndependentSupports(b', h, rules)|
  {
    SubsetSize(IndependentSupports(b, h, rules), IndependentSupports(b', h, rules));
  }

  lemma {:induction false} SubsetSize(s: set<Id>, t: set<Id>)
    requires s <= t
    ensures |s| <= |t|
    decreases s
  {
    if s != {} {
      var x :| x in s;
      SubsetSize(s - {x}, t - {x});
    }
  }

  /** A further supporting assessment never worsens a hypothesis. */
  lemma SupportNeverHurts(b: Beliefs, b': Beliefs, h: Id, rules: Rules, extra: Assessment)
    requires KnownRules(rules) && OneMore(b, b', extra) && extra.effect.Supports?
    ensures RankOf(b', h, rules) <= RankOf(b, h, rules)
  {
    SupportsGrow(b, b', h, rules);
    assert forall a :: Rejecting(b, h, rules, a) == Rejecting(b', h, rules, a);
    assert IsRejected(b', h, rules) == IsRejected(b, h, rules);
    assert forall strengths :: HasContradiction(b', h, strengths) == HasContradiction(b, h, strengths);
    NoStrongerRanksNoBetter(b', b, h, rules);
  }

  /** A further contradicting assessment never improves one. */
  lemma ContradictionNeverHelps(b: Beliefs, b': Beliefs, h: Id, rules: Rules, extra: Assessment)
    requires KnownRules(rules) && OneMore(b, b', extra) && extra.effect.Contradicts?
    ensures RankOf(b', h, rules) >= RankOf(b, h, rules)
  {
    assert forall a :: Rejecting(b, h, rules, a) == Rejecting(b', h, rules, a);
    assert IndependentSupports(b, h, rules) == IndependentSupports(b', h, rules);
    assert IsRejected(b, h, rules) ==> IsRejected(b', h, rules);
    assert forall strengths :: HasContradiction(b, h, strengths) ==> HasContradiction(b', h, strengths);
    NoStrongerRanksNoBetter(b, b', h, rules);
  }

  /** b' is b with the status of one untested prediction decided. */
  ghost predicate DecidesOne(b: Beliefs, b': Beliefs, i: nat, status: PredictionStatus) {
    && b'.assessments == b.assessments && b'.evidence == b.evidence
    && i < |b.predictions| && b.predictions[i].status.Untested?
    && b'.predictions == b.predictions[i := b.predictions[i].(status := status)]
  }

  lemma {:induction false} DecidingMoves(ps: seq<Prediction>, i: nat, status: PredictionStatus, h: Id, id: Id)
    requires i < |ps| && ps[i].status.Untested? && !status.Untested?
    ensures var p := PredictionOfHypothesis(ps, h, id);
            var q := PredictionOfHypothesis(ps[i := ps[i].(status := status)], h, id);
            && (p.Some? <==> q.Some?)
            && (p.Some? ==> q.value == p.value || (p.value.status.Untested? && q.value.status == status))
  {
    var qs, n := ps[i := ps[i].(status := status)], |ps| - 1;
    if i < n {
      assert qs[..n] == ps[..n][i := ps[..n][i].(status := status)];
      DecidingMoves(ps[..n], i, status, h, id);
    } else {
      assert qs[..n] == ps[..n];
    }
  }

  lemma {:induction false} DecidingCounts(ps: seq<Prediction>, i: nat, status: PredictionStatus, h: Id)
    requires i < |ps| && ps[i].status.Untested?
    ensures ConfirmedCount(ps[i := ps[i].(status := status)], h)
            == ConfirmedCount(ps, h) + if ps[i].hypothesisId == h && status.Confirmed? then 1 else 0
  {
    var qs, n := ps[i := ps[i].(status := status)], |ps| - 1;
    if i < n {
      assert qs[..n] == ps[..n][i := ps[..n][i].(status := status)] && qs[n] == ps[n];
      DecidingCounts(ps[..n], i, status, h);
    } else {
      assert qs[..n] == ps[..n];
    }
  }

  lemma DecidingShows(b: Beliefs, b': Beliefs, h: Id, rules: Rules, i: nat, status: PredictionStatus, a: Assessment)
    requires KnownRules(rules) && DecidesOne(b, b', i, status) && !status.Untested?
    ensures Rejecting(b, h, rules, a) ==> Rejecting(b', h, rules, a)
    ensures Rejecting(b', h, rules, a) && status.Confirmed? ==> Rejecting(b, h, rules, a)
  {
    if a.predictionId.Some? { DecidingMoves(b.predictions, i, status, h, a.predictionId.value); }
  }

  lemma SameReadings(b: Beliefs, b': Beliefs, h: Id, rules: Rules)
    requires b'.assessments == b.assessments
    ensures Corroborates(b, h, rules) == Corroborates(b', h, rules)
    ensures forall strengths :: HasContradiction(b, h, strengths) == HasContradiction(b', h, strengths)
  {
    assert IndependentSupports(b, h, rules) == IndependentSupports(b', h, rules);
  }

  /** Confirming an untested prediction never worsens a hypothesis. */
  lemma ConfirmingNeverHurts(b: Beliefs, b': Beliefs, h: Id, rules: Rules, i: nat)
    requires KnownRules(rules) && DecidesOne(b, b', i, Confirmed)
    ensures RankOf(b', h, rules) <= RankOf(b, h, rules)
  {
    DecidingCounts(b.predictions, i, Confirmed, h);
    forall a { DecidingShows(b, b', h, rules, i, Confirmed, a); }
    assert IsRejected(b', h, rules) ==> IsRejected(b, h, rules);
    SameReadings(b, b', h, rules);
    NoStrongerRanksNoBetter(b', b, h, rules);
  }

  /** Refuting one never improves it. */
  lemma RefutingNeverHelps(b: Beliefs, b': Beliefs, h: Id, rules: Rules, i: nat)
    requires KnownRules(rules) && DecidesOne(b, b', i, Refuted)
    ensures RankOf(b', h, rules) >= RankOf(b, h, rules)
  {
    DecidingCounts(b.predictions, i, Refuted, h);
    forall a { DecidingShows(b, b', h, rules, i, Refuted, a); }
    assert IsRejected(b, h, rules) ==> IsRejected(b', h, rules);
    SameReadings(b, b', h, rules);
    NoStrongerRanksNoBetter(b, b', h, rules);
  }

  /** The two rule versions differ in one reading: v0.1 has no word for corroborated and says candidate. */
  lemma VersionsDifferInOneReading(b: Beliefs, h: Id)
    ensures StatusUnder(b, h, BASELINE_STATUS_RULES)
            == if StatusUnder(b, h, V02_STATUS_RULES).Corroborated? then Candidate
               else StatusUnder(b, h, V02_STATUS_RULES)
  {
    assert IndependentSupports(b, h, BASELINE_STATUS_RULES) == IndependentSupports(b, h, V02_STATUS_RULES);
    assert forall a :: Rejecting(b, h, BASELINE_STATUS_RULES, a) == Rejecting(b, h, V02_STATUS_RULES, a);
  }

  /** A medium or high contradiction on the books keeps a hypothesis weakened or rejected, whatever else there is. */
  lemma ContradictionWeakens(b: Beliefs, h: Id, rules: Rules, a: Assessment)
    requires KnownRules(rules) && a in b.assessments && Contradicting(h, rules.weakeningStrengths, a)
    ensures StatusUnder(b, h, rules).Weakened? || StatusUnder(b, h, rules).Rejected?
  {}
}
