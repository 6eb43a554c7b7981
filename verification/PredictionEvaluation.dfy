/**
  evaluatePredictionObservations: typed expectations against typed facts, packages/domain/src/prediction-evaluation.ts.

  The code reads evidence as a list and collects matches in order. Settled says what it must decide from the set of
  facts alone, with no order in it; the theorems tie the two.
 */
module PredictionEvaluation {
  import opened Wrappers
  import opened Contracts
  import opened Reducers

  datatype FactVerdict = Holds | Opposes | Unknown

  /** trim().toLowerCase(), for the ASCII part of both. */
  function NormalizeSubject(subject: string): string {
    LowerCase(TrimEnd(TrimStart(subject)))
  }

  predicate IsSpace(c: char) {
    c in {' ', '\t', '\n', '\r'}
  }

  function TrimStart(s: string): string {
    if s != [] && IsSpace(s[0]) then TrimStart(s[1..]) else s
  }

  function TrimEnd(s: string): string {
    if s != [] && IsSpace(s[|s| - 1]) then TrimEnd(s[..|s| - 1]) else s
  }

  function LowerCase(s: string): string {
    seq(|s|, i requires 0 <= i < |s| => if 'A' <= s[i] <= 'Z' then s[i] + 32 as char else s[i])
  }

  function PresenceVerdict(observed: Option<Presence>, expected: Presence): FactVerdict {
    match observed
    case None => Unknown
    case Some(presence) => if presence == expected then Holds else Opposes
  }

  /** None when the fact is about something else. */
  function MatchFact(o: ExpectedObservation, fact: ObservedFact): Option<FactVerdict> {
    if NormalizeSubject(fact.subject) != NormalizeSubject(o.subject) || fact.window != o.window then None else
    match o
    case ExpectDeployment(_, _, presence) =>
      if fact.ObservedDeployment? then Some(PresenceVerdict(ObservedPresence(fact), presence)) else None
    case ExpectLogClass(_, _, logClass, presence) =>
      if fact.ObservedLogClass? && fact.logClass == logClass
      then Some(PresenceVerdict(ObservedPresence(fact), presence))
      else None
    case ExpectSignal(_, _, signal, state) =>
      if fact.ObservedSignal? && fact.signal == signal
      then Some(if fact.state == state then Holds else Opposes)
      else None
  }

  function Facts(e: Evidence): seq<ObservedFact> {
    match e.observation
    case None => []
    case Some(facts) => facts
  }

  // ---- What is to be decided, from the evidence as a set ----------------------------------------------------------

  /** The item carries a fact with this verdict for the observation. */
  predicate Shows(e: Evidence, o: ExpectedObservation, v: FactVerdict) {
    exists fact :: fact in Facts(e) && MatchFact(o, fact) == Some(v)
  }

  predicate ShowsAny(e: Evidence, os: seq<ExpectedObservation>, v: FactVerdict) {
    exists o :: o in os && Shows(e, o, v)
  }

  ghost predicate Seen(evidence: set<Evidence>, o: ExpectedObservation, v: FactVerdict) {
    exists e :: e in evidence && Shows(e, o, v)
  }

  ghost predicate AnySeen(evidence: set<Evidence>, os: seq<ExpectedObservation>, v: FactVerdict) {
    exists o :: o in os && Seen(evidence, o, v)
  }

  ghost predicate Conflict(evidence: set<Evidence>, os: seq<ExpectedObservation>) {
    exists o :: o in os && Seen(evidence, o, Holds) && Seen(evidence, o, Opposes)
  }

  /** The evidence ids that carry a fact with this verdict for one of the observations. */
  ghost function Carriers(evidence: set<Evidence>, os: seq<ExpectedObservation>, v: FactVerdict): set<Id> {
    set e | e in evidence && ShowsAny(e, os, v) :: e.id
  }

  datatype Finding = Finding(status: PredictionStatus, effect: Option<Effect>, rationale: Option<Rationale>)

  /** The false case is read first and decides alone when it can. */
  ghost function FalseCase(os: seq<ExpectedObservation>, evidence: set<Evidence>): Option<(Finding, set<Id>)> {
    if Conflict(evidence, os) then Some((Finding(Untestable, None, None), {}))
    else if AnySeen(evidence, os, Holds) then
      Some((Finding(Refuted, Some(Contradicts), Some(FalseCaseHeld)), Carriers(evidence, os, Holds)))
    else if AnySeen(evidence, os, Unknown) then Some((Finding(Untestable, None, None), {}))
    else None
  }

  ghost function TrueCase(os: seq<ExpectedObservation>, evidence: set<Evidence>): Option<(Finding, set<Id>)> {
    if Conflict(evidence, os) then Some((Finding(Untestable, None, None), {}))
    else if AnySeen(evidence, os, Opposes) then
      Some((Finding(Refuted, Some(Contradicts), Some(OppositeOfExpected)), Carriers(evidence, os, Opposes)))
    else if AnySeen(evidence, os, Unknown) then Some((Finding(Untestable, None, None), {}))
    else if os != [] && forall o :: o in os ==> Seen(evidence, o, Holds) then
      Some((Finding(Confirmed, Some(Supports), Some(EveryExpectationHeld)), Carriers(evidence, os, Holds)))
    else None
  }

  /** The finding and the ids of the evidence it rests on; a prediction nothing settles keeps its status. */
  ghost function Settled(p: Prediction, evidence: set<Evidence>): (Finding, set<Id>) {
    match FalseCase(p.expectedIfFalse, evidence)
    case Some(r) => r
    case None =>
      match TrueCase(p.expectedIfTrue, evidence)
      case Some(r) => r
      case None => (Finding(p.status, None, None), {})
  }

  // ---- The code's own steps ---------------------------------------------------------------------------------------

  datatype Match = Match(evidence: Evidence, verdict: FactVerdict)

  datatype Summary = Summary(holds: seq<Match>, opposes: seq<Match>, unknown: seq<Match>)

  /** The matches are those of the evidence, each with the verdict of one of its facts. */
  ghost predicate MatchesOf(matches: seq<Match>, o: ExpectedObservation, evidence: seq<Evidence>) {
    forall e, v :: Match(e, v) in matches <==> e in evidence && Shows(e, o, v)
  }

  ghost predicate SummaryOf(s: Summary, o: ExpectedObservation, evidence: seq<Evidence>) {
    && (forall m :: m in s.holds <==> m.verdict == Holds && m.evidence in evidence && Shows(m.evidence, o, Holds))
    && (forall m :: m in s.opposes <==> m.verdict == Opposes && m.evidence in evidence && Shows(m.evidence, o, Opposes))
    && (forall m :: m in s.unknown <==> m.verdict == Unknown && m.evidence in evidence && Shows(m.evidence, o, Unknown))
  }

  function Select(matches: seq<Match>, v: FactVerdict): (r: seq<Match>)
    ensures forall m :: m in r <==> m in matches && m.verdict == v
  {
    if matches == [] then []
    else (if matches[0].verdict == v then [matches[0]] else []) + Select(matches[1..], v)
  }

  /** summarizeObservation: the two nested loops that push matches, then the three filters. */
  method SummarizeObservation(o: ExpectedObservation, evidence: seq<Evidence>) returns (s: Summary)
    ensures SummaryOf(s, o, evidence)
  {
    var matches: seq<Match> := [];
    for i := 0 to |evidence|
      invariant MatchesOf(matches, o, evidence[..i])
    {
      var item, facts := evidence[i], Facts(evidence[i]);
      ghost var before := matches;
      for j := 0 to |facts|
        invariant forall m :: m in matches <==>
          m in before
          || (m.evidence == item && exists fact :: fact in facts[..j] && MatchFact(o, fact) == Some(m.verdict))
      {
        assert facts[..j + 1] == facts[..j] + [facts[j]];
        var verdict := MatchFact(o, facts[j]);
        if verdict.Some? { matches := matches + [Match(item, verdict.value)]; }
      }
      assert facts[..|facts|] == facts;
      assert evidence[..i + 1] == evidence[..i] + [item];
    }
    assert evidence[..|evidence|] == evidence;
    s := Summary(Select(matches, Holds), Select(matches, Opposes), Select(matches, Unknown));
  }

  /** dedupeByEvidence: one item per evidence id, in order of first match. */
  method DedupeByEvidence(matches: seq<Match>) returns (items: seq<Evidence>)
    ensures Distinct(Ids(EvidenceId, items))
    ensures forall e :: e in items ==> exists m :: m in matches && m.evidence == e
    ensures forall m :: m in matches ==> m.evidence.id in Ids(EvidenceId, items)
  {
    items := [];
    var seen: set<Id> := {};
    for i := 0 to |matches|
      invariant Distinct(Ids(EvidenceId, items))
      invariant forall id :: id in seen <==> id in Ids(EvidenceId, items)
      invariant forall e :: e in items ==> exists m :: m in matches && m.evidence == e
      invariant forall j :: 0 <= j < i ==> matches[j].evidence.id in seen
    {
      var item := matches[i].evidence;
      if item.id !in seen {
        assert Ids(EvidenceId, items + [item]) == Ids(EvidenceId, items) + [item.id];
        assert matches[i] in matches;
        seen := seen + {item.id};
        items := items + [item];
      }
    }
  }

  // ---- One prediction ---------------------------------------------------------------------------------------------

  ghost function AsSet(evidence: seq<Evidence>): set<Evidence> {
    set e | e in evidence
  }

  method SummarizeAll(os: seq<ExpectedObservation>, evidence: seq<Evidence>) returns (summaries: seq<Summary>)
    ensures Summarized(summaries, os, evidence)
  {
    summaries := [];
    for i := 0 to |os|
      invariant |summaries| == i && forall j :: 0 <= j < i ==> SummaryOf(summaries[j], os[j], evidence)
    {
      var summary := SummarizeObservation(os[i], evidence);
      summaries := summaries + [summary];
    }
  }

  function Part(s: Summary, v: FactVerdict): seq<Match> {
    match v case Holds => s.holds case Opposes => s.opposes case Unknown => s.unknown
  }

  /** summaries.flatMap(...) for one verdict. */
  function FlatMap(summaries: seq<Summary>, v: FactVerdict): (r: seq<Match>)
    ensures forall m :: m in r <==> exists i :: 0 <= i < |summaries| && m in Part(summaries[i], v)
  {
    if summaries == [] then [] else
    var rest := FlatMap(summaries[1..], v);
    assert forall i :: 0 <= i < |summaries[1..]| ==> summaries[1..][i] == summaries[i + 1];
    assert forall i :: 0 < i < |summaries| ==> summaries[i] == summaries[1..][i - 1];
    Part(summaries[0], v) + rest
  }

  ghost predicate Summarized(summaries: seq<Summary>, os: seq<ExpectedObservation>, evidence: seq<Evidence>) {
    |summaries| == |os| && forall i :: 0 <= i < |os| ==> SummaryOf(summaries[i], os[i], evidence)
  }

  lemma SummaryShows(s: Summary, o: ExpectedObservation, evidence: seq<Evidence>, v: FactVerdict)
    requires SummaryOf(s, o, evidence)
    ensures Part(s, v) != [] <==> Seen(AsSet(evidence), o, v)
    ensures forall e :: Match(e, v) in Part(s, v) <==> e in evidence && Shows(e, o, v)
    ensures forall m :: m in Part(s, v) ==> m.verdict == v
  {
    if Part(s, v) != [] {
      var m := Part(s, v)[0];
      assert m in Part(s, v);
      assert m.evidence in AsSet(evidence);
    }
    if Seen(AsSet(evidence), o, v) {
      var e :| e in AsSet(evidence) && Shows(e, o, v);
      assert Match(e, v) in Part(s, v);
    }
  }

  ghost predicate MatchesFor(matches: seq<Match>, os: seq<ExpectedObservation>, evidence: seq<Evidence>,
                             v: FactVerdict)
  {
    forall m :: m in matches <==> m.verdict == v && m.evidence in evidence && ShowsAny(m.evidence, os, v)
  }

  lemma FlatMapShows(summaries: seq<Summary>, os: seq<ExpectedObservation>, evidence: seq<Evidence>, v: FactVerdict)
    requires Summarized(summaries, os, evidence)
    ensures MatchesFor(FlatMap(summaries, v), os, evidence, v)
    ensures FlatMap(summaries, v) != [] <==> AnySeen(AsSet(evidence), os, v)
  {
    forall m
      ensures m in FlatMap(summaries, v) <==> m.verdict == v && m.evidence in evidence && ShowsAny(m.evidence, os, v)
    {
      if m in FlatMap(summaries, v) {
        var i :| 0 <= i < |summaries| && m in Part(summaries[i], v);
        SummaryShows(summaries[i], os[i], evidence, v);
        assert m == Match(m.evidence, v) && os[i] in os;
      }
      if m.verdict == v && m.evidence in evidence && ShowsAny(m.evidence, os, v) {
        var o :| o in os && Shows(m.evidence, o, v);
        var i :| 0 <= i < |os| && os[i] == o;
        SummaryShows(summaries[i], os[i], evidence, v);
        assert m == Match(m.evidence, v) && m in Part(summaries[i], v);
      }
    }
    MatchesSeen(FlatMap(summaries, v), os, evidence, v);
  }

  lemma MatchesSeen(matches: seq<Match>, os: seq<ExpectedObservation>, evidence: seq<Evidence>, v: FactVerdict)
    requires MatchesFor(matches, os, evidence, v)
    ensures matches != [] <==> AnySeen(AsSet(evidence), os, v)
  {
    if matches != [] {
      var e := matches[0].evidence;
      assert matches[0] in matches;
      var o :| o in os && Shows(e, o, v);
      assert e in AsSet(evidence) && Seen(AsSet(evidence), o, v);
    }
    if AnySeen(AsSet(evidence), os, v) {
      var o :| o in os && Seen(AsSet(evidence), o, v);
      var e :| e in AsSet(evidence) && Shows(e, o, v);
      assert Match(e, v) in matches;
    }
  }

  lemma CarriersOf(matches: seq<Match>, items: seq<Evidence>, os: seq<ExpectedObservation>, evidence: seq<Evidence>,
                   v: FactVerdict)
    requires MatchesFor(matches, os, evidence, v)
    requires forall e :: e in items ==> exists m :: m in matches && m.evidence == e
    requires forall m :: m in matches ==> m.evidence.id in Ids(EvidenceId, items)
    ensures (set id | id in Ids(EvidenceId, items)) == Carriers(AsSet(evidence), os, v)
    ensures forall e :: e in items ==> e in evidence
  {
    forall id | id in Carriers(AsSet(evidence), os, v)
      ensures id in Ids(EvidenceId, items)
    {
      var e :| e in AsSet(evidence) && ShowsAny(e, os, v) && e.id == id;
      assert Match(e, v) in matches;
    }
    forall id | id in Ids(EvidenceId, items)
      ensures id in Carriers(AsSet(evidence), os, v)
    {
      var i :| 0 <= i < |items| && Ids(EvidenceId, items)[i] == id;
      assert items[i] in items;
    }
  }

  datatype Verdict = Verdict(finding: Finding, contributing: seq<Evidence>)

  /** The verdict is the one the evidence settles, with one contributing item for each carrier id. */
  ghost predicate VerdictOf(r: Verdict, p: Prediction, evidence: seq<Evidence>) {
    && r.finding == Settled(p, AsSet(evidence)).0
    && (set id | id in Ids(EvidenceId, r.contributing)) == Settled(p, AsSet(evidence)).1
    && Distinct(Ids(EvidenceId, r.contributing))
    && forall e :: e in r.contributing ==> e in evidence
  }

  predicate SomeConflict(summaries: seq<Summary>) {
    exists i :: 0 <= i < |summaries| && summaries[i].holds != [] && summaries[i].opposes != []
  }

  lemma ConflictShows(summaries: seq<Summary>, os: seq<ExpectedObservation>, evidence: seq<Evidence>)
    requires Summarized(summaries, os, evidence)
    ensures SomeConflict(summaries) <==> Conflict(AsSet(evidence), os)
    ensures (forall i :: 0 <= i < |summaries| ==> summaries[i].holds != [])
            <==> (forall o :: o in os ==> Seen(AsSet(evidence), o, Holds))
  {
    forall i | 0 <= i < |os|
      ensures summaries[i].holds != [] <==> Seen(AsSet(evidence), os[i], Holds)
      ensures summaries[i].opposes != [] <==> Seen(AsSet(evidence), os[i], Opposes)
    {
      SummaryShows(summaries[i], os[i], evidence, Holds);
      SummaryShows(summaries[i], os[i], evidence, Opposes);
    }
    assert forall i :: 0 <= i < |os| ==> os[i] in os;
  }

  /** The result carries the case's finding, with one item of the evidence for each of its ids. */
  ghost predicate CaseOf(r: Option<Verdict>, settled: Option<(Finding, set<Id>)>, evidence: seq<Evidence>) {
    && (r.None? <==> settled.None?)
    && (r.Some? ==>
          && r.value.finding == settled.value.0
          && (set id | id in Ids(EvidenceId, r.value.contributing)) == settled.value.1
          && Distinct(Ids(EvidenceId, r.value.contributing))
          && forall e :: e in r.value.contributing ==> e in evidence)
  }

  method ReadFalseCase(os: seq<ExpectedObservation>, evidence: seq<Evidence>) returns (r: Option<Verdict>)
    ensures CaseOf(r, FalseCase(os, AsSet(evidence)), evidence)
  {
    var summaries := SummarizeAll(os, evidence);
    ConflictShows(summaries, os, evidence);
    if SomeConflict(summaries) { return Some(Verdict(Finding(Untestable, None, None), [])); }
    var holding := FlatMap(summaries, Holds);
    FlatMapShows(summaries, os, evidence, Holds);
    if |holding| > 0 {
      var items := DedupeByEvidence(holding);
      CarriersOf(holding, items, os, evidence, Holds);
      return Some(Verdict(Finding(Refuted, Some(Contradicts), Some(FalseCaseHeld)), items));
    }
    FlatMapShows(summaries, os, evidence, Unknown);
    if |FlatMap(summaries, Unknown)| > 0 { return Some(Verdict(Finding(Untestable, None, None), [])); }
    return None;
  }

  method ReadTrueCase(os: seq<ExpectedObservation>, evidence: seq<Evidence>) returns (r: Option<Verdict>)
    ensures CaseOf(r, TrueCase(os, AsSet(evidence)), evidence)
  {
    var summaries := SummarizeAll(os, evidence);
    ConflictShows(summaries, os, evidence);
    if SomeConflict(summaries) { return Some(Verdict(Finding(Untestable, None, None), [])); }
    var opposing := FlatMap(summaries, Opposes);
    FlatMapShows(summaries, os, evidence, Opposes);
    if |opposing| > 0 {
      var items := DedupeByEvidence(opposing);
      CarriersOf(opposing, items, os, evidence, Opposes);
      return Some(Verdict(Finding(Refuted, Some(Contradicts), Some(OppositeOfExpected)), items));
    }
    FlatMapShows(summaries, os, evidence, Unknown);
    if |FlatMap(summaries, Unknown)| > 0 { return Some(Verdict(Finding(Untestable, None, None), [])); }
    if |summaries| > 0 && forall i :: 0 <= i < |summaries| ==> summaries[i].holds != [] {
      var holding := FlatMap(summaries, Holds);
      FlatMapShows(summaries, os, evidence, Holds);
      var items := DedupeByEvidence(holding);
      CarriersOf(holding, items, os, evidence, Holds);
      return Some(Verdict(Finding(Confirmed, Some(Supports), Some(EveryExpectationHeld)), items));
    }
    return None;
  }

  /** evaluateSinglePrediction. */
  method EvaluateSinglePrediction(p: Prediction, evidence: seq<Evidence>) returns (r: Verdict)
    ensures VerdictOf(r, p, evidence)
  {
    var read := ReadFalseCase(p.expectedIfFalse, evidence);
    if read.Some? { return read.value; }
    read := ReadTrueCase(p.expectedIfTrue, evidence);
    if read.Some? { return read.value; }
    return Verdict(Finding(p.status, None, None), []);
  }

  // ---- The whole evaluation ---------------------------------------------------------------------------------------

  predicate Decided(p: Prediction) {
    p.status.Confirmed? || p.status.Refuted?
  }

  /** Evidence with facts, observed at or before the cut. */
  predicate Qualifies(e: Evidence, asOf: int) {
    e.observation.Some? && e.observedAt.Some? && e.observedAt.value <= asOf
  }

  ghost function Qualifying(evidence: seq<Evidence>, asOf: int): set<Evidence> {
    set e | e in evidence && Qualifies(e, asOf)
  }

  function AssessmentFor(p: Prediction, finding: Finding, evidenceId: Id, asOf: int): Assessment
    requires finding.effect.Some? && finding.rationale.Some?
  {
    Assessment(RuleAssessmentOf(p.id, evidenceId), evidenceId, p.hypothesisId, Some(p.id), finding.effect.value, Medium,
               finding.rationale.value, Rule, asOf)
  }

  /** The prediction after an evaluation: decided ones are final. */
  ghost function Outcome(p: Prediction, evidence: set<Evidence>): Prediction {
    if Decided(p) then p else p.(status := Settled(p, evidence).0.status)
  }

  ghost function AssessmentsFor(p: Prediction, evidence: set<Evidence>, asOf: int): set<Assessment> {
    if Decided(p) then {} else
    set id | id in Settled(p, evidence).1 :: AssessmentFor(p, Settled(p, evidence).0, id, asOf)
  }

  /** The result is determined by the set of qualifying evidence, but for the order of the assessments. */
  ghost predicate Evaluated(predictions: seq<Prediction>, evidence: set<Evidence>, asOf: int,
                            out: seq<Prediction>, assessments: seq<Assessment>)
  {
    && |out| == |predictions|
    && (forall i :: 0 <= i < |out| ==> out[i] == Outcome(predictions[i], evidence))
    && (forall a :: a in assessments <==> exists p :: p in predictions && a in AssessmentsFor(p, evidence, asOf))
  }

  function Assess(p: Prediction, r: Verdict, asOf: int): (assessments: seq<Assessment>)
    requires r.finding.effect.Some? ==> r.finding.rationale.Some?
  {
    if r.finding.effect.None? then [] else
    seq(|r.contributing|, i requires 0 <= i < |r.contributing| =>
      AssessmentFor(p, r.finding, r.contributing[i].id, asOf))
  }

  lemma AssessMeaning(p: Prediction, r: Verdict, evidence: seq<Evidence>, asOf: int)
    requires VerdictOf(r, p, evidence) && !Decided(p)
    ensures r.finding.effect.Some? ==> r.finding.rationale.Some?
    ensures forall a :: a in Assess(p, r, asOf) <==> a in AssessmentsFor(p, AsSet(evidence), asOf)
    ensures Distinct(Ids(AssessmentId, Assess(p, r, asOf)))
    ensures forall a :: a in Assess(p, r, asOf) ==> a.predictionId == Some(p.id)
  {
    var assessments := Assess(p, r, asOf);
    if r.finding.effect.Some? {
      forall a | a in AssessmentsFor(p, AsSet(evidence), asOf)
        ensures a in assessments
      {
        assert a.evidenceId in Settled(p, AsSet(evidence)).1;
        assert a.evidenceId in Ids(EvidenceId, r.contributing);
        var i :| 0 <= i < |r.contributing| && Ids(EvidenceId, r.contributing)[i] == a.evidenceId;
        assert assessments[i] == a;
      }
      forall i | 0 <= i < |assessments|
        ensures assessments[i] in AssessmentsFor(p, AsSet(evidence), asOf)
      {
        assert Ids(EvidenceId, r.contributing)[i] == r.contributing[i].id;
        assert r.contributing[i].id in Settled(p, AsSet(evidence)).1;
      }
      forall i, j | 0 <= i < j < |assessments|
        ensures assessments[i].id != assessments[j].id
      {
        assert Ids(EvidenceId, r.contributing)[i] != Ids(EvidenceId, r.contributing)[j];
      }
    }
  }

  /** evaluatePredictionObservations; an asOf that does not parse is the one exception it throws. */
  method EvaluatePredictionObservations(predictions: seq<Prediction>, evidence: seq<Evidence>, asOf: Option<int>)
    returns (r: Result<(seq<Prediction>, seq<Assessment>), ()>)
    ensures r.Ok? <==> asOf.Some?
    ensures r.Ok? ==> Evaluated(predictions, Qualifying(evidence, asOf.value), asOf.value, r.value.0, r.value.1)
    ensures r.Ok? && Distinct(Ids(PredictionId, predictions)) ==> Distinct(Ids(AssessmentId, r.value.1))
  {
    if asOf.None? { return Err(()); }
    var cut := asOf.value;
    var qualifying: seq<Evidence> := [];
    for i := 0 to |evidence|
      invariant AsSet(qualifying) == Qualifying(evidence[..i], cut)
    {
      assert evidence[..i + 1] == evidence[..i] + [evidence[i]];
      assert AsSet(qualifying + [evidence[i]]) == AsSet(qualifying) + {evidence[i]};
      if Qualifies(evidence[i], cut) { qualifying := qualifying + [evidence[i]]; }
    }
    assert evidence[..|evidence|] == evidence;
    ghost var seen := AsSet(qualifying);

    var out: seq<Prediction>, assessments: seq<Assessment> := [], [];
    for i := 0 to |predictions|
      invariant Evaluated(predictions[..i], seen, cut, out, assessments)
      invariant Distinct(Ids(PredictionId, predictions)) ==> Distinct(Ids(AssessmentId, assessments))
    {
      var p := predictions[i];
      ghost var before := assessments;
      assert predictions[..i + 1] == predictions[..i] + [p];
      if p.status.Confirmed? || p.status.Refuted? {
        out := out + [p];
      } else {
        var verdict := EvaluateSinglePrediction(p, qualifying);
        AssessMeaning(p, verdict, qualifying, cut);
        assessments := assessments + Assess(p, verdict, cut);
        out := out + [if verdict.finding.status == p.status then p else p.(status := verdict.finding.status)];
        if Distinct(Ids(PredictionId, predictions)) {
          AssessmentsStayDistinct(predictions, i, seen, cut, before, Assess(p, verdict, cut));
        }
      }
      EvaluatedSnoc(predictions[..i], p, seen, cut, out[..i], before, out[i], assessments[|before|..]);
      assert out == out[..i] + [out[i]] && assessments == before + assessments[|before|..];
    }
    assert predictions[..|predictions|] == predictions;
    return Ok((out, assessments));
  }

  lemma EvaluatedSnoc(predictions: seq<Prediction>, p: Prediction, seen: set<Evidence>, asOf: int, out: seq<Prediction>,
                      assessments: seq<Assessment>, o: Prediction, more: seq<Assessment>)
    requires Evaluated(predictions, seen, asOf, out, assessments)
    requires o == Outcome(p, seen) && forall a :: a in more <==> a in AssessmentsFor(p, seen, asOf)
    ensures Evaluated(predictions + [p], seen, asOf, out + [o], assessments + more)
  {
    forall a | a in AssessmentsFor(p, seen, asOf)
      ensures exists q :: q in predictions + [p] && a in AssessmentsFor(q, seen, asOf)
    {
      assert p in predictions + [p];
    }
    forall a, q | q in predictions && a in AssessmentsFor(q, seen, asOf)
      ensures exists q' :: q' in predictions + [p] && a in AssessmentsFor(q', seen, asOf)
    {
      assert q in predictions + [p];
    }
  }

  lemma AssessmentsStayDistinct(predictions: seq<Prediction>, i: nat, seen: set<Evidence>, asOf: int,
                                before: seq<Assessment>, more: seq<Assessment>)
    requires i < |predictions| && Distinct(Ids(PredictionId, predictions))
    requires forall a :: a in before ==> exists p :: p in predictions[..i] && a in AssessmentsFor(p, seen, asOf)
    requires forall a :: a in more ==> a in AssessmentsFor(predictions[i], seen, asOf)
    requires Distinct(Ids(AssessmentId, before)) && Distinct(Ids(AssessmentId, more))
    ensures Distinct(Ids(AssessmentId, before + more))
  {
    forall j, k | 0 <= j < |before| && 0 <= k < |more|
      ensures before[j].id != more[k].id
    {
      assert before[j] in before && more[k] in more;
      var p :| p in predictions[..i] && before[j] in AssessmentsFor(p, seen, asOf);
      var n :| 0 <= n < i && predictions[n] == p;
      assert Ids(PredictionId, predictions)[n] != Ids(PredictionId, predictions)[i];
    }
    assert Ids(AssessmentId, before + more) == Ids(AssessmentId, before) + Ids(AssessmentId, more);
  }

  // ---- What the evaluation promises -------------------------------------------------------------------------------

  /**
    Two evidence lists that agree on what was observed at or before the cut give the same predictions and the same set
    of assessments: order, repetition and later evidence do not matter.
   */
  lemma OnlyQualifyingEvidenceMatters(predictions: seq<Prediction>, evidence: seq<Evidence>, evidence': seq<Evidence>,
                                      asOf: int, out: seq<Prediction>, assessments: seq<Assessment>,
                                      out': seq<Prediction>, assessments': seq<Assessment>)
    requires forall e :: Qualifies(e, asOf) ==> (e in evidence <==> e in evidence')
    requires Evaluated(predictions, Qualifying(evidence, asOf), asOf, out, assessments)
    requires Evaluated(predictions, Qualifying(evidence', asOf), asOf, out', assessments')
    ensures out == out' && forall a :: a in assessments <==> a in assessments'
  {
    assert Qualifying(evidence, asOf) == Qualifying(evidence', asOf);
    assert forall i :: 0 <= i < |out| ==> out[i] == out'[i];
  }

  lemma CarriersExist(evidence: set<Evidence>, os: seq<ExpectedObservation>, v: FactVerdict)
    ensures AnySeen(evidence, os, v) <==> Carriers(evidence, os, v) != {}
  {
    if AnySeen(evidence, os, v) {
      var o :| o in os && Seen(evidence, o, v);
      var e :| e in evidence && Shows(e, o, v);
      assert ShowsAny(e, os, v) && e.id in Carriers(evidence, os, v);
    }
    if Carriers(evidence, os, v) != {} {
      var id :| id in Carriers(evidence, os, v);
      var e :| e in evidence && ShowsAny(e, os, v) && e.id == id;
      var o :| o in os && Shows(e, o, v);
      assert Seen(evidence, o, v);
    }
  }

  /** A finding decides exactly when it rests on evidence, and its effect is the one the status calls for. */
  lemma SettledDecides(p: Prediction, evidence: set<Evidence>)
    requires !Decided(p)
    ensures var (finding, ids) := Settled(p, evidence);
            && (Decided(p.(status := finding.status)) <==> ids != {})
            && (ids != {} ==> finding.rationale.Some?
                              && finding.effect == Some(if finding.status.Confirmed? then Supports else Contradicts))
  {
    CarriersExist(evidence, p.expectedIfFalse, Holds);
    CarriersExist(evidence, p.expectedIfTrue, Opposes);
    CarriersExist(evidence, p.expectedIfTrue, Holds);
    if p.expectedIfTrue != [] { assert p.expectedIfTrue[0] in p.expectedIfTrue; }
  }

  lemma AssessmentNamesPrediction(p: Prediction, evidence: set<Evidence>, asOf: int, a: Assessment)
    requires a in AssessmentsFor(p, evidence, asOf)
    ensures a.predictionId == Some(p.id) && a.hypothesisId == p.hypothesisId
            && a.id == RuleAssessmentOf(p.id, a.evidenceId)
    ensures a.producedBy == Rule && a.strength == Medium && a.at == asOf
    ensures a.effect == if Outcome(p, evidence).status.Confirmed? then Supports else Contradicts
    ensures exists e :: e in evidence && e.id == a.evidenceId
  {
    SettledDecides(p, evidence);
    SettledIdsAreEvidence(p, evidence);
  }

  lemma SettledIdsAreEvidence(p: Prediction, evidence: set<Evidence>)
    ensures forall id :: id in Settled(p, evidence).1 ==> exists e :: e in evidence && e.id == id
  {}

  /** With distinct ids, the assessments that name a prediction are the ones made for it. */
  lemma OwnAssessments(predictions: seq<Prediction>, evidence: set<Evidence>, asOf: int, out: seq<Prediction>,
                       assessments: seq<Assessment>, i: nat, a: Assessment)
    requires Evaluated(predictions, evidence, asOf, out, assessments)
    requires Distinct(Ids(PredictionId, predictions)) && i < |predictions|
    ensures a in assessments && a.predictionId == Some(predictions[i].id)
            <==> a in AssessmentsFor(predictions[i], evidence, asOf)
  {
    var p := predictions[i];
    assert p in predictions;
    if a in AssessmentsFor(p, evidence, asOf) { AssessmentNamesPrediction(p, evidence, asOf, a); }
    if a in assessments && a.predictionId == Some(p.id) {
      var q :| q in predictions && a in AssessmentsFor(q, evidence, asOf);
      AssessmentNamesPrediction(q, evidence, asOf, a);
      SameIdSamePrediction(predictions, p, q);
    }
  }

  lemma SameIdSamePrediction(predictions: seq<Prediction>, p: Prediction, q: Prediction)
    requires Distinct(Ids(PredictionId, predictions)) && p in predictions && q in predictions && p.id == q.id
    ensures p == q
  {
    LookupIsMembership(PredictionId, predictions, p);
    LookupIsMembership(PredictionId, predictions, q);
  }

  /** A prediction is decided by this evaluation if and only if it emits an assessment, and all of them say the same. */
  lemma DecidesIffAssesses(predictions: seq<Prediction>, evidence: set<Evidence>, asOf: int, out: seq<Prediction>,
                           assessments: seq<Assessment>, i: nat)
    requires Evaluated(predictions, evidence, asOf, out, assessments)
    requires Distinct(Ids(PredictionId, predictions)) && i < |predictions|
    ensures Decided(predictions[i]) ==> out[i] == predictions[i]
    ensures (exists a :: a in assessments && a.predictionId == Some(predictions[i].id))
            <==> !Decided(predictions[i]) && Decided(out[i])
    ensures forall a :: a in assessments && a.predictionId == Some(predictions[i].id) ==>
              && a.hypothesisId == predictions[i].hypothesisId && a.producedBy == Rule && a.at == asOf
              && a.effect == (if out[i].status.Confirmed? then Supports else Contradicts) && a.strength == Medium
  {
    var p := predictions[i];
    if !Decided(p) { SettledDecides(p, evidence); }
    forall a | a in assessments && a.predictionId == Some(p.id)
      ensures a in AssessmentsFor(p, evidence, asOf)
      ensures a.hypothesisId == p.hypothesisId && a.producedBy == Rule && a.at == asOf && a.strength == Medium
      ensures a.effect == if out[i].status.Confirmed? then Supports else Contradicts
    {
      OwnAssessments(predictions, evidence, asOf, out, assessments, i, a);
      AssessmentNamesPrediction(p, evidence, asOf, a);
    }
    forall a | a in AssessmentsFor(p, evidence, asOf)
      ensures a in assessments && a.predictionId == Some(p.id)
    {
      OwnAssessments(predictions, evidence, asOf, out, assessments, i, a);
    }
    if !Decided(p) && Decided(out[i]) {
      var id :| id in Settled(p, evidence).1;
      assert AssessmentFor(p, Settled(p, evidence).0, id, asOf) in AssessmentsFor(p, evidence, asOf);
    }
  }

  /** Running the evaluation again on its own result changes nothing and adds nothing. */
  lemma RerunChangesNothing(predictions: seq<Prediction>, evidence: set<Evidence>, asOf: int, out: seq<Prediction>,
                            assessments: seq<Assessment>, out': seq<Prediction>, assessments': seq<Assessment>)
    requires Evaluated(predictions, evidence, asOf, out, assessments)
    requires Evaluated(out, evidence, asOf, out', assessments')
    ensures out' == out && forall a :: a !in assessments'
  {
    forall i | 0 <= i < |out|
      ensures out'[i] == out[i] && AssessmentsFor(out[i], evidence, asOf) == {}
    {
      if !Decided(out[i]) { SettledDecides(predictions[i], evidence); }
    }
  }
}
