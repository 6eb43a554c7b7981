/**
  What an evaluation decides, told from the fields of the facts it was given: subjects, windows, counts, coverage and
  states. Nothing here names the code's reading of a fact.
 */
module EvaluationMeaning {
  import opened Wrappers
  import opened Contracts
  import opened Reducers
  import opened PredictionEvaluation

  // ---- Subjects ---------------------------------------------------------------------------------------------------

  predicate Blank(c: char) {
    c == ' ' || c == '\t' || c == '\n' || c == '\r'
  }

  /** Between from and to stands what is left when the blanks on both sides are taken away. */
  ghost predicate Core(s: string, from: nat, to: nat) {
    && from <= to <= |s|
    && (forall k :: 0 <= k < from || to <= k < |s| ==> Blank(s[k]))
    && (from < to ==> !Blank(s[from]) && !Blank(s[to - 1]))
  }

  /** The same letter, a capital counting as its small one. */
  predicate SmallOf(c: char, small: char) {
    if 'A' <= c <= 'Z' then small as int == c as int + 32 else small == c
  }

  predicate SmallOfAll(s: string, from: nat, to: nat, small: string)
    requires from <= to <= |s|
  {
    |small| == to - from && forall k :: 0 <= k < |small| ==> SmallOf(s[from + k], small[k])
  }

  lemma {:induction false} StartIsTrimmed(s: string) returns (from: nat)
    ensures from <= |s| && TrimStart(s) == s[from..]
    ensures forall k :: 0 <= k < from ==> Blank(s[k])
    ensures from < |s| ==> !Blank(s[from])
    decreases s
  {
    from := 0;
    if s != [] && IsSpace(s[0]) {
      from := StartIsTrimmed(s[1..]);
      forall k | 0 < k < from + 1
        ensures Blank(s[k])
      {
        assert s[k] == s[1..][k - 1];
      }
      from := from + 1;
      assert s[1..][from - 1..] == s[from..];
    }
  }

  lemma {:induction false} EndIsTrimmed(s: string) returns (to: nat)
    ensures to <= |s| && TrimEnd(s) == s[..to]
    ensures forall k :: to <= k < |s| ==> Blank(s[k])
    ensures 0 < to ==> !Blank(s[to - 1])
    decreases s
  {
    to := |s|;
    if s != [] && IsSpace(s[|s| - 1]) {
      var shorter := s[..|s| - 1];
      to := EndIsTrimmed(shorter);
      assert shorter[..to] == s[..to];
      assert forall k :: to <= k < |s| ==> k == |s| - 1 || Blank(shorter[k]);
    }
  }

  /** Normalising a subject takes the surrounding blanks away and makes its letters small, and does nothing else. */
  lemma NormalizedSubject(s: string) returns (from: nat, to: nat)
    ensures Core(s, from, to) && SmallOfAll(s, from, to, NormalizeSubject(s))
  {
    from := StartIsTrimmed(s);
    var rest := s[from..];
    var length := EndIsTrimmed(rest);
    to := from + length;
    assert rest[..length] == s[from..to];
    forall k | to <= k < |s|
      ensures Blank(s[k])
    {
      assert s[k] == rest[k - from];
    }
    if from < to {
      assert s[from] == rest[0] && s[to - 1] == rest[length - 1];
    }
  }

  // ---- Facts ------------------------------------------------------------------------------------------------------

  /** A positive count shows presence; a zero count shows absence under complete coverage, and nothing under partial. */
  predicate CountSays(count: nat, coverage: Coverage, expected: Presence, v: FactVerdict) {
    match v
    case Holds => if expected == Present then count > 0 else count == 0 && coverage == Complete
    case Opposes => if expected == Present then count == 0 && coverage == Complete else count > 0
    case Unknown => count == 0 && coverage == Partial
  }

  predicate StateSays(observed: SignalState, expected: SignalState, v: FactVerdict) {
    match v
    case Holds => observed == expected
    case Opposes => observed != expected
    case Unknown => false
  }

  /** What a fact says of an expectation: of its kind, about its subject, in its window. */
  predicate Says(o: ExpectedObservation, fact: ObservedFact, v: FactVerdict) {
    && NormalizeSubject(o.subject) == NormalizeSubject(fact.subject) && o.window == fact.window
    && match o
       case ExpectDeployment(_, _, presence) =>
         fact.ObservedDeployment? && CountSays(fact.count, fact.coverage, presence, v)
       case ExpectLogClass(_, _, logClass, presence) =>
         fact.ObservedLogClass? && fact.logClass == logClass && CountSays(fact.count, fact.coverage, presence, v)
       case ExpectSignal(_, _, signal, state) =>
         fact.ObservedSignal? && fact.signal == signal && StateSays(fact.state, state, v)
  }

  lemma MatchingSays(o: ExpectedObservation, fact: ObservedFact, v: FactVerdict)
    ensures MatchFact(o, fact) == Some(v) <==> Says(o, fact, v)
  {}

  /** The item was observed by then and carries the fact. */
  predicate Carries(e: Evidence, asOf: int, fact: ObservedFact) {
    e.observedAt.Some? && e.observedAt.value <= asOf && e.observation.Some? && fact in e.observation.value
  }

  predicate ItemSays(e: Evidence, asOf: int, o: ExpectedObservation, v: FactVerdict) {
    e.observation.Some? && exists fact :: fact in e.observation.value && Carries(e, asOf, fact) && Says(o, fact, v)
  }

  ghost predicate Said(evidence: seq<Evidence>, asOf: int, o: ExpectedObservation, v: FactVerdict) {
    exists e :: e in evidence && ItemSays(e, asOf, o, v)
  }

  ghost predicate SaidOfAny(evidence: seq<Evidence>, asOf: int, os: seq<ExpectedObservation>, v: FactVerdict) {
    exists o :: o in os && Said(evidence, asOf, o, v)
  }

  /** One of the expectations is seen both to hold and not to. */
  ghost predicate Torn(evidence: seq<Evidence>, asOf: int, os: seq<ExpectedObservation>) {
    exists o :: o in os && Said(evidence, asOf, o, Holds) && Said(evidence, asOf, o, Opposes)
  }

  ghost predicate AllHold(evidence: seq<Evidence>, asOf: int, os: seq<ExpectedObservation>) {
    os != [] && forall o :: o in os ==> Said(evidence, asOf, o, Holds)
  }

  // ---- Decisions --------------------------------------------------------------------------------------------------

  /** The false case settles nothing: none of it is seen to hold and none is left unclear. */
  ghost predicate FalseCaseSilent(evidence: seq<Evidence>, asOf: int, p: Prediction) {
    && !SaidOfAny(evidence, asOf, p.expectedIfFalse, Holds)
    && !SaidOfAny(evidence, asOf, p.expectedIfFalse, Unknown)
  }

  ghost predicate RefutedByFalseCase(evidence: seq<Evidence>, asOf: int, p: Prediction) {
    !Torn(evidence, asOf, p.expectedIfFalse) && SaidOfAny(evidence, asOf, p.expectedIfFalse, Holds)
  }

  ghost predicate RefutedByTrueCase(evidence: seq<Evidence>, asOf: int, p: Prediction) {
    && FalseCaseSilent(evidence, asOf, p)
    && !Torn(evidence, asOf, p.expectedIfTrue) && SaidOfAny(evidence, asOf, p.expectedIfTrue, Opposes)
  }

  ghost predicate ConfirmedByFacts(evidence: seq<Evidence>, asOf: int, p: Prediction) {
    && FalseCaseSilent(evidence, asOf, p)
    && !SaidOfAny(evidence, asOf, p.expectedIfTrue, Opposes) && !SaidOfAny(evidence, asOf, p.expectedIfTrue, Unknown)
    && AllHold(evidence, asOf, p.expectedIfTrue)
  }

  /** Conflicting or unclear, in the false case, or in the true case when the false case says nothing. */
  ghost predicate UntestableByFacts(evidence: seq<Evidence>, asOf: int, p: Prediction) {
    || Torn(evidence, asOf, p.expectedIfFalse)
    || (!SaidOfAny(evidence, asOf, p.expectedIfFalse, Holds) && SaidOfAny(evidence, asOf, p.expectedIfFalse, Unknown))
    || (FalseCaseSilent(evidence, asOf, p)
        && (|| Torn(evidence, asOf, p.expectedIfTrue)
            || (!SaidOfAny(evidence, asOf, p.expectedIfTrue, Opposes)
                && SaidOfAny(evidence, asOf, p.expectedIfTrue, Unknown))))
  }

  lemma ItemShows(e: Evidence, asOf: int, o: ExpectedObservation, v: FactVerdict)
    ensures Qualifies(e, asOf) && Shows(e, o, v) <==> ItemSays(e, asOf, o, v)
  {
    forall fact { MatchingSays(o, fact, v); }
  }

  lemma SeenIsSaid(evidence: seq<Evidence>, asOf: int, o: ExpectedObservation, v: FactVerdict)
    ensures Seen(Qualifying(evidence, asOf), o, v) <==> Said(evidence, asOf, o, v)
  {
    forall e { ItemShows(e, asOf, o, v); }
  }

  lemma CaseInTerms(evidence: seq<Evidence>, asOf: int, os: seq<ExpectedObservation>)
    ensures Conflict(Qualifying(evidence, asOf), os) <==> Torn(evidence, asOf, os)
    ensures forall v :: AnySeen(Qualifying(evidence, asOf), os, v) <==> SaidOfAny(evidence, asOf, os, v)
    ensures os != [] && (forall o :: o in os ==> Seen(Qualifying(evidence, asOf), o, Holds))
            <==> AllHold(evidence, asOf, os)
  {
    forall o, v { SeenIsSaid(evidence, asOf, o, v); }
  }

  lemma FalseCaseInTerms(evidence: seq<Evidence>, asOf: int, os: seq<ExpectedObservation>)
    ensures var r := FalseCase(os, Qualifying(evidence, asOf));
            if Torn(evidence, asOf, os) then r == Some((Finding(Untestable, None, None), {}))
            else if SaidOfAny(evidence, asOf, os, Holds) then
              r == Some((Finding(Refuted, Some(Contradicts), Some(FalseCaseHeld)),
                         Carriers(Qualifying(evidence, asOf), os, Holds)))
            else if SaidOfAny(evidence, asOf, os, Unknown) then r == Some((Finding(Untestable, None, None), {}))
            else r == None
  {
    CaseInTerms(evidence, asOf, os);
  }

  lemma TrueCaseInTerms(evidence: seq<Evidence>, asOf: int, os: seq<ExpectedObservation>)
    ensures var r := TrueCase(os, Qualifying(evidence, asOf));
            if Torn(evidence, asOf, os) then r == Some((Finding(Untestable, None, None), {}))
            else if SaidOfAny(evidence, asOf, os, Opposes) then
              r == Some((Finding(Refuted, Some(Contradicts), Some(OppositeOfExpected)),
                         Carriers(Qualifying(evidence, asOf), os, Opposes)))
            else if SaidOfAny(evidence, asOf, os, Unknown) then r == Some((Finding(Untestable, None, None), {}))
            else if AllHold(evidence, asOf, os) then
              r == Some((Finding(Confirmed, Some(Supports), Some(EveryExpectationHeld)),
                         Carriers(Qualifying(evidence, asOf), os, Holds)))
            else r == None
  {
    CaseInTerms(evidence, asOf, os);
  }

  lemma ConflictIsSaid(evidence: seq<Evidence>, asOf: int, os: seq<ExpectedObservation>)
    ensures Torn(evidence, asOf, os) ==> SaidOfAny(evidence, asOf, os, Holds) && SaidOfAny(evidence, asOf, os, Opposes)
  {}

  /** The status an undecided prediction is given. */
  lemma StatusByFacts(evidence: seq<Evidence>, asOf: int, p: Prediction)
    requires p.status.Untested? || p.status.Untestable?
    ensures var q := Outcome(p, Qualifying(evidence, asOf));
            && q == p.(status := q.status)
            && (q.status == Confirmed <==> ConfirmedByFacts(evidence, asOf, p))
            && (q.status == Refuted <==> RefutedByFalseCase(evidence, asOf, p) || RefutedByTrueCase(evidence, asOf, p))
            && (q.status == Untestable <==> UntestableByFacts(evidence, asOf, p)
                                            || (p.status == Untestable && !Decided(q)))
  {
    FalseCaseInTerms(evidence, asOf, p.expectedIfFalse);
    TrueCaseInTerms(evidence, asOf, p.expectedIfTrue);
    ConflictIsSaid(evidence, asOf, p.expectedIfFalse);
    ConflictIsSaid(evidence, asOf, p.expectedIfTrue);
  }

  /** The item is among what the decision rests on: it says the thing that decided. */
  ghost predicate Weighs(evidence: seq<Evidence>, asOf: int, p: Prediction, e: Evidence) {
    if RefutedByFalseCase(evidence, asOf, p) then exists o :: o in p.expectedIfFalse && ItemSays(e, asOf, o, Holds)
    else if RefutedByTrueCase(evidence, asOf, p) then exists o :: o in p.expectedIfTrue && ItemSays(e, asOf, o, Opposes)
    else ConfirmedByFacts(evidence, asOf, p) && exists o :: o in p.expectedIfTrue && ItemSays(e, asOf, o, Holds)
  }

  function RationaleByFacts(byFalseCase: bool, confirmed: bool): Rationale {
    if byFalseCase then FalseCaseHeld else if confirmed then EveryExpectationHeld else OppositeOfExpected
  }

  lemma CarriersSay(evidence: seq<Evidence>, asOf: int, os: seq<ExpectedObservation>, v: FactVerdict, id: Id)
    ensures id in Carriers(Qualifying(evidence, asOf), os, v)
            <==> exists e :: e in evidence && e.id == id && exists o :: o in os && ItemSays(e, asOf, o, v)
  {
    forall e, o { ItemShows(e, asOf, o, v); }
    if id in Carriers(Qualifying(evidence, asOf), os, v) {
      var e :| e in Qualifying(evidence, asOf) && ShowsAny(e, os, v) && e.id == id;
      assert e in evidence;
    }
    if exists e :: e in evidence && e.id == id && exists o :: o in os && ItemSays(e, asOf, o, v) {
      var e :| e in evidence && e.id == id && exists o :: o in os && ItemSays(e, asOf, o, v);
      assert e in Qualifying(evidence, asOf) && ShowsAny(e, os, v);
    }
  }

  /** The assessment that says of this prediction, on this item, what the facts decided. */
  ghost predicate AssessesByFacts(evidence: seq<Evidence>, asOf: int, p: Prediction, e: Evidence, a: Assessment) {
    && Weighs(evidence, asOf, p, e)
    && a.id == RuleAssessmentOf(p.id, e.id) && a.evidenceId == e.id
    && a.hypothesisId == p.hypothesisId && a.predictionId == Some(p.id)
    && a.effect == (if ConfirmedByFacts(evidence, asOf, p) then Supports else Contradicts) && a.strength == Medium
    && a.rationale == RationaleByFacts(RefutedByFalseCase(evidence, asOf, p), ConfirmedByFacts(evidence, asOf, p))
    && a.producedBy == Rule && a.at == asOf
  }

  lemma SettledByFacts(evidence: seq<Evidence>, asOf: int, p: Prediction)
    ensures var (finding, ids), seen := Settled(p, Qualifying(evidence, asOf)), Qualifying(evidence, asOf);
            if RefutedByFalseCase(evidence, asOf, p) then
              && finding == Finding(Refuted, Some(Contradicts), Some(FalseCaseHeld))
              && ids == Carriers(seen, p.expectedIfFalse, Holds)
            else if RefutedByTrueCase(evidence, asOf, p) then
              && finding == Finding(Refuted, Some(Contradicts), Some(OppositeOfExpected))
              && ids == Carriers(seen, p.expectedIfTrue, Opposes)
            else if ConfirmedByFacts(evidence, asOf, p) then
              && finding == Finding(Confirmed, Some(Supports), Some(EveryExpectationHeld))
              && ids == Carriers(seen, p.expectedIfTrue, Holds)
            else ids == {}
  {
    FalseCaseInTerms(evidence, asOf, p.expectedIfFalse);
    TrueCaseInTerms(evidence, asOf, p.expectedIfTrue);
    ConflictIsSaid(evidence, asOf, p.expectedIfFalse);
    ConflictIsSaid(evidence, asOf, p.expectedIfTrue);
  }

  lemma SettledIdsByFacts(evidence: seq<Evidence>, asOf: int, p: Prediction, id: Id)
    ensures id in Settled(p, Qualifying(evidence, asOf)).1
            <==> exists e :: e in evidence && e.id == id && Weighs(evidence, asOf, p, e)
  {
    SettledByFacts(evidence, asOf, p);
    CarriersSay(evidence, asOf, p.expectedIfFalse, Holds, id);
    CarriersSay(evidence, asOf, p.expectedIfTrue, Opposes, id);
    CarriersSay(evidence, asOf, p.expectedIfTrue, Holds, id);
  }

  /** The assessments of an undecided prediction are those, one for each id of an item that weighs. */
  lemma AssessmentsByFacts(evidence: seq<Evidence>, asOf: int, p: Prediction, a: Assessment)
    requires p.status.Untested? || p.status.Untestable?
    ensures a in AssessmentsFor(p, Qualifying(evidence, asOf), asOf)
            <==> exists e :: e in evidence && AssessesByFacts(evidence, asOf, p, e, a)
  {
    var (finding, ids) := Settled(p, Qualifying(evidence, asOf));
    SettledByFacts(evidence, asOf, p);
    SettledIdsByFacts(evidence, asOf, p, a.evidenceId);
    if a in AssessmentsFor(p, Qualifying(evidence, asOf), asOf) {
      assert a.evidenceId in ids && a == AssessmentFor(p, finding, a.evidenceId, asOf);
      var e :| e in evidence && e.id == a.evidenceId && Weighs(evidence, asOf, p, e);
      assert AssessesByFacts(evidence, asOf, p, e, a);
    }
    if exists e :: e in evidence && AssessesByFacts(evidence, asOf, p, e, a) {
      assert a == AssessmentFor(p, finding, a.evidenceId, asOf);
    }
  }

  /**
    A whole evaluation, told from facts: decided predictions are final, every other one gets the status its facts call
    for, and the assessments are those of the undecided predictions, on each item that weighs.
   */
  lemma EvaluatedByFacts(predictions: seq<Prediction>, evidence: seq<Evidence>, asOf: int, out: seq<Prediction>,
                         assessments: seq<Assessment>, i: nat)
    requires Evaluated(predictions, Qualifying(evidence, asOf), asOf, out, assessments) && i < |predictions|
    ensures |out| == |predictions|
    ensures var p, q := predictions[i], out[i];
            && q == p.(status := q.status)
            && if p.status.Confirmed? || p.status.Refuted? then q == p else
                 && (q.status == Confirmed <==> ConfirmedByFacts(evidence, asOf, p))
                 && (q.status == Refuted <==>
                       RefutedByFalseCase(evidence, asOf, p) || RefutedByTrueCase(evidence, asOf, p))
                 && (q.status == Untestable <==> UntestableByFacts(evidence, asOf, p)
                                                 || (p.status == Untestable && !Decided(q)))
    ensures forall a :: a in assessments <==>
              exists p, e :: p in predictions && (p.status.Untested? || p.status.Untestable?)
                             && e in evidence && AssessesByFacts(evidence, asOf, p, e, a)
  {
    if !Decided(predictions[i]) { StatusByFacts(evidence, asOf, predictions[i]); }
    forall p, a | p in predictions && (p.status.Untested? || p.status.Untestable?)
      ensures a in AssessmentsFor(p, Qualifying(evidence, asOf), asOf)
              <==> exists e :: e in evidence && AssessesByFacts(evidence, asOf, p, e, a)
    {
      AssessmentsByFacts(evidence, asOf, p, a);
    }
  }
}
