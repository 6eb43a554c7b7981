/**
  Do trials and evidence agree about each other? packages/domain/src/trial-evidence-consistency.ts.
 */
module TrialEvidence {
  import opened Wrappers
  import opened Contracts
  import opened Reducers

  datatype TrialStatus = OkTrial | UnavailableTrial | ErrorTrial

  datatype Trial = Trial(id: Id, runId: string, testId: string, attempt: nat, tool: string, input: string,
                         status: TrialStatus, durationMs: int, evidenceIds: seq<Id>)

  /** An evidence row; body stands for the fields that only travel with it. */
  datatype Item = Item(id: Id, trialId: Id, body: string, provenance: Option<string>)

  function TrialId(t: Trial): Id { t.id }
  function ItemId(e: Item): Id { e.id }

  datatype Violation =
    | OrphanEvidence(evidenceId: Id, trialId: Id)
    | MissingEvidence(trialId: Id, evidenceId: Id)
    | WrongTrial(trialId: Id, evidenceId: Id, named: Id)

  predicate HasId<T>(idOf: T -> Id, items: seq<T>, id: Id) {
    LastIndex(idOf, items, id) >= 0
  }

  /** The violation is one these records commit. */
  ghost predicate Commits(trials: seq<Trial>, evidence: seq<Item>, v: Violation) {
    match v
    case OrphanEvidence(evidenceId, trialId) =>
      !HasId(TrialId, trials, trialId) && exists e :: e in evidence && e.id == evidenceId && e.trialId == trialId
    case MissingEvidence(trialId, evidenceId) =>
      !HasId(ItemId, evidence, evidenceId) && exists t :: t in trials && t.id == trialId && evidenceId in t.evidenceIds
    case WrongTrial(trialId, evidenceId, named) =>
      && named != trialId && (exists t :: t in trials && t.id == trialId && evidenceId in t.evidenceIds)
      && HasId(ItemId, evidence, evidenceId) && evidence[LastIndex(ItemId, evidence, evidenceId)].trialId == named
  }

  /** What one trial's claim is answered with. */
  function ClaimViolation(evidence: seq<Item>, trialId: Id, evidenceId: Id): seq<Violation> {
    var k := LastIndex(ItemId, evidence, evidenceId);
    if k < 0 then [MissingEvidence(trialId, evidenceId)]
    else if evidence[k].trialId != trialId then [WrongTrial(trialId, evidenceId, evidence[k].trialId)]
    else []
  }

  /** The violations of a trial's first n claims. */
  method CheckClaims(evidence: seq<Item>, t: Trial) returns (violations: seq<Violation>)
    ensures forall v :: v in violations <==> exists id :: id in t.evidenceIds && v in ClaimViolation(evidence, t.id, id)
  {
    violations := [];
    for i := 0 to |t.evidenceIds|
      invariant forall v :: v in violations <==>
                  exists id :: id in t.evidenceIds[..i] && v in ClaimViolation(evidence, t.id, id)
    {
      var id := t.evidenceIds[i];
      assert t.evidenceIds[..i + 1] == t.evidenceIds[..i] + [id];
      var k := LastIndex(ItemId, evidence, id);
      ghost var before := violations;
      if k < 0 {
        violations := violations + [MissingEvidence(t.id, id)];
      } else if evidence[k].trialId != t.id {
        violations := violations + [WrongTrial(t.id, id, evidence[k].trialId)];
      }
      assert violations == before + ClaimViolation(evidence, t.id, id);
      assert forall x :: x in t.evidenceIds[..i + 1] <==> x in t.evidenceIds[..i] || x == id;
    }
    assert t.evidenceIds[..|t.evidenceIds|] == t.evidenceIds;
  }

  /** trialEvidenceViolations: exactly the violations the records commit. */
  method TrialEvidenceViolations(trials: seq<Trial>, evidence: seq<Item>) returns (violations: seq<Violation>)
    ensures forall v :: v in violations <==> Commits(trials, evidence, v)
  {
    violations := [];
    for i := 0 to |evidence|
      invariant forall v :: v in violations <==> v.OrphanEvidence? && Commits(trials, evidence[..i], v)
    {
      var item := evidence[i];
      assert evidence[..i + 1] == evidence[..i] + [item];
      if LastIndex(TrialId, trials, item.trialId) < 0 {
        violations := violations + [OrphanEvidence(item.id, item.trialId)];
      }
    }
    assert evidence[..|evidence|] == evidence;
    for i := 0 to |trials|
      invariant forall v :: v in violations <==>
                  (v.OrphanEvidence? && Commits(trials, evidence, v)) || Claims(trials[..i], evidence, v)
    {
      assert trials[..i + 1] == trials[..i] + [trials[i]];
      var more := CheckClaims(evidence, trials[i]);
      violations := violations + more;
    }
    assert trials[..|trials|] == trials;
    forall v
      ensures Claims(trials, evidence, v) <==> !v.OrphanEvidence? && Commits(trials, evidence, v)
    {
      ClaimsAreCommitted(trials, evidence, v);
    }
  }

  ghost predicate Claims(trials: seq<Trial>, evidence: seq<Item>, v: Violation) {
    exists t, id :: t in trials && id in t.evidenceIds && v in ClaimViolation(evidence, t.id, id)
  }

  lemma ClaimsAreCommitted(trials: seq<Trial>, evidence: seq<Item>, v: Violation)
    ensures Claims(trials, evidence, v) <==> !v.OrphanEvidence? && Commits(trials, evidence, v)
  {
    if !v.OrphanEvidence? && Commits(trials, evidence, v) {
      var t :| t in trials && t.id == v.trialId && v.evidenceId in t.evidenceIds;
      assert v in ClaimViolation(evidence, t.id, v.evidenceId);
    }
  }

  /** Every item's trial is there and every claimed item is there and names the trial that claims it. */
  ghost predicate Consistent(trials: seq<Trial>, evidence: seq<Item>) {
    && (forall e :: e in evidence ==> exists t :: t in trials && t.id == e.trialId)
    && (forall t, id :: t in trials && id in t.evidenceIds ==>
          exists e :: e in evidence && e.id == id && e.trialId == t.id)
  }

  /** With distinct evidence ids, nothing is committed exactly when the records are consistent. */
  lemma NoViolationsMeansConsistent(trials: seq<Trial>, evidence: seq<Item>)
    requires Distinct(Ids(ItemId, evidence))
    ensures (forall v :: !Commits(trials, evidence, v)) <==> Consistent(trials, evidence)
  {
    if forall v :: !Commits(trials, evidence, v) {
      forall e | e in evidence
        ensures exists t :: t in trials && t.id == e.trialId
      {
        assert !Commits(trials, evidence, OrphanEvidence(e.id, e.trialId));
        assert trials[LastIndex(TrialId, trials, e.trialId)] in trials;
      }
      forall t, id | t in trials && id in t.evidenceIds
        ensures exists e :: e in evidence && e.id == id && e.trialId == t.id
      {
        assert !Commits(trials, evidence, MissingEvidence(t.id, id));
        var k := LastIndex(ItemId, evidence, id);
        assert !Commits(trials, evidence, WrongTrial(t.id, id, evidence[k].trialId));
        assert evidence[k] in evidence;
      }
    }
    if Consistent(trials, evidence) {
      forall v
        ensures !Commits(trials, evidence, v)
      {
        ConsistentCommitsNothing(trials, evidence, v);
      }
    }
  }

  lemma ConsistentCommitsNothing(trials: seq<Trial>, evidence: seq<Item>, v: Violation)
    requires Distinct(Ids(ItemId, evidence)) && Consistent(trials, evidence)
    ensures !Commits(trials, evidence, v)
  {
    match v
    case OrphanEvidence(evidenceId, trialId) =>
      assert forall i :: 0 <= i < |trials| ==> trials[i] in trials;
    case MissingEvidence(trialId, evidenceId) =>
    case WrongTrial(trialId, evidenceId, named) =>
      forall e | e in evidence
        ensures Lookup(ItemId, evidence, e.id) == Some(e)
      {
        LookupIsMembership(ItemId, evidence, e);
      }
  }
}
