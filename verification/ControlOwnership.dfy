/**
  Who may write the run's control: the record-level half of preserveGraphOwnedControl in
  packages/graph/src/investigation.ts.

  A control is a record of named fields. Ten of them belong to the graph; the rest belong to the node that ran. The
  loops below work on records as JavaScript sees them, own data slots and own accessors; the typed control used by the
  graph's state machine is proved to be what they compute.
 */
module ControlOwnership {
  import opened Wrappers

  datatype Stop = Sufficient | Ambiguous | Stalled | BudgetExhausted | ToolsUnavailable | HumanStop

  datatype FieldValue = Undefined | Text(text: string) | Number(number: int) | Flag(flag: bool) | StopKind(stop: Stop)

  datatype Slot = Data(value: FieldValue) | Accessor

  /** The ten graph-owned fields by name, and any other field. */
  datatype Field =
    | FStopKind | FRunId | FHumanReview | FChallengeRounds | FReservedChallengeBudget | FMaxIterations | FLlmCallBudget
    | FIterationsUsed | FLlmCallsUsed | FResumeCount
    | NodeField(name: string)

  type Record = map<Field, Slot>
  type Fields = map<Field, FieldValue>

  const GRAPH_OWNED_CONTROL_FIELDS: seq<Field> := [
    FStopKind, FRunId, FHumanReview, FChallengeRounds, FReservedChallengeBudget, FMaxIterations, FLlmCallBudget,
    FIterationsUsed, FLlmCallsUsed, FResumeCount]

  lemma GraphOwnedFields(f: Field)
    ensures f in GRAPH_OWNED_CONTROL_FIELDS <==> !f.NodeField?
  {
    var all := GRAPH_OWNED_CONTROL_FIELDS;
    match f
    case FStopKind => assert all[0] == f;
    case FRunId => assert all[1] == f;
    case FHumanReview => assert all[2] == f;
    case FChallengeRounds => assert all[3] == f;
    case FReservedChallengeBudget => assert all[4] == f;
    case FMaxIterations => assert all[5] == f;
    case FLlmCallBudget => assert all[6] == f;
    case FIterationsUsed => assert all[7] == f;
    case FLlmCallsUsed => assert all[8] == f;
    case FResumeCount => assert all[9] == f;
    case NodeField(_) => assert forall i :: 0 <= i < |all| ==> !all[i].NodeField?;
  }

  /** The one graph-owned field the control schema lets be absent. */
  const OPTIONAL_CONTROL_FIELDS: set<Field> := {FStopKind}

  /** A graph-owned field the pick refuses: an accessor, or absent though required. */
  predicate Refused(control: Record, field: Field) {
    if field in control then control[field].Accessor? else field !in OPTIONAL_CONTROL_FIELDS
  }

  function OwnValue(control: Record, field: Field): FieldValue {
    if field in control && control[field].Data? then control[field].value else Undefined
  }

  /** pickGraphOwnedControl: the first field it refuses, or every graph-owned field by its own data value. */
  method PickGraphOwnedControl(control: Record) returns (r: Result<Fields, Field>)
    ensures r.Ok? <==> forall f :: f in GRAPH_OWNED_CONTROL_FIELDS ==> !Refused(control, f)
    ensures r.Ok? ==> r.value.Keys == (set f | f in GRAPH_OWNED_CONTROL_FIELDS)
    ensures r.Ok? ==> forall f :: f in r.value ==> r.value[f] == OwnValue(control, f)
    ensures r.Err? ==> exists i :: 0 <= i < |GRAPH_OWNED_CONTROL_FIELDS| && r.error == GRAPH_OWNED_CONTROL_FIELDS[i]
                                   && Refused(control, r.error)
                                   && forall j :: 0 <= j < i ==> !Refused(control, GRAPH_OWNED_CONTROL_FIELDS[j])
  {
    var picked: Fields := map[];
    for i := 0 to |GRAPH_OWNED_CONTROL_FIELDS|
      invariant forall j :: 0 <= j < i ==> !Refused(control, GRAPH_OWNED_CONTROL_FIELDS[j])
      invariant picked.Keys == set f | f in GRAPH_OWNED_CONTROL_FIELDS[..i]
      invariant forall f :: f in picked ==> picked[f] == OwnValue(control, f)
    {
      var field := GRAPH_OWNED_CONTROL_FIELDS[i];
      assert field in GRAPH_OWNED_CONTROL_FIELDS;
      if field !in control {
        if field !in OPTIONAL_CONTROL_FIELDS { return Err(field); }
        picked := picked[field := Undefined];
      } else if control[field].Accessor? {
        return Err(field);
      } else {
        picked := picked[field := control[field].value];
      }
    }
    assert GRAPH_OWNED_CONTROL_FIELDS[..|GRAPH_OWNED_CONTROL_FIELDS|] == GRAPH_OWNED_CONTROL_FIELDS;
    return Ok(picked);
  }

  function Without(fields: Fields): Fields {
    map f | f in fields && f.NodeField? :: fields[f]
  }

  /** withoutGraphOwnedControl, over the own enumerable keys of the object a node handed back, in any order. */
  method WithoutGraphOwnedControl(keys: seq<Field>, source: Fields) returns (rest: Fields)
    requires forall k :: k in keys <==> k in source
    ensures rest == Without(source)
  {
    rest := map[];
    for i := 0 to |keys|
      invariant rest == map f | f in keys[..i] && f.NodeField? :: source[f]
    {
      GraphOwnedFields(keys[i]);
      if keys[i] in GRAPH_OWNED_CONTROL_FIELDS { continue; }
      rest := rest[keys[i] := source[keys[i]]];
    }
    assert keys[..|keys|] == keys;
  }

  // ---- The typed control ------------------------------------------------------------------------------------------

  datatype Owned = Owned(
    stopKind: Option<Stop>,
    runId: string,
    humanReview: bool,
    challengeRounds: int,
    reservedChallengeBudget: int,
    maxIterations: int,
    llmCallBudget: int,
    iterationsUsed: int,
    llmCallsUsed: int,
    resumeCount: int)

  /** The graph's half and the node's half, which never names a graph-owned field. */
  datatype Control = Control(own: Owned, rest: Fields)

  function OwnedValue(own: Owned, f: Field): FieldValue
    requires !f.NodeField?
  {
    match f
    case FStopKind => (match own.stopKind case Some(stop) => StopKind(stop) case None => Undefined)
    case FRunId => Text(own.runId)
    case FHumanReview => Flag(own.humanReview)
    case FChallengeRounds => Number(own.challengeRounds)
    case FReservedChallengeBudget => Number(own.reservedChallengeBudget)
    case FMaxIterations => Number(own.maxIterations)
    case FLlmCallBudget => Number(own.llmCallBudget)
    case FIterationsUsed => Number(own.iterationsUsed)
    case FLlmCallsUsed => Number(own.llmCallsUsed)
    case FResumeCount => Number(own.resumeCount)
  }

  function Encode(c: Control): Fields {
    var owned := map[
      FRunId := Text(c.own.runId), FHumanReview := Flag(c.own.humanReview),
      FChallengeRounds := Number(c.own.challengeRounds),
      FReservedChallengeBudget := Number(c.own.reservedChallengeBudget),
      FMaxIterations := Number(c.own.maxIterations), FLlmCallBudget := Number(c.own.llmCallBudget),
      FIterationsUsed := Number(c.own.iterationsUsed), FLlmCallsUsed := Number(c.own.llmCallsUsed),
      FResumeCount := Number(c.own.resumeCount)];
    Without(c.rest) + if c.own.stopKind.Some? then owned[FStopKind := StopKind(c.own.stopKind.value)] else owned
  }

  function AsRecord(fields: Fields): Record {
    map f | f in fields :: Data(fields[f])
  }

  /** What the wrapper leaves behind: the node's own fields, and the graph's with the two counters it moves. */
  function Preserved(c: Control, counts: bool, update: Option<Fields>, declared: int): Control {
    Control(
      c.own.(iterationsUsed := c.own.iterationsUsed + (if counts then 1 else 0),
             llmCallsUsed := c.own.llmCallsUsed + declared),
      Without(match update case Some(fields) => fields case None => c.rest))
  }

  /** fields is the record of c: the node's half as it is, and each graph-owned field by its value. */
  ghost predicate IsEncoding(fields: Fields, c: Control) {
    forall f: Field ::
      && (f in fields <==> if f.NodeField? then f in c.rest else f != FStopKind || c.own.stopKind.Some?)
      && (f in fields ==> fields[f] == if f.NodeField? then c.rest[f] else OwnedValue(c.own, f))
  }

  lemma EncodeIsEncoding(c: Control)
    ensures IsEncoding(Encode(c), c)
  {
    forall f: Field
      ensures f in Encode(c) <==> if f.NodeField? then f in c.rest else f != FStopKind || c.own.stopKind.Some?
      ensures f in Encode(c) ==> Encode(c)[f] == if f.NodeField? then c.rest[f] else OwnedValue(c.own, f)
    {
      EncodesField(c, f);
    }
  }

  lemma EncodesField(c: Control, f: Field)
    ensures f in Encode(c) <==> if f.NodeField? then f in c.rest else f != FStopKind || c.own.stopKind.Some?
    ensures f in Encode(c) ==> Encode(c)[f] == if f.NodeField? then c.rest[f] else OwnedValue(c.own, f)
  {
    match f
    case FStopKind =>
    case NodeField(_) =>
    case _ =>
  }

  lemma EncodingUnique(fields: Fields, c: Control)
    requires IsEncoding(fields, c)
    ensures fields == Encode(c)
  {
    EncodeIsEncoding(c);
    EncodingsAgree(fields, Encode(c), c);
  }

  lemma EncodingsAgree(fields: Fields, fields': Fields, c: Control)
    requires IsEncoding(fields, c) && IsEncoding(fields', c)
    ensures fields == fields'
  {
    assert forall f :: f in fields <==> f in fields';
  }

  /**
    The record the wrapper of preserveGraphOwnedControl returns for a node that answered with the control fields
    update, or with none, and declared some model calls. The pick happens before the node runs.
   */
  method PreserveGraphOwnedControl(c: Control, counts: bool, update: Option<Fields>, keys: seq<Field>, declared: int)
    returns (control: Fields)
    requires forall k :: k in keys <==> k in (match update case Some(fields) => fields case None => Encode(c))
    ensures control == Encode(Preserved(c, counts, update, declared))
  {
    var current := Encode(c);
    EncodeIsEncoding(c);
    var picked := PickGraphOwnedControl(AsRecord(current));
    EncodingPicks(current, c);
    var rest := WithoutGraphOwnedControl(keys, match update case Some(fields) => fields case None => current);
    WithoutEncoding(current, c);
    var own := Preserved(c, counts, update, declared).own;
    control := Spread(rest, picked.value, own.iterationsUsed, own.llmCallsUsed);
    SpreadEncodes(c.own, rest, picked.value, own);
    EncodingUnique(control, Preserved(c, counts, update, declared));
  }

  lemma WithoutEncoding(current: Fields, c: Control)
    requires IsEncoding(current, c)
    ensures Without(current) == Without(c.rest)
  {}

  lemma EncodingPicks(current: Fields, c: Control)
    requires IsEncoding(current, c)
    ensures forall f :: f in GRAPH_OWNED_CONTROL_FIELDS ==> !Refused(AsRecord(current), f)
    ensures forall f :: f in GRAPH_OWNED_CONTROL_FIELDS <==> !f.NodeField?
    ensures forall f: Field :: !f.NodeField? ==> OwnValue(AsRecord(current), f) == OwnedValue(c.own, f)
  {
    forall f { GraphOwnedFields(f); }
  }

  /** {...rest, ...graphOwned} with stopKind restored only when it carries a value. */
  function Spread(rest: Fields, picked: Fields, iterationsUsed: int, llmCallsUsed: int): Fields
    requires FStopKind in picked
  {
    var owned := picked[FIterationsUsed := Number(iterationsUsed)][FLlmCallsUsed := Number(llmCallsUsed)];
    rest + if picked[FStopKind] == Undefined then owned - {FStopKind} else owned
  }

  lemma SpreadEncodes(own: Owned, rest: Fields, picked: Fields, own': Owned)
    requires forall f: Field :: f in picked <==> !f.NodeField?
    requires forall f :: f in picked ==> picked[f] == OwnedValue(own, f)
    requires forall f :: f in rest ==> f.NodeField?
    requires own' == own.(iterationsUsed := own'.iterationsUsed, llmCallsUsed := own'.llmCallsUsed)
    ensures IsEncoding(Spread(rest, picked, own'.iterationsUsed, own'.llmCallsUsed), Control(own', rest))
  {
    var spread := Spread(rest, picked, own'.iterationsUsed, own'.llmCallsUsed);
    forall f: Field
      ensures f in spread <==> if f.NodeField? then f in rest else f != FStopKind || own'.stopKind.Some?
      ensures f in spread ==> spread[f] == if f.NodeField? then rest[f] else OwnedValue(own', f)
    {
      if !f.NodeField? { assert picked[f] == OwnedValue(own, f); }
    }
  }

  /** A node cannot reach the graph's half, whatever it returns, and the graph does not touch the node's. */
  lemma NodeCannotReachGraphFields(c: Control, counts: bool, update: Option<Fields>, declared: int, field: Field)
    ensures !field.NodeField? && field != FIterationsUsed && field != FLlmCallsUsed ==>
              OwnValue(AsRecord(Encode(Preserved(c, counts, update, declared))), field)
              == OwnValue(AsRecord(Encode(c)), field)
    ensures field.NodeField? && update.Some? ==>
              OwnValue(AsRecord(Encode(Preserved(c, counts, update, declared))), field)
              == OwnValue(AsRecord(update.value), field)
  {
    EncodeIsEncoding(c);
    EncodeIsEncoding(Preserved(c, counts, update, declared));
  }
}
