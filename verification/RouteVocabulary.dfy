/**
  routeRequestVocabulary: the closed request vocabulary of a route table, packages/domain/src/investigation-planning.ts.
 */
module RouteVocabulary {
  import opened Wrappers
  import opened Contracts
  import opened Reducers
  import opened Planning

  /** A key of a tool's input; without values it takes any subject. */
  datatype RequestKey = RequestKey(key: string, values: Option<seq<string>>)
  datatype ToolShape = ToolShape(tool: string, input: seq<RequestKey>)

  datatype TableError = DifferentMappings(tool: string) | UnknownField(field: string)

  const WINDOW_NAMES := ["pre-onset", "incident", "recovery"]
  const LOG_CLASS_NAMES := ["error", "timeout", "activity"]
  const SIGNALS := [ErrorRate, Latency, ConnectionPool, WorkerSaturation, DependencyHealth]
  const SIGNAL_NAMES := ["error-rate", "latency", "connection-pool", "worker-saturation", "dependency-health"]
  const FIELD_KEYS := {"subject", "window", "signal", "logClass"}

  // ---- The entries a table reaches --------------------------------------------------------------------------------

  /** An entry, and the signal it is reached by when a selector routes it. */
  datatype Reach = Reach(entry: Entry, signal: Option<string>)

  function ReachedBySignal(bySignal: map<string, SignalValue>, signals: seq<SignalKind>): seq<Reach> {
    if signals == [] then [] else
    var n := |signals| - 1;
    var name := SignalName(signals[n]);
    ReachedBySignal(bySignal, signals[..n])
    + if name in bySignal && bySignal[name].Routed? then [Reach(bySignal[name].entry, Some(name))] else []
  }

  function ReachedByForm(value: FormValue, signals: seq<SignalKind>): seq<Reach> {
    match value
    case Flat(entry) => [Reach(entry, None)]
    case BySignal(bySignal) => ReachedBySignal(bySignal, signals)
  }

  function Reached(byForm: seq<(string, FormValue)>, signals: seq<SignalKind>): seq<Reach> {
    if byForm == [] then [] else
    Reached(byForm[..|byForm| - 1], signals) + ReachedByForm(byForm[|byForm| - 1].1, signals)
  }

  predicate ToolReached(reached: seq<Reach>, tool: string) {
    exists r :: r in reached && r.entry.tool == tool
  }

  predicate KnownFields(mapping: Mapping) {
    forall pair :: pair in mapping ==> pair.1 in FIELD_KEYS
  }

  /** The fields a request may be asked by: what an observation is about, never what it expects there. */
  lemma KnownFieldsByName(mapping: Mapping)
    ensures KnownFields(mapping) <==>
              forall i :: 0 <= i < |mapping| ==>
                mapping[i].1 == "subject" || mapping[i].1 == "window" || mapping[i].1 == "signal"
                || mapping[i].1 == "logClass"
  {
    assert forall i :: 0 <= i < |mapping| ==> mapping[i] in mapping;
  }

  /** Every mapping reads known fields, and every tool has one mapping. */
  ghost predicate Clean(reached: seq<Reach>) {
    && (forall r :: r in reached ==> KnownFields(r.entry.input))
    && (forall r, s :: r in reached && s in reached && r.entry.tool == s.entry.tool ==> r.entry.input == s.entry.input)
  }

  /** Tools by first appearance. */
  function FirstTools(reached: seq<Reach>): seq<string> {
    if reached == [] then [] else
    var n := |reached| - 1;
    FirstTools(reached[..n]) + if ToolReached(reached[..n], reached[n].entry.tool) then [] else [reached[n].entry.tool]
  }

  predicate NamesAll(reached: seq<Reach>, tool: string, key: string) {
    exists r :: r in reached && r.entry.tool == tool && r.signal.None? && (key, "signal") in r.entry.input
  }

  predicate NamesOne(reached: seq<Reach>, tool: string, key: string, signal: string) {
    exists r :: r in reached && r.entry.tool == tool && r.signal == Some(signal) && (key, "signal") in r.entry.input
  }

  // ---- The accumulators -------------------------------------------------------------------------------------------

  datatype Accumulator = Accumulator(inputMapping: Mapping, signalValues: map<string, set<string>>,
                                     allSignalFields: set<string>)

  type Accumulators = map<string, Accumulator>

  function SignalsAt(values: map<string, set<string>>, key: string): set<string> {
    if key in values then values[key] else {}
  }

  ghost predicate AccumulatorTracks(a: Accumulator, reached: seq<Reach>, tool: string) {
    && (forall key :: key in a.allSignalFields <==> NamesAll(reached, tool, key))
    && (forall key, signal :: signal in SignalsAt(a.signalValues, key) <==> NamesOne(reached, tool, key, signal))
  }

  ghost predicate Tracks(order: seq<string>, accumulators: Accumulators, reached: seq<Reach>) {
    && order == FirstTools(reached) && Clean(reached)
    && (forall tool :: tool in accumulators <==> ToolReached(reached, tool))
    && (forall tool :: tool in accumulators ==> AccumulatorTracks(accumulators[tool], reached, tool))
    && (forall r :: r in reached ==> accumulators[r.entry.tool].inputMapping == r.entry.input)
  }

  predicate FirstUnknown(mapping: Mapping, i: nat) {
    && i < |mapping| && mapping[i].1 !in FIELD_KEYS
    && forall j :: 0 <= j < i ==> mapping[j].1 in FIELD_KEYS
  }

  /** ensureAccumulator: the tool's accumulator, an empty one when the tool is new, or the table's error. */
  method EnsureAccumulator(order: seq<string>, accumulators: Accumulators, entry: Entry)
    returns (r: Result<(seq<string>, Accumulators), TableError>)
    ensures r.Ok? <==> if entry.tool in accumulators then accumulators[entry.tool].inputMapping == entry.input
                       else KnownFields(entry.input)
    ensures r.Ok? ==> r.value == if entry.tool in accumulators then (order, accumulators)
              else (order + [entry.tool], accumulators[entry.tool := Accumulator(entry.input, map[], {})])
    ensures r.Err? && entry.tool in accumulators ==> r.error == DifferentMappings(entry.tool)
    ensures r.Err? && entry.tool !in accumulators ==>
              exists i: nat :: FirstUnknown(entry.input, i) && r.error == UnknownField(entry.input[i].1)
  {
    if entry.tool in accumulators {
      if accumulators[entry.tool].inputMapping != entry.input { return Err(DifferentMappings(entry.tool)); }
      return Ok((order, accumulators));
    }
    for i := 0 to |entry.input|
      invariant forall j :: 0 <= j < i ==> entry.input[j].1 in FIELD_KEYS
    {
      if entry.input[i].1 !in FIELD_KEYS {
        assert FirstUnknown(entry.input, i);
        return Err(UnknownField(entry.input[i].1));
      }
    }
    return Ok((order + [entry.tool], accumulators[entry.tool := Accumulator(entry.input, map[], {})]));
  }

  /** The loop of addFlatRoute. */
  method AddAllSignals(a: Accumulator, mapping: Mapping) returns (a': Accumulator)
    ensures a'.inputMapping == a.inputMapping && a'.signalValues == a.signalValues
    ensures forall key :: key in a'.allSignalFields <==> key in a.allSignalFields || (key, "signal") in mapping
  {
    var fields := a.allSignalFields;
    for i := 0 to |mapping|
      invariant forall key :: key in fields <==> key in a.allSignalFields || (key, "signal") in mapping[..i]
    {
      if mapping[i].1 == "signal" { fields := fields + {mapping[i].0}; }
    }
    return a.(allSignalFields := fields);
  }

  /** The loop of addSignalRoute. */
  method AddOneSignal(a: Accumulator, mapping: Mapping, signal: string) returns (a': Accumulator)
    ensures a'.inputMapping == a.inputMapping && a'.allSignalFields == a.allSignalFields
    ensures forall key, s :: s in SignalsAt(a'.signalValues, key)
              <==> s in SignalsAt(a.signalValues, key) || (s == signal && (key, "signal") in mapping)
  {
    var values := a.signalValues;
    for i := 0 to |mapping|
      invariant forall key, s :: s in SignalsAt(values, key)
                  <==> s in SignalsAt(a.signalValues, key) || (s == signal && (key, "signal") in mapping[..i])
    {
      if mapping[i].1 == "signal" {
        values := values[mapping[i].0 := SignalsAt(values, mapping[i].0) + {signal}];
      }
    }
    return a.(signalValues := values);
  }

  /** What the table's first bad entry is answered with. */
  ghost predicate Complains(reached: seq<Reach>, k: int, error: TableError) {
    && 0 <= k < |reached| && Clean(reached[..k]) && !Clean(reached[..k + 1])
    && if ToolReached(reached[..k], reached[k].entry.tool) then error == DifferentMappings(reached[k].entry.tool)
       else exists i: nat ::
              FirstUnknown(reached[k].entry.input, i) && error == UnknownField(reached[k].entry.input[i].1)
  }

  lemma MoreReached(reached: seq<Reach>, r: Reach)
    ensures forall tool :: ToolReached(reached + [r], tool) <==> ToolReached(reached, tool) || r.entry.tool == tool
    ensures FirstTools(reached + [r])
            == FirstTools(reached) + if ToolReached(reached, r.entry.tool) then [] else [r.entry.tool]
    ensures forall tool, key :: NamesAll(reached + [r], tool, key) <==>
              NamesAll(reached, tool, key)
              || (r.entry.tool == tool && r.signal.None? && (key, "signal") in r.entry.input)
    ensures forall tool, key, signal :: NamesOne(reached + [r], tool, key, signal) <==>
              NamesOne(reached, tool, key, signal)
              || (r.entry.tool == tool && r.signal == Some(signal) && (key, "signal") in r.entry.input)
  {
    assert (reached + [r])[..|reached|] == reached;
    assert forall x :: x in reached + [r] <==> x in reached || x == r;
  }

  /** addFlatRoute and addSignalRoute. */
  method AddRoute(order: seq<string>, accumulators: Accumulators, r: Reach, ghost reached: seq<Reach>)
    returns (out: Result<(seq<string>, Accumulators), TableError>)
    requires Tracks(order, accumulators, reached)
    ensures out.Ok? ==> Tracks(out.value.0, out.value.1, reached + [r])
    ensures out.Err? ==> Complains(reached + [r], |reached|, out.error)
  {
    var ensured := EnsureAccumulator(order, accumulators, r.entry);
    MoreReached(reached, r);
    assert (reached + [r])[..|reached|] == reached && (reached + [r])[..|reached| + 1] == reached + [r];
    if ensured.Err? {
      RefusedIsNotClean(order, accumulators, r, reached);
      return Err(ensured.error);
    }
    var (order', accumulators') := ensured.value;
    var a: Accumulator;
    if r.signal.None? {
      a := AddAllSignals(accumulators'[r.entry.tool], r.entry.input);
    } else {
      a := AddOneSignal(accumulators'[r.entry.tool], r.entry.input, r.signal.value);
    }
    AddedTracks(order, accumulators, order', accumulators', r, a, reached);
    return Ok((order', accumulators'[r.entry.tool := a]));
  }

  lemma RefusedIsNotClean(order: seq<string>, accumulators: Accumulators, r: Reach, reached: seq<Reach>)
    requires Tracks(order, accumulators, reached)
    requires if r.entry.tool in accumulators then accumulators[r.entry.tool].inputMapping != r.entry.input
             else !KnownFields(r.entry.input)
    ensures !Clean(reached + [r])
  {
    var more := reached + [r];
    assert r in more;
    if r.entry.tool in accumulators {
      var s :| s in reached && s.entry.tool == r.entry.tool;
      assert s in more;
    }
  }

  lemma AddedTracks(order: seq<string>, accumulators: Accumulators, order': seq<string>, accumulators': Accumulators,
                    r: Reach, a: Accumulator, reached: seq<Reach>)
    requires Tracks(order, accumulators, reached)
    requires if r.entry.tool in accumulators
             then order' == order && accumulators' == accumulators
                  && accumulators[r.entry.tool].inputMapping == r.entry.input
             else order' == order + [r.entry.tool] && KnownFields(r.entry.input)
                  && accumulators' == accumulators[r.entry.tool := Accumulator(r.entry.input, map[], {})]
    requires var was := accumulators'[r.entry.tool];
             && a.inputMapping == was.inputMapping
             && (forall key :: key in a.allSignalFields <==>
                   key in was.allSignalFields || (r.signal.None? && (key, "signal") in r.entry.input))
             && (forall key, s :: s in SignalsAt(a.signalValues, key) <==>
                   s in SignalsAt(was.signalValues, key) || (r.signal == Some(s) && (key, "signal") in r.entry.input))
    ensures Tracks(order', accumulators'[r.entry.tool := a], reached + [r])
  {
    var more, tool := reached + [r], r.entry.tool;
    var after := accumulators'[tool := a];
    ToolsTrack(accumulators, r, reached);
    AddedIsClean(order, accumulators, r, reached);
    AddedMappings(order, accumulators, accumulators', r, a, reached);
    AddedAccumulator(accumulators'[tool], a, r, reached);
    forall t | t in after && t != tool
      ensures AccumulatorTracks(after[t], more, t)
    {
      OtherAccumulator(accumulators[t], r, reached, t);
    }
    AddedTools(order, accumulators, order', accumulators', r, a, reached);
  }

  lemma AddedTools(order: seq<string>, accumulators: Accumulators, order': seq<string>, accumulators': Accumulators,
                   r: Reach, a: Accumulator, reached: seq<Reach>)
    requires order == FirstTools(reached) && forall tool :: tool in accumulators <==> ToolReached(reached, tool)
    requires order' == order + if r.entry.tool in accumulators then [] else [r.entry.tool]
    requires accumulators'.Keys == accumulators.Keys + {r.entry.tool}
    ensures order' == FirstTools(reached + [r])
    ensures forall tool :: tool in accumulators'[r.entry.tool := a] <==> ToolReached(reached + [r], tool)
  {
    ToolsOneMore(reached, r);
  }

  lemma ToolsOneMore(reached: seq<Reach>, r: Reach)
    ensures forall tool :: ToolReached(reached + [r], tool) <==> ToolReached(reached, tool) || r.entry.tool == tool
    ensures FirstTools(reached + [r])
            == FirstTools(reached) + if ToolReached(reached, r.entry.tool) then [] else [r.entry.tool]
  {
    MoreReached(reached, r);
  }

  /** Every entry's mapping is that of its tool's accumulator, the new one's included. */
  lemma AddedMappings(order: seq<string>, accumulators: Accumulators, accumulators': Accumulators, r: Reach,
                      a: Accumulator, reached: seq<Reach>)
    requires Tracks(order, accumulators, reached) && a.inputMapping == r.entry.input
    requires r.entry.tool in accumulators ==> accumulators[r.entry.tool].inputMapping == r.entry.input
    requires forall t :: t in accumulators && t != r.entry.tool ==>
               t in accumulators' && accumulators'[t] == accumulators[t]
    ensures forall s :: s in reached + [r] ==>
              var after := accumulators'[r.entry.tool := a];
              s.entry.tool in after && after[s.entry.tool].inputMapping == s.entry.input
  {
    forall s | s in reached
      ensures s.entry.tool in accumulators && accumulators[s.entry.tool].inputMapping == s.entry.input
    {
      assert ToolReached(reached, s.entry.tool);
    }
  }

  lemma AddedIsClean(order: seq<string>, accumulators: Accumulators, r: Reach, reached: seq<Reach>)
    requires Tracks(order, accumulators, reached)
    requires if r.entry.tool in accumulators then accumulators[r.entry.tool].inputMapping == r.entry.input
             else KnownFields(r.entry.input)
    ensures Clean(reached + [r])
  {
    assert forall x :: x in reached + [r] <==> x in reached || x == r;
    forall s | s in reached && s.entry.tool == r.entry.tool
      ensures s.entry.input == r.entry.input
    {
      assert ToolReached(reached, r.entry.tool);
    }
  }

  lemma ToolsTrack(accumulators: Accumulators, r: Reach, reached: seq<Reach>)
    requires forall tool :: tool in accumulators <==> ToolReached(reached, tool)
    ensures r.entry.tool !in accumulators ==>
              forall s :: s in reached ==> s.entry.tool != r.entry.tool
    ensures r.entry.tool !in accumulators ==>
              AccumulatorTracks(Accumulator(r.entry.input, map[], {}), reached, r.entry.tool)
  {}

  lemma AddedAccumulator(was: Accumulator, a: Accumulator, r: Reach, reached: seq<Reach>)
    requires AccumulatorTracks(was, reached, r.entry.tool)
    requires forall key :: key in a.allSignalFields <==>
               key in was.allSignalFields || (r.signal.None? && (key, "signal") in r.entry.input)
    requires forall key, s :: s in SignalsAt(a.signalValues, key) <==>
               s in SignalsAt(was.signalValues, key) || (r.signal == Some(s) && (key, "signal") in r.entry.input)
    ensures AccumulatorTracks(a, reached + [r], r.entry.tool)
  {
    MoreReached(reached, r);
  }

  lemma OtherAccumulator(a: Accumulator, r: Reach, reached: seq<Reach>, tool: string)
    requires AccumulatorTracks(a, reached, tool) && tool != r.entry.tool
    ensures AccumulatorTracks(a, reached + [r], tool)
  {
    MoreReached(reached, r);
  }

  /** The loop over the signals of a selector, in their declared order. */
  method AccumulateSignals(bySignal: map<string, SignalValue>, signals: seq<SignalKind>, order0: seq<string>,
                           accumulators0: Accumulators, ghost before: seq<Reach>)
    returns (out: Result<(seq<string>, Accumulators), TableError>)
    requires Tracks(order0, accumulators0, before)
    ensures out.Ok? ==> Tracks(out.value.0, out.value.1, before + ReachedBySignal(bySignal, signals))
    ensures out.Err? ==> exists k :: Complains(before + ReachedBySignal(bySignal, signals), k, out.error)
  {
    var order, accumulators := order0, accumulators0;
    assert before + [] == before;
    for j := 0 to |signals|
      invariant Tracks(order, accumulators, before + ReachedBySignal(bySignal, signals[..j]))
    {
      ghost var soFar := before + ReachedBySignal(bySignal, signals[..j]);
      SignalsSplit(bySignal, signals, j, before);
      var name := SignalName(signals[j]);
      if name in bySignal && bySignal[name].Routed? {
        var reach := Reach(bySignal[name].entry, Some(name));
        var added := AddRoute(order, accumulators, reach, soFar);
        if added.Err? {
          SignalsPrefix(bySignal, signals, j + 1, before);
          ComplaintStands(soFar + [reach], before + ReachedBySignal(bySignal, signals), |soFar|, added.error);
          return Err(added.error);
        }
        order, accumulators := added.value.0, added.value.1;
      }
    }
    assert signals[..|signals|] == signals;
    return Ok((order, accumulators));
  }

  /** The body of the loop over byForm. */
  method AccumulateForm(value: FormValue, signals: seq<SignalKind>, order: seq<string>, accumulators: Accumulators,
                        ghost before: seq<Reach>)
    returns (out: Result<(seq<string>, Accumulators), TableError>)
    requires Tracks(order, accumulators, before)
    ensures out.Ok? ==> Tracks(out.value.0, out.value.1, before + ReachedByForm(value, signals))
    ensures out.Err? ==> exists k :: Complains(before + ReachedByForm(value, signals), k, out.error)
  {
    match value
    case Flat(entry) =>
      assert ReachedByForm(value, signals) == [Reach(entry, None)];
      out := AddRoute(order, accumulators, Reach(entry, None), before);
      assert out.Err? ==> Complains(before + ReachedByForm(value, signals), |before|, out.error);
    case BySignal(bySignal) =>
      assert ReachedByForm(value, signals) == ReachedBySignal(bySignal, signals);
      out := AccumulateSignals(bySignal, signals, order, accumulators, before);
  }

  /** The loop over byForm. */
  method Accumulate(byForm: seq<(string, FormValue)>, signals: seq<SignalKind>)
    returns (out: Result<(seq<string>, Accumulators), TableError>)
    ensures out.Ok? ==> Tracks(out.value.0, out.value.1, Reached(byForm, signals))
    ensures out.Err? ==> exists k :: Complains(Reached(byForm, signals), k, out.error)
  {
    var order: seq<string>, accumulators: Accumulators := [], map[];
    for i := 0 to |byForm|
      invariant Tracks(order, accumulators, Reached(byForm[..i], signals))
    {
      ghost var before := Reached(byForm[..i], signals);
      ReachedSplits(byForm, signals, i);
      var added := AccumulateForm(byForm[i].1, signals, order, accumulators, before);
      if added.Err? {
        ghost var k :| Complains(before + ReachedByForm(byForm[i].1, signals), k, added.error);
        ComplaintStands(before + ReachedByForm(byForm[i].1, signals), Reached(byForm, signals), k, added.error);
        return Err(added.error);
      }
      order, accumulators := added.value.0, added.value.1;
    }
    assert byForm[..|byForm|] == byForm;
    return Ok((order, accumulators));
  }

  lemma ComplaintStands(reached: seq<Reach>, all: seq<Reach>, k: int, error: TableError)
    requires reached <= all && Complains(reached, k, error)
    ensures Complains(all, k, error)
  {
    assert all[..k] == reached[..k] && all[..k + 1] == reached[..k + 1];
  }

  lemma {:induction false} ReachedPrefix(byForm: seq<(string, FormValue)>, signals: seq<SignalKind>, i: nat)
    requires i <= |byForm|
    ensures Reached(byForm[..i], signals) <= Reached(byForm, signals)
    decreases |byForm|
  {
    if i < |byForm| {
      var rest := byForm[..|byForm| - 1];
      assert byForm[..i] == rest[..i];
      ReachedPrefix(rest, signals, i);
    } else {
      assert byForm[..i] == byForm;
    }
  }

  lemma ReachedSplits(byForm: seq<(string, FormValue)>, signals: seq<SignalKind>, i: nat)
    requires i < |byForm|
    ensures Reached(byForm[..i + 1], signals) == Reached(byForm[..i], signals) + ReachedByForm(byForm[i].1, signals)
    ensures Reached(byForm[..i + 1], signals) <= Reached(byForm, signals)
  {
    assert byForm[..i + 1][..i] == byForm[..i];
    ReachedPrefix(byForm, signals, i + 1);
  }

  lemma SignalsSplit(bySignal: map<string, SignalValue>, signals: seq<SignalKind>, j: nat, before: seq<Reach>)
    requires j < |signals|
    ensures var name := SignalName(signals[j]);
            var soFar := before + ReachedBySignal(bySignal, signals[..j]);
            before + ReachedBySignal(bySignal, signals[..j + 1])
            == if name in bySignal && bySignal[name].Routed? then soFar + [Reach(bySignal[name].entry, Some(name))]
               else soFar
  {
    assert signals[..j + 1][..j] == signals[..j];
  }

  lemma {:induction false} SignalsPrefix(bySignal: map<string, SignalValue>, signals: seq<SignalKind>, j: nat,
                                         before: seq<Reach>)
    requires j <= |signals|
    ensures before + ReachedBySignal(bySignal, signals[..j]) <= before + ReachedBySignal(bySignal, signals)
    decreases |signals| - j
  {
    if j < |signals| {
      SignalsSplit(bySignal, signals, j, before);
      SignalsPrefix(bySignal, signals, j + 1, before);
    } else {
      assert signals[..j] == signals;
    }
  }

  // ---- The vocabulary ---------------------------------------------------------------------------------------------

  function Kept(names: seq<string>, keep: set<string>): (kept: seq<string>)
    ensures forall s :: s in kept <==> s in names && s in keep
  {
    if names == [] then [] else
    Kept(names[..|names| - 1], keep) + if names[|names| - 1] in keep then [names[|names| - 1]] else []
  }

  lemma {:induction false} KeptAgree(names: seq<string>, keep: set<string>, keep': set<string>)
    requires forall s :: s in names ==> (s in keep <==> s in keep')
    ensures Kept(names, keep) == Kept(names, keep')
  {
    if names != [] { KeptAgree(names[..|names| - 1], keep, keep'); }
  }

  lemma {:induction false} AllKept(names: seq<string>, keep: set<string>)
    requires forall s :: s in names ==> s in keep
    ensures Kept(names, keep) == names
  {
    if names != [] {
      var n := |names| - 1;
      assert names == names[..n] + [names[n]];
      AllKept(names[..n], keep);
    }
  }

  predicate SignalNamed(reached: seq<Reach>, tool: string, key: string, signal: string) {
    NamesAll(reached, tool, key) || NamesOne(reached, tool, key, signal)
  }

  /** The values a key may take, by the observation field it reads. */
  function ValuesOf(reached: seq<Reach>, tool: string, key: string, field: string, names: seq<string>)
    : Option<seq<string>>
  {
    if field == "subject" then None
    else if field == "window" then Some(WINDOW_NAMES)
    else if field == "logClass" then Some(LOG_CLASS_NAMES)
    else Some(Kept(names, set s | s in names && SignalNamed(reached, tool, key, s)))
  }

  /** The shape is of this tool, with a key for every pair of its mapping, in order. */
  ghost predicate Shapes(shape: ToolShape, reached: seq<Reach>, tool: string, mapping: Mapping, names: seq<string>) {
    && shape.tool == tool && |shape.input| == |mapping|
    && forall i :: 0 <= i < |mapping| ==>
         shape.input[i] == RequestKey(mapping[i].0, ValuesOf(reached, tool, mapping[i].0, mapping[i].1, names))
  }

  /** One shape for each reached tool, in order of first appearance, from the mapping of any entry that reaches it. */
  ghost predicate IsVocabulary(vocabulary: seq<ToolShape>, reached: seq<Reach>, names: seq<string>) {
    && |vocabulary| == |FirstTools(reached)|
    && forall i, r :: 0 <= i < |vocabulary| && r in reached && r.entry.tool == FirstTools(reached)[i] ==>
         Shapes(vocabulary[i], reached, FirstTools(reached)[i], r.entry.input, names)
  }

  /** The values of one key, from the accumulator. */
  method KeyValues(a: Accumulator, key: string, field: string, names: seq<string>, ghost reached: seq<Reach>,
                   tool: string)
    returns (values: Option<seq<string>>)
    requires AccumulatorTracks(a, reached, tool)
    ensures values == ValuesOf(reached, tool, key, field, names)
  {
    if field == "subject" { return None; }
    if field == "window" { return Some(WINDOW_NAMES); }
    if field == "logClass" { return Some(LOG_CLASS_NAMES); }
    ghost var named := set s | s in names && SignalNamed(reached, tool, key, s);
    if key in a.allSignalFields {
      AllKept(names, named);
      return Some(names);
    }
    KeptAgree(names, SignalsAt(a.signalValues, key), named);
    return Some(Kept(names, SignalsAt(a.signalValues, key)));
  }

  /** The map over one tool's mapping. */
  method BuildShape(a: Accumulator, tool: string, names: seq<string>, ghost reached: seq<Reach>)
    returns (shape: ToolShape)
    requires AccumulatorTracks(a, reached, tool)
    ensures Shapes(shape, reached, tool, a.inputMapping, names)
  {
    var input: seq<RequestKey> := [];
    for i := 0 to |a.inputMapping|
      invariant |input| == i
      invariant forall j :: 0 <= j < i ==> input[j] == RequestKey(a.inputMapping[j].0,
                  ValuesOf(reached, tool, a.inputMapping[j].0, a.inputMapping[j].1, names))
    {
      var values := KeyValues(a, a.inputMapping[i].0, a.inputMapping[i].1, names, reached, tool);
      input := input + [RequestKey(a.inputMapping[i].0, values)];
    }
    return ToolShape(tool, input);
  }

  lemma {:induction false} FirstToolsMeaning(reached: seq<Reach>, tool: string)
    ensures tool in FirstTools(reached) <==> ToolReached(reached, tool)
  {
    if reached != [] {
      var n := |reached| - 1;
      FirstToolsMeaning(reached[..n], tool);
      MoreReached(reached[..n], reached[n]);
      assert reached == reached[..n] + [reached[n]];
    }
  }

  /** The map over the tools, in their order. */
  method BuildVocabulary(order: seq<string>, accumulators: Accumulators, names: seq<string>, ghost reached: seq<Reach>)
    returns (vocabulary: seq<ToolShape>)
    requires Tracks(order, accumulators, reached)
    ensures IsVocabulary(vocabulary, reached, names)
  {
    vocabulary := [];
    for i := 0 to |order|
      invariant |vocabulary| == i
      invariant forall j, r :: 0 <= j < i && r in reached && r.entry.tool == order[j] ==>
                  Shapes(vocabulary[j], reached, order[j], r.entry.input, names)
    {
      FirstToolsMeaning(reached, order[i]);
      var shape := BuildShape(accumulators[order[i]], order[i], names, reached);
      vocabulary := vocabulary + [shape];
    }
  }

  /** routeRequestVocabulary over the table's forms; signals are the members of SignalKindSchema. */
  method RouteRequestVocabulary(byForm: seq<(string, FormValue)>, signals: seq<SignalKind>, names: seq<string>)
    returns (out: Result<seq<ToolShape>, TableError>)
    ensures out.Ok? <==> Clean(Reached(byForm, signals))
    ensures out.Ok? ==> IsVocabulary(out.value, Reached(byForm, signals), names)
    ensures out.Err? ==> exists k :: Complains(Reached(byForm, signals), k, out.error)
  {
    var built := Accumulate(byForm, signals);
    ghost var reached := Reached(byForm, signals);
    if built.Err? {
      ghost var k :| Complains(reached, k, built.error);
      NotCleanIsLasting(reached, k + 1);
      return Err(built.error);
    }
    var vocabulary := BuildVocabulary(built.value.0, built.value.1, names, reached);
    return Ok(vocabulary);
  }

  lemma NotCleanIsLasting(reached: seq<Reach>, k: nat)
    requires k <= |reached| && !Clean(reached[..k])
    ensures !Clean(reached)
  {
    assert forall r :: r in reached[..k] ==> r in reached;
  }

  // ---- It names exactly what planning can form --------------------------------------------------------------------

  predicate HasSignals(signals: seq<SignalKind>, names: seq<string>) {
    && (forall s :: s in signals) && (forall s :: SignalName(s) in names)
  }

  function FieldsOfForm(form: string): set<string> {
    if form == DEPLOYMENT_FORM then {"subject", "window"}
    else if form == LOG_CLASS_FORM then {"subject", "window", "logClass"}
    else if form == SIGNAL_FORM then {"subject", "window", "signal"}
    else {}
  }

  predicate EntryFits(form: string, entry: Entry) {
    && Distinct(Ids(KeyOf<string>, entry.input))
    && forall pair :: pair in entry.input ==> pair.1 in FieldsOfForm(form)
  }

  predicate ValueFits(form: string, value: FormValue) {
    match value
    case Flat(entry) => EntryFits(form, entry)
    case BySignal(bySignal) =>
      && form == SIGNAL_FORM
      && forall s :: s in bySignal && bySignal[s].Routed? ==> EntryFits(form, bySignal[s].entry)
  }

  /** The domain's forms only, mapped fields that their form has, selectors only by signal, one mapping for a tool. */
  ghost predicate WellFormed(routes: Routes, signals: seq<SignalKind>) {
    && Distinct(Ids(KeyOf<FormValue>, routes.byForm))
    && (forall i :: 0 <= i < |routes.byForm| ==>
          && routes.byForm[i].0 in {DEPLOYMENT_FORM, LOG_CLASS_FORM, SIGNAL_FORM}
          && ValueFits(routes.byForm[i].0, routes.byForm[i].1))
    && Clean(Reached(routes.byForm, signals))
  }

  ghost predicate Names(vocabulary: seq<ToolShape>, tool: string, key: string, value: string) {
    exists shape, k :: shape in vocabulary && shape.tool == tool && k in shape.input && k.key == key
      && (k.values.None? ==> ValidSubject(value)) && (k.values.Some? ==> value in k.values.value)
  }

  /** The observation's request is for this tool and has this value at this key. */
  predicate Forms(o: ExpectedObservation, routes: Routes, tool: string, key: string, value: string) {
    var request := RequestOf(o, routes);
    && ValidSubject(o.subject) && request.Some? && request.value.tool == tool
    && key in request.value.fields && request.value.fields[key] == value
  }

  /** r is what the i-th form reaches: its flat entry, or the entry it routes for a signal. */
  predicate ReachesAt(byForm: seq<(string, FormValue)>, i: nat, r: Reach) {
    && i < |byForm|
    && match byForm[i].1
       case Flat(entry) => r == Reach(entry, None)
       case BySignal(bySignal) =>
         && r.signal.Some? && r.signal.value in bySignal && bySignal[r.signal.value] == Routed(r.entry)
         && exists s :: SignalName(s) == r.signal.value
  }

  lemma {:induction false} ReachedBySignalMeaning(bySignal: map<string, SignalValue>, signals: seq<SignalKind>,
                                                  r: Reach)
    ensures r in ReachedBySignal(bySignal, signals) <==>
              && r.signal.Some? && r.signal.value in bySignal && bySignal[r.signal.value] == Routed(r.entry)
              && exists s :: s in signals && SignalName(s) == r.signal.value
  {
    if signals != [] {
      var n := |signals| - 1;
      ReachedBySignalMeaning(bySignal, signals[..n], r);
      assert signals == signals[..n] + [signals[n]];
    }
  }

  lemma {:induction false} ReachedAt(byForm: seq<(string, FormValue)>, signals: seq<SignalKind>, i: nat, r: Reach)
    requires (forall s :: s in signals) && ReachesAt(byForm, i, r)
    ensures r in Reached(byForm, signals)
  {
    if i < |byForm| - 1 {
      ReachedAt(byForm[..|byForm| - 1], signals, i, r);
    } else if byForm[i].1.BySignal? {
      ReachedBySignalMeaning(byForm[i].1.bySignal, signals, r);
    }
  }

  lemma {:induction false} ReachedFrom(byForm: seq<(string, FormValue)>, signals: seq<SignalKind>, r: Reach)
    returns (i: nat)
    requires r in Reached(byForm, signals)
    ensures ReachesAt(byForm, i, r)
  {
    var n := |byForm| - 1;
    if r in ReachedByForm(byForm[n].1, signals) {
      i := n;
      if byForm[n].1.BySignal? { ReachedBySignalMeaning(byForm[n].1.bySignal, signals, r); }
    } else {
      i := ReachedFrom(byForm[..n], signals, r);
    }
  }

  lemma {:induction false} FilledAt(o: ExpectedObservation, mapping: Mapping, key: string)
    requires Fillable(o, mapping) && Distinct(Ids(KeyOf<string>, mapping))
    ensures forall pair :: pair in mapping ==>
              pair.0 in Filled(o, mapping) && Filled(o, mapping)[pair.0] == Fields(o)[pair.1]
    ensures key in Filled(o, mapping) ==> exists pair :: pair in mapping && pair.0 == key
  {
    if mapping != [] {
      var n := |mapping| - 1;
      DistinctPrefix(KeyOf<string>, mapping, n);
      FilledAt(o, mapping[..n], key);
      EarlierKeysDiffer(mapping, n);
      forall pair | pair in mapping
        ensures pair.0 in Filled(o, mapping) && Filled(o, mapping)[pair.0] == Fields(o)[pair.1]
      {
        assert pair in mapping[..n] || pair == mapping[n];
      }
      assert forall pair :: pair in mapping[..n] ==> pair in mapping;
    }
  }

  lemma EarlierKeysDiffer(mapping: Mapping, n: nat)
    requires Distinct(Ids(KeyOf<string>, mapping)) && n < |mapping|
    ensures forall pair :: pair in mapping[..n] ==> pair.0 != mapping[n].0
  {
    forall pair | pair in mapping[..n]
      ensures pair.0 != mapping[n].0
    {
      var i :| 0 <= i < n && mapping[i] == pair;
      assert Ids(KeyOf<string>, mapping)[i] != Ids(KeyOf<string>, mapping)[n];
    }
  }

  /** Where the route of an observation comes from. */
  lemma RouteIsReached(o: ExpectedObservation, routes: Routes, signals: seq<SignalKind>) returns (r: Reach)
    requires WellFormed(routes, signals) && (forall s :: s in signals) && RouteOf(o, routes).Some?
    ensures r in Reached(routes.byForm, signals) && r.entry == RouteOf(o, routes).value
    ensures EntryFits(FormName(o), r.entry)
    ensures r.signal.Some? ==> o.ExpectSignal? && r.signal.value == SignalName(o.signal)
  {
    var i := LastIndex(KeyOf<FormValue>, routes.byForm, FormName(o));
    var value := routes.byForm[i].1;
    assert ValueFits(FormName(o), value);
    r := Reach(RouteOf(o, routes).value, if value.Flat? then None else Some(SignalName(o.signal)));
    assert ReachesAt(routes.byForm, i, r);
    ReachedAt(routes.byForm, signals, i, r);
  }

  lemma FieldValues(o: ExpectedObservation, field: string)
    requires field in FieldsOfForm(FormName(o))
    ensures field in Fields(o)
    ensures field == "subject" ==> Fields(o)[field] == o.subject
    ensures field == "window" ==> Fields(o)[field] in WINDOW_NAMES
    ensures field == "logClass" ==> Fields(o)[field] in LOG_CLASS_NAMES
    ensures field == "signal" ==> o.ExpectSignal? && Fields(o)[field] == SignalName(o.signal)
  {}

  lemma ShapeOfTool(vocabulary: seq<ToolShape>, reached: seq<Reach>, names: seq<string>, r: Reach) returns (i: nat)
    requires IsVocabulary(vocabulary, reached, names) && r in reached
    ensures i < |vocabulary| && Shapes(vocabulary[i], reached, r.entry.tool, r.entry.input, names)
  {
    FirstToolsMeaning(reached, r.entry.tool);
    i :| 0 <= i < |FirstTools(reached)| && FirstTools(reached)[i] == r.entry.tool;
  }

  /** The value an observation shows at a mapped field is among the key's values. */
  lemma ValueIsListed(o: ExpectedObservation, reached: seq<Reach>, r: Reach, names: seq<string>, key: string,
                      field: string)
    requires r in reached && (key, field) in r.entry.input && field in FieldsOfForm(FormName(o))
             && ValidSubject(o.subject)
    requires r.signal.Some? ==> o.ExpectSignal? && r.signal.value == SignalName(o.signal)
    requires forall s :: SignalName(s) in names
    ensures field in Fields(o)
    ensures var values := ValuesOf(reached, r.entry.tool, key, field, names);
            (values.None? ==> ValidSubject(Fields(o)[field])) && (values.Some? ==> Fields(o)[field] in values.value)
  {
    FieldValues(o, field);
    if field == "signal" {
      var value := Fields(o)[field];
      if r.signal.None? {
        assert NamesAll(reached, r.entry.tool, key);
      } else {
        assert NamesOne(reached, r.entry.tool, key, value);
      }
    }
  }

  /** Every value planning can put into a request is in the vocabulary. */
  lemma FormedIsNamed(routes: Routes, signals: seq<SignalKind>, names: seq<string>, vocabulary: seq<ToolShape>,
                      o: ExpectedObservation, tool: string, key: string, value: string)
    requires WellFormed(routes, signals) && HasSignals(signals, names)
    requires IsVocabulary(vocabulary, Reached(routes.byForm, signals), names)
    requires Forms(o, routes, tool, key, value)
    ensures Names(vocabulary, tool, key, value)
  {
    var reached := Reached(routes.byForm, signals);
    var r := RouteIsReached(o, routes, signals);
    FilledAt(o, r.entry.input, key);
    var pair :| pair in r.entry.input && pair.0 == key;
    ValueIsListed(o, reached, r, names, key, pair.1);
    var i := ShapeOfTool(vocabulary, reached, names, r);
    var n :| 0 <= n < |r.entry.input| && r.entry.input[n] == pair;
    NamedBy(vocabulary, i, n, tool, key, value);
  }

  lemma NamedBy(vocabulary: seq<ToolShape>, i: nat, n: nat, tool: string, key: string, value: string)
    requires i < |vocabulary| && n < |vocabulary[i].input|
    requires vocabulary[i].tool == tool && vocabulary[i].input[n].key == key
    requires var values := vocabulary[i].input[n].values;
             (values.None? ==> ValidSubject(value)) && (values.Some? ==> value in values.value)
    ensures Names(vocabulary, tool, key, value)
  {
    assert vocabulary[i] in vocabulary && vocabulary[i].input[n] in vocabulary[i].input;
  }

  function WindowNamed(name: string): Window {
    if name == "pre-onset" then PreOnset else if name == "recovery" then Recovery else DuringIncident
  }

  function LogClassNamed(name: string): LogClass {
    if name == "timeout" then TimeoutLog else if name == "activity" then ActivityLog else ErrorLog
  }

  lemma NamesReadBack(name: string)
    ensures name in WINDOW_NAMES ==> WindowName(WindowNamed(name)) == name
    ensures name in LOG_CLASS_NAMES ==> LogClassName(LogClassNamed(name)) == name
  {}

  /** An observation of a form, with a given value at one of its closed fields. */
  function Sample(form: string, field: string, value: string, signal: SignalKind): ExpectedObservation {
    var subject := if field == "subject" then value else "service";
    var window := if field == "window" then WindowNamed(value) else DuringIncident;
    var logClass := if field == "logClass" then LogClassNamed(value) else ErrorLog;
    if form == DEPLOYMENT_FORM then ExpectDeployment(subject, window, Present)
    else if form == LOG_CLASS_FORM then ExpectLogClass(subject, window, logClass, Present)
    else ExpectSignal(subject, window, signal, Elevated)
  }

  /** The value fits the field: a subject, a window, a log class or this signal. */
  predicate FitsField(field: string, value: string, signal: SignalKind) {
    && (field == "subject" ==> ValidSubject(value))
    && (field == "window" ==> value in WINDOW_NAMES)
    && (field == "logClass" ==> value in LOG_CLASS_NAMES)
    && (field == "signal" ==> value == SignalName(signal))
  }

  /** The observation is of the form and shows the value at the field. */
  predicate ShowsAt(o: ExpectedObservation, form: string, field: string, value: string) {
    FormName(o) == form && ValidSubject(o.subject) && field in Fields(o) && Fields(o)[field] == value
  }

  lemma DeploymentShows(field: string, subject: string, window: Window, value: string)
    requires ValidSubject(subject) && field in {"subject", "window"}
    requires (field == "subject" ==> value == subject) && (field == "window" ==> value == WindowName(window))
    ensures ShowsAt(ExpectDeployment(subject, window, Present), DEPLOYMENT_FORM, field, value)
  {}

  lemma LogClassShows(field: string, subject: string, window: Window, logClass: LogClass, value: string)
    requires ValidSubject(subject) && field in {"subject", "window", "logClass"}
    requires (field == "subject" ==> value == subject) && (field == "window" ==> value == WindowName(window))
    requires field == "logClass" ==> value == LogClassName(logClass)
    ensures ShowsAt(ExpectLogClass(subject, window, logClass, Present), LOG_CLASS_FORM, field, value)
  {}

  lemma SignalShows(field: string, subject: string, window: Window, signal: SignalKind, value: string)
    requires ValidSubject(subject) && field in {"subject", "window", "signal"}
    requires (field == "subject" ==> value == subject) && (field == "window" ==> value == WindowName(window))
    requires field == "signal" ==> value == SignalName(signal)
    ensures ShowsAt(ExpectSignal(subject, window, signal, Elevated), SIGNAL_FORM, field, value)
  {}

  lemma SampleHas(form: string, field: string, value: string, signal: SignalKind)
    requires field in FieldsOfForm(form) && FitsField(field, value, signal)
    ensures ShowsAt(Sample(form, field, value, signal), form, field, value)
  {
    var o := Sample(form, field, value, signal);
    NamesReadBack(value);
    if form == DEPLOYMENT_FORM {
      DeploymentShows(field, o.subject, o.window, value);
    } else if form == LOG_CLASS_FORM {
      LogClassShows(field, o.subject, o.window, o.logClass, value);
    } else {
      SignalShows(field, o.subject, o.window, signal, value);
    }
  }

  /** An entry reached at a form is the route of an observation of that form, for the signal that reaches it. */
  lemma ReachedIsRouted(routes: Routes, signals: seq<SignalKind>, r: Reach, i: nat, o: ExpectedObservation)
    requires WellFormed(routes, signals) && ReachesAt(routes.byForm, i, r)
    requires FormName(o) == routes.byForm[i].0
    requires r.signal.Some? && o.ExpectSignal? ==> SignalName(o.signal) == r.signal.value
    ensures RouteOf(o, routes) == Some(r.entry) && EntryFits(FormName(o), r.entry) && Fillable(o, r.entry.input)
  {
    var k := LastIndex(KeyOf<FormValue>, routes.byForm, FormName(o));
    assert k == i by {
      assert Ids(KeyOf<FormValue>, routes.byForm)[i] == Ids(KeyOf<FormValue>, routes.byForm)[k];
    }
    assert ValueFits(FormName(o), routes.byForm[i].1);
    forall pair | pair in r.entry.input
      ensures pair.1 in Fields(o)
    {
      FieldValues(o, pair.1);
    }
  }

  /** The entry behind a named value: it maps the key, and the value is one its form can show there. */
  lemma NamedComesFrom(reached: seq<Reach>, names: seq<string>, r: Reach, key: string, field: string, value: string)
    returns (s: Reach)
    requires Clean(reached) && r in reached && (key, field) in r.entry.input
    requires var values := ValuesOf(reached, r.entry.tool, key, field, names);
             values.Some? ==> value in values.value
    ensures s in reached && s.entry.tool == r.entry.tool && (key, field) in s.entry.input
    ensures field == "signal" ==> s.signal.None? || s.signal == Some(value)
    ensures field == "window" ==> value in WINDOW_NAMES
    ensures field == "logClass" ==> value in LOG_CLASS_NAMES
    ensures field == "signal" ==> value in names
  {
    s := r;
    if field == "signal" {
      if NamesAll(reached, r.entry.tool, key) {
        s :| s in reached && s.entry.tool == r.entry.tool && s.signal.None? && (key, "signal") in s.entry.input;
      } else {
        s :| s in reached && s.entry.tool == r.entry.tool && s.signal == Some(value)
          && (key, "signal") in s.entry.input;
      }
    }
  }

  /** Every value in the vocabulary is one planning puts into a request for some observation. */
  lemma NamedIsFormed(routes: Routes, signals: seq<SignalKind>, names: seq<string>, vocabulary: seq<ToolShape>,
                      tool: string, key: string, value: string)
    returns (o: ExpectedObservation)
    requires WellFormed(routes, signals) && HasSignals(signals, names)
    requires forall n :: n in names ==> exists s :: SignalName(s) == n
    requires IsVocabulary(vocabulary, Reached(routes.byForm, signals), names)
    requires Names(vocabulary, tool, key, value)
    ensures Forms(o, routes, tool, key, value)
  {
    var reached := Reached(routes.byForm, signals);
    var r, field := NamedEntry(reached, names, vocabulary, tool, key, value);
    var s := NamedComesFrom(reached, names, r, key, field, value);
    var i := ReachedFrom(routes.byForm, signals, s);
    var wanted := if s.signal.Some? then s.signal.value else if field == "signal" then value else "latency";
    assert SignalName(Latency) == "latency";
    var signal :| SignalName(signal) == wanted;
    o := SampleFor(routes, signals, s, i, key, field, value, signal);
  }

  /** An observation of the i-th form, for the signal that reaches its entry, that shows the value at the field. */
  lemma SampleFor(routes: Routes, signals: seq<SignalKind>, s: Reach, i: nat, key: string, field: string, value: string,
                  signal: SignalKind)
    returns (o: ExpectedObservation)
    requires WellFormed(routes, signals) && ReachesAt(routes.byForm, i, s) && (key, field) in s.entry.input
    requires (s.signal.Some? ==> SignalName(signal) == s.signal.value) && FitsField(field, value, signal)
    ensures Forms(o, routes, s.entry.tool, key, value)
  {
    var form := routes.byForm[i].0;
    assert ValueFits(form, routes.byForm[i].1) && EntryFits(form, s.entry);
    o := Sample(form, field, value, signal);
    SampleHas(form, field, value, signal);
    RoutedSampleForms(routes, signals, s, i, o, key, field, value);
  }

  lemma RoutedSampleForms(routes: Routes, signals: seq<SignalKind>, s: Reach, i: nat, o: ExpectedObservation,
                          key: string, field: string, value: string)
    requires WellFormed(routes, signals) && ReachesAt(routes.byForm, i, s)
    requires ShowsAt(o, routes.byForm[i].0, field, value) && (key, field) in s.entry.input
    requires s.signal.Some? && o.ExpectSignal? ==> SignalName(o.signal) == s.signal.value
    ensures Forms(o, routes, s.entry.tool, key, value)
  {
    ReachedIsRouted(routes, signals, s, i, o);
    FilledAt(o, s.entry.input, key);
  }

  /** The entry and the field a name in the vocabulary stands for. */
  lemma NamedEntry(reached: seq<Reach>, names: seq<string>, vocabulary: seq<ToolShape>, tool: string, key: string,
                   value: string)
    returns (r: Reach, field: string)
    requires IsVocabulary(vocabulary, reached, names) && Names(vocabulary, tool, key, value) && Clean(reached)
    ensures r in reached && r.entry.tool == tool && (key, field) in r.entry.input && field in FIELD_KEYS
    ensures var values := ValuesOf(reached, tool, key, field, names);
            (values.None? ==> field == "subject" && ValidSubject(value)) && (values.Some? ==> value in values.value)
  {
    var shape, k :| shape in vocabulary && shape.tool == tool && k in shape.input && k.key == key
      && (k.values.None? ==> ValidSubject(value)) && (k.values.Some? ==> value in k.values.value);
    var i :| 0 <= i < |vocabulary| && vocabulary[i] == shape;
    FirstToolsMeaning(reached, FirstTools(reached)[i]);
    r :| r in reached && r.entry.tool == FirstTools(reached)[i];
    assert Shapes(vocabulary[i], reached, FirstTools(reached)[i], r.entry.input, names);
    var n :| 0 <= n < |shape.input| && shape.input[n] == k;
    field := r.entry.input[n].1;
    assert r.entry.input[n] in r.entry.input;
  }

  /**
    For a well-formed table the vocabulary names exactly the (tool, key, value) triples some observation's request can
    carry: nothing planning can ask is missing, and nothing else, a refused signal's value included, is offered.
   */
  lemma VocabularyIsExact(routes: Routes, vocabulary: seq<ToolShape>, tool: string, key: string, value: string)
    requires WellFormed(routes, SIGNALS)
    requires IsVocabulary(vocabulary, Reached(routes.byForm, SIGNALS), SIGNAL_NAMES)
    ensures Names(vocabulary, tool, key, value) <==> exists o :: Forms(o, routes, tool, key, value)
  {
    SignalsAreAll();
    if Names(vocabulary, tool, key, value) {
      var o := NamedIsFormed(routes, SIGNALS, SIGNAL_NAMES, vocabulary, tool, key, value);
    }
    if exists o :: Forms(o, routes, tool, key, value) {
      var o :| Forms(o, routes, tool, key, value);
      FormedIsNamed(routes, SIGNALS, SIGNAL_NAMES, vocabulary, o, tool, key, value);
    }
  }

  lemma SignalsAreAll()
    ensures HasSignals(SIGNALS, SIGNAL_NAMES)
    ensures forall n :: n in SIGNAL_NAMES ==> exists s :: SignalName(s) == n
  {
    forall s: SignalKind
      ensures s in SIGNALS && SignalName(s) in SIGNAL_NAMES
    {
      assert s == SIGNALS[0] || s == SIGNALS[1] || s == SIGNALS[2] || s == SIGNALS[3] || s == SIGNALS[4];
      assert SignalName(s) == SIGNAL_NAMES[0] || SignalName(s) == SIGNAL_NAMES[1] || SignalName(s) == SIGNAL_NAMES[2]
        || SignalName(s) == SIGNAL_NAMES[3] || SignalName(s) == SIGNAL_NAMES[4];
    }
    forall n | n in SIGNAL_NAMES
      ensures exists s :: SignalName(s) == n
    {
      var i :| 0 <= i < |SIGNAL_NAMES| && SIGNAL_NAMES[i] == n;
      assert SignalName(SIGNALS[i]) == n;
    }
  }

  // ---- The shipped table ------------------------------------------------------------------------------------------

  const METRICS_SIGNAL_INPUT: Mapping := [("service", "subject"), ("window", "window"), ("metric", "signal")]

  const SIGNAL_ROUTES: map<string, SignalValue> := map[
    "error-rate" := Routed(Entry("metrics", METRICS_SIGNAL_INPUT)),
    "connection-pool" := Routed(Entry("metrics", METRICS_SIGNAL_INPUT)),
    "worker-saturation" := Routed(Entry("metrics", METRICS_SIGNAL_INPUT)),
    "dependency-health" := Routed(Entry("dependencies", METRICS_SIGNAL_INPUT)),
    "latency" := Refused("latency names two source families and no route picks between them")]

  const INVESTIGATION_ROUTES: Routes := Routes("investigation-routes-v2", [
    (DEPLOYMENT_FORM, Flat(Entry("deployments", [("service", "subject"), ("window", "window")]))),
    (SIGNAL_FORM, BySignal(SIGNAL_ROUTES)),
    (LOG_CLASS_FORM, Flat(Entry("logs", [("service", "subject"), ("window", "window"), ("query", "logClass")])))])

  lemma FormNamesDiffer()
    ensures DEPLOYMENT_FORM != SIGNAL_FORM && SIGNAL_FORM != LOG_CLASS_FORM && DEPLOYMENT_FORM != LOG_CLASS_FORM
  {
    assert |DEPLOYMENT_FORM| == 20 && |SIGNAL_FORM| == 12 && |LOG_CLASS_FORM| == 19;
  }

  function ShippedMapping(tool: string): Mapping {
    if tool == "deployments" then [("service", "subject"), ("window", "window")]
    else if tool == "logs" then [("service", "subject"), ("window", "window"), ("query", "logClass")]
    else METRICS_SIGNAL_INPUT
  }

  lemma ShippedEntry(i: nat, r: Reach)
    requires ReachesAt(INVESTIGATION_ROUTES.byForm, i, r)
    ensures r.entry.input == ShippedMapping(r.entry.tool)
  {
    assert i == 0 || i == 1 || i == 2;
    if i == 1 { assert r.entry.tool == "metrics" || r.entry.tool == "dependencies"; }
  }

  lemma ShippedMappingsKnown(tool: string)
    ensures KnownFields(ShippedMapping(tool))
  {}

  lemma ShippedValuesFit(i: nat)
    requires i < |INVESTIGATION_ROUTES.byForm|
    ensures ValueFits(INVESTIGATION_ROUTES.byForm[i].0, INVESTIGATION_ROUTES.byForm[i].1)
  {
    FormNamesDiffer();
    assert i == 0 || i == 1 || i == 2;
  }

  /** The table of packages/graph/src/investigation-routes.ts is one the vocabulary theorem covers. */
  lemma ShippedRoutesAreWellFormed()
    ensures WellFormed(INVESTIGATION_ROUTES, SIGNALS)
  {
    var byForm := INVESTIGATION_ROUTES.byForm;
    FormNamesDiffer();
    forall r | r in Reached(byForm, SIGNALS)
      ensures r.entry.input == ShippedMapping(r.entry.tool) && KnownFields(r.entry.input)
    {
      var i := ReachedFrom(byForm, SIGNALS, r);
      ShippedEntry(i, r);
      ShippedMappingsKnown(r.entry.tool);
    }
    forall i | 0 <= i < |byForm|
      ensures ValueFits(byForm[i].0, byForm[i].1)
    {
      ShippedValuesFit(i);
    }
  }
}
