/**
  derivePredictions: typed predictions from a hypothesis's cause, packages/domain/src/prediction-derivation.ts.
 */
module PredictionDerivation {
  import opened Wrappers
  import opened Contracts
  import opened Reducers

  /** An expected observation without its subject. */
  datatype TemplateObservation =
    | TemplateDeployment(window: Window, presence: Presence)
    | TemplateLogClass(window: Window, logClass: LogClass, presence: Presence)
    | TemplateSignal(window: Window, signal: SignalKind, state: SignalState)

  datatype Template = Template(
    key: string, statement: string, expectedIfTrue: seq<TemplateObservation>, expectedIfFalse: seq<TemplateObservation>)

  datatype TemplateSet = TemplateSet(version: string, byMechanism: map<string, seq<Template>>)

  function WithSubject(o: TemplateObservation, subject: string): ExpectedObservation {
    match o
    case TemplateDeployment(window, presence) => ExpectDeployment(subject, window, presence)
    case TemplateLogClass(window, logClass, presence) => ExpectLogClass(subject, window, logClass, presence)
    case TemplateSignal(window, signal, state) => ExpectSignal(subject, window, signal, state)
  }

  function WithSubjects(os: seq<TemplateObservation>, subject: string): seq<ExpectedObservation> {
    seq(|os|, i requires 0 <= i < |os| => WithSubject(os[i], subject))
  }

  function FromTemplate(hypothesisId: Id, component: string, t: Template, version: string): Prediction {
    Prediction(PredictionOf(hypothesisId, t.key, version), hypothesisId, t.statement + " (" + component + ")",
               WithSubjects(t.expectedIfTrue, component), WithSubjects(t.expectedIfFalse, component), Untested)
  }

  predicate HasPrediction(predictions: seq<Prediction>, hypothesisId: Id) {
    exists p :: p in predictions && p.hypothesisId == hypothesisId
  }

  /** The hypothesis gets predictions: it names a cause with a valid subject and a known mechanism, and has none yet. */
  predicate Derivable(h: Hypothesis, predictions: seq<Prediction>, templates: TemplateSet) {
    && h.cause.Some?
    && !HasPrediction(predictions, h.id)
    && ValidSubject(h.cause.value.component)
    && h.cause.value.mechanism in templates.byMechanism
  }

  function Instances(h: Hypothesis, predictions: seq<Prediction>, templates: TemplateSet): seq<Prediction> {
    if !Derivable(h, predictions, templates) then [] else
    var ts := templates.byMechanism[h.cause.value.mechanism];
    seq(|ts|, i requires 0 <= i < |ts| => FromTemplate(h.id, h.cause.value.component, ts[i], templates.version))
  }

  function Derived(hypotheses: seq<Hypothesis>, predictions: seq<Prediction>, templates: TemplateSet): seq<Prediction> {
    if hypotheses == [] then [] else
    Derived(hypotheses[..|hypotheses| - 1], predictions, templates)
    + Instances(hypotheses[|hypotheses| - 1], predictions, templates)
  }

  /** derivePredictions: the set of hypotheses already covered, and the two nested loops. */
  method DerivePredictions(hypotheses: seq<Hypothesis>, predictions: seq<Prediction>, templates: TemplateSet)
    returns (derived: seq<Prediction>)
    ensures derived == Derived(hypotheses, predictions, templates)
  {
    var covered := set p | p in predictions :: p.hypothesisId;
    derived := [];
    for i := 0 to |hypotheses|
      invariant derived == Derived(hypotheses[..i], predictions, templates)
    {
      assert hypotheses[..i + 1][..i] == hypotheses[..i];
      var h := hypotheses[i];
      if h.cause.Some? && h.id !in covered && ValidSubject(h.cause.value.component)
         && h.cause.value.mechanism in templates.byMechanism
      {
        var ts := templates.byMechanism[h.cause.value.mechanism];
        ghost var before, all := derived, Instances(h, predictions, templates);
        for j := 0 to |ts|
          invariant derived == before + all[..j]
        {
          derived := derived + [FromTemplate(h.id, h.cause.value.component, ts[j], templates.version)];
        }
        assert all[..|ts|] == all;
      }
    }
    assert hypotheses[..|hypotheses|] == hypotheses;
  }

  ghost predicate DistinctKeys(templates: TemplateSet) {
    forall m :: m in templates.byMechanism ==> Distinct(Ids((t: Template) => t.key, templates.byMechanism[m]))
  }

  /** What is derived: one untested prediction for each template of each derivable hypothesis, and nothing else. */
  lemma {:induction false} DerivedMeaning(hypotheses: seq<Hypothesis>, predictions: seq<Prediction>,
                                          templates: TemplateSet,
                                          p: Prediction)
    ensures p in Derived(hypotheses, predictions, templates)
            <==> exists h :: h in hypotheses && p in Instances(h, predictions, templates)
  {
    if hypotheses != [] {
      var rest, last := hypotheses[..|hypotheses| - 1], hypotheses[|hypotheses| - 1];
      assert hypotheses == rest + [last];
      DerivedMeaning(rest, predictions, templates, p);
    }
  }

  /** The template's observation with the hypothesis's component for its subject. */
  predicate IsAbout(o: ExpectedObservation, template: TemplateObservation, component: string) {
    match template
    case TemplateDeployment(window, presence) =>
      o.ExpectDeployment? && o.subject == component && o.window == window && o.presence == presence
    case TemplateLogClass(window, logClass, presence) =>
      o.ExpectLogClass? && o.subject == component && o.window == window && o.logClass == logClass
      && o.presence == presence
    case TemplateSignal(window, signal, state) =>
      o.ExpectSignal? && o.subject == component && o.window == window && o.signal == signal && o.state == state
  }

  predicate AreAbout(os: seq<ExpectedObservation>, templates: seq<TemplateObservation>, component: string) {
    |os| == |templates| && forall i :: 0 <= i < |os| ==> IsAbout(os[i], templates[i], component)
  }

  /** The hypothesis names a component of one to two hundred characters and a mechanism that has templates. */
  predicate Templated(h: Hypothesis, templates: TemplateSet) {
    && h.cause.Some? && 1 <= |h.cause.value.component| <= 200 && h.cause.value.mechanism in templates.byMechanism
  }

  /** An untested prediction that says of the hypothesis's component what the template says. */
  predicate IsInstance(p: Prediction, h: Hypothesis, t: Template, version: string) {
    && h.cause.Some?
    && p.id == PredictionOf(h.id, t.key, version) && p.hypothesisId == h.id && p.status == Untested
    && p.statement == t.statement + " (" + h.cause.value.component + ")"
    && AreAbout(p.expectedIfTrue, t.expectedIfTrue, h.cause.value.component)
    && AreAbout(p.expectedIfFalse, t.expectedIfFalse, h.cause.value.component)
  }

  lemma FromTemplateByFields(h: Hypothesis, t: Template, version: string, p: Prediction)
    requires h.cause.Some?
    ensures p == FromTemplate(h.id, h.cause.value.component, t, version) <==> IsInstance(p, h, t, version)
  {
    var component := h.cause.value.component;
    if IsInstance(p, h, t, version) {
      assert p.expectedIfTrue == WithSubjects(t.expectedIfTrue, component);
      assert p.expectedIfFalse == WithSubjects(t.expectedIfFalse, component);
    }
  }

  lemma InstancesByFields(h: Hypothesis, predictions: seq<Prediction>, templates: TemplateSet, p: Prediction)
    ensures p in Instances(h, predictions, templates)
            <==> && Templated(h, templates) && (forall q :: q in predictions ==> q.hypothesisId != h.id)
                 && exists t :: t in templates.byMechanism[h.cause.value.mechanism]
                                && IsInstance(p, h, t, templates.version)
  {
    if Derivable(h, predictions, templates) {
      var ts, instances := templates.byMechanism[h.cause.value.mechanism], Instances(h, predictions, templates);
      forall i | 0 <= i < |ts|
        ensures IsInstance(instances[i], h, ts[i], templates.version)
      {
        FromTemplateByFields(h, ts[i], templates.version, instances[i]);
      }
      if t :| t in ts && IsInstance(p, h, t, templates.version) {
        var i :| 0 <= i < |ts| && ts[i] == t;
        FromTemplateByFields(h, t, templates.version, p);
        assert instances[i] == p;
      }
    }
  }

  /**
    What is derived, told from the templates: for each hypothesis with a templated cause and no prediction yet, one
    untested prediction for each template of its mechanism, about its component.
   */
  lemma DerivedByFields(hypotheses: seq<Hypothesis>, predictions: seq<Prediction>, templates: TemplateSet,
                        p: Prediction)
    ensures p in Derived(hypotheses, predictions, templates)
            <==> exists h :: h in hypotheses && Templated(h, templates)
                             && (forall q :: q in predictions ==> q.hypothesisId != h.id)
                             && exists t :: t in templates.byMechanism[h.cause.value.mechanism]
                                            && IsInstance(p, h, t, templates.version)
  {
    DerivedMeaning(hypotheses, predictions, templates, p);
    forall h { InstancesByFields(h, predictions, templates, p); }
  }

  /** The derivation goes through the hypotheses in their order. */
  lemma DerivedInOrder(hypotheses: seq<Hypothesis>, h: Hypothesis, predictions: seq<Prediction>,
                       templates: TemplateSet)
    ensures Derived(hypotheses + [h], predictions, templates)
            == Derived(hypotheses, predictions, templates) + Derived([h], predictions, templates)
  {
    assert (hypotheses + [h])[..|hypotheses|] == hypotheses && [h][..0] == [];
  }

  /** And for each hypothesis through its templates in theirs. */
  lemma OneHypothesisInOrder(h: Hypothesis, predictions: seq<Prediction>, templates: TemplateSet, k: nat)
    requires Templated(h, templates) && k < |templates.byMechanism[h.cause.value.mechanism]|
    requires forall q :: q in predictions ==> q.hypothesisId != h.id
    ensures var derived, ts := Derived([h], predictions, templates), templates.byMechanism[h.cause.value.mechanism];
            |derived| == |ts| && IsInstance(derived[k], h, ts[k], templates.version)
  {
    assert [h][..0] == [];
    var ts := templates.byMechanism[h.cause.value.mechanism];
    FromTemplateByFields(h, ts[k], templates.version, Instances(h, predictions, templates)[k]);
  }

  lemma InstanceShape(h: Hypothesis, predictions: seq<Prediction>, templates: TemplateSet, p: Prediction)
    requires p in Instances(h, predictions, templates)
    ensures p.hypothesisId == h.id && !HasPrediction(predictions, h.id) && p.status.Untested?
    ensures p.id.PredictionOf? && p.id.hypothesisId == h.id && p.id.templatesVersion == templates.version
  {}

  lemma InstancesDistinct(h: Hypothesis, predictions: seq<Prediction>, templates: TemplateSet)
    requires DistinctKeys(templates)
    ensures Distinct(Ids(PredictionId, Instances(h, predictions, templates)))
  {
    if Derivable(h, predictions, templates) {
      var ts := templates.byMechanism[h.cause.value.mechanism];
      forall i, j | 0 <= i < j < |ts|
        ensures ts[i].key != ts[j].key
      {
        assert Ids((t: Template) => t.key, ts)[i] != Ids((t: Template) => t.key, ts)[j];
      }
    }
  }

  /** What earlier hypotheses give is about another hypothesis. */
  lemma EarlierHypothesis(hypotheses: seq<Hypothesis>, predictions: seq<Prediction>, templates: TemplateSet, n: nat,
                          p: Prediction)
    requires Distinct(Ids(HypothesisId, hypotheses)) && n < |hypotheses|
    requires p in Derived(hypotheses[..n], predictions, templates)
    ensures p.id.PredictionOf? && p.id.hypothesisId != hypotheses[n].id
  {
    DerivedMeaning(hypotheses[..n], predictions, templates, p);
    var h :| h in hypotheses[..n] && p in Instances(h, predictions, templates);
    var k :| 0 <= k < n && hypotheses[k] == h;
    assert Ids(HypothesisId, hypotheses)[k] != Ids(HypothesisId, hypotheses)[n];
  }

  /** Distinct hypotheses and template keys give distinct prediction ids. */
  lemma {:induction false} DerivedDistinct(hypotheses: seq<Hypothesis>, predictions: seq<Prediction>,
                                           templates: TemplateSet)
    requires Distinct(Ids(HypothesisId, hypotheses)) && DistinctKeys(templates)
    ensures Distinct(Ids(PredictionId, Derived(hypotheses, predictions, templates)))
  {
    if hypotheses != [] {
      var n := |hypotheses| - 1;
      DistinctPrefix(HypothesisId, hypotheses, n);
      DerivedDistinct(hypotheses[..n], predictions, templates);
      InstancesDistinct(hypotheses[n], predictions, templates);
      var before, more := Derived(hypotheses[..n], predictions, templates),
                          Instances(hypotheses[n], predictions, templates);
      forall i, j | 0 <= i < |before| && 0 <= j < |more|
        ensures before[i].id != more[j].id
      {
        EarlierHypothesis(hypotheses, predictions, templates, n, before[i]);
      }
      assert Ids(PredictionId, before + more) == Ids(PredictionId, before) + Ids(PredictionId, more);
    }
  }

  /** Once its result is merged, deriving again yields nothing: a hypothesis is given predictions once. */
  lemma {:induction false} DerivingAgainIsNothing(hypotheses: seq<Hypothesis>, predictions: seq<Prediction>,
                                                  templates: TemplateSet, merged: seq<Prediction>, n: nat)
    requires merged == Upsert(PredictionId, predictions, Derived(hypotheses, predictions, templates))
    requires forall p :: p in predictions ==> p.id.Given? || (p.id.PredictionOf? && p.id.hypothesisId == p.hypothesisId)
    requires n <= |hypotheses|
    ensures Derived(hypotheses[..n], merged, templates) == []
  {
    if n > 0 {
      var h := hypotheses[n - 1];
      DerivingAgainIsNothing(hypotheses, predictions, templates, merged, n - 1);
      assert hypotheses[..n][..n - 1] == hypotheses[..n - 1];
      if Derivable(h, merged, templates) && Instances(h, merged, templates) != [] {
        if HasPrediction(predictions, h.id) { MergingKeeps(hypotheses, predictions, templates, merged, h.id); }
        var p := Instances(h, predictions, templates)[0];
        assert p in Instances(h, predictions, templates);
        MergedCovers(hypotheses, predictions, templates, merged, h, p);
        assert false;
      }
    }
  }

  /** Merging takes no hypothesis's predictions away. */
  lemma MergingKeeps(hypotheses: seq<Hypothesis>, predictions: seq<Prediction>, templates: TemplateSet,
                     merged: seq<Prediction>, hypothesisId: Id)
    requires merged == Upsert(PredictionId, predictions, Derived(hypotheses, predictions, templates))
    requires forall p :: p in predictions ==> p.id.Given? || (p.id.PredictionOf? && p.id.hypothesisId == p.hypothesisId)
    requires HasPrediction(predictions, hypothesisId)
    ensures HasPrediction(merged, hypothesisId)
  {
    var p :| p in predictions && p.hypothesisId == hypothesisId;
    var derived := Derived(hypotheses, predictions, templates);
    forall i | 0 <= i < |derived|
      ensures Ids(PredictionId, derived)[i] != p.id
    {
      DerivedMeaning(hypotheses, predictions, templates, derived[i]);
      var other :| other in hypotheses && derived[i] in Instances(other, predictions, templates);
      InstanceShape(other, predictions, templates, derived[i]);
    }
    UpsertSources(PredictionId, predictions, derived);
    assert p in merged;
  }

  lemma MergedCovers(hypotheses: seq<Hypothesis>, predictions: seq<Prediction>, templates: TemplateSet,
                     merged: seq<Prediction>, h: Hypothesis, p: Prediction)
    requires merged == Upsert(PredictionId, predictions, Derived(hypotheses, predictions, templates))
    requires h in hypotheses && p in Instances(h, predictions, templates)
    ensures HasPrediction(merged, h.id)
  {
    var derived := Derived(hypotheses, predictions, templates);
    DerivedMeaning(hypotheses, predictions, templates, p);
    LookupAfterUpsert(PredictionId, predictions, derived, p.id);
    var i :| 0 <= i < |derived| && derived[i] == p;
    var k, m := LastIndex(PredictionId, derived, p.id), LastIndex(PredictionId, merged, p.id);
    assert k >= i;
    DerivedMeaning(hypotheses, predictions, templates, derived[k]);
    var other :| other in hypotheses && derived[k] in Instances(other, predictions, templates);
    InstanceShape(other, predictions, templates, derived[k]);
    InstanceShape(h, predictions, templates, p);
    assert merged[m] in merged;
  }
}
