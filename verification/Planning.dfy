/**
  planInvestigation: untested predictions become the test requests that would decide them,
  packages/domain/src/investigation-planning.ts.

  A JavaScript record whose key order matters is a sequence of pairs; one that is only looked up in is a map.
 */
module Planning {
  import opened Wrappers
  import opened Contracts
  import opened Reducers

  // ---- Observations as records ------------------------------------------------------------------------------------

  function WindowName(w: Window): string {
    match w
    case PreOnset => "pre-onset"
    case DuringIncident => "incident"
    case Recovery => "recovery"
  }

  function LogClassName(c: LogClass): string {
    match c
    case ErrorLog => "error"
    case TimeoutLog => "timeout"
    case ActivityLog => "activity"
  }

  function SignalName(s: SignalKind): string {
    match s
    case ErrorRate => "error-rate"
    case Latency => "latency"
    case ConnectionPool => "connection-pool"
    case WorkerSaturation => "worker-saturation"
    case DependencyHealth => "dependency-health"
  }

  function StateName(s: SignalState): string {
    match s
    case Normal => "normal"
    case Elevated => "elevated"
    case AtLimit => "at-limit"
  }

  function PresenceName(p: Presence): string {
    match p
    case Present => "present"
    case Absent => "absent"
  }

  const DEPLOYMENT_FORM := "deployment-in-window"
  const LOG_CLASS_FORM := "log-class-in-window"
  const SIGNAL_FORM := "signal-state"

  function FormName(o: ExpectedObservation): string {
    match o
    case ExpectDeployment(_, _, _) => DEPLOYMENT_FORM
    case ExpectLogClass(_, _, _, _) => LOG_CLASS_FORM
    case ExpectSignal(_, _, _, _) => SIGNAL_FORM
  }

  /** The own properties of an observation. */
  function Fields(o: ExpectedObservation): map<string, string> {
    match o
    case ExpectDeployment(subject, window, presence) =>
      map["form" := FormName(o), "subject" := subject, "window" := WindowName(window),
          "presence" := PresenceName(presence)]
    case ExpectLogClass(subject, window, logClass, presence) =>
      map["form" := FormName(o), "subject" := subject, "window" := WindowName(window),
          "logClass" := LogClassName(logClass), "presence" := PresenceName(presence)]
    case ExpectSignal(subject, window, signal, state) =>
      map["form" := FormName(o), "subject" := subject, "window" := WindowName(window),
          "signal" := SignalName(signal), "state" := StateName(state)]
  }

  // ---- Routes -----------------------------------------------------------------------------------------------------

  type Mapping = seq<(string, string)>

  datatype Entry = Entry(tool: string, input: Mapping)
  datatype SignalValue = Routed(entry: Entry) | Refused(reason: string)
  datatype FormValue = Flat(entry: Entry) | BySignal(bySignal: map<string, SignalValue>)
  datatype Routes = Routes(version: string, byForm: seq<(string, FormValue)>)

  function KeyOf<T>(pair: (string, T)): string { pair.0 }

  /** Object.hasOwn, then the property. */
  function Own<T>(record: seq<(string, T)>, key: string): Option<T> {
    var k := LastIndex(KeyOf<T>, record, key);
    if k < 0 then None else Some(record[k].1)
  }

  /** The route of an observation: none for an unrouted form, an unrouted signal or a refused one. */
  function RouteOf(o: ExpectedObservation, routes: Routes): Option<Entry> {
    var found: Option<FormValue> := Own(routes.byForm, FormName(o));
    match found
    case None => None
    case Some(Flat(entry)) => Some(entry)
    case Some(BySignal(bySignal)) =>
      if o.ExpectSignal? && SignalName(o.signal) in bySignal && bySignal[SignalName(o.signal)].Routed?
      then Some(bySignal[SignalName(o.signal)].entry) else None
  }

  predicate Fillable(o: ExpectedObservation, mapping: Mapping) {
    forall pair :: pair in mapping ==> pair.1 in Fields(o)
  }

  /** The record the mapping fills from the observation; a later key would overwrite an earlier one. */
  function Filled(o: ExpectedObservation, mapping: Mapping): map<string, string>
    requires Fillable(o, mapping)
  {
    if mapping == [] then map[] else
    Filled(o, mapping[..|mapping| - 1])[mapping[|mapping| - 1].0 := Fields(o)[mapping[|mapping| - 1].1]]
  }

  /** buildRequest: the loop over the mapping, giving up at the first field the observation lacks. */
  method BuildRequest(o: ExpectedObservation, mapping: Mapping) returns (input: Option<map<string, string>>)
    ensures input.Some? <==> Fillable(o, mapping)
    ensures input.Some? ==> input.value == Filled(o, mapping)
  {
    var request: map<string, string> := map[];
    for i := 0 to |mapping|
      invariant Fillable(o, mapping[..i]) && request == Filled(o, mapping[..i])
    {
      assert mapping[..i + 1][..i] == mapping[..i];
      var (requestField, observationField) := mapping[i];
      if observationField !in Fields(o) { return None; }
      request := request[requestField := Fields(o)[observationField]];
    }
    assert mapping[..|mapping|] == mapping;
    return Some(request);
  }

  datatype Request = Request(tool: string, fields: map<string, string>)

  function RequestOf(o: ExpectedObservation, routes: Routes): Option<Request> {
    match RouteOf(o, routes)
    case None => None
    case Some(entry) =>
      if Fillable(o, entry.input) then Some(Request(entry.tool, Filled(o, entry.input))) else None
  }

  // ---- Tests ------------------------------------------------------------------------------------------------------

  /** An existing test's input: a record of strings, another JSON value, or a value with no canonical form. */
  datatype Input = Record(fields: map<string, string>) | OtherJson(text: string) | NotJson

  datatype Cost = Cheap | MediumCost | Expensive
  datatype TestStatus = Planned | Executed | Unavailable | Failed
  datatype Test = Test(id: Id, predictionId: Id, tool: string, input: Input, cost: Cost, status: TestStatus)

  function TestId(t: Test): Id { t.id }

  /** requestIdentity: equal for two tests exactly when the tool and the canonical input are. */
  datatype Identity = Identity(tool: string, input: Input)

  function Claimed(tests: seq<Test>): set<Identity> {
    set t | t in tests :: Identity(t.tool, t.input)
  }

  function IdentityOf(request: Request): Identity {
    Identity(request.tool, Record(request.fields))
  }

  /** A routable request and the prediction it would test. */
  datatype Wanted = Wanted(predictionId: Id, request: Request)

  function TestFor(w: Wanted, version: string): Test {
    Test(TestOf(w.request.tool, w.request.fields, version), w.predictionId, w.request.tool, Record(w.request.fields),
         Cheap, Planned)
  }

  // ---- What a plan is ---------------------------------------------------------------------------------------------

  function WantedFor(predictionId: Id, observations: seq<ExpectedObservation>, routes: Routes): seq<Wanted> {
    if observations == [] then [] else
    var n := |observations| - 1;
    WantedFor(predictionId, observations[..n], routes)
    + match RequestOf(observations[n], routes) { case None => [] case Some(request) => [Wanted(predictionId, request)] }
  }

  /** The routable requests of untested predictions, true-case observations before false-case ones. */
  function AllWanted(predictions: seq<Prediction>, routes: Routes): seq<Wanted> {
    if predictions == [] then [] else
    var n := |predictions| - 1;
    var p := predictions[n];
    AllWanted(predictions[..n], routes)
    + if p.status.Untested? then WantedFor(p.id, p.expectedIfTrue + p.expectedIfFalse, routes) else []
  }

  /** The i-th request is wanted for the first time, and no existing test carries it. */
  predicate IsNew(wanted: seq<Wanted>, claimed: set<Identity>, i: nat)
    requires i < |wanted|
  {
    && IdentityOf(wanted[i].request) !in claimed
    && forall j :: 0 <= j < i ==> wanted[j].request != wanted[i].request
  }

  function NewOnes(wanted: seq<Wanted>, claimed: set<Identity>): seq<Wanted> {
    if wanted == [] then [] else
    var n := |wanted| - 1;
    NewOnes(wanted[..n], claimed) + if IsNew(wanted, claimed, n) then [wanted[n]] else []
  }

  function TestsFor(wanted: seq<Wanted>, version: string): seq<Test> {
    seq(|wanted|, i requires 0 <= i < |wanted| => TestFor(wanted[i], version))
  }

  function Plan(predictions: seq<Prediction>, tests: seq<Test>, routes: Routes): seq<Test> {
    TestsFor(NewOnes(AllWanted(predictions, routes), Claimed(tests)), routes.version)
  }

  ghost function Identities(wanted: seq<Wanted>): set<Identity> {
    set w | w in wanted :: IdentityOf(w.request)
  }

  lemma OneMoreWanted(wanted: seq<Wanted>, w: Wanted, claimed: set<Identity>, version: string)
    ensures var isNew := IdentityOf(w.request) !in claimed + Identities(wanted);
            TestsFor(NewOnes(wanted + [w], claimed), version)
            == TestsFor(NewOnes(wanted, claimed), version) + if isNew then [TestFor(w, version)] else []
    ensures Identities(wanted + [w]) == Identities(wanted) + {IdentityOf(w.request)}
  {
    var more := wanted + [w];
    assert more[..|wanted|] == wanted;
    if IdentityOf(w.request) in Identities(wanted) {
      var v :| v in wanted && IdentityOf(v.request) == IdentityOf(w.request);
      var j :| 0 <= j < |wanted| && wanted[j] == v;
      assert more[j].request == w.request;
    } else {
      forall j | 0 <= j < |wanted|
        ensures more[j].request != w.request
      {
        assert wanted[j] in wanted;
      }
    }
  }

  /** The body of planInvestigation's inner loop. */
  method PlanOne(o: ExpectedObservation, predictionId: Id, routes: Routes, claimed: set<Identity>)
    returns (test: Option<Test>)
    ensures test == match RequestOf(o, routes)
                    case None => None
                    case Some(request) => if IdentityOf(request) in claimed then None
                                          else Some(TestFor(Wanted(predictionId, request), routes.version))
  {
    var formEntry := Own(routes.byForm, FormName(o));
    if formEntry.None? { return None; }
    var route: Entry;
    if formEntry.value.BySignal? {
      if !o.ExpectSignal? || SignalName(o.signal) !in formEntry.value.bySignal { return None; }
      var signalEntry := formEntry.value.bySignal[SignalName(o.signal)];
      if signalEntry.Refused? { return None; }
      route := signalEntry.entry;
    } else {
      route := formEntry.value.entry;
    }
    var input := BuildRequest(o, route.input);
    if input.None? || Identity(route.tool, Record(input.value)) in claimed { return None; }
    return Some(Test(TestOf(route.tool, input.value, routes.version), predictionId, route.tool, Record(input.value),
                     Cheap, Planned));
  }

  /** The claimed requests and the plan account for what has been wanted so far. */
  ghost predicate Accounts(claimed: set<Identity>, planned: seq<Test>, wanted: seq<Wanted>, before: set<Identity>,
                           version: string)
  {
    claimed == before + Identities(wanted) && planned == TestsFor(NewOnes(wanted, before), version)
  }

  lemma AccountOne(claimed: set<Identity>, planned: seq<Test>, wanted: seq<Wanted>, before: set<Identity>,
                   version: string, w: Wanted)
    requires Accounts(claimed, planned, wanted, before, version)
    ensures if IdentityOf(w.request) in claimed then Accounts(claimed, planned, wanted + [w], before, version)
            else Accounts(claimed + {IdentityOf(w.request)}, planned + [TestFor(w, version)], wanted + [w], before,
                          version)
  {
    OneMoreWanted(wanted, w, before, version);
  }

  /** The inner loop of planInvestigation. */
  method PlanFor(predictionId: Id, observations: seq<ExpectedObservation>, routes: Routes, claimed0: set<Identity>,
                 planned0: seq<Test>, ghost wanted0: seq<Wanted>, ghost before: set<Identity>)
    returns (claimed: set<Identity>, planned: seq<Test>)
    requires Accounts(claimed0, planned0, wanted0, before, routes.version)
    ensures Accounts(claimed, planned, wanted0 + WantedFor(predictionId, observations, routes), before, routes.version)
  {
    claimed, planned := claimed0, planned0;
    assert wanted0 + [] == wanted0;
    for j := 0 to |observations|
      invariant Accounts(claimed, planned, wanted0 + WantedFor(predictionId, observations[..j], routes), before,
                         routes.version)
    {
      ghost var wanted := wanted0 + WantedFor(predictionId, observations[..j], routes);
      ghost var request := RequestOf(observations[j], routes);
      WantedForSnoc(predictionId, observations, routes, j, wanted0);
      var test := PlanOne(observations[j], predictionId, routes, claimed);
      if request.Some? {
        AccountOne(claimed, planned, wanted, before, routes.version, Wanted(predictionId, request.value));
      }
      if test.Some? {
        planned, claimed := planned + [test.value], claimed + {Identity(test.value.tool, test.value.input)};
      }
    }
    assert observations[..|observations|] == observations;
  }

  lemma WantedForSnoc(predictionId: Id, observations: seq<ExpectedObservation>, routes: Routes, j: nat,
                      wanted0: seq<Wanted>)
    requires j < |observations|
    ensures var wanted := wanted0 + WantedFor(predictionId, observations[..j], routes);
            var request := RequestOf(observations[j], routes);
            wanted0 + WantedFor(predictionId, observations[..j + 1], routes)
            == if request.None? then wanted else wanted + [Wanted(predictionId, request.value)]
  {
    assert observations[..j + 1][..j] == observations[..j];
  }

  /** planInvestigation; it throws when an existing test's input has no canonical form. */
  method PlanInvestigation(predictions: seq<Prediction>, tests: seq<Test>, routes: Routes)
    returns (r: Result<seq<Test>, ()>)
    ensures r.Err? <==> exists t :: t in tests && t.input.NotJson?
    ensures r.Ok? ==> r.value == Plan(predictions, tests, routes)
  {
    if exists t :: t in tests && t.input.NotJson? { return Err(()); }
    var claimed, planned: seq<Test> := Claimed(tests), [];
    for i := 0 to |predictions|
      invariant Accounts(claimed, planned, AllWanted(predictions[..i], routes), Claimed(tests), routes.version)
    {
      var p := predictions[i];
      assert predictions[..i + 1][..i] == predictions[..i];
      if p.status.Untested? {
        claimed, planned := PlanFor(p.id, p.expectedIfTrue + p.expectedIfFalse, routes, claimed, planned,
                                    AllWanted(predictions[..i], routes), Claimed(tests));
      } else {
        assert AllWanted(predictions[..i + 1], routes) == AllWanted(predictions[..i], routes);
      }
    }
    assert predictions[..|predictions|] == predictions;
    return Ok(planned);
  }

  // ---- What an expectation asks for, told from the table ----------------------------------------------------------

  /** The own properties of an observation, as they are written. */
  lemma FieldsAreWritten(o: ExpectedObservation)
    ensures var f := Fields(o);
            && f.Keys == {"form", "subject", "window"} + (if o.ExpectSignal? then {"signal", "state"} else {"presence"})
                         + (if o.ExpectLogClass? then {"logClass"} else {})
            && f["subject"] == o.subject
            && f["form"] == (match o
                             case ExpectDeployment(_, _, _) => "deployment-in-window"
                             case ExpectLogClass(_, _, _, _) => "log-class-in-window"
                             case ExpectSignal(_, _, _, _) => "signal-state")
            && f["window"] == (match o.window
                               case PreOnset => "pre-onset"
                               case DuringIncident => "incident"
                               case Recovery => "recovery")
  {
    assert |"form"| == 4 && |"subject"| == 7 && |"window"| == 6 && |"presence"| == 8 && |"logClass"| == 8;
    assert |"signal"| == 6 && |"state"| == 5 && "window"[0] == 'w' && "signal"[0] == 's';
    assert "presence"[0] == 'p' && "logClass"[0] == 'l';
  }

  lemma ValuesAreWritten(o: ExpectedObservation)
    ensures !o.ExpectSignal? ==> "presence" in Fields(o)
                                 && Fields(o)["presence"] == if o.presence == Present then "present" else "absent"
    ensures o.ExpectLogClass? ==> "logClass" in Fields(o)
                                  && Fields(o)["logClass"] == (match o.logClass
                                                               case ErrorLog => "error"
                                                               case TimeoutLog => "timeout"
                                                               case ActivityLog => "activity")
    ensures o.ExpectSignal? ==> "state" in Fields(o)
                                && Fields(o)["state"] == (match o.state
                                                          case Normal => "normal"
                                                          case Elevated => "elevated"
                                                          case AtLimit => "at-limit")
    ensures o.ExpectSignal? ==> "signal" in Fields(o)
                                && Fields(o)["signal"] == (match o.signal
                                                           case ErrorRate => "error-rate"
                                                           case Latency => "latency"
                                                           case ConnectionPool => "connection-pool"
                                                           case WorkerSaturation => "worker-saturation"
                                                           case DependencyHealth => "dependency-health")
  {
    assert |"form"| == 4 && |"subject"| == 7 && |"window"| == 6 && |"presence"| == 8 && |"logClass"| == 8;
    assert |"signal"| == 6 && |"state"| == 5 && "window"[0] == 'w' && "signal"[0] == 's';
    assert "presence"[0] == 'p' && "logClass"[0] == 'l';
  }

  /** The k-th pair is the last with this key: the property a record built pair by pair ends up with. */
  ghost predicate IsProperty<T>(record: seq<(string, T)>, key: string, k: int) {
    && 0 <= k < |record| && record[k].0 == key
    && forall j :: k < j < |record| ==> record[j].0 != key
  }

  /** A flat route, or the route of the signal the observation names. */
  predicate RoutesTo(value: FormValue, o: ExpectedObservation, entry: Entry) {
    match value
    case Flat(flat) => flat == entry
    case BySignal(bySignal) =>
      o.ExpectSignal? && SignalName(o.signal) in bySignal && bySignal[SignalName(o.signal)] == Routed(entry)
  }

  lemma OwnIsProperty<T>(record: seq<(string, T)>, key: string)
    ensures Own(record, key).None? ==> forall k :: 0 <= k < |record| ==> record[k].0 != key
    ensures Own(record, key).Some? ==> exists k :: IsProperty(record, key, k) && record[k].1 == Own(record, key).value
  {
    var k := LastIndex(KeyOf<T>, record, key);
    assert forall j :: 0 <= j < |record| ==> KeyOf(record[j]) == record[j].0;
    if k >= 0 { assert IsProperty(record, key, k); }
  }

  lemma OneProperty<T>(record: seq<(string, T)>, key: string, k: int, k': int)
    requires IsProperty(record, key, k) && IsProperty(record, key, k')
    ensures k == k'
  {}

  /** An observation is routed as the table says of its form, and of its signal where the form is routed by signal. */
  lemma RouteByTable(o: ExpectedObservation, routes: Routes, entry: Entry)
    ensures RouteOf(o, routes) == Some(entry)
            <==> exists k :: IsProperty(routes.byForm, Fields(o)["form"], k) && RoutesTo(routes.byForm[k].1, o, entry)
  {
    var form := FormName(o);
    FieldsAreWritten(o);
    OwnIsProperty(routes.byForm, form);
    if k :| IsProperty(routes.byForm, form, k) && RoutesTo(routes.byForm[k].1, o, entry) {
      var k' :| IsProperty(routes.byForm, form, k') && routes.byForm[k'].1 == Own(routes.byForm, form).value;
      OneProperty(routes.byForm, form, k, k');
    }
  }

  /** Each requested field holds the observation's field it is mapped to, and no other field is requested. */
  ghost predicate FilledFrom(fields: map<string, string>, mapping: Mapping, source: map<string, string>) {
    && (forall pair :: pair in mapping ==> pair.1 in source)
    && (forall key, k :: IsProperty(mapping, key, k) ==> key in fields && fields[key] == source[mapping[k].1])
    && forall key :: key in fields ==> exists k :: IsProperty(mapping, key, k)
  }

  lemma PropertyOneMore<T>(record: seq<(string, T)>, pair: (string, T), key: string, k: int)
    ensures IsProperty(record + [pair], key, k)
            <==> if key == pair.0 then k == |record| else k < |record| && IsProperty(record, key, k)
  {
    var more := record + [pair];
    assert more[|record|] == pair && forall j :: 0 <= j < |record| ==> more[j] == record[j];
  }

  lemma FillOneMore(fields: map<string, string>, mapping: Mapping, source: map<string, string>, pair: (string, string))
    requires FilledFrom(fields, mapping, source) && pair.1 in source
    ensures FilledFrom(fields[pair.0 := source[pair.1]], mapping + [pair], source)
  {
    var more, filled := mapping + [pair], fields[pair.0 := source[pair.1]];
    forall key, k | IsProperty(more, key, k)
      ensures key in filled && filled[key] == source[more[k].1]
    {
      PropertyOneMore(mapping, pair, key, k);
    }
    forall key | key in filled
      ensures exists k :: IsProperty(more, key, k)
    {
      PropertyOneMore(mapping, pair, key, |mapping|);
      if key != pair.0 {
        var k :| IsProperty(mapping, key, k);
        PropertyOneMore(mapping, pair, key, k);
      }
    }
  }

  lemma {:induction false} FillingFills(o: ExpectedObservation, mapping: Mapping)
    requires Fillable(o, mapping)
    ensures FilledFrom(Filled(o, mapping), mapping, Fields(o))
    decreases |mapping|
  {
    if mapping != [] {
      var n := |mapping| - 1;
      FillingFills(o, mapping[..n]);
      FillOneMore(Filled(o, mapping[..n]), mapping[..n], Fields(o), mapping[n]);
      assert mapping == mapping[..n] + [mapping[n]];
    }
  }

  lemma FilledFromIsUnique(fields: map<string, string>, fields': map<string, string>, mapping: Mapping,
                           source: map<string, string>)
    requires FilledFrom(fields, mapping, source) && FilledFrom(fields', mapping, source)
    ensures fields == fields'
  {
    forall key
      ensures key in fields <==> key in fields'
      ensures key in fields ==> fields[key] == fields'[key]
    {}
  }

  /** A request asks the route's tool with the fields its mapping fills, when the observation has them all. */
  lemma RequestByTable(o: ExpectedObservation, routes: Routes, request: Request)
    ensures RequestOf(o, routes) == Some(request)
            <==> exists entry :: RouteOf(o, routes) == Some(entry) && request.tool == entry.tool
                                 && FilledFrom(request.fields, entry.input, Fields(o))
  {
    if RouteOf(o, routes).Some? {
      var entry := RouteOf(o, routes).value;
      if Fillable(o, entry.input) {
        FillingFills(o, entry.input);
        if FilledFrom(request.fields, entry.input, Fields(o)) {
          FilledFromIsUnique(request.fields, Filled(o, entry.input), entry.input, Fields(o));
        }
      }
    }
  }

  // ---- What is wanted, told from the predictions ------------------------------------------------------------------

  /** A prediction's expectations by number: those of its true case, then those of its false case. */
  function Expectation(p: Prediction, j: nat): ExpectedObservation
    requires j < |p.expectedIfTrue| + |p.expectedIfFalse|
  {
    if j < |p.expectedIfTrue| then p.expectedIfTrue[j] else p.expectedIfFalse[j - |p.expectedIfTrue|]
  }

  /** A prediction by its number, and one of its expectations by its own. */
  datatype Place = Place(prediction: nat, number: nat)

  predicate IsPlace(predictions: seq<Prediction>, place: Place) {
    && place.prediction < |predictions|
    && place.number < |predictions[place.prediction].expectedIfTrue| + |predictions[place.prediction].expectedIfFalse|
  }

  /** The prediction is untested and its expectation there has a request. */
  predicate Asks(predictions: seq<Prediction>, routes: Routes, place: Place) {
    && IsPlace(predictions, place) && predictions[place.prediction].status == Untested
    && RequestOf(Expectation(predictions[place.prediction], place.number), routes).Some?
  }

  function AskedAt(predictions: seq<Prediction>, routes: Routes, place: Place): Request
    requires Asks(predictions, routes, place)
  {
    RequestOf(Expectation(predictions[place.prediction], place.number), routes).value
  }

  predicate Earlier(a: Place, b: Place) {
    a.prediction < b.prediction || (a.prediction == b.prediction && a.number < b.number)
  }

  predicate InOrder(places: seq<Place>) {
    forall i, j :: 0 <= i < j < |places| ==> Earlier(places[i], places[j])
  }

  /** The wanted requests are those of the places, one for one. */
  ghost predicate AskedFor(wanted: seq<Wanted>, predictions: seq<Prediction>, routes: Routes, places: seq<Place>) {
    && |wanted| == |places| && InOrder(places)
    && forall k :: 0 <= k < |places| ==>
         && Asks(predictions, routes, places[k])
         && wanted[k] == Wanted(predictions[places[k].prediction].id, AskedAt(predictions, routes, places[k]))
  }

  /** Every place that asks, of the first n predictions and the first m expectations of the next, is listed. */
  ghost predicate ListsAll(predictions: seq<Prediction>, routes: Routes, places: seq<Place>, n: nat, m: nat) {
    forall place :: place in places <==> Asks(predictions, routes, place) && Earlier(place, Place(n, m))
  }

  lemma OnePlaceMore(wanted: seq<Wanted>, predictions: seq<Prediction>, routes: Routes, places: seq<Place>, n: nat,
                     m: nat)
    requires AskedFor(wanted, predictions, routes, places) && ListsAll(predictions, routes, places, n, m)
    requires Asks(predictions, routes, Place(n, m))
    ensures var w := Wanted(predictions[n].id, AskedAt(predictions, routes, Place(n, m)));
            AskedFor(wanted + [w], predictions, routes, places + [Place(n, m)])
  {
    assert forall k :: 0 <= k < |places| ==> places[k] in places;
  }

  lemma ListsOneMore(predictions: seq<Prediction>, routes: Routes, places: seq<Place>, n: nat, m: nat)
    requires ListsAll(predictions, routes, places, n, m) && Asks(predictions, routes, Place(n, m))
    ensures ListsAll(predictions, routes, places + [Place(n, m)], n, m + 1)
  {
    assert forall place :: place in places + [Place(n, m)] <==> place in places || place == Place(n, m);
    assert forall place ::
             Earlier(place, Place(n, m + 1)) <==> Earlier(place, Place(n, m)) || place == Place(n, m);
  }

  lemma NoPlaceMore(predictions: seq<Prediction>, routes: Routes, places: seq<Place>, n: nat, m: nat)
    requires ListsAll(predictions, routes, places, n, m) && !Asks(predictions, routes, Place(n, m))
    ensures ListsAll(predictions, routes, places, n, m + 1)
  {
    assert forall place ::
             Earlier(place, Place(n, m + 1)) <==> Earlier(place, Place(n, m)) || place == Place(n, m);
  }

  lemma OneExpectationMore(wanted: seq<Wanted>, predictions: seq<Prediction>, routes: Routes, before: seq<Place>,
                           n: nat, m: nat) returns (places: seq<Place>)
    requires AskedFor(wanted, predictions, routes, before) && ListsAll(predictions, routes, before, n, m)
    requires IsPlace(predictions, Place(n, m)) && predictions[n].status.Untested?
    ensures var p, request := predictions[n], RequestOf(Expectation(predictions[n], m), routes);
            AskedFor(if request.None? then wanted else wanted + [Wanted(p.id, request.value)], predictions, routes,
                     places)
    ensures ListsAll(predictions, routes, places, n, m + 1)
  {
    if Asks(predictions, routes, Place(n, m)) {
      OnePlaceMore(wanted, predictions, routes, before, n, m);
      ListsOneMore(predictions, routes, before, n, m);
      places := before + [Place(n, m)];
    } else {
      NoPlaceMore(predictions, routes, before, n, m);
      places := before;
    }
  }

  /** What is wanted after the first m expectations of a prediction, before which this was. */
  function WantedSoFar(before: seq<Wanted>, p: Prediction, routes: Routes, m: nat): seq<Wanted>
    requires m <= |p.expectedIfTrue| + |p.expectedIfFalse|
  {
    before + WantedFor(p.id, (p.expectedIfTrue + p.expectedIfFalse)[..m], routes)
  }

  lemma NothingWantedYet(before: seq<Wanted>, p: Prediction, routes: Routes)
    ensures WantedSoFar(before, p, routes, 0) == before
  {}

  lemma WantedOneMore(before: seq<Wanted>, p: Prediction, routes: Routes, m: nat)
    requires m < |p.expectedIfTrue| + |p.expectedIfFalse|
    ensures var request := RequestOf(Expectation(p, m), routes);
            WantedSoFar(before, p, routes, m + 1)
            == if request.None? then WantedSoFar(before, p, routes, m)
               else WantedSoFar(before, p, routes, m) + [Wanted(p.id, request.value)]
  {
    assert (p.expectedIfTrue + p.expectedIfFalse)[m] == Expectation(p, m);
    WantedForSnoc(p.id, p.expectedIfTrue + p.expectedIfFalse, routes, m, before);
  }

  lemma NextExpectation(predictions: seq<Prediction>, routes: Routes, n: nat, m: nat, wanted: seq<Wanted>,
                        before: seq<Place>) returns (places: seq<Place>)
    requires IsPlace(predictions, Place(n, m)) && predictions[n].status.Untested?
    requires AskedFor(WantedSoFar(wanted, predictions[n], routes, m), predictions, routes, before)
    requires ListsAll(predictions, routes, before, n, m)
    ensures AskedFor(WantedSoFar(wanted, predictions[n], routes, m + 1), predictions, routes, places)
    ensures ListsAll(predictions, routes, places, n, m + 1)
  {
    WantedOneMore(wanted, predictions[n], routes, m);
    places := OneExpectationMore(WantedSoFar(wanted, predictions[n], routes, m), predictions, routes, before, n, m);
  }

  lemma {:induction false} WantedForAsks(predictions: seq<Prediction>, routes: Routes, n: nat, m: nat,
                                         wanted: seq<Wanted>, before: seq<Place>) returns (places: seq<Place>)
    requires n < |predictions| && predictions[n].status.Untested?
    requires m <= |predictions[n].expectedIfTrue| + |predictions[n].expectedIfFalse|
    requires AskedFor(wanted, predictions, routes, before) && ListsAll(predictions, routes, before, n, 0)
    ensures AskedFor(WantedSoFar(wanted, predictions[n], routes, m), predictions, routes, places)
    ensures ListsAll(predictions, routes, places, n, m)
    decreases m
  {
    if m == 0 {
      places := before;
      NothingWantedYet(wanted, predictions[n], routes);
    } else {
      places := WantedForAsks(predictions, routes, n, m - 1, wanted, before);
      places := NextExpectation(predictions, routes, n, m - 1, wanted, places);
    }
  }

  lemma NextPrediction(predictions: seq<Prediction>, routes: Routes, places: seq<Place>, n: nat, m: nat)
    requires n < |predictions| && ListsAll(predictions, routes, places, n, m)
    requires predictions[n].status != Untested
             || m == |predictions[n].expectedIfTrue| + |predictions[n].expectedIfFalse|
    ensures ListsAll(predictions, routes, places, n + 1, 0)
  {
    assert forall place: Place :: Asks(predictions, routes, place) ==>
             (Earlier(place, Place(n + 1, 0)) <==> Earlier(place, Place(n, m)));
  }

  lemma {:induction false} WantedUpTo(predictions: seq<Prediction>, routes: Routes, n: nat) returns (places: seq<Place>)
    requires n <= |predictions|
    ensures AskedFor(AllWanted(predictions[..n], routes), predictions, routes, places)
    ensures ListsAll(predictions, routes, places, n, 0)
    decreases n
  {
    places := [];
    if n > 0 {
      var p := predictions[n - 1];
      var m := if p.status.Untested? then |p.expectedIfTrue| + |p.expectedIfFalse| else 0;
      places := WantedUpTo(predictions, routes, n - 1);
      assert predictions[..n][..n - 1] == predictions[..n - 1];
      if p.status.Untested? {
        places := WantedForAsks(predictions, routes, n - 1, m, AllWanted(predictions[..n - 1], routes), places);
        assert (p.expectedIfTrue + p.expectedIfFalse)[..m] == p.expectedIfTrue + p.expectedIfFalse;
      }
      NextPrediction(predictions, routes, places, n - 1, m);
    }
  }

  /**
    What is wanted, and in which order: the requests of the expectations of untested predictions, prediction by
    prediction, the true case before the false case, and each case in its own order.
   */
  lemma WantedInOrder(predictions: seq<Prediction>, routes: Routes) returns (places: seq<Place>)
    ensures AskedFor(AllWanted(predictions, routes), predictions, routes, places)
    ensures forall place :: place in places <==> Asks(predictions, routes, place)
  {
    places := WantedUpTo(predictions, routes, |predictions|);
    assert predictions[..|predictions|] == predictions;
  }

  /** A request is wanted for a prediction if and only if the prediction is untested and expects what asks for it. */
  lemma WantedByExpectation(predictions: seq<Prediction>, routes: Routes, w: Wanted)
    ensures w in AllWanted(predictions, routes) <==>
              exists p, o :: p in predictions && p.status == Untested && p.id == w.predictionId
                             && (o in p.expectedIfTrue || o in p.expectedIfFalse)
                             && RequestOf(o, routes) == Some(w.request)
  {
    var places := WantedInOrder(predictions, routes);
    var wanted := AllWanted(predictions, routes);
    if w in wanted {
      var k :| 0 <= k < |wanted| && wanted[k] == w;
      var p, o := AskedBy(predictions, routes, places[k]);
    }
    if p, o :| p in predictions && p.status == Untested && p.id == w.predictionId
               && (o in p.expectedIfTrue || o in p.expectedIfFalse) && RequestOf(o, routes) == Some(w.request)
    {
      var i :| 0 <= i < |predictions| && predictions[i] == p;
      var j := ExpectationNumber(p, o);
      assert Asks(predictions, routes, Place(i, j)) && Place(i, j) in places;
      var k :| 0 <= k < |places| && places[k] == Place(i, j);
      assert wanted[k] == w;
    }
  }

  lemma AskedBy(predictions: seq<Prediction>, routes: Routes, place: Place)
    returns (p: Prediction, o: ExpectedObservation)
    requires Asks(predictions, routes, place)
    ensures p in predictions && p.status == Untested && p.id == predictions[place.prediction].id
    ensures o in p.expectedIfTrue || o in p.expectedIfFalse
    ensures RequestOf(o, routes) == Some(AskedAt(predictions, routes, place))
  {
    p := predictions[place.prediction];
    o := Expectation(p, place.number);
  }

  lemma ExpectationNumber(p: Prediction, o: ExpectedObservation) returns (j: nat)
    requires o in p.expectedIfTrue || o in p.expectedIfFalse
    ensures j < |p.expectedIfTrue| + |p.expectedIfFalse| && Expectation(p, j) == o
  {
    if o in p.expectedIfTrue {
      j :| 0 <= j < |p.expectedIfTrue| && p.expectedIfTrue[j] == o;
    } else {
      var k :| 0 <= k < |p.expectedIfFalse| && p.expectedIfFalse[k] == o;
      j := |p.expectedIfTrue| + k;
    }
  }

  // ---- What a plan promises ---------------------------------------------------------------------------------------

  predicate Increasing(picks: seq<nat>) {
    forall i, j :: 0 <= i < j < |picks| ==> picks[i] < picks[j]
  }

  lemma NewInPrefix(wanted: seq<Wanted>, claimed: set<Identity>, n: nat, i: nat)
    requires i < n <= |wanted|
    ensures IsNew(wanted[..n], claimed, i) <==> IsNew(wanted, claimed, i)
  {
    assert forall j :: 0 <= j <= i ==> wanted[..n][j] == wanted[j];
  }

  /** Below n, the picks are exactly the places where a request is new. */
  ghost predicate PicksNew(wanted: seq<Wanted>, claimed: set<Identity>, picks: seq<nat>, n: nat)
    requires n <= |wanted|
  {
    && Increasing(picks) && (forall k :: 0 <= k < |picks| ==> picks[k] < n)
    && forall i: nat :: i < n ==> (i in picks <==> IsNew(wanted, claimed, i))
  }

  ghost predicate TakenAt(taken: seq<Wanted>, wanted: seq<Wanted>, picks: seq<nat>) {
    |taken| == |picks| && forall k :: 0 <= k < |taken| ==> picks[k] < |wanted| && taken[k] == wanted[picks[k]]
  }

  lemma PickOneMore(wanted: seq<Wanted>, claimed: set<Identity>, picks: seq<nat>, n: nat)
    requires n < |wanted| && PicksNew(wanted, claimed, picks, n)
    ensures PicksNew(wanted, claimed, if IsNew(wanted, claimed, n) then picks + [n] else picks, n + 1)
  {
    assert forall i: nat :: i in picks + [n] <==> i in picks || i == n;
  }

  /**
    The plan is the first occurrences, in order, of the wanted requests no existing test carries: picks are their
    places.
   */
  lemma {:induction false} NewOnesAreFirstOccurrences(wanted: seq<Wanted>, claimed: set<Identity>, n: nat)
    returns (picks: seq<nat>)
    requires n <= |wanted|
    ensures PicksNew(wanted, claimed, picks, n) && TakenAt(NewOnes(wanted[..n], claimed), wanted, picks)
  {
    picks := [];
    if n > 0 {
      var before := NewOnesAreFirstOccurrences(wanted, claimed, n - 1);
      PickOneMore(wanted, claimed, before, n - 1);
      NewOnesOneMore(wanted, claimed, n - 1);
      picks := if IsNew(wanted, claimed, n - 1) then before + [n - 1] else before;
      TakenOneMore(NewOnes(wanted[..n - 1], claimed), wanted, before, n - 1);
    }
  }

  lemma TakenOneMore(taken: seq<Wanted>, wanted: seq<Wanted>, picks: seq<nat>, n: nat)
    requires TakenAt(taken, wanted, picks) && n < |wanted|
    ensures TakenAt(taken + [wanted[n]], wanted, picks + [n])
    ensures TakenAt(taken + [], wanted, picks)
  {
    assert taken + [] == taken;
  }

  lemma NewOnesOneMore(wanted: seq<Wanted>, claimed: set<Identity>, n: nat)
    requires n < |wanted|
    ensures NewOnes(wanted[..n + 1], claimed)
            == NewOnes(wanted[..n], claimed) + if IsNew(wanted, claimed, n) then [wanted[n]] else []
  {
    NewInPrefix(wanted, claimed, n + 1, n);
    assert wanted[..n + 1][..n] == wanted[..n];
  }

  /** No request is planned twice, and none that a test already carries. */
  lemma PlanNeverRepeats(predictions: seq<Prediction>, tests: seq<Test>, routes: Routes)
    ensures var plan := Plan(predictions, tests, routes);
            && Distinct(Ids(TestId, plan))
            && forall t :: t in plan ==> Identity(t.tool, t.input) !in Claimed(tests)
  {
    var wanted, claimed := AllWanted(predictions, routes), Claimed(tests);
    var picks := NewOnesAreFirstOccurrences(wanted, claimed, |wanted|);
    assert wanted[..|wanted|] == wanted;
    forall i, j | 0 <= i < j < |picks|
      ensures wanted[picks[i]].request != wanted[picks[j]].request
    {
      assert picks[j] in picks;
    }
    forall t | t in Plan(predictions, tests, routes)
      ensures Identity(t.tool, t.input) !in claimed
    {
      var k :| 0 <= k < |picks| && Plan(predictions, tests, routes)[k] == t;
      assert picks[k] in picks;
    }
  }

  lemma {:induction false} FirstPlace(wanted: seq<Wanted>, claimed: set<Identity>, i: nat) returns (first: nat)
    requires i < |wanted| && IdentityOf(wanted[i].request) !in claimed
    ensures first <= i && wanted[first].request == wanted[i].request && IsNew(wanted, claimed, first)
  {
    if IsNew(wanted, claimed, i) {
      first := i;
    } else {
      var j :| 0 <= j < i && wanted[j].request == wanted[i].request;
      first := FirstPlace(wanted, claimed, j);
    }
  }

  /** After merging the plan, some test carries every wanted request. */
  lemma WantedIsCovered(predictions: seq<Prediction>, tests: seq<Test>, routes: Routes, w: Wanted)
    requires w in AllWanted(predictions, routes)
    ensures IdentityOf(w.request) in Claimed(tests + Plan(predictions, tests, routes))
  {
    var wanted, claimed := AllWanted(predictions, routes), Claimed(tests);
    var plan := Plan(predictions, tests, routes);
    if IdentityOf(w.request) in claimed {
      var t :| t in tests && Identity(t.tool, t.input) == IdentityOf(w.request);
      assert t in tests + plan;
    } else {
      var i :| 0 <= i < |wanted| && wanted[i] == w;
      var first := FirstPlace(wanted, claimed, i);
      var picks := NewOnesAreFirstOccurrences(wanted, claimed, |wanted|);
      assert wanted[..|wanted|] == wanted;
      assert first in picks;
      var k :| 0 <= k < |picks| && picks[k] == first;
      assert plan[k] in tests + plan && Identity(plan[k].tool, plan[k].input) == IdentityOf(w.request);
    }
  }

  /**
    After merging the plan, some test carries the request of every expectation of every untested prediction, of its true
    case and of its false case alike.
   */
  lemma PlanCovers(predictions: seq<Prediction>, tests: seq<Test>, routes: Routes, p: Prediction,
                   o: ExpectedObservation)
    requires p in predictions && p.status == Untested && (o in p.expectedIfTrue || o in p.expectedIfFalse)
    requires RequestOf(o, routes).Some?
    ensures exists t :: t in tests + Plan(predictions, tests, routes)
                        && t.tool == RequestOf(o, routes).value.tool
                        && t.input == Record(RequestOf(o, routes).value.fields)
  {
    var w := Wanted(p.id, RequestOf(o, routes).value);
    WantedByExpectation(predictions, routes, w);
    WantedIsCovered(predictions, tests, routes, w);
  }

  /** A test carries this request. */
  predicate Carried(tests: seq<Test>, request: Request) {
    exists t :: t in tests && t.tool == request.tool && t.input == Record(request.fields)
  }

  /** The place asks for what no test carries and no earlier place has asked for. */
  ghost predicate AsksFirst(predictions: seq<Prediction>, tests: seq<Test>, routes: Routes, place: Place) {
    && Asks(predictions, routes, place) && !Carried(tests, AskedAt(predictions, routes, place))
    && forall other :: Asks(predictions, routes, other) && Earlier(other, place) ==>
         AskedAt(predictions, routes, other) != AskedAt(predictions, routes, place)
  }

  /** The test a place gives: cheap, planned, of the prediction and the request there, its id the request's digest. */
  predicate TestOfPlace(predictions: seq<Prediction>, routes: Routes, place: Place, t: Test) {
    && Asks(predictions, routes, place)
    && t.predictionId == predictions[place.prediction].id
    && t.tool == AskedAt(predictions, routes, place).tool
    && t.input == Record(AskedAt(predictions, routes, place).fields)
    && t.id == TestOf(t.tool, t.input.fields, routes.version) && t.cost == Cheap && t.status == Planned
  }

  lemma ClaimedIsCarried(tests: seq<Test>, request: Request)
    ensures IdentityOf(request) in Claimed(tests) <==> Carried(tests, request)
  {}

  /** The requests wanted before the k-th are those of the earlier places. */
  lemma EarlierWanted(wanted: seq<Wanted>, predictions: seq<Prediction>, routes: Routes, places: seq<Place>, k: nat,
                      j: nat)
    requires AskedFor(wanted, predictions, routes, places) && j < k < |places|
    ensures Asks(predictions, routes, places[j]) && Earlier(places[j], places[k])
    ensures AskedAt(predictions, routes, places[j]) == wanted[j].request
  {}

  lemma EarlierPlace(places: seq<Place>, k: nat, other: Place) returns (j: nat)
    requires InOrder(places) && k < |places| && other in places && Earlier(other, places[k])
    ensures j < k && places[j] == other
  {
    j :| 0 <= j < |places| && places[j] == other;
    assert forall i :: 0 <= k < i < |places| ==> Earlier(places[k], places[i]);
  }

  lemma NewIsFirst(predictions: seq<Prediction>, tests: seq<Test>, routes: Routes, places: seq<Place>, k: nat)
    requires AskedFor(AllWanted(predictions, routes), predictions, routes, places) && k < |places|
    requires forall place :: place in places <==> Asks(predictions, routes, place)
    ensures IsNew(AllWanted(predictions, routes), Claimed(tests), k)
            <==> AsksFirst(predictions, tests, routes, places[k])
  {
    var wanted := AllWanted(predictions, routes);
    ClaimedIsCarried(tests, wanted[k].request);
    forall other | Asks(predictions, routes, other) && Earlier(other, places[k])
      ensures exists j :: 0 <= j < k && wanted[j].request == AskedAt(predictions, routes, other)
    {
      var j := EarlierPlace(places, k, other);
      EarlierWanted(wanted, predictions, routes, places, k, j);
    }
    forall j | 0 <= j < k { EarlierWanted(wanted, predictions, routes, places, k, j); }
  }

  /** The picked places, in order: every place that asks first, and no other. */
  lemma PickedPlaces(predictions: seq<Prediction>, tests: seq<Test>, routes: Routes, all: seq<Place>, picks: seq<nat>)
    returns (places: seq<Place>)
    requires AskedFor(AllWanted(predictions, routes), predictions, routes, all)
    requires forall place :: place in all <==> Asks(predictions, routes, place)
    requires PicksNew(AllWanted(predictions, routes), Claimed(tests), picks, |all|)
    ensures |places| == |picks| && forall k :: 0 <= k < |picks| ==> places[k] == all[picks[k]]
    ensures InOrder(places) && forall place :: place in places <==> AsksFirst(predictions, tests, routes, place)
  {
    places := seq(|picks|, k requires 0 <= k < |picks| => all[picks[k]]);
    forall k | 0 <= k < |picks|
      ensures AsksFirst(predictions, tests, routes, places[k])
    {
      assert picks[k] in picks;
      NewIsFirst(predictions, tests, routes, all, picks[k]);
    }
    forall place | AsksFirst(predictions, tests, routes, place)
      ensures place in places
    {
      assert place in all;
      var i :| 0 <= i < |all| && all[i] == place;
      NewIsFirst(predictions, tests, routes, all, i);
      assert i in picks;
      var k :| 0 <= k < |picks| && picks[k] == i;
      assert places[k] == place;
    }
  }

  /**
    The plan, told from the predictions: one test for each place that asks first, in the order of the places, and
    nothing else.
   */
  lemma PlanByPlaces(predictions: seq<Prediction>, tests: seq<Test>, routes: Routes) returns (places: seq<Place>)
    ensures var plan := Plan(predictions, tests, routes);
            |plan| == |places| && forall k :: 0 <= k < |plan| ==> TestOfPlace(predictions, routes, places[k], plan[k])
    ensures InOrder(places)
    ensures forall place :: place in places <==> AsksFirst(predictions, tests, routes, place)
  {
    var wanted, plan := AllWanted(predictions, routes), Plan(predictions, tests, routes);
    var all := WantedInOrder(predictions, routes);
    var picks := NewOnesAreFirstOccurrences(wanted, Claimed(tests), |wanted|);
    assert wanted[..|wanted|] == wanted;
    places := PickedPlaces(predictions, tests, routes, all, picks);
    forall k | 0 <= k < |plan|
      ensures TestOfPlace(predictions, routes, places[k], plan[k])
    {
      assert plan[k] == TestFor(wanted[picks[k]], routes.version) && places[k] == all[picks[k]];
    }
  }

  /** A test whose id is the digest of a request carries that request: ids do not collide. */
  predicate IdFitsRequest(t: Test) {
    t.id.TestOf? ==> t.tool == t.id.tool && t.input == Record(t.id.request)
  }

  lemma PlanIsAppended(predictions: seq<Prediction>, tests: seq<Test>, routes: Routes)
    requires forall t :: t in tests ==> IdFitsRequest(t)
    ensures Upsert(TestId, tests, Plan(predictions, tests, routes)) == tests + Plan(predictions, tests, routes)
  {
    var plan := Plan(predictions, tests, routes);
    PlanNeverRepeats(predictions, tests, routes);
    assert forall i :: 0 <= i < |tests| ==> tests[i] in tests && IdFitsRequest(tests[i]);
    forall t | t in plan
      ensures LastIndex(TestId, tests, t.id) == -1
    {
      assert t.id.TestOf? && t.tool == t.id.tool && t.input == Record(t.id.request);
    }
    UpsertAppends(TestId, tests, plan);
  }

  lemma {:induction false} NothingNew(wanted: seq<Wanted>, claimed: set<Identity>)
    requires forall w :: w in wanted ==> IdentityOf(w.request) in claimed
    ensures NewOnes(wanted, claimed) == []
  {
    if wanted != [] { NothingNew(wanted[..|wanted| - 1], claimed); }
  }

  /** Planning again over the merged tests plans nothing, and the merged tests keep the form this relies on. */
  lemma ReplanningIsNothing(predictions: seq<Prediction>, tests: seq<Test>, routes: Routes)
    requires forall t :: t in tests ==> IdFitsRequest(t)
    ensures var merged := Upsert(TestId, tests, Plan(predictions, tests, routes));
            && Plan(predictions, merged, routes) == []
            && forall t :: t in merged ==> IdFitsRequest(t)
  {
    var plan := Plan(predictions, tests, routes);
    PlanIsAppended(predictions, tests, routes);
    forall w | w in AllWanted(predictions, routes)
      ensures IdentityOf(w.request) in Claimed(tests + plan)
    {
      WantedIsCovered(predictions, tests, routes, w);
    }
    NothingNew(AllWanted(predictions, routes), Claimed(tests + plan));
  }
}
