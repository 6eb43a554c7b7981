/**
  The investigation graph of packages/graph/src/investigation.ts as a state machine over one thread.

  Every node, the human and the process are untrusted: an event says what one of them did, and nothing is assumed about
  it. Next is everything the graph decides. A run is any sequence of events; an event that does not fit the state it
  arrives in changes nothing.
 */
module Investigation {
  import opened Wrappers
  import opened Reducers
  import opened ControlOwnership

  const MAX_CHALLENGE_ROUNDS := 2
  const MAX_SAFE_INTEGER := 9007199254740991
  const INCIDENT_STATE_SCHEMA_VERSION := 7
  const STATUS_RULES_VERSION := "v0.2"

  datatype Author = Initial | Challenge
  datatype Hypothesis = Hypothesis(id: string, createdBy: Author, statement: string)
  datatype Test = Test(id: string, tool: string, input: string)

  function HypothesisId(h: Hypothesis): string { h.id }
  function TestId(t: Test): string { t.id }

  datatype Pc =
    | NormalizeIncident
    | CollectBaseline
    | GenerateHypotheses
    | DerivePredictions
    | PlanInvestigation
    | ExecuteInvestigation
    | EvaluatePredictions
    | InterpretResidualEvidence
    | DeriveHypothesisState
    | TerminationCheck
    | ChallengeHypothesis(target: string)
    | ProposeConclusion
    | ReviewConclusion
    | Ended

  /** An invocation is running, has stopped (it ended, threw or its process died), or waits on a review. */
  datatype Mode = Running | Stopped | Waiting(interruptId: string)

  /** pc is the task the checkpoint has pending. */
  datatype State = State(
    pc: Pc, mode: Mode, threadId: Option<string>, control: Control, hypotheses: seq<Hypothesis>, tests: seq<Test>)

  // ---- What nodes, humans and the process do ----------------------------------------------------------------------

  /** A node's own declaredLlmCalls property, read by its descriptor. */
  datatype Declared = Undeclared | Count(value: int) | NotANumber

  datatype NodeReturn =
    | Throws
    | Routing
    | Returns(control: Option<Fields>, declared: Declared, hypotheses: seq<Hypothesis>, tests: seq<Test>)

  datatype Decision =
    | NeedMoreEvidence
    | ChallengeRequired(leaderId: string)
    | Terminal(stopKind: Stop, leader: Option<string>)

  /** What challenge_hypothesis hands back; None marks a part its schema refuses. */
  datatype ChallengeReply =
    | NotARecord
    | Reply(alternative: Option<Hypothesis>, discriminatingTests: seq<Option<Test>>)

  /** A derive_predictions or plan_investigation call inside the challenge round. */
  datatype InlineReturn =
    | InlineThrows
    | InlineRouting
    | NotAnObject
    | NotAnArray
    | Gives(tests: seq<Test>, declared: Declared)

  datatype ReviewDecision = Confirm | Reject | AddHypothesis(hypothesis: Hypothesis)

  datatype Event =
    | NodeRan(ret: NodeReturn)
    | CheckThrew
    | Decided(decision: Decision)
    | ChallengeThrew
    | Challenged(reply: ChallengeReply, derived: InlineReturn, planned: InlineReturn)
    | Paused(interruptId: string)
    | Killed
    | Resumed(interruptId: string, review: ReviewDecision)
    | Continued

  // ---- Guards -----------------------------------------------------------------------------------------------------

  predicate IsCount(n: int) {
    0 <= n <= MAX_SAFE_INTEGER
  }

  predicate VersionOk(c: Control) {
    && NodeField("schemaVersion") in c.rest
    && c.rest[NodeField("schemaVersion")] == Number(INCIDENT_STATE_SCHEMA_VERSION)
    && NodeField("statusRulesVersion") in c.rest
    && c.rest[NodeField("statusRulesVersion")] == Text(STATUS_RULES_VERSION)
  }

  predicate BudgetCountersOk(o: Owned) {
    IsCount(o.maxIterations) && IsCount(o.llmCallBudget) && IsCount(o.iterationsUsed) && IsCount(o.llmCallsUsed)
    && IsCount(o.resumeCount)
  }

  predicate ChallengeCountersOk(o: Owned) {
    IsCount(o.challengeRounds) && o.challengeRounds <= MAX_CHALLENGE_ROUNDS && IsCount(o.reservedChallengeBudget)
  }

  predicate GuardsPass(c: Control) {
    VersionOk(c) && BudgetCountersOk(c.own) && ChallengeCountersOk(c.own)
  }

  predicate IdentityOk(s: State) {
    s.control.own.humanReview ==> s.threadId == Some(s.control.own.runId)
  }

  function DeclaredCalls(d: Declared): Result<nat, ()> {
    match d
    case Undeclared => Ok(0)
    case Count(n) => if IsCount(n) then Ok(n) else Err(())
    case NotANumber => Err(())
  }

  function WithoutStopKind(c: Control): Control {
    c.(own := c.own.(stopKind := None))
  }

  predicate KnowsHypothesis(s: State, id: string) {
    id in Ids(HypothesisId, s.hypotheses)
  }

  // ---- parseChallengeResult ---------------------------------------------------------------------------------------

  datatype Accepted = Accepted(alternative: Hypothesis, discriminatingTests: seq<Test>)

  function Values(tests: seq<Option<Test>>): (values: seq<Test>)
    requires forall i :: 0 <= i < |tests| ==> tests[i].Some?
    ensures |values| == |tests| && forall i :: 0 <= i < |tests| ==> values[i] == tests[i].value
  {
    seq(|tests|, i requires 0 <= i < |tests| => tests[i].value)
  }

  /** The ids are pairwise distinct and none of them is taken. */
  ghost predicate FreshIds(ids: seq<string>, taken: seq<string>) {
    Distinct(ids) && forall i :: 0 <= i < |ids| ==> ids[i] !in taken
  }

  ghost predicate ChallengeAcceptable(reply: ChallengeReply, hypothesisIds: seq<string>, testIds: seq<string>) {
    && reply.Reply?
    && reply.alternative.Some? && reply.alternative.value.createdBy == Challenge
    && reply.alternative.value.id !in hypothesisIds
    && reply.discriminatingTests != []
    && (forall i :: 0 <= i < |reply.discriminatingTests| ==> reply.discriminatingTests[i].Some?)
    && FreshIds(Ids(TestId, Values(reply.discriminatingTests)), testIds)
  }

  /** The fresh alternative and the fresh, pairwise distinct tests, or a refusal. */
  method ParseChallengeResult(reply: ChallengeReply, hypothesisIds: seq<string>, testIds: seq<string>)
    returns (r: Option<Accepted>)
    ensures r.Some? <==> ChallengeAcceptable(reply, hypothesisIds, testIds)
    ensures r.Some? ==> r.value == Accepted(reply.alternative.value, Values(reply.discriminatingTests))
  {
    if reply.NotARecord? || |reply.discriminatingTests| == 0 { return None; }
    var proposed := reply.discriminatingTests;
    if reply.alternative.None? || reply.alternative.value.createdBy != Challenge { return None; }
    for i := 0 to |proposed|
      invariant forall j :: 0 <= j < i ==> proposed[j].Some?
    {
      if proposed[i].None? { return None; }
    }
    var alternative := reply.alternative.value;
    if alternative.id in hypothesisIds { return None; }
    var allNew := TestsAreFresh(Values(proposed), testIds);
    if !allNew { return None; }
    return Some(Accepted(alternative, Values(proposed)));
  }

  /** The loop with the set of ids already seen, which starts from the ids of the run's tests. */
  method TestsAreFresh(tests: seq<Test>, testIds: seq<string>) returns (allNew: bool)
    ensures allNew <==> FreshIds(Ids(TestId, tests), testIds)
  {
    var seenTestIds := set id | id in testIds;
    ghost var ids := Ids(TestId, tests);
    for i := 0 to |tests|
      invariant seenTestIds == (set id | id in testIds) + (set j | 0 <= j < i :: ids[j])
      invariant FreshIds(ids[..i], testIds)
    {
      if tests[i].id in seenTestIds {
        assert ids[i] in testIds || exists j :: 0 <= j < i && ids[j] == ids[i];
        return false;
      }
      seenTestIds := seenTestIds + {tests[i].id};
    }
    assert ids[..|tests|] == ids;
    return true;
  }

  // ---- Routing ----------------------------------------------------------------------------------------------------

  predicate IsWrapped(pc: Pc) {
    !pc.TerminationCheck? && !pc.ChallengeHypothesis? && !pc.ReviewConclusion? && !pc.Ended?
  }

  /** The edge list; the conclusion's edge looks at the control its own node left. */
  function Successor(pc: Pc, humanReview: bool): Pc
    requires IsWrapped(pc)
  {
    match pc
    case NormalizeIncident => CollectBaseline
    case CollectBaseline => GenerateHypotheses
    case GenerateHypotheses => DerivePredictions
    case DerivePredictions => PlanInvestigation
    case PlanInvestigation => ExecuteInvestigation
    case ExecuteInvestigation => EvaluatePredictions
    case EvaluatePredictions => InterpretResidualEvidence
    case InterpretResidualEvidence => DeriveHypothesisState
    case DeriveHypothesisState => TerminationCheck
    case ProposeConclusion => if humanReview then ReviewConclusion else Ended
  }

  function Threw(s: State): State {
    s.(mode := Stopped)
  }

  function Goto(s: State, pc: Pc, control: Control): State {
    s.(pc := pc, control := control, mode := if pc == Ended then Stopped else Running)
  }

  /** A wrapped lifecycle node ran. */
  function NodeStep(s: State, ret: NodeReturn): State
    requires IsWrapped(s.pc)
  {
    if !GuardsPass(s.control) || (s.pc == NormalizeIncident && !IdentityOk(s)) then Threw(s) else
    match ret
    case Throws => Threw(s)
    case Routing => Threw(s)
    case Returns(update, declared, hypotheses, tests) =>
      match DeclaredCalls(declared)
      case Err(_) => Threw(s)
      case Ok(calls) =>
        var control := Preserved(s.control, s.pc == PlanInvestigation, update, calls);
        Goto(s.(hypotheses := Upsert(HypothesisId, s.hypotheses, hypotheses), tests := Upsert(TestId, s.tests, tests)),
             Successor(s.pc, control.own.humanReview), control)
  }

  function Terminate(s: State, stopKind: Stop): State {
    Goto(s, ProposeConclusion, s.control.(own := s.control.own.(stopKind := Some(stopKind))))
  }

  function RouteChallenge(s: State, leader: Option<string>): State {
    var own := s.control.own;
    if !ChallengeCountersOk(own) then Threw(s)
    else if own.challengeRounds >= MAX_CHALLENGE_ROUNDS then Terminate(s, Ambiguous)
    else if own.reservedChallengeBudget <= 0 then Terminate(s, BudgetExhausted)
    else if leader.None? || !KnowsHypothesis(s, leader.value) then Threw(s)
    else Goto(s, ChallengeHypothesis(leader.value), WithoutStopKind(s.control))
  }

  /** terminationCheck. */
  function CheckStep(s: State, decision: Decision): State {
    var own := s.control.own;
    if !GuardsPass(s.control) then Threw(s) else
    match decision
    case Terminal(stopKind, leader) =>
      if stopKind == Sufficient && own.challengeRounds == 0 then RouteChallenge(s, leader) else Terminate(s, stopKind)
    case NeedMoreEvidence =>
      if own.iterationsUsed >= own.maxIterations || own.llmCallsUsed >= own.llmCallBudget then
        Terminate(s, BudgetExhausted)
      else Goto(s, PlanInvestigation, WithoutStopKind(s.control))
    case ChallengeRequired(leaderId) => RouteChallenge(s, Some(leaderId))
  }

  /** The model calls a finished challenge round declared, when the graph accepts both inline results. */
  function InlineCalls(derived: InlineReturn, planned: InlineReturn): Option<nat> {
    if derived.Gives? && planned.Gives? && DeclaredCalls(derived.declared).Ok?
       && DeclaredCalls(planned.declared).Ok?
    then
      Some(DeclaredCalls(derived.declared).value + DeclaredCalls(planned.declared).value)
    else None
  }

  /** challengeHypothesis. */
  ghost function ChallengeStep(s: State, reply: ChallengeReply, derived: InlineReturn, planned: InlineReturn): State
    requires s.pc.ChallengeHypothesis?
  {
    var calls := InlineCalls(derived, planned);
    if !ChallengeCountersOk(s.control.own) || !KnowsHypothesis(s, s.pc.target)
       || !ChallengeAcceptable(reply, Ids(HypothesisId, s.hypotheses), Ids(TestId, s.tests)) || calls.None?
    then Threw(s)
    else
      var own := s.control.own;
      Goto(s.(hypotheses := Upsert(HypothesisId, s.hypotheses, [reply.alternative.value]),
              tests := Upsert(TestId, s.tests, Values(reply.discriminatingTests) + planned.tests)),
           ExecuteInvestigation,
           s.control.(own := own.(stopKind := None,
                                  llmCallsUsed := own.llmCallsUsed + calls.value,
                                  challengeRounds := own.challengeRounds + 1,
                                  reservedChallengeBudget := own.reservedChallengeBudget - 1)))
  }

  /** A resume that answers the review the thread waits on: the checks of execute, then reviewConclusion. */
  function ReviewStep(s: State, decision: ReviewDecision): State
    requires s.pc == ReviewConclusion
  {
    if !GuardsPass(s.control) || !IdentityOk(s) then s else
    var resumed := s.control.(own := s.control.own.(resumeCount := s.control.own.resumeCount + 1));
    match decision
    case Confirm => Goto(s, Ended, resumed)
    case Reject => Goto(s, GenerateHypotheses, WithoutStopKind(resumed))
    case AddHypothesis(hypothesis) =>
      if KnowsHypothesis(s, hypothesis.id) then s
      else Goto(s.(hypotheses := Upsert(HypothesisId, s.hypotheses, [hypothesis])),
                DerivePredictions, WithoutStopKind(resumed))
  }

  ghost function Next(s: State, e: Event): State {
    match e
    case NodeRan(ret) => if s.mode == Running && IsWrapped(s.pc) then NodeStep(s, ret) else s
    case CheckThrew => if s.mode == Running && s.pc == TerminationCheck then Threw(s) else s
    case Decided(decision) => if s.mode == Running && s.pc == TerminationCheck then CheckStep(s, decision) else s
    case ChallengeThrew => if s.mode == Running && s.pc.ChallengeHypothesis? then Threw(s) else s
    case Challenged(reply, derived, planned) =>
      if s.mode == Running && s.pc.ChallengeHypothesis? then ChallengeStep(s, reply, derived, planned) else s
    case Paused(id) =>
      if s.mode == Running && s.pc == ReviewConclusion then
        if GuardsPass(s.control) && IdentityOk(s) then s.(mode := Waiting(id)) else Threw(s)
      else s
    case Killed => if s.mode == Running then Threw(s) else s
    case Resumed(id, decision) =>
      if !VersionOk(s.control) then s
      else if s.mode.Waiting? then
        if s.mode.interruptId == id && s.pc == ReviewConclusion then ReviewStep(s, decision) else s
      else if s.mode == Stopped && s.pc != Ended then s.(mode := Running)
      else s
    case Continued =>
      if VersionOk(s.control) && s.mode == Stopped && s.pc != Ended then s.(mode := Running) else s
  }

  /** execute({ kind: 'start' }): the schema's counters and versions, and the thread an interactive run must name. */
  predicate StartAccepted(control: Control, threadId: Option<string>) {
    && VersionOk(control) && BudgetCountersOk(control.own)
    && IsCount(control.own.challengeRounds) && IsCount(control.own.reservedChallengeBudget)
    && (control.own.humanReview ==> threadId == Some(control.own.runId))
  }

  function Begin(control: Control, threadId: Option<string>, hypotheses: seq<Hypothesis>, tests: seq<Test>): State
    requires StartAccepted(control, threadId)
  {
    State(NormalizeIncident, Running, threadId, control,
          Upsert(HypothesisId, [], hypotheses), Upsert(TestId, [], tests))
  }

  ghost function Run(s: State, events: seq<Event>): State
    decreases events
  {
    if events == [] then s else Run(Next(s, events[0]), events[1..])
  }
}
