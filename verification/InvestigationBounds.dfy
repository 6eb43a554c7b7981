/**
  How long one invocation of the investigation graph can run and how often it can execute a model role: a termination
  measure, an exact bound, and the published per-run ceiling of packages/evals/src/live-model-lane.ts.
 */
module InvestigationBounds {
  import opened Wrappers
  import opened Reducers
  import opened ControlOwnership
  import opened Investigation
  import opened InvestigationSafety

  /** One call of execute: whatever nodes do and wherever the process dies, but no second call. */
  ghost predicate OneInvocation(events: seq<Event>) {
    forall i :: 0 <= i < |events| ==> !events[i].Resumed? && !events[i].Continued?
  }

  /** The loop-backs the two budgets still allow: none once the model calls are spent. */
  function Loops(o: Owned): nat {
    if o.llmCallsUsed >= o.llmCallBudget then 0 else Max(0, o.maxIterations - o.iterationsUsed)
  }

  function Rounds(o: Owned): nat {
    var left, reserve := Max(0, MAX_CHALLENGE_ROUNDS - o.challengeRounds), Max(0, o.reservedChallengeBudget);
    if left < reserve then left else reserve
  }

  // ---- Termination ------------------------------------------------------------------------------------------------

  /** An upper bound on the state changes still possible before the invocation ends. */
  function Measure(s: State): nat {
    if s.mode != Running then 0 else
    var o := s.control.own;
    var check := 3 + 6 * Loops(o) + 6 * Rounds(o);
    var plan := 8 + 6 * Max(0, Loops(o) - 1) + 6 * Rounds(o);
    match s.pc
    case NormalizeIncident => plan + 4
    case CollectBaseline => plan + 3
    case GenerateHypotheses => plan + 2
    case DerivePredictions => plan + 1
    case PlanInvestigation => plan
    case ExecuteInvestigation => check + 4
    case EvaluatePredictions => check + 3
    case InterpretResidualEvidence => check + 2
    case DeriveHypothesisState => check + 1
    case TerminationCheck => check
    case ChallengeHypothesis(_) => check - 1
    case ProposeConclusion => 2
    case ReviewConclusion => 1
    case Ended => 0
  }

  /** t is s, or nearer to the end of the invocation. */
  predicate Nearer(s: State, t: State) {
    t == s || Measure(t) < Measure(s)
  }

  lemma NodeDecreases(s: State, ret: NodeReturn)
    requires s.mode == Running && IsWrapped(s.pc)
    ensures Nearer(s, NodeStep(s, ret))
  {
    NodeAccounts(s, ret);
  }

  lemma CheckDecreases(s: State, decision: Decision)
    requires s.mode == Running && s.pc == TerminationCheck
    ensures Nearer(s, CheckStep(s, decision))
  {
    CheckAccounts(s, decision);
  }

  lemma ChallengeDecreases(s: State, reply: ChallengeReply, derived: InlineReturn, planned: InlineReturn)
    requires ControlInvariant(s) && s.mode == Running && s.pc.ChallengeHypothesis?
    ensures Nearer(s, ChallengeStep(s, reply, derived, planned))
  {
    ChallengeAccounts(s, reply, derived, planned);
  }

  lemma StoppingDecreases(s: State, mode: Mode)
    requires s.mode == Running && s.pc != Ended && mode != Running
    ensures Nearer(s, s.(mode := mode))
  {}

  lemma StepDecreases(s: State, e: Event)
    requires ControlInvariant(s) && !e.Resumed? && !e.Continued?
    ensures Nearer(s, Next(s, e))
  {
    if s.mode == Running {
      StoppingDecreases(s, Stopped);
      match e {
        case NodeRan(ret) => if IsWrapped(s.pc) { NodeDecreases(s, ret); }
        case Decided(decision) => if s.pc == TerminationCheck { CheckDecreases(s, decision); }
        case Challenged(reply, derived, planned) =>
          if s.pc.ChallengeHypothesis? { ChallengeDecreases(s, reply, derived, planned); }
        case Paused(id) => StoppingDecreases(s, Waiting(id));
        case _ =>
      }
    }
  }

  ghost function Changes(s: State, events: seq<Event>): nat
    decreases events
  {
    if events == [] then 0 else
    (if Next(s, events[0]) != s then 1 else 0) + Changes(Next(s, events[0]), events[1..])
  }

  /** Every invocation stops, from every state a thread can be in: only so many of its events can have any effect. */
  lemma {:induction false} InvocationTerminates(s: State, events: seq<Event>)
    requires ControlInvariant(s) && OneInvocation(events)
    ensures Changes(s, events) <= Measure(s)
    decreases events
  {
    if events != [] {
      StepDecreases(s, events[0]);
      StepKeepsControlInvariant(s, events[0]);
      InvocationTerminates(Next(s, events[0]), events[1..]);
    }
  }

  /** A running thread is never stuck: the task it has pending always has an event that moves it. */
  lemma RunningIsNotStuck(s: State)
    requires ControlInvariant(s) && s.mode == Running
    ensures exists e: Event :: !e.Resumed? && !e.Continued? && !e.Killed? && Next(s, e) != s
  {
    var e := match s.pc
      case TerminationCheck => CheckThrew
      case ChallengeHypothesis(_) => ChallengeThrew
      case ReviewConclusion => Paused("")
      case _ => NodeRan(Throws);
    assert Next(s, e).mode != Running;
  }

  // ---- Role executions --------------------------------------------------------------------------------------------

  /** The four nodes that call a model. */
  predicate IsRole(pc: Pc) {
    pc == GenerateHypotheses || pc == InterpretResidualEvidence || pc.ChallengeHypothesis? || pc == ProposeConclusion
  }

  /**
    The event is an execution of the pending role: the graph's guards let it be called. A process that dies while a role
    is pending may have called it, and is counted as if it had.
   */
  ghost predicate ExecutesRole(s: State, e: Event) {
    && s.mode == Running && IsRole(s.pc)
    && if s.pc.ChallengeHypothesis? then
         (e.Challenged? || e.ChallengeThrew? || e.Killed?)
         && ChallengeCountersOk(s.control.own) && KnowsHypothesis(s, s.pc.target)
       else (e.NodeRan? || e.Killed?) && GuardsPass(s.control)
  }

  ghost function RoleRuns(s: State, events: seq<Event>): nat
    decreases events
  {
    if events == [] then 0 else
    (if ExecutesRole(s, events[0]) then 1 else 0) + RoleRuns(Next(s, events[0]), events[1..])
  }

  function RolePotential(s: State): nat {
    if s.mode != Running then 0 else
    var o := s.control.own;
    var check := Loops(o) + 2 * Rounds(o) + 1;
    var plan := 1 + Max(0, Loops(o) - 1) + 2 * Rounds(o) + 1;
    match s.pc
    case NormalizeIncident => plan + 1
    case CollectBaseline => plan + 1
    case GenerateHypotheses => plan + 1
    case DerivePredictions => plan
    case PlanInvestigation => plan
    case ExecuteInvestigation => check + 1
    case EvaluatePredictions => check + 1
    case InterpretResidualEvidence => check + 1
    case DeriveHypothesisState => check
    case TerminationCheck => check
    case ChallengeHypothesis(_) => check
    case ProposeConclusion => 1
    case ReviewConclusion => 0
    case Ended => 0
  }

  lemma NodeSpends(s: State, ret: NodeReturn)
    requires s.mode == Running && IsWrapped(s.pc)
    ensures RolePotential(NodeStep(s, ret)) + (if IsRole(s.pc) then 1 else 0) <= RolePotential(s)
  {
    NodeAccounts(s, ret);
  }

  lemma CheckSpends(s: State, decision: Decision)
    requires s.mode == Running && s.pc == TerminationCheck
    ensures RolePotential(CheckStep(s, decision)) <= RolePotential(s)
  {
    CheckAccounts(s, decision);
  }

  lemma ChallengeSpends(s: State, reply: ChallengeReply, derived: InlineReturn, planned: InlineReturn)
    requires ControlInvariant(s) && s.mode == Running && s.pc.ChallengeHypothesis?
    ensures RolePotential(ChallengeStep(s, reply, derived, planned)) + 1 <= RolePotential(s)
  {
    ChallengeAccounts(s, reply, derived, planned);
  }

  lemma StepSpendsPotential(s: State, e: Event)
    requires ControlInvariant(s) && !e.Resumed? && !e.Continued?
    ensures RolePotential(Next(s, e)) + (if ExecutesRole(s, e) then 1 else 0) <= RolePotential(s)
  {
    if s.mode == Running {
      match e {
        case NodeRan(ret) => if IsWrapped(s.pc) { NodeSpends(s, ret); }
        case Decided(decision) => if s.pc == TerminationCheck { CheckSpends(s, decision); }
        case Challenged(reply, derived, planned) =>
          if s.pc.ChallengeHypothesis? { ChallengeSpends(s, reply, derived, planned); }
        case _ =>
      }
    }
  }

  lemma {:induction false} RoleRunsWithinPotential(s: State, events: seq<Event>)
    requires ControlInvariant(s) && OneInvocation(events)
    ensures RoleRuns(s, events) <= RolePotential(s)
    decreases events
  {
    if events != [] {
      StepSpendsPotential(s, events[0]);
      StepKeepsControlInvariant(s, events[0]);
      RoleRunsWithinPotential(Next(s, events[0]), events[1..]);
    }
  }

  /**
    The bound for a start: one generation, the interpretations the budgets allow, of which one is always made, two
    executions a challenge round, one conclusion. A start past the round cap stops at its first node, and one whose
    iteration counter cannot grow stops after planning.
   */
  function RoleBound(o: Owned): nat {
    if !ChallengeCountersOk(o) then 0
    else if o.iterationsUsed >= MAX_SAFE_INTEGER then 1
    else 1 + Max(1, Loops(o)) + 2 * Rounds(o) + 1
  }

  /** A thread whose challenge counters are past their cap never passes its first node. */
  lemma {:induction false} PastTheCapExecutesNothing(s: State, events: seq<Event>)
    requires OneInvocation(events) && s.pc == NormalizeIncident && !ChallengeCountersOk(s.control.own)
    ensures RoleRuns(s, events) == 0
    decreases events
  {
    if events != [] {
      assert Next(s, events[0]).pc == NormalizeIncident && Next(s, events[0]).control == s.control;
      PastTheCapExecutesNothing(Next(s, events[0]), events[1..]);
    }
  }

  /** The iteration counter has no room left, or has just passed it at the one node that counts. */
  predicate OutOfIterations(s: State) {
    || (BeforePlan(s.pc) && s.control.own.iterationsUsed >= MAX_SAFE_INTEGER)
    || (s.pc == ExecuteInvestigation && s.control.own.iterationsUsed > MAX_SAFE_INTEGER)
  }

  function GenerationLeft(s: State): nat {
    if s.mode == Running && s.pc in {NormalizeIncident, CollectBaseline, GenerateHypotheses} then 1 else 0
  }

  lemma OutOfIterationsStays(s: State, e: Event)
    requires OutOfIterations(s) && !e.Resumed? && !e.Continued?
    ensures OutOfIterations(Next(s, e))
    ensures GenerationLeft(Next(s, e)) + (if ExecutesRole(s, e) then 1 else 0) <= GenerationLeft(s)
  {
    if e.NodeRan? && s.mode == Running && IsWrapped(s.pc) { NodeAccounts(s, e.ret); }
  }

  lemma {:induction false} OutOfIterationsGeneratesOnce(s: State, events: seq<Event>)
    requires OneInvocation(events) && OutOfIterations(s)
    ensures RoleRuns(s, events) <= GenerationLeft(s)
    decreases events
  {
    if events != [] {
      OutOfIterationsStays(s, events[0]);
      OutOfIterationsGeneratesOnce(Next(s, events[0]), events[1..]);
    }
  }

  lemma RoleRunsBounded(control: Control, threadId: Option<string>, hypotheses: seq<Hypothesis>, tests: seq<Test>,
                        events: seq<Event>)
    requires StartAccepted(control, threadId) && OneInvocation(events)
    ensures RoleRuns(Begin(control, threadId, hypotheses, tests), events) <= RoleBound(control.own)
  {
    var s := Begin(control, threadId, hypotheses, tests);
    if !ChallengeCountersOk(control.own) {
      PastTheCapExecutesNothing(s, events);
    } else if control.own.iterationsUsed >= MAX_SAFE_INTEGER {
      OutOfIterationsGeneratesOnce(s, events);
    } else {
      RoleRunsWithinPotential(s, events);
    }
  }
}
