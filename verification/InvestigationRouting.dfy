/**
  Where every step of the investigation graph leads, and which stop kind a run ends with.

  The conditions are told from the state, the event and the numbers the source writes down, and name none of the
  functions the state machine computes with.
 */
module InvestigationRouting {
  import opened Wrappers
  import opened Reducers
  import opened ControlOwnership
  import opened Investigation
  import opened InvestigationSafety

  predicate Counter(n: int) {
    0 <= n <= 9007199254740991
  }

  predicate HasVersions(c: Control) {
    && NodeField("schemaVersion") in c.rest && c.rest[NodeField("schemaVersion")] == Number(7)
    && NodeField("statusRulesVersion") in c.rest && c.rest[NodeField("statusRulesVersion")] == Text("v0.2")
  }

  /** The versions this graph reads, every counter a safe integer and at most two challenge rounds. */
  predicate Readable(c: Control) {
    && HasVersions(c)
    && Counter(c.own.maxIterations) && Counter(c.own.llmCallBudget) && Counter(c.own.iterationsUsed)
    && Counter(c.own.llmCallsUsed) && Counter(c.own.resumeCount) && Counter(c.own.reservedChallengeBudget)
    && 0 <= c.own.challengeRounds <= 2
  }

  lemma ReadableGuards(c: Control)
    ensures Readable(c) <==> GuardsPass(c)
  {}

  predicate IsHypothesis(s: State, id: string) {
    exists i :: 0 <= i < |s.hypotheses| && s.hypotheses[i].id == id
  }

  lemma KnownIsHypothesis(s: State, id: string)
    ensures KnowsHypothesis(s, id) <==> IsHypothesis(s, id)
  {
    var ids := Ids(HypothesisId, s.hypotheses);
    if IsHypothesis(s, id) {
      var i :| 0 <= i < |s.hypotheses| && s.hypotheses[i].id == id;
      assert ids[i] == id;
    }
    if KnowsHypothesis(s, id) {
      var i :| 0 <= i < |ids| && ids[i] == id;
      assert s.hypotheses[i].id == id;
    }
  }

  /** An interactive run executes on the thread its control names. */
  predicate OnItsThread(s: State) {
    s.control.own.humanReview ==> s.threadId == Some(s.control.own.runId)
  }

  // ---- The termination check --------------------------------------------------------------------------------------

  /**
    The stop a decision earns from the counters alone, None when the run goes on. A spent budget or reserve stops as
    budget-exhausted and the round cap as ambiguous; sufficient stands only once a challenge has been run.
   */
  function EarnedStop(decision: Decision, own: Owned): Option<Stop> {
    match decision
    case NeedMoreEvidence =>
      if own.iterationsUsed < own.maxIterations && own.llmCallsUsed < own.llmCallBudget then None
      else Some(BudgetExhausted)
    case ChallengeRequired(_) =>
      if own.challengeRounds >= 2 then Some(Ambiguous)
      else if own.reservedChallengeBudget <= 0 then Some(BudgetExhausted)
      else None
    case Terminal(Sufficient, _) =>
      if own.challengeRounds > 0 then Some(Sufficient)
      else if own.reservedChallengeBudget <= 0 then Some(BudgetExhausted)
      else None
    case Terminal(stop, _) => Some(stop)
  }

  /** The hypothesis a decision would have challenged. */
  function Leader(decision: Decision): Option<string> {
    match decision
    case NeedMoreEvidence => None
    case ChallengeRequired(id) => Some(id)
    case Terminal(_, leader) => leader
  }

  /** A readable thread is at its check, and this is what the check decided. */
  predicate Checks(s: State, e: Event) {
    s.mode == Running && s.pc == TerminationCheck && e.Decided? && Readable(s.control)
  }

  function WithStop(s: State, pc: Pc, stop: Option<Stop>): State {
    s.(pc := pc, control := s.control.(own := s.control.own.(stopKind := stop)))
  }

  /** A thread moves to its conclusion exactly when a check earned it a stop, and takes that stop along. */
  lemma ConcludesAsEarned(s: State, e: Event)
    ensures s.pc != ProposeConclusion && Next(s, e).pc == ProposeConclusion
            <==> Checks(s, e) && EarnedStop(e.decision, s.control.own).Some?
    ensures Checks(s, e) && EarnedStop(e.decision, s.control.own).Some? ==>
              Next(s, e) == WithStop(s, ProposeConclusion, EarnedStop(e.decision, s.control.own))
  {
    ReadableGuards(s.control);
  }

  /** The check sends a thread to plan again exactly when it asks for evidence within both budgets. */
  lemma PlansAgain(s: State, e: Event)
    ensures s.pc == TerminationCheck && Next(s, e).pc == PlanInvestigation
            <==> Checks(s, e) && e.decision.NeedMoreEvidence?
                 && s.control.own.iterationsUsed < s.control.own.maxIterations
                 && s.control.own.llmCallsUsed < s.control.own.llmCallBudget
    ensures s.pc == TerminationCheck && Next(s, e).pc == PlanInvestigation ==>
              Next(s, e) == WithStop(s, PlanInvestigation, None)
  {
    ReadableGuards(s.control);
  }

  /** The check challenges a hypothesis exactly when a challenge is called for, affordable and of one the run has. */
  lemma ChallengesTarget(s: State, e: Event, target: string)
    ensures s.pc == TerminationCheck && Next(s, e).pc == ChallengeHypothesis(target)
            <==> Checks(s, e) && !e.decision.NeedMoreEvidence? && EarnedStop(e.decision, s.control.own).None?
                 && Leader(e.decision) == Some(target) && IsHypothesis(s, target)
    ensures s.pc == TerminationCheck && Next(s, e).pc == ChallengeHypothesis(target) ==>
              Next(s, e) == WithStop(s, ChallengeHypothesis(target), None)
  {
    ReadableGuards(s.control);
    if e.Decided? && Leader(e.decision).Some? { KnownIsHypothesis(s, Leader(e.decision).value); }
  }

  /** Those three ways are all there are; any other step leaves the thread at its check, as it was. */
  lemma CheckLeadsNowhereElse(s: State, e: Event)
    requires s.pc == TerminationCheck
    ensures Next(s, e).pc in {TerminationCheck, ProposeConclusion, PlanInvestigation}
            || Next(s, e).pc.ChallengeHypothesis?
    ensures Next(s, e).pc == TerminationCheck ==> Next(s, e) == s.(mode := Next(s, e).mode)
  {}

  // ---- Lifecycle nodes --------------------------------------------------------------------------------------------

  predicate Follows(from: Pc, to: Pc, humanReview: bool) {
    || (from == NormalizeIncident && to == CollectBaseline)
    || (from == CollectBaseline && to == GenerateHypotheses)
    || (from == GenerateHypotheses && to == DerivePredictions)
    || (from == DerivePredictions && to == PlanInvestigation)
    || (from == PlanInvestigation && to == ExecuteInvestigation)
    || (from == ExecuteInvestigation && to == EvaluatePredictions)
    || (from == EvaluatePredictions && to == InterpretResidualEvidence)
    || (from == InterpretResidualEvidence && to == DeriveHypothesisState)
    || (from == DeriveHypothesisState && to == TerminationCheck)
    || (from == ProposeConclusion && humanReview && to == ReviewConclusion)
    || (from == ProposeConclusion && !humanReview && to == Ended)
  }

  predicate IsLifecycle(pc: Pc) {
    pc in {NormalizeIncident, CollectBaseline, GenerateHypotheses, DerivePredictions, PlanInvestigation,
           ExecuteInvestigation, EvaluatePredictions, InterpretResidualEvidence, DeriveHypothesisState,
           ProposeConclusion}
  }

  predicate Declares(declared: Declared, calls: nat) {
    (declared.Undeclared? && calls == 0) || (declared == Count(calls) && Counter(calls))
  }

  lemma DeclaresCalls(declared: Declared, calls: nat)
    ensures Declares(declared, calls) <==> DeclaredCalls(declared) == Ok(calls)
  {}

  /** A node's answer moves the thread on: what it returned is merged and its declared calls are counted. */
  ghost predicate NodeAnswers(s: State, e: Event, calls: nat) {
    && s.mode == Running && IsLifecycle(s.pc) && e.NodeRan? && e.ret.Returns? && Declares(e.ret.declared, calls)
    && Readable(s.control) && (s.pc == NormalizeIncident ==> OnItsThread(s))
  }

  lemma NodeMoves(s: State, e: Event, calls: nat)
    requires NodeAnswers(s, e, calls)
    ensures var t, own := Next(s, e), s.control.own;
            && Follows(s.pc, t.pc, own.humanReview)
            && t.mode == (if t.pc == Ended then Stopped else Running) && t.threadId == s.threadId
            && t.control.own == own.(llmCallsUsed := own.llmCallsUsed + calls,
                                     iterationsUsed := own.iterationsUsed + if s.pc == PlanInvestigation then 1 else 0)
            && t.hypotheses == Upsert(HypothesisId, s.hypotheses, e.ret.hypotheses)
            && t.tests == Upsert(TestId, s.tests, e.ret.tests)
  {
    ReadableGuards(s.control);
    DeclaresCalls(e.ret.declared, calls);
  }

  /** A step that leaves a lifecycle node is one of those. */
  lemma NodeMovesOnlySo(s: State, e: Event) returns (calls: nat)
    requires IsLifecycle(s.pc) && Next(s, e).pc != s.pc
    ensures NodeAnswers(s, e, calls)
  {
    ReadableGuards(s.control);
    NodeAccounts(s, e.ret);
    calls := DeclaredCalls(e.ret.declared).value;
    DeclaresCalls(e.ret.declared, calls);
  }

  // ---- The challenge ----------------------------------------------------------------------------------------------

  /** Both inline calls gave a list and declared what they cost. */
  predicate InlineGives(derived: InlineReturn, planned: InlineReturn, calls: nat, more: nat) {
    derived.Gives? && planned.Gives? && Declares(derived.declared, calls) && Declares(planned.declared, more)
  }

  /** The challenge answered: a fresh alternative, fresh tests, a target the run has and counters in range. */
  ghost predicate ChallengeAnswers(s: State, e: Event, calls: nat, more: nat) {
    && s.mode == Running && s.pc.ChallengeHypothesis? && e.Challenged?
    && 0 <= s.control.own.challengeRounds <= 2 && Counter(s.control.own.reservedChallengeBudget)
    && IsHypothesis(s, s.pc.target)
    && ChallengeAcceptable(e.reply, Ids(HypothesisId, s.hypotheses), Ids(TestId, s.tests))
    && InlineGives(e.derived, e.planned, calls, more)
  }

  lemma ChallengeMoves(s: State, e: Event, calls: nat, more: nat)
    requires ChallengeAnswers(s, e, calls, more)
    ensures var t, own := Next(s, e), s.control.own;
            && t.pc == ExecuteInvestigation && t.mode == Running && t.threadId == s.threadId
            && t.control == s.control.(own := own.(stopKind := None, llmCallsUsed := own.llmCallsUsed + (calls + more),
                                                   challengeRounds := own.challengeRounds + 1,
                                                   reservedChallengeBudget := own.reservedChallengeBudget - 1))
            && t.hypotheses == Upsert(HypothesisId, s.hypotheses, [e.reply.alternative.value])
            && t.tests == Upsert(TestId, s.tests, Values(e.reply.discriminatingTests) + e.planned.tests)
  {
    KnownIsHypothesis(s, s.pc.target);
    DeclaresCalls(e.derived.declared, calls);
    DeclaresCalls(e.planned.declared, more);
  }

  /** A step that leaves the challenge is one of those. */
  lemma ChallengeMovesOnlySo(s: State, e: Event) returns (calls: nat, more: nat)
    requires s.pc.ChallengeHypothesis? && Next(s, e).pc != s.pc
    ensures ChallengeAnswers(s, e, calls, more)
  {
    KnownIsHypothesis(s, s.pc.target);
    calls, more := DeclaredCalls(e.derived.declared).value, DeclaredCalls(e.planned.declared).value;
    DeclaresCalls(e.derived.declared, calls);
    DeclaresCalls(e.planned.declared, more);
  }

  // ---- The review -------------------------------------------------------------------------------------------------

  /** The human answers the interrupt the thread waits on; an added hypothesis is one the run does not have. */
  predicate ReviewAnswers(s: State, e: Event) {
    && s.pc == ReviewConclusion && s.mode.Waiting? && e.Resumed? && e.interruptId == s.mode.interruptId
    && Readable(s.control) && OnItsThread(s)
    && (e.review.AddHypothesis? ==> !IsHypothesis(s, e.review.hypothesis.id))
  }

  function AfterReview(review: ReviewDecision): Pc {
    match review
    case Confirm => Ended
    case Reject => GenerateHypotheses
    case AddHypothesis(_) => DerivePredictions
  }

  /** A review is left by its answer alone, for where the answer leads; only a confirmed run keeps its stop. */
  lemma ReviewMoves(s: State, e: Event)
    requires s.pc == ReviewConclusion
    ensures Next(s, e).pc != s.pc <==> ReviewAnswers(s, e)
    ensures ReviewAnswers(s, e) ==>
              var t, own := Next(s, e), s.control.own;
              && t.pc == AfterReview(e.review) && t.mode == (if e.review.Confirm? then Stopped else Running)
              && t.control == s.control.(own := own.(resumeCount := own.resumeCount + 1,
                                                     stopKind := if e.review.Confirm? then own.stopKind else None))
              && t.threadId == s.threadId && t.tests == s.tests
              && t.hypotheses == Upsert(HypothesisId, s.hypotheses,
                                        if e.review.AddHypothesis? then [e.review.hypothesis] else [])
  {
    ReadableGuards(s.control);
    if e.Resumed? && e.review.AddHypothesis? { KnownIsHypothesis(s, e.review.hypothesis.id); }
  }

  /** Nothing leaves the end. */
  lemma EndedIsFinal(s: State, e: Event)
    requires s.pc == Ended && s.mode == Stopped
    ensures Next(s, e) == s
  {}

  /** A step that moves nowhere changes nothing but whether and for what the thread waits. */
  lemma StayingChangesNothing(s: State, e: Event)
    requires Next(s, e).pc == s.pc
    ensures Next(s, e) == s.(mode := Next(s, e).mode)
  {
    match e {
      case NodeRan(ret) => if s.mode == Running && IsWrapped(s.pc) { NodeAccounts(s, ret); }
      case Challenged(reply, derived, planned) =>
        if s.pc.ChallengeHypothesis? { ChallengeAccounts(s, reply, derived, planned); }
      case _ =>
    }
  }

  /** A thread comes to wait exactly when its review pauses it, on a control it can read and the thread it names. */
  lemma PausesForReview(s: State, e: Event)
    requires !s.mode.Waiting?
    ensures Next(s, e).mode.Waiting?
            <==> s.mode == Running && s.pc == ReviewConclusion && e.Paused? && Readable(s.control) && OnItsThread(s)
    ensures Next(s, e).mode.Waiting? ==> Next(s, e) == s.(mode := Waiting(e.interruptId))
  {
    ReadableGuards(s.control);
  }

  /** A stopped thread runs again exactly when it is called again before its end, with versions this graph reads. */
  lemma RunsAgain(s: State, e: Event)
    requires s.mode == Stopped
    ensures Next(s, e).mode != Stopped <==> (e.Resumed? || e.Continued?) && s.pc != Ended && HasVersions(s.control)
    ensures Next(s, e).mode != Stopped ==> Next(s, e) == s.(mode := Running)
  {}

  // ---- The stop a run ends with -----------------------------------------------------------------------------------

  lemma ConcludingKeepsStop(s: State, e: Event)
    requires Concluding(s.pc) && Concluding(Next(s, e).pc)
    ensures Next(s, e).control.own.stopKind == s.control.own.stopKind
  {}

  /** A thread enters its conclusion by a check that earned the stop it then has. */
  lemma EntersByCheck(s: State, e: Event)
    requires !Concluding(s.pc) && Concluding(Next(s, e).pc)
    ensures Checks(s, e) && EarnedStop(e.decision, s.control.own).Some?
    ensures Next(s, e).control.own.stopKind == EarnedStop(e.decision, s.control.own)
  {
    ConcludesAsEarned(s, e);
  }

  /** From the n-th step on the run is concluding, with one stop. */
  ghost predicate ConcludingFrom(s: State, events: seq<Event>, n: nat) {
    forall k :: n <= k <= |events| ==>
      && Concluding(Run(s, events[..k]).pc)
      && Run(s, events[..k]).control.own.stopKind == Run(s, events).control.own.stopKind
  }

  lemma RunOneMore(s: State, events: seq<Event>, k: nat)
    requires 0 < k <= |events|
    ensures Run(s, events[..k]) == Run(Next(s, events[0]), events[1..][..k - 1])
  {
    assert events[..k][1..] == events[1..][..k - 1];
  }

  lemma ConcludingFromShifts(s: State, events: seq<Event>, n: nat)
    requires events != [] && ConcludingFrom(Next(s, events[0]), events[1..], n)
    ensures ConcludingFrom(s, events, n + 1)
  {
    forall k | n + 1 <= k <= |events|
      ensures Concluding(Run(s, events[..k]).pc)
      ensures Run(s, events[..k]).control.own.stopKind == Run(s, events).control.own.stopKind
    {
      RunOneMore(s, events, k);
    }
  }

  lemma ConcludingFromStart(s: State, events: seq<Event>)
    requires Concluding(s.pc) && ConcludingFrom(s, events, 1)
    requires s.control.own.stopKind == Run(s, events).control.own.stopKind
    ensures ConcludingFrom(s, events, 0)
  {
    forall k | 0 <= k <= |events|
      ensures Concluding(Run(s, events[..k]).pc)
      ensures Run(s, events[..k]).control.own.stopKind == Run(s, events).control.own.stopKind
    {
      if k == 0 { assert events[..0] == []; }
    }
  }

  /** The i-th event is a check that earned a stop, with which the run has been concluding ever since. */
  ghost predicate EarnedAt(s: State, events: seq<Event>, i: nat) {
    && i < |events| && Checks(Run(s, events[..i]), events[i])
    && EarnedStop(events[i].decision, Run(s, events[..i]).control.own).Some?
    && EarnedStop(events[i].decision, Run(s, events[..i]).control.own) == Run(s, events).control.own.stopKind
    && ConcludingFrom(s, events, i + 1)
  }

  lemma EarnedAtShifts(s: State, events: seq<Event>, i: nat)
    requires events != [] && EarnedAt(Next(s, events[0]), events[1..], i)
    ensures EarnedAt(s, events, i + 1)
  {
    RunOneMore(s, events, i + 1);
    ConcludingFromShifts(s, events, i + 1);
  }

  lemma EarnedAtStart(s: State, events: seq<Event>)
    requires events != [] && !Concluding(s.pc) && ConcludingFrom(Next(s, events[0]), events[1..], 0)
    ensures EarnedAt(s, events, 0)
  {
    assert events[..0] == [] && events[1..][..0] == [];
    assert Concluding(Run(Next(s, events[0]), events[1..][..0]).pc);
    EntersByCheck(s, events[0]);
    ConcludingFromShifts(s, events, 0);
  }

  /** A concluding run has had its last check, unless it was concluding all along. */
  lemma {:induction false} LastCheck(s: State, events: seq<Event>) returns (i: int)
    requires Concluding(Run(s, events).pc)
    ensures if i < 0 then ConcludingFrom(s, events, 0) else EarnedAt(s, events, i)
    decreases events
  {
    i := -1;
    if events != [] {
      var next := Next(s, events[0]);
      i := LastCheck(next, events[1..]);
      if i >= 0 {
        EarnedAtShifts(s, events, i);
        i := i + 1;
      } else if Concluding(s.pc) {
        assert events[1..][..0] == [] && Concluding(Run(next, events[1..][..0]).pc);
        ConcludingKeepsStop(s, events[0]);
        ConcludingFromShifts(s, events, 0);
        ConcludingFromStart(s, events);
      } else {
        EarnedAtStart(s, events);
        i := 0;
      }
    }
  }

  /** An ended run ends with the stop its last check earned, and nothing but its conclusion came after that check. */
  lemma RunEndsAsEarned(control: Control, threadId: Option<string>, hypotheses: seq<Hypothesis>, tests: seq<Test>,
                        events: seq<Event>) returns (i: nat)
    requires StartAccepted(control, threadId)
    requires Run(Begin(control, threadId, hypotheses, tests), events).pc == Ended
    ensures EarnedAt(Begin(control, threadId, hypotheses, tests), events, i)
  {
    var s := Begin(control, threadId, hypotheses, tests);
    var last := LastCheck(s, events);
    assert events[..0] == [] && Run(s, events[..0]) == s;
    i := last;
  }
}
