/** What every run of the investigation graph keeps, over every sequence of events, resumes and crashes included. */
module InvestigationSafety {
  import opened Wrappers
  import opened Reducers
  import opened ControlOwnership
  import opened Investigation

  /** What a run has done so far, counted from its steps and not from the control. */
  datatype Counts = Counts(plans: nat, challenges: nat, reviews: nat, reentries: nat, calls: nat)

  ghost predicate Advances(s: State, e: Event) {
    Next(s, e).pc != s.pc
  }

  /** A human decision that took effect. */
  ghost predicate Reviews(s: State, e: Event) {
    e.Resumed? && s.mode.Waiting? && Advances(s, e)
  }

  function CallsDeclared(e: Event): nat {
    match e
    case NodeRan(Returns(_, declared, _, _)) => if DeclaredCalls(declared).Ok? then DeclaredCalls(declared).value else 0
    case Challenged(_, derived, planned) =>
      var calls := InlineCalls(derived, planned);
      if calls.Some? then calls.value else 0
    case _ => 0
  }

  ghost function StepCounts(s: State, e: Event): Counts {
    if !Advances(s, e) then Counts(0, 0, 0, 0, 0) else
    Counts(
      if s.pc == PlanInvestigation then 1 else 0,
      if s.pc.ChallengeHypothesis? then 1 else 0,
      if Reviews(s, e) then 1 else 0,
      if Reviews(s, e) && !e.review.Confirm? then 1 else 0,
      CallsDeclared(e))
  }

  ghost function Tally(s: State, events: seq<Event>): Counts
    decreases events
  {
    if events == [] then Counts(0, 0, 0, 0, 0) else
    var first, rest := StepCounts(s, events[0]), Tally(Next(s, events[0]), events[1..]);
    Counts(first.plans + rest.plans, first.challenges + rest.challenges, first.reviews + rest.reviews,
           first.reentries + rest.reentries, first.calls + rest.calls)
  }

  /** The graph-owned half of t is that of s moved by exactly what was counted. */
  ghost predicate Accounts(s: Owned, c: Counts, t: Owned) {
    && t.runId == s.runId && t.humanReview == s.humanReview
    && t.maxIterations == s.maxIterations && t.llmCallBudget == s.llmCallBudget
    && t.iterationsUsed == s.iterationsUsed + c.plans
    && t.llmCallsUsed == s.llmCallsUsed + c.calls
    && t.resumeCount == s.resumeCount + c.reviews
    && t.challengeRounds == s.challengeRounds + c.challenges
    && t.reservedChallengeBudget == s.reservedChallengeBudget - c.challenges
  }

  lemma NodeAccounts(s: State, ret: NodeReturn)
    requires s.mode == Running && IsWrapped(s.pc)
    ensures NodeStep(s, ret).pc == s.pc ==> NodeStep(s, ret) == s.(mode := Stopped)
    ensures NodeStep(s, ret).pc != s.pc ==>
              && ret.Returns? && DeclaredCalls(ret.declared).Ok? && GuardsPass(s.control)
              && NodeStep(s, ret).control
                 == Preserved(s.control, s.pc == PlanInvestigation, ret.control, DeclaredCalls(ret.declared).value)
              && NodeStep(s, ret).pc == Successor(s.pc, s.control.own.humanReview)
  {}

  lemma CheckAccounts(s: State, decision: Decision)
    requires s.pc == TerminationCheck
    ensures var t := CheckStep(s, decision);
            && t.control.own == s.control.own.(stopKind := t.control.own.stopKind) && t.threadId == s.threadId
            && (|| t == s.(mode := Stopped)
                || (t.mode == Running && t.pc == ProposeConclusion)
                || (t.mode == Running && t.pc == PlanInvestigation
                    && s.control.own.iterationsUsed < s.control.own.maxIterations)
                || (t.mode == Running && t.pc.ChallengeHypothesis?
                    && s.control.own.challengeRounds < MAX_CHALLENGE_ROUNDS
                    && 0 < s.control.own.reservedChallengeBudget))
  {}

  lemma ChallengeAccounts(s: State, reply: ChallengeReply, derived: InlineReturn, planned: InlineReturn)
    requires s.pc.ChallengeHypothesis?
    ensures var t, own := ChallengeStep(s, reply, derived, planned), s.control.own;
            var calls := InlineCalls(derived, planned);
            && t.threadId == s.threadId
            && if t.pc == s.pc then t == s.(mode := Stopped) else
                 && t.pc == ExecuteInvestigation && t.mode == Running && calls.Some?
                 && t.control.own == own.(stopKind := None, llmCallsUsed := own.llmCallsUsed + calls.value,
                                          challengeRounds := own.challengeRounds + 1,
                                          reservedChallengeBudget := own.reservedChallengeBudget - 1)
  {}

  lemma ReviewAccounts(s: State, decision: ReviewDecision)
    requires s.pc == ReviewConclusion
    ensures var t, own := ReviewStep(s, decision), s.control.own;
            && t.threadId == s.threadId
            && if t.pc == s.pc then t.control == s.control else
                 t.control.own == own.(stopKind := t.control.own.stopKind, resumeCount := own.resumeCount + 1)
  {}

  /** The event's step is what its counts say, on the thread it was on. */
  ghost predicate StepIsCounted(s: State, e: Event) {
    && Accounts(s.control.own, StepCounts(s, e), Next(s, e).control.own)
    && Next(s, e).threadId == s.threadId
  }

  lemma NodeIsCounted(s: State, e: Event)
    requires e.NodeRan?
    ensures StepIsCounted(s, e)
  {
    if s.mode == Running && IsWrapped(s.pc) { NodeAccounts(s, e.ret); }
  }

  lemma CheckIsCounted(s: State, e: Event)
    requires e.Decided?
    ensures StepIsCounted(s, e)
  {
    if s.pc == TerminationCheck { CheckAccounts(s, e.decision); }
  }

  lemma ChallengeIsCounted(s: State, e: Event)
    requires e.Challenged?
    ensures StepIsCounted(s, e)
  {
    if s.pc.ChallengeHypothesis? { ChallengeAccounts(s, e.reply, e.derived, e.planned); }
  }

  lemma ReviewIsCounted(s: State, e: Event)
    requires e.Resumed?
    ensures StepIsCounted(s, e)
  {
    if s.pc == ReviewConclusion { ReviewAccounts(s, e.review); }
  }

  lemma StoppingIsCounted(s: State, e: Event)
    requires e.CheckThrew? || e.ChallengeThrew? || e.Paused? || e.Killed? || e.Continued?
    ensures StepIsCounted(s, e)
  {}

  lemma StepAccounts(s: State, e: Event)
    ensures Accounts(s.control.own, StepCounts(s, e), Next(s, e).control.own)
    ensures Next(s, e).threadId == s.threadId
  {
    match e {
      case NodeRan(_) => NodeIsCounted(s, e);
      case Decided(_) => CheckIsCounted(s, e);
      case Challenged(_, _, _) => ChallengeIsCounted(s, e);
      case Resumed(_, _) => ReviewIsCounted(s, e);
      case _ => StoppingIsCounted(s, e);
    }
  }

  /** Conservation: five counters equal what the run did, and four fields never move, whatever the nodes return. */
  lemma {:induction false} RunAccounts(s: State, events: seq<Event>)
    ensures Accounts(s.control.own, Tally(s, events), Run(s, events).control.own)
    ensures Run(s, events).threadId == s.threadId
    decreases events
  {
    if events != [] {
      StepAccounts(s, events[0]);
      RunAccounts(Next(s, events[0]), events[1..]);
    }
  }

  // ---- Invariants -------------------------------------------------------------------------------------------------

  predicate BeforePlan(pc: Pc) {
    pc in {NormalizeIncident, CollectBaseline, GenerateHypotheses, DerivePredictions, PlanInvestigation}
  }

  predicate Concluding(pc: Pc) {
    pc in {ProposeConclusion, ReviewConclusion, Ended}
  }

  /** Iterations spent, and the one about to be spent, stay within a bound. */
  predicate WithinIterations(s: State, bound: int) {
    s.control.own.iterationsUsed + (if BeforePlan(s.pc) then 1 else 0) <= bound
  }

  /** Past its first node a run has sane challenge counters, and a conclusion always has a stop kind it earned. */
  predicate Invariant(s: State) {
    && ControlInvariant(s)
    && Distinct(Ids(HypothesisId, s.hypotheses)) && Distinct(Ids(TestId, s.tests))
  }

  predicate ControlInvariant(s: State) {
    && (s.pc != NormalizeIncident ==>
          0 <= s.control.own.challengeRounds <= MAX_CHALLENGE_ROUNDS && 0 <= s.control.own.reservedChallengeBudget)
    && (Concluding(s.pc) ==>
          && s.control.own.stopKind.Some?
          && (s.control.own.stopKind == Some(Sufficient) ==> s.control.own.challengeRounds > 0))
    && (s.pc.ChallengeHypothesis? ==>
          && VersionOk(s.control)
          && s.control.own.challengeRounds < MAX_CHALLENGE_ROUNDS && 0 < s.control.own.reservedChallengeBudget)
    && (s.mode.Waiting? ==> s.pc == ReviewConclusion)
    && (s.pc == ReviewConclusion ==> s.control.own.humanReview)
    && (s.pc == Ended ==> s.mode == Stopped)
  }

  lemma StepKeepsControlInvariant(s: State, e: Event)
    requires ControlInvariant(s)
    ensures ControlInvariant(Next(s, e))
  {
    match e {
      case NodeRan(ret) => if s.mode == Running && IsWrapped(s.pc) { NodeKeepsControlInvariant(s, ret); }
      case Decided(decision) =>
        if s.mode == Running && s.pc == TerminationCheck { CheckKeepsControlInvariant(s, decision); }
      case Challenged(reply, derived, planned) =>
        if s.mode == Running && s.pc.ChallengeHypothesis? {
          ChallengeKeepsControlInvariant(s, reply, derived, planned);
        }
      case Resumed(_, decision) => if s.pc == ReviewConclusion { ReviewKeepsControlInvariant(s, decision); }
      case _ =>
    }
  }

  lemma NodeKeepsControlInvariant(s: State, ret: NodeReturn)
    requires ControlInvariant(s) && s.mode == Running && IsWrapped(s.pc)
    ensures ControlInvariant(NodeStep(s, ret))
  {
    NodeAccounts(s, ret);
  }

  lemma CheckKeepsControlInvariant(s: State, decision: Decision)
    requires ControlInvariant(s) && s.mode == Running && s.pc == TerminationCheck
    ensures ControlInvariant(CheckStep(s, decision))
  {}

  lemma ChallengeKeepsControlInvariant(s: State, reply: ChallengeReply, derived: InlineReturn, planned: InlineReturn)
    requires ControlInvariant(s) && s.mode == Running && s.pc.ChallengeHypothesis?
    ensures ControlInvariant(ChallengeStep(s, reply, derived, planned))
  {}

  lemma ReviewKeepsControlInvariant(s: State, decision: ReviewDecision)
    requires ControlInvariant(s) && s.pc == ReviewConclusion
    ensures ControlInvariant(ReviewStep(s, decision))
  {}

  /** The channel t is s with updates merged in: nothing moved or lost an id, and ids stay unique. */
  ghost predicate Grown(s: State, t: State) {
    && Distinct(Ids(HypothesisId, t.hypotheses)) && Distinct(Ids(TestId, t.tests))
    && |s.hypotheses| <= |t.hypotheses|
    && forall i :: 0 <= i < |s.hypotheses| ==> t.hypotheses[i].id == s.hypotheses[i].id
  }

  lemma MergeGrows(s: State, hypotheses: seq<Hypothesis>, tests: seq<Test>, t: State)
    requires Distinct(Ids(HypothesisId, s.hypotheses)) && Distinct(Ids(TestId, s.tests))
    requires t.hypotheses == Upsert(HypothesisId, s.hypotheses, hypotheses) && t.tests == Upsert(TestId, s.tests, tests)
    ensures Grown(s, t)
  {
    UpsertKeepsPositions(HypothesisId, s.hypotheses, hypotheses);
    UpsertKeepsPositions(TestId, s.tests, tests);
    assert forall i :: 0 <= i < |s.hypotheses| ==> HypothesisId(t.hypotheses[i]) == HypothesisId(s.hypotheses[i]);
  }

  lemma MergesOf(s: State, e: Event) returns (hypotheses: seq<Hypothesis>, tests: seq<Test>)
    ensures Next(s, e).hypotheses == Upsert(HypothesisId, s.hypotheses, hypotheses)
    ensures Next(s, e).tests == Upsert(TestId, s.tests, tests)
  {
    hypotheses, tests := [], [];
    if Advances(s, e) {
      match e {
        case NodeRan(ret) =>
          NodeAccounts(s, ret);
          hypotheses, tests := ret.hypotheses, ret.tests;
        case Challenged(reply, _, planned) =>
          hypotheses, tests := [reply.alternative.value], Values(reply.discriminatingTests) + planned.tests;
        case Resumed(_, AddHypothesis(hypothesis)) => hypotheses := [hypothesis];
        case _ => OtherEventsMergeNothing(s, e);
      }
    } else {
      IdleEventsMergeNothing(s, e);
    }
  }

  lemma OtherEventsMergeNothing(s: State, e: Event)
    requires !e.NodeRan? && !e.Challenged? && !(e.Resumed? && e.review.AddHypothesis?)
    ensures Next(s, e).hypotheses == s.hypotheses && Next(s, e).tests == s.tests
  {}

  lemma IdleEventsMergeNothing(s: State, e: Event)
    requires Next(s, e).pc == s.pc
    ensures Next(s, e).hypotheses == s.hypotheses && Next(s, e).tests == s.tests
  {
    match e
    case NodeRan(ret) => if s.mode == Running && IsWrapped(s.pc) { NodeAccounts(s, ret); }
    case Challenged(reply, derived, planned) =>
      if s.pc.ChallengeHypothesis? { ChallengeAccounts(s, reply, derived, planned); }
    case Resumed(_, decision) => if s.pc == ReviewConclusion { ReviewAccounts(s, decision); }
    case _ => OtherEventsMergeNothing(s, e);
  }

  lemma StepKeepsChannels(s: State, e: Event)
    requires Distinct(Ids(HypothesisId, s.hypotheses)) && Distinct(Ids(TestId, s.tests))
    ensures Grown(s, Next(s, e))
  {
    var hypotheses, tests := MergesOf(s, e);
    MergeGrows(s, hypotheses, tests, Next(s, e));
  }

  lemma StepKeepsInvariant(s: State, e: Event)
    requires Invariant(s)
    ensures Invariant(Next(s, e))
  {
    StepKeepsChannels(s, e);
    StepKeepsControlInvariant(s, e);
  }

  lemma StepKeepsIterations(s: State, e: Event, bound: int)
    requires Invariant(s) && WithinIterations(s, bound) && s.control.own.maxIterations <= bound
    ensures WithinIterations(Next(s, e), bound + StepCounts(s, e).reentries)
  {}

  lemma {:induction false} RunKeepsInvariant(s: State, events: seq<Event>, bound: int)
    requires Invariant(s) && WithinIterations(s, bound) && s.control.own.maxIterations <= bound
    ensures Invariant(Run(s, events))
    ensures WithinIterations(Run(s, events), bound + Tally(s, events).reentries)
    decreases events
  {
    if events != [] {
      StepKeepsInvariant(s, events[0]);
      StepKeepsIterations(s, events[0], bound);
      StepAccounts(s, events[0]);
      RunKeepsInvariant(Next(s, events[0]), events[1..], bound + StepCounts(s, events[0]).reentries);
    }
  }

  function Max(a: int, b: int): int {
    if a > b then a else b
  }

  /**
    Safety of every run from every accepted start. The four fixed fields never change and the counters equal what the
    run did; the iterations pass the budget only by the human's re-entries; the challenge reserve is spent round by
    round within its cap; and a run that ends as sufficient from zero rounds has executed its challenge.
   */
  lemma EveryRunIsSafe(control: Control, threadId: Option<string>, hypotheses: seq<Hypothesis>, tests: seq<Test>,
                       events: seq<Event>)
    requires StartAccepted(control, threadId)
    ensures var s := Begin(control, threadId, hypotheses, tests);
            var t, c := Run(s, events), Tally(s, events);
            && Accounts(control.own, c, t.control.own)
            && t.control.own.iterationsUsed
               <= Max(control.own.maxIterations, control.own.iterationsUsed + 1) + c.reentries
            && t.control.own.challengeRounds + t.control.own.reservedChallengeBudget
               == control.own.challengeRounds + control.own.reservedChallengeBudget
            && t.control.own.reservedChallengeBudget >= 0
            && (control.own.challengeRounds <= MAX_CHALLENGE_ROUNDS ==>
                  0 <= t.control.own.challengeRounds <= MAX_CHALLENGE_ROUNDS)
            && (t.pc == Ended ==> t.control.own.stopKind.Some?)
            && (t.pc == Ended && t.control.own.stopKind == Some(Sufficient) && control.own.challengeRounds == 0 ==>
                  c.challenges >= 1)
  {
    var s := Begin(control, threadId, hypotheses, tests);
    UpsertKeepsPositions(HypothesisId, [], hypotheses);
    UpsertKeepsPositions(TestId, [], tests);
    RunAccounts(s, events);
    RunKeepsInvariant(s, events, Max(control.own.maxIterations, control.own.iterationsUsed + 1));
    if Run(s, events).pc == NormalizeIncident { NoChallengeBeforeTheFirstNode(s, events); }
  }

  /** A thread that has not passed its first node has run no challenge. */
  lemma {:induction false} NoChallengeBeforeTheFirstNode(s: State, events: seq<Event>)
    requires s.pc == NormalizeIncident && Run(s, events).pc == NormalizeIncident && !s.mode.Waiting?
    ensures Tally(s, events).challenges == 0
    decreases events
  {
    if events != [] {
      if Advances(s, events[0]) {
        NeverBackToTheFirstNode(Next(s, events[0]), events[1..]);
      } else {
        NoChallengeBeforeTheFirstNode(Next(s, events[0]), events[1..]);
      }
    }
  }

  lemma {:induction false} NeverBackToTheFirstNode(s: State, events: seq<Event>)
    requires s.pc != NormalizeIncident
    ensures Run(s, events).pc != NormalizeIncident
    decreases events
  {
    if events != [] { NeverBackToTheFirstNode(Next(s, events[0]), events[1..]); }
  }

  // ---- Human review and the challenge -----------------------------------------------------------------------------

  /** A run under human review ends in one way: the human confirms the review it is waiting on. */
  lemma EndsOnlyByConfirm(s: State, e: Event)
    requires Invariant(s) && s.control.own.humanReview
    requires s.pc != Ended && Next(s, e).pc == Ended
    ensures s.mode.Waiting? && e == Resumed(s.mode.interruptId, Confirm)
    ensures Next(s, e).control == s.control.(own := s.control.own.(resumeCount := s.control.own.resumeCount + 1))
  {}

  /** Along a whole run: from a start under human review, an ended thread has had its confirm. */
  lemma {:induction false} EndedMeansConfirmed(s: State, events: seq<Event>) returns (i: nat, id: string)
    requires Invariant(s) && s.control.own.humanReview && s.pc != Ended && Run(s, events).pc == Ended
    ensures i < |events| && events[i] == Resumed(id, Confirm)
    ensures Run(s, events[..i]).mode == Waiting(id)
    decreases events
  {
    var next := Next(s, events[0]);
    if next.pc == Ended {
      EndsOnlyByConfirm(s, events[0]);
      i, id := 0, s.mode.interruptId;
    } else {
      StepKeepsInvariant(s, events[0]);
      StepAccounts(s, events[0]);
      i, id := EndedMeansConfirmed(next, events[1..]);
      assert events[..i + 1][1..] == events[1..][..i];
      i := i + 1;
    }
  }

  /** The challenge and the human add hypotheses; neither can replace one the run already has. */
  lemma AdditionsAreNew(s: State, e: Event)
    requires Invariant(s) && Advances(s, e)
    requires s.pc.ChallengeHypothesis? || (Reviews(s, e) && e.review.AddHypothesis?)
    ensures Next(s, e).hypotheses
            == s.hypotheses + [if e.Resumed? then e.review.hypothesis else e.reply.alternative.value]
    ensures Next(s, e).hypotheses[|s.hypotheses|].id !in Ids(HypothesisId, s.hypotheses)
  {
    if e.Resumed? {
      NewHypothesisIsAppended(s.hypotheses, e.review.hypothesis);
    } else {
      ChallengeIsNew(s, e);
      NewHypothesisIsAppended(s.hypotheses, e.reply.alternative.value);
    }
  }

  lemma ChallengeIsNew(s: State, e: Event)
    requires Invariant(s) && Advances(s, e) && s.pc.ChallengeHypothesis? && !e.Resumed?
    ensures e.Challenged? && e.reply.Reply? && e.reply.alternative.Some?
    ensures e.reply.alternative.value.id !in Ids(HypothesisId, s.hypotheses)
    ensures Next(s, e).hypotheses == Upsert(HypothesisId, s.hypotheses, [e.reply.alternative.value])
  {}

  lemma NewHypothesisIsAppended(hypotheses: seq<Hypothesis>, added: Hypothesis)
    requires added.id !in Ids(HypothesisId, hypotheses)
    ensures Upsert(HypothesisId, hypotheses, [added]) == hypotheses + [added]
  {
    assert forall i :: 0 <= i < |hypotheses| ==> Ids(HypothesisId, hypotheses)[i] == hypotheses[i].id;
    UpsertSnoc(HypothesisId, hypotheses, [added], 0);
    assert [added][..1] == [added] && [added][..0] == [];
  }

  /** A node that rewrote a version stops the run: nothing advances from a control this graph cannot read. */
  lemma {:induction false} StaleControlGoesNowhere(s: State, events: seq<Event>)
    requires Invariant(s) && !VersionOk(s.control)
    ensures Run(s, events).pc == s.pc && Run(s, events).control == s.control
    decreases events
  {
    if events != [] {
      StepKeepsInvariant(s, events[0]);
      StaleControlGoesNowhere(Next(s, events[0]), events[1..]);
    }
  }
}
