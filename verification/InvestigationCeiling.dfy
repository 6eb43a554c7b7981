/**
  The role bound is exact: for every start there is an invocation that reaches it. From that, when the ceiling that
  packages/evals/src/live-model-lane.ts publishes is sound.
 */
module InvestigationCeiling {
  import opened Wrappers
  import opened Reducers
  import opened ControlOwnership
  import opened Investigation
  import opened InvestigationSafety
  import opened InvestigationBounds

  lemma {:induction false} RunConcat(s: State, a: seq<Event>, b: seq<Event>)
    ensures Run(s, a + b) == Run(Run(s, a), b)
    ensures RoleRuns(s, a + b) == RoleRuns(s, a) + RoleRuns(Run(s, a), b)
    decreases a
  {
    if a == [] {
      assert a + b == b;
    } else {
      assert (a + b)[0] == a[0] && (a + b)[1..] == a[1..] + b;
      RunConcat(Next(s, a[0]), a[1..], b);
    }
  }

  /** A node that returns nothing of its own. */
  function Idle(): Event {
    NodeRan(Returns(None, Undeclared, [], []))
  }

  /** A running thread whose guards pass. */
  predicate Ready(s: State, pc: Pc) {
    s.mode == Running && s.pc == pc && GuardsPass(s.control) && IdentityOk(s)
  }

  /** The conclusion is made: the thread has ended, or its review is pending. */
  predicate Concluded(s: State) {
    s.pc == if s.control.own.humanReview then ReviewConclusion else Ended
  }

  /** t is s further along, with its channels untouched. */
  predicate SameChannels(s: State, t: State) {
    t.hypotheses == s.hypotheses && t.tests == s.tests && t.threadId == s.threadId
  }

  lemma IdleStep(s: State, pc: Pc) returns (t: State)
    requires Ready(s, pc) && IsWrapped(pc)
    requires pc == PlanInvestigation ==> s.control.own.iterationsUsed < MAX_SAFE_INTEGER
    ensures t == Next(s, Idle()) && SameChannels(s, t)
    ensures t.control.own == s.control.own.(iterationsUsed := s.control.own.iterationsUsed
                                              + if pc == PlanInvestigation then 1 else 0)
    ensures if pc == ProposeConclusion then Concluded(t) else Ready(t, Successor(pc, false))
    ensures RoleRuns(s, [Idle()]) == (if IsRole(pc) then 1 else 0) && Run(s, [Idle()]) == t
  {
    t := Next(s, Idle());
    assert [Idle()][1..] == [];
  }

  function Idles(n: nat): (events: seq<Event>)
    ensures |events| == n && forall i :: 0 <= i < n ==> events[i] == Idle()
  {
    seq(n, _ => Idle())
  }

  lemma IdlesConcat(n: nat)
    ensures Idles(n + 1) == [Idle()] + Idles(n)
  {}

  /** From the execution node to the termination check, interpreting once. */
  lemma Cruise(s: State) returns (t: State)
    requires Ready(s, ExecuteInvestigation)
    ensures t == Run(s, Idles(4)) && Ready(t, TerminationCheck) && SameChannels(s, t) && t.control.own == s.control.own
    ensures RoleRuns(s, Idles(4)) == 1
  {
    var a := IdleStep(s, ExecuteInvestigation);
    var b := IdleStep(a, EvaluatePredictions);
    t := Interpret(b);
    IdlesConcat(3);
    IdlesConcat(2);
    RunConcat(s, [Idle()], Idles(3));
    RunConcat(a, [Idle()], Idles(2));
  }

  /** The last two nodes before the check, the first of them a role. */
  lemma Interpret(s: State) returns (t: State)
    requires Ready(s, InterpretResidualEvidence)
    ensures t == Run(s, Idles(2)) && Ready(t, TerminationCheck) && SameChannels(s, t) && t.control.own == s.control.own
    ensures RoleRuns(s, Idles(2)) == 1
  {
    var a := IdleStep(s, InterpretResidualEvidence);
    t := IdleStep(a, DeriveHypothesisState);
    IdlesConcat(1);
    RunConcat(s, [Idle()], Idles(1));
    assert Idles(1) == [Idle()];
  }

  /** From planning to the termination check: one iteration spent, one interpretation. */
  lemma Iterate(s: State) returns (t: State)
    requires Ready(s, PlanInvestigation) && s.control.own.iterationsUsed < MAX_SAFE_INTEGER
    ensures t == Run(s, Idles(5)) && Ready(t, TerminationCheck) && SameChannels(s, t)
    ensures t.control.own == s.control.own.(iterationsUsed := s.control.own.iterationsUsed + 1)
    ensures RoleRuns(s, Idles(5)) == 1
  {
    var a := IdleStep(s, PlanInvestigation);
    t := Cruise(a);
    IdlesConcat(4);
    RunConcat(s, [Idle()], Idles(4));
  }

  /** The automatic loop-back, while the iteration and call budgets last. */
  lemma LoopBack(s: State) returns (events: seq<Event>, t: State)
    requires Ready(s, TerminationCheck) && Loops(s.control.own) > 0
    ensures t == Run(s, events) && OneInvocation(events) && RoleRuns(s, events) == 1
    ensures Ready(t, TerminationCheck) && SameChannels(s, t)
    ensures t.control.own == s.control.own.(stopKind := None, iterationsUsed := s.control.own.iterationsUsed + 1)
  {
    var decided := [Decided(NeedMoreEvidence)];
    var a := Next(s, decided[0]);
    assert decided[1..] == [] && Run(s, decided) == a;
    t := Iterate(a);
    events := decided + Idles(5);
    RunConcat(s, decided, Idles(5));
  }

  function LongestId(ids: seq<string>): (n: nat)
    ensures forall i :: 0 <= i < |ids| ==> |ids[i]| <= n
  {
    if ids == [] then 0 else
    var n := LongestId(ids[1..]);
    if |ids[0]| > n then |ids[0]| else n
  }

  function FreshId(ids: seq<string>): (id: string)
    ensures id !in ids
  {
    seq(LongestId(ids) + 1, _ => 'x')
  }

  /** Proposes a fresh hypothesis and a fresh test. */
  function FreshReply(s: State): ChallengeReply {
    Reply(Some(Hypothesis(FreshId(Ids(HypothesisId, s.hypotheses)), Challenge, "")),
          [Some(Test(FreshId(Ids(TestId, s.tests)), "", ""))])
  }

  function FreshChallenge(s: State): Event {
    Challenged(FreshReply(s), Gives([], Undeclared), Gives([], Undeclared))
  }

  lemma ChallengeNow(s: State, leaderId: string) returns (t: State)
    requires Ready(s, ChallengeHypothesis(leaderId)) && KnowsHypothesis(s, leaderId)
    requires s.control.own.challengeRounds < MAX_CHALLENGE_ROUNDS && 0 < s.control.own.reservedChallengeBudget
    ensures t == Next(s, FreshChallenge(s)) && Ready(t, ExecuteInvestigation) && KnowsHypothesis(t, leaderId)
    ensures var own := s.control.own;
            t.control.own == own.(stopKind := None, challengeRounds := own.challengeRounds + 1,
                                  reservedChallengeBudget := own.reservedChallengeBudget - 1)
  {
    var reply, silent := FreshReply(s), Gives([], Undeclared);
    assert ChallengeAcceptable(reply, Ids(HypothesisId, s.hypotheses), Ids(TestId, s.tests));
    assert InlineCalls(silent, silent) == Some(0);
    t := ChallengeStep(s, reply, silent, silent);
    KnownStaysKnown(s, [reply.alternative.value], leaderId);
  }

  /** A challenge round: the challenge itself and the interpretation it leads to. */
  lemma ChallengeOnce(s: State, leaderId: string) returns (events: seq<Event>, t: State)
    requires Ready(s, TerminationCheck) && Rounds(s.control.own) > 0 && KnowsHypothesis(s, leaderId)
    ensures t == Run(s, events) && OneInvocation(events) && RoleRuns(s, events) == 2
    ensures Ready(t, TerminationCheck) && KnowsHypothesis(t, leaderId)
    ensures var own := s.control.own;
            t.control.own == own.(stopKind := None, challengeRounds := own.challengeRounds + 1,
                                  reservedChallengeBudget := own.reservedChallengeBudget - 1)
  {
    var decided := Decided(ChallengeRequired(leaderId));
    var a := CheckStep(s, ChallengeRequired(leaderId));
    OneEvent(s, decided);
    var rest;
    rest, t := ChallengeAndCruise(a, leaderId);
    events := [decided] + rest;
    RunConcat(s, [decided], rest);
  }

  lemma ChallengeAndCruise(s: State, leaderId: string) returns (events: seq<Event>, t: State)
    requires Ready(s, ChallengeHypothesis(leaderId)) && KnowsHypothesis(s, leaderId)
    requires s.control.own.challengeRounds < MAX_CHALLENGE_ROUNDS && 0 < s.control.own.reservedChallengeBudget
    ensures t == Run(s, events) && OneInvocation(events) && RoleRuns(s, events) == 2
    ensures Ready(t, TerminationCheck) && KnowsHypothesis(t, leaderId)
    ensures var own := s.control.own;
            t.control.own == own.(stopKind := None, challengeRounds := own.challengeRounds + 1,
                                  reservedChallengeBudget := own.reservedChallengeBudget - 1)
  {
    var a := ChallengeNow(s, leaderId);
    OneEvent(s, FreshChallenge(s));
    t := Cruise(a);
    events := [FreshChallenge(s)] + Idles(4);
    RunConcat(s, [FreshChallenge(s)], Idles(4));
  }

  lemma OneEvent(s: State, e: Event)
    ensures Run(s, [e]) == Next(s, e) && RoleRuns(s, [e]) == if ExecutesRole(s, e) then 1 else 0
  {
    assert [e][1..] == [];
  }

  lemma KnownStaysKnown(s: State, update: seq<Hypothesis>, id: string)
    requires KnowsHypothesis(s, id)
    ensures id in Ids(HypothesisId, Upsert(HypothesisId, s.hypotheses, update))
  {
    UpsertKeepsPositions(HypothesisId, s.hypotheses, update);
    var i :| 0 <= i < |s.hypotheses| && Ids(HypothesisId, s.hypotheses)[i] == id;
    assert Ids(HypothesisId, Upsert(HypothesisId, s.hypotheses, update))[i] == id;
  }

  lemma Conclude(s: State) returns (events: seq<Event>)
    requires Ready(s, TerminationCheck)
    ensures Concluded(Run(s, events)) && OneInvocation(events) && RoleRuns(s, events) == 1
  {
    var decided := [Decided(Terminal(Ambiguous, None))];
    var a := Next(s, decided[0]);
    assert decided[1..] == [] && Run(s, decided) == a;
    var b := IdleStep(a, ProposeConclusion);
    events := decided + [Idle()];
    RunConcat(s, decided, [Idle()]);
  }

  /** Every loop-back, then every challenge round, then the conclusion. */
  lemma {:induction false} SpendEverything(s: State, leaderId: string) returns (events: seq<Event>)
    requires Ready(s, TerminationCheck) && KnowsHypothesis(s, leaderId)
    ensures Concluded(Run(s, events)) && OneInvocation(events)
    ensures RoleRuns(s, events) == Loops(s.control.own) + 2 * Rounds(s.control.own) + 1
    decreases Loops(s.control.own) + Rounds(s.control.own)
  {
    if Loops(s.control.own) == 0 && Rounds(s.control.own) == 0 {
      events := Conclude(s);
    } else {
      var first, t;
      if Loops(s.control.own) > 0 {
        first, t := LoopBack(s);
      } else {
        first, t := ChallengeOnce(s, leaderId);
      }
      var rest := SpendEverything(t, leaderId);
      events := first + rest;
      RunConcat(s, first, rest);
    }
  }

  /** From the first node to the first termination check: a leader generated, one iteration, two role executions. */
  lemma OpenInvestigation(s: State, leader: Hypothesis) returns (events: seq<Event>, t: State)
    requires Ready(s, NormalizeIncident) && s.control.own.iterationsUsed < MAX_SAFE_INTEGER
    ensures t == Run(s, events) && OneInvocation(events) && RoleRuns(s, events) == 2
    ensures Ready(t, TerminationCheck) && KnowsHypothesis(t, leader.id)
    ensures t.control.own == s.control.own.(iterationsUsed := s.control.own.iterationsUsed + 1)
  {
    var a := OpenTwo(s);
    var rest;
    rest, t := Generate(a, leader);
    events := Idles(2) + rest;
    RunConcat(s, Idles(2), rest);
  }

  /** The two nodes before the first role. */
  lemma OpenTwo(s: State) returns (t: State)
    requires Ready(s, NormalizeIncident)
    ensures t == Run(s, Idles(2)) && RoleRuns(s, Idles(2)) == 0
    ensures Ready(t, GenerateHypotheses) && t.control.own == s.control.own
  {
    var a := IdleStep(s, NormalizeIncident);
    t := IdleStep(a, CollectBaseline);
    assert Idles(2) == [Idle()] + [Idle()];
    RunConcat(s, [Idle()], [Idle()]);
  }

  lemma Generate(s: State, leader: Hypothesis) returns (events: seq<Event>, t: State)
    requires Ready(s, GenerateHypotheses) && s.control.own.iterationsUsed < MAX_SAFE_INTEGER
    ensures t == Run(s, events) && OneInvocation(events) && RoleRuns(s, events) == 2
    ensures Ready(t, TerminationCheck) && KnowsHypothesis(t, leader.id)
    ensures t.control.own == s.control.own.(iterationsUsed := s.control.own.iterationsUsed + 1)
  {
    var c := GenerateOnly(s, leader);
    t := DeriveAndIterate(c);
    RunConcat(s, [Generated(leader)], [Idle()] + Idles(5));
    events := [Generated(leader)] + ([Idle()] + Idles(5));
  }

  lemma DeriveAndIterate(s: State) returns (t: State)
    requires Ready(s, DerivePredictions) && s.control.own.iterationsUsed < MAX_SAFE_INTEGER
    ensures t == Run(s, [Idle()] + Idles(5)) && Ready(t, TerminationCheck) && SameChannels(s, t)
    ensures t.control.own == s.control.own.(iterationsUsed := s.control.own.iterationsUsed + 1)
    ensures RoleRuns(s, [Idle()] + Idles(5)) == 1
  {
    var a := IdleStep(s, DerivePredictions);
    t := Iterate(a);
    RunConcat(s, [Idle()], Idles(5));
  }

  /** Generating a hypothesis. */
  function Generated(leader: Hypothesis): Event {
    NodeRan(Returns(None, Undeclared, [leader], []))
  }

  lemma GenerateOnly(s: State, leader: Hypothesis) returns (c: State)
    requires Ready(s, GenerateHypotheses)
    ensures c == Run(s, [Generated(leader)]) && RoleRuns(s, [Generated(leader)]) == 1
    ensures Ready(c, DerivePredictions) && KnowsHypothesis(c, leader.id) && c.control.own == s.control.own
  {
    var ret := Returns(None, Undeclared, [leader], []);
    NodeAccounts(s, ret);
    c := NodeStep(s, ret);
    OneEvent(s, NodeRan(ret));
    LeaderIsKnown(s.hypotheses, leader);
  }

  /** The bound of RoleRunsBounded is reached from every accepted start, by a run that concludes where any can. */
  lemma BoundIsReached(control: Control, threadId: Option<string>, hypotheses: seq<Hypothesis>, tests: seq<Test>)
    returns (events: seq<Event>)
    requires StartAccepted(control, threadId)
    ensures OneInvocation(events)
    ensures RoleRuns(Begin(control, threadId, hypotheses, tests), events) == RoleBound(control.own)
    ensures ChallengeCountersOk(control.own) && control.own.iterationsUsed < MAX_SAFE_INTEGER ==>
              Concluded(Run(Begin(control, threadId, hypotheses, tests), events))
  {
    var s := Begin(control, threadId, hypotheses, tests);
    if !ChallengeCountersOk(control.own) {
      events := [];
    } else if control.own.iterationsUsed >= MAX_SAFE_INTEGER {
      events := GenerateAndStop(s);
    } else {
      var opening, t := OpenInvestigation(s, Hypothesis("h", Initial, ""));
      var rest := SpendEverything(t, "h");
      events := opening + rest;
      RunConcat(s, opening, rest);
    }
  }

  /** Three nodes, the last of them a role. */
  lemma GenerateAndStop(s: State) returns (events: seq<Event>)
    requires Ready(s, NormalizeIncident)
    ensures OneInvocation(events) && RoleRuns(s, events) == 1
  {
    var a := OpenTwo(s);
    var b := IdleStep(a, GenerateHypotheses);
    events := Idles(2) + [Idle()];
    RunConcat(s, Idles(2), [Idle()]);
  }

  lemma LeaderIsKnown(hypotheses: seq<Hypothesis>, leader: Hypothesis)
    ensures leader.id in Ids(HypothesisId, Upsert(HypothesisId, hypotheses, [leader]))
  {
    var merged := Upsert(HypothesisId, hypotheses, [leader]);
    LookupAfterUpsert(HypothesisId, hypotheses, [leader], leader.id);
    assert Lookup(HypothesisId, [leader], leader.id).Some?;
    var k := LastIndex(HypothesisId, merged, leader.id);
    assert Ids(HypothesisId, merged)[k] == leader.id;
  }

  // ---- The published ceiling --------------------------------------------------------------------------------------

  /** LIVE_MODEL_LANE_GRAPH_MODEL_CALLS_PER_RUN for a budget policy. */
  function PublishedCeiling(maxIterations: nat, reservedChallengeBudget: nat): nat {
    1 + maxIterations + 2 * reservedChallengeBudget + 1
  }

  /** A start as the benchmark makes it: this policy, nothing spent, no human. */
  predicate BenchmarkStart(control: Control, maxIterations: nat, reservedChallengeBudget: nat) {
    && control.own.maxIterations == maxIterations && control.own.reservedChallengeBudget == reservedChallengeBudget
    && control.own.iterationsUsed == 0 && control.own.challengeRounds == 0 && !control.own.humanReview
  }

  ghost predicate CeilingHolds(maxIterations: nat, reservedChallengeBudget: nat) {
    forall control, threadId, hypotheses, tests, events ::
      StartAccepted(control, threadId) && BenchmarkStart(control, maxIterations, reservedChallengeBudget)
      && OneInvocation(events) ==>
        RoleRuns(Begin(control, threadId, hypotheses, tests), events)
        <= PublishedCeiling(maxIterations, reservedChallengeBudget)
  }

  /**
    The ceiling assumes an iteration per unit of budget, but a run always plans once: with no iteration budget and a
    reserve the round cap does not cut, a run can execute one role more than published.
   */
  lemma CeilingSoundness(maxIterations: nat, reservedChallengeBudget: nat)
    requires IsCount(maxIterations) && IsCount(reservedChallengeBudget)
    ensures CeilingHolds(maxIterations, reservedChallengeBudget)
            <==> maxIterations >= 1 || reservedChallengeBudget >= 3
  {
    if maxIterations >= 1 || reservedChallengeBudget >= 3 {
      forall control, threadId, hypotheses, tests, events |
        StartAccepted(control, threadId) && BenchmarkStart(control, maxIterations, reservedChallengeBudget)
        && OneInvocation(events)
        ensures RoleRuns(Begin(control, threadId, hypotheses, tests), events)
                <= PublishedCeiling(maxIterations, reservedChallengeBudget)
      {
        RoleRunsBounded(control, threadId, hypotheses, tests, events);
      }
    } else {
      var control := Control(
        Owned(None, "run", false, 0, reservedChallengeBudget, 0, 1, 0, 0, 0),
        map[NodeField("schemaVersion") := Number(INCIDENT_STATE_SCHEMA_VERSION),
            NodeField("statusRulesVersion") := Text(STATUS_RULES_VERSION)]);
      var events := BoundIsReached(control, None, [], []);
      assert RoleRuns(Begin(control, None, [], []), events) > PublishedCeiling(maxIterations, reservedChallengeBudget);
    }
  }
}
