/**
  A tool trial that survives crashes: packages/graph/src/index.ts over the commit-once port of
  packages/persistence/src/run-write-context.ts.

  Processes start, crash, lose and take over the run in any order. Each fenced transaction is one step, and may roll
  back or land with its answer lost.
 */
module DurableRunner {
  import opened Wrappers
  import opened Contracts
  import opened Reducers
  import opened TrialEvidence

  datatype Job = Job(runId: string, testId: string, tool: string, input: string)

  const ATTEMPT := 1

  datatype Supplied = NoProvenance | GoodProvenance(text: string) | BadProvenance

  /** What executeInvestigation answers; a part that fails its schema is None. */
  datatype Executed = Executed(status: Option<TrialStatus>, durationMs: Option<int>, body: Option<string>,
                               ownProvenance: bool, payloadFingerprint: string, provenance: Supplied)

  function TrialIdOf(job: Job): Id {
    TrialOf(job.runId, job.testId, ATTEMPT)
  }

  /** recordsOf: the trial and its evidence, or None where the code throws. */
  function RecordsOf(job: Job, x: Executed): Option<(Trial, Item)> {
    if x.ownProvenance || x.provenance.BadProvenance? || x.body.None? || x.status.None? || x.durationMs.None? then None
    else
      var evidenceId := EvidenceOf(TrialIdOf(job), x.payloadFingerprint);
      Some((Trial(TrialIdOf(job), job.runId, job.testId, ATTEMPT, job.tool, job.input, x.status.value,
                  x.durationMs.value,
                  [evidenceId]),
            Item(evidenceId, TrialIdOf(job), x.body.value,
                 if x.provenance.GoodProvenance? then Some(x.provenance.text) else None)))
  }

  /** The answer can be recorded: its three parts are well formed and its provenance, if any, is beside its evidence. */
  predicate Recordable(x: Executed) {
    x.status.Some? && x.durationMs.Some? && x.body.Some? && !x.ownProvenance && x.provenance != BadProvenance
  }

  /** The trial of the job's first attempt, with what was executed and one piece of evidence. */
  predicate IsTrialOf(job: Job, x: Executed, t: Trial) {
    && t.id == TrialOf(job.runId, job.testId, 1) && t.attempt == 1
    && t.runId == job.runId && t.testId == job.testId && t.tool == job.tool && t.input == job.input
    && Some(t.status) == x.status && Some(t.durationMs) == x.durationMs
    && t.evidenceIds == [EvidenceOf(t.id, x.payloadFingerprint)]
  }

  /** The evidence the trial names, with its body and its provenance as they were given. */
  predicate IsItemOf(job: Job, x: Executed, e: Item) {
    && e.trialId == TrialOf(job.runId, job.testId, 1) && e.id == EvidenceOf(e.trialId, x.payloadFingerprint)
    && Some(e.body) == x.body
    && (x.provenance == NoProvenance ==> e.provenance == None)
    && (x.provenance.GoodProvenance? ==> e.provenance == Some(x.provenance.text))
  }

  /** recordsOf throws exactly on what cannot be recorded, and its records are the job's and the answer's. */
  lemma RecordsByFields(job: Job, x: Executed)
    ensures RecordsOf(job, x).Some? <==> Recordable(x)
    ensures RecordsOf(job, x).Some? ==>
              IsTrialOf(job, x, RecordsOf(job, x).value.0) && IsItemOf(job, x, RecordsOf(job, x).value.1)
  {}

  datatype Channels = Channels(trials: seq<Trial>, evidence: seq<Item>)

  const EMPTY := Channels([], [])

  function Merged(c: Channels, records: (Trial, Item)): Channels {
    Channels(Upsert(TrialId, c.trials, [records.0]), Upsert(ItemId, c.evidence, [records.1]))
  }

  datatype RunResult = RunResult(runId: string, threadId: string, trials: seq<Trial>, evidence: seq<Item>,
                                 logicalBudgetUsed: nat)

  function ToResult(job: Job, c: Channels): RunResult {
    RunResult(job.runId, job.runId, c.trials, c.evidence, |set t | t in c.trials :: t.id|)
  }

  /** The budget used counts each trial id once: a trial adds to it exactly when its id is new. */
  lemma BudgetCountsTrials(job: Job, c: Channels, t: Trial)
    ensures ToResult(job, EMPTY).logicalBudgetUsed == 0
    ensures ToResult(job, c.(trials := c.trials + [t])).logicalBudgetUsed
            == ToResult(job, c).logicalBudgetUsed + if exists u :: u in c.trials && u.id == t.id then 0 else 1
  {
    var ids := set u | u in c.trials :: u.id;
    var more := set u | u in c.trials + [t] :: u.id;
    assert more == ids + {t.id};
    if u :| u in c.trials && u.id == t.id {
      assert t.id in ids && more == ids;
    } else {
      assert t.id !in ids && |more| == |ids| + 1;
    }
  }

  // ---- The world --------------------------------------------------------------------------------------------------

  datatype Phase =
    | Peeking
    | Missing
    | Calling
    | Committing(executed: Executed)
    | Holding(committed: Executed)
    | Finished(result: RunResult)
    | Failed
    | Crashed

  datatype Process = Process(phase: Phase, channels: Channels)

  /** stored is the committed row of the trial's exec key; trials and evidence are the projected tables. */
  datatype World = World(holder: Option<nat>, procs: seq<Process>, stored: Option<Executed>, trials: map<Id, Trial>,
                         evidence: map<Id, Item>, saved: Option<Channels>)

  const START := World(None, [], None, map[], map[], None)

  datatype Txn = Acknowledged | RolledBack | AnswerLost

  datatype Move =
    | Spawn(resume: bool)
    | Lapse
    | Peek(p: nat, answered: bool)
    | Call(p: nat)
    | CallEnds(p: nat, answer: Option<Executed>)
    | Commit(p: nat, txn: Txn)
    | Save(p: nat, kept: bool)
    | Crash(p: nat)

  predicate Stopped(phase: Phase) {
    phase.Finished? || phase.Failed? || phase.Crashed?
  }

  predicate Enabled(w: World, m: Move) {
    match m
    case Spawn(_) => true
    case Lapse => true
    case Peek(p, _) => p < |w.procs| && w.procs[p].phase.Peeking?
    case Call(p) => p < |w.procs| && w.procs[p].phase.Missing?
    case CallEnds(p, _) => p < |w.procs| && w.procs[p].phase.Calling?
    case Commit(p, _) => p < |w.procs| && w.procs[p].phase.Committing?
    case Save(p, _) => p < |w.procs| && w.procs[p].phase.Holding?
    case Crash(p) => p < |w.procs| && !Stopped(w.procs[p].phase)
  }

  function Enter(w: World, p: nat, phase: Phase): World
    requires p < |w.procs|
  {
    w.(procs := w.procs[p := w.procs[p].(phase := phase)])
  }

  /** INSERT … ON CONFLICT DO NOTHING. */
  function InsertNew<T>(rows: map<Id, T>, id: Id, row: T): map<Id, T> {
    if id in rows then rows else rows[id := row]
  }

  /** The second transaction of committed, once the fence has let it in and unless it rolls back. */
  function Committed(w: World, job: Job, p: nat, executed: Executed, txn: Txn): World
    requires p < |w.procs|
  {
    match w.stored
    case Some(stored) =>
      Enter(w, p, if stored == executed && txn.Acknowledged? then Holding(stored) else Failed)
    case None =>
      match RecordsOf(job, executed)
      case None => Enter(w, p, Failed)
      case Some(records) =>
        Enter(w, p, if txn.Acknowledged? then Holding(executed) else Failed)
          .(stored := Some(executed), trials := InsertNew(w.trials, records.0.id, records.0),
            evidence := InsertNew(w.evidence, records.1.id, records.1))
  }

  function Next(w: World, job: Job, m: Move): World
    requires Enabled(w, m)
  {
    match m
    case Spawn(resume) =>
      var channels := if w.saved.Some? then w.saved.value else EMPTY;
      var phase := if resume && w.saved.Some? then Finished(ToResult(job, channels)) else Peeking;
      w.(holder := Some(|w.procs|), procs := w.procs + [Process(phase, channels)])
    case Lapse => w.(holder := None)
    case Peek(p, answered) =>
      Enter(w, p, if !answered || w.holder != Some(p) then Failed
                  else if w.stored.Some? then Holding(w.stored.value) else Missing)
    case Call(p) => Enter(w, p, Calling)
    case CallEnds(p, answer) =>
      Enter(w, p, if answer.None? || RecordsOf(job, answer.value).None? then Failed else Committing(answer.value))
    case Commit(p, txn) =>
      if txn.RolledBack? || w.holder != Some(p) then Enter(w, p, Failed)
      else Committed(w, job, p, w.procs[p].phase.executed, txn)
    case Save(p, kept) =>
      var records := RecordsOf(job, w.procs[p].phase.committed);
      if !kept || records.None? then Enter(w, p, Failed)
      else
        var channels := Merged(w.procs[p].channels, records.value);
        Enter(w, p, Finished(ToResult(job, channels))).(saved := Some(channels))
    case Crash(p) => Enter(w, p, Crashed)
  }

  /** The moves lead from the first world to the last. */
  ghost predicate Path(job: Job, states: seq<World>, moves: seq<Move>) {
    && |states| == |moves| + 1
    && forall i :: 0 <= i < |moves| ==> Enabled(states[i], moves[i]) && states[i + 1] == Next(states[i], job, moves[i])
  }

  ghost predicate Run(job: Job, states: seq<World>, moves: seq<Move>) {
    Path(job, states, moves) && states[0] == START
  }

  // ---- The code as a run ------------------------------------------------------------------------------------------

  predicate Touches(m: Move, p: nat) {
    !m.Spawn? && !m.Lapse? && m.p == p
  }

  /** What the environment decides for one process: what happens around each of its effects, and how each ends. */
  datatype Environment = Environment(others: seq<seq<Move>>, peekAnswered: bool, answer: Option<Executed>, txn: Txn,
                                     kept: bool)

  function Others(env: Environment, n: nat): seq<Move> {
    if n < |env.others| then env.others[n] else []
  }

  class Runner {
    const job: Job
    var world: World
    ghost var states: seq<World>
    ghost var moves: seq<Move>

    ghost predicate Valid()
      reads this
    {
      Run(job, states, moves) && states[|moves|] == world
    }

    /** The process is in this phase, and the history has only grown. */
    ghost predicate At(p: nat, phase: Phase, before: seq<Move>)
      reads this
    {
      Valid() && before <= moves && p < |world.procs| && world.procs[p].phase == phase
    }

    constructor (job: Job)
      ensures Valid() && this.job == job && world == START
    {
      this.job, world, states, moves := job, START, [START], [];
    }

    method Take(m: Move)
      requires Valid() && Enabled(world, m)
      modifies this
      ensures Valid() && world == Next(old(world), job, m) && moves == old(moves) + [m]
    {
      world := Next(world, job, m);
      states, moves := states + [world], moves + [m];
    }

    /** The rest of the world moves; a move that is not possible, or is this process's own, is skipped. */
    method LetOthersMove(p: nat, schedule: seq<Move>)
      requires Valid() && p < |world.procs|
      modifies this
      ensures At(p, old(world.procs[p].phase), old(moves))
    {
      for i := 0 to |schedule|
        invariant At(p, old(world.procs[p].phase), old(moves))
      {
        if Enabled(world, schedule[i]) && !Touches(schedule[i], p) { Take(schedule[i]); }
      }
    }

    /** call: the investigation, and recordsOf before its answer may be committed. */
    method CallInvestigation(p: nat, env: Environment) returns (executed: Option<Executed>)
      requires Valid() && p < |world.procs| && world.procs[p].phase.Missing?
      modifies this
      ensures At(p, if executed.None? then Failed else Committing(executed.value), old(moves))
    {
      Take(Call(p));
      LetOthersMove(p, Others(env, 1));
      Take(CallEnds(p, env.answer));
      if env.answer.None? || RecordsOf(job, env.answer.value).None? { return None; }
      return env.answer;
    }

    /** The port's committed: peek, call when there is nothing, commit. */
    method CommittedOnce(p: nat, env: Environment) returns (value: Option<Executed>)
      requires Valid() && p < |world.procs| && world.procs[p].phase.Peeking?
      modifies this
      ensures At(p, if value.None? then Failed else Holding(value.value), old(moves))
    {
      Take(Peek(p, env.peekAnswered));
      if world.procs[p].phase.Failed? { return None; }
      if world.procs[p].phase.Holding? { return Some(world.procs[p].phase.committed); }
      LetOthersMove(p, Others(env, 0));
      var executed := CallInvestigation(p, env);
      if executed.None? { return None; }
      LetOthersMove(p, Others(env, 2));
      Take(Commit(p, env.txn));
      return if world.procs[p].phase.Holding? then Some(world.procs[p].phase.committed) else None;
    }

    /** start and resume: the one node of the graph between two checkpoints. */
    method Invoke(resume: bool, env: Environment) returns (p: nat, result: Option<RunResult>)
      requires Valid()
      modifies this
      ensures p == old(|world.procs|)
      ensures At(p, if result.None? then Failed else Finished(result.value), old(moves))
    {
      p := |world.procs|;
      Take(Spawn(resume));
      if world.procs[p].phase.Finished? { return p, Some(world.procs[p].phase.result); }
      var value := CommittedOnce(p, env);
      if value.None? { return p, None; }
      LetOthersMove(p, Others(env, 3));
      Take(Save(p, env.kept));
      return p, if world.procs[p].phase.Finished? then Some(world.procs[p].phase.result) else None;
    }
  }

  // ---- What every reachable world keeps ---------------------------------------------------------------------------

  /** The channels a run with this committed result ends with. */
  function Settled(job: Job, x: Executed): Channels
    requires RecordsOf(job, x).Some?
  {
    var records := RecordsOf(job, x).value;
    Channels([records.0], [records.1])
  }

  ghost predicate TablesInv(w: World, job: Job) {
    match w.stored
    case None => w.trials == map[] && w.evidence == map[] && w.saved.None?
    case Some(x) =>
      && RecordsOf(job, x).Some?
      && var records := RecordsOf(job, x).value;
         && w.trials == map[records.0.id := records.0] && w.evidence == map[records.1.id := records.1]
         && (w.saved.Some? ==> w.saved.value == Settled(job, x))
  }

  ghost predicate ProcessInv(w: World, job: Job, proc: Process)
    requires TablesInv(w, job)
  {
    && (proc.channels == EMPTY || (w.stored.Some? && proc.channels == Settled(job, w.stored.value)))
    && (proc.phase.Committing? ==> RecordsOf(job, proc.phase.executed).Some?)
    && (proc.phase.Holding? ==> w.stored == Some(proc.phase.committed))
    && (proc.phase.Finished? ==> w.stored.Some? && proc.phase.result == ToResult(job, Settled(job, w.stored.value)))
  }

  ghost predicate Inv(w: World, job: Job) {
    && TablesInv(w, job)
    && forall p :: 0 <= p < |w.procs| ==> ProcessInv(w, job, w.procs[p])
  }

  lemma MergedIsSettled(job: Job, x: Executed, c: Channels)
    requires RecordsOf(job, x).Some? && (c == EMPTY || c == Settled(job, x))
    ensures Merged(c, RecordsOf(job, x).value) == Settled(job, x)
  {
    var records := RecordsOf(job, x).value;
    UpsertSnoc(TrialId, c.trials, [records.0], 0);
    UpsertSnoc(ItemId, c.evidence, [records.1], 0);
    assert [records.0][..0] == [] && [records.0][..1] == [records.0];
    assert [records.1][..0] == [] && [records.1][..1] == [records.1];
    assert LastIndex(TrialId, c.trials, records.0.id) == |c.trials| - 1;
    assert LastIndex(ItemId, c.evidence, records.1.id) == |c.evidence| - 1;
  }

  lemma MoveKeepsTables(w: World, job: Job, m: Move)
    requires Inv(w, job) && Enabled(w, m)
    ensures TablesInv(Next(w, job, m), job)
    ensures w.stored.Some? ==> Next(w, job, m).stored == w.stored
  {
    if m.Save? {
      var proc := w.procs[m.p];
      assert ProcessInv(w, job, proc);
      MergedIsSettled(job, proc.phase.committed, proc.channels);
    }
  }

  lemma OthersMoveKeepsProcess(w: World, job: Job, m: Move, p: nat)
    requires Inv(w, job) && Enabled(w, m) && p < |w.procs| && !Touches(m, p)
    requires TablesInv(Next(w, job, m), job) && (w.stored.Some? ==> Next(w, job, m).stored == w.stored)
    ensures ProcessInv(Next(w, job, m), job, Next(w, job, m).procs[p])
  {
    assert ProcessInv(w, job, w.procs[p]);
    assert Next(w, job, m).procs[p] == w.procs[p];
  }

  lemma OwnMoveKeepsProcess(w: World, job: Job, m: Move, p: nat)
    requires Inv(w, job) && Enabled(w, m) && p < |w.procs| && Touches(m, p)
    requires TablesInv(Next(w, job, m), job) && (w.stored.Some? ==> Next(w, job, m).stored == w.stored)
    ensures ProcessInv(Next(w, job, m), job, Next(w, job, m).procs[p])
  {
    assert ProcessInv(w, job, w.procs[p]);
    if m.Save? { MergedIsSettled(job, w.procs[p].phase.committed, w.procs[p].channels); }
  }

  lemma MoveKeepsProcess(w: World, job: Job, m: Move, p: nat)
    requires Inv(w, job) && Enabled(w, m) && p < |Next(w, job, m).procs|
    requires TablesInv(Next(w, job, m), job) && (w.stored.Some? ==> Next(w, job, m).stored == w.stored)
    ensures ProcessInv(Next(w, job, m), job, Next(w, job, m).procs[p])
  {
    if p < |w.procs| {
      if Touches(m, p) { OwnMoveKeepsProcess(w, job, m, p); } else { OthersMoveKeepsProcess(w, job, m, p); }
    }
  }

  lemma MoveKeepsInv(w: World, job: Job, m: Move)
    requires Inv(w, job) && Enabled(w, m)
    ensures Inv(Next(w, job, m), job)
    ensures w.stored.Some? ==> Next(w, job, m).stored == w.stored
  {
    MoveKeepsTables(w, job, m);
    forall p: nat | p < |Next(w, job, m).procs|
      ensures ProcessInv(Next(w, job, m), job, Next(w, job, m).procs[p])
    {
      MoveKeepsProcess(w, job, m, p);
    }
  }

  lemma {:induction false} RunKeepsInv(job: Job, states: seq<World>, moves: seq<Move>, n: nat)
    requires Run(job, states, moves) && n < |states|
    ensures Inv(states[n], job)
  {
    if n > 0 {
      RunKeepsInv(job, states, moves, n - 1);
      MoveKeepsInv(states[n - 1], job, moves[n - 1]);
    }
  }

  /** A committed result is never replaced. */
  lemma {:induction false} CommittedForever(job: Job, states: seq<World>, moves: seq<Move>, i: nat, n: nat)
    requires Run(job, states, moves) && i <= n < |states| && states[i].stored.Some?
    ensures states[n].stored == states[i].stored
    decreases n
  {
    if i < n {
      CommittedForever(job, states, moves, i, n - 1);
      RunKeepsInv(job, states, moves, n - 1);
      MoveKeepsInv(states[n - 1], job, moves[n - 1]);
    }
  }

  /** Only what can be recorded is ever committed, and the projected rows are its trial and its evidence. */
  lemma OnlyGoodResultsAreCommitted(job: Job, states: seq<World>, moves: seq<Move>, n: nat)
    requires Run(job, states, moves) && n < |states| && states[n].stored.Some?
    ensures var w, x := states[n], states[n].stored.value;
            && Recordable(x)
            && |w.trials| == 1
            && (forall id :: id in w.trials ==> w.trials[id].id == id && IsTrialOf(job, x, w.trials[id]))
            && |w.evidence| == 1
            && (forall id :: id in w.evidence ==> w.evidence[id].id == id && IsItemOf(job, x, w.evidence[id]))
  {
    RunKeepsInv(job, states, moves, n);
    RecordsByFields(job, states[n].stored.value);
  }

  /**
    However the processes are scheduled, crashed and resumed, every one that finishes answers the same: one trial and
    its one piece of evidence, budget used one, and nothing inconsistent between them.
   */
  lemma FinishesTheSame(job: Job, states: seq<World>, moves: seq<Move>, i: nat, p: nat, j: nat, q: nat)
    requires Run(job, states, moves) && i <= j < |states| && p < |states[i].procs| && q < |states[j].procs|
    requires states[i].procs[p].phase.Finished? && states[j].procs[q].phase.Finished?
    ensures var r := states[i].procs[p].phase.result;
            && states[j].procs[q].phase.result == r
            && |r.trials| == |r.evidence| == r.logicalBudgetUsed == 1
            && r.runId == job.runId && r.threadId == job.runId
            && states[i].stored.Some?
            && IsTrialOf(job, states[i].stored.value, r.trials[0])
            && IsItemOf(job, states[i].stored.value, r.evidence[0])
            && forall v :: !Commits(r.trials, r.evidence, v)
  {
    RunKeepsInv(job, states, moves, i);
    RunKeepsInv(job, states, moves, j);
    assert ProcessInv(states[i], job, states[i].procs[p]) && ProcessInv(states[j], job, states[j].procs[q]);
    CommittedForever(job, states, moves, i, j);
    SettledIsConsistent(job, states[i].stored.value);
    RecordsByFields(job, states[i].stored.value);
  }

  lemma SettledIsConsistent(job: Job, x: Executed)
    requires RecordsOf(job, x).Some?
    ensures var r := ToResult(job, Settled(job, x));
            r.logicalBudgetUsed == 1 && forall v :: !Commits(r.trials, r.evidence, v)
  {
    var c := Settled(job, x);
    assert (set t | t in c.trials :: t.id) == {TrialIdOf(job)};
    assert c.trials[0] in c.trials && c.evidence[0] in c.evidence;
    assert Consistent(c.trials, c.evidence);
    NoViolationsMeansConsistent(c.trials, c.evidence);
  }

  // ---- When the investigation is called ---------------------------------------------------------------------------

  /** The i-th move calls the investigation though a result is committed. */
  ghost predicate CallsLate(states: seq<World>, moves: seq<Move>, i: nat)
    requires |states| == |moves| + 1
  {
    i < |moves| && moves[i].Call? && states[i].stored.Some?
  }

  predicate NoSpawn(moves: seq<Move>) {
    forall i :: 0 <= i < |moves| ==> !moves[i].Spawn?
  }

  /** A process has asked the port, found nothing and not called yet. */
  predicate IsMissing(w: World, p: nat) {
    p < |w.procs| && w.procs[p].phase.Missing?
  }

  predicate NoneMissing(w: World) {
    forall p: nat :: p < |w.procs| ==> !IsMissing(w, p)
  }

  /**
    Takeovers wait: while nothing is committed, a process starts only when none is between its question to the port and
    its call. That is a phase inside a process; what can be seen from outside is that a process has stopped, and
    starting one only when every earlier one has stopped is enough (OneAtATimeWaits).
   */
  ghost predicate TakeoversWait(states: seq<World>, moves: seq<Move>)
    requires |states| == |moves| + 1
  {
    forall i :: 0 <= i < |moves| && moves[i].Spawn? && states[i].stored.None? ==> NoneMissing(states[i])
  }

  /** Whoever is about to call holds the run, or nobody does, and nothing is committed. */
  ghost predicate CallersAreAlone(w: World) {
    forall p: nat :: p < |w.procs| && IsMissing(w, p) ==> w.stored.None? && (w.holder == Some(p) || w.holder.None?)
  }

  lemma WaitingKeepsCallersAlone(w: World, job: Job, m: Move)
    requires CallersAreAlone(w) && Enabled(w, m)
    requires m.Spawn? && w.stored.None? ==> NoneMissing(w)
    ensures CallersAreAlone(Next(w, job, m))
  {
    var w' := Next(w, job, m);
    forall p: nat | p < |w'.procs| && IsMissing(w', p)
      ensures w'.stored.None? && (w'.holder == Some(p) || w'.holder.None?)
    {
      if p < |w.procs| && !m.Peek? { assert IsMissing(w, p); }
      if p < |w.procs| && m.Peek? && m.p != p { assert IsMissing(w, p); }
    }
  }

  lemma {:induction false} WaitingRunsAreAlone(job: Job, states: seq<World>, moves: seq<Move>, n: nat)
    requires Run(job, states, moves) && TakeoversWait(states, moves) && n < |states|
    ensures CallersAreAlone(states[n])
  {
    if n > 0 {
      WaitingRunsAreAlone(job, states, moves, n - 1);
      WaitingKeepsCallersAlone(states[n - 1], job, moves[n - 1]);
    }
  }

  /** However processes crash, resume and overlap: if takeovers wait, no call is made once a result is committed. */
  lemma NeverCalledAfterCommit(job: Job, states: seq<World>, moves: seq<Move>, i: nat)
    requires Run(job, states, moves) && TakeoversWait(states, moves)
    ensures !CallsLate(states, moves, i)
  {
    if i < |moves| && moves[i].Call? {
      WaitingRunsAreAlone(job, states, moves, i);
      assert IsMissing(states[i], moves[i].p);
    }
  }

  predicate AllStopped(w: World) {
    forall p :: 0 <= p < |w.procs| ==> Stopped(w.procs[p].phase)
  }

  /** One process at a time, each started when every earlier one has stopped, is a schedule whose takeovers wait. */
  lemma OneAtATimeWaits(states: seq<World>, moves: seq<Move>)
    requires |states| == |moves| + 1
    requires forall i :: 0 <= i < |moves| && moves[i].Spawn? ==> AllStopped(states[i])
    ensures TakeoversWait(states, moves)
  {}

  // ---- And only then ----------------------------------------------------------------------------------------------

  lemma PathExtends(job: Job, states: seq<World>, moves: seq<Move>, m: Move)
    returns (states': seq<World>, moves': seq<Move>)
    requires Path(job, states, moves) && Enabled(states[|moves|], m)
    ensures Path(job, states', moves') && moves' == moves + [m] && states' == states + [Next(states[|moves|], job, m)]
  {
    states', moves' := states + [Next(states[|moves|], job, m)], moves + [m];
  }

  lemma PathsJoin(job: Job, states: seq<World>, moves: seq<Move>, states': seq<World>, moves': seq<Move>)
    requires Path(job, states, moves) && Path(job, states', moves') && states[|moves|] == states'[0]
    ensures Path(job, states[..|moves|] + states', moves + moves')
  {
    var all, ms := states[..|moves|] + states', moves + moves';
    forall i | 0 <= i < |ms|
      ensures Enabled(all[i], ms[i]) && all[i + 1] == Next(all[i], job, ms[i])
    {
      if i < |moves| {
        assert all[i] == states[i] && all[i + 1] == states[i + 1];
      } else {
        assert all[i] == states'[i - |moves|] && all[i + 1] == states'[i - |moves| + 1];
      }
    }
  }

  /** w' is w after moves of process q alone. */
  predicate OnlyMoved(w: World, w': World, q: nat) {
    && |w'.procs| == |w.procs| && w'.holder == w.holder
    && forall p :: 0 <= p < |w.procs| && p != q ==> w'.procs[p] == w.procs[p]
  }

  /** The owner's question to the port and the call it leads to. */
  lemma OwnerCalls(job: Job, w: World, q: nat, x: Executed) returns (states: seq<World>, moves: seq<Move>)
    requires w.stored.None? && q < |w.procs| && w.procs[q].phase.Peeking? && w.holder == Some(q)
    requires RecordsOf(job, x).Some?
    ensures Path(job, states, moves) && states[0] == w && |moves| == 3 && NoSpawn(moves)
    ensures var w' := states[|moves|]; OnlyMoved(w, w', q) && w'.stored.None? && w'.procs[q].phase == Committing(x)
  {
    states, moves := [w], [];
    states, moves := PathExtends(job, states, moves, Peek(q, true));
    states, moves := PathExtends(job, states, moves, Call(q));
    states, moves := PathExtends(job, states, moves, CallEnds(q, Some(x)));
  }

  /** An owner left alone commits. */
  lemma OwnerCommits(job: Job, w: World, q: nat, x: Executed) returns (states: seq<World>, moves: seq<Move>)
    requires w.stored.None? && q < |w.procs| && w.procs[q].phase.Peeking? && w.holder == Some(q)
    requires RecordsOf(job, x).Some?
    ensures Path(job, states, moves) && states[0] == w && NoSpawn(moves)
    ensures OnlyMoved(w, states[|moves|], q) && states[|moves|].stored == Some(x)
  {
    states, moves := OwnerCalls(job, w, q, x);
    states, moves := PathExtends(job, states, moves, Commit(q, Acknowledged));
  }

  /** Then a process that had asked before calls late. */
  lemma OvertakenCalls(job: Job, w: World, q: nat, p: nat, x: Executed) returns (states: seq<World>, moves: seq<Move>)
    requires w.stored.None? && q < |w.procs| && w.procs[q].phase.Peeking? && w.holder == Some(q)
    requires RecordsOf(job, x).Some? && IsMissing(w, p)
    ensures Path(job, states, moves) && states[0] == w && NoSpawn(moves)
    ensures moves != [] && moves[|moves| - 1] == Call(p) && states[|moves| - 1].stored == Some(x)
  {
    states, moves := OwnerCommits(job, w, q, x);
    states, moves := PathExtends(job, states, moves, Call(p));
  }

  /** An answer recordsOf accepts, whatever the job. */
  const SOME_ANSWER := Executed(Some(OkTrial), Some(0), Some(""), false, "", NoProvenance)

  /** A late call is possible from here without a further start. */
  ghost predicate CanCallLate(job: Job, w: World) {
    exists states: seq<World>, moves: seq<Move>, i: nat ::
      Path(job, states, moves) && states[0] == w && NoSpawn(moves) && CallsLate(states, moves, i)
  }

  lemma {:induction false} PathKeepsAlone(job: Job, states: seq<World>, moves: seq<Move>, n: nat)
    requires Path(job, states, moves) && CallersAreAlone(states[0]) && n < |states|
    requires NoSpawn(moves)
    ensures CallersAreAlone(states[n])
  {
    if n > 0 {
      PathKeepsAlone(job, states, moves, n - 1);
      WaitingKeepsCallersAlone(states[n - 1], job, moves[n - 1]);
    }
  }

  /** A process that starts while nothing is committed owns the run and asks first. */
  lemma StartJoins(w: World, job: Job, resume: bool)
    requires Inv(w, job) && w.stored.None?
    ensures var w', q := Next(w, job, Spawn(resume)), |w.procs|;
            && w'.stored.None? && |w'.procs| == q + 1 && w'.holder == Some(q) && w'.procs[q].phase.Peeking?
            && forall p: nat :: p < q ==> w'.procs[p] == w.procs[p]
  {}

  /**
    A takeover is safe exactly when it waits: while nothing is committed, starting a process makes a late call possible,
    with no further start, if and only if some process is between its question and its call.
   */
  lemma TakeoverIsSafeIffItWaits(job: Job, w: World, resume: bool)
    requires Inv(w, job) && w.stored.None?
    ensures CanCallLate(job, Next(w, job, Spawn(resume))) <==> !NoneMissing(w)
  {
    var w' := Next(w, job, Spawn(resume));
    StartJoins(w, job, resume);
    if !NoneMissing(w) {
      var p: nat :| p < |w.procs| && IsMissing(w, p);
      var states, moves := OvertakenCalls(job, w', |w.procs|, p, SOME_ANSWER);
      assert CallsLate(states, moves, |moves| - 1);
    }
    if NoneMissing(w) {
      forall p: nat | p < |w'.procs|
        ensures !IsMissing(w', p)
      {
        if p < |w.procs| { assert !IsMissing(w, p); }
      }
      AloneNeverCallsLate(job, w');
    }
  }

  lemma AloneNeverCallsLate(job: Job, w: World)
    requires CallersAreAlone(w)
    ensures !CanCallLate(job, w)
  {
    forall states: seq<World>, moves: seq<Move>, i: nat | Path(job, states, moves) && states[0] == w && NoSpawn(moves)
      ensures !CallsLate(states, moves, i)
    {
      if i < |moves| && moves[i].Call? {
        PathKeepsAlone(job, states, moves, i);
        assert IsMissing(states[i], moves[i].p);
      }
    }
  }

  /**
    Over a whole run: the takeovers wait if and only if none of its worlds is ever one from which a late call can
    come.
   */
  lemma WaitingIsExact(job: Job, states: seq<World>, moves: seq<Move>)
    requires Run(job, states, moves)
    ensures TakeoversWait(states, moves) <==> forall n :: 0 <= n < |states| ==> !CanCallLate(job, states[n])
  {
    if TakeoversWait(states, moves) {
      forall n | 0 <= n < |states|
        ensures !CanCallLate(job, states[n])
      {
        WaitingRunsAreAlone(job, states, moves, n);
        AloneNeverCallsLate(job, states[n]);
      }
    } else {
      var i :| 0 <= i < |moves| && moves[i].Spawn? && states[i].stored.None? && !NoneMissing(states[i]);
      RunKeepsInv(job, states, moves, i);
      TakeoverIsSafeIffItWaits(job, states[i], moves[i].resume);
      assert CanCallLate(job, states[i + 1]);
    }
  }

  /** Of one process: it has asked and not called, or it holds the run and has yet to ask. */
  predicate MayYetCall(w: World, p: nat) {
    p < |w.procs| && (w.procs[p].phase.Missing? || (w.procs[p].phase.Peeking? && w.holder == Some(p)))
  }

  /** Process p calls late somewhere along the path. */
  ghost predicate CallsLateAs(states: seq<World>, moves: seq<Move>, i: nat, p: nat)
    requires |states| == |moves| + 1
  {
    CallsLate(states, moves, i) && moves[i].p == p
  }

  lemma MoveGivesNoCall(w: World, job: Job, m: Move, p: nat)
    requires Enabled(w, m) && p < |w.procs| && !MayYetCall(w, p)
    ensures p < |Next(w, job, m).procs| && !MayYetCall(Next(w, job, m), p)
  {}

  lemma {:induction false} NeverMayCallAgain(job: Job, states: seq<World>, moves: seq<Move>, p: nat, n: nat)
    requires Path(job, states, moves) && n < |states| && p < |states[0].procs| && !MayYetCall(states[0], p)
    ensures p < |states[n].procs| && !MayYetCall(states[n], p)
  {
    if n > 0 {
      NeverMayCallAgain(job, states, moves, p, n - 1);
      MoveGivesNoCall(states[n - 1], job, moves[n - 1], p);
    }
  }

  /** A process that has asked is overtaken: a fresh one commits, and it calls. */
  lemma MissingCallsLate(job: Job, w: World, p: nat, x: Executed)
    returns (states: seq<World>, moves: seq<Move>, i: nat)
    requires w.stored.None? && IsMissing(w, p) && RecordsOf(job, x).Some?
    ensures Path(job, states, moves) && states[0] == w && CallsLateAs(states, moves, i, p)
    ensures states[i].stored == Some(x)
  {
    var w' := Next(w, job, Spawn(false));
    assert IsMissing(w', p);
    var later, rest := OvertakenCalls(job, w', |w.procs|, p, x);
    assert Path(job, [w, w'], [Spawn(false)]);
    PathsJoin(job, [w, w'], [Spawn(false)], later, rest);
    states, moves, i := [w, w'][..1] + later, [Spawn(false)] + rest, |rest|;
    assert states[i] == later[|rest| - 1] && moves[i] == rest[|rest| - 1];
  }

  /** While nothing is committed, exactly the processes that may yet call can come to call late. */
  lemma LateCallersAreThoseWhoMay(job: Job, w: World, p: nat)
    requires w.stored.None? && p < |w.procs|
    ensures MayYetCall(w, p) <==>
              exists states: seq<World>, moves: seq<Move>, i: nat ::
                Path(job, states, moves) && states[0] == w && CallsLateAs(states, moves, i, p)
  {
    if MayYetCall(w, p) {
      if IsMissing(w, p) {
        var states, moves, i := MissingCallsLate(job, w, p, SOME_ANSWER);
      } else {
        var w' := Next(w, job, Peek(p, true));
        var later, rest, k := MissingCallsLate(job, w', p, SOME_ANSWER);
        assert Path(job, [w, w'], [Peek(p, true)]);
        PathsJoin(job, [w, w'], [Peek(p, true)], later, rest);
        var states, moves := [w, w'][..1] + later, [Peek(p, true)] + rest;
        assert states[k + 1] == later[k] && moves[k + 1] == rest[k];
        assert CallsLateAs(states, moves, k + 1, p);
      }
    } else {
      forall states: seq<World>, moves: seq<Move>, i: nat | Path(job, states, moves) && states[0] == w && i < |moves|
        ensures moves[i] != Call(p)
      {
        NeverMayCallAgain(job, states, moves, p, i);
        assert Enabled(states[i], moves[i]);
      }
    }
  }

  predicate MayCall(phase: Phase) {
    phase.Missing? || phase.Calling? || phase.Committing?
  }

  /** A process that calls, late or not, had asked before the commit and as the owner. */
  lemma {:induction false} LateCallersAskedBefore(job: Job, states: seq<World>, moves: seq<Move>, n: nat, p: nat)
    returns (j: nat)
    requires Run(job, states, moves) && n < |states| && p < |states[n].procs| && MayCall(states[n].procs[p].phase)
    ensures j < n && moves[j] == Peek(p, true) && states[j].stored.None? && states[j].holder == Some(p)
  {
    var m := moves[n - 1];
    assert Enabled(states[n - 1], m) && states[n] == Next(states[n - 1], job, m);
    if p < |states[n - 1].procs| && MayCall(states[n - 1].procs[p].phase) {
      j := LateCallersAskedBefore(job, states, moves, n - 1, p);
    } else {
      j := n - 1;
    }
  }

  /** Such a run from the start: a process that asked, was overtaken, and went on. */
  lemma OverlappingProcessesCanCallLate(job: Job, x: Executed)
    returns (states: seq<World>, moves: seq<Move>, i: nat)
    requires RecordsOf(job, x).Some?
    ensures Run(job, states, moves) && CallsLate(states, moves, i) && states[i].stored == Some(x)
  {
    var s1 := Next(START, job, Spawn(false));
    var s2 := Next(s1, job, Peek(0, true));
    assert Path(job, [START, s1, s2], [Spawn(false), Peek(0, true)]);
    var later, rest, k := MissingCallsLate(job, s2, 0, x);
    PathsJoin(job, [START, s1, s2], [Spawn(false), Peek(0, true)], later, rest);
    states, moves, i := [START, s1, s2][..2] + later, [Spawn(false), Peek(0, true)] + rest, k + 2;
    assert states[i] == later[k] && moves[i] == rest[k];
  }

  /** From any reachable world with a committed result, a fresh process that is left alone finishes without calling. */
  lemma ReplayFinishes(job: Job, w: World)
    requires Inv(w, job) && w.stored.Some?
    ensures var p, w1 := |w.procs|, Next(w, job, Spawn(false));
            && Enabled(w1, Peek(p, true))
            && var w2 := Next(w1, job, Peek(p, true));
            && Enabled(w2, Save(p, true))
            && Next(w2, job, Save(p, true)).procs[p].phase
               == Finished(ToResult(job, Settled(job, w.stored.value)))
  {
    var channels := if w.saved.Some? then w.saved.value else EMPTY;
    MergedIsSettled(job, w.stored.value, channels);
  }

  /** A process goes on from its commit with what is committed, or fails, whichever answer the transaction gives. */
  lemma CommitHolds(w: World, job: Job, p: nat, txn: Txn)
    requires Inv(w, job) && Enabled(w, Commit(p, txn))
    ensures var w', x := Next(w, job, Commit(p, txn)), w.procs[p].phase.executed;
            && (w'.procs[p].phase == Holding(x) <==>
                  w.holder == Some(p) && txn == Acknowledged && (w.stored == None || w.stored == Some(x)))
            && (w'.procs[p].phase != Holding(x) ==> w'.procs[p].phase == Failed)
            && w'.stored == if w.stored == None && w.holder == Some(p) && txn != RolledBack then Some(x) else w.stored
  {
    assert ProcessInv(w, job, w.procs[p]);
  }

  /** A fresh process that is let in finds nothing, and asks. */
  lemma FreshProcessAsks(job: Job, w: World) returns (states: seq<World>)
    requires Inv(w, job) && w.stored.None?
    ensures var p := |w.procs|;
            && Path(job, states, [Spawn(false), Peek(p, true)]) && states[0] == w
            && Inv(states[2], job) && states[2].stored.None? && states[2].holder == Some(p)
            && p < |states[2].procs| && states[2].procs[p].phase == Missing
  {
    var w1 := Next(w, job, Spawn(false));
    MoveKeepsInv(w, job, Spawn(false));
    MoveKeepsInv(w1, job, Peek(|w.procs|, true));
    states := [w, w1, Next(w1, job, Peek(|w.procs|, true))];
  }

  /** Having asked, it calls, and commits a good answer. */
  lemma AskedProcessCommits(job: Job, w: World, p: nat, x: Executed) returns (states: seq<World>)
    requires Inv(w, job) && w.stored.None? && w.holder == Some(p) && p < |w.procs| && w.procs[p].phase == Missing
    requires Recordable(x)
    ensures Path(job, states, [Call(p), CallEnds(p, Some(x)), Commit(p, Acknowledged)]) && states[0] == w
    ensures Inv(states[3], job) && states[3].stored == Some(x)
    ensures p < |states[3].procs| && states[3].procs[p].phase == Holding(x)
  {
    RecordsByFields(job, x);
    var w1 := Next(w, job, Call(p));
    MoveKeepsInv(w, job, Call(p));
    var w2 := Next(w1, job, CallEnds(p, Some(x)));
    MoveKeepsInv(w1, job, CallEnds(p, Some(x)));
    MoveKeepsInv(w2, job, Commit(p, Acknowledged));
    CommitHolds(w2, job, p, Acknowledged);
    states := [w, w1, w2, Next(w2, job, Commit(p, Acknowledged))];
  }

  /** From any reachable world without a committed result, a process left alone with a good answer commits and ends. */
  lemma AloneFinishes(job: Job, w: World, x: Executed) returns (states: seq<World>, moves: seq<Move>)
    requires Inv(w, job) && w.stored.None? && Recordable(x)
    ensures var p := |w.procs|;
            && moves == [Spawn(false), Peek(p, true)] + [Call(p), CallEnds(p, Some(x)), Commit(p, Acknowledged)]
                        + [Save(p, true)]
            && Path(job, states, moves) && states[0] == w
            && states[6].stored == Some(x) && p < |states[6].procs|
            && states[6].procs[p].phase == Finished(ToResult(job, Settled(job, x)))
            && states[6].saved == Some(Settled(job, x))
  {
    var p := |w.procs|;
    RecordsByFields(job, x);
    var first := FreshProcessAsks(job, w);
    var later := AskedProcessCommits(job, first[2], p, x);
    var asked, called := [Spawn(false), Peek(p, true)], [Call(p), CallEnds(p, Some(x)), Commit(p, Acknowledged)];
    PathsJoin(job, first, asked, later, called);
    HoldingSaves(job, later[3], p, x);
    var last := [later[3], Next(later[3], job, Save(p, true))];
    assert Path(job, last, [Save(p, true)]);
    PathsJoin(job, first[..2] + later, asked + called, last, [Save(p, true)]);
    states, moves := (first[..2] + later)[..5] + last, asked + called + [Save(p, true)];
  }

  lemma HoldingSaves(job: Job, w: World, p: nat, x: Executed)
    requires Inv(w, job) && w.stored == Some(x) && p < |w.procs| && w.procs[p].phase == Holding(x)
    requires RecordsOf(job, x).Some?
    ensures Enabled(w, Save(p, true))
    ensures var w' := Next(w, job, Save(p, true));
            w'.stored == Some(x) && w'.saved == Some(Settled(job, x)) && |w'.procs| == |w.procs|
            && w'.procs[p].phase == Finished(ToResult(job, Settled(job, x)))
  {
    assert ProcessInv(w, job, w.procs[p]);
    MergedIsSettled(job, x, w.procs[p].channels);
  }

  /** Whoever has finished has left a checkpoint. */
  predicate FinishedLeaveOne(w: World) {
    forall p :: 0 <= p < |w.procs| && w.procs[p].phase.Finished? ==> w.saved.Some?
  }

  lemma MoveKeepsCheckpoint(w: World, job: Job, m: Move)
    requires FinishedLeaveOne(w) && Enabled(w, m)
    ensures FinishedLeaveOne(Next(w, job, m)) && (w.saved.Some? ==> Next(w, job, m).saved.Some?)
  {}

  lemma {:induction false} FinishedIsSaved(job: Job, states: seq<World>, moves: seq<Move>, n: nat)
    requires Run(job, states, moves) && n < |states|
    ensures FinishedLeaveOne(states[n])
    decreases n
  {
    if n > 0 {
      FinishedIsSaved(job, states, moves, n - 1);
      MoveKeepsCheckpoint(states[n - 1], job, moves[n - 1]);
    }
  }

  /** Once some process has finished, a resumed one answers the same at once, without asking or calling. */
  lemma ResumeAnswersAtOnce(job: Job, states: seq<World>, moves: seq<Move>, n: nat, p: nat)
    requires Run(job, states, moves) && n < |states| && p < |states[n].procs| && states[n].procs[p].phase.Finished?
    ensures var w, w' := states[n], Next(states[n], job, Spawn(true));
            |w'.procs| == |w.procs| + 1 && w'.procs[|w.procs|].phase == w.procs[p].phase
  {
    FinishedIsSaved(job, states, moves, n);
    RunKeepsInv(job, states, moves, n);
    assert ProcessInv(states[n], job, states[n].procs[p]);
  }
}
