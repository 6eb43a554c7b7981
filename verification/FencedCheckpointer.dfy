/**
  A checkpoint write between two ownership checks: packages/persistence/src/fenced-checkpointer.ts, with the fence of
  packages/persistence/src/run-write-context.ts.

  Any number of calls by any number of worker attempts interleave with leases that lapse and are claimed. Each database
  statement is one step, and each may fail.
 */
module FencedCheckpointer {
  import opened Wrappers

  datatype Kind = CheckpointKind | CheckpointForkKind

  /** A row of the rejections table. */
  datatype Rejection = Rejection(attempt: nat, kind: Kind)

  /** A write the inner store holds, and what the store answered. */
  datatype Written = Written(call: nat, payload: string, result: string)

  /** A stale-owner error carries a cause exactly when recording the rejection failed. */
  datatype Error = StaleOwner(hasCause: bool) | OtherError
  datatype Outcome = Returned(result: string) | Threw(error: Error)

  /** How recording a rejection ends: the row is there, it is not, or it is there and the caller is told it failed. */
  datatype Recording = Recorded | NotRecorded | RecordedUnseen

  datatype Phase =
    | Guarding
    | GuardRefused
    | AtSeam
    | Writing
    | Landed(result: string)
    | Rechecking(result: string)
    | RecheckRefused(result: string)
    | Done(outcome: Outcome)

  /** fork is the row the call's own recheck put there, whether or not the call knows of it. */
  datatype Call = Call(attempt: nat, payload: string, phase: Phase, fork: Option<nat>)

  /** Attempts are numbered as they claim the run; at most one holds it. */
  datatype World = World(holder: Option<nat>, attempts: nat, calls: seq<Call>, store: seq<Written>,
                         rejections: seq<Rejection>)

  const START := World(None, 0, [], [], [])

  datatype Move =
    | Lapse
    | Claim
    | Begin(attempt: nat, payload: string)
    | AskFence(call: nat, answered: bool)
    | Record(call: nat, recording: Recording)
    | PassSeam(call: nat, passed: bool)
    | Land(call: nat, answer: string)
    | InnerEnds(call: nat, returned: bool)

  predicate Enabled(w: World, m: Move) {
    match m
    case Lapse => true
    case Claim => true
    case Begin(attempt, _) => attempt < w.attempts
    case AskFence(c, _) => c < |w.calls| && (w.calls[c].phase.Guarding? || w.calls[c].phase.Rechecking?)
    case Record(c, _) => c < |w.calls| && (w.calls[c].phase.GuardRefused? || w.calls[c].phase.RecheckRefused?)
    case PassSeam(c, _) => c < |w.calls| && w.calls[c].phase.AtSeam?
    case Land(c, _) => c < |w.calls| && w.calls[c].phase.Writing?
    case InnerEnds(c, returned) =>
      c < |w.calls| && (w.calls[c].phase.Landed? || (w.calls[c].phase.Writing? && !returned))
  }

  function Enter(w: World, c: nat, phase: Phase): World
    requires c < |w.calls|
  {
    w.(calls := w.calls[c := w.calls[c].(phase := phase)])
  }

  predicate Owns(w: World, attempt: nat) {
    w.holder == Some(attempt)
  }

  /** The phase after the fence answers. */
  function Fenced(phase: Phase, owns: bool): Phase
    requires phase.Guarding? || phase.Rechecking?
  {
    match phase
    case Guarding => if owns then AtSeam else GuardRefused
    case Rechecking(result) => if owns then Done(Returned(result)) else RecheckRefused(result)
  }

  function Next(w: World, m: Move): World
    requires Enabled(w, m)
  {
    match m
    case Lapse => w.(holder := None)
    case Claim => w.(holder := Some(w.attempts), attempts := w.attempts + 1)
    case Begin(attempt, payload) => w.(calls := w.calls + [Call(attempt, payload, Guarding, None)])
    case AskFence(c, answered) =>
      Enter(w, c, if answered then Fenced(w.calls[c].phase, Owns(w, w.calls[c].attempt)) else Done(Threw(OtherError)))
    case Record(c, recording) => AfterRecord(w, c, recording)
    case PassSeam(c, passed) => Enter(w, c, if passed then Writing else Done(Threw(OtherError)))
    case Land(c, answer) =>
      Enter(w, c, Landed(answer)).(store := w.store + [Written(c, w.calls[c].payload, answer)])
    case InnerEnds(c, returned) =>
      Enter(w, c, if returned then Rechecking(w.calls[c].phase.result) else Done(Threw(OtherError)))
  }

  /** A refusal is recorded and thrown; the recheck swallows the error when its recording succeeded. */
  function AfterRecord(w: World, c: nat, recording: Recording): World
    requires c < |w.calls| && (w.calls[c].phase.GuardRefused? || w.calls[c].phase.RecheckRefused?)
  {
    var call := w.calls[c];
    var forked := call.phase.RecheckRefused?;
    var outcome := if recording.Recorded? && forked then Returned(call.phase.result)
                   else Threw(StaleOwner(!recording.Recorded?));
    if recording.NotRecorded? then Enter(w, c, Done(outcome))
    else
      w.(calls := w.calls[c := call.(phase := Done(outcome),
                                     fork := if forked then Some(|w.rejections|) else call.fork)],
         rejections := w.rejections
                       + [Rejection(call.attempt, if forked then CheckpointForkKind else CheckpointKind)])
  }

  ghost predicate Run(states: seq<World>, moves: seq<Move>) {
    && |states| == |moves| + 1 && states[0] == START
    && forall i :: 0 <= i < |moves| ==> Enabled(states[i], moves[i]) && states[i + 1] == Next(states[i], moves[i])
  }

  // ---- The code as a run ------------------------------------------------------------------------------------------

  predicate Touches(m: Move, c: nat) {
    (m.AskFence? || m.Record? || m.PassSeam? || m.Land? || m.InnerEnds?) && m.call == c
  }

  /** What the environment decides for one call: what others do before each of its effects, and which effects fail. */
  datatype Environment = Environment(
    others: seq<seq<Move>>, guardAnswered: bool, refusalRecorded: Recording, seamPasses: bool, landing: Option<string>,
    innerReturns: bool, recheckAnswered: bool, forkRecorded: Recording)

  function Others(env: Environment, n: nat): seq<Move> {
    if n < |env.others| then env.others[n] else []
  }

  /** One worker attempt's checkpointer over the shared world; states and moves are the history so far. */
  class Checkpointer {
    const attempt: nat
    var world: World
    ghost var states: seq<World>
    ghost var moves: seq<Move>

    ghost predicate Valid()
      reads this
    {
      Run(states, moves) && states[|moves|] == world && attempt < world.attempts
    }

    /** The call is in this phase, and the history has only grown. */
    ghost predicate At(c: nat, phase: Phase, before: seq<Move>, call: Call)
      reads this
    {
      && Valid() && before <= moves && c < |world.calls|
      && world.calls[c] == call.(phase := phase)
    }

    constructor (attempts: nat, attempt: nat)
      requires attempt < attempts
      ensures Valid() && this.attempt == attempt
    {
      this.attempt := attempt;
      var w := START;
      ghost var ss, ms := [START], [];
      for i := 0 to attempts
        invariant w == START.(holder := w.holder, attempts := i) && Run(ss, ms) && ss[|ms|] == w
      {
        w := Next(w, Claim);
        ss, ms := ss + [w], ms + [Claim];
      }
      world, states, moves := w, ss, ms;
    }

    method Take(m: Move)
      requires Valid() && Enabled(world, m)
      modifies this
      ensures Valid() && world == Next(old(world), m) && moves == old(moves) + [m]
    {
      world := Next(world, m);
      states, moves := states + [world], moves + [m];
    }

    /** Other calls and the lease move; a move that is not possible, or is this call's own, is skipped. */
    method LetOthersMove(c: nat, schedule: seq<Move>)
      requires Valid() && c < |world.calls|
      modifies this
      ensures At(c, old(world.calls[c].phase), old(moves), old(world.calls[c]))
    {
      for i := 0 to |schedule|
        invariant At(c, old(world.calls[c].phase), old(moves), old(world.calls[c]))
      {
        if Enabled(world, schedule[i]) && !Touches(schedule[i], c) { Take(schedule[i]); }
      }
    }

    /** assertOwner: None when the fence answers that this attempt owns the run. */
    method AssertOwner(c: nat, answered: bool, recording: Recording) returns (error: Option<Error>)
      requires Valid() && c < |world.calls| && (world.calls[c].phase.Guarding? || world.calls[c].phase.Rechecking?)
      modifies this
      ensures Valid() && old(moves) <= moves && c < |world.calls|
      ensures var was := old(world.calls[c]);
              if !answered then
                error == Some(OtherError) && world.calls[c] == was.(phase := Done(Threw(OtherError)))
              else if Owns(old(world), was.attempt) then
                error == None && world.calls[c] == was.(phase := Fenced(was.phase, true))
              else
                && error == Some(StaleOwner(!recording.Recorded?))
                && world.calls[c].attempt == was.attempt && world.calls[c].payload == was.payload
                && world.calls[c].phase
                   == Done(if recording.Recorded? && was.phase.Rechecking? then Returned(was.phase.result)
                           else Threw(StaleOwner(!recording.Recorded?)))
                && world.rejections == old(world.rejections) + if recording.NotRecorded? then []
                     else [Rejection(was.attempt, if was.phase.Guarding? then CheckpointKind else CheckpointForkKind)]
    {
      ghost var was := world.calls[c];
      var owns := Owns(world, world.calls[c].attempt);
      Take(AskFence(c, answered));
      if !answered { return Some(OtherError); }
      if owns { return None; }
      Take(Record(c, recording));
      return Some(StaleOwner(!recording.Recorded?));
    }

    /** #guard: the fence, then the seam. */
    method Guard(c: nat, env: Environment) returns (error: Option<Error>)
      requires Valid() && c < |world.calls| && world.calls[c].phase.Guarding?
      modifies this
      ensures Valid() && old(moves) <= moves && c < |world.calls|
      ensures error.None? ==> world.calls[c] == old(world.calls[c]).(phase := Writing)
      ensures error.Some? ==> world.calls[c].phase == Done(Threw(error.value))
      ensures world.calls[c].attempt == old(world.calls[c].attempt)
              && world.calls[c].payload == old(world.calls[c].payload)
    {
      error := AssertOwner(c, env.guardAnswered, env.refusalRecorded);
      if error.Some? { return; }
      LetOthersMove(c, Others(env, 1));
      Take(PassSeam(c, env.seamPasses));
      if !env.seamPasses { return Some(OtherError); }
    }

    /** #recheck: only a recorded fork is swallowed. */
    method Recheck(c: nat, env: Environment) returns (error: Option<Error>)
      requires Valid() && c < |world.calls| && world.calls[c].phase.Rechecking?
      modifies this
      ensures Valid() && old(moves) <= moves && c < |world.calls|
      ensures world.calls[c].phase
              == Done(if error.None? then Returned(old(world.calls[c].phase.result)) else Threw(error.value))
      ensures world.calls[c].attempt == old(world.calls[c].attempt)
              && world.calls[c].payload == old(world.calls[c].payload)
    {
      error := AssertOwner(c, env.recheckAnswered, env.forkRecorded);
      if error == Some(StaleOwner(false)) { return None; }
    }

    /** The inner store's own write: it may fail before or after it lands. */
    method InnerWrite(c: nat, env: Environment) returns (result: Option<string>)
      requires Valid() && c < |world.calls| && world.calls[c].phase.Writing?
      modifies this
      ensures Valid() && old(moves) <= moves && c < |world.calls|
      ensures world.calls[c]
              == old(world.calls[c]).(phase := if result.None? then Done(Threw(OtherError))
                                               else Rechecking(result.value))
    {
      if env.landing.None? {
        Take(InnerEnds(c, false));
        return None;
      }
      Take(Land(c, env.landing.value));
      LetOthersMove(c, Others(env, 3));
      Take(InnerEnds(c, env.innerReturns));
      return if env.innerReturns then env.landing else None;
    }

    /** #write: the call it makes is a run of the machine, whatever happens around it, and its outcome is the call's. */
    method Write(payload: string, env: Environment) returns (c: nat, outcome: Outcome)
      requires Valid()
      modifies this
      ensures Valid() && old(moves) <= moves
      ensures c == old(|world.calls|) < |world.calls| && world.calls[c].phase == Done(outcome)
      ensures world.calls[c].attempt == attempt && world.calls[c].payload == payload
    {
      c := |world.calls|;
      Take(Begin(attempt, payload));
      LetOthersMove(c, Others(env, 0));
      var refused := Guard(c, env);
      if refused.Some? { return c, Threw(refused.value); }
      LetOthersMove(c, Others(env, 2));
      var result := InnerWrite(c, env);
      if result.None? { return c, Threw(OtherError); }
      LetOthersMove(c, Others(env, 4));
      var failed := Recheck(c, env);
      return c, if failed.Some? then Threw(failed.value) else Returned(result.value);
    }
  }

  // ---- What every reachable world keeps ---------------------------------------------------------------------------

  /** The write of this call may be in the store. */
  predicate MayHaveLanded(call: Call) {
    match call.phase
    case Landed(_) => true
    case Rechecking(_) => true
    case RecheckRefused(_) => true
    case Done(Returned(_)) => true
    case Done(Threw(OtherError)) => true
    case Done(Threw(StaleOwner(hasCause))) => hasCause
    case _ => false
  }

  /** The answer the call has from the store, if it has one. */
  function Answer(call: Call): Option<string> {
    match call.phase
    case Landed(result) => Some(result)
    case Rechecking(result) => Some(result)
    case RecheckRefused(result) => Some(result)
    case Done(Returned(result)) => Some(result)
    case _ => None
  }

  ghost predicate CallInv(w: World, c: nat)
    requires c < |w.calls|
  {
    var call := w.calls[c];
    && call.attempt < w.attempts
    && (Answer(call).Some? ==> Written(c, call.payload, Answer(call).value) in w.store)
    && (call.phase.RecheckRefused? || call.fork.Some? ==> !Owns(w, call.attempt))
    && (call.fork.Some? ==>
          && call.phase.Done? && (exists x :: x in w.store && x.call == c)
          && call.fork.value < |w.rejections|
          && w.rejections[call.fork.value] == Rejection(call.attempt, CheckpointForkKind))
  }

  /** Every write is of a call that may have landed, with the call's payload, and no call writes twice. */
  ghost predicate StoreInv(w: World) {
    && (forall i :: 0 <= i < |w.store| ==>
          && w.store[i].call < |w.calls| && MayHaveLanded(w.calls[w.store[i].call])
          && w.store[i].payload == w.calls[w.store[i].call].payload)
    && forall i, j :: 0 <= i < j < |w.store| ==> w.store[i].call != w.store[j].call
  }

  /** Every recorded fork is the record of some call of that attempt. */
  ghost predicate ForksInv(w: World) {
    forall k: nat :: k < |w.rejections| && w.rejections[k].kind.CheckpointForkKind? ==>
      exists c: nat :: c < |w.calls| && w.calls[c].fork == Some(k)
  }

  ghost predicate Inv(w: World) {
    && (w.holder.Some? ==> w.holder.value < w.attempts)
    && (forall c: nat :: c < |w.calls| ==> CallInv(w, c))
    && StoreInv(w) && ForksInv(w)
  }

  lemma MoveKeepsCalls(w: World, m: Move, c: nat)
    requires Inv(w) && Enabled(w, m) && c < |w.calls|
    ensures CallInv(Next(w, m), c)
  {
    assert CallInv(w, c);
    if Touches(m, c) {
      match m {
        case AskFence(_, _) => AskingKeepsCall(w, m, c);
        case Record(_, _) => RecordingKeepsCall(w, m, c);
        case Land(_, _) => LandingKeepsCall(w, m, c);
        case _ => ProceedingKeepsCall(w, m, c);
      }
    } else {
      OthersKeepCall(w, m, c);
    }
  }

  lemma AskingKeepsCall(w: World, m: Move, c: nat)
    requires Enabled(w, m) && m.AskFence? && m.call == c && CallInv(w, c)
    ensures CallInv(Next(w, m), c)
  {}

  lemma RecordingKeepsCall(w: World, m: Move, c: nat)
    requires Enabled(w, m) && m.Record? && m.call == c && CallInv(w, c)
    ensures CallInv(Next(w, m), c)
  {
    if w.calls[c].phase.RecheckRefused? {
      assert Written(c, w.calls[c].payload, w.calls[c].phase.result) in w.store;
    }
  }

  lemma LandingKeepsCall(w: World, m: Move, c: nat)
    requires Enabled(w, m) && m.Land? && m.call == c && CallInv(w, c)
    ensures CallInv(Next(w, m), c)
  {
    var w' := Next(w, m);
    assert w'.store[|w.store|] in w'.store;
  }

  lemma ProceedingKeepsCall(w: World, m: Move, c: nat)
    requires Enabled(w, m) && (m.PassSeam? || m.InnerEnds?) && m.call == c && CallInv(w, c)
    ensures CallInv(Next(w, m), c)
  {}

  /** What every move does to a call that is not its own: nothing, while the tables grow and ownership only leaves. */
  lemma OthersKeepCall(w: World, m: Move, c: nat)
    requires c < |w.calls| && CallInv(w, c) && Enabled(w, m) && !Touches(m, c)
    ensures CallInv(Next(w, m), c)
  {
    var w' := Next(w, m);
    assert w.store <= w'.store && w.rejections <= w'.rejections && w'.calls[c] == w.calls[c];
    StoreOnlyGrows(w.store, w'.store);
  }

  lemma StoreOnlyGrows(store: seq<Written>, store': seq<Written>)
    requires store <= store'
    ensures forall x :: x in store ==> x in store'
  {}

  lemma MoveKeepsStore(w: World, m: Move)
    requires Inv(w) && Enabled(w, m)
    ensures StoreInv(Next(w, m))
  {
    var w' := Next(w, m);
    if m.Land? {
      assert forall i :: 0 <= i < |w.store| ==> w.store[i].call != m.call;
    }
    forall i | 0 <= i < |w'.store|
      ensures w'.store[i].call < |w'.calls| && MayHaveLanded(w'.calls[w'.store[i].call])
      ensures w'.store[i].payload == w'.calls[w'.store[i].call].payload
    {
      if i < |w.store| { LandedStays(w, m, w.store[i].call); }
    }
  }

  /** A call whose write may be in the store stays one, with its payload. */
  lemma LandedStays(w: World, m: Move, c: nat)
    requires Enabled(w, m) && c < |w.calls| && MayHaveLanded(w.calls[c])
    ensures c < |Next(w, m).calls| && MayHaveLanded(Next(w, m).calls[c])
    ensures Next(w, m).calls[c].payload == w.calls[c].payload
  {
    if Touches(m, c) {
      match m {
        case AskFence(_, _) =>
        case Record(_, _) =>
        case _ =>
      }
    }
  }

  lemma MoveKeepsForks(w: World, m: Move)
    requires Inv(w) && Enabled(w, m)
    ensures ForksInv(Next(w, m))
  {
    var w' := Next(w, m);
    forall k: nat | k < |w'.rejections| && w'.rejections[k].kind.CheckpointForkKind?
      ensures exists c: nat :: c < |w'.calls| && w'.calls[c].fork == Some(k)
    {
      if k < |w.rejections| {
        var c: nat :| c < |w.calls| && w.calls[c].fork == Some(k);
        assert CallInv(w, c);
        assert w'.calls[c].fork == Some(k);
      } else {
        assert w'.calls[m.call].fork == Some(k);
      }
    }
  }

  lemma MoveKeepsInv(w: World, m: Move)
    requires Inv(w) && Enabled(w, m)
    ensures Inv(Next(w, m))
  {
    var w' := Next(w, m);
    forall c: nat | c < |w'.calls|
      ensures CallInv(w', c)
    {
      if c < |w.calls| { MoveKeepsCalls(w, m, c); }
    }
    MoveKeepsStore(w, m);
    MoveKeepsForks(w, m);
  }

  lemma {:induction false} RunKeepsInv(states: seq<World>, moves: seq<Move>, n: nat)
    requires Run(states, moves) && n < |states|
    ensures Inv(states[n])
  {
    if n > 0 {
      RunKeepsInv(states, moves, n - 1);
      MoveKeepsInv(states[n - 1], moves[n - 1]);
    }
  }

  // ---- What a call's outcome says ---------------------------------------------------------------------------------

  /** Lost ownership is never regained: an attempt that owns the run now has owned it since it claimed it. */
  lemma {:induction false} NeverRegained(states: seq<World>, moves: seq<Move>, i: nat, n: nat, attempt: nat)
    requires Run(states, moves) && i <= n < |states|
    requires attempt < states[i].attempts && Owns(states[n], attempt)
    ensures Owns(states[i], attempt)
    decreases n
  {
    if i < n {
      AttemptsGrow(states, moves, i, n - 1);
      NeverRegained(states, moves, i, n - 1, attempt);
    }
  }

  lemma {:induction false} AttemptsGrow(states: seq<World>, moves: seq<Move>, i: nat, n: nat)
    requires Run(states, moves) && i <= n < |states|
    ensures states[i].attempts <= states[n].attempts && |states[i].calls| <= |states[n].calls|
    decreases n
  {
    if i < n { AttemptsGrow(states, moves, i, n - 1); }
  }

  /** A call keeps its attempt, and once done it stays as it is. */
  lemma {:induction false} DoneStays(states: seq<World>, moves: seq<Move>, i: nat, n: nat, c: nat)
    requires Run(states, moves) && i <= n < |states| && c < |states[i].calls|
    ensures c < |states[n].calls| && states[n].calls[c].attempt == states[i].calls[c].attempt
    ensures states[i].calls[c].phase.Done? ==> states[n].calls[c] == states[i].calls[c]
    decreases n
  {
    if i < n { DoneStays(states, moves, i, n - 1, c); }
  }

  /** A call that returned without a fork passed its recheck as the owner. */
  lemma {:induction false} PassedRecheck(states: seq<World>, moves: seq<Move>, n: nat, c: nat) returns (m: nat)
    requires Run(states, moves) && n < |states| && c < |states[n].calls|
    requires var call := states[n].calls[c]; call.phase.Done? && call.phase.outcome.Returned? && call.fork.None?
    ensures m < n && c < |states[m].calls| && states[m].calls[c].phase.Rechecking?
    ensures Owns(states[m], states[n].calls[c].attempt) && states[m + 1].calls[c] == states[n].calls[c]
  {
    if c < |states[n - 1].calls| && states[n - 1].calls[c].phase.Done? {
      m := PassedRecheck(states, moves, n - 1, c);
    } else {
      m := n - 1;
    }
  }

  /**
    A call that returned and recorded no fork was performed wholly under ownership: in every world in which it was in
    progress, its attempt held the run.
   */
  lemma NoForkMeansOwned(states: seq<World>, moves: seq<Move>, n: nat, c: nat, i: nat)
    requires Run(states, moves) && i <= n < |states| && c < |states[i].calls| && c < |states[n].calls|
    requires var call := states[n].calls[c]; call.phase.Done? && call.phase.outcome.Returned? && call.fork.None?
    requires !states[i].calls[c].phase.Done?
    ensures Owns(states[i], states[n].calls[c].attempt)
  {
    var m := PassedRecheck(states, moves, n, c);
    if m + 1 <= i { DoneStays(states, moves, m + 1, i, c); }
    DoneStays(states, moves, i, n, c);
    RunKeepsInv(states, moves, i);
    assert CallInv(states[i], c);
    NeverRegained(states, moves, i, m, states[n].calls[c].attempt);
  }

  /** A call that returned after its write landed while its worker was no longer owner has recorded a fork. */
  lemma ForkIsRecorded(states: seq<World>, moves: seq<Move>, n: nat, c: nat, i: nat)
    requires Run(states, moves) && i < n < |states| && c < |states[n].calls|
    requires moves[i].Land? && moves[i].call == c && !Owns(states[i], states[i].calls[c].attempt)
    requires states[n].calls[c].phase.Done? && states[n].calls[c].phase.outcome.Returned?
    ensures var call := states[n].calls[c];
            && call.fork.Some? && call.fork.value < |states[n].rejections|
            && states[n].rejections[call.fork.value] == Rejection(call.attempt, CheckpointForkKind)
            && call.attempt == states[i].calls[c].attempt
  {
    DoneStays(states, moves, i, n, c);
    if states[n].calls[c].fork.None? { NoForkMeansOwned(states, moves, n, c, i); }
    RunKeepsInv(states, moves, n);
    assert CallInv(states[n], c);
  }

  /** No fork is recorded without cause: its attempt has lost the run, and a write by it is in the store. */
  lemma ForksAreReal(states: seq<World>, moves: seq<Move>, n: nat, k: nat)
    requires Run(states, moves) && n < |states|
    requires k < |states[n].rejections| && states[n].rejections[k].kind.CheckpointForkKind?
    ensures !Owns(states[n], states[n].rejections[k].attempt)
    ensures exists x :: x in states[n].store && x.call < |states[n].calls|
              && states[n].calls[x.call].attempt == states[n].rejections[k].attempt
  {
    RunKeepsInv(states, moves, n);
    var w := states[n];
    var c: nat :| c < |w.calls| && w.calls[c].fork == Some(k);
    assert CallInv(w, c);
  }

  /** The call was refused by its guard. */
  predicate GuardRefusedAt(w: World, c: nat) {
    c < |w.calls| && w.calls[c].phase.GuardRefused?
  }

  /** A refused guard leaves the store untouched: a call its guard refused never has a write in it, then or later. */
  lemma {:induction false} RefusedNeverWrites(states: seq<World>, moves: seq<Move>, i: nat, n: nat, c: nat)
    requires Run(states, moves) && i <= n < |states| && GuardRefusedAt(states[i], c)
    ensures c < |states[n].calls|
    ensures states[n].calls[c].phase.GuardRefused?
            || (states[n].calls[c].phase.Done? && states[n].calls[c].phase.outcome.Threw?
                && states[n].calls[c].phase.outcome.error.StaleOwner?)
    ensures forall x :: x in states[n].store ==> x.call != c
    decreases n
  {
    if i < n {
      RefusedNeverWrites(states, moves, i, n - 1, c);
    } else {
      RunKeepsInv(states, moves, n);
    }
  }

  /** What a call returns is what the store answered for this call's own payload. */
  lemma ReturnsTheAnswer(states: seq<World>, moves: seq<Move>, n: nat, c: nat)
    requires Run(states, moves) && n < |states| && c < |states[n].calls|
    requires states[n].calls[c].phase.Done? && states[n].calls[c].phase.outcome.Returned?
    ensures Written(c, states[n].calls[c].payload, states[n].calls[c].phase.outcome.result) in states[n].store
  {
    RunKeepsInv(states, moves, n);
    assert CallInv(states[n], c);
  }

  /** A worker that claims the run and is left alone writes: the store's answer is returned and nothing is rejected. */
  lemma OwnerWrites(w: World, payload: string, answer: string) returns (moves: seq<Move>, w': World)
    requires Inv(w)
    ensures var c := |w.calls|;
            && moves == [Claim, Begin(w.attempts, payload), AskFence(c, true), PassSeam(c, true), Land(c, answer),
                         InnerEnds(c, true), AskFence(c, true)]
            && Happens(w, moves, w')
            && |w'.calls| == c + 1
            && w'.calls[c] == Call(w.attempts, payload, Done(Returned(answer)), None)
            && Owns(w', w.attempts) && w'.rejections == w.rejections
            && w'.store == w.store + [Written(c, payload, answer)]
  {
    var c := |w.calls|;
    var w1 := Next(Next(w, Claim), Begin(w.attempts, payload));
    var w2 := Next(Next(w1, AskFence(c, true)), PassSeam(c, true));
    var w3 := Next(Next(w2, Land(c, answer)), InnerEnds(c, true));
    w' := Next(w3, AskFence(c, true));
    moves := [Claim, Begin(w.attempts, payload), AskFence(c, true), PassSeam(c, true), Land(c, answer),
              InnerEnds(c, true), AskFence(c, true)];
    TwoHappen(w, Claim, Begin(w.attempts, payload), moves[2..], w');
    TwoHappen(w1, AskFence(c, true), PassSeam(c, true), moves[4..], w');
    TwoHappen(w2, Land(c, answer), InnerEnds(c, true), moves[6..], w');
    assert moves[6..] == [AskFence(c, true)] && [AskFence(c, true)][1..] == [];
  }

  /** The moves can be made from here, one after the other, and lead there. */
  ghost predicate Happens(w: World, moves: seq<Move>, w': World)
    decreases moves
  {
    if moves == [] then w' == w else Enabled(w, moves[0]) && Happens(Next(w, moves[0]), moves[1..], w')
  }

  lemma TwoHappen(w: World, m: Move, m': Move, rest: seq<Move>, w': World)
    requires Enabled(w, m) && Enabled(Next(w, m), m')
    ensures Happens(w, [m, m'] + rest, w') <==> Happens(Next(Next(w, m), m'), rest, w')
  {
    var moves := [m, m'] + rest;
    assert moves[1..] == [m'] + rest && moves[1..][1..] == rest;
  }
}
