/**
  boundedJsonViolation: the explicit-stack walk with a depth and a node budget of packages/domain/src/bounded-json.ts.

  The walk has no visited set, so a shared object is counted once per path and a cycle is cut by the budgets alone.
 */
module BoundedJson {
  import opened Wrappers
  import opened JsonHeap
  import opened KeyOrder
  import opened CanonicalJson

  datatype Violation =
    | TooDeep(limit: int)
    | TooLarge(limit: int)
    | NotFinite
    | NonPlainObject
    | Unserializable

  datatype Bounds = Bounds(maxDepth: int, maxNodes: int)

  datatype Frame = Frame(value: Value, depth: nat)

  /** The loop's variables. */
  datatype Scan = Scan(stack: seq<Frame>, visited: nat)

  datatype Step = Accepted | Refused(violation: Violation) | More(next: Scan)

  /** Iterating an array yields undefined at a hole. */
  function Pushed(slots: seq<Slot>, depth: nat): (frames: seq<Frame>)
    ensures |frames| == |slots|
    ensures forall i :: 0 <= i < |slots| ==>
              frames[i] == Frame(if slots[i].Hole? then Opaque else slots[i].value, depth)
  {
    seq(|slots|, i requires 0 <= i < |slots| => Frame(if slots[i].Hole? then Opaque else slots[i].value, depth))
  }

  predicate FramesLive(h: Heap, frames: seq<Frame>) {
    forall i :: 0 <= i < |frames| ==> Live(h, frames[i].value)
  }

  /** One turn of the loop. */
  function Next(h: Heap, b: Bounds, s: Scan): Step
    requires FramesLive(h, s.stack)
  {
    if s.stack == [] then Accepted else
    var top, rest, visited := s.stack[|s.stack| - 1], s.stack[..|s.stack| - 1], s.visited + 1;
    if visited > b.maxNodes then Refused(TooLarge(b.maxNodes))
    else if top.depth > b.maxDepth then Refused(TooDeep(b.maxDepth))
    else if Scalar(top.value) then More(Scan(rest, visited))
    else if top.value.NonFinite? then Refused(NotFinite)
    else if top.value.Opaque? then Refused(Unserializable)
    else
      var c := h[top.value.ref];
      if c.Record? && !c.plain then Refused(NonPlainObject)
      else if visited + |rest| + |Children(c)| > b.maxNodes then Refused(TooLarge(b.maxNodes))
      else More(Scan(rest + Pushed(Children(c), top.depth + 1), visited))
  }

  lemma NextKeepsLive(h: Heap, b: Bounds, s: Scan)
    requires WellFormed(h) && FramesLive(h, s.stack)
    ensures Next(h, b, s).More? ==> FramesLive(h, Next(h, b, s).next.stack)
  {
    if Next(h, b, s).More? && !Scalar(s.stack[|s.stack| - 1].value) {
      assert CellOk(h, h[s.stack[|s.stack| - 1].value.ref]);
    }
  }

  /** What the walk answers from here on. */
  function Verdict(h: Heap, b: Bounds, s: Scan): Option<Violation>
    requires WellFormed(h) && FramesLive(h, s.stack)
    decreases if b.maxNodes > s.visited then b.maxNodes - s.visited else 0
  {
    NextKeepsLive(h, b, s);
    match Next(h, b, s)
    case Accepted => None
    case Refused(violation) => Some(violation)
    case More(next) => Verdict(h, b, next)
  }

  // ---- What an accepted value is ----------------------------------------------------------------------------------

  /** The frame's value is the document t, and t fits the depth left to it. */
  ghost predicate FrameFits(h: Heap, b: Bounds, frame: Frame, t: Tree) {
    Unfolds(h, frame.value, t) && FitsDepth(t, b.maxDepth - frame.depth)
  }

  ghost predicate StackFits(h: Heap, b: Bounds, stack: seq<Frame>, ts: seq<Tree>) {
    |ts| == |stack| && forall i :: 0 <= i < |stack| ==> FrameFits(h, b, stack[i], ts[i])
  }

  /** The stack stands for the documents ts, and they fit what is left of both budgets. */
  ghost predicate WithinBudget(h: Heap, b: Bounds, s: Scan, ts: seq<Tree>) {
    StackFits(h, b, s.stack, ts) && s.visited + AllNodes(ts) <= b.maxNodes
  }

  lemma StackSplits(h: Heap, b: Bounds, front: seq<Frame>, back: seq<Frame>, ts: seq<Tree>, us: seq<Tree>)
    requires |front| == |ts| && |back| == |us|
    ensures StackFits(h, b, front + back, ts + us) <==> StackFits(h, b, front, ts) && StackFits(h, b, back, us)
    ensures AllNodes(ts + us) == AllNodes(ts) + AllNodes(us)
  {
    AllNodesConcat(ts, us);
    if StackFits(h, b, front + back, ts + us) {
      StackParts(h, b, front, back, ts, us);
    }
    if StackFits(h, b, front, ts) && StackFits(h, b, back, us) {
      StackJoins(h, b, front, back, ts, us);
    }
  }

  lemma StackParts(h: Heap, b: Bounds, front: seq<Frame>, back: seq<Frame>, ts: seq<Tree>, us: seq<Tree>)
    requires |front| == |ts| && |back| == |us| && StackFits(h, b, front + back, ts + us)
    ensures StackFits(h, b, front, ts) && StackFits(h, b, back, us)
  {
    var both, trees := front + back, ts + us;
    forall i | 0 <= i < |front|
      ensures FrameFits(h, b, front[i], ts[i])
    {
      assert both[i] == front[i] && trees[i] == ts[i];
    }
    forall i | 0 <= i < |back|
      ensures FrameFits(h, b, back[i], us[i])
    {
      assert both[|front| + i] == back[i] && trees[|front| + i] == us[i];
    }
  }

  lemma StackJoins(h: Heap, b: Bounds, front: seq<Frame>, back: seq<Frame>, ts: seq<Tree>, us: seq<Tree>)
    requires StackFits(h, b, front, ts) && StackFits(h, b, back, us)
    ensures StackFits(h, b, front + back, ts + us)
  {
    forall i | 0 <= i < |front + back|
      ensures FrameFits(h, b, (front + back)[i], (ts + us)[i])
    {
      if i < |front| {
        assert FrameFits(h, b, front[i], ts[i]);
      } else {
        assert FrameFits(h, b, back[i - |front|], us[i - |front|]);
      }
    }
  }

  lemma FrameOpens(h: Heap, b: Bounds, frame: Frame, t: Tree)
    requires FrameFits(h, b, frame, t) && frame.value.Obj?
    ensures !t.Leaf? && (h[frame.value.ref].Record? ==> h[frame.value.ref].plain)
    ensures StackFits(h, b, Pushed(Children(h[frame.value.ref]), frame.depth + 1), t.kids)
  {}

  lemma FrameCloses(h: Heap, b: Bounds, frame: Frame, kids: seq<Tree>) returns (t: Tree)
    requires WellFormed(h) && Live(h, frame.value) && frame.value.Obj? && frame.depth <= b.maxDepth
    requires h[frame.value.ref].Record? ==> h[frame.value.ref].plain
    requires StackFits(h, b, Pushed(Children(h[frame.value.ref]), frame.depth + 1), kids)
    ensures FrameFits(h, b, frame, t) && !t.Leaf? && t.kids == kids
  {
    var c := h[frame.value.ref];
    assert CellOk(h, c);
    t := if c.Array? then List(kids) else Dict(c.keys, kids);
    var pushed := Pushed(Children(c), frame.depth + 1);
    forall i | 0 <= i < |kids|
      ensures Children(c)[i].Own? && Unfolds(h, Children(c)[i].value, kids[i])
      ensures FitsDepth(kids[i], b.maxDepth - frame.depth - 1)
    {
      assert FrameFits(h, b, pushed[i], kids[i]);
    }
  }

  lemma StepForward(h: Heap, b: Bounds, s: Scan, ts: seq<Tree>) returns (us: seq<Tree>)
    requires WellFormed(h) && FramesLive(h, s.stack) && s.stack != [] && WithinBudget(h, b, s, ts)
    ensures Next(h, b, s).More? && WithinBudget(h, b, Next(h, b, s).next, us)
  {
    var n := |s.stack| - 1;
    var rest, top := s.stack[..n], s.stack[n];
    TopFits(h, b, s.stack, ts);
    if top.value.Obj? {
      us := ObjectForward(h, b, rest, top, ts[..n], ts[n]);
      ObjectProceeds(h, b, s, us);
    } else {
      us := ts[..n];
      ScalarProceeds(h, b, s, us, ts[n]);
    }
  }

  /** A scalar that fits is counted and dropped. */
  lemma ScalarProceeds(h: Heap, b: Bounds, s: Scan, us: seq<Tree>, t: Tree)
    requires FramesLive(h, s.stack) && s.stack != []
    requires var n := |s.stack| - 1;
             && !s.stack[n].value.Obj? && FrameFits(h, b, s.stack[n], t)
             && StackFits(h, b, s.stack[..n], us) && s.visited + AllNodes(us) + Nodes(t) <= b.maxNodes
    ensures Next(h, b, s).More? && WithinBudget(h, b, Next(h, b, s).next, us)
  {}

  /** An object whose children fit is opened. */
  lemma ObjectProceeds(h: Heap, b: Bounds, s: Scan, us: seq<Tree>)
    requires WellFormed(h) && FramesLive(h, s.stack) && s.stack != []
    requires var n := |s.stack| - 1;
             var top := s.stack[n];
             && top.value.Obj? && top.depth <= b.maxDepth && (h[top.value.ref].Record? ==> h[top.value.ref].plain)
             && StackFits(h, b, s.stack[..n] + Pushed(Children(h[top.value.ref]), top.depth + 1), us)
             && s.visited + 1 + AllNodes(us) <= b.maxNodes
    ensures Next(h, b, s).More? && WithinBudget(h, b, Next(h, b, s).next, us)
  {
    var top, rest := s.stack[|s.stack| - 1], s.stack[..|s.stack| - 1];
    var pushed := Pushed(Children(h[top.value.ref]), top.depth + 1);
    NodesCoverFrames(us);
    assert |rest| + |pushed| == |rest + pushed| == |us|;
    ObjectOpens(h, b, s);
  }

  lemma ObjectOpens(h: Heap, b: Bounds, s: Scan)
    requires FramesLive(h, s.stack) && s.stack != [] && s.stack[|s.stack| - 1].value.Obj?
    ensures var top, rest := s.stack[|s.stack| - 1], s.stack[..|s.stack| - 1];
            var c := h[top.value.ref];
            && (c.Record? ==> c.plain) && top.depth <= b.maxDepth
            && s.visited + 1 + |rest| + |Children(c)| <= b.maxNodes ==>
              Next(h, b, s) == More(Scan(rest + Pushed(Children(c), top.depth + 1), s.visited + 1))
  {}

  /** Every document has a node of its own. */
  lemma {:induction false} NodesCoverFrames(ts: seq<Tree>)
    ensures |ts| <= AllNodes(ts)
  {
    if ts != [] { NodesCoverFrames(ts[..|ts| - 1]); }
  }

  lemma TopFits(h: Heap, b: Bounds, stack: seq<Frame>, ts: seq<Tree>)
    requires stack != [] && StackFits(h, b, stack, ts)
    ensures var n := |stack| - 1;
            && StackFits(h, b, stack[..n], ts[..n]) && FrameFits(h, b, stack[n], ts[n])
            && AllNodes(ts) == AllNodes(ts[..n]) + Nodes(ts[n])
  {
    var n := |stack| - 1;
    assert stack == stack[..n] + [stack[n]] && ts == ts[..n] + [ts[n]];
    StackSplits(h, b, stack[..n], [stack[n]], ts[..n], [ts[n]]);
    assert AllNodes([ts[n]]) == Nodes(ts[n]);
  }

  lemma ObjectForward(h: Heap, b: Bounds, rest: seq<Frame>, top: Frame, ts: seq<Tree>, t: Tree) returns (us: seq<Tree>)
    requires StackFits(h, b, rest, ts) && FrameFits(h, b, top, t) && top.value.Obj?
    ensures h[top.value.ref].Record? ==> h[top.value.ref].plain
    ensures StackFits(h, b, rest + Pushed(Children(h[top.value.ref]), top.depth + 1), us)
    ensures AllNodes(us) == AllNodes(ts) + Nodes(t) - 1 && Nodes(t) == 1 + AllNodes(t.kids) && !t.Leaf?
    ensures us == ts + t.kids
  {
    FrameOpens(h, b, top, t);
    StackSplits(h, b, rest, Pushed(Children(h[top.value.ref]), top.depth + 1), ts, t.kids);
    us := ts + t.kids;
  }

  lemma StepBackward(h: Heap, b: Bounds, s: Scan, us: seq<Tree>) returns (ts: seq<Tree>)
    requires WellFormed(h) && FramesLive(h, s.stack)
    requires Next(h, b, s).More? && WithinBudget(h, b, Next(h, b, s).next, us)
    ensures WithinBudget(h, b, s, ts)
  {
    var n := |s.stack| - 1;
    var rest, top := s.stack[..n], s.stack[n];
    assert s.stack == rest + [top];
    if top.value.Obj? {
      ts := ObjectBackward(h, b, rest, top, us);
    } else {
      ts := StackGrows(h, b, rest, top, us, Leaf(top.value));
    }
  }

  lemma ObjectBackward(h: Heap, b: Bounds, rest: seq<Frame>, top: Frame, us: seq<Tree>) returns (ts: seq<Tree>)
    requires WellFormed(h) && Live(h, top.value) && top.value.Obj? && top.depth <= b.maxDepth
    requires h[top.value.ref].Record? ==> h[top.value.ref].plain
    requires StackFits(h, b, rest + Pushed(Children(h[top.value.ref]), top.depth + 1), us)
    ensures StackFits(h, b, rest + [top], ts) && AllNodes(ts) == AllNodes(us) + 1
  {
    var n := |rest|;
    assert us == us[..n] + us[n..];
    StackSplits(h, b, rest, Pushed(Children(h[top.value.ref]), top.depth + 1), us[..n], us[n..]);
    var t := FrameCloses(h, b, top, us[n..]);
    ts := StackGrows(h, b, rest, top, us[..n], t);
  }

  lemma StackGrows(h: Heap, b: Bounds, rest: seq<Frame>, top: Frame, us: seq<Tree>, t: Tree) returns (ts: seq<Tree>)
    requires StackFits(h, b, rest, us) && FrameFits(h, b, top, t)
    ensures StackFits(h, b, rest + [top], ts) && AllNodes(ts) == AllNodes(us) + Nodes(t)
  {
    ts := us + [t];
    StackSplits(h, b, rest, [top], us, [t]);
    assert AllNodes([t]) == Nodes(t);
  }

  /** Whatever fits is accepted. */
  lemma {:induction false} FittingIsAccepted(h: Heap, b: Bounds, s: Scan, ts: seq<Tree>)
    requires WellFormed(h) && FramesLive(h, s.stack) && WithinBudget(h, b, s, ts)
    ensures Verdict(h, b, s).None?
    decreases if b.maxNodes > s.visited then b.maxNodes - s.visited else 0
  {
    if s.stack != [] {
      NextKeepsLive(h, b, s);
      var us := StepForward(h, b, s, ts);
      FittingIsAccepted(h, b, Next(h, b, s).next, us);
    }
  }

  /** Nothing else is: the documents on an accepted stack are rebuilt here. */
  lemma {:induction false} AcceptedFits(h: Heap, b: Bounds, s: Scan) returns (ts: seq<Tree>)
    requires WellFormed(h) && FramesLive(h, s.stack) && (s.stack == [] ==> s.visited <= b.maxNodes)
    requires Verdict(h, b, s).None?
    ensures WithinBudget(h, b, s, ts)
    decreases if b.maxNodes > s.visited then b.maxNodes - s.visited else 0
  {
    if s.stack == [] {
      ts := [];
    } else {
      NextKeepsLive(h, b, s);
      var us := AcceptedFits(h, b, Next(h, b, s).next);
      ts := StepBackward(h, b, s, us);
    }
  }

  // ---- The memory the walk uses -----------------------------------------------------------------------------------

  /** Nodes seen and nodes waiting together never pass the node budget. */
  ghost predicate WithinMemory(b: Bounds, s: Scan) {
    s.visited + |s.stack| <= b.maxNodes
  }

  ghost predicate Reaches(h: Heap, b: Bounds, s: Scan, n: nat, last: Scan)
    requires FramesLive(h, s.stack)
    decreases n
  {
    if n == 0 then s == last
    else Next(h, b, s).More? && FramesLive(h, Next(h, b, s).next.stack)
         && Reaches(h, b, Next(h, b, s).next, n - 1, last)
  }

  /** On every input, cyclic ones included, and after any number of turns. */
  lemma {:induction false} MemoryIsBounded(h: Heap, b: Bounds, s: Scan, n: nat, last: Scan)
    requires WellFormed(h) && FramesLive(h, s.stack) && WithinMemory(b, s) && Reaches(h, b, s, n, last)
    ensures WithinMemory(b, last) && last.visited == s.visited + n && n <= b.maxNodes
    decreases n
  {
    if n > 0 { MemoryIsBounded(h, b, Next(h, b, s).next, n - 1, last); }
  }

  // ---- The loop ---------------------------------------------------------------------------------------------------

  /** The body of the loop: one frame leaves the stack, and its children join it. */
  method Visit(h: Heap, b: Bounds, stack0: seq<Frame>, visited0: nat)
    returns (violation: Option<Violation>, stack: seq<Frame>, visited: nat)
    requires WellFormed(h) && FramesLive(h, stack0) && stack0 != []
    ensures visited == visited0 + 1
    ensures Next(h, b, Scan(stack0, visited0))
            == if violation.Some? then Refused(violation.value) else More(Scan(stack, visited))
  {
    var frame := stack0[|stack0| - 1];
    stack, visited, violation := stack0[..|stack0| - 1], visited0 + 1, None;
    if visited > b.maxNodes { return Some(TooLarge(b.maxNodes)), stack, visited; }
    if frame.depth > b.maxDepth { return Some(TooDeep(b.maxDepth)), stack, visited; }
    var current := frame.value;
    if Scalar(current) { return; }
    if current.NonFinite? { return Some(NotFinite), stack, visited; }
    if current.Obj? {
      assert CellOk(h, h[current.ref]);
      match h[current.ref] {
        case Array(slots) =>
          if visited + |stack| + |slots| > b.maxNodes { return Some(TooLarge(b.maxNodes)), stack, visited; }
          stack := stack + Pushed(slots, frame.depth + 1);
        case Record(plain, keys, values) =>
          if !plain { return Some(NonPlainObject), stack, visited; }
          if visited + |stack| + |keys| > b.maxNodes { return Some(TooLarge(b.maxNodes)), stack, visited; }
          stack := stack + Pushed(Owned(values), frame.depth + 1);
      }
      return;
    }
    violation := Some(Unserializable);
  }

  /** boundedJsonViolation: undefined exactly for a finite JSON document within both bounds. */
  method BoundedJsonViolation(h: Heap, value: Value, b: Bounds) returns (r: Option<Violation>)
    requires WellFormed(h) && Live(h, value)
    ensures r == Verdict(h, b, Scan([Frame(value, 0)], 0))
    ensures r.None? <==> exists t :: Unfolds(h, value, t) && FitsDepth(t, b.maxDepth) && Nodes(t) <= b.maxNodes
  {
    var stack, visited := [Frame(value, 0)], 0;
    ghost var start := Scan(stack, visited);
    RootMeaning(h, b, value);
    while |stack| > 0
      invariant FramesLive(h, stack)
      invariant b.maxNodes >= 1 ==> visited + |stack| <= b.maxNodes
      invariant Verdict(h, b, Scan(stack, visited)) == Verdict(h, b, start)
      decreases if b.maxNodes > visited then b.maxNodes - visited else 0, |stack|
    {
      NextKeepsLive(h, b, Scan(stack, visited));
      MemoryStep(h, b, Scan(stack, visited));
      var violation;
      violation, stack, visited := Visit(h, b, stack, visited);
      if violation.Some? { return violation; }
    }
    return None;
  }

  lemma MemoryStep(h: Heap, b: Bounds, s: Scan)
    requires WellFormed(h) && FramesLive(h, s.stack) && s.stack != []
    ensures Next(h, b, s).More? && WithinMemory(b, s) ==> WithinMemory(b, Next(h, b, s).next)
    ensures Next(h, b, s).More? ==> Next(h, b, s).next.visited == s.visited + 1 <= b.maxNodes
  {}

  lemma RootMeaning(h: Heap, b: Bounds, value: Value)
    requires WellFormed(h) && Live(h, value)
    ensures Verdict(h, b, Scan([Frame(value, 0)], 0)).None?
            <==> exists t :: Unfolds(h, value, t) && FitsDepth(t, b.maxDepth) && Nodes(t) <= b.maxNodes
  {
    var root := Frame(value, 0);
    if Verdict(h, b, Scan([root], 0)).None? {
      var ts := AcceptedFits(h, b, Scan([root], 0));
      OneFrame(h, b, root, ts);
    }
    forall t | Unfolds(h, value, t) && FitsDepth(t, b.maxDepth) && Nodes(t) <= b.maxNodes
      ensures Verdict(h, b, Scan([root], 0)).None?
    {
      OneFrame(h, b, root, [t]);
      FittingIsAccepted(h, b, Scan([root], 0), [t]);
    }
  }

  lemma OneFrame(h: Heap, b: Bounds, frame: Frame, ts: seq<Tree>)
    requires |ts| == 1
    ensures StackFits(h, b, [frame], ts) <==> FrameFits(h, b, frame, ts[0])
    ensures AllNodes(ts) == Nodes(ts[0])
  {
    assert ts[..0] == [];
  }

  // ---- What a violation says --------------------------------------------------------------------------------------

  /** The path leads from the value to this one. */
  ghost predicate LeadsTo(h: Heap, p: seq<Value>, from: Value, to: Value) {
    Path(h, p) && p[0] == from && p[|p| - 1] == to
  }

  /** The frame was pushed for a value that many steps away, or for a hole of an array one step nearer. */
  ghost predicate FrameReached(h: Heap, root: Value, frame: Frame) {
    || (exists p :: LeadsTo(h, p, root, frame.value) && |p| == frame.depth + 1)
    || (frame.value.Opaque? && exists p, r :: LeadsTo(h, p, root, Obj(r)) && IsSparse(h, r) && |p| == frame.depth)
  }

  predicate IsSparse(h: Heap, r: Ref) {
    r in h && h[r].Array? && Hole in h[r].slots
  }

  ghost predicate StackReached(h: Heap, root: Value, stack: seq<Frame>) {
    forall i :: 0 <= i < |stack| ==> FrameReached(h, root, stack[i])
  }

  /** What the value holds when it is answered with this violation. */
  ghost predicate Explains(h: Heap, b: Bounds, root: Value, violation: Violation) {
    match violation
    case TooDeep(limit) =>
      limit == b.maxDepth
      && ((exists p, v :: LeadsTo(h, p, root, v) && |p| - 1 > limit)
          || exists p, r :: LeadsTo(h, p, root, Obj(r)) && IsSparse(h, r) && |p| > limit)
    case TooLarge(limit) =>
      limit == b.maxNodes && forall t, d: nat :: Unfolds(h, root, t) && FitsDepth(t, d) ==> Nodes(t) > limit
    case NotFinite => exists p :: LeadsTo(h, p, root, NonFinite)
    case NonPlainObject =>
      exists p, r :: LeadsTo(h, p, root, Obj(r)) && r in h && h[r].Record? && !h[r].plain
    case Unserializable =>
      (exists p :: LeadsTo(h, p, root, Opaque)) || exists p, r :: LeadsTo(h, p, root, Obj(r)) && IsSparse(h, r)
  }

  lemma OneStepFurther(h: Heap, root: Value, frame: Frame, p: seq<Value>, slot: Slot)
    requires frame.value.Obj? && frame.value.ref in h && (h[frame.value.ref].Record? ==> h[frame.value.ref].plain)
    requires LeadsTo(h, p, root, frame.value) && |p| == frame.depth + 1 && slot in Children(h[frame.value.ref])
    ensures FrameReached(h, root, Frame(if slot.Hole? then Opaque else slot.value, frame.depth + 1))
  {
    if slot.Own? {
      var q := p + [slot.value];
      forall i | 0 <= i < |q| - 1
        ensures Edge(h, q[i], q[i + 1])
      {
        if i < |p| - 1 { assert q[i] == p[i] && q[i + 1] == p[i + 1]; }
      }
      assert LeadsTo(h, q, root, slot.value);
    } else {
      assert LeadsTo(h, p, root, Obj(frame.value.ref)) && IsSparse(h, frame.value.ref);
    }
  }

  lemma PushedReached(h: Heap, root: Value, frame: Frame)
    requires FrameReached(h, root, frame) && frame.value.Obj? && frame.value.ref in h
    requires h[frame.value.ref].Record? ==> h[frame.value.ref].plain
    ensures StackReached(h, root, Pushed(Children(h[frame.value.ref]), frame.depth + 1))
  {
    var p :| LeadsTo(h, p, root, frame.value) && |p| == frame.depth + 1;
    var slots := Children(h[frame.value.ref]);
    var pushed := Pushed(slots, frame.depth + 1);
    forall i | 0 <= i < |pushed|
      ensures FrameReached(h, root, pushed[i])
    {
      OneStepFurther(h, root, frame, p, slots[i]);
    }
  }

  lemma RefusalExplains(h: Heap, b: Bounds, s: Scan, root: Value)
    requires FramesLive(h, s.stack) && s.stack != [] && FrameReached(h, root, s.stack[|s.stack| - 1])
    ensures var step := Next(h, b, s);
            step.Refused? && !step.violation.TooLarge? ==> Explains(h, b, root, step.violation)
  {}

  lemma StepReaches(h: Heap, b: Bounds, s: Scan, root: Value)
    requires WellFormed(h) && FramesLive(h, s.stack) && s.stack != [] && StackReached(h, root, s.stack)
    ensures Next(h, b, s).More? ==> StackReached(h, root, Next(h, b, s).next.stack)
  {
    var top, rest := s.stack[|s.stack| - 1], s.stack[..|s.stack| - 1];
    assert FrameReached(h, root, top) && StackReached(h, root, rest);
    if top.value.Obj? && (h[top.value.ref].Record? ==> h[top.value.ref].plain) { PushedReached(h, root, top); }
  }

  /** Under bounds that its documents fit, the stack is refused as too large only below their number of nodes. */
  lemma {:induction false} LargeIsLarge(h: Heap, b: Bounds, ample: Bounds, s: Scan, ts: seq<Tree>)
    requires WellFormed(h) && FramesLive(h, s.stack) && WithinBudget(h, ample, s, ts)
    ensures var r := Verdict(h, b, s); r.Some? && r.value.TooLarge? ==> ample.maxNodes > b.maxNodes
    decreases if b.maxNodes > s.visited then b.maxNodes - s.visited else 0
  {
    if s.stack != [] {
      var us := StepForward(h, ample, s, ts);
      NextKeepsLive(h, b, s);
      if Next(h, b, s).More? { LargeIsLarge(h, b, ample, Next(h, b, s).next, us); }
    }
  }

  lemma TooLargeIsReal(h: Heap, value: Value, b: Bounds, t: Tree, d: nat)
    requires WellFormed(h) && Live(h, value) && Unfolds(h, value, t) && FitsDepth(t, d)
    ensures var r := Verdict(h, b, Scan([Frame(value, 0)], 0)); r.Some? && r.value.TooLarge? ==> Nodes(t) > b.maxNodes
  {
    var ample := Bounds(d, Nodes(t));
    OneFrame(h, ample, Frame(value, 0), [t]);
    LargeIsLarge(h, b, ample, Scan([Frame(value, 0)], 0), [t]);
  }

  lemma {:induction false} VerdictExplains(h: Heap, b: Bounds, s: Scan, root: Value)
    requires WellFormed(h) && FramesLive(h, s.stack) && StackReached(h, root, s.stack)
    ensures Verdict(h, b, s).Some? && !Verdict(h, b, s).value.TooLarge? ==>
              Explains(h, b, root, Verdict(h, b, s).value)
    ensures Verdict(h, b, s).Some? && Verdict(h, b, s).value.TooLarge? ==> Verdict(h, b, s).value.limit == b.maxNodes
    decreases if b.maxNodes > s.visited then b.maxNodes - s.visited else 0
  {
    if s.stack != [] {
      RefusalExplains(h, b, s, root);
      StepReaches(h, b, s, root);
      NextKeepsLive(h, b, s);
      if Next(h, b, s).More? { VerdictExplains(h, b, Next(h, b, s).next, root); }
    }
  }

  /** A violation names what the value holds: something that is not JSON, a path too long, or too many nodes. */
  lemma ViolationIsReal(h: Heap, value: Value, b: Bounds)
    requires WellFormed(h) && Live(h, value)
    ensures var r := Verdict(h, b, Scan([Frame(value, 0)], 0)); r.Some? ==> Explains(h, b, value, r.value)
  {
    assert LeadsTo(h, [value], value, value);
    VerdictExplains(h, b, Scan([Frame(value, 0)], 0), value);
    forall t, d: nat | Unfolds(h, value, t) && FitsDepth(t, d) { TooLargeIsReal(h, value, b, t, d); }
  }

  // ---- An accepted value is safe to canonicalize ------------------------------------------------------------------

  lemma {:induction false} NormalFormKeepsDepth(t: Tree, d: int)
    requires Keyed(t) && FitsDepth(t, d)
    ensures FitsDepth(NormalForm(t), d)
    decreases t
  {
    if !t.Leaf? {
      forall i | 0 <= i < |t.kids|
        ensures FitsDepth(NormalForms(t.kids)[i], d - 1)
      {
        NormalFormKeepsDepth(t.kids[i], d - 1);
      }
      if t.Dict? {
        var xs := NormalForms(t.kids);
        forall i | 0 <= i < |t.kids|
          ensures FitsDepth(SortValues(t.keys, xs)[i], d - 1)
        {
          SortMovesTogether(t.keys, xs, xs, i);
        }
      }
    }
  }

  /** Once the bounded walk accepts a value, canonicalJson succeeds on it, and its result nests no deeper. */
  lemma AcceptedIsCanonicalizable(h: Heap, value: Value, b: Bounds)
    requires WellFormed(h) && Live(h, value) && Verdict(h, b, Scan([Frame(value, 0)], 0)).None?
    ensures Canonicalize(h, value, {}).Ok? && FitsDepth(Canonicalize(h, value, {}).value, b.maxDepth)
  {
    RootMeaning(h, b, value);
    var t :| Unfolds(h, value, t) && FitsDepth(t, b.maxDepth) && Nodes(t) <= b.maxNodes;
    CanonicalJsonMeaning(h, value);
    NormalFormKeepsDepth(t, b.maxDepth);
  }

  /** canonicalJson on an accepted value: it answers, and its deepest chain of nested calls is within maxDepth + 1. */
  method CanonicalizeAccepted(h: Heap, value: Value, b: Bounds) returns (r: Tree, ghost frames: nat)
    requires WellFormed(h) && Live(h, value) && Verdict(h, b, Scan([Frame(value, 0)], 0)).None?
    ensures Canonicalize(h, value, {}) == Ok(r) && FitsDepth(r, b.maxDepth)
    ensures 1 <= frames <= b.maxDepth + 1
  {
    AcceptedIsCanonicalizable(h, value, b);
    var canonicalizer := new Canonicalizer(h);
    var canonical;
    canonical, frames := canonicalizer.CanonicalizeValue(value);
    return canonical.value, frames;
  }
}
