/**
  JavaScript values over an explicit heap, as the JSON walks of packages/domain/src read them.

  Objects are heap cells named by references, so two properties can share one object and an object can reach itself.
  Tree is what such a value unfolds to when it does unfold: a finite JSON document.
 */
module JsonHeap {

  /** A string as JavaScript compares it: UTF-16 code units. */
  type CodeUnit = c: nat | c < 0x10000
  type Text = seq<CodeUnit>
  type Ref = nat

  /** Opaque stands for undefined, functions, symbols and bigints; NonFinite for NaN and the infinities. */
  datatype Value =
    | Null
    | Bool(flag: bool)
    | Number(number: real)
    | Str(text: Text)
    | NonFinite
    | Opaque
    | Obj(ref: Ref)

  datatype Slot = Hole | Own(value: Value)

  /** An array with its possibly empty slots, or an object with its own enumerable keys in insertion order. */
  datatype Cell =
    | Array(slots: seq<Slot>)
    | Record(plain: bool, keys: seq<Text>, values: seq<Value>)

  type Heap = map<Ref, Cell>

  predicate Live(h: Heap, v: Value) {
    v.Obj? ==> v.ref in h
  }

  predicate DistinctKeys(keys: seq<Text>) {
    forall i, j :: 0 <= i < j < |keys| ==> keys[i] != keys[j]
  }

  function Owned(values: seq<Value>): (slots: seq<Slot>)
    ensures |slots| == |values| && forall i :: 0 <= i < |values| ==> slots[i] == Own(values[i])
  {
    seq(|values|, i requires 0 <= i < |values| => Own(values[i]))
  }

  /** The elements of an array or the property values of an object. */
  function Children(c: Cell): seq<Slot> {
    match c
    case Array(slots) => slots
    case Record(_, _, values) => Owned(values)
  }

  predicate SlotsLive(h: Heap, slots: seq<Slot>) {
    forall s :: s in slots && s.Own? ==> Live(h, s.value)
  }

  predicate CellOk(h: Heap, c: Cell) {
    && SlotsLive(h, Children(c))
    && (c.Record? ==> |c.keys| == |c.values| && DistinctKeys(c.keys))
  }

  /** What the language guarantees of any heap: references resolve and an object has one property per key. */
  predicate WellFormed(h: Heap) {
    forall r :: r in h ==> CellOk(h, h[r])
  }

  predicate Scalar(v: Value) {
    v.Null? || v.Bool? || v.Number? || v.Str?
  }

  /** A finite JSON document. */
  datatype Tree =
    | Leaf(leaf: Value)
    | List(kids: seq<Tree>)
    | Dict(keys: seq<Text>, kids: seq<Tree>)

  /** The cell has the outward form of the document: same kind, same keys, same number of children. */
  predicate SameShape(c: Cell, t: Tree)
    requires !t.Leaf?
  {
    && (t.List? ==> c.Array?)
    && (t.Dict? ==> c.Record? && c.plain && c.keys == t.keys && |t.keys| == |t.kids|)
    && |Children(c)| == |t.kids|
  }

  /** v, read through h, is exactly the document t. */
  ghost predicate Unfolds(h: Heap, v: Value, t: Tree)
    decreases t
  {
    if t.Leaf? then v == t.leaf && Scalar(v) else
    && v.Obj? && v.ref in h && SameShape(h[v.ref], t)
    && var slots := Children(h[v.ref]);
       forall i :: 0 <= i < |t.kids| ==> slots[i].Own? && Unfolds(h, slots[i].value, t.kids[i])
  }

  ghost function Nodes(t: Tree): (n: nat)
    ensures n >= 1
    decreases t, 0
  {
    if t.Leaf? then 1 else 1 + AllNodes(t.kids)
  }

  ghost function AllNodes(ts: seq<Tree>): (n: nat)
    ensures n >= |ts|
    decreases ts, 1
  {
    if ts == [] then 0 else AllNodes(ts[..|ts| - 1]) + Nodes(ts[|ts| - 1])
  }

  /** The document nests at most d levels below its root: a scalar or an empty container needs d >= 0. */
  ghost predicate FitsDepth(t: Tree, d: int)
    decreases t
  {
    d >= 0 && (!t.Leaf? ==> forall i :: 0 <= i < |t.kids| ==> FitsDepth(t.kids[i], d - 1))
  }

  lemma NodesOfKid(ts: seq<Tree>, i: nat)
    requires i < |ts|
    ensures Nodes(ts[i]) <= AllNodes(ts)
  {
    if i < |ts| - 1 { NodesOfKid(ts[..|ts| - 1], i); }
  }

  lemma AllNodesConcat(a: seq<Tree>, b: seq<Tree>)
    ensures AllNodes(a + b) == AllNodes(a) + AllNodes(b)
  {
    if b == [] {
      assert a + b == a;
    } else {
      AllNodesConcat(a, b[..|b| - 1]);
      assert (a + b)[..|a + b| - 1] == a + b[..|b| - 1];
    }
  }

  /** The document a value unfolds to is unique. */
  lemma {:induction false} UnfoldsUnique(h: Heap, v: Value, t: Tree, u: Tree)
    requires Unfolds(h, v, t) && Unfolds(h, v, u)
    ensures t == u
    decreases t
  {
    if !t.Leaf? {
      forall i | 0 <= i < |t.kids|
        ensures t.kids[i] == u.kids[i]
      {
        UnfoldsUnique(h, Children(h[v.ref])[i].value, t.kids[i], u.kids[i]);
      }
      assert t.kids == u.kids;
    }
  }

  // ---- Reachability: what a refused value contains ----------------------------------------------------------------

  /** w is an element or a property value of the object u. */
  ghost predicate Edge(h: Heap, u: Value, w: Value) {
    && u.Obj? && u.ref in h
    && (h[u.ref].Record? ==> h[u.ref].plain)
    && Own(w) in Children(h[u.ref])
  }

  ghost predicate Path(h: Heap, p: seq<Value>) {
    p != [] && forall i :: 0 <= i < |p| - 1 ==> Edge(h, p[i], p[i + 1])
  }

  /** A value that is not JSON in itself, whatever it contains. */
  predicate Malformed(h: Heap, v: Value) {
    || v.NonFinite? || v.Opaque?
    || (v.Obj? && v.ref in h &&
        (Hole in Children(h[v.ref]) || (h[v.ref].Record? && !h[v.ref].plain)))
  }

  /** The path ends on a malformed value or comes back to an object it already passed. */
  ghost predicate Offending(h: Heap, p: seq<Value>)
    requires p != []
  {
    var end := p[|p| - 1];
    Malformed(h, end) || (end.Obj? && exists i :: 0 <= i < |p| - 1 && p[i] == end)
  }

  ghost predicate ReachesOffence(h: Heap, v: Value) {
    exists p :: Path(h, p) && p[0] == v && Offending(h, p)
  }

  /** Every value on a path from a document unfolds to a part of it, strictly smaller past the first step. */
  lemma {:induction false} PathShrinks(h: Heap, p: seq<Value>, t: Tree) returns (end: Tree)
    requires Path(h, p) && Unfolds(h, p[0], t)
    ensures Unfolds(h, p[|p| - 1], end)
    ensures if |p| == 1 then end == t else Nodes(end) < Nodes(t)
    decreases |p|
  {
    if |p| == 1 {
      end := t;
    } else {
      assert Edge(h, p[0], p[1]);
      var slots := Children(h[p[0].ref]);
      var i :| 0 <= i < |slots| && slots[i] == Own(p[1]);
      NodesOfKid(t.kids, i);
      forall j | 0 <= j < |p[1..]| - 1
        ensures Edge(h, p[1..][j], p[1..][j + 1])
      {
        assert Edge(h, p[j + 1], p[j + 2]);
      }
      end := PathShrinks(h, p[1..], t.kids[i]);
    }
  }

  lemma PathSplits(h: Heap, p: seq<Value>, i: nat)
    requires Path(h, p) && i < |p|
    ensures Path(h, p[..i + 1]) && Path(h, p[i..])
  {
    forall j | 0 <= j < |p[i..]| - 1
      ensures Edge(h, p[i..][j], p[i..][j + 1])
    {
      assert Edge(h, p[i + j], p[i + j + 1]);
    }
  }

  lemma DocumentHasNoCycle(h: Heap, p: seq<Value>, i: nat, t: Tree)
    requires Path(h, p) && Unfolds(h, p[0], t) && i < |p| - 1
    ensures p[i] != p[|p| - 1]
  {
    PathSplits(h, p, i);
    var middle := PathShrinks(h, p[..i + 1], t);
    var end := PathShrinks(h, p[i..], middle);
    if p[i] == p[|p| - 1] { UnfoldsUnique(h, p[i], middle, end); }
  }

  /** A document contains no offence: no malformed value and no cycle is reachable from it. */
  lemma UnfoldsExcludesOffence(h: Heap, v: Value, t: Tree)
    requires Unfolds(h, v, t)
    ensures !ReachesOffence(h, v)
  {
    forall p | Path(h, p) && p[0] == v
      ensures !Offending(h, p)
    {
      var end := PathShrinks(h, p, t);
      var last: Value := p[|p| - 1];
      assert !Malformed(h, last) by {
        if !end.Leaf? {
          var slots := Children(h[last.ref]);
          assert forall i :: 0 <= i < |end.kids| ==> slots[i].Own?;
        }
      }
      forall i | 0 <= i < |p| - 1
        ensures p[i] != p[|p| - 1]
      {
        DocumentHasNoCycle(h, p, i, t);
      }
    }
  }
}
