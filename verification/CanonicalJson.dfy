/**
  canonicalJson: the depth-first walk with an ancestor set of packages/domain/src/execution.ts.

  The walk is specified by the recursive function Canonicalize, and Canonicalize by two independent readings of its
  input: the document the value unfolds to, and the offences reachable from it.
 */
module CanonicalJson {
  import opened Wrappers
  import opened JsonHeap
  import opened KeyOrder

  datatype Refusal = NonFiniteNumber | NotJson | Circular | SparseArray | NotPlainObject

  // ---- The walk ---------------------------------------------------------------------------------------------------

  /** canonicalizeValue, with the ancestor set as an argument. */
  function Canonicalize(h: Heap, v: Value, ancestors: set<Ref>): Result<Tree, Refusal>
    requires WellFormed(h) && Live(h, v)
    decreases h.Keys - ancestors, 0, 0
  {
    if Scalar(v) then Ok(Leaf(v))
    else if v.NonFinite? then Err(NonFiniteNumber)
    else if v.Opaque? then Err(NotJson)
    else if v.ref in ancestors then Err(Circular)
    else
      assert CellOk(h, h[v.ref]);
      match h[v.ref]
      case Array(slots) =>
        (match CanonicalizeSlots(h, slots, ancestors + {v.ref})
         case Ok(kids) => Ok(List(kids))
         case Err(e) => Err(e))
      case Record(plain, keys, values) =>
        if !plain then Err(NotPlainObject) else
        SortedValuesLive(h, keys, values);
        match CanonicalizeSlots(h, Owned(SortValues(keys, values)), ancestors + {v.ref})
        case Ok(kids) => Ok(Dict(SortKeys(keys), kids))
        case Err(e) => Err(e)
  }

  lemma SortedValuesLive(h: Heap, keys: seq<Text>, values: seq<Value>)
    requires |keys| == |values| && SlotsLive(h, Owned(values))
    ensures SlotsLive(h, Owned(SortValues(keys, values)))
    ensures forall s :: s in Owned(SortValues(keys, values)) ==> s in Owned(values)
  {
    var sorted := SortValues(keys, values);
    forall s | s in Owned(sorted)
      ensures s in Owned(values)
    {
      var i :| 0 <= i < |sorted| && Owned(sorted)[i] == s;
      SortMovesTogether(keys, values, values, i);
      var j :| 0 <= j < |values| && values[j] == sorted[i];
      assert Owned(values)[j] == s;
    }
  }

  /** Canonicalizes a list of children front to back and stops at the first refusal. */
  function CanonicalizeSlots(h: Heap, slots: seq<Slot>, ancestors: set<Ref>): (r: Result<seq<Tree>, Refusal>)
    requires WellFormed(h) && SlotsLive(h, slots)
    ensures r.Ok? ==> |r.value| == |slots|
    decreases h.Keys - ancestors, 1, |slots|
  {
    if slots == [] then Ok([])
    else if slots[0].Hole? then Err(SparseArray)
    else
      match Canonicalize(h, slots[0].value, ancestors)
      case Err(e) => Err(e)
      case Ok(first) =>
        match CanonicalizeSlots(h, slots[1..], ancestors)
        case Err(e) => Err(e)
        case Ok(rest) => Ok([first] + rest)
  }

  // ---- The normal form of a document ------------------------------------------------------------------------------

  /** A document whose objects have one property per key, as every value of a well-formed heap unfolds to. */
  ghost predicate Keyed(t: Tree)
    decreases t
  {
    && (t.Dict? ==> |t.keys| == |t.kids| && DistinctKeys(t.keys))
    && (!t.Leaf? ==> forall i :: 0 <= i < |t.kids| ==> Keyed(t.kids[i]))
  }

  ghost predicate AllKeyed(ts: seq<Tree>) {
    forall i :: 0 <= i < |ts| ==> Keyed(ts[i])
  }

  /** The document with the keys of every object in sorted order; arrays keep theirs. */
  ghost function NormalForm(t: Tree): Tree
    requires Keyed(t)
    decreases t, 0
  {
    match t
    case Leaf(_) => t
    case List(kids) => List(NormalForms(kids))
    case Dict(keys, kids) => Dict(SortKeys(keys), SortValues(keys, NormalForms(kids)))
  }

  ghost function NormalForms(ts: seq<Tree>): (r: seq<Tree>)
    requires AllKeyed(ts)
    ensures |r| == |ts| && forall i :: 0 <= i < |ts| ==> r[i] == NormalForm(ts[i])
    decreases ts, 1
  {
    if ts == [] then [] else [NormalForm(ts[0])] + NormalForms(ts[1..])
  }

  lemma {:induction false} UnfoldsKeyed(h: Heap, v: Value, t: Tree)
    requires WellFormed(h) && Unfolds(h, v, t)
    ensures Keyed(t)
    decreases t
  {
    if !t.Leaf? {
      forall i | 0 <= i < |t.kids|
        ensures Keyed(t.kids[i])
      {
        UnfoldsKeyed(h, Children(h[v.ref])[i].value, t.kids[i]);
      }
    }
  }

  lemma InsertNodes(p: nat, t: Tree, ts: seq<Tree>)
    requires p <= |ts|
    ensures AllNodes(Insert(p, t, ts)) == Nodes(t) + AllNodes(ts)
  {
    AllNodesConcat(ts[..p], ts[p..]);
    AllNodesAround(ts[..p], t, ts[p..]);
    InsertSplits(p, t, ts);
  }

  lemma InsertSplits<T>(p: nat, x: T, xs: seq<T>)
    requires p <= |xs|
    ensures Insert(p, x, xs) == xs[..p] + [x] + xs[p..] && xs == xs[..p] + xs[p..]
  {}

  lemma AllNodesAround(front: seq<Tree>, t: Tree, back: seq<Tree>)
    ensures AllNodes(front + [t] + back) == AllNodes(front) + Nodes(t) + AllNodes(back)
  {
    AllNodesConcat(front + [t], back);
    AllNodesConcat(front, [t]);
    NodesOfOne(t);
  }

  lemma NodesOfOne(t: Tree)
    ensures AllNodes([t]) == Nodes(t)
  {
    assert AllNodes([]) == 0;
  }

  lemma {:induction false} SortKeepsNodes(keys: seq<Text>, ts: seq<Tree>)
    requires |keys| == |ts|
    ensures AllNodes(SortValues(keys, ts)) == AllNodes(ts)
    decreases keys
  {
    if keys != [] {
      SortKeepsNodes(keys[1..], ts[1..]);
      InsertNodes(Spot(keys[0], SortKeys(keys[1..])), ts[0], SortValues(keys[1..], ts[1..]));
      InsertNodes(0, ts[0], ts[1..]);
      assert Insert(0, ts[0], ts[1..]) == ts;
    }
  }

  lemma {:induction false} NormalFormsCommute(keys: seq<Text>, ts: seq<Tree>)
    requires |keys| == |ts| && AllKeyed(ts)
    ensures AllKeyed(SortValues(keys, ts))
    ensures NormalForms(SortValues(keys, ts)) == SortValues(keys, NormalForms(ts))
  {
    forall i | 0 <= i < |keys|
      ensures Keyed(SortValues(keys, ts)[i])
      ensures NormalForm(SortValues(keys, ts)[i]) == SortValues(keys, NormalForms(ts))[i]
    {
      SortMovesTogether(keys, ts, NormalForms(ts), i);
      var j :| 0 <= j < |keys| && SortValues(keys, ts)[i] == ts[j]
               && SortValues(keys, NormalForms(ts))[i] == NormalForms(ts)[j];
    }
  }

  // ---- What the walk computes -------------------------------------------------------------------------------------

  /** No object of the document t, read from v, is one of the ancestors. */
  ghost predicate Avoids(h: Heap, v: Value, t: Tree, ancestors: set<Ref>)
    requires Unfolds(h, v, t)
    decreases t
  {
    && (v.Obj? ==> v.ref !in ancestors)
    && (!t.Leaf? ==> forall i :: 0 <= i < |t.kids| ==> Avoids(h, Children(h[v.ref])[i].value, t.kids[i], ancestors))
  }

  lemma {:induction false} AvoidsNone(h: Heap, v: Value, t: Tree)
    requires Unfolds(h, v, t)
    ensures Avoids(h, v, t, {})
    decreases t
  {
    if !t.Leaf? {
      forall i | 0 <= i < |t.kids|
        ensures Avoids(h, Children(h[v.ref])[i].value, t.kids[i], {})
      {
        AvoidsNone(h, Children(h[v.ref])[i].value, t.kids[i]);
      }
    }
  }

  /** A part of a document smaller than the object r cannot contain r. */
  lemma {:induction false} PartAvoids(h: Heap, v: Value, t: Tree, ancestors: set<Ref>, r: Ref, whole: Tree)
    requires Unfolds(h, v, t) && Avoids(h, v, t, ancestors)
    requires Unfolds(h, Obj(r), whole) && Nodes(t) < Nodes(whole)
    ensures Avoids(h, v, t, ancestors + {r})
    decreases t
  {
    if v == Obj(r) { UnfoldsUnique(h, v, t, whole); }
    if !t.Leaf? {
      forall i | 0 <= i < |t.kids|
        ensures Avoids(h, Children(h[v.ref])[i].value, t.kids[i], ancestors + {r})
      {
        NodesOfKid(t.kids, i);
        PartAvoids(h, Children(h[v.ref])[i].value, t.kids[i], ancestors, r, whole);
      }
    }
  }

  lemma SortedSlotsUnfold(h: Heap, keys: seq<Text>, values: seq<Value>, ts: seq<Tree>, ancestors: set<Ref>)
    requires |keys| == |values| && SlotsUnfold(h, Owned(values), ts, ancestors)
    ensures SlotsUnfold(h, Owned(SortValues(keys, values)), SortValues(keys, ts), ancestors)
  {
    forall i | 0 <= i < |keys|
      ensures Unfolds(h, SortValues(keys, values)[i], SortValues(keys, ts)[i])
      ensures Avoids(h, SortValues(keys, values)[i], SortValues(keys, ts)[i], ancestors)
    {
      SortMovesTogether(keys, values, ts, i);
      var j :| 0 <= j < |keys| && values[j] == SortValues(keys, values)[i] && ts[j] == SortValues(keys, ts)[i];
      assert Owned(values)[j].value == values[j];
    }
  }

  ghost predicate SlotsUnfold(h: Heap, slots: seq<Slot>, ts: seq<Tree>, ancestors: set<Ref>) {
    && |slots| == |ts|
    && forall i :: 0 <= i < |ts| ==>
         slots[i].Own? && Unfolds(h, slots[i].value, ts[i]) && Avoids(h, slots[i].value, ts[i], ancestors)
  }

  lemma KidsAvoidTheirParent(h: Heap, v: Value, t: Tree, ancestors: set<Ref>)
    requires Unfolds(h, v, t) && Avoids(h, v, t, ancestors) && !t.Leaf?
    ensures SlotsUnfold(h, Children(h[v.ref]), t.kids, ancestors + {v.ref})
  {
    forall i | 0 <= i < |t.kids|
      ensures Avoids(h, Children(h[v.ref])[i].value, t.kids[i], ancestors + {v.ref})
    {
      NodesOfKid(t.kids, i);
      PartAvoids(h, Children(h[v.ref])[i].value, t.kids[i], ancestors, v.ref, t);
    }
  }

  /** Every document is accepted, shared parts included, and comes back in normal form. */
  lemma {:induction false} DocumentIsCanonicalized(h: Heap, v: Value, t: Tree, ancestors: set<Ref>)
    requires WellFormed(h) && Live(h, v)
    requires Unfolds(h, v, t) && Avoids(h, v, t, ancestors) && Keyed(t)
    ensures Canonicalize(h, v, ancestors) == Ok(NormalForm(t))
    decreases Nodes(t), 0
  {
    if !t.Leaf? {
      var c := h[v.ref];
      assert CellOk(h, c);
      KidsAvoidTheirParent(h, v, t, ancestors);
      if t.List? {
        KidsAreCanonicalized(h, c.slots, t.kids, ancestors + {v.ref});
      } else {
        SortedKidsUnfold(h, c, t, ancestors + {v.ref});
        KidsAreCanonicalized(h, Owned(SortValues(c.keys, c.values)), SortValues(t.keys, t.kids), ancestors + {v.ref});
      }
    }
  }

  /** The properties of a record in sorted order unfold to the kids in sorted order. */
  lemma SortedKidsUnfold(h: Heap, c: Cell, t: Tree, ancestors: set<Ref>)
    requires WellFormed(h) && c.Record? && CellOk(h, c) && t.Dict? && Keyed(t) && t.keys == c.keys
    requires SlotsUnfold(h, Owned(c.values), t.kids, ancestors)
    ensures SlotsLive(h, Owned(SortValues(c.keys, c.values)))
    ensures SlotsUnfold(h, Owned(SortValues(c.keys, c.values)), SortValues(t.keys, t.kids), ancestors)
    ensures AllKeyed(SortValues(t.keys, t.kids)) && AllNodes(SortValues(t.keys, t.kids)) == AllNodes(t.kids)
    ensures NormalForms(SortValues(t.keys, t.kids)) == SortValues(t.keys, NormalForms(t.kids))
  {
    SortedValuesLive(h, c.keys, c.values);
    SortKeepsNodes(t.keys, t.kids);
    SortedSlotsUnfold(h, t.keys, c.values, t.kids, ancestors);
    NormalFormsCommute(t.keys, t.kids);
  }

  lemma {:induction false} KidsAreCanonicalized(h: Heap, slots: seq<Slot>, ts: seq<Tree>, ancestors: set<Ref>)
    requires WellFormed(h) && SlotsLive(h, slots)
    requires SlotsUnfold(h, slots, ts, ancestors) && AllKeyed(ts)
    ensures CanonicalizeSlots(h, slots, ancestors) == Ok(NormalForms(ts))
    decreases AllNodes(ts), 1
  {
    if ts != [] {
      NodesOfKid(ts, 0);
      AllNodesConcat([ts[0]], ts[1..]);
      assert ts == [ts[0]] + ts[1..];
      DocumentIsCanonicalized(h, slots[0].value, ts[0], ancestors);
      KidsAreCanonicalized(h, slots[1..], ts[1..], ancestors);
    }
  }

  lemma {:induction false} AcceptedSlots(h: Heap, slots: seq<Slot>, ancestors: set<Ref>)
    requires WellFormed(h) && SlotsLive(h, slots) && CanonicalizeSlots(h, slots, ancestors).Ok?
    ensures forall s :: s in slots ==> s.Own? && Canonicalize(h, s.value, ancestors).Ok?
    decreases |slots|
  {
    if slots != [] { AcceptedSlots(h, slots[1..], ancestors); }
  }

  /** Nothing but a document is accepted: the accepted value's document is built here. */
  lemma {:induction false} AcceptedUnfolds(h: Heap, v: Value, ancestors: set<Ref>) returns (t: Tree)
    requires WellFormed(h) && Live(h, v) && Canonicalize(h, v, ancestors).Ok?
    ensures Unfolds(h, v, t)
    decreases h.Keys - ancestors, 0, 0
  {
    if Scalar(v) {
      t := Leaf(v);
    } else {
      var c := h[v.ref];
      assert CellOk(h, c);
      var slots := Children(c);
      match c {
        case Array(_) =>
          AcceptedSlots(h, slots, ancestors + {v.ref});
        case Record(_, keys, values) =>
          SortedValuesLive(h, keys, values);
          var sorted := SortValues(keys, values);
          AcceptedSlots(h, Owned(sorted), ancestors + {v.ref});
          SortKeepsPairs(keys, values);
          forall s | s in slots
            ensures s.Own? && Canonicalize(h, s.value, ancestors + {v.ref}).Ok?
          {
            var i :| 0 <= i < |values| && slots[i] == s;
            assert (keys[i], values[i]) in Pairs(SortKeys(keys), sorted);
            var j :| 0 <= j < |keys| && sorted[j] == values[i];
            assert Owned(sorted)[j] in Owned(sorted);
          }
      }
      var kids := AcceptedKids(h, slots, ancestors + {v.ref});
      t := if c.Array? then List(kids) else Dict(c.keys, kids);
    }
  }

  lemma {:induction false} AcceptedKids(h: Heap, slots: seq<Slot>, ancestors: set<Ref>) returns (ts: seq<Tree>)
    requires WellFormed(h) && SlotsLive(h, slots)
    requires forall s :: s in slots ==> s.Own? && Canonicalize(h, s.value, ancestors).Ok?
    ensures |ts| == |slots| && forall i :: 0 <= i < |ts| ==> Unfolds(h, slots[i].value, ts[i])
    decreases h.Keys - ancestors, 1, |slots|
  {
    if slots == [] {
      ts := [];
    } else {
      assert slots[0] in slots;
      var first := AcceptedUnfolds(h, slots[0].value, ancestors);
      var rest := AcceptedKids(h, slots[1..], ancestors);
      ts := [first] + rest;
    }
  }

  /** The path ends on what this refusal is about. */
  ghost predicate FailsFor(h: Heap, p: seq<Value>, refusal: Refusal)
    requires p != []
  {
    var end := p[|p| - 1];
    match refusal
    case NonFiniteNumber => end.NonFinite?
    case NotJson => end.Opaque?
    case Circular => end.Obj? && end in p[..|p| - 1]
    case SparseArray => end.Obj? && end.ref in h && h[end.ref].Array? && Hole in h[end.ref].slots
    case NotPlainObject => end.Obj? && end.ref in h && h[end.ref].Record? && !h[end.ref].plain
  }

  /** A refused value reaches what it is refused for; the path to it continues the path walked so far. */
  lemma {:induction false} RefusedReachesReason(h: Heap, v: Value, ancestors: set<Ref>, walked: seq<Value>)
    returns (p: seq<Value>)
    requires WellFormed(h) && Live(h, v) && Canonicalize(h, v, ancestors).Err?
    requires Path(h, walked + [v]) && forall r :: r in ancestors ==> Obj(r) in walked
    ensures Path(h, p) && p[0] == (walked + [v])[0] && FailsFor(h, p, Canonicalize(h, v, ancestors).error)
    decreases h.Keys - ancestors, 0, 0
  {
    p := walked + [v];
    assert p[..|p| - 1] == walked;
    if v.Obj? && v.ref !in ancestors && !(h[v.ref].Record? && !h[v.ref].plain) {
      var s := RefusedChild(h, v, ancestors);
      if s.Own? {
        var longer := walked + [v];
        assert forall i :: 0 <= i < |longer| - 1 ==> Edge(h, longer[i], longer[i + 1]);
        p := RefusedReachesReason(h, s.value, ancestors + {v.ref}, longer);
        assert p[0] == (longer + [s.value])[0];
      }
    }
  }

  /** The child an object is refused for: a hole, or one refused for the same reason. */
  lemma RefusedChild(h: Heap, v: Value, ancestors: set<Ref>) returns (s: Slot)
    requires WellFormed(h) && Live(h, v) && v.Obj? && v.ref !in ancestors && Canonicalize(h, v, ancestors).Err?
    requires h[v.ref].Record? ==> h[v.ref].plain
    ensures s in Children(h[v.ref])
    ensures s.Hole? ==> h[v.ref].Array? && Canonicalize(h, v, ancestors).error == SparseArray
    ensures s.Own? ==> Live(h, s.value) && Edge(h, v, s.value)
                       && Canonicalize(h, s.value, ancestors + {v.ref}) == Canonicalize(h, v, ancestors)
  {
    var c := h[v.ref];
    assert CellOk(h, c);
    var slots := if c.Array? then c.slots else Owned(SortValues(c.keys, c.values));
    if c.Record? { SortedValuesLive(h, c.keys, c.values); }
    s := RefusedSlot(h, slots, ancestors + {v.ref});
    if c.Record? { assert s in Owned(c.values); }
  }

  lemma {:induction false} RefusedSlot(h: Heap, slots: seq<Slot>, ancestors: set<Ref>) returns (s: Slot)
    requires WellFormed(h) && SlotsLive(h, slots) && CanonicalizeSlots(h, slots, ancestors).Err?
    ensures s in slots
    ensures if s.Hole? then CanonicalizeSlots(h, slots, ancestors).error == SparseArray
            else Canonicalize(h, s.value, ancestors) == Err(CanonicalizeSlots(h, slots, ancestors).error)
    decreases |slots|
  {
    if slots[0].Hole? || Canonicalize(h, slots[0].value, ancestors).Err? {
      s := slots[0];
    } else {
      s := RefusedSlot(h, slots[1..], ancestors);
    }
  }

  lemma ReasonIsOffence(h: Heap, p: seq<Value>, refusal: Refusal)
    requires Path(h, p) && FailsFor(h, p, refusal)
    ensures Offending(h, p)
  {
    if refusal.Circular? {
      var i :| 0 <= i < |p| - 1 && p[..|p| - 1][i] == p[|p| - 1];
      assert p[i] == p[|p| - 1];
    }
  }

  /**
    canonicalJson on any finite object graph: accepted with the normal form, or refused for a reachable offence, and
    then for one of the kind its exception names.
   */
  lemma CanonicalJsonMeaning(h: Heap, v: Value)
    requires WellFormed(h) && Live(h, v)
    ensures Canonicalize(h, v, {}).Err? <==> ReachesOffence(h, v)
    ensures Canonicalize(h, v, {}).Err? ==>
              exists p :: Path(h, p) && p[0] == v && FailsFor(h, p, Canonicalize(h, v, {}).error)
    ensures Canonicalize(h, v, {}).Ok? <==> exists t :: Unfolds(h, v, t)
    ensures forall t :: Unfolds(h, v, t) ==> Keyed(t) && Canonicalize(h, v, {}) == Ok(NormalForm(t))
  {
    forall t | Unfolds(h, v, t)
      ensures Keyed(t) && Canonicalize(h, v, {}) == Ok(NormalForm(t)) && !ReachesOffence(h, v)
    {
      UnfoldsKeyed(h, v, t);
      AvoidsNone(h, v, t);
      DocumentIsCanonicalized(h, v, t, {});
      UnfoldsExcludesOffence(h, v, t);
    }
    if Canonicalize(h, v, {}).Ok? {
      var t := AcceptedUnfolds(h, v, {});
      assert Unfolds(h, v, t);
    } else {
      assert ([] + [v])[0] == v;
      var p := RefusedReachesReason(h, v, {}, []);
      ReasonIsOffence(h, p, Canonicalize(h, v, {}).error);
    }
  }

  // ---- Normal forms decide equality up to key order ---------------------------------------------------------------

  /** The same document but for the order in which objects list their keys; array order counts. */
  ghost predicate SameUpToKeyOrder(t: Tree, u: Tree)
    decreases t
  {
    match (t, u)
    case (Leaf(a), Leaf(b)) => a == b
    case (List(ts), List(us)) =>
      |ts| == |us| && forall i :: 0 <= i < |ts| ==> SameUpToKeyOrder(ts[i], us[i])
    case (Dict(ks, ts), Dict(ls, us)) =>
      && |ks| == |ts| && |ls| == |us|
      && (forall k :: k in ks <==> k in ls)
      && forall i, j :: 0 <= i < |ks| && 0 <= j < |ls| && ks[i] == ls[j] ==> SameUpToKeyOrder(ts[i], us[j])
    case _ => false
  }

  /** Normal forms are equal exactly for documents that differ only in key order. */
  lemma {:induction false} NormalFormDecides(t: Tree, u: Tree)
    requires Keyed(t) && Keyed(u)
    ensures NormalForm(t) == NormalForm(u) <==> SameUpToKeyOrder(t, u)
    decreases t, 1
  {
    if t.List? && u.List? {
      if |t.kids| == |u.kids| {
        forall i | 0 <= i < |t.kids|
          ensures NormalForm(t.kids[i]) == NormalForm(u.kids[i]) <==> SameUpToKeyOrder(t.kids[i], u.kids[i])
        {
          NormalFormDecides(t.kids[i], u.kids[i]);
        }
        if SameUpToKeyOrder(t, u) { assert NormalForms(t.kids) == NormalForms(u.kids); }
      }
    } else if t.Dict? && u.Dict? {
      DictFormsDecide(t, u);
    }
  }

  lemma {:induction false} DictFormsDecide(t: Tree, u: Tree)
    requires Keyed(t) && Keyed(u) && t.Dict? && u.Dict?
    ensures NormalForm(t) == NormalForm(u) <==> SameUpToKeyOrder(t, u)
    decreases t, 0
  {
    var xs, ys := NormalForms(t.kids), NormalForms(u.kids);
    forall i, j | 0 <= i < |t.keys| && 0 <= j < |u.keys| && t.keys[i] == u.keys[j]
      ensures xs[i] == ys[j] <==> SameUpToKeyOrder(t.kids[i], u.kids[j])
    {
      NormalFormDecides(t.kids[i], u.kids[j]);
    }
    SortedDictsAgree(t.keys, xs, u.keys, ys);
    SameDicts(t, u);
  }

  lemma SameDicts(t: Tree, u: Tree)
    requires t.Dict? && u.Dict? && |t.keys| == |t.kids| && |u.keys| == |u.kids|
    ensures SameUpToKeyOrder(t, u) <==>
              && (forall k :: k in t.keys <==> k in u.keys)
              && forall i, j :: 0 <= i < |t.keys| && 0 <= j < |u.keys| && t.keys[i] == u.keys[j] ==>
                   SameUpToKeyOrder(t.kids[i], u.kids[j])
  {}

  /** Two sorted dictionaries are equal when they have the same keys and equal values at each. */
  lemma SortedDictsAgree(ks: seq<Text>, xs: seq<Tree>, ls: seq<Text>, ys: seq<Tree>)
    requires |ks| == |xs| && |ls| == |ys| && DistinctKeys(ks) && DistinctKeys(ls)
    ensures Dict(SortKeys(ks), SortValues(ks, xs)) == Dict(SortKeys(ls), SortValues(ls, ys)) <==>
              && (forall k :: k in ks <==> k in ls)
              && forall i, j :: 0 <= i < |ks| && 0 <= j < |ls| && ks[i] == ls[j] ==> xs[i] == ys[j]
  {
    SortedListsDecide(ks, xs, ls, ys);
  }

  /** A normal form is a document of its own, keyed, and differs from the original only in key order. */
  lemma {:induction false} NormalFormIsSame(t: Tree)
    requires Keyed(t)
    ensures Keyed(NormalForm(t)) && SameUpToKeyOrder(NormalForm(t), t)
    decreases t
  {
    if !t.Leaf? {
      forall i | 0 <= i < |t.kids|
        ensures Keyed(NormalForm(t.kids[i])) && SameUpToKeyOrder(NormalForm(t.kids[i]), t.kids[i])
      {
        NormalFormIsSame(t.kids[i]);
      }
      if t.Dict? {
        var n, xs := NormalForm(t), NormalForms(t.kids);
        SortIsSorted(t.keys);
        SortKeepsPairs(t.keys, xs);
        SamePairsSameValues(n.keys, n.kids, t.keys, xs);
        forall i | 0 <= i < |n.kids|
          ensures Keyed(n.kids[i])
        {
          SortMovesTogether(t.keys, xs, xs, i);
        }
      }
    }
  }

  /**
    The laws the module documents, over heaps: equal results exactly for documents that differ only in key order,
    whatever objects and sharing carry them, and a result given back to canonicalJson returns itself.
   */
  lemma CanonicalJsonLaws(h: Heap, v: Value, t: Tree, h': Heap, v': Value, t': Tree)
    requires WellFormed(h) && Live(h, v) && Unfolds(h, v, t)
    requires WellFormed(h') && Live(h', v') && Unfolds(h', v', t')
    ensures Keyed(t) && Keyed(t')
    ensures Canonicalize(h, v, {}) == Canonicalize(h', v', {}) <==> SameUpToKeyOrder(t, t')
    ensures t' == NormalForm(t) ==> Canonicalize(h', v', {}) == Ok(t')
  {
    CanonicalJsonMeaning(h, v);
    CanonicalJsonMeaning(h', v');
    NormalFormDecides(t, t');
    NormalFormIsSame(t);
    NormalFormDecides(NormalForm(t), t);
  }

  // ---- The imperative walk ----------------------------------------------------------------------------------------

  function Prepend(front: seq<Tree>, rest: Result<seq<Tree>, Refusal>): (r: Result<seq<Tree>, Refusal>)
    ensures front == [] ==> r == rest
  {
    match rest
    case Ok(ts) => assert front == [] ==> front + ts == ts; Ok(front + ts)
    case Err(e) => Err(e)
  }

  ghost predicate AllFit(ts: seq<Tree>, d: int) {
    forall i :: 0 <= i < |ts| ==> FitsDepth(ts[i], d)
  }

  /** The deepest chain of calls below a list of children is at most one longer than the nesting of what they return. */
  ghost predicate FramesWithin(frames: nat, ts: seq<Tree>) {
    forall d :: d >= -1 && AllFit(ts, d) ==> frames <= d + 1
  }

  lemma FramesGrow(deepest: nat, ts: seq<Tree>, frames: nat, t: Tree)
    requires FramesWithin(deepest, ts)
    requires forall d :: FitsDepth(t, d) ==> frames <= d + 1
    ensures FramesWithin(if frames > deepest then frames else deepest, ts + [t])
  {
    forall d | d >= -1 && AllFit(ts + [t], d)
      ensures frames <= d + 1 && deepest <= d + 1
    {
      assert (ts + [t])[|ts|] == t;
      assert forall i :: 0 <= i < |ts| ==> (ts + [t])[i] == ts[i];
      assert AllFit(ts, d);
    }
  }

  lemma FramesOfObject(deepest: nat, t: Tree)
    requires !t.Leaf? && FramesWithin(deepest, t.kids)
    ensures forall d :: FitsDepth(t, d) ==> deepest + 1 <= d + 1
  {
    forall d | FitsDepth(t, d)
      ensures deepest <= d
    {
      assert AllFit(t.kids, d - 1);
    }
  }

  class Canonicalizer {
    const heap: Heap
    var ancestors: set<Ref>

    constructor (heap: Heap)
      ensures this.heap == heap && ancestors == {}
    {
      this.heap := heap;
      ancestors := {};
    }

    /**
      canonicalizeValue. The object joins the ancestors while its children are walked and leaves them on every way
      out, a refusal included. frames counts the nested calls of the deepest chain.
     */
    method CanonicalizeValue(v: Value) returns (r: Result<Tree, Refusal>, ghost frames: nat)
      requires WellFormed(heap) && Live(heap, v)
      modifies this
      ensures ancestors == old(ancestors)
      ensures r == Canonicalize(heap, v, ancestors)
      ensures 1 <= frames <= |heap.Keys - ancestors| + 1
      ensures r.Ok? ==> forall d :: FitsDepth(r.value, d) ==> frames <= d + 1
      decreases heap.Keys - ancestors, 0
    {
      frames := 1;
      if Scalar(v) { return Ok(Leaf(v)), frames; }
      if v.NonFinite? { return Err(NonFiniteNumber), frames; }
      if v.Opaque? { return Err(NotJson), frames; }
      if v.ref in ancestors { return Err(Circular), frames; }

      assert CellOk(heap, heap[v.ref]);
      assert heap.Keys - ancestors == heap.Keys - (ancestors + {v.ref}) + {v.ref};
      ancestors := ancestors + {v.ref};
      ghost var below := 0;
      match heap[v.ref] {
        case Array(slots) =>
          var kids;
          kids, below := CanonicalizeChildren(slots);
          r := match kids case Ok(ts) => Ok(List(ts)) case Err(e) => Err(e);
        case Record(plain, keys, values) =>
          if !plain {
            r := Err(NotPlainObject);
          } else {
            SortedValuesLive(heap, keys, values);
            var kids;
            kids, below := CanonicalizeChildren(Owned(SortValues(keys, values)));
            r := match kids case Ok(ts) => Ok(Dict(SortKeys(keys), ts)) case Err(e) => Err(e);
          }
      }
      if r.Ok? { FramesOfObject(below, r.value); }
      frames := below + 1;
      ancestors := ancestors - {v.ref};
    }

    /** The element loop and the key loop of canonicalizeValue: front to back, stopping at the first refusal. */
    method CanonicalizeChildren(slots: seq<Slot>) returns (r: Result<seq<Tree>, Refusal>, ghost frames: nat)
      requires WellFormed(heap) && SlotsLive(heap, slots)
      modifies this
      ensures ancestors == old(ancestors)
      ensures r == CanonicalizeSlots(heap, slots, ancestors)
      ensures frames <= |heap.Keys - ancestors| + 1
      ensures r.Ok? ==> FramesWithin(frames, r.value)
      decreases heap.Keys - ancestors, 1
    {
      var canonical: seq<Tree> := [];
      frames := 0;
      for index := 0 to |slots|
        invariant ancestors == old(ancestors)
        invariant frames <= |heap.Keys - ancestors| + 1
        invariant |canonical| == index && FramesWithin(frames, canonical)
        invariant CanonicalizeSlots(heap, slots, ancestors)
                  == Prepend(canonical, CanonicalizeSlots(heap, slots[index..], ancestors))
      {
        if slots[index].Hole? { return Err(SparseArray), frames; }
        assert slots[index] in slots;
        var item, below := CanonicalizeValue(slots[index].value);
        if item.Ok? { FramesGrow(frames, canonical, below, item.value); }
        frames := if below > frames then below else frames;
        if item.Err? { return Err(item.error), frames; }
        ChildrenStep(heap, slots, index, ancestors, canonical);
        canonical := canonical + [item.value];
      }
      assert slots[|slots|..] == [] && canonical + [] == canonical;
      return Ok(canonical), frames;
    }
  }

  lemma ChildrenStep(h: Heap, slots: seq<Slot>, index: nat, ancestors: set<Ref>, front: seq<Tree>)
    requires WellFormed(h) && SlotsLive(h, slots) && index < |slots|
    requires slots[index].Own? && Live(h, slots[index].value) && Canonicalize(h, slots[index].value, ancestors).Ok?
    ensures Prepend(front, CanonicalizeSlots(h, slots[index..], ancestors))
            == Prepend(front + [Canonicalize(h, slots[index].value, ancestors).value],
                       CanonicalizeSlots(h, slots[index + 1..], ancestors))
  {
    assert slots[index..][1..] == slots[index + 1..];
    var first := Canonicalize(h, slots[index].value, ancestors).value;
    var rest := CanonicalizeSlots(h, slots[index + 1..], ancestors);
    if rest.Ok? { assert front + ([first] + rest.value) == front + [first] + rest.value; }
  }
}
