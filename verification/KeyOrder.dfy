/**
  Sorting the keys of an object, as Object.keys(source).sort() does, with the values carried along.

  A property list is a pair of parallel sequences. Sorting permutes both by the keys alone, keeps the properties as a
  set, and gives equal lists exactly for equal sets of properties.
 */
module KeyOrder {
  import opened JsonHeap

  /** Array.prototype.sort on strings: lexicographic on code units. */
  predicate KeyLess(a: Text, b: Text) {
    b != [] && (a == [] || a[0] < b[0] || (a[0] == b[0] && KeyLess(a[1..], b[1..])))
  }

  lemma {:induction false} KeyLessTotal(a: Text, b: Text)
    ensures a == b || KeyLess(a, b) || KeyLess(b, a)
    ensures !(KeyLess(a, b) && KeyLess(b, a))
  {
    if a != [] && b != [] && a[0] == b[0] {
      KeyLessTotal(a[1..], b[1..]);
      assert a == [a[0]] + a[1..] && b == [b[0]] + b[1..];
    }
  }

  lemma {:induction false} KeyLessTransitive(a: Text, b: Text, c: Text)
    requires KeyLess(a, b) && KeyLess(b, c)
    ensures KeyLess(a, c)
  {
    if a != [] && a[0] == b[0] == c[0] { KeyLessTransitive(a[1..], b[1..], c[1..]); }
  }

  /** At the first place where they differ a has the smaller code unit, or nothing. */
  ghost predicate ComesBefore(a: Text, b: Text, k: nat) {
    k < |b| && k <= |a| && (forall i :: 0 <= i < k ==> a[i] == b[i]) && (k == |a| || a[k] < b[k])
  }

  /** One key is before another exactly when it comes before it at their first difference. */
  lemma {:induction false} KeyLessAtDifference(a: Text, b: Text)
    ensures KeyLess(a, b) <==> exists k: nat :: ComesBefore(a, b, k)
    decreases a
  {
    if a != [] && b != [] {
      KeyLessAtDifference(a[1..], b[1..]);
      if k: nat :| ComesBefore(a[1..], b[1..], k) && a[0] == b[0] {
        forall i | 0 <= i < k + 1
          ensures a[i] == b[i]
        {
          if i > 0 { assert a[1..][i - 1] == b[1..][i - 1]; }
        }
        assert ComesBefore(a, b, k + 1);
      }
      if k: nat :| ComesBefore(a, b, k) && k > 0 {
        assert ComesBefore(a[1..], b[1..], k - 1);
      }
      if a[0] < b[0] { assert ComesBefore(a, b, 0); }
    } else if b != [] {
      assert ComesBefore(a, b, 0);
    }
  }

  ghost predicate Sorted(keys: seq<Text>) {
    forall i, j :: 0 <= i < j < |keys| ==> KeyLess(keys[i], keys[j])
  }

  /** Where key goes among keys already sorted. */
  function Spot(key: Text, keys: seq<Text>): (p: nat)
    ensures p <= |keys|
  {
    if keys == [] || !KeyLess(keys[0], key) then 0 else 1 + Spot(key, keys[1..])
  }

  function Insert<T>(p: nat, x: T, xs: seq<T>): (r: seq<T>)
    requires p <= |xs|
    ensures |r| == |xs| + 1 && r[p] == x
    ensures forall i :: 0 <= i < |xs| ==> r[if i < p then i else i + 1] == xs[i]
  {
    xs[..p] + [x] + xs[p..]
  }

  function SortKeys(keys: seq<Text>): (r: seq<Text>)
    ensures |r| == |keys|
  {
    if keys == [] then [] else
    var rest := SortKeys(keys[1..]);
    Insert(Spot(keys[0], rest), keys[0], rest)
  }

  /** The property values in the order of the sorted keys. */
  function SortValues<T>(keys: seq<Text>, values: seq<T>): (r: seq<T>)
    requires |keys| == |values|
    ensures |r| == |keys|
    decreases keys
  {
    if keys == [] then [] else
    Insert(Spot(keys[0], SortKeys(keys[1..])), values[0], SortValues(keys[1..], values[1..]))
  }

  lemma {:induction false} SpotSorts(key: Text, keys: seq<Text>)
    requires Sorted(keys) && key !in keys
    ensures forall i :: 0 <= i < Spot(key, keys) ==> KeyLess(keys[i], key)
    ensures forall i :: Spot(key, keys) <= i < |keys| ==> KeyLess(key, keys[i])
  {
    if keys != [] {
      KeyLessTotal(keys[0], key);
      if KeyLess(keys[0], key) {
        SpotSorts(key, keys[1..]);
        assert keys == [keys[0]] + keys[1..];
      } else {
        forall i | 0 < i < |keys|
          ensures KeyLess(key, keys[i])
        {
          KeyLessTransitive(key, keys[0], keys[i]);
        }
      }
    }
  }

  /** The properties of an object as a set: its meaning, without the order of its keys. */
  ghost function Pairs<T>(keys: seq<Text>, values: seq<T>): set<(Text, T)>
    requires |keys| == |values|
  {
    set i | 0 <= i < |keys| :: (keys[i], values[i])
  }

  lemma PairsInsert<T>(p: nat, key: Text, value: T, keys: seq<Text>, values: seq<T>)
    requires |keys| == |values| && p <= |keys|
    ensures Pairs(Insert(p, key, keys), Insert(p, value, values)) == {(key, value)} + Pairs(keys, values)
  {
    var ks, vs := Insert(p, key, keys), Insert(p, value, values);
    assert ks[p] == key && vs[p] == value;
    forall i | 0 <= i < |keys|
      ensures (keys[i], values[i]) in Pairs(ks, vs)
    {
      var j := if i < p then i else i + 1;
      InsertAt(p, key, keys, j);
      InsertAt(p, value, values, j);
      assert (ks[j], vs[j]) in Pairs(ks, vs);
    }
    assert (ks[p], vs[p]) in Pairs(ks, vs);
    forall j | 0 <= j < |ks|
      ensures (ks[j], vs[j]) in {(key, value)} + Pairs(keys, values)
    {
      InsertAt(p, key, keys, j);
      InsertAt(p, value, values, j);
    }
  }

  lemma InsertAt<T>(p: nat, x: T, xs: seq<T>, j: nat)
    requires p <= |xs| && j <= |xs|
    ensures Insert(p, x, xs)[j] == if j < p then xs[j] else if j == p then x else xs[j - 1]
  {}

  /** Sorting moves each key together with its value, and neither loses nor invents one. */
  lemma {:induction false} SortKeepsPairs<T>(keys: seq<Text>, values: seq<T>)
    requires |keys| == |values|
    ensures Pairs(SortKeys(keys), SortValues(keys, values)) == Pairs(keys, values)
    decreases keys
  {
    if keys != [] {
      SortKeepsPairs(keys[1..], values[1..]);
      var rest, vals := SortKeys(keys[1..]), SortValues(keys[1..], values[1..]);
      PairsInsert(Spot(keys[0], rest), keys[0], values[0], rest, vals);
      PairsInsert(0, keys[0], values[0], keys[1..], values[1..]);
      assert Insert(0, keys[0], keys[1..]) == keys && Insert(0, values[0], values[1..]) == values;
    }
  }

  lemma InsertMembers<T>(p: nat, x: T, xs: seq<T>)
    requires p <= |xs|
    ensures forall y :: y in Insert(p, x, xs) <==> y == x || y in xs
  {
    assert xs == xs[..p] + xs[p..];
  }

  lemma {:induction false} SortIsSorted(keys: seq<Text>)
    requires DistinctKeys(keys)
    ensures Sorted(SortKeys(keys)) && DistinctKeys(SortKeys(keys))
    ensures forall k :: k in SortKeys(keys) <==> k in keys
  {
    if keys != [] {
      var rest := SortKeys(keys[1..]);
      SortIsSorted(keys[1..]);
      SpotSorts(keys[0], rest);
      InsertMembers(Spot(keys[0], rest), keys[0], rest);
      SortedInsert(Spot(keys[0], rest), keys[0], rest);
    }
  }

  lemma SortedInsert(p: nat, key: Text, rest: seq<Text>)
    requires Sorted(rest) && p <= |rest|
    requires forall i :: 0 <= i < p ==> KeyLess(rest[i], key)
    requires forall i :: p <= i < |rest| ==> KeyLess(key, rest[i])
    ensures Sorted(Insert(p, key, rest)) && DistinctKeys(Insert(p, key, rest))
  {
    var r := Insert(p, key, rest);
    forall i, j | 0 <= i < j < |r|
      ensures KeyLess(r[i], r[j]) && r[i] != r[j]
    {
      assert r[i] == if i < p then rest[i] else if i == p then key else rest[i - 1];
      assert r[j] == if j < p then rest[j] else if j == p then key else rest[j - 1];
      KeyLessTotal(r[i], r[j]);
    }
  }

  ghost predicate Together<A, B>(xs: seq<A>, ys: seq<B>, x: A, y: B)
    requires |xs| == |ys|
  {
    exists j :: 0 <= j < |xs| && xs[j] == x && ys[j] == y
  }

  lemma TogetherInTail<A, B>(xs: seq<A>, ys: seq<B>, x: A, y: B)
    requires |xs| == |ys| > 0 && Together(xs[1..], ys[1..], x, y)
    ensures Together(xs, ys, x, y)
  {
    var j :| 0 <= j < |xs[1..]| && xs[1..][j] == x && ys[1..][j] == y;
    assert xs[j + 1] == x && ys[j + 1] == y;
  }

  /** Sorting two lists by the same keys moves them together. */
  lemma {:induction false} SortMovesTogether<A, B>(keys: seq<Text>, xs: seq<A>, ys: seq<B>, i: nat)
    requires |keys| == |xs| == |ys| && i < |keys|
    ensures Together(xs, ys, SortValues(keys, xs)[i], SortValues(keys, ys)[i])
    decreases keys
  {
    var p := Spot(keys[0], SortKeys(keys[1..]));
    var xs', ys' := SortValues(keys[1..], xs[1..]), SortValues(keys[1..], ys[1..]);
    assert SortValues(keys, xs) == Insert(p, xs[0], xs') && SortValues(keys, ys) == Insert(p, ys[0], ys');
    InsertAt(p, xs[0], xs', i);
    InsertAt(p, ys[0], ys', i);
    if i == p {
      assert Together(xs, ys, xs[0], ys[0]);
    } else {
      var k := if i < p then i else i - 1;
      SortMovesTogether(keys[1..], xs[1..], ys[1..], k);
      TogetherInTail(xs, ys, xs'[k], ys'[k]);
    }
  }

  lemma PairsDetermineKeys<T>(ks: seq<Text>, xs: seq<T>, ls: seq<Text>, ys: seq<T>)
    requires |ks| == |xs| && |ls| == |ys| && Pairs(ks, xs) == Pairs(ls, ys)
    ensures forall k :: k in ks <==> k in ls
  {
    forall k | k in ks
      ensures k in ls
    {
      var i :| 0 <= i < |ks| && ks[i] == k;
      assert (ks[i], xs[i]) in Pairs(ls, ys);
    }
    forall k | k in ls
      ensures k in ks
    {
      var i :| 0 <= i < |ls| && ls[i] == k;
      assert (ls[i], ys[i]) in Pairs(ks, xs);
    }
  }

  lemma FirstIsMember(ks: seq<Text>)
    ensures ks != [] ==> ks[0] in ks
  {}

  lemma {:induction false} SortedKeysUnique(ks: seq<Text>, ls: seq<Text>)
    requires Sorted(ks) && Sorted(ls) && forall k :: k in ks <==> k in ls
    ensures ks == ls
  {
    FirstIsMember(ks);
    FirstIsMember(ls);
    if ks == [] {
    } else {
      KeyLessTotal(ks[0], ls[0]);
      assert ks[0] == ls[0];
      forall k
        ensures k in ks[1..] <==> k in ls[1..]
      {
        KeyLessTotal(ks[0], ks[0]);
        assert k in ks <==> k == ks[0] || k in ks[1..];
        assert k in ls <==> k == ls[0] || k in ls[1..];
      }
      SortedKeysUnique(ks[1..], ls[1..]);
    }
  }

  /** Two objects with the same properties sort to the same lists. */
  lemma SortForgetsOrder<T>(ks: seq<Text>, xs: seq<T>, ls: seq<Text>, ys: seq<T>)
    requires |ks| == |xs| && |ls| == |ys| && DistinctKeys(ks) && DistinctKeys(ls)
    ensures Pairs(ks, xs) == Pairs(ls, ys)
            <==> SortKeys(ks) == SortKeys(ls) && SortValues(ks, xs) == SortValues(ls, ys)
  {
    SortKeepsPairs(ks, xs);
    SortKeepsPairs(ls, ys);
    SortIsSorted(ks);
    SortIsSorted(ls);
    var k, x, l, y := SortKeys(ks), SortValues(ks, xs), SortKeys(ls), SortValues(ls, ys);
    if Pairs(ks, xs) == Pairs(ls, ys) {
      PairsDetermineKeys(k, x, l, y);
      SortedKeysUnique(k, l);
      forall i | 0 <= i < |x|
        ensures x[i] == y[i]
      {
        assert (k[i], x[i]) in Pairs(l, y);
        var j :| 0 <= j < |l| && l[j] == k[i] && y[j] == x[i];
        assert i == j;
      }
    }
  }

  lemma SamePairsSameValues<T>(ks: seq<Text>, xs: seq<T>, ls: seq<Text>, ys: seq<T>)
    requires |ks| == |xs| && |ls| == |ys| && DistinctKeys(ls) && Pairs(ks, xs) == Pairs(ls, ys)
    ensures forall i, j :: 0 <= i < |ks| && 0 <= j < |ls| && ks[i] == ls[j] ==> xs[i] == ys[j]
  {
    forall i, j | 0 <= i < |ks| && 0 <= j < |ls| && ks[i] == ls[j]
      ensures xs[i] == ys[j]
    {
      assert (ks[i], xs[i]) in Pairs(ls, ys);
      var m :| 0 <= m < |ls| && ls[m] == ks[i] && ys[m] == xs[i];
      assert m == j;
    }
  }

  lemma SameValuesSamePairs<T>(ks: seq<Text>, xs: seq<T>, ls: seq<Text>, ys: seq<T>)
    requires |ks| == |xs| && |ls| == |ys| && forall k :: k in ks <==> k in ls
    requires forall i, j :: 0 <= i < |ks| && 0 <= j < |ls| && ks[i] == ls[j] ==> xs[i] == ys[j]
    ensures Pairs(ks, xs) == Pairs(ls, ys)
  {
    forall i | 0 <= i < |ks|
      ensures (ks[i], xs[i]) in Pairs(ls, ys)
    {
      assert ks[i] in ls;
      var j :| 0 <= j < |ls| && ls[j] == ks[i];
      assert (ls[j], ys[j]) == (ks[i], xs[i]);
    }
    forall j | 0 <= j < |ls|
      ensures (ls[j], ys[j]) in Pairs(ks, xs)
    {
      assert ls[j] in ks;
      var i :| 0 <= i < |ks| && ks[i] == ls[j];
      assert (ls[j], ys[j]) == (ks[i], xs[i]);
    }
  }

  lemma PairsDecide<T>(ks: seq<Text>, xs: seq<T>, ls: seq<Text>, ys: seq<T>)
    requires |ks| == |xs| && |ls| == |ys| && DistinctKeys(ls)
    ensures Pairs(ks, xs) == Pairs(ls, ys)
            <==> && (forall k :: k in ks <==> k in ls)
                 && forall i, j :: 0 <= i < |ks| && 0 <= j < |ls| && ks[i] == ls[j] ==> xs[i] == ys[j]
  {
    if Pairs(ks, xs) == Pairs(ls, ys) {
      PairsDetermineKeys(ks, xs, ls, ys);
      SamePairsSameValues(ks, xs, ls, ys);
    }
    if && (forall k :: k in ks <==> k in ls)
       && forall i, j :: 0 <= i < |ks| && 0 <= j < |ls| && ks[i] == ls[j] ==> xs[i] == ys[j] {
      SameValuesSamePairs(ks, xs, ls, ys);
    }
  }

  lemma SortedListsDecide<T>(ks: seq<Text>, xs: seq<T>, ls: seq<Text>, ys: seq<T>)
    requires |ks| == |xs| && |ls| == |ys| && DistinctKeys(ks) && DistinctKeys(ls)
    ensures SortKeys(ks) == SortKeys(ls) && SortValues(ks, xs) == SortValues(ls, ys)
            <==> && (forall k :: k in ks <==> k in ls)
                 && forall i, j :: 0 <= i < |ks| && 0 <= j < |ls| && ks[i] == ls[j] ==> xs[i] == ys[j]
  {
    SortForgetsOrder(ks, xs, ls, ys);
    PairsDecide(ks, xs, ls, ys);
  }
}
