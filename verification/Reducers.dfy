/**
  The merge law of every channel of the investigation state: packages/domain/src/reducers.ts.

  A channel is a sequence of records, each with an id. An update replaces the record carrying its id in place and
  appends a record whose id is new. The records are of several types, so the id is read through a function idOf.
 */
module Reducers {
  import opened Wrappers

  function Ids<T, I(==)>(idOf: T -> I, items: seq<T>): (ids: seq<I>)
    ensures |ids| == |items| && forall i :: 0 <= i < |items| ==> ids[i] == idOf(items[i])
  {
    seq(|items|, i requires 0 <= i < |items| => idOf(items[i]))
  }

  predicate Distinct<I(==)>(ids: seq<I>) {
    forall i, j :: 0 <= i < j < |ids| ==> ids[i] != ids[j]
  }

  /** The position the JavaScript map built from [id, index] pairs gives: the last one with this id, or -1. */
  function LastIndex<T, I(==)>(idOf: T -> I, items: seq<T>, id: I): (k: int)
    ensures -1 <= k < |items|
    ensures k >= 0 ==> idOf(items[k]) == id
    ensures forall j :: k < j < |items| ==> idOf(items[j]) != id
  {
    if items == [] then -1
    else if idOf(items[|items| - 1]) == id then |items| - 1
    else LastIndex(idOf, items[..|items| - 1], id)
  }

  function Lookup<T, I(==)>(idOf: T -> I, items: seq<T>, id: I): Option<T> {
    var k := LastIndex(idOf, items, id);
    if k < 0 then None else Some(items[k])
  }

  function Place<T, I(==)>(idOf: T -> I, items: seq<T>, value: T): seq<T> {
    var k := LastIndex(idOf, items, idOf(value));
    if k < 0 then items + [value] else items[k := value]
  }

  function Upsert<T, I(==)>(idOf: T -> I, current: seq<T>, update: seq<T>): seq<T> {
    if update == [] then current
    else Place(idOf, Upsert(idOf, current, update[..|update| - 1]), update[|update| - 1])
  }

  ghost predicate IndexesLast<T, I>(idOf: T -> I, items: seq<T>, indexById: map<I, nat>) {
    && (forall id :: id in indexById ==> indexById[id] == LastIndex(idOf, items, id))
    && (forall i :: 0 <= i < |items| ==> idOf(items[i]) in indexById)
  }

  lemma IndexAppended<T, I>(idOf: T -> I, items: seq<T>, value: T, indexById: map<I, nat>)
    requires IndexesLast(idOf, items, indexById)
    ensures IndexesLast(idOf, items + [value], indexById[idOf(value) := |items|])
  {
    LastIndexAppend(idOf, items, value);
  }

  lemma IndexReplaced<T, I>(idOf: T -> I, items: seq<T>, value: T, indexById: map<I, nat>)
    requires IndexesLast(idOf, items, indexById) && LastIndex(idOf, items, idOf(value)) >= 0
    ensures IndexesLast(idOf, Place(idOf, items, value), indexById)
  {
    LastIndexReplace(idOf, items, value);
  }

  /** The map from id to position over the copied list. */
  method IndexById<T, I(==)>(idOf: T -> I, items: seq<T>) returns (indexById: map<I, nat>)
    ensures IndexesLast(idOf, items, indexById)
  {
    indexById := map[];
    for i := 0 to |items|
      invariant IndexesLast(idOf, items[..i], indexById)
    {
      IndexAppended(idOf, items[..i], items[i], indexById);
      assert items[..i + 1] == items[..i] + [items[i]];
      indexById := indexById[idOf(items[i]) := i];
    }
    assert items[..|items|] == items;
  }

  /** upsertById: the copied list, its index map and the two loops of the source, proved equal to Upsert. */
  method UpsertById<T, I(==)>(idOf: T -> I, current: seq<T>, update: seq<T>) returns (result: seq<T>)
    ensures result == Upsert(idOf, current, update)
  {
    result := current;
    var indexById := IndexById(idOf, current);
    for n := 0 to |update|
      invariant IndexesLast(idOf, result, indexById)
      invariant result == Upsert(idOf, current, update[..n])
    {
      UpsertSnoc(idOf, current, update, n);
      result, indexById := PlaceIndexed(idOf, result, update[n], indexById);
    }
    assert update[..|update|] == update;
  }

  /** The body of the second loop: overwrite by index, or push. */
  method PlaceIndexed<T, I(==)>(idOf: T -> I, items: seq<T>, value: T, indexById: map<I, nat>)
    returns (result: seq<T>, index: map<I, nat>)
    requires IndexesLast(idOf, items, indexById)
    ensures result == Place(idOf, items, value) && IndexesLast(idOf, result, index)
  {
    IndexFinds(idOf, items, idOf(value), indexById);
    if idOf(value) in indexById {
      IndexReplaced(idOf, items, value, indexById);
      return items[indexById[idOf(value)] := value], indexById;
    }
    IndexAppended(idOf, items, value, indexById);
    return items + [value], indexById[idOf(value) := |items|];
  }

  lemma IndexFinds<T, I>(idOf: T -> I, items: seq<T>, id: I, indexById: map<I, nat>)
    requires IndexesLast(idOf, items, indexById)
    ensures id in indexById <==> LastIndex(idOf, items, id) >= 0
    ensures id in indexById ==> indexById[id] == LastIndex(idOf, items, id)
  {
    var k := LastIndex(idOf, items, id);
    if k >= 0 { assert idOf(items[k]) in indexById; }
  }

  lemma UpsertSnoc<T, I>(idOf: T -> I, current: seq<T>, update: seq<T>, n: nat)
    requires n < |update|
    ensures Upsert(idOf, current, update[..n + 1]) == Place(idOf, Upsert(idOf, current, update[..n]), update[n])
  {
    assert update[..n + 1][..n] == update[..n];
  }

  lemma LastIndexAppend<T, I>(idOf: T -> I, items: seq<T>, value: T)
    ensures forall id :: LastIndex(idOf, items + [value], id)
                         == if id == idOf(value) then |items| else LastIndex(idOf, items, id)
  {
    assert (items + [value])[..|items|] == items;
  }

  lemma LastIndexReplace<T, I>(idOf: T -> I, items: seq<T>, value: T)
    requires LastIndex(idOf, items, idOf(value)) >= 0
    ensures forall id :: LastIndex(idOf, Place(idOf, items, value), id) == LastIndex(idOf, items, id)
  {
    var after := Place(idOf, items, value);
    forall id
      ensures LastIndex(idOf, after, id) == LastIndex(idOf, items, id)
    {
      LastIndexDecided(idOf, after, id, LastIndex(idOf, items, id));
    }
  }

  /** LastIndex is the only position with its defining property. */
  lemma LastIndexDecided<T, I>(idOf: T -> I, items: seq<T>, id: I, k: int)
    requires -1 <= k < |items|
    requires k >= 0 ==> idOf(items[k]) == id
    requires forall j :: k < j < |items| ==> idOf(items[j]) != id
    ensures LastIndex(idOf, items, id) == k
  {}

  lemma LookupAfterAppend<T, I>(idOf: T -> I, items: seq<T>, value: T, id: I)
    ensures Lookup(idOf, items + [value], id) == if id == idOf(value) then Some(value) else Lookup(idOf, items, id)
  {
    LastIndexAppend(idOf, items, value);
  }

  lemma LookupAfterPlace<T, I>(idOf: T -> I, items: seq<T>, value: T, id: I)
    ensures Lookup(idOf, Place(idOf, items, value), id)
            == if id == idOf(value) then Some(value) else Lookup(idOf, items, id)
  {
    if LastIndex(idOf, items, idOf(value)) < 0 {
      LastIndexAppend(idOf, items, value);
    } else {
      LastIndexReplace(idOf, items, value);
    }
  }

  /** Reading an id after a merge: the update's last word on it, else what the channel held. */
  lemma {:induction false} LookupAfterUpsert<T, I>(idOf: T -> I, current: seq<T>, update: seq<T>, id: I)
    ensures Lookup(idOf, Upsert(idOf, current, update), id)
            == if Lookup(idOf, update, id).Some? then Lookup(idOf, update, id) else Lookup(idOf, current, id)
  {
    if update == [] {
    } else {
      var rest, value := update[..|update| - 1], update[|update| - 1];
      LookupAfterUpsert(idOf, current, rest, id);
      LookupAfterAppend(idOf, rest, value, id);
      assert update == rest + [value];
      LookupAfterPlace(idOf, Upsert(idOf, current, rest), value, id);
    }
  }

  /** Positions are stable: no record moves or disappears, and ids stay unique when they were. */
  lemma {:induction false} UpsertKeepsPositions<T, I>(idOf: T -> I, current: seq<T>, update: seq<T>)
    ensures |current| <= |Upsert(idOf, current, update)|
    ensures forall i :: 0 <= i < |current| ==> idOf(Upsert(idOf, current, update)[i]) == idOf(current[i])
    ensures Distinct(Ids(idOf, current)) ==> Distinct(Ids(idOf, Upsert(idOf, current, update)))
  {
    if update == [] {
    } else {
      var rest, value := update[..|update| - 1], update[|update| - 1];
      UpsertKeepsPositions(idOf, current, rest);
      PlaceKeepsPositions(idOf, Upsert(idOf, current, rest), value);
    }
  }

  lemma PlaceKeepsPositions<T, I>(idOf: T -> I, items: seq<T>, value: T)
    ensures var after := Place(idOf, items, value);
            && |items| <= |after|
            && (forall i :: 0 <= i < |items| ==> idOf(after[i]) == idOf(items[i]))
            && (Distinct(Ids(idOf, items)) ==> Distinct(Ids(idOf, after)))
  {}

  /** Where every record of the result comes from. */
  lemma {:induction false} UpsertSources<T, I>(idOf: T -> I, current: seq<T>, update: seq<T>)
    ensures forall x :: x in Upsert(idOf, current, update) ==> x in current || x in update
    ensures forall x :: x in current && idOf(x) !in Ids(idOf, update) ==> x in Upsert(idOf, current, update)
  {
    if update == [] {
    } else {
      var rest, value := update[..|update| - 1], update[|update| - 1];
      UpsertSources(idOf, current, rest);
      var merged := Upsert(idOf, current, rest);
      assert update == rest + [value];
      assert Ids(idOf, update)[|update| - 1] == idOf(value);
      forall x | x in current && idOf(x) !in Ids(idOf, update)
        ensures x in Upsert(idOf, current, update)
      {
        forall i | 0 <= i < |rest|
          ensures Ids(idOf, rest)[i] != idOf(x)
        {
          assert Ids(idOf, update)[i] == idOf(rest[i]);
        }
        var i :| 0 <= i < |merged| && merged[i] == x;
        assert Upsert(idOf, current, update)[i] == x;
      }
    }
  }

  /** A record found by a search is in the channel, and with unique ids it is the only one with its id. */
  lemma LookupIsMembership<T, I>(idOf: T -> I, items: seq<T>, x: T)
    requires Distinct(Ids(idOf, items))
    ensures x in items <==> Lookup(idOf, items, idOf(x)) == Some(x)
  {
    if x in items {
      var i :| 0 <= i < |items| && items[i] == x;
      var k := LastIndex(idOf, items, idOf(x));
      assert Ids(idOf, items)[i] == Ids(idOf, items)[k];
    }
  }

  /** With distinct ids every record of an update is in the result. */
  lemma MergedIsThere<T, I>(idOf: T -> I, current: seq<T>, update: seq<T>, x: T)
    requires Distinct(Ids(idOf, update)) && x in update
    ensures x in Upsert(idOf, current, update)
  {
    LookupAfterUpsert(idOf, current, update, idOf(x));
    LookupIsMembership(idOf, update, x);
  }

  lemma {:induction false} KnownIdsDoNotGrow<T, I>(idOf: T -> I, current: seq<T>, update: seq<T>)
    requires forall x :: x in update ==> LastIndex(idOf, current, idOf(x)) >= 0
    ensures |Upsert(idOf, current, update)| == |current|
  {
    if update != [] {
      var rest, value := update[..|update| - 1], update[|update| - 1];
      KnownIdsDoNotGrow(idOf, current, rest);
      UpsertKeepsPositions(idOf, current, rest);
      var k := LastIndex(idOf, current, idOf(value));
      assert idOf(Upsert(idOf, current, rest)[k]) == idOf(value);
    }
  }

  /** Merging the same update again changes nothing, so a replayed node result is harmless. */
  lemma UpsertIsIdempotent<T, I>(idOf: T -> I, current: seq<T>, update: seq<T>)
    requires Distinct(Ids(idOf, current))
    ensures Upsert(idOf, Upsert(idOf, current, update), update) == Upsert(idOf, current, update)
  {
    var once := Upsert(idOf, current, update);
    var twice := Upsert(idOf, once, update);
    UpsertKeepsPositions(idOf, current, update);
    UpsertKeepsPositions(idOf, once, update);
    forall x | x in update
      ensures LastIndex(idOf, once, idOf(x)) >= 0
    {
      LookupAfterUpsert(idOf, current, update, idOf(x));
      var i :| 0 <= i < |update| && update[i] == x;
      assert LastIndex(idOf, update, idOf(x)) >= i;
    }
    KnownIdsDoNotGrow(idOf, once, update);
    forall i | 0 <= i < |once|
      ensures twice[i] == once[i]
    {
      LookupAfterUpsert(idOf, current, update, idOf(once[i]));
      LookupAfterUpsert(idOf, once, update, idOf(once[i]));
      LookupIsMembership(idOf, once, once[i]);
      LookupIsMembership(idOf, twice, twice[i]);
    }
  }

  /** The part of an update that says something the channel does not already say. */
  function Changed<T(==), I(==)>(idOf: T -> I, current: seq<T>, update: seq<T>): (changed: seq<T>)
    ensures forall x :: x in changed ==> x in update
  {
    if update == [] then [] else
    var rest, value := update[..|update| - 1], update[|update| - 1];
    Changed(idOf, current, rest) + if Lookup(idOf, current, idOf(value)) == Some(value) then [] else [value]
  }

  /** That part is every record of the update the channel does not hold as it is, and no other. */
  lemma {:induction false} ChangedIsWhatDiffers<T, I>(idOf: T -> I, current: seq<T>, update: seq<T>, x: T)
    ensures x in Changed(idOf, current, update) <==> x in update && Lookup(idOf, current, idOf(x)) != Some(x)
    decreases |update|
  {
    if update != [] {
      ChangedIsWhatDiffers(idOf, current, update[..|update| - 1], x);
      assert update == update[..|update| - 1] + [update[|update| - 1]];
    }
  }

  /** Leaving out what did not change leaves the merge unchanged. */
  lemma {:induction false} OnlyChangesMatter<T, I>(idOf: T -> I, current: seq<T>, update: seq<T>)
    requires Distinct(Ids(idOf, current)) && Distinct(Ids(idOf, update))
    ensures Upsert(idOf, current, Changed(idOf, current, update)) == Upsert(idOf, current, update)
  {
    if update != [] {
      var n := |update| - 1;
      var rest, value := update[..n], update[n];
      DistinctPrefix(idOf, update, n);
      OnlyChangesMatter(idOf, current, rest);
      if Lookup(idOf, current, idOf(value)) == Some(value) {
        LookupAfterUpsert(idOf, current, rest, idOf(value));
        PlacingTheSame(idOf, Upsert(idOf, current, rest), value);
        assert Changed(idOf, current, update) == Changed(idOf, current, rest);
      } else {
        UpsertOneMore(idOf, current, Changed(idOf, current, rest), value);
      }
    }
  }

  lemma UpsertOneMore<T, I>(idOf: T -> I, current: seq<T>, update: seq<T>, value: T)
    ensures Upsert(idOf, current, update + [value]) == Place(idOf, Upsert(idOf, current, update), value)
  {
    assert (update + [value])[..|update|] == update;
  }

  lemma PlacingTheSame<T, I>(idOf: T -> I, items: seq<T>, value: T)
    requires Lookup(idOf, items, idOf(value)) == Some(value)
    ensures Place(idOf, items, value) == items
  {
    var k := LastIndex(idOf, items, idOf(value));
    assert items[k := value] == items;
  }

  lemma DistinctPrefix<T, I>(idOf: T -> I, items: seq<T>, n: nat)
    requires Distinct(Ids(idOf, items)) && n < |items|
    ensures Distinct(Ids(idOf, items[..n]))
    ensures LastIndex(idOf, items[..n], idOf(items[n])) == -1
  {
    forall i, j | 0 <= i < j < n
      ensures Ids(idOf, items[..n])[i] != Ids(idOf, items[..n])[j]
    {
      assert Ids(idOf, items)[i] != Ids(idOf, items)[j];
    }
    forall i | 0 <= i < n
      ensures idOf(items[..n][i]) != idOf(items[n])
    {
      assert Ids(idOf, items)[i] != Ids(idOf, items)[n];
    }
  }

  /** Records with new ids are appended. */
  lemma {:induction false} UpsertAppends<T, I>(idOf: T -> I, current: seq<T>, update: seq<T>)
    requires Distinct(Ids(idOf, update))
    requires forall x :: x in update ==> LastIndex(idOf, current, idOf(x)) == -1
    ensures Upsert(idOf, current, update) == current + update
  {
    if update != [] {
      var n := |update| - 1;
      var rest, value := update[..n], update[n];
      DistinctPrefix(idOf, update, n);
      UpsertAppends(idOf, current, rest);
      LookupAfterUpsert(idOf, current, rest, idOf(value));
      assert current + update == current + rest + [value];
    }
  }

  /** A rewrite of every record in place, ids unchanged, replaces the channel. */
  lemma {:induction false} UpsertRewrites<T, I>(idOf: T -> I, current: seq<T>, update: seq<T>, n: nat)
    requires Distinct(Ids(idOf, current)) && n <= |update| == |current|
    requires forall i :: 0 <= i < |update| ==> idOf(update[i]) == idOf(current[i])
    ensures Upsert(idOf, current, update[..n]) == update[..n] + current[n..]
  {
    if n == 0 {
      assert update[..0] == [] && current[0..] == current;
    } else {
      UpsertRewrites(idOf, current, update, n - 1);
      UpsertSnoc(idOf, current, update, n - 1);
      RewriteOne(idOf, current, update, n - 1);
    }
  }

  lemma RewriteOne<T, I>(idOf: T -> I, current: seq<T>, update: seq<T>, n: nat)
    requires Distinct(Ids(idOf, current)) && n < |update| == |current|
    requires idOf(update[n]) == idOf(current[n])
    ensures Place(idOf, update[..n] + current[n..], update[n]) == update[..n + 1] + current[n + 1..]
  {
    var merged := update[..n] + current[n..];
    forall j | n < j < |merged|
      ensures idOf(merged[j]) != idOf(update[n])
    {
      assert Ids(idOf, current)[j] != Ids(idOf, current)[n];
    }
    LastIndexDecided(idOf, merged, idOf(update[n]), n);
    assert merged[n := update[n]] == update[..n + 1] + current[n + 1..];
  }
}
