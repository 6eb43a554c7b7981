/**
  What the repair walk reaches, told from the declared tree and the loaded heap by paths of keys.

  Nothing here is read off the walk or its plan: a slot is reached when a path of declared keys leads to its object and
  the declared node there goes on to its key. The theorems say that the plan touches what is reached and nothing else,
  one entry for each path, and what the walk then leaves in every slot of the heap.
 */
module OwnValueReach {
  import opened Wrappers
  import opened OwnValueSerde

  /** What JSON.parse returns: an object has one entry per key, and an array's entries are keyed by their positions. */
  ghost predicate Parsed(j: Json)
    decreases j
  {
    j.Node? ==>
      && DistinctEntryKeys(j.entries)
      && (j.isArray ==> forall i :: 0 <= i < |j.entries| ==> j.entries[i].key == Index(i))
      && forall i :: 0 <= i < |j.entries| ==> Parsed(j.entries[i].value)
  }

  lemma {:induction false} ParsedIsKeyed(j: Json)
    requires Parsed(j)
    ensures Keyed(j)
    decreases j
  {
    if j.Node? {
      forall i | 0 <= i < |j.entries|
        ensures Keyed(j.entries[i].value)
      {
        ParsedIsKeyed(j.entries[i].value);
      }
    }
  }

  /** The value declared under a key. */
  function Under(j: Json, key: Key): (value: Option<Json>)
    ensures value.Some? ==> j.Node? && Entry(key, value.value) in j.entries
    ensures value.Some? ==> value.value < j
    ensures value.None? && j.Node? ==> forall e :: e in j.entries ==> e.key != key
  {
    if j.Leaf? then None else
    var k := Find(j.entries, key);
    if k < 0 then None else Some(j.entries[k].value)
  }

  lemma UnderIsMembership(j: Json, key: Key, value: Json)
    requires j.Node? && DistinctEntryKeys(j.entries)
    ensures Under(j, key) == Some(value) <==> Entry(key, value) in j.entries
  {}

  // ---- The rules --------------------------------------------------------------------------------------------------

  /** A record the reviver consumes: its own lc is this version. */
  predicate IsRecord(j: Json, version: real) {
    Under(j, Name("lc")) == Some(Leaf(Number(Finite(version))))
  }

  predicate DeclaresSnapshot(j: Json)
    requires j.Node?
  {
    && !j.isArray && IsRecord(j, 2.0)
    && Under(j, Name("type")) == Some(Leaf(Text("delta_snapshot"))) && Under(j, Name("value")).Some?
  }

  /** An object, no function, with an own value, that answers DeltaSnapshot when its lg_name is read. */
  predicate HoldsSnapshot(o: Object) {
    && !o.callable && Name("value") in o.slots
    && if Name("lg_name") in o.slots && o.slots[Name("lg_name")].Data?
       then o.slots[Name("lg_name")].value == Plain(Text("DeltaSnapshot"))
       else o.marked
  }

  /**
    Where an object is walked against a declared node: the value of a marked snapshot, each index an array pair shares,
    each key of a plain object that is no revived record.
   */
  predicate Goes(o: Object, j: Json, key: Key)
    requires j.Node?
  {
    if DeclaresSnapshot(j) && HoldsSnapshot(o) then key == Name("value")
    else if j.isArray then o.length.Some? && key.Index? && key.index < o.length.value
    else !IsRecord(j, 1.0) && !IsRecord(j, 2.0)
  }

  /** The walk comes to this slot of the loaded object and finds this value declared for it. */
  predicate Comes(h: Heap, v: Value, j: Json, key: Key, value: Json) {
    v.Obj? && v.ref in h && j.Node? && Goes(h[v.ref], j, key) && Under(j, key) == Some(value)
  }

  /** A declared container has a counterpart to go on with: an own data slot, and an array where one is declared. */
  predicate Answers(h: Heap, r: Ref, key: Key, value: Json)
    requires Closed(h) && r in h && value.Node?
  {
    && key in h[r].slots && h[r].slots[key].Data?
    && (value.isArray ==> h[r].slots[key].value.Obj? && h[h[r].slots[key].value.ref].length.Some?)
  }

  /** One key further down: the counterpart and the container declared for it. */
  function Through(h: Heap, v: Value, j: Json, key: Key): (inner: Option<(Value, Json)>)
    requires Closed(h) && Live(h, v)
    ensures inner.Some? ==> Live(h, inner.value.0) && inner.value.1 < j
  {
    var value := Under(j, key);
    if value.Some? && value.value.Node? && Comes(h, v, j, key, value.value) && Answers(h, v.ref, key, value.value)
    then Some((h[v.ref].slots[key].value, value.value)) else None
  }

  /** Where a path of keys leads. */
  function Led(h: Heap, v: Value, j: Json, path: seq<Key>): (place: Option<(Value, Json)>)
    requires Closed(h) && Live(h, v)
    ensures place.Some? ==> Live(h, place.value.0)
    decreases path
  {
    if path == [] then Some((v, j)) else
    var inner := Through(h, v, j, path[0]);
    if inner.None? then None else Led(h, inner.value.0, inner.value.1, path[1..])
  }

  /** What happens at a place the walk was led to, this many levels down. */
  predicate Happens(h: Heap, place: (Value, Json), depth: nat, t: Touch)
    requires Closed(h) && Live(h, place.0)
  {
    var (v, j) := place;
    match t
    case Enter(d) => d == depth
    case Visit(r) => v == Obj(r)
    case Repair(r, key, prim) => v == Obj(r) && Comes(h, v, j, key, Leaf(prim))
    case Read(r, key) =>
      && v == Obj(r) && j.Node?
      && (|| (Under(j, key).Some? && Under(j, key).value.Node? && Comes(h, v, j, key, Under(j, key).value))
          || (key == Name("lg_name") && DeclaresSnapshot(j) && !h[r].callable && Name("value") in h[r].slots
              && key in h[r].slots && h[r].slots[key].Data?))
    case Refuse(key) =>
      && v.Obj? && Under(j, key).Some? && Under(j, key).value.Node? && Comes(h, v, j, key, Under(j, key).value)
      && !Answers(h, v.ref, key, Under(j, key).value)
      && (key == Name("__proto__") ==> key in h[v.ref].slots && h[v.ref].slots[key].Data?)
  }

  /** It happens where the path leads. */
  predicate HappensOn(h: Heap, v: Value, j: Json, path: seq<Key>, depth: nat, t: Touch)
    requires Closed(h) && Live(h, v)
  {
    Led(h, v, j, path).Some? && Happens(h, Led(h, v, j, path).value, depth + |path|, t)
  }

  /** Some path leads to where it happens. */
  ghost predicate Reached(h: Heap, v: Value, j: Json, depth: nat, t: Touch)
    requires Closed(h) && Live(h, v)
  {
    exists path :: HappensOn(h, v, j, path, depth, t)
  }

  // ---- One node ---------------------------------------------------------------------------------------------------

  lemma DeclaringIsUnder(j: Json, key: string, prim: Prim)
    requires j.Node?
    ensures DeclaresLeaf(j, key, prim) <==> Under(j, Name(key)) == Some(Leaf(prim))
  {}

  lemma RulesAgree(h: Heap, loaded: Value, declared: Json)
    requires Live(h, loaded) && declared.Node?
    ensures IsDeltaSnapshotRecord(declared) <==> DeclaresSnapshot(declared)
    ensures loaded.Obj? ==> (CarriesSnapshotValue(h, loaded) <==> HoldsSnapshot(h[loaded.ref]))
    ensures !declared.isArray ==> (IsRevivedRecord(declared) <==> IsRecord(declared, 1.0) || IsRecord(declared, 2.0))
  {
    DeclaringIsUnder(declared, "lc", Number(Finite(1.0)));
    DeclaringIsUnder(declared, "lc", Number(Finite(2.0)));
    DeclaringIsUnder(declared, "type", Text("delta_snapshot"));
  }

  lemma SharedIndexes(entries: seq<Entry>, length: nat, e: Entry)
    requires forall i :: 0 <= i < |entries| ==> entries[i].key == Index(i)
    ensures var shared := if |entries| < length then |entries| else length;
            e in entries[..shared] <==> e in entries && e.key.Index? && e.key.index < length
  {
    var shared := if |entries| < length then |entries| else length;
    if e in entries[..shared] {
      var i :| 0 <= i < shared && entries[i] == e;
    }
    if e in entries && e.key.Index? && e.key.index < length {
      var i :| 0 <= i < |entries| && entries[i] == e;
      assert entries[..shared][i] == e;
    }
  }

  lemma FindsItself(entries: seq<Entry>, i: nat)
    requires DistinctEntryKeys(entries) && i < |entries|
    ensures Find(entries, entries[i].key) == i
  {}

  lemma SnapshotWalks(h: Heap, loaded: Value, declared: Json)
    requires Live(h, loaded) && loaded.Obj? && declared.Node? && DistinctEntryKeys(declared.entries)
    requires DeclaresSnapshot(declared) && HoldsSnapshot(h[loaded.ref])
    ensures Under(declared, Name("value")).Some?
    ensures Walked(h, loaded, declared) == [Entry(Name("value"), Under(declared, Name("value")).value)]
  {
    RulesAgree(h, loaded, declared);
  }

  lemma ArrayWalks(h: Heap, loaded: Value, declared: Json)
    requires Live(h, loaded) && declared.Node? && declared.isArray
    ensures Walked(h, loaded, declared)
            == if loaded.Plain? || h[loaded.ref].length.None? then [] else
               var length := h[loaded.ref].length.value;
               declared.entries[..if |declared.entries| < length then |declared.entries| else length]
  {
    RulesAgree(h, loaded, declared);
  }

  lemma ObjectWalks(h: Heap, loaded: Value, declared: Json)
    requires Live(h, loaded) && declared.Node? && !declared.isArray
    requires !(DeclaresSnapshot(declared) && loaded.Obj? && HoldsSnapshot(h[loaded.ref]))
    ensures Walked(h, loaded, declared)
            == if loaded.Plain? || IsRecord(declared, 1.0) || IsRecord(declared, 2.0) then [] else declared.entries
  {
    RulesAgree(h, loaded, declared);
  }

  /** The slots the walk goes through at a node are those the rules name. */
  lemma WalkedIsRuled(h: Heap, loaded: Value, declared: Json, e: Entry)
    requires Live(h, loaded) && Parsed(declared)
    ensures e in Walked(h, loaded, declared) <==> Comes(h, loaded, declared, e.key, e.value)
  {
    if declared.Node? {
      UnderIsMembership(declared, e.key, e.value);
      if declared.isArray {
        ArrayWalks(h, loaded, declared);
        if loaded.Obj? && h[loaded.ref].length.Some? {
          SharedIndexes(declared.entries, h[loaded.ref].length.value, e);
        }
      } else if DeclaresSnapshot(declared) && loaded.Obj? && HoldsSnapshot(h[loaded.ref]) {
        SnapshotWalks(h, loaded, declared);
      } else {
        ObjectWalks(h, loaded, declared);
      }
    }
  }

  /** It goes through them in the order they are declared in, each once. */
  lemma WalkedInOrder(h: Heap, loaded: Value, declared: Json, i: nat, j: nat)
    requires Live(h, loaded) && Parsed(declared) && declared.Node? && i < j < |Walked(h, loaded, declared)|
    ensures var walked := Walked(h, loaded, declared);
            Find(declared.entries, walked[i].key) < Find(declared.entries, walked[j].key)
  {
    if declared.isArray {
      ArrayWalks(h, loaded, declared);
    } else if DeclaresSnapshot(declared) && loaded.Obj? && HoldsSnapshot(h[loaded.ref]) {
      SnapshotWalks(h, loaded, declared);
    } else {
      ObjectWalks(h, loaded, declared);
    }
    FindsItself(declared.entries, i);
    FindsItself(declared.entries, j);
  }

  // ---- The plan touches what is reached ---------------------------------------------------------------------------

  lemma LooksHappen(h: Heap, loaded: Value, declared: Json, depth: nat, t: Touch)
    requires Closed(h) && Live(h, loaded) && t in Opening(h, loaded, declared, depth)
    ensures HappensOn(h, loaded, declared, [], depth, t)
  {
    if declared.Node? { RulesAgree(h, loaded, declared); }
  }

  /** A touch of the entries of a node is a touch of one of them. */
  lemma {:induction false} TouchesEntry(h: Heap, r: Ref, entries: seq<Entry>, depth: nat, t: Touch) returns (k: nat)
    requires Closed(h) && r in h && t in PlanEntries(h, r, entries, depth)
    ensures k < |entries| && t in PlanSlot(h, r, entries[k].key, entries[k].value, depth)
    decreases entries
  {
    if t in PlanSlot(h, r, entries[0].key, entries[0].value, depth) {
      k := 0;
    } else {
      k := TouchesEntry(h, r, entries[1..], depth, t);
      k := k + 1;
    }
  }

  lemma PlannedBelow(h: Heap, loaded: Value, declared: Json, depth: nat, t: Touch) returns (e: Entry)
    requires Closed(h) && Live(h, loaded)
    requires t in Plan(h, loaded, declared, depth) && t !in Opening(h, loaded, declared, depth)
    ensures loaded.Obj? && e in Walked(h, loaded, declared)
    ensures t in PlanSlot(h, loaded.ref, e.key, e.value, depth)
  {
    var k := TouchesEntry(h, loaded.ref, Walked(h, loaded, declared), depth, t);
    e := Walked(h, loaded, declared)[k];
  }

  lemma {:induction false} EntryTouches(h: Heap, r: Ref, entries: seq<Entry>, depth: nat, k: nat, t: Touch)
    requires Closed(h) && r in h && k < |entries| && t in PlanSlot(h, r, entries[k].key, entries[k].value, depth)
    ensures t in PlanEntries(h, r, entries, depth)
    decreases k
  {
    if k > 0 { EntryTouches(h, r, entries[1..], depth, k - 1, t); }
  }

  /** The walk goes on below this entry. */
  lemma WalkedGoesThrough(h: Heap, loaded: Value, declared: Json, e: Entry)
    requires Closed(h) && Live(h, loaded) && Parsed(declared) && e in Walked(h, loaded, declared) && e.value.Node?
    ensures loaded.Obj?
    ensures Through(h, loaded, declared, e.key)
            == if Answers(h, loaded.ref, e.key, e.value) then Some((h[loaded.ref].slots[e.key].value, e.value))
               else None
  {
    WalkedIsRuled(h, loaded, declared, e);
  }

  /** What the walk does at the slot itself, before it goes further down. */
  lemma SlotHappens(h: Heap, loaded: Value, declared: Json, depth: nat, e: Entry, t: Touch)
    requires Closed(h) && Live(h, loaded) && Parsed(declared) && e in Walked(h, loaded, declared)
    requires loaded.Obj? && t in PlanSlot(h, loaded.ref, e.key, e.value, depth)
    requires e.value.Leaf? || !Answers(h, loaded.ref, e.key, e.value) || t == Read(loaded.ref, e.key)
    ensures HappensOn(h, loaded, declared, [], depth, t)
  {
    WalkedIsRuled(h, loaded, declared, e);
  }

  /** Any other touch of the slot is one of the plan further down. */
  lemma FurtherDown(h: Heap, loaded: Value, declared: Json, depth: nat, e: Entry, t: Touch)
    requires Closed(h) && Live(h, loaded) && Parsed(declared) && e in Walked(h, loaded, declared) && e.value.Node?
    requires loaded.Obj? && Answers(h, loaded.ref, e.key, e.value) && t != Read(loaded.ref, e.key)
    requires t in PlanSlot(h, loaded.ref, e.key, e.value, depth)
    ensures Parsed(e.value) && Size(e.value) < Size(declared)
    ensures var slot := h[loaded.ref].slots[e.key].value;
            && t in Plan(h, slot, e.value, depth + 1)
            && Through(h, loaded, declared, e.key) == Some((slot, e.value))
  {
    var walked := Walked(h, loaded, declared);
    var k :| 0 <= k < |walked| && walked[k] == e;
    EntriesShrink(walked, k);
    WalkedIsRuled(h, loaded, declared, e);
    WalkedGoesThrough(h, loaded, declared, e);
  }

  lemma OneKeyMore(h: Heap, v: Value, j: Json, key: Key, rest: seq<Key>, depth: nat, t: Touch)
    requires Closed(h) && Live(h, v) && Through(h, v, j, key).Some?
    ensures var (v', j') := Through(h, v, j, key).value;
            HappensOn(h, v, j, [key] + rest, depth, t) <==> HappensOn(h, v', j', rest, depth + 1, t)
  {
    assert ([key] + rest)[1..] == rest;
  }

  /** Whatever the plan does happens at the end of some path. */
  lemma {:induction false} PlanIsReached(h: Heap, loaded: Value, declared: Json, depth: nat, t: Touch)
    returns (path: seq<Key>)
    requires Closed(h) && Live(h, loaded) && Parsed(declared) && t in Plan(h, loaded, declared, depth)
    ensures HappensOn(h, loaded, declared, path, depth, t)
    decreases Size(declared)
  {
    path := [];
    if t in Opening(h, loaded, declared, depth) {
      LooksHappen(h, loaded, declared, depth, t);
    } else {
      var e := PlannedBelow(h, loaded, declared, depth, t);
      if e.value.Leaf? || !Answers(h, loaded.ref, e.key, e.value) || t == Read(loaded.ref, e.key) {
        SlotHappens(h, loaded, declared, depth, e, t);
      } else {
        FurtherDown(h, loaded, declared, depth, e, t);
        var rest := PlanIsReached(h, h[loaded.ref].slots[e.key].value, e.value, depth + 1, t);
        path := [e.key] + rest;
        OneKeyMore(h, loaded, declared, e.key, rest, depth, t);
      }
    }
  }

  lemma ComesIsWalked(h: Heap, loaded: Value, declared: Json, key: Key, value: Json) returns (k: nat)
    requires Closed(h) && Live(h, loaded) && Parsed(declared) && Comes(h, loaded, declared, key, value)
    ensures var walked := Walked(h, loaded, declared); k < |walked| && walked[k] == Entry(key, value)
  {
    WalkedIsRuled(h, loaded, declared, Entry(key, value));
    k :| 0 <= k < |Walked(h, loaded, declared)| && Walked(h, loaded, declared)[k] == Entry(key, value);
  }

  /** What happens at a place is planned there. */
  lemma HappeningIsPlanned(h: Heap, loaded: Value, declared: Json, depth: nat, t: Touch)
    requires Closed(h) && Live(h, loaded) && Parsed(declared) && Happens(h, (loaded, declared), depth, t)
    ensures t in Plan(h, loaded, declared, depth)
  {
    if t !in Opening(h, loaded, declared, depth) {
      var key := t.key;
      if declared.Node? { RulesAgree(h, loaded, declared); }
      var value := Under(declared, key).value;
      var k := ComesIsWalked(h, loaded, declared, key, value);
      EntryTouches(h, loaded.ref, Walked(h, loaded, declared), depth, k, t);
    }
  }

  /** Whatever happens at the end of a path is in the plan. */
  lemma {:induction false} ReachedIsPlanned(h: Heap, loaded: Value, declared: Json, depth: nat, path: seq<Key>,
                                            t: Touch)
    requires Closed(h) && Live(h, loaded) && Parsed(declared) && HappensOn(h, loaded, declared, path, depth, t)
    ensures t in Plan(h, loaded, declared, depth)
    decreases path
  {
    if path == [] {
      HappeningIsPlanned(h, loaded, declared, depth, t);
    } else {
      var (v, j) := Through(h, loaded, declared, path[0]).value;
      assert path == [path[0]] + path[1..];
      OneKeyMore(h, loaded, declared, path[0], path[1..], depth, t);
      ReachedIsPlanned(h, v, j, depth + 1, path[1..], t);
      BelowIsPlanned(h, loaded, declared, depth, path[0], t);
    }
  }

  lemma BelowIsPlanned(h: Heap, loaded: Value, declared: Json, depth: nat, key: Key, t: Touch)
    requires Closed(h) && Live(h, loaded) && Parsed(declared) && Through(h, loaded, declared, key).Some?
    requires var (v, j) := Through(h, loaded, declared, key).value; t in Plan(h, v, j, depth + 1)
    ensures t in Plan(h, loaded, declared, depth)
  {
    var (v, j) := Through(h, loaded, declared, key).value;
    var k := ComesIsWalked(h, loaded, declared, key, j);
    EntryTouches(h, loaded.ref, Walked(h, loaded, declared), depth, k, t);
  }

  /** The plan touches exactly what is reached. */
  lemma PlanIsWhatIsReached(h: Heap, loaded: Value, declared: Json, depth: nat, t: Touch)
    requires Closed(h) && Live(h, loaded) && Parsed(declared)
    ensures t in Plan(h, loaded, declared, depth) <==> Reached(h, loaded, declared, depth, t)
  {
    if t in Plan(h, loaded, declared, depth) { var path := PlanIsReached(h, loaded, declared, depth, t); }
    if Reached(h, loaded, declared, depth, t) {
      var path :| HappensOn(h, loaded, declared, path, depth, t);
      ReachedIsPlanned(h, loaded, declared, depth, path, t);
    }
  }

  // ---- One node for each path -------------------------------------------------------------------------------------

  /** The paths that begin with this key. */
  function Prefixed(key: Key, paths: set<seq<Key>>): set<seq<Key>> {
    set path | path in paths :: [key] + path
  }

  lemma {:induction false} PrefixedSize(key: Key, paths: set<seq<Key>>)
    ensures |Prefixed(key, paths)| == |paths|
    decreases paths
  {
    if paths != {} {
      var path :| path in paths;
      PrefixedSize(key, paths - {path});
      assert ([key] + path)[1..] == path;
      assert forall other :: other in paths - {path} ==> ([key] + other)[1..] == other;
      assert Prefixed(key, paths) == Prefixed(key, paths - {path}) + {[key] + path};
    }
  }

  lemma {:induction false} EntersConcat(p: seq<Touch>, q: seq<Touch>)
    ensures Enters(p + q) == Enters(p) + Enters(q)
    decreases p
  {
    if p == [] {
      assert p + q == q;
    } else {
      assert (p + q)[0] == p[0] && (p + q)[1..] == p[1..] + q;
      EntersConcat(p[1..], q);
    }
  }

  /** The paths that lead somewhere and begin with one of the keys. */
  ghost predicate PathsFrom(h: Heap, loaded: Value, declared: Json, keys: set<Key>, paths: set<seq<Key>>)
    requires Closed(h) && Live(h, loaded)
  {
    forall path :: path in paths <==> path != [] && path[0] in keys && Led(h, loaded, declared, path).Some?
  }

  ghost predicate AllPaths(h: Heap, loaded: Value, declared: Json, paths: set<seq<Key>>)
    requires Closed(h) && Live(h, loaded)
  {
    forall path :: path in paths <==> Led(h, loaded, declared, path).Some?
  }

  lemma OpeningEnters(h: Heap, loaded: Value, declared: Json, depth: nat)
    requires Live(h, loaded)
    ensures Enters(Opening(h, loaded, declared, depth)) == 1
  {
    LooksOnlyLook(h, loaded, declared);
    var looks := Looks(h, loaded, declared);
    EntersConcat([Enter(depth)], looks);
    assert [Enter(depth)][1..] == [];
    NothingEntered(looks);
  }

  lemma {:induction false} NothingEntered(p: seq<Touch>)
    requires forall t :: t in p ==> !t.Enter?
    ensures Enters(p) == 0
    decreases p
  {
    if p != [] {
      assert p[0] in p && forall t :: t in p[1..] ==> t in p;
      NothingEntered(p[1..]);
    }
  }

  /** The plan enters one node for each path that leads anywhere. */
  lemma {:induction false} PathsAreCounted(h: Heap, loaded: Value, declared: Json, depth: nat)
    returns (paths: set<seq<Key>>)
    requires Closed(h) && Live(h, loaded) && Parsed(declared)
    ensures AllPaths(h, loaded, declared, paths) && |paths| == Enters(Plan(h, loaded, declared, depth))
    decreases Size(declared), 1, 0
  {
    var walked := Walked(h, loaded, declared);
    OpeningEnters(h, loaded, declared, depth);
    if walked == [] {
      assert Opening(h, loaded, declared, depth) + [] == Opening(h, loaded, declared, depth);
      NothingBelow(h, loaded, declared);
      paths := {[]};
    } else {
      EntersConcat(Opening(h, loaded, declared, depth), PlanEntries(h, loaded.ref, walked, depth));
      ParsedIsKeyed(declared);
      WalkedIsKeyed(h, loaded, declared);
      var below := EntriesAreCounted(h, loaded, declared, walked, depth);
      paths := below + {[]};
      BelowIsAll(h, loaded, declared, below);
    }
  }

  lemma BelowIsAll(h: Heap, loaded: Value, declared: Json, below: set<seq<Key>>)
    requires Closed(h) && Live(h, loaded) && Parsed(declared)
    requires PathsFrom(h, loaded, declared, KeysOf(Walked(h, loaded, declared)), below)
    ensures AllPaths(h, loaded, declared, below + {[]})
  {
    var walked := Walked(h, loaded, declared);
    forall path: seq<Key> | path != [] && Led(h, loaded, declared, path).Some?
      ensures path[0] in KeysOf(walked)
    {
      var k := ComesIsWalked(h, loaded, declared, path[0], Under(declared, path[0]).value);
    }
  }

  lemma NothingBelow(h: Heap, loaded: Value, declared: Json)
    requires Closed(h) && Live(h, loaded) && Parsed(declared) && Walked(h, loaded, declared) == []
    ensures AllPaths(h, loaded, declared, {[]})
  {
    forall path: seq<Key> | path != []
      ensures Led(h, loaded, declared, path).None?
    {
      if Through(h, loaded, declared, path[0]).Some? {
        var k := ComesIsWalked(h, loaded, declared, path[0], Under(declared, path[0]).value);
      }
    }
  }

  lemma {:induction false} EntriesAreCounted(h: Heap, loaded: Value, declared: Json, entries: seq<Entry>, depth: nat)
    returns (paths: set<seq<Key>>)
    requires Closed(h) && Live(h, loaded) && loaded.Obj? && Parsed(declared) && DistinctEntryKeys(entries)
    requires forall e :: e in entries ==> e in Walked(h, loaded, declared)
    ensures PathsFrom(h, loaded, declared, KeysOf(entries), paths)
    ensures |paths| == Enters(PlanEntries(h, loaded.ref, entries, depth))
    decreases Size(declared), 0, |entries|
  {
    paths := {};
    if entries != [] {
      var first, rest := entries[0], entries[1..];
      var here := SlotIsCounted(h, loaded, declared, first, depth);
      var later := EntriesAreCounted(h, loaded, declared, rest, depth);
      EntersConcat(PlanSlot(h, loaded.ref, first.key, first.value, depth), PlanEntries(h, loaded.ref, rest, depth));
      paths := here + later;
      KeysApart(entries);
      BothCounted(h, loaded, declared, first.key, KeysOf(rest), here, later);
    }
  }

  lemma KeysApart(entries: seq<Entry>)
    requires entries != [] && DistinctEntryKeys(entries)
    ensures KeysOf(entries) == {entries[0].key} + KeysOf(entries[1..]) && entries[0].key !in KeysOf(entries[1..])
  {
    assert forall i :: 0 <= i < |entries[1..]| ==> entries[1..][i] == entries[i + 1];
    assert forall i :: 0 < i < |entries| ==> entries[i] == entries[1..][i - 1];
  }

  lemma BothCounted(h: Heap, loaded: Value, declared: Json, key: Key, keys: set<Key>, here: set<seq<Key>>,
                    later: set<seq<Key>>)
    requires Closed(h) && Live(h, loaded) && key !in keys
    requires PathsFrom(h, loaded, declared, {key}, here) && PathsFrom(h, loaded, declared, keys, later)
    ensures PathsFrom(h, loaded, declared, {key} + keys, here + later) && |here + later| == |here| + |later|
  {
    assert here !! later;
  }

  lemma {:induction false} SlotIsCounted(h: Heap, loaded: Value, declared: Json, e: Entry, depth: nat)
    returns (paths: set<seq<Key>>)
    requires Closed(h) && Live(h, loaded) && loaded.Obj? && Parsed(declared) && e in Walked(h, loaded, declared)
    ensures PathsFrom(h, loaded, declared, {e.key}, paths)
    ensures |paths| == Enters(PlanSlot(h, loaded.ref, e.key, e.value, depth))
    decreases Size(declared), 0, 0
  {
    WalkedIsRuled(h, loaded, declared, e);
    if e.value.Node? && Answers(h, loaded.ref, e.key, e.value) {
      var slot := h[loaded.ref].slots[e.key].value;
      SmallerBelow(h, loaded, declared, e);
      var inner := PathsAreCounted(h, slot, e.value, depth + 1);
      EntersConcat([Read(loaded.ref, e.key)], Plan(h, slot, e.value, depth + 1));
      NothingEntered([Read(loaded.ref, e.key)]);
      paths := Prefixed(e.key, inner);
      PrefixedSize(e.key, inner);
      PathsThrough(h, loaded, declared, e, inner);
    } else {
      paths := {};
      WalkStopsAtSlot(h, loaded.ref, e.key, e.value, depth);
      assert Through(h, loaded, declared, e.key).None?;
    }
  }

  lemma WalkStopsAtSlot(h: Heap, r: Ref, key: Key, value: Json, depth: nat)
    requires Closed(h) && r in h && (value.Leaf? || !Answers(h, r, key, value))
    ensures Enters(PlanSlot(h, r, key, value, depth)) == 0
  {
    NothingEntered(PlanSlot(h, r, key, value, depth));
  }

  lemma SmallerBelow(h: Heap, loaded: Value, declared: Json, e: Entry)
    requires Live(h, loaded) && Parsed(declared) && e in Walked(h, loaded, declared)
    ensures Size(e.value) < Size(declared) && Parsed(e.value)
  {
    var walked := Walked(h, loaded, declared);
    var k :| 0 <= k < |walked| && walked[k] == e;
    EntriesShrink(walked, k);
    WalkedIsRuled(h, loaded, declared, e);
  }

  lemma PrefixedHas(key: Key, paths: set<seq<Key>>, path: seq<Key>)
    ensures path in Prefixed(key, paths) <==> path != [] && path[0] == key && path[1..] in paths
  {
    if path != [] && path[0] == key && path[1..] in paths { assert path == [key] + path[1..]; }
    assert forall other :: other in paths ==> ([key] + other)[1..] == other;
  }

  lemma LedBelow(h: Heap, v: Value, j: Json, path: seq<Key>)
    requires Closed(h) && Live(h, v) && path != [] && Through(h, v, j, path[0]).Some?
    ensures var inner := Through(h, v, j, path[0]).value; Led(h, v, j, path) == Led(h, inner.0, inner.1, path[1..])
  {}

  lemma PathsThrough(h: Heap, loaded: Value, declared: Json, e: Entry, inner: set<seq<Key>>)
    requires Closed(h) && Live(h, loaded) && Parsed(declared) && e in Walked(h, loaded, declared)
    requires e.value.Node? && loaded.Obj? && Answers(h, loaded.ref, e.key, e.value)
    requires AllPaths(h, h[loaded.ref].slots[e.key].value, e.value, inner)
    ensures PathsFrom(h, loaded, declared, {e.key}, Prefixed(e.key, inner))
  {
    WalkedGoesThrough(h, loaded, declared, e);
    forall path: seq<Key>
      ensures path in Prefixed(e.key, inner)
              <==> path != [] && path[0] in {e.key} && Led(h, loaded, declared, path).Some?
    {
      PrefixedHas(e.key, inner, path);
      if path != [] && path[0] == e.key { LedBelow(h, loaded, declared, path); }
    }
  }

  // ---- What the walk leaves ---------------------------------------------------------------------------------------

  /** The declared tree reaches this slot with this leaf. */
  ghost predicate LeafAt(h: Heap, v: Value, j: Json, r: Ref, key: Key, prim: Prim)
    requires Closed(h) && Live(h, v)
  {
    Reached(h, v, j, 0, Repair(r, key, prim))
  }

  /** Along the declared tree, something is decided by what this slot holds: where to go on, or whether to. */
  ghost predicate DecidedAt(h: Heap, v: Value, j: Json, r: Ref, key: Key)
    requires Closed(h) && Live(h, v)
  {
    Reached(h, v, j, 0, Read(r, key))
  }

  /** The declared tree reaches a container under this key that cannot be verified. */
  ghost predicate RefusedAt(h: Heap, v: Value, j: Json, key: Key)
    requires Closed(h) && Live(h, v)
  {
    Reached(h, v, j, 0, Refuse(key))
  }

  /** The slot holds data other than the leaf. */
  predicate Differs(h: Heap, r: Ref, key: Key, prim: Prim) {
    r in h && key in h[r].slots && h[r].slots[key].Data? && h[r].slots[key].value != Plain(prim)
  }

  /** No slot that holds other data than its leaf decides anything, and no data slot is declared two leaves. */
  ghost predicate Undisturbed(h: Heap, v: Value, j: Json)
    requires Closed(h) && Live(h, v)
  {
    && (forall r, key, prim :: LeafAt(h, v, j, r, key, prim) && Differs(h, r, key, prim) ==>
          !DecidedAt(h, v, j, r, key))
    && forall r, key, prim, prim' ::
         LeafAt(h, v, j, r, key, prim) && LeafAt(h, v, j, r, key, prim') && HasData(h, r, key) ==> prim == prim'
  }

  /** Nothing on the way makes the walk throw. */
  ghost predicate Passable(h: Heap, nodes: nat, v: Value, j: Json, depth: nat, paths: set<seq<Key>>)
    requires Closed(h) && Live(h, v)
  {
    && (forall path :: path in paths ==> depth + |path| <= 64)
    && nodes + |paths| <= 100_000
    && (forall key :: !RefusedAt(h, v, j, key))
    && forall r, key, prim :: LeafAt(h, v, j, r, key, prim) && Differs(h, r, key, prim) ==>
         h[r].slots[key].configurable
  }

  /** Every declared leaf reached is in its data slot, and every slot without one is as it was. */
  ghost predicate HoldsLeaves(h: Heap, h': Heap, v: Value, j: Json)
    requires Closed(h) && Live(h, v)
  {
    && SameObjects(h, h')
    && (forall r, key, prim :: LeafAt(h, v, j, r, key, prim) && Differs(h, r, key, prim) ==>
          h'[r].slots[key] == Data(Plain(prim), true))
    && forall r, key :: r in h && key in h[r].slots
                        && (forall prim :: !(LeafAt(h, v, j, r, key, prim) && Differs(h, r, key, prim))) ==>
         h'[r].slots[key] == h[r].slots[key]
  }

  lemma DepthIsOnlyEntered(h: Heap, v: Value, j: Json, depth: nat, t: Touch)
    requires Closed(h) && Live(h, v) && !t.Enter?
    ensures Reached(h, v, j, depth, t) <==> Reached(h, v, j, 0, t)
  {
    assert forall path :: HappensOn(h, v, j, path, depth, t) <==> HappensOn(h, v, j, path, 0, t);
  }

  lemma PlanInTerms(h: Heap, v: Value, j: Json, depth: nat)
    requires Closed(h) && Live(h, v) && Parsed(j)
    ensures forall r, key, prim :: Repair(r, key, prim) in Plan(h, v, j, depth) <==> LeafAt(h, v, j, r, key, prim)
    ensures forall r, key :: Read(r, key) in Plan(h, v, j, depth) <==> DecidedAt(h, v, j, r, key)
    ensures forall key :: Refuse(key) in Plan(h, v, j, depth) <==> RefusedAt(h, v, j, key)
  {
    forall t: Touch | !t.Enter?
      ensures t in Plan(h, v, j, depth) <==> Reached(h, v, j, 0, t)
    {
      PlanIsWhatIsReached(h, v, j, depth, t);
      DepthIsOnlyEntered(h, v, j, depth, t);
    }
  }

  lemma DepthsInTerms(h: Heap, v: Value, j: Json, depth: nat, paths: set<seq<Key>>)
    requires Closed(h) && Live(h, v) && Parsed(j) && AllPaths(h, v, j, paths)
    ensures (forall d: nat :: Enter(d) in Plan(h, v, j, depth) ==> d <= 64)
            <==> forall path :: path in paths ==> depth + |path| <= 64
  {
    forall path | path in paths
      ensures Enter(depth + |path|) in Plan(h, v, j, depth)
    {
      assert HappensOn(h, v, j, path, depth, Enter(depth + |path|));
      PlanIsWhatIsReached(h, v, j, depth, Enter(depth + |path|));
    }
    forall d: nat | Enter(d) in Plan(h, v, j, depth)
      ensures exists path :: path in paths && d == depth + |path|
    {
      PlanIsWhatIsReached(h, v, j, depth, Enter(d));
      var path :| HappensOn(h, v, j, path, depth, Enter(d));
      assert path in paths;
    }
  }

  lemma AllowedInTerms(h: Heap, nodes: nat, v: Value, j: Json, depth: nat, paths: set<seq<Key>>)
    requires Closed(h) && Live(h, v) && Parsed(j) && AllPaths(h, v, j, paths)
    requires |paths| == Enters(Plan(h, v, j, depth))
    ensures Allowed(h, nodes, Plan(h, v, j, depth)) <==> Passable(h, nodes, v, j, depth, paths)
  {
    PlanInTerms(h, v, j, depth);
    DepthsInTerms(h, v, j, depth, paths);
    assert [] in paths;
    assert forall r, key, prim :: Diverged(h, r, key, prim) <==> Differs(h, r, key, prim);
  }

  lemma UndisturbedInTerms(h: Heap, v: Value, j: Json, depth: nat)
    requires Closed(h) && Live(h, v) && Parsed(j)
    ensures Undisturbed(h, v, j) <==> Separate(h, Plan(h, v, j, depth)) && Agreeing(h, Plan(h, v, j, depth))
  {
    PlanInTerms(h, v, j, depth);
    assert forall r, key, prim :: Diverged(h, r, key, prim) <==> Differs(h, r, key, prim);
  }

  lemma RepairedInTerms(h: Heap, h': Heap, v: Value, j: Json, depth: nat)
    requires Closed(h) && Live(h, v) && Parsed(j) && Repaired(h, h', Plan(h, v, j, depth))
    ensures HoldsLeaves(h, h', v, j)
  {
    PlanInTerms(h, v, j, depth);
    assert forall r, key, prim :: Diverged(h, r, key, prim) <==> Differs(h, r, key, prim);
  }

  /**
    The repair, told from the declared tree alone. On every load it does not disturb itself on, the walk throws exactly
    when a path is too long, there are too many, a container cannot be verified or a slot to repair is frozen; when it
    returns, every reached data slot holds its leaf, every other slot is as it was, and each path has been counted.
   */
  lemma RestoredAsDeclared(h: Heap, nodes: nat, loaded: Value, declared: Json, depth: nat)
    returns (paths: set<seq<Key>>)
    requires Closed(h) && Live(h, loaded) && Parsed(declared) && Undisturbed(h, loaded, declared)
    ensures AllPaths(h, loaded, declared, paths)
    ensures var o := Restored(h, nodes, loaded, declared, depth);
            && (o.failure.None? <==> Passable(h, nodes, loaded, declared, depth, paths))
            && (o.failure.None? ==> HoldsLeaves(h, o.heap, loaded, declared) && o.nodes == nodes + |paths|)
  {
    paths := PathsAreCounted(h, loaded, declared, depth);
    UndisturbedInTerms(h, loaded, declared, depth);
    RestoreDeclaredMeaning(h, nodes, loaded, declared, depth);
    AllowedInTerms(h, nodes, loaded, declared, depth, paths);
    var o := Restored(h, nodes, loaded, declared, depth);
    if o.failure.None? { RepairedInTerms(h, o.heap, loaded, declared, depth); }
  }

  // ---- What it throws ---------------------------------------------------------------------------------------------

  /** The exception is the one this touch calls for, with so many nodes counted before it. */
  predicate Throws(h: Heap, nodes: nat, t: Touch, failure: Failure) {
    match failure
    case TooDeep => t.Enter? && t.depth > 64
    case TooManyNodes => t.Enter? && t.depth <= 64 && nodes >= 100_000
    case UnverifiableContainer(key) => t == Refuse(key)
    case NotConfigurable(key) =>
      t.Repair? && t.key == key && Differs(h, t.ref, key, t.prim) && !h[t.ref].slots[key].configurable
  }

  lemma TakeThrows(h: Heap, nodes: nat, t: Touch)
    ensures var o := Take(h, nodes, t); o.failure.Some? ==> Throws(h, nodes, t, o.failure.value)
  {}

  lemma ThrowsBefore(h: Heap, nodes: nat, t: Touch, later: Touch, nodes': nat, failure: Failure)
    requires Throws(Take(h, nodes, t).heap, nodes', later, failure)
    ensures Throws(h, nodes', later, failure)
  {}

  /** The walk throws at the first touch that cannot be carried out. */
  lemma {:induction false} FailingTouch(h: Heap, nodes: nat, p: seq<Touch>) returns (i: nat)
    requires Execute(h, nodes, p).failure.Some?
    ensures i < |p| && Execute(h, nodes, p[..i]).failure.None?
    ensures Throws(h, nodes + Enters(p[..i]), p[i], Execute(h, nodes, p).failure.value)
    decreases p
  {
    var first := Take(h, nodes, p[0]);
    TakeThrows(h, nodes, p[0]);
    if first.failure.Some? {
      i := 0;
    } else {
      i := FailingTouch(first.heap, first.nodes, p[1..]);
      EntersCounts(h, nodes, p[0]);
      ThrowsBefore(h, nodes, p[0], p[1..][i], first.nodes + Enters(p[1..][..i]), Execute(h, nodes, p).failure.value);
      assert p[..i + 1][0] == p[0] && p[..i + 1][1..] == p[1..][..i];
      i := i + 1;
    }
  }

  lemma EntersUpTo(p: seq<Touch>, i: nat)
    requires i < |p|
    ensures Enters(p[..i]) + (if p[i].Enter? then 1 else 0) <= Enters(p)
  {
    EntersConcat(p[..i], p[i..]);
    assert p == p[..i] + p[i..] && p[i..][0] == p[i];
  }

  /** What it throws is called for by something the declared tree reaches, and by the first such thing in its order. */
  lemma ThrowsAsDeclared(h: Heap, nodes: nat, loaded: Value, declared: Json, depth: nat) returns (i: nat)
    requires Closed(h) && Live(h, loaded) && Parsed(declared) && Undisturbed(h, loaded, declared)
    requires Restored(h, nodes, loaded, declared, depth).failure.Some?
    ensures var p := Plan(h, loaded, declared, depth);
            var failure := Restored(h, nodes, loaded, declared, depth).failure.value;
            && i < |p| && Reached(h, loaded, declared, depth, p[i]) && Execute(h, nodes, p[..i]).failure.None?
            && Throws(h, nodes + Enters(p[..i]), p[i], failure)
            && (failure.TooManyNodes? ==> nodes + Enters(p) > 100_000)
  {
    var p := Plan(h, loaded, declared, depth);
    UndisturbedInTerms(h, loaded, declared, depth);
    RestoreFollowsPlan(h, nodes, loaded, declared, depth);
    i := FailingTouch(h, nodes, p);
    PlanIsWhatIsReached(h, loaded, declared, depth, p[i]);
    EntersUpTo(p, i);
  }

  // ---- Loads without aliasing -------------------------------------------------------------------------------------

  /** No two paths lead to one object. */
  ghost predicate Unaliased(h: Heap, v: Value, j: Json)
    requires Closed(h) && Live(h, v)
  {
    forall path, path' ::
      && Led(h, v, j, path).Some? && Led(h, v, j, path').Some?
      && Led(h, v, j, path).value.0.Obj? && Led(h, v, j, path).value.0 == Led(h, v, j, path').value.0
      ==> path == path'
  }

  /** At one place, a slot with a declared leaf decides nothing. */
  lemma LeafDecidesNothing(h: Heap, place: (Value, Json), depth: nat, r: Ref, key: Key, prim: Prim)
    requires Closed(h) && Live(h, place.0) && Happens(h, place, depth, Repair(r, key, prim))
    ensures !Happens(h, place, depth, Read(r, key))
    ensures forall prim' :: Happens(h, place, depth, Repair(r, key, prim')) ==> prim' == prim
  {
    assert |"lg_name"| == 7 && |"value"| == 5;
  }

  /** Such a load is restored: RestoredAsDeclared and ThrowsAsDeclared hold of it. */
  lemma UnaliasedIsUndisturbed(h: Heap, loaded: Value, declared: Json)
    requires Closed(h) && Live(h, loaded) && Unaliased(h, loaded, declared)
    ensures Undisturbed(h, loaded, declared)
  {
    forall r, key, prim, t: Touch, path, path' |
      HappensOn(h, loaded, declared, path, 0, Repair(r, key, prim)) && HappensOn(h, loaded, declared, path', 0, t)
      && (t == Read(r, key) || (t.Repair? && t.ref == r && t.key == key))
      ensures t.Repair? && t.prim == prim
    {
      assert path == path';
      LeafDecidesNothing(h, Led(h, loaded, declared, path).value, |path|, r, key, prim);
    }
  }
}
