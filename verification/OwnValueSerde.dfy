/**
  The repair walk of packages/persistence/src/own-value-serde.ts: a loaded object graph is walked in lockstep with the
  JSON tree its bytes declare, and every own data slot that diverged from a declared leaf is overwritten in place.

  The loaded side is a heap, so two declared paths may meet in one object. Restored is the walk itself; Plan lists what
  the walk would do as read off the heap before the first write, and Execute carries such a list out. The theorems
  say when the writes cannot disturb the walk that makes them, and what the heap is then.
 */
module OwnValueSerde {
  import opened Wrappers

  const DESERIALIZATION_MAX_DEPTH: nat := 64
  const DESERIALIZATION_MAX_NODES: nat := 100_000

  /** A property key: a canonical array index, or any other string. */
  datatype Key = Index(index: nat) | Name(name: string)

  datatype Num = Finite(n: real) | NegativeZero | Infinity(positive: bool) | NaN

  /** Two primitives are equal here exactly when Object.is says so. */
  datatype Prim = Null | Bool(flag: bool) | Number(number: Num) | Text(text: string) | Other(tag: nat)

  /** JSON.parse's result. An array is a node whose entries are keyed 0, 1, 2, ... */
  datatype Json = Leaf(prim: Prim) | Node(isArray: bool, entries: seq<Entry>)
  datatype Entry = Entry(key: Key, value: Json)

  type Ref = nat
  datatype Value = Plain(prim: Prim) | Obj(ref: Ref)
  datatype Slot = Data(value: Value, configurable: bool) | Accessor

  /**
    A loaded object or function; length is Some for a genuine array. marked is what reading lg_name answers when it is
    not an own data slot: the prototype or a getter says DeltaSnapshot.
   */
  datatype Object = Object(length: Option<nat>, callable: bool, marked: bool, slots: map<Key, Slot>)
  type Heap = map<Ref, Object>

  const MARKER := Name("lg_name")

  datatype Failure = TooDeep | TooManyNodes | UnverifiableContainer(key: Key) | NotConfigurable(key: Key)

  /** The heap and the node count when the walk stops, and the exception it stopped with, if any. */
  datatype Outcome = Outcome(heap: Heap, nodes: nat, failure: Option<Failure>)

  predicate Live(h: Heap, v: Value) {
    v.Obj? ==> v.ref in h
  }

  /** An array's length is an own slot that cannot be redefined. */
  predicate HoldsLength(o: Object) {
    o.length.Some? ==>
      && Name("length") in o.slots
      && o.slots[Name("length")] == Data(Plain(Number(Finite(o.length.value as real))), false)
  }

  predicate Closed(h: Heap) {
    && (forall r, k :: r in h && k in h[r].slots && h[r].slots[k].Data? ==> Live(h, h[r].slots[k].value))
    && forall r :: r in h ==> HoldsLength(h[r])
  }

  function Size(j: Json): nat
    decreases j, 0
  {
    if j.Leaf? then 0 else 1 + EntriesSize(j.entries)
  }

  function EntriesSize(entries: seq<Entry>): nat
    decreases entries, 1
  {
    if entries == [] then 0 else
    var first := entries[0];
    assert first.value < first;
    1 + Size(first.value) + EntriesSize(entries[1..])
  }

  lemma {:induction false} EntriesShrink(entries: seq<Entry>, k: nat)
    requires k <= |entries|
    ensures EntriesSize(entries[..k]) <= EntriesSize(entries)
    ensures k < |entries| ==> Size(entries[k].value) < EntriesSize(entries)
  {
    if k > 0 {
      assert entries[..k][1..] == entries[1..][..k - 1];
      EntriesShrink(entries[1..], k - 1);
    }
  }

  /** The position of a declared key, or -1. */
  function Find(entries: seq<Entry>, key: Key): (k: int)
    ensures -1 <= k < |entries|
    ensures k >= 0 ==> entries[k].key == key
    ensures k < 0 ==> forall i :: 0 <= i < |entries| ==> entries[i].key != key
  {
    if entries == [] then -1
    else if entries[0].key == key then 0
    else var k := Find(entries[1..], key); if k < 0 then -1 else k + 1
  }

  predicate DeclaresLeaf(j: Json, key: string, prim: Prim)
    requires j.Node?
  {
    var k := Find(j.entries, Name(key));
    k >= 0 && j.entries[k].value == Leaf(prim)
  }

  predicate IsPlainObject(j: Json) {
    j.Node? && !j.isArray
  }

  predicate IsRevivedRecord(j: Json)
    requires IsPlainObject(j)
  {
    DeclaresLeaf(j, "lc", Number(Finite(1.0))) || DeclaresLeaf(j, "lc", Number(Finite(2.0)))
  }

  predicate IsDeltaSnapshotRecord(j: Json) {
    && IsPlainObject(j)
    && DeclaresLeaf(j, "lc", Number(Finite(2.0))) && DeclaresLeaf(j, "type", Text("delta_snapshot"))
    && Find(j.entries, Name("value")) >= 0
  }

  predicate HasData(h: Heap, r: Ref, key: Key) {
    r in h && key in h[r].slots && h[r].slots[key].Data?
  }

  /** Reading lg_name gives DeltaSnapshot: an own data slot decides, else the prototype or the getter does. */
  predicate IsMarked(h: Heap, r: Ref)
    requires r in h
  {
    if HasData(h, r, MARKER) then h[r].slots[MARKER].value == Plain(Text("DeltaSnapshot")) else h[r].marked
  }

  predicate CarriesSnapshotValue(h: Heap, v: Value)
    requires Live(h, v)
  {
    v.Obj? && !h[v.ref].callable && IsMarked(h, v.ref) && Name("value") in h[v.ref].slots
  }

  /** The walk's branch at this node hangs on what an own data slot lg_name holds. */
  predicate ReadsMarker(h: Heap, loaded: Value, declared: Json)
    requires Live(h, loaded)
  {
    && IsDeltaSnapshotRecord(declared) && loaded.Obj? && !h[loaded.ref].callable
    && Name("value") in h[loaded.ref].slots && HasData(h, loaded.ref, MARKER)
  }

  predicate IsArray(h: Heap, v: Value)
    requires Live(h, v)
  {
    v.Obj? && h[v.ref].length.Some?
  }

  /** The loaded slots the walk of one declared node goes through, in order; none when it stops at this node. */
  function Walked(h: Heap, loaded: Value, declared: Json): (entries: seq<Entry>)
    requires Live(h, loaded)
    ensures entries != [] ==> loaded.Obj?
    ensures EntriesSize(entries) <= Size(declared)
    ensures entries != [] ==> EntriesSize(entries) < Size(declared)
  {
    if IsDeltaSnapshotRecord(declared) && CarriesSnapshotValue(h, loaded) then
      var k := Find(declared.entries, Name("value"));
      EntrySize(declared.entries, k);
      [declared.entries[k]]
    else if declared.Node? && declared.isArray && IsArray(h, loaded) then
      var length := h[loaded.ref].length.value;
      var shared := if |declared.entries| < length then |declared.entries| else length;
      EntriesShrink(declared.entries, shared);
      declared.entries[..shared]
    else if !IsPlainObject(declared) || IsRevivedRecord(declared) || loaded.Plain? then []
    else declared.entries
  }

  lemma {:induction false} EntrySize(entries: seq<Entry>, k: nat)
    requires k < |entries|
    ensures EntriesSize([entries[k]]) <= EntriesSize(entries)
  {
    assert [entries[k]][1..] == [];
    EntriesShrink(entries, k);
  }

  // ---- The walk ---------------------------------------------------------------------------------------------------

  /** No object, key or accessor appears, disappears or changes its kind. */
  ghost predicate SameObjects(h: Heap, h': Heap) {
    && h.Keys == h'.Keys
    && forall r :: r in h ==>
         && h'[r].length == h[r].length && h'[r].callable == h[r].callable && h'[r].marked == h[r].marked
         && h'[r].slots.Keys == h[r].slots.Keys
         && forall k :: k in h[r].slots ==> (h'[r].slots[k].Accessor? <==> h[r].slots[k].Accessor?)
  }

  /** restoreDeclared. */
  function Restored(h: Heap, nodes: nat, loaded: Value, declared: Json, depth: nat): (o: Outcome)
    requires Closed(h) && Live(h, loaded)
    ensures Closed(o.heap) && SameObjects(h, o.heap)
    decreases Size(declared), 1
  {
    if depth > DESERIALIZATION_MAX_DEPTH then Outcome(h, nodes, Some(TooDeep))
    else if nodes + 1 > DESERIALIZATION_MAX_NODES then Outcome(h, nodes + 1, Some(TooManyNodes))
    else
      var entries := Walked(h, loaded, declared);
      if entries == [] then Outcome(h, nodes + 1, None)
      else EntriesRestored(h, nodes + 1, loaded.ref, entries, depth)
  }

  function EntriesRestored(h: Heap, nodes: nat, r: Ref, entries: seq<Entry>, depth: nat): (o: Outcome)
    requires Closed(h) && r in h
    ensures Closed(o.heap) && SameObjects(h, o.heap)
    decreases EntriesSize(entries), 0
  {
    if entries == [] then Outcome(h, nodes, None) else
    var o := SlotRestored(h, nodes, r, entries[0].key, entries[0].value, depth);
    if o.failure.Some? then o else EntriesRestored(o.heap, o.nodes, r, entries[1..], depth)
  }

  function Write(h: Heap, r: Ref, key: Key, prim: Prim): Heap
    requires r in h
  {
    h[r := h[r].(slots := h[r].slots[key := Data(Plain(prim), true)])]
  }

  /** restoreSlot. */
  function SlotRestored(h: Heap, nodes: nat, r: Ref, key: Key, value: Json, depth: nat): (o: Outcome)
    requires Closed(h) && r in h
    ensures Closed(o.heap) && SameObjects(h, o.heap)
    decreases Size(value), 2
  {
    var present := key in h[r].slots && h[r].slots[key].Data?;
    if value.Node? then
      if !present then
        if key == Name("__proto__") then Outcome(h, nodes, None)
        else Outcome(h, nodes, Some(UnverifiableContainer(key)))
      else
        var slot := h[r].slots[key].value;
        if value.isArray && !IsArray(h, slot) then Outcome(h, nodes, Some(UnverifiableContainer(key)))
        else Restored(h, nodes, slot, value, depth + 1)
    else if !present || h[r].slots[key].value == Plain(value.prim) then Outcome(h, nodes, None)
    else if !h[r].slots[key].configurable then Outcome(h, nodes, Some(NotConfigurable(key)))
    else Outcome(Write(h, r, key, value.prim), nodes, None)
  }

  lemma EntriesStep(h: Heap, nodes: nat, r: Ref, entries: seq<Entry>, k: nat, depth: nat)
    requires Closed(h) && r in h && k < |entries|
    ensures var o := SlotRestored(h, nodes, r, entries[k].key, entries[k].value, depth);
            EntriesRestored(h, nodes, r, entries[k..], depth)
            == if o.failure.Some? then o else EntriesRestored(o.heap, o.nodes, r, entries[k + 1..], depth)
  {
    assert entries[k..][0] == entries[k] && entries[k..][1..] == entries[k + 1..];
  }

  /** The loaded graph and the shared node budget, mutated in place by the walk. */
  class Restorer {
    var heap: Heap
    var nodes: nat

    constructor (heap: Heap)
      ensures this.heap == heap && nodes == 0
    {
      this.heap, nodes := heap, 0;
    }

    method RestoreDeclared(loaded: Value, declared: Json, depth: nat) returns (failure: Option<Failure>)
      requires Closed(heap) && Live(heap, loaded)
      modifies this
      ensures Outcome(heap, nodes, failure) == Restored(old(heap), old(nodes), loaded, declared, depth)
      decreases Size(declared), 1
    {
      if depth > DESERIALIZATION_MAX_DEPTH { return Some(TooDeep); }
      nodes := nodes + 1;
      if nodes > DESERIALIZATION_MAX_NODES { return Some(TooManyNodes); }
      var entries := Walked(heap, loaded, declared);
      if entries == [] { return None; }
      failure := RestoreEach(loaded.ref, entries, depth);
    }

    /** The index loop and the key loop of restoreDeclared. */
    method RestoreEach(r: Ref, entries: seq<Entry>, depth: nat) returns (failure: Option<Failure>)
      requires Closed(heap) && r in heap
      modifies this
      ensures Outcome(heap, nodes, failure) == EntriesRestored(old(heap), old(nodes), r, entries, depth)
      decreases EntriesSize(entries), 0
    {
      for k := 0 to |entries|
        invariant Closed(heap) && r in heap
        invariant EntriesRestored(old(heap), old(nodes), r, entries, depth)
                  == EntriesRestored(heap, nodes, r, entries[k..], depth)
      {
        EntriesShrink(entries, k);
        EntriesStep(heap, nodes, r, entries, k, depth);
        failure := RestoreSlot(r, entries[k].key, entries[k].value, depth);
        if failure.Some? { return; }
      }
      return None;
    }

    method RestoreSlot(r: Ref, key: Key, value: Json, depth: nat) returns (failure: Option<Failure>)
      requires Closed(heap) && r in heap
      modifies this
      ensures Outcome(heap, nodes, failure) == SlotRestored(old(heap), old(nodes), r, key, value, depth)
      decreases Size(value), 2
    {
      var present := key in heap[r].slots && heap[r].slots[key].Data?;
      if value.Node? {
        if !present {
          if key == Name("__proto__") { return None; }
          return Some(UnverifiableContainer(key));
        }
        var slot := heap[r].slots[key].value;
        if value.isArray && !IsArray(heap, slot) { return Some(UnverifiableContainer(key)); }
        failure := RestoreDeclared(slot, value, depth + 1);
        return;
      }
      if !present || heap[r].slots[key].value == Plain(value.prim) { return None; }
      if !heap[r].slots[key].configurable { return Some(NotConfigurable(key)); }
      heap := Write(heap, r, key, value.prim);
      return None;
    }
  }

  // ---- The walk as a plan read off the loaded heap ----------------------------------------------------------------

  /**
    What the walk does, in order: it enters a declared value, visits the object loaded for it, reads a slot that decides
    where it goes, repairs a leaf slot or refuses.
   */
  datatype Touch =
    | Enter(depth: nat)
    | Visit(ref: Ref)
    | Read(ref: Ref, key: Key)
    | Repair(ref: Ref, key: Key, prim: Prim)
    | Refuse(key: Key)

  function Plan(h: Heap, loaded: Value, declared: Json, depth: nat): seq<Touch>
    requires Closed(h) && Live(h, loaded)
    decreases Size(declared), 1
  {
    var entries := Walked(h, loaded, declared);
    Opening(h, loaded, declared, depth) + if entries == [] then [] else PlanEntries(h, loaded.ref, entries, depth)
  }

  /** What happens at a node before any of its slots: whatever is loaded there, an object is visited. */
  function Opening(h: Heap, loaded: Value, declared: Json, depth: nat): seq<Touch>
    requires Live(h, loaded)
  {
    [Enter(depth)] + Looks(h, loaded, declared)
  }

  function Looks(h: Heap, loaded: Value, declared: Json): seq<Touch>
    requires Live(h, loaded)
  {
    (if loaded.Obj? then [Visit(loaded.ref)] else [])
    + if ReadsMarker(h, loaded, declared) then [Read(loaded.ref, MARKER)] else []
  }

  function PlanEntries(h: Heap, r: Ref, entries: seq<Entry>, depth: nat): seq<Touch>
    requires Closed(h) && r in h
    decreases EntriesSize(entries), 0
  {
    if entries == [] then [] else
    PlanSlot(h, r, entries[0].key, entries[0].value, depth) + PlanEntries(h, r, entries[1..], depth)
  }

  function PlanSlot(h: Heap, r: Ref, key: Key, value: Json, depth: nat): seq<Touch>
    requires Closed(h) && r in h
    decreases Size(value), 2
  {
    if value.Leaf? then [Repair(r, key, value.prim)]
    else if !(key in h[r].slots && h[r].slots[key].Data?) then
      [Read(r, key)] + if key == Name("__proto__") then [] else [Refuse(key)]
    else
      var slot := h[r].slots[key].value;
      [Read(r, key)] + if value.isArray && !IsArray(h, slot) then [Refuse(key)] else Plan(h, slot, value, depth + 1)
  }

  /** A data slot that does not hold the declared leaf. */
  predicate Diverged(h: Heap, r: Ref, key: Key, prim: Prim) {
    r in h && key in h[r].slots && h[r].slots[key].Data? && h[r].slots[key].value != Plain(prim)
  }

  lemma SameObjectsTransitive(h: Heap, h': Heap, h'': Heap)
    requires SameObjects(h, h') && SameObjects(h', h'')
    ensures SameObjects(h, h'')
  {}

  /** One touch carried out. */
  function Take(h: Heap, nodes: nat, t: Touch): (o: Outcome)
    ensures SameObjects(h, o.heap)
    ensures Closed(h) ==> Closed(o.heap)
  {
    match t
    case Enter(depth) =>
      if depth > DESERIALIZATION_MAX_DEPTH then Outcome(h, nodes, Some(TooDeep))
      else if nodes + 1 > DESERIALIZATION_MAX_NODES then Outcome(h, nodes + 1, Some(TooManyNodes))
      else Outcome(h, nodes + 1, None)
    case Repair(r, key, prim) =>
      if !Diverged(h, r, key, prim) then Outcome(h, nodes, None)
      else if !h[r].slots[key].configurable then Outcome(h, nodes, Some(NotConfigurable(key)))
      else Outcome(Write(h, r, key, prim), nodes, None)
    case Refuse(key) => Outcome(h, nodes, Some(UnverifiableContainer(key)))
    case _ => Outcome(h, nodes, None)
  }

  /** A plan carried out, until a touch fails. */
  function Execute(h: Heap, nodes: nat, plan: seq<Touch>): (o: Outcome)
    ensures SameObjects(h, o.heap)
    ensures Closed(h) ==> Closed(o.heap)
    decreases plan
  {
    if plan == [] then Outcome(h, nodes, None) else
    var first := Take(h, nodes, plan[0]);
    if first.failure.Some? then first
    else
      var o := Execute(first.heap, first.nodes, plan[1..]);
      SameObjectsTransitive(h, first.heap, o.heap);
      o
  }

  lemma {:induction false} ExecuteConcat(h: Heap, nodes: nat, p: seq<Touch>, q: seq<Touch>)
    ensures var o := Execute(h, nodes, p);
            Execute(h, nodes, p + q) == if o.failure.Some? then o else Execute(o.heap, o.nodes, q)
    decreases p
  {
    if p == [] {
      assert p + q == q;
    } else {
      assert (p + q)[0] == p[0] && (p + q)[1..] == p[1..] + q;
      var first := Take(h, nodes, p[0]);
      if first.failure.None? { ExecuteConcat(first.heap, first.nodes, p[1..], q); }
    }
  }

  lemma ExecuteFirst(h: Heap, nodes: nat, t: Touch, rest: seq<Touch>)
    ensures var o := Take(h, nodes, t);
            Execute(h, nodes, [t] + rest) == if o.failure.Some? then o else Execute(o.heap, o.nodes, rest)
  {
    assert ([t] + rest)[0] == t && ([t] + rest)[1..] == rest;
  }

  lemma TakeFrame(h: Heap, nodes: nat, t: Touch, r: Ref, key: Key)
    requires r in h && key in h[r].slots && !(t.Repair? && (t.ref, t.key) == (r, key))
    ensures var o := Take(h, nodes, t); r in o.heap && key in o.heap[r].slots && o.heap[r].slots[key] == h[r].slots[key]
  {}

  /** Carrying out a plan changes only slots it repairs and that have diverged. */
  lemma {:induction false} ExecuteFrame(h: Heap, nodes: nat, p: seq<Touch>, r: Ref, key: Key)
    requires r in h && key in h[r].slots
    requires forall prim :: Repair(r, key, prim) in p ==> !Diverged(h, r, key, prim)
    ensures Execute(h, nodes, p).heap[r].slots[key] == h[r].slots[key]
    decreases p
  {
    if p != [] {
      assert p[0] in p && forall t :: t in p[1..] ==> t in p;
      QuietTouch(h, nodes, p[0], r, key);
      var first := Take(h, nodes, p[0]);
      if first.failure.None? { ExecuteFrame(first.heap, first.nodes, p[1..], r, key); }
    }
  }

  lemma QuietTouch(h: Heap, nodes: nat, t: Touch, r: Ref, key: Key)
    requires r in h && key in h[r].slots
    requires t.Repair? && (t.ref, t.key) == (r, key) ==> !Diverged(h, r, key, t.prim)
    ensures var h' := Take(h, nodes, t).heap;
            && r in h' && key in h'[r].slots && h'[r].slots[key] == h[r].slots[key]
            && forall prim :: Diverged(h', r, key, prim) <==> Diverged(h, r, key, prim)
  {
    if !(t.Repair? && (t.ref, t.key) == (r, key)) { TakeFrame(h, nodes, t, r, key); }
  }

  // ---- When the repairs cannot disturb the walk -------------------------------------------------------------------

  /** No slot that a repair will change is one the walk reads to find its way: a container, or a snapshot's marker. */
  ghost predicate Separate(h: Heap, p: seq<Touch>) {
    forall r, key, prim :: Repair(r, key, prim) in p && Diverged(h, r, key, prim) ==> Read(r, key) !in p
  }

  /** The two heaps hold the same value in every slot the plan reads. */
  ghost predicate SameReads(h: Heap, h': Heap, p: seq<Touch>) {
    forall r, key :: Read(r, key) in p && r in h && r in h' && key in h[r].slots && key in h'[r].slots ==>
      h[r].slots[key] == h'[r].slots[key]
  }

  /** Where the walk goes from a node depends on the heap only through the objects there are and the slots read. */
  lemma WalkedDepends(h: Heap, h': Heap, loaded: Value, declared: Json, depth: nat)
    requires Live(h, loaded) && SameObjects(h, h') && SameReads(h, h', Opening(h, loaded, declared, depth))
    ensures Walked(h, loaded, declared) == Walked(h', loaded, declared)
    ensures Opening(h, loaded, declared, depth) == Opening(h', loaded, declared, depth)
  {
    if loaded.Obj? {
      assert HasData(h, loaded.ref, MARKER) == HasData(h', loaded.ref, MARKER);
      if ReadsMarker(h, loaded, declared) {
        var opening := Opening(h, loaded, declared, depth);
        assert opening[|opening| - 1] == Read(loaded.ref, MARKER);
        assert Read(loaded.ref, MARKER) in opening;
      }
    }
  }

  lemma SameReadsPart(h: Heap, h': Heap, p: seq<Touch>, q: seq<Touch>)
    requires SameReads(h, h', q) && forall t :: t in p ==> t in q
    ensures SameReads(h, h', p)
  {}

  lemma {:induction false} PlanDepends(h: Heap, h': Heap, loaded: Value, declared: Json, depth: nat)
    requires Closed(h) && Closed(h') && Live(h, loaded) && SameObjects(h, h')
    requires SameReads(h, h', Plan(h, loaded, declared, depth))
    ensures Plan(h', loaded, declared, depth) == Plan(h, loaded, declared, depth)
    decreases Size(declared), 1
  {
    SameReadsPart(h, h', Opening(h, loaded, declared, depth), Plan(h, loaded, declared, depth));
    WalkedDepends(h, h', loaded, declared, depth);
    var entries := Walked(h, loaded, declared);
    if entries != [] {
      SameReadsPart(h, h', PlanEntries(h, loaded.ref, entries, depth), Plan(h, loaded, declared, depth));
      PlanEntriesDepends(h, h', loaded.ref, entries, depth);
    }
  }

  lemma {:induction false} PlanEntriesDepends(h: Heap, h': Heap, r: Ref, entries: seq<Entry>, depth: nat)
    requires Closed(h) && Closed(h') && r in h && SameObjects(h, h')
    requires SameReads(h, h', PlanEntries(h, r, entries, depth))
    ensures PlanEntries(h', r, entries, depth) == PlanEntries(h, r, entries, depth)
    decreases EntriesSize(entries), 0
  {
    if entries != [] {
      var first, rest := PlanSlot(h, r, entries[0].key, entries[0].value, depth),
                         PlanEntries(h, r, entries[1..], depth);
      SameReadsPart(h, h', first, first + rest);
      SameReadsPart(h, h', rest, first + rest);
      PlanSlotDepends(h, h', r, entries[0].key, entries[0].value, depth);
      PlanEntriesDepends(h, h', r, entries[1..], depth);
    }
  }

  lemma {:induction false} PlanSlotDepends(h: Heap, h': Heap, r: Ref, key: Key, value: Json, depth: nat)
    requires Closed(h) && Closed(h') && r in h && SameObjects(h, h')
    requires SameReads(h, h', PlanSlot(h, r, key, value, depth))
    ensures PlanSlot(h', r, key, value, depth) == PlanSlot(h, r, key, value, depth)
    decreases Size(value), 2
  {
    if value.Node? {
      assert Read(r, key) in PlanSlot(h, r, key, value, depth);
      if key in h[r].slots && h[r].slots[key].Data? {
        var slot := h[r].slots[key].value;
        if !(value.isArray && !IsArray(h, slot)) {
          SameReadsPart(h, h', Plan(h, slot, value, depth + 1), PlanSlot(h, r, key, value, depth));
          PlanDepends(h, h', slot, value, depth + 1);
        }
      }
    }
  }

  lemma SeparateParts(h: Heap, p: seq<Touch>, q: seq<Touch>)
    requires Separate(h, p + q)
    ensures Separate(h, p) && Separate(h, q)
    ensures forall r, key, prim :: Repair(r, key, prim) in p && Diverged(h, r, key, prim) ==> Read(r, key) !in q
  {
    assert forall t :: t in p || t in q ==> t in p + q;
  }

  lemma RepairsSpareReads(h: Heap, nodes: nat, p: seq<Touch>, q: seq<Touch>)
    requires forall r, key, prim :: Repair(r, key, prim) in p && Diverged(h, r, key, prim) ==> Read(r, key) !in q
    ensures SameReads(h, Execute(h, nodes, p).heap, q)
  {
    forall r, key | Read(r, key) in q && r in h && key in h[r].slots
      ensures Execute(h, nodes, p).heap[r].slots[key] == h[r].slots[key]
    {
      ExecuteFrame(h, nodes, p, r, key);
    }
  }

  /** What is separate stays so while its first part is carried out. */
  lemma SeparateAfter(h: Heap, nodes: nat, p: seq<Touch>, q: seq<Touch>)
    requires Separate(h, p + q)
    ensures Separate(Execute(h, nodes, p).heap, q)
  {
    var h' := Execute(h, nodes, p).heap;
    SeparateParts(h, p, q);
    RepairsSpareReads(h, nodes, p, q);
    forall r, key, prim | Repair(r, key, prim) in q && Read(r, key) in q
      ensures !Diverged(h', r, key, prim)
    {
      assert !Diverged(h, r, key, prim);
    }
  }

  /** The walk carries out, step for step and failure for failure, the plan read off the heap it was given. */
  lemma {:induction false} RestoreFollowsPlan(h: Heap, nodes: nat, loaded: Value, declared: Json, depth: nat)
    requires Closed(h) && Live(h, loaded) && Separate(h, Plan(h, loaded, declared, depth))
    ensures Restored(h, nodes, loaded, declared, depth) == Execute(h, nodes, Plan(h, loaded, declared, depth))
    decreases Size(declared), 1
  {
    var entries := Walked(h, loaded, declared);
    if entries == [] {
      StopFollowsPlan(h, nodes, loaded, declared, depth);
    } else {
      SeparateParts(h, Opening(h, loaded, declared, depth), PlanEntries(h, loaded.ref, entries, depth));
      EntriesFollowPlan(h, nodes + 1, loaded.ref, entries, depth);
      OpeningFollowsPlan(h, nodes, loaded, declared, depth);
    }
  }

  lemma StopFollowsPlan(h: Heap, nodes: nat, loaded: Value, declared: Json, depth: nat)
    requires Closed(h) && Live(h, loaded) && Walked(h, loaded, declared) == []
    ensures Restored(h, nodes, loaded, declared, depth) == Execute(h, nodes, Plan(h, loaded, declared, depth))
  {
    OpeningRuns(h, nodes, loaded, declared, depth, []);
    assert Opening(h, loaded, declared, depth) + [] == Opening(h, loaded, declared, depth);
  }

  lemma OpeningFollowsPlan(h: Heap, nodes: nat, loaded: Value, declared: Json, depth: nat)
    requires Closed(h) && Live(h, loaded) && Walked(h, loaded, declared) != []
    requires var entries := Walked(h, loaded, declared);
             EntriesRestored(h, nodes + 1, loaded.ref, entries, depth)
             == Execute(h, nodes + 1, PlanEntries(h, loaded.ref, entries, depth))
    ensures Restored(h, nodes, loaded, declared, depth) == Execute(h, nodes, Plan(h, loaded, declared, depth))
  {
    var tail := PlanEntries(h, loaded.ref, Walked(h, loaded, declared), depth);
    RestoredOpens(h, nodes, loaded, declared, depth);
    OpeningRuns(h, nodes, loaded, declared, depth, tail);
  }

  lemma RestoredOpens(h: Heap, nodes: nat, loaded: Value, declared: Json, depth: nat)
    requires Closed(h) && Live(h, loaded) && Walked(h, loaded, declared) != []
    ensures Restored(h, nodes, loaded, declared, depth)
            == if depth > DESERIALIZATION_MAX_DEPTH then Outcome(h, nodes, Some(TooDeep))
               else if nodes + 1 > DESERIALIZATION_MAX_NODES then Outcome(h, nodes + 1, Some(TooManyNodes))
               else EntriesRestored(h, nodes + 1, loaded.ref, Walked(h, loaded, declared), depth)
  {}

  /** Visits and reads change nothing. */
  lemma {:induction false} LookingRuns(h: Heap, nodes: nat, looks: seq<Touch>, tail: seq<Touch>)
    requires forall t :: t in looks ==> t.Visit? || t.Read?
    ensures Execute(h, nodes, looks + tail) == Execute(h, nodes, tail)
    decreases looks
  {
    if looks == [] {
      assert looks + tail == tail;
    } else {
      assert looks[0] in looks && looks + tail == [looks[0]] + (looks[1..] + tail);
      assert forall t :: t in looks[1..] ==> t in looks;
      ExecuteFirst(h, nodes, looks[0], looks[1..] + tail);
      LookingRuns(h, nodes, looks[1..], tail);
    }
  }

  /** The bounds are asked before anything else happens at a node. */
  lemma OpeningRuns(h: Heap, nodes: nat, loaded: Value, declared: Json, depth: nat, tail: seq<Touch>)
    requires Live(h, loaded)
    ensures Execute(h, nodes, Opening(h, loaded, declared, depth) + tail)
            == if depth > DESERIALIZATION_MAX_DEPTH then Outcome(h, nodes, Some(TooDeep))
               else if nodes + 1 > DESERIALIZATION_MAX_NODES then Outcome(h, nodes + 1, Some(TooManyNodes))
               else Execute(h, nodes + 1, tail)
  {
    LooksOnlyLook(h, loaded, declared);
    EnterAndLook(h, nodes, depth, Looks(h, loaded, declared), tail);
  }

  lemma LooksOnlyLook(h: Heap, loaded: Value, declared: Json)
    requires Live(h, loaded)
    ensures forall t :: t in Looks(h, loaded, declared) ==> t.Visit? || t.Read?
  {}

  lemma EnterAndLook(h: Heap, nodes: nat, depth: nat, looks: seq<Touch>, tail: seq<Touch>)
    requires forall t :: t in looks ==> t.Visit? || t.Read?
    ensures Execute(h, nodes, [Enter(depth)] + looks + tail)
            == if depth > DESERIALIZATION_MAX_DEPTH then Outcome(h, nodes, Some(TooDeep))
               else if nodes + 1 > DESERIALIZATION_MAX_NODES then Outcome(h, nodes + 1, Some(TooManyNodes))
               else Execute(h, nodes + 1, tail)
  {
    assert [Enter(depth)] + looks + tail == [Enter(depth)] + (looks + tail);
    ExecuteFirst(h, nodes, Enter(depth), looks + tail);
    LookingRuns(h, nodes + 1, looks, tail);
  }

  lemma {:induction false} EntriesFollowPlan(h: Heap, nodes: nat, r: Ref, entries: seq<Entry>, depth: nat)
    requires Closed(h) && r in h && Separate(h, PlanEntries(h, r, entries, depth))
    ensures EntriesRestored(h, nodes, r, entries, depth) == Execute(h, nodes, PlanEntries(h, r, entries, depth))
    decreases EntriesSize(entries), 0
  {
    if entries != [] {
      var first, rest := PlanSlot(h, r, entries[0].key, entries[0].value, depth),
                         PlanEntries(h, r, entries[1..], depth);
      SeparateParts(h, first, rest);
      SlotFollowsPlan(h, nodes, r, entries[0].key, entries[0].value, depth);
      ExecuteConcat(h, nodes, first, rest);
      var o := Execute(h, nodes, first);
      RepairsSpareReads(h, nodes, first, rest);
      SeparateAfter(h, nodes, first, rest);
      PlanEntriesDepends(h, o.heap, r, entries[1..], depth);
      EntriesFollowPlan(o.heap, o.nodes, r, entries[1..], depth);
    }
  }

  lemma {:induction false} SlotFollowsPlan(h: Heap, nodes: nat, r: Ref, key: Key, value: Json, depth: nat)
    requires Closed(h) && r in h && Separate(h, PlanSlot(h, r, key, value, depth))
    ensures SlotRestored(h, nodes, r, key, value, depth) == Execute(h, nodes, PlanSlot(h, r, key, value, depth))
    decreases Size(value), 3
  {
    if value.Leaf? {
      LeafFollowsPlan(h, nodes, r, key, value, depth);
    } else {
      var tail := PlanSlot(h, r, key, value, depth)[1..];
      assert PlanSlot(h, r, key, value, depth) == [Read(r, key)] + tail;
      SeparateParts(h, [Read(r, key)], tail);
      ExecuteFirst(h, nodes, Read(r, key), tail);
      ContainerFollowsPlan(h, nodes, r, key, value, depth, tail);
    }
  }

  lemma LeafFollowsPlan(h: Heap, nodes: nat, r: Ref, key: Key, value: Json, depth: nat)
    requires Closed(h) && r in h && value.Leaf?
    ensures SlotRestored(h, nodes, r, key, value, depth) == Execute(h, nodes, [Repair(r, key, value.prim)])
  {
    ExecuteFirst(h, nodes, Repair(r, key, value.prim), []);
    assert [Repair(r, key, value.prim)] + [] == [Repair(r, key, value.prim)];
  }

  lemma {:induction false} ContainerFollowsPlan(h: Heap, nodes: nat, r: Ref, key: Key, value: Json, depth: nat,
                                                tail: seq<Touch>)
    requires Closed(h) && r in h && value.Node? && Separate(h, tail)
    requires PlanSlot(h, r, key, value, depth) == [Read(r, key)] + tail
    ensures SlotRestored(h, nodes, r, key, value, depth) == Execute(h, nodes, tail)
    decreases Size(value), 2
  {
    assert tail == PlanSlot(h, r, key, value, depth)[1..];
    if key in h[r].slots && h[r].slots[key].Data? {
      var slot := h[r].slots[key].value;
      if value.isArray && !IsArray(h, slot) {
        RefusalStops(h, nodes, key);
      } else {
        RestoreFollowsPlan(h, nodes, slot, value, depth + 1);
      }
    } else if key != Name("__proto__") {
      RefusalStops(h, nodes, key);
    }
  }

  lemma RefusalStops(h: Heap, nodes: nat, key: Key)
    ensures Execute(h, nodes, [Refuse(key)]) == Outcome(h, nodes, Some(UnverifiableContainer(key)))
  {
    ExecuteFirst(h, nodes, Refuse(key), []);
    assert [Refuse(key)] + [] == [Refuse(key)];
  }

  // ---- What a plan does -------------------------------------------------------------------------------------------

  /** Two paths that meet in one data slot declare the same leaf for it. */
  ghost predicate Agreeing(h: Heap, p: seq<Touch>) {
    forall r, key, prim, prim' ::
      HasData(h, r, key) && Repair(r, key, prim) in p && Repair(r, key, prim') in p ==> prim == prim'
  }

  function Enters(p: seq<Touch>): nat {
    if p == [] then 0 else (if p[0].Enter? then 1 else 0) + Enters(p[1..])
  }

  /** Both budgets hold, no container is unverifiable and every slot to overwrite can be. */
  ghost predicate Allowed(h: Heap, nodes: nat, p: seq<Touch>) {
    && (forall depth: nat :: Enter(depth) in p ==> depth <= DESERIALIZATION_MAX_DEPTH)
    && (Enters(p) > 0 ==> nodes + Enters(p) <= DESERIALIZATION_MAX_NODES)
    && (forall key :: Refuse(key) !in p)
    && forall r, key, prim :: Repair(r, key, prim) in p && Diverged(h, r, key, prim) ==> h[r].slots[key].configurable
  }

  lemma EnterAllowed(h: Heap, nodes: nat, depth: nat, rest: seq<Touch>)
    ensures var p := [Enter(depth)] + rest;
            Allowed(h, nodes, p) <==>
              && depth <= DESERIALIZATION_MAX_DEPTH && nodes + 1 <= DESERIALIZATION_MAX_NODES
              && Allowed(h, nodes + 1, rest)
  {
    var p := [Enter(depth)] + rest;
    assert p[0] == Enter(depth) && p[1..] == rest && forall t :: t in p <==> t == p[0] || t in rest;
  }

  lemma QuietAllowed(h: Heap, nodes: nat, t: Touch, rest: seq<Touch>)
    requires t.Visit? || t.Read? || (t.Repair? && !Diverged(h, t.ref, t.key, t.prim))
    ensures Allowed(h, nodes, [t] + rest) <==> Allowed(h, nodes, rest)
  {
    var p := [t] + rest;
    assert p[0] == t && p[1..] == rest && forall u :: u in p <==> u == t || u in rest;
  }

  /** A plan is allowed when its first touch succeeds and the rest is allowed after it. */
  lemma AllowedStepwise(h: Heap, nodes: nat, t: Touch, rest: seq<Touch>)
    requires Agreeing(h, [t] + rest)
    ensures var o := Take(h, nodes, t);
            Allowed(h, nodes, [t] + rest) <==> o.failure.None? && Allowed(o.heap, o.nodes, rest)
  {
    assert ([t] + rest)[0] == t;
    match t
    case Enter(depth) => EnterAllowed(h, nodes, depth, rest);
    case Repair(r, key, prim) =>
      if !Diverged(h, r, key, prim) {
        QuietAllowed(h, nodes, t, rest);
      } else if h[r].slots[key].configurable {
        WriteSettles(h, nodes, rest, r, key, prim);
      }
    case Refuse(_) =>
    case _ => QuietAllowed(h, nodes, t, rest);
  }

  lemma AgreeingRest(h: Heap, nodes: nat, p: seq<Touch>)
    requires Agreeing(h, p) && p != []
    ensures p == [p[0]] + p[1..] && Agreeing(Take(h, nodes, p[0]).heap, p[1..])
  {
    assert forall t :: t in p[1..] ==> t in p;
    SameData(h, Take(h, nodes, p[0]).heap);
  }

  lemma SameData(h: Heap, h': Heap)
    requires SameObjects(h, h')
    ensures forall r, key :: HasData(h, r, key) <==> HasData(h', r, key)
  {}

  lemma EntersCounts(h: Heap, nodes: nat, t: Touch)
    ensures Take(h, nodes, t).failure.None? ==> Take(h, nodes, t).nodes == nodes + if t.Enter? then 1 else 0
  {}

  /** The walk throws exactly when the plan is not allowed. */
  lemma {:induction false} ExecuteFailsClosed(h: Heap, nodes: nat, p: seq<Touch>)
    requires Agreeing(h, p)
    ensures Execute(h, nodes, p).failure.None? <==> Allowed(h, nodes, p)
    ensures Execute(h, nodes, p).failure.None? ==> Execute(h, nodes, p).nodes == nodes + Enters(p)
    decreases p
  {
    if p != [] {
      AgreeingRest(h, nodes, p);
      AllowedStepwise(h, nodes, p[0], p[1..]);
      EntersCounts(h, nodes, p[0]);
      var first := Take(h, nodes, p[0]);
      if first.failure.None? { ExecuteFailsClosed(first.heap, first.nodes, p[1..]); }
    }
  }

  lemma WriteSettles(h: Heap, nodes: nat, rest: seq<Touch>, r: Ref, key: Key, prim: Prim)
    requires Agreeing(h, [Repair(r, key, prim)] + rest) && Diverged(h, r, key, prim) && h[r].slots[key].configurable
    ensures Allowed(Write(h, r, key, prim), nodes, rest) <==> Allowed(h, nodes, [Repair(r, key, prim)] + rest)
  {
    var p, h' := [Repair(r, key, prim)] + rest, Write(h, r, key, prim);
    assert p[0] in p && p[1..] == rest && forall t :: t in rest ==> t in p;
    forall r': Ref, key', prim' | Repair(r', key', prim') in rest
      ensures Diverged(h', r', key', prim') <==> Diverged(h, r', key', prim') && (r', key') != (r, key)
    {}
  }

  /** A repair elsewhere leaves a slot, and whether it diverges, alone. */
  lemma OtherTouch(h: Heap, nodes: nat, t: Touch, r: Ref, key: Key, prim: Prim)
    requires r in h && key in h[r].slots && !(t.Repair? && (t.ref, t.key) == (r, key))
    ensures var h' := Take(h, nodes, t).heap;
            && r in h' && key in h'[r].slots && h'[r].slots[key] == h[r].slots[key]
            && (Diverged(h', r, key, prim) <==> Diverged(h, r, key, prim))
  {
    TakeFrame(h, nodes, t, r, key);
  }

  /** A repair that succeeds leaves its leaf in the slot. */
  lemma OwnRepair(h: Heap, nodes: nat, r: Ref, key: Key, prim: Prim)
    requires r in h && key in h[r].slots && h[r].slots[key].Data?
    requires Take(h, nodes, Repair(r, key, prim)).failure.None?
    ensures var h' := Take(h, nodes, Repair(r, key, prim)).heap;
            && r in h' && key in h'[r].slots && !Diverged(h', r, key, prim)
            && h'[r].slots[key] == if Diverged(h, r, key, prim) then Data(Plain(prim), true) else h[r].slots[key]
  {}

  lemma OnlyThisRepair(h: Heap, p: seq<Touch>, r: Ref, key: Key, prim: Prim)
    requires Agreeing(h, p) && HasData(h, r, key) && Repair(r, key, prim) in p
    ensures p[0].Repair? && (p[0].ref, p[0].key) == (r, key) ==> p[0] == Repair(r, key, prim)
    ensures forall prim' :: Repair(r, key, prim') in p[1..] ==> prim' == prim
    ensures p[0] != Repair(r, key, prim) ==> Repair(r, key, prim) in p[1..]
  {
    assert p[0] in p && forall t :: t in p ==> t == p[0] || t in p[1..];
    assert forall t :: t in p[1..] ==> t in p;
  }

  /** When the walk returns, a data slot it repairs holds its declared leaf. */
  lemma {:induction false} RepairLands(h: Heap, nodes: nat, p: seq<Touch>, r: Ref, key: Key, prim: Prim)
    requires Agreeing(h, p) && Execute(h, nodes, p).failure.None?
    requires Repair(r, key, prim) in p && r in h && key in h[r].slots && h[r].slots[key].Data?
    ensures Execute(h, nodes, p).heap[r].slots[key]
            == if Diverged(h, r, key, prim) then Data(Plain(prim), true) else h[r].slots[key]
    decreases p
  {
    var rest, first := p[1..], Take(h, nodes, p[0]);
    AgreeingRest(h, nodes, p);
    OnlyThisRepair(h, p, r, key, prim);
    if p[0] == Repair(r, key, prim) {
      OwnRepair(h, nodes, r, key, prim);
      NoRepairNeeded(first.heap, first.nodes, rest, r, key, prim);
    } else {
      OtherTouch(h, nodes, p[0], r, key, prim);
      RepairLands(first.heap, first.nodes, rest, r, key, prim);
    }
  }

  lemma KeptTouch(h: Heap, nodes: nat, t: Touch, r: Ref, key: Key, prim: Prim)
    requires !Diverged(h, r, key, prim) && r in h && key in h[r].slots
    requires t.Repair? && (t.ref, t.key) == (r, key) ==> t.prim == prim
    ensures var h' := Take(h, nodes, t).heap;
            r in h' && key in h'[r].slots && h'[r].slots[key] == h[r].slots[key] && !Diverged(h', r, key, prim)
  {
    if !(t.Repair? && (t.ref, t.key) == (r, key)) { OtherTouch(h, nodes, t, r, key, prim); }
  }

  lemma {:induction false} NoRepairNeeded(h: Heap, nodes: nat, p: seq<Touch>, r: Ref, key: Key, prim: Prim)
    requires forall prim' :: Repair(r, key, prim') in p ==> prim' == prim
    requires !Diverged(h, r, key, prim) && r in h && key in h[r].slots
    ensures Execute(h, nodes, p).heap[r].slots[key] == h[r].slots[key]
    decreases p
  {
    if p != [] {
      assert p[0] in p && forall t :: t in p[1..] ==> t in p;
      KeptTouch(h, nodes, p[0], r, key, prim);
      var first := Take(h, nodes, p[0]);
      if first.failure.None? { NoRepairNeeded(first.heap, first.nodes, p[1..], r, key, prim); }
    }
  }

  /** A heap that already holds every declared leaf is left alone, whether the walk finishes or throws. */
  lemma {:induction false} HonestIsUntouched(h: Heap, nodes: nat, p: seq<Touch>)
    requires forall r, key, prim :: Repair(r, key, prim) in p ==> !Diverged(h, r, key, prim)
    ensures Execute(h, nodes, p).heap == h
    decreases p
  {
    if p != [] {
      assert p[0] in p && forall t :: t in p[1..] ==> t in p;
      var first := Take(h, nodes, p[0]);
      assert first.heap == h;
      if first.failure.None? { HonestIsUntouched(h, first.nodes, p[1..]); }
    }
  }

  // ---- Loads without aliasing -------------------------------------------------------------------------------------

  /** No object is visited twice, whatever the walk does when it gets there. */
  ghost predicate VisitsOnce(p: seq<Touch>) {
    forall i, j :: 0 <= i < j < |p| && p[i].Visit? && p[j].Visit? ==> p[i].ref != p[j].ref
  }

  /** No slot is both read and repaired. */
  ghost predicate Apart(p: seq<Touch>) {
    forall r, key, prim :: Repair(r, key, prim) in p ==> Read(r, key) !in p
  }

  predicate DistinctEntryKeys(entries: seq<Entry>) {
    forall i, j :: 0 <= i < j < |entries| ==> entries[i].key != entries[j].key
  }

  /** One entry per key at every level, as JSON.parse returns. */
  ghost predicate Keyed(j: Json)
    decreases j
  {
    j.Node? ==> DistinctEntryKeys(j.entries) && forall i :: 0 <= i < |j.entries| ==> Keyed(j.entries[i].value)
  }

  ghost predicate EntriesKeyed(entries: seq<Entry>) {
    DistinctEntryKeys(entries) && forall i :: 0 <= i < |entries| ==> Keyed(entries[i].value)
  }

  /** Every slot a plan touches belongs to an object it visits, or is a slot of r with one of the keys. */
  ghost predicate TouchesWithin(p: seq<Touch>, r: Ref, keys: set<Key>) {
    forall t :: t in p && (t.Read? || t.Repair?) ==> Visit(t.ref) in p || (t.ref == r && t.key in keys)
  }

  ghost function KeysOf(entries: seq<Entry>): set<Key> {
    set i | 0 <= i < |entries| :: entries[i].key
  }

  lemma VisitsOnceParts(p: seq<Touch>, q: seq<Touch>)
    requires VisitsOnce(p + q)
    ensures VisitsOnce(p) && VisitsOnce(q)
    ensures forall r :: Visit(r) in p ==> Visit(r) !in q
  {
    var both := p + q;
    assert forall i :: 0 <= i < |p| ==> both[i] == p[i];
    assert forall i :: 0 <= i < |q| ==> both[|p| + i] == q[i];
    forall i, j | 0 <= i < |p| && 0 <= j < |q| && p[i].Visit? && q[j].Visit?
      ensures p[i] != q[j]
    {
      assert both[i] == p[i] && both[|p| + j] == q[j];
    }
  }

  /** A load in which no object is visited twice: its repairs disturb neither each other nor what the walk reads. */
  lemma {:induction false} TreeLoadIsSeparate(h: Heap, loaded: Value, declared: Json, depth: nat)
    requires Closed(h) && Live(h, loaded) && Keyed(declared) && VisitsOnce(Plan(h, loaded, declared, depth))
    ensures Apart(Plan(h, loaded, declared, depth)) && Agreeing(h, Plan(h, loaded, declared, depth))
    ensures Separate(h, Plan(h, loaded, declared, depth))
    ensures TouchesWithin(Plan(h, loaded, declared, depth), 0, {})
    decreases Size(declared), 1
  {
    var entries, opening := Walked(h, loaded, declared), Opening(h, loaded, declared, depth);
    if entries == [] {
      assert opening + [] == opening;
      LooksOnlyLook(h, loaded, declared);
      StoppedIsApart(h, loaded, declared, depth);
    } else {
      var tail := PlanEntries(h, loaded.ref, entries, depth);
      WalkedIsKeyed(h, loaded, declared);
      VisitsOnceParts(opening, tail);
      assert opening[1] == Visit(loaded.ref);
      EntriesAreApart(h, loaded.ref, entries, depth);
      MarkerIsNotWalked(h, loaded, declared);
      OpeningIsApart(h, loaded, declared, depth, tail, KeysOf(entries));
    }
  }

  lemma WalkedIsKeyed(h: Heap, loaded: Value, declared: Json)
    requires Live(h, loaded) && Keyed(declared)
    ensures EntriesKeyed(Walked(h, loaded, declared))
  {}

  lemma StoppedIsApart(h: Heap, loaded: Value, declared: Json, depth: nat)
    requires Live(h, loaded)
    ensures var p := Opening(h, loaded, declared, depth); Apart(p) && Agreeing(h, p) && TouchesWithin(p, 0, {})
  {
    var p := Opening(h, loaded, declared, depth);
    LooksOnlyLook(h, loaded, declared);
    if loaded.Obj? { assert p[1] == Visit(loaded.ref) && p[1] in p; }
    assert forall t :: t in p && t.Read? ==> t.ref == loaded.ref;
  }

  /** At a node whose branch hangs on the marker, the walk goes to the value or nowhere. */
  lemma MarkerIsNotWalked(h: Heap, loaded: Value, declared: Json)
    requires Live(h, loaded)
    ensures IsDeltaSnapshotRecord(declared) ==> forall e :: e in Walked(h, loaded, declared) ==> e.key == Name("value")
  {}

  lemma OpeningIsApart(h: Heap, loaded: Value, declared: Json, depth: nat, tail: seq<Touch>, keys: set<Key>)
    requires Live(h, loaded) && loaded.Obj? && Apart(tail) && Agreeing(h, tail)
    requires TouchesWithin(tail, loaded.ref, keys) && Visit(loaded.ref) !in tail
    requires IsDeltaSnapshotRecord(declared) ==> MARKER !in keys
    ensures var p := Opening(h, loaded, declared, depth) + tail;
            Apart(p) && Agreeing(h, p) && TouchesWithin(p, 0, {})
  {
    var opening := Opening(h, loaded, declared, depth);
    var p := opening + tail;
    assert opening[1] == Visit(loaded.ref) && opening[1] in p;
    assert forall t :: t in p <==> t in opening || t in tail;
    assert forall t :: t in opening ==> !t.Repair?;
    assert forall t :: t in opening && t.Read? ==> t == Read(loaded.ref, MARKER) && IsDeltaSnapshotRecord(declared);
  }

  lemma {:induction false} EntriesAreApart(h: Heap, r: Ref, entries: seq<Entry>, depth: nat)
    requires Closed(h) && r in h && EntriesKeyed(entries)
    requires VisitsOnce(PlanEntries(h, r, entries, depth)) && Visit(r) !in PlanEntries(h, r, entries, depth)
    ensures Apart(PlanEntries(h, r, entries, depth)) && Agreeing(h, PlanEntries(h, r, entries, depth))
    ensures TouchesWithin(PlanEntries(h, r, entries, depth), r, KeysOf(entries))
    decreases EntriesSize(entries), 0
  {
    if entries != [] {
      var key, first := entries[0].key, PlanSlot(h, r, entries[0].key, entries[0].value, depth);
      var rest := PlanEntries(h, r, entries[1..], depth);
      VisitsOnceParts(first, rest);
      SlotIsApart(h, r, key, entries[0].value, depth);
      EntriesAreApart(h, r, entries[1..], depth);
      assert key !in KeysOf(entries[1..]);
      assert KeysOf(entries) == {key} + KeysOf(entries[1..]) by {
        assert entries == [entries[0]] + entries[1..];
        assert forall i :: 0 <= i < |entries[1..]| ==> entries[1..][i] == entries[i + 1];
        assert forall i :: 0 < i < |entries| ==> entries[i] == entries[1..][i - 1];
      }
      SlotsStayApart(h, first, rest, r, {key}, KeysOf(entries[1..]));
    }
  }

  lemma SlotsStayApart(h: Heap, p: seq<Touch>, q: seq<Touch>, r: Ref, ks: set<Key>, ls: set<Key>)
    requires Apart(p) && Apart(q) && Agreeing(h, p) && Agreeing(h, q) && ks !! ls
    requires TouchesWithin(p, r, ks) && TouchesWithin(q, r, ls)
    requires Visit(r) !in p && Visit(r) !in q && forall r' :: Visit(r') in p ==> Visit(r') !in q
    ensures Apart(p + q) && Agreeing(h, p + q) && TouchesWithin(p + q, r, ks + ls)
  {
    forall t, u | t in p && u in q && (t.Read? || t.Repair?) && (u.Read? || u.Repair?)
      ensures (t.ref, t.key) != (u.ref, u.key)
    {}
  }

  lemma {:induction false} SlotIsApart(h: Heap, r: Ref, key: Key, value: Json, depth: nat)
    requires Closed(h) && r in h && Keyed(value)
    requires VisitsOnce(PlanSlot(h, r, key, value, depth)) && Visit(r) !in PlanSlot(h, r, key, value, depth)
    ensures Apart(PlanSlot(h, r, key, value, depth)) && Agreeing(h, PlanSlot(h, r, key, value, depth))
    ensures TouchesWithin(PlanSlot(h, r, key, value, depth), r, {key})
    decreases Size(value), 2
  {
    if value.Node? && key in h[r].slots && h[r].slots[key].Data? {
      var slot := h[r].slots[key].value;
      if !(value.isArray && !IsArray(h, slot)) {
        var inner := Plan(h, slot, value, depth + 1);
        VisitsOnceParts([Read(r, key)], inner);
        TreeLoadIsSeparate(h, slot, value, depth + 1);
      }
    }
  }

  // ---- The repair -------------------------------------------------------------------------------------------------

  /** What a slot holds after a walk that returned. */
  ghost predicate Repaired(h: Heap, h': Heap, p: seq<Touch>) {
    && SameObjects(h, h')
    && forall r, key :: r in h && key in h[r].slots ==>
         && ((forall prim :: Repair(r, key, prim) !in p) ==> h'[r].slots[key] == h[r].slots[key])
         && (forall prim :: Repair(r, key, prim) in p && h[r].slots[key].Data? ==>
               h'[r].slots[key] == if Diverged(h, r, key, prim) then Data(Plain(prim), true) else h[r].slots[key])
  }

  /**
    A load whose declared paths stay out of each other's way, shared objects included: no slot a repair will change is
    read to find the way, and no data slot is declared two leaves. The walk throws exactly when a bound is passed, a
    container is unverifiable or a diverged slot is frozen; when it returns, every declared leaf slot that was an own
    data slot holds its leaf and nothing else has changed; and a second walk over the repaired load changes nothing.
   */
  lemma RestoreDeclaredMeaning(h: Heap, nodes: nat, loaded: Value, declared: Json, depth: nat)
    requires Closed(h) && Live(h, loaded)
    requires Separate(h, Plan(h, loaded, declared, depth)) && Agreeing(h, Plan(h, loaded, declared, depth))
    ensures var p, o := Plan(h, loaded, declared, depth), Restored(h, nodes, loaded, declared, depth);
            && (o.failure.None? <==> Allowed(h, nodes, p))
            && (o.failure.None? ==> o.nodes == nodes + Enters(p) && Repaired(h, o.heap, p))
            && (o.failure.None? ==> Restored(o.heap, nodes, loaded, declared, depth) == o)
            && ((forall r, key, prim :: Repair(r, key, prim) in p ==> !Diverged(h, r, key, prim)) ==> o.heap == h)
  {
    var p, o := Plan(h, loaded, declared, depth), Restored(h, nodes, loaded, declared, depth);
    RestoreFollowsPlan(h, nodes, loaded, declared, depth);
    ExecuteFailsClosed(h, nodes, p);
    if o.failure.None? {
      ExecuteRepairs(h, nodes, p);
      SecondPassIsIdle(h, nodes, loaded, declared, depth);
    }
    if forall r, key, prim :: Repair(r, key, prim) in p ==> !Diverged(h, r, key, prim) {
      HonestIsUntouched(h, nodes, p);
    }
  }

  /** What a plan carried out to its end leaves in every slot. */
  lemma ExecuteRepairs(h: Heap, nodes: nat, p: seq<Touch>)
    requires Agreeing(h, p) && Execute(h, nodes, p).failure.None?
    ensures Repaired(h, Execute(h, nodes, p).heap, p)
  {
    var h' := Execute(h, nodes, p).heap;
    forall r: Ref, key, prim | Repair(r, key, prim) in p && r in h && key in h[r].slots && h[r].slots[key].Data?
      ensures h'[r].slots[key] == if Diverged(h, r, key, prim) then Data(Plain(prim), true) else h[r].slots[key]
    {
      RepairLands(h, nodes, p, r, key, prim);
    }
    forall r, key | r in h && key in h[r].slots && forall prim :: Repair(r, key, prim) !in p
      ensures h'[r].slots[key] == h[r].slots[key]
    {
      ExecuteFrame(h, nodes, p, r, key);
    }
  }

  /** After a walk that returned, nothing the plan repairs diverges any more. */
  lemma NothingDiverges(h: Heap, h': Heap, p: seq<Touch>, r: Ref, key: Key, prim: Prim)
    requires Repaired(h, h', p) && Repair(r, key, prim) in p
    ensures !Diverged(h', r, key, prim)
  {}

  /** The second walk reads the same plan and has nothing to repair. */
  lemma SecondPassIsIdle(h: Heap, nodes: nat, loaded: Value, declared: Json, depth: nat)
    requires Closed(h) && Live(h, loaded)
    requires Separate(h, Plan(h, loaded, declared, depth)) && Agreeing(h, Plan(h, loaded, declared, depth))
    requires Restored(h, nodes, loaded, declared, depth).failure.None?
    ensures var o := Restored(h, nodes, loaded, declared, depth);
            Restored(o.heap, nodes, loaded, declared, depth) == o
  {
    var p, o := Plan(h, loaded, declared, depth), Restored(h, nodes, loaded, declared, depth);
    RestoreFollowsPlan(h, nodes, loaded, declared, depth);
    RepairsSpareReads(h, nodes, p, p);
    PlanDepends(h, o.heap, loaded, declared, depth);
    RepairedIsHonest(h, nodes, p);
    RestoreFollowsPlan(o.heap, nodes, loaded, declared, depth);
    IdleAfterRepair(h, nodes, p);
  }

  lemma IdleAfterRepair(h: Heap, nodes: nat, p: seq<Touch>)
    requires Agreeing(h, p) && Execute(h, nodes, p).failure.None?
    ensures Execute(Execute(h, nodes, p).heap, nodes, p) == Execute(h, nodes, p)
  {
    var h' := Execute(h, nodes, p).heap;
    ExecuteFailsClosed(h, nodes, p);
    RepairedIsHonest(h, nodes, p);
    SameData(h, h');
    HonestPlanRuns(h, h', nodes, p);
  }

  lemma RepairedIsHonest(h: Heap, nodes: nat, p: seq<Touch>)
    requires Agreeing(h, p) && Execute(h, nodes, p).failure.None?
    ensures forall r, key, prim :: Repair(r, key, prim) in p ==> !Diverged(Execute(h, nodes, p).heap, r, key, prim)
  {
    ExecuteRepairs(h, nodes, p);
    forall r: Ref, key, prim | Repair(r, key, prim) in p
      ensures !Diverged(Execute(h, nodes, p).heap, r, key, prim)
    {
      NothingDiverges(h, Execute(h, nodes, p).heap, p, r, key, prim);
    }
  }

  /** A plan allowed on one heap runs to its end on a heap where nothing diverges, and leaves it alone. */
  lemma HonestPlanRuns(h: Heap, h': Heap, nodes: nat, p: seq<Touch>)
    requires Agreeing(h', p) && Allowed(h, nodes, p)
    requires forall r, key, prim :: Repair(r, key, prim) in p ==> !Diverged(h', r, key, prim)
    ensures Execute(h', nodes, p) == Outcome(h', nodes + Enters(p), None)
  {
    HonestIsUntouched(h', nodes, p);
    ExecuteFailsClosed(h', nodes, p);
  }

  /** An honest load is left alone by every walk, one that throws included, however its paths meet. */
  lemma HonestLoadsAreUntouched(h: Heap, nodes: nat, loaded: Value, declared: Json, depth: nat)
    requires Closed(h) && Live(h, loaded)
    requires forall r, key, prim ::
               Repair(r, key, prim) in Plan(h, loaded, declared, depth) ==> !Diverged(h, r, key, prim)
    ensures Restored(h, nodes, loaded, declared, depth).heap == h
  {
    RestoreFollowsPlan(h, nodes, loaded, declared, depth);
    HonestIsUntouched(h, nodes, Plan(h, loaded, declared, depth));
  }

  /** In particular a load that visits no object twice. */
  lemma UnaliasedLoadsAreRestored(h: Heap, nodes: nat, loaded: Value, declared: Json, depth: nat)
    requires Closed(h) && Live(h, loaded) && Keyed(declared) && VisitsOnce(Plan(h, loaded, declared, depth))
    ensures var p, o := Plan(h, loaded, declared, depth), Restored(h, nodes, loaded, declared, depth);
            && (o.failure.None? <==> Allowed(h, nodes, p))
            && (o.failure.None? ==> Repaired(h, o.heap, p) && Restored(o.heap, nodes, loaded, declared, depth) == o)
  {
    TreeLoadIsSeparate(h, loaded, declared, depth);
    RestoreDeclaredMeaning(h, nodes, loaded, declared, depth);
  }

  // ---- Why a marker that is read must not be repaired ---------------------------------------------------------------

  /** An object under two keys that carries a value and, in its own data slot lg_name, this text. */
  function Shared(text: string, value: real): Heap {
    map[0 := Object(None, false, false, map[Name("a") := Data(Obj(1), true), Name("b") := Data(Obj(1), true)]),
        1 := Object(None, false, false, map[MARKER := Data(Plain(Text(text)), true),
                                            Name("value") := Data(Plain(Number(Finite(value))), true)])]
  }

  const MARKS := Node(false, [Entry(MARKER, Leaf(Text("DeltaSnapshot")))])

  const SNAPSHOT := Node(false, [Entry(Name("lc"), Leaf(Number(Finite(2.0)))),
                                 Entry(Name("type"), Leaf(Text("delta_snapshot"))),
                                 Entry(Name("value"), Leaf(Number(Finite(1.0))))])

  lemma SnapshotIsRecord()
    ensures IsDeltaSnapshotRecord(SNAPSHOT) && Find(SNAPSHOT.entries, Name("value")) == 2
    ensures IsRevivedRecord(SNAPSHOT) && !IsRevivedRecord(MARKS) && !IsDeltaSnapshotRecord(MARKS)
  {
    var entries := SNAPSHOT.entries;
    assert |"lc"| == 2 && |"type"| == 4 && |"value"| == 5 && |"lg_name"| == 7;
    assert entries[1..] == [entries[1], entries[2]] && entries[1..][1..] == [entries[2]];
    assert Find([entries[2]], Name("value")) == 0;
    assert Find([entries[1], entries[2]], Name("value")) == 1 && Find([entries[1], entries[2]], Name("type")) == 0;
    assert MARKS.entries[1..] == [];
  }

  lemma SharedIsClosed(text: string, value: real)
    ensures Closed(Shared(text, value))
  {}

  lemma WritesToShared(text: string, value: real)
    ensures Write(Shared(text, value), 1, MARKER, Text("DeltaSnapshot")) == Shared("DeltaSnapshot", value)
    ensures Write(Shared(text, value), 1, Name("value"), Number(Finite(1.0))) == Shared(text, 1.0)
  {
    assert |"value"| == 5 && |"lg_name"| == 7;
    var h := Shared(text, value);
    assert h[1].slots[MARKER := Data(Plain(Text("DeltaSnapshot")), true)] == Shared("DeltaSnapshot", value)[1].slots;
    assert h[1].slots[Name("value") := Data(Plain(Number(Finite(1.0))), true)] == Shared(text, 1.0)[1].slots;
  }

  /** One slot, then no more. */
  lemma OneEntry(h: Heap, nodes: nat, r: Ref, entry: Entry, depth: nat)
    requires Closed(h) && r in h
    ensures EntriesRestored(h, nodes, r, [entry], depth) == SlotRestored(h, nodes, r, entry.key, entry.value, depth)
  {
    assert [entry][1..] == [];
  }

  lemma TwoEntries(h: Heap, nodes: nat, r: Ref, first: Entry, second: Entry, depth: nat)
    requires Closed(h) && r in h
    ensures var o := SlotRestored(h, nodes, r, first.key, first.value, depth);
            EntriesRestored(h, nodes, r, [first, second], depth)
            == if o.failure.Some? then o else SlotRestored(o.heap, o.nodes, r, second.key, second.value, depth)
  {
    var o := SlotRestored(h, nodes, r, first.key, first.value, depth);
    assert [first, second][1..] == [second];
    if o.failure.None? { OneEntry(o.heap, o.nodes, r, second, depth); }
  }

  /** Walked against the record that names the marker, the object's marker is repaired. */
  lemma MarkingRepairs(text: string, value: real, nodes: nat, depth: nat)
    requires Closed(Shared(text, value)) && depth <= DESERIALIZATION_MAX_DEPTH && nodes < DESERIALIZATION_MAX_NODES
    ensures Restored(Shared(text, value), nodes, Obj(1), MARKS, depth)
            == Outcome(Shared("DeltaSnapshot", value), nodes + 1, None)
  {
    var h, entry := Shared(text, value), MARKS.entries[0];
    SnapshotIsRecord();
    WritesToShared(text, value);
    RestoredOpens(h, nodes, Obj(1), MARKS, depth);
    OneEntry(h, nodes + 1, 1, entry, depth);
  }

  /** Walked against the snapshot record, its value is repaired when it is marked, and nothing is when it is not. */
  lemma SnapshotRepairs(text: string, value: real, nodes: nat, depth: nat)
    requires Closed(Shared(text, value)) && depth <= DESERIALIZATION_MAX_DEPTH && nodes < DESERIALIZATION_MAX_NODES
    ensures Restored(Shared(text, value), nodes, Obj(1), SNAPSHOT, depth)
            == Outcome(Shared(text, if text == "DeltaSnapshot" then 1.0 else value), nodes + 1, None)
  {
    SnapshotIsWalked(text, value);
    if text == "DeltaSnapshot" {
      SnapshotValueRepairs(text, value, nodes + 1, depth);
      RestoredOpens(Shared(text, value), nodes, Obj(1), SNAPSHOT, depth);
    }
  }

  lemma SnapshotIsWalked(text: string, value: real)
    ensures Walked(Shared(text, value), Obj(1), SNAPSHOT)
            == if text == "DeltaSnapshot" then [SNAPSHOT.entries[2]] else []
  {
    SnapshotIsRecord();
  }

  lemma SnapshotValueRepairs(text: string, value: real, nodes: nat, depth: nat)
    requires Closed(Shared(text, value))
    ensures EntriesRestored(Shared(text, value), nodes, 1, [SNAPSHOT.entries[2]], depth)
            == Outcome(Shared(text, 1.0), nodes, None)
  {
    WritesToShared(text, value);
    OneEntry(Shared(text, value), nodes, 1, SNAPSHOT.entries[2], depth);
  }

  function Both(first: (string, Json), second: (string, Json)): Json {
    Node(false, [Entry(Name(first.0), first.1), Entry(Name(second.0), second.1)])
  }

  lemma BothIsPlain(h: Heap, first: (string, Json), second: (string, Json))
    requires 0 in h && {first.0, second.0} <= {"a", "b"}
    ensures Walked(h, Obj(0), Both(first, second)) == Both(first, second).entries
  {
    var entries := Both(first, second).entries;
    assert |"a"| == 1 && |"b"| == 1 && |"lc"| == 2;
    assert entries[1..] == [entries[1]] && [entries[1]][1..] == [];
    assert Find([entries[1]], Name("lc")) < 0 && Find(entries, Name("lc")) < 0;
  }

  lemma SharedSlot(text: string, value: real, nodes: nat, key: string, declared: Json)
    requires Closed(Shared(text, value)) && key in {"a", "b"} && declared.Node? && !declared.isArray
    ensures SlotRestored(Shared(text, value), nodes, 0, Name(key), declared, 0)
            == Restored(Shared(text, value), nodes, Obj(1), declared, 1)
  {}

  /** A walk over the two keys is the two walks, one after the other. */
  lemma BothAreWalked(text: string, value: real, text': string, value': real, nodes: nat,
                      first: (string, Json), second: (string, Json))
    requires Closed(Shared(text, value)) && Closed(Shared(text', value')) && {first.0, second.0} <= {"a", "b"}
    requires first.1.Node? && second.1.Node? && !first.1.isArray && !second.1.isArray
    requires Restored(Shared(text, value), 1, Obj(1), first.1, 1) == Outcome(Shared(text', value'), nodes, None)
    ensures Restored(Shared(text, value), 0, Obj(0), Both(first, second), 0)
            == Restored(Shared(text', value'), nodes, Obj(1), second.1, 1)
  {
    var key, key' := first.0, second.0;
    assert key in {"a", "b"} && key' in {"a", "b"};
    SharedSlot(text, value, 1, key, first.1);
    SharedSlot(text', value', nodes, key', second.1);
    SharedOpens(text, value, text', value', nodes, first, second);
  }

  lemma SharedOpens(text: string, value: real, text': string, value': real, nodes: nat,
                    first: (string, Json), second: (string, Json))
    requires Closed(Shared(text, value)) && Closed(Shared(text', value')) && {first.0, second.0} <= {"a", "b"}
    requires SlotRestored(Shared(text, value), 1, 0, Name(first.0), first.1, 0)
             == Outcome(Shared(text', value'), nodes, None)
    ensures Restored(Shared(text, value), 0, Obj(0), Both(first, second), 0)
            == SlotRestored(Shared(text', value'), nodes, 0, Name(second.0), second.1, 0)
  {
    BothOpen(Shared(text, value), first, second);
  }

  lemma BothOpen(h: Heap, first: (string, Json), second: (string, Json))
    requires Closed(h) && 0 in h && {first.0, second.0} <= {"a", "b"}
    ensures var o := SlotRestored(h, 1, 0, Name(first.0), first.1, 0);
            Restored(h, 0, Obj(0), Both(first, second), 0)
            == if o.failure.Some? then o else SlotRestored(o.heap, o.nodes, 0, Name(second.0), second.1, 0)
  {
    var declared := Both(first, second);
    BothIsPlain(h, first, second);
    RestoredOpens(h, 0, Obj(0), declared, 0);
    TwoEntries(h, 1, 0, declared.entries[0], declared.entries[1], 0);
  }

  /**
    The marker is repaired under one key and read under the other. The walk then repairs a value the loaded heap gave no
    reason to touch, and in the other order a second walk does: so the theorem above must leave such a load out, and
    does, since it is not separate and visits an object twice.
   */
  lemma MarkerRepairsRedirect()
    ensures var h, declared := Shared("X", 5.0), Both(("a", MARKS), ("b", SNAPSHOT));
            && Closed(h) && Keyed(declared)
            && Restored(h, 0, Obj(0), declared, 0) == Outcome(Shared("DeltaSnapshot", 1.0), 3, None)
            && Restored(h, 0, Obj(0), Both(("b", SNAPSHOT), ("a", MARKS)), 0)
               == Outcome(Shared("DeltaSnapshot", 5.0), 3, None)
            && Closed(Shared("DeltaSnapshot", 5.0))
            && Restored(Shared("DeltaSnapshot", 5.0), 0, Obj(0), Both(("b", SNAPSHOT), ("a", MARKS)), 0)
               == Outcome(Shared("DeltaSnapshot", 1.0), 3, None)
  {
    SharedIsClosed("X", 5.0);
    SharedIsClosed("DeltaSnapshot", 5.0);
    BothAreKeyed();
    MarksThenSnapshot("X", 5.0);
    assert |"X"| == 1 && |"DeltaSnapshot"| == 13;
    SnapshotThenMarks("X", 5.0);
    SnapshotThenMarks("DeltaSnapshot", 5.0);
  }

  lemma MarksThenSnapshot(text: string, value: real)
    requires Closed(Shared(text, value))
    ensures Restored(Shared(text, value), 0, Obj(0), Both(("a", MARKS), ("b", SNAPSHOT)), 0)
            == Outcome(Shared("DeltaSnapshot", 1.0), 3, None)
  {
    SharedIsClosed("DeltaSnapshot", value);
    MarkingRepairs(text, value, 1, 1);
    BothAreWalked(text, value, "DeltaSnapshot", value, 2, ("a", MARKS), ("b", SNAPSHOT));
    SnapshotRepairs("DeltaSnapshot", value, 2, 1);
  }

  lemma SnapshotThenMarks(text: string, value: real)
    requires Closed(Shared(text, value))
    ensures Restored(Shared(text, value), 0, Obj(0), Both(("b", SNAPSHOT), ("a", MARKS)), 0)
            == Outcome(Shared("DeltaSnapshot", if text == "DeltaSnapshot" then 1.0 else value), 3, None)
  {
    var value' := if text == "DeltaSnapshot" then 1.0 else value;
    SharedIsClosed(text, value');
    SnapshotRepairs(text, value, 1, 1);
    BothAreWalked(text, value, text, value', 2, ("b", SNAPSHOT), ("a", MARKS));
    MarkingRepairs(text, value', 2, 1);
  }

  lemma BothAreKeyed()
    ensures Keyed(Both(("a", MARKS), ("b", SNAPSHOT)))
  {
    assert |"lc"| == 2 && |"type"| == 4 && |"value"| == 5;
    assert Keyed(MARKS) && Keyed(SNAPSHOT);
  }

  /** That load is neither separate nor one that visits no object twice. */
  lemma MarkerRepairIsNotSeparate()
    ensures var h, declared := Shared("X", 5.0), Both(("a", MARKS), ("b", SNAPSHOT));
            && Closed(h) && !Separate(h, Plan(h, Obj(0), declared, 0)) && !VisitsOnce(Plan(h, Obj(0), declared, 0))
  {
    var h, declared := Shared("X", 5.0), Both(("a", MARKS), ("b", SNAPSHOT));
    SharedIsClosed("X", 5.0);
    BothAreKeyed();
    MarkIsPlanned(h);
    ReadIsPlanned(h);
    BothArePlanned(h, Repair(1, MARKER, Text("DeltaSnapshot")), Read(1, MARKER));
    assert Diverged(h, 1, MARKER, Text("DeltaSnapshot")) by { assert |"X"| == 1 && |"DeltaSnapshot"| == 13; }
    if VisitsOnce(Plan(h, Obj(0), declared, 0)) { TreeLoadIsSeparate(h, Obj(0), declared, 0); }
  }

  lemma MarkIsPlanned(h: Heap)
    requires h == Shared("X", 5.0) && Closed(h)
    ensures Repair(1, MARKER, Text("DeltaSnapshot")) in Plan(h, Obj(1), MARKS, 1)
  {
    SnapshotIsRecord();
    assert Walked(h, Obj(1), MARKS) == MARKS.entries;
    assert Repair(1, MARKER, Text("DeltaSnapshot")) in PlanSlot(h, 1, MARKER, MARKS.entries[0].value, 1);
  }

  lemma ReadIsPlanned(h: Heap)
    requires h == Shared("X", 5.0) && Closed(h)
    ensures Read(1, MARKER) in Plan(h, Obj(1), SNAPSHOT, 1)
  {
    SnapshotIsRecord();
    assert ReadsMarker(h, Obj(1), SNAPSHOT);
    assert Read(1, MARKER) in Looks(h, Obj(1), SNAPSHOT);
  }

  lemma BothArePlanned(h: Heap, t: Touch, u: Touch)
    requires h == Shared("X", 5.0) && Closed(h)
    requires t in Plan(h, Obj(1), MARKS, 1) && u in Plan(h, Obj(1), SNAPSHOT, 1)
    ensures var p := Plan(h, Obj(0), Both(("a", MARKS), ("b", SNAPSHOT)), 0); t in p && u in p
  {
    var declared := Both(("a", MARKS), ("b", SNAPSHOT));
    var entries := declared.entries;
    BothIsPlain(h, ("a", MARKS), ("b", SNAPSHOT));
    assert PlanSlot(h, 0, Name("a"), MARKS, 0) == [Read(0, Name("a"))] + Plan(h, Obj(1), MARKS, 1);
    assert PlanSlot(h, 0, Name("b"), SNAPSHOT, 0) == [Read(0, Name("b"))] + Plan(h, Obj(1), SNAPSHOT, 1);
    assert entries[1..] == [entries[1]];
    assert u in PlanEntries(h, 0, [entries[1]], 0);
    assert t in PlanEntries(h, 0, entries, 0) && u in PlanEntries(h, 0, entries, 0);
  }
}
