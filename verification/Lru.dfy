/** A cache that stamps its entries from a counter and evicts the smallest stamp, and the recency list it stands for. */
module Lru {
  import opened Wrappers

  type Key = nat

  const U64: nat := 0x1_0000_0000_0000_0000

  datatype Entry<V> = Entry(value: V, stamp: nat)

  datatype State<V> = State(entries: map<Key, Entry<V>>, counter: nat)

  function Bumped(counter: nat): nat {
    if counter + 1 == U64 then 0 else counter + 1
  }

  // ---- The map with stamps ----

  ghost predicate IsOldest<V>(entries: map<Key, Entry<V>>, k: Key) {
    k in entries && forall j :: j in entries ==> entries[k].stamp <= entries[j].stamp
  }

  lemma {:induction false} OldestExists<V>(entries: map<Key, Entry<V>>)
    requires entries != map[]
    ensures exists k :: IsOldest(entries, k)
    decreases |entries|
  {
    var k0 :| k0 in entries;
    var rest := entries - {k0};
    assert forall j :: j in entries ==> j == k0 || j in rest;
    if rest == map[] {
      assert IsOldest(entries, k0);
    } else {
      assert entries.Keys == rest.Keys + {k0};
      assert |entries| == |entries.Keys| && |rest| == |rest.Keys|;
      OldestExists(rest);
      var k1 :| IsOldest(rest, k1);
      assert IsOldest(entries, if entries[k0].stamp <= entries[k1].stamp then k0 else k1);
    }
  }

  ghost function Oldest<V>(entries: map<Key, Entry<V>>): (k: Key)
    requires entries != map[]
    ensures IsOldest(entries, k)
  {
    OldestExists(entries);
    var k :| IsOldest(entries, k);
    k
  }

  function Touched<V>(s: State<V>, k: Key): State<V>
    requires k in s.entries
  {
    State(s.entries[k := s.entries[k].(stamp := s.counter)], Bumped(s.counter))
  }

  /** Insertion makes room first when the cache is full, whether or not the key is already there. */
  ghost function Inserted<V>(s: State<V>, k: Key, v: V, capacity: nat): State<V> {
    var room := if |s.entries| >= capacity && s.entries != map[] then s.entries - {Oldest(s.entries)} else s.entries;
    State(room[k := Entry(v, s.counter)], Bumped(s.counter))
  }

  /** An insertion that made room by removing some entry with the smallest stamp: after the counter has wrapped there
      may be several. */
  ghost predicate InsertedSome<V>(s: State<V>, k: Key, v: V, capacity: nat, s': State<V>) {
    if |s.entries| >= capacity && s.entries != map[] then
      exists oldest :: IsOldest(s.entries, oldest) && s' == Placed(s.entries - {oldest}, k, v, s.counter)
    else s' == Placed(s.entries, k, v, s.counter)
  }

  function Placed<V>(room: map<Key, Entry<V>>, k: Key, v: V, counter: nat): State<V> {
    State(room[k := Entry(v, counter)], Bumped(counter))
  }

  lemma InsertedIsSome<V>(s: State<V>, k: Key, v: V, capacity: nat)
    ensures InsertedSome(s, k, v, capacity, Inserted(s, k, v, capacity))
  {
    if |s.entries| >= capacity && s.entries != map[] {
      assert IsOldest(s.entries, Oldest(s.entries));
      assert Inserted(s, k, v, capacity) == Placed(s.entries - {Oldest(s.entries)}, k, v, s.counter);
    }
  }

  /** An insertion into a full cache removes this entry. */
  function InsertedEvicting<V>(s: State<V>, k: Key, v: V, capacity: nat, oldest: Key): State<V> {
    Placed(if |s.entries| >= capacity && s.entries != map[] then s.entries - {oldest} else s.entries, k, v, s.counter)
  }

  /** The entry may go: it has the smallest stamp, or nothing has to. */
  ghost predicate MayGo<V>(s: State<V>, capacity: nat, oldest: Key) {
    |s.entries| >= capacity && s.entries != map[] ==> IsOldest(s.entries, oldest)
  }

  lemma EvictingIsSome<V>(s: State<V>, k: Key, v: V, capacity: nat, oldest: Key)
    requires MayGo(s, capacity, oldest)
    ensures InsertedSome(s, k, v, capacity, InsertedEvicting(s, k, v, capacity, oldest))
  {
    if |s.entries| >= capacity && s.entries != map[] {
      assert IsOldest(s.entries, oldest);
    }
  }

  /** With distinct stamps there is one oldest entry, and the insertion is determined. */
  lemma SomeIsInserted<V>(s: State<V>, k: Key, v: V, capacity: nat, s': State<V>)
    requires StampsDistinct(s) && InsertedSome(s, k, v, capacity, s')
    ensures s' == Inserted(s, k, v, capacity)
  {
    if |s.entries| >= capacity && s.entries != map[] {
      var oldest :| IsOldest(s.entries, oldest) && s' == Placed(s.entries - {oldest}, k, v, s.counter);
      assert s.entries[oldest].stamp == s.entries[Oldest(s.entries)].stamp;
    }
  }

  ghost predicate StampsDistinct<V>(s: State<V>) {
    && (forall k :: k in s.entries ==> s.entries[k].stamp < s.counter)
    && (forall j, k :: j in s.entries && k in s.entries && s.entries[j].stamp == s.entries[k].stamp ==> j == k)
  }

  class Cache<V> {
    var entries: map<Key, Entry<V>>
    var counter: nat
    const capacity: nat

    function View(): State<V>
      reads this
    {
      State(entries, counter)
    }

    constructor (capacity: nat)
      requires capacity > 0
      ensures View() == State(map[], 0) && this.capacity == capacity
    {
      entries, counter := map[], 0;
      this.capacity := capacity;
    }

    method Lookup(k: Key) returns (hit: Option<V>)
      modifies this
      ensures hit == (if k in old(entries) then Some(old(entries)[k].value) else None)
      ensures View() == (if k in old(entries) then Touched(old(View()), k) else old(View()))
    {
      if k !in entries {
        return None;
      }
      hit := Some(entries[k].value);
      entries := entries[k := entries[k].(stamp := counter)];
      counter := Bumped(counter);
    }

    /** Walk the entries for the smallest stamp. */
    method FindOldest() returns (oldest: Key)
      requires entries != map[]
      ensures IsOldest(entries, oldest)
    {
      var keys := entries.Keys;
      oldest :| oldest in keys;
      keys := keys - {oldest};
      while keys != {}
        invariant keys <= entries.Keys && oldest in entries && oldest !in keys
        invariant forall j :: j in entries && j !in keys ==> entries[oldest].stamp <= entries[j].stamp
        decreases keys
      {
        var j :| j in keys;
        if entries[j].stamp < entries[oldest].stamp {
          oldest := j;
        }
        keys := keys - {j};
      }
    }

    method Insert(k: Key, v: V)
      modifies this
      ensures InsertedSome(old(View()), k, v, capacity, View())
      ensures StampsDistinct(old(View())) ==> View() == Inserted(old(View()), k, v, capacity)
    {
      ghost var before := View();
      if |entries| >= capacity && entries != map[] {
        var oldest := FindOldest();
        entries := entries - {oldest};
        assert IsOldest(before.entries, oldest);
      }
      entries := entries[k := Entry(v, counter)];
      counter := Bumped(counter);
      if StampsDistinct(before) {
        SomeIsInserted(before, k, v, capacity, View());
      }
    }

    method Clear()
      modifies this
      ensures View() == old(View()).(entries := map[])
    {
      entries := map[];
    }
  }

  // ---- The recency list, most recent first ----

  type Recency<V> = seq<(Key, V)>

  /** The entries, most recent first, are those of the list, with strictly falling stamps below `bound`. */
  ghost predicate Ordered<V>(entries: map<Key, Entry<V>>, list: Recency<V>, bound: nat) {
    if list == [] then entries == map[]
    else
      var k := list[0].0;
      && k in entries && entries[k].value == list[0].1 && entries[k].stamp < bound
      && Ordered(entries - {k}, list[1..], entries[k].stamp)
  }

  ghost predicate Refines<V>(s: State<V>, list: Recency<V>) {
    Ordered(s.entries, list, s.counter)
  }

  function Without<V>(list: Recency<V>, k: Key): (r: Recency<V>)
    ensures |r| <= |list|
  {
    if list == [] then [] else (if list[0].0 == k then [] else [list[0]]) + Without(list[1..], k)
  }

  /** A hit moves its entry to the front. */
  function MovedToFront<V>(list: Recency<V>, k: Key, v: V): Recency<V> {
    [(k, v)] + Without(list, k)
  }

  /** An insertion drops the last entry of a full list, then puts the new one in front. */
  function PutInFront<V>(list: Recency<V>, k: Key, v: V, capacity: nat): Recency<V> {
    MovedToFront(if |list| >= capacity && list != [] then list[..|list| - 1] else list, k, v)
  }

  lemma {:induction false} OrderedFacts<V>(entries: map<Key, Entry<V>>, list: Recency<V>, bound: nat)
    requires Ordered(entries, list, bound)
    ensures |entries| == |list|
    ensures forall k :: k in entries ==> entries[k].stamp < bound
    ensures forall j, k :: j in entries && k in entries && entries[j].stamp == entries[k].stamp ==> j == k
    decreases |list|
  {
    if list != [] {
      var k := list[0].0;
      OrderedFacts(entries - {k}, list[1..], entries[k].stamp);
      assert entries.Keys == (entries - {k}).Keys + {k};
      assert |entries| == |entries.Keys| && |entries - {k}| == |(entries - {k}).Keys|;
      assert forall j :: j in entries && j != k ==> j in entries - {k};
    }
  }

  lemma {:induction false} OrderedBelow<V>(entries: map<Key, Entry<V>>, list: Recency<V>, bound: nat, higher: nat)
    requires Ordered(entries, list, bound) && bound <= higher
    ensures Ordered(entries, list, higher)
  {
  }

  lemma {:induction false} WithoutAbsent<V>(entries: map<Key, Entry<V>>, list: Recency<V>, bound: nat, k: Key)
    requires Ordered(entries, list, bound) && k !in entries
    ensures Without(list, k) == list
    decreases |list|
  {
    if list != [] {
      WithoutAbsent(entries - {list[0].0}, list[1..], entries[list[0].0].stamp, k);
    }
  }

  lemma {:induction false} WithoutOrdered<V>(entries: map<Key, Entry<V>>, list: Recency<V>, bound: nat, k: Key)
    requires Ordered(entries, list, bound)
    ensures Ordered(entries - {k}, Without(list, k), bound)
    decreases |list|
  {
    if list != [] {
      var first := list[0].0;
      var rest, stamp := entries - {first}, entries[first].stamp;
      if first == k {
        WithoutAbsent(rest, list[1..], stamp, k);
        assert Without(list, k) == list[1..];
        OrderedBelow(rest, list[1..], stamp, bound);
      } else {
        WithoutOrdered(rest, list[1..], stamp, k);
        assert (entries - {k}) - {first} == rest - {k};
        assert Without(list, k)[1..] == Without(list[1..], k);
      }
    } else {
      assert entries - {k} == map[];
    }
  }

  /** Stamping a key with the counter puts it first. */
  lemma FrontRefines<V>(s: State<V>, list: Recency<V>, k: Key, v: V)
    requires Refines(s, list) && s.counter + 1 < U64
    ensures Refines(State(s.entries[k := Entry(v, s.counter)], Bumped(s.counter)), MovedToFront(list, k, v))
  {
    WithoutOrdered(s.entries, list, s.counter, k);
    assert s.entries[k := Entry(v, s.counter)] - {k} == s.entries - {k};
    assert MovedToFront(list, k, v)[1..] == Without(list, k);
  }

  /** The entry with the smallest stamp is the last of the list, and dropping it drops the last. */
  lemma {:induction false} LastIsOldest<V>(entries: map<Key, Entry<V>>, list: Recency<V>, bound: nat)
    requires Ordered(entries, list, bound) && list != []
    ensures forall k :: IsOldest(entries, k) ==> k == list[|list| - 1].0
    ensures Ordered(entries - {list[|list| - 1].0}, list[..|list| - 1], bound)
    decreases |list|
  {
    var first, last := list[0].0, list[|list| - 1].0;
    var rest := entries - {first};
    if |list| > 1 {
      LastIsOldest(rest, list[1..], entries[first].stamp);
      OrderedFacts(rest, list[1..], entries[first].stamp);
      assert list[1].0 in rest;
      forall k | IsOldest(entries, k) ensures k == last {
        assert k != first && IsOldest(rest, k);
      }
      assert last in rest by {
        OldestExists(rest);
      }
      assert list[..|list| - 1][1..] == list[1..][..|list| - 2];
      assert (entries - {last}) - {first} == rest - {last};
    } else {
      assert rest == map[];
      assert forall k :: k in entries ==> k == first || k in rest;
    }
  }

  lemma RefinesFacts<V>(s: State<V>, list: Recency<V>)
    requires Refines(s, list)
    ensures StampsDistinct(s) && |s.entries| == |list|
  {
    OrderedFacts(s.entries, list, s.counter);
  }

  lemma TouchRefines<V>(s: State<V>, list: Recency<V>, k: Key)
    requires Refines(s, list) && k in s.entries && s.counter + 1 < U64
    ensures Refines(Touched(s, k), MovedToFront(list, k, s.entries[k].value))
  {
    FrontRefines(s, list, k, s.entries[k].value);
    assert s.entries[k].(stamp := s.counter) == Entry(s.entries[k].value, s.counter);
  }

  lemma PlacedSize<V>(room: map<Key, Entry<V>>, k: Key, v: V, counter: nat)
    ensures |Placed(room, k, v, counter).entries| <= |room| + 1
  {
    var entries := room[k := Entry(v, counter)];
    assert entries.Keys == room.Keys + {k};
    assert |entries| == |entries.Keys| && |room| == |room.Keys|;
  }

  /** An insertion never takes the map beyond its capacity, even after the counter has wrapped. */
  lemma InsertedSize<V>(s: State<V>, k: Key, v: V, capacity: nat, s': State<V>)
    requires |s.entries| <= capacity && capacity > 0 && InsertedSome(s, k, v, capacity, s')
    ensures |s'.entries| <= capacity
  {
    if |s.entries| >= capacity && s.entries != map[] {
      var oldest :| IsOldest(s.entries, oldest) && s' == Placed(s.entries - {oldest}, k, v, s.counter);
      var room := s.entries - {oldest};
      assert s.entries.Keys == room.Keys + {oldest};
      assert |s.entries| == |s.entries.Keys| && |room| == |room.Keys|;
      PlacedSize(room, k, v, s.counter);
    } else {
      assert s.entries != map[] || |s.entries| == 0;
      PlacedSize(s.entries, k, v, s.counter);
    }
  }

  lemma InsertRefines<V>(s: State<V>, list: Recency<V>, k: Key, v: V, capacity: nat)
    requires Refines(s, list) && s.counter + 1 < U64
    ensures Refines(Inserted(s, k, v, capacity), PutInFront(list, k, v, capacity))
  {
    RefinesFacts(s, list);
    if |list| >= capacity && list != [] {
      LastIsOldest(s.entries, list, s.counter);
      FrontRefines(State(s.entries - {Oldest(s.entries)}, s.counter), list[..|list| - 1], k, v);
    } else {
      FrontRefines(s, list, k, v);
    }
  }

  // ---- Runs of cache operations, in whatever order threads issue them ----

  datatype Op<V> = Look(k: Key) | Put(k: Key, v: V) | Empty

  ghost function Step<V>(s: State<V>, op: Op<V>, capacity: nat): State<V> {
    match op
    case Look(k) => if k in s.entries then Touched(s, k) else s
    case Put(k, v) => Inserted(s, k, v, capacity)
    case Empty => s.(entries := map[])
  }

  /** The same operation on the list: `Find` reports the value a lookup returns. */
  function Find<V>(list: Recency<V>, k: Key): Option<V> {
    if list == [] then None else if list[0].0 == k then Some(list[0].1) else Find(list[1..], k)
  }

  function ListStep<V>(list: Recency<V>, op: Op<V>, capacity: nat): Recency<V> {
    match op
    case Look(k) => if Find(list, k).Some? then MovedToFront(list, k, Find(list, k).value) else list
    case Put(k, v) => PutInFront(list, k, v, capacity)
    case Empty => []
  }

  ghost function Run<V>(ops: seq<Op<V>>, capacity: nat): State<V> {
    if ops == [] then State(map[], 0) else Step(Run(ops[..|ops| - 1], capacity), ops[|ops| - 1], capacity)
  }

  function ListRun<V>(ops: seq<Op<V>>, capacity: nat): Recency<V> {
    if ops == [] then [] else ListStep(ListRun(ops[..|ops| - 1], capacity), ops[|ops| - 1], capacity)
  }

  lemma {:induction false} LookupAgrees<V>(entries: map<Key, Entry<V>>, list: Recency<V>, bound: nat, k: Key)
    requires Ordered(entries, list, bound)
    ensures Find(list, k) == if k in entries then Some(entries[k].value) else None
    decreases |list|
  {
    if list != [] && list[0].0 != k {
      LookupAgrees(entries - {list[0].0}, list[1..], entries[list[0].0].stamp, k);
    }
  }

  lemma {:induction false} CounterSteps<V>(ops: seq<Op<V>>, capacity: nat)
    requires |ops| < U64
    ensures Run(ops, capacity).counter <= |ops|
  {
    if ops != [] {
      CounterSteps(ops[..|ops| - 1], capacity);
    }
  }

  lemma {:induction false} FoundShrinks<V>(list: Recency<V>, k: Key)
    requires Find(list, k).Some?
    ensures |Without(list, k)| < |list|
  {
    if list[0].0 != k {
      FoundShrinks(list[1..], k);
    }
  }

  /** Over every sequence of lookups, insertions and clears too short to wrap the counter, the stamped map is the
      recency list: same lookups, same evictions, and never more than `capacity` entries. */
  lemma {:induction false} RunRefinesRecency<V>(ops: seq<Op<V>>, capacity: nat)
    requires capacity > 0 && |ops| < U64
    ensures Refines(Run(ops, capacity), ListRun(ops, capacity))
    ensures StampsDistinct(Run(ops, capacity))
    ensures |Run(ops, capacity).entries| == |ListRun(ops, capacity)| <= capacity
    ensures forall k :: Find(ListRun(ops, capacity), k)
                        == if k in Run(ops, capacity).entries then Some(Run(ops, capacity).entries[k].value) else None
  {
    if ops != [] {
      var before, op := ops[..|ops| - 1], ops[|ops| - 1];
      RunRefinesRecency(before, capacity);
      CounterSteps(before, capacity);
      var s, list := Run(before, capacity), ListRun(before, capacity);
      match op {
        case Look(k) =>
          if k in s.entries {
            TouchRefines(s, list, k);
            FoundShrinks(list, k);
          }
        case Put(k, v) => InsertRefines(s, list, k, v, capacity);
        case Empty =>
      }
    }
    var s, list := Run(ops, capacity), ListRun(ops, capacity);
    RefinesFacts(s, list);
    forall k ensures Find(list, k) == if k in s.entries then Some(s.entries[k].value) else None {
      LookupAgrees(s.entries, list, s.counter, k);
    }
  }

  /** Inserting a new key into a full cache removes the least recently used key and no other. */
  lemma FullInsertEvictsLeastRecent<V>(s: State<V>, list: Recency<V>, k: Key, v: V, capacity: nat)
    requires Refines(s, list) && |list| == capacity > 0 && k !in s.entries
    ensures Inserted(s, k, v, capacity).entries.Keys == s.entries.Keys - {list[|list| - 1].0} + {k}
    ensures forall j :: j in s.entries && j != list[|list| - 1].0 ==>
              Inserted(s, k, v, capacity).entries[j] == s.entries[j]
  {
    RefinesFacts(s, list);
    LastIsOldest(s.entries, list, s.counter);
  }

  // ---- Use, read off the operations ----

  /** The operation looks the key up and finds it, or puts it in. */
  predicate Uses<V>(s: State<V>, op: Op<V>, k: Key) {
    (op.Look? && op.k == k && k in s.entries) || (op.Put? && op.k == k)
  }

  /** How many operations there had been when the key was last used. */
  ghost function LastUse<V>(ops: seq<Op<V>>, capacity: nat, k: Key): (n: nat)
    ensures n <= |ops|
  {
    if ops == [] then 0
    else
      var before := ops[..|ops| - 1];
      if Uses(Run(before, capacity), ops[|ops| - 1], k) then |ops| else LastUse(before, capacity, k)
  }

  /** Stamps are ordered as last uses are. */
  ghost predicate StampedByUse<V>(s: State<V>, ops: seq<Op<V>>, capacity: nat) {
    && (forall k :: k in s.entries ==> s.entries[k].stamp < s.counter)
    && (forall j, k :: j in s.entries && k in s.entries && LastUse(ops, capacity, j) < LastUse(ops, capacity, k) ==>
                         s.entries[j].stamp < s.entries[k].stamp)
  }

  lemma StepStampsByUse<V>(ops: seq<Op<V>>, capacity: nat)
    requires 0 < |ops| < U64 && Run(ops[..|ops| - 1], capacity).counter + 1 < U64
    requires StampedByUse(Run(ops[..|ops| - 1], capacity), ops[..|ops| - 1], capacity)
    ensures StampedByUse(Run(ops, capacity), ops, capacity)
  {
    var before, op := ops[..|ops| - 1], ops[|ops| - 1];
    var s, v := Run(before, capacity), Run(ops, capacity);
    forall k | k in v.entries
      ensures v.entries[k].stamp < v.counter
      ensures if Uses(s, op, k) then v.entries[k].stamp == s.counter else k in s.entries && v.entries[k] == s.entries[k]
    {
      if op.Put? && k != op.k {
        assert k in s.entries;
      }
    }
    forall j, k | j in v.entries && k in v.entries && LastUse(ops, capacity, j) < LastUse(ops, capacity, k)
      ensures v.entries[j].stamp < v.entries[k].stamp
    {
      assert !Uses(s, op, j);
    }
  }

  /** Over every run too short to wrap the counter, of two entries the one used earlier has the smaller stamp. */
  lemma {:induction false} StampsFollowUse<V>(ops: seq<Op<V>>, capacity: nat)
    requires |ops| < U64
    ensures StampedByUse(Run(ops, capacity), ops, capacity)
  {
    if ops != [] {
      StampsFollowUse(ops[..|ops| - 1], capacity);
      CounterSteps(ops[..|ops| - 1], capacity);
      StepStampsByUse(ops, capacity);
    }
  }

  /** The entry that an insertion may remove is one that no other entry was used before. */
  lemma OldestIsLeastRecentlyUsed<V>(ops: seq<Op<V>>, capacity: nat, oldest: Key, k: Key)
    requires |ops| < U64 && IsOldest(Run(ops, capacity).entries, oldest) && k in Run(ops, capacity).entries
    ensures LastUse(ops, capacity, oldest) <= LastUse(ops, capacity, k)
  {
    StampsFollowUse(ops, capacity);
  }
}
