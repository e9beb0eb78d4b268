/** The best-scoring items of a list, kept in a bounded heap, and similarity search on top of it. */
module TopK {
  import opened Wrappers

  // Scores are real numbers; not-a-number does not arise.
  type Scored<T> = seq<(T, real)>

  // ---- Order of items by their positions in the input ----

  /** Heap order: smaller score first, then earlier position. */
  predicate HeapLess<T>(items: Scored<T>, a: nat, b: nat)
    requires a < |items| && b < |items|
  {
    items[a].1 < items[b].1 || (items[a].1 == items[b].1 && a < b)
  }

  /** Result order: larger score first, then earlier position. */
  predicate RankedBefore<T>(items: Scored<T>, a: nat, b: nat)
    requires a < |items| && b < |items|
  {
    items[a].1 > items[b].1 || (items[a].1 == items[b].1 && a < b)
  }

  ghost predicate Within(kept: set<nat>, n: nat) {
    forall o :: o in kept ==> o < n
  }

  ghost predicate IsSmallest<T>(items: Scored<T>, kept: set<nat>, m: nat)
    requires Within(kept, |items|)
  {
    m in kept && forall o :: o in kept && o != m ==> HeapLess(items, m, o)
  }

  lemma {:induction false} SmallestExists<T>(items: Scored<T>, kept: set<nat>)
    requires Within(kept, |items|) && kept != {}
    ensures exists m :: IsSmallest(items, kept, m)
    decreases |kept|
  {
    var a :| a in kept;
    var rest := kept - {a};
    if rest == {} {
      assert forall o :: o in kept ==> o == a || o in rest;
      assert IsSmallest(items, kept, a);
    } else {
      SmallestExists(items, rest);
      var b :| IsSmallest(items, rest, b);
      assert forall o :: o in kept ==> o == a || o in rest;
      assert IsSmallest(items, kept, if HeapLess(items, a, b) then a else b);
    }
  }

  ghost function Smallest<T>(items: Scored<T>, kept: set<nat>): (m: nat)
    requires Within(kept, |items|) && kept != {}
    ensures IsSmallest(items, kept, m)
  {
    SmallestExists(items, kept);
    var m :| IsSmallest(items, kept, m);
    m
  }

  /** Offering item `n` to the heap, which is full once `limit` items have come before: a full heap gives up its
      smallest only for a higher score. */
  ghost function Offered<T>(items: Scored<T>, n: nat, limit: nat, kept: set<nat>): (next: set<nat>)
    requires n < |items| && Within(kept, n)
    ensures Within(next, n + 1)
  {
    if n < limit then kept + {n}
    else if kept != {} && items[n].1 > items[Smallest(items, kept)].1 then kept - {Smallest(items, kept)} + {n}
    else kept
  }

  /** Positions in the heap after the first `n` items. */
  ghost function Kept<T>(items: Scored<T>, n: nat, limit: nat): (kept: set<nat>)
    requires n <= |items|
    ensures Within(kept, n)
  {
    if n == 0 || limit == 0 then {} else Offered(items, n - 1, limit, Kept(items, n - 1, limit))
  }

  /** No item outside `kept` scores higher than one inside. */
  ghost predicate AreBest<T>(items: Scored<T>, n: nat, kept: set<nat>)
    requires n <= |items| && Within(kept, n)
  {
    forall o, k :: 0 <= o < n && o !in kept && k in kept ==> items[o].1 <= items[k].1
  }

  lemma SwapKeepsBest<T>(items: Scored<T>, n: nat, kept: set<nat>, m: nat)
    requires n < |items| && Within(kept, n) && AreBest(items, n, kept)
    requires IsSmallest(items, kept, m) && items[n].1 > items[m].1
    ensures AreBest(items, n + 1, kept - {m} + {n}) && |kept - {m} + {n}| == |kept|
  {
    assert items[m].1 <= items[m].1;
  }

  lemma StayKeepsBest<T>(items: Scored<T>, n: nat, kept: set<nat>, m: nat)
    requires n < |items| && Within(kept, n) && AreBest(items, n, kept)
    requires IsSmallest(items, kept, m) && items[n].1 <= items[m].1
    ensures AreBest(items, n + 1, kept)
  {
  }

  ghost predicate HeapRight<T>(items: Scored<T>, n: nat, limit: nat, kept: set<nat>)
    requires n <= |items| && Within(kept, n)
  {
    |kept| == Min(limit, n) && AreBest(items, n, kept)
  }

  lemma OfferKeepsBest<T>(items: Scored<T>, n: nat, limit: nat, kept: set<nat>, next: set<nat>)
    requires 0 < n <= |items| && limit > 0 && Within(kept, n - 1)
    requires HeapRight(items, n - 1, limit, kept) && next == Offered(items, n - 1, limit, kept)
    ensures HeapRight(items, n, limit, next)
  {
    if n - 1 < limit {
      FullRange(n - 1, kept);
    } else if items[n - 1].1 > items[Smallest(items, kept)].1 {
      SwapKeepsBest(items, n - 1, kept, Smallest(items, kept));
    } else {
      StayKeepsBest(items, n - 1, kept, Smallest(items, kept));
    }
  }

  /** The heap always holds as many items as it may, and none left out scores higher than one held. */
  lemma {:induction false} KeptAreBest<T>(items: Scored<T>, n: nat, limit: nat)
    requires n <= |items|
    ensures HeapRight(items, n, limit, Kept(items, n, limit))
  {
    if n == 0 || limit == 0 {
      assert Kept(items, n, limit) == {};
    } else {
      KeptAreBest(items, n - 1, limit);
      OfferKeepsBest(items, n, limit, Kept(items, n - 1, limit), Kept(items, n, limit));
    }
  }

  // ---- Sets of positions ----

  ghost function UpTo(n: nat): (r: set<nat>)
    ensures forall i: nat :: i in r <==> i < n
    ensures |r| == n
  {
    if n == 0 then {} else UpTo(n - 1) + {n - 1}
  }

  lemma SubsetSize(a: set<nat>, b: set<nat>)
    requires a <= b
    ensures |a| <= |b| && (|a| == |b| ==> a == b)
  {
    assert b == a + (b - a);
    assert |b| == |a| + |b - a|;
  }

  lemma OneMore(a: set<nat>, x: nat, b: set<nat>)
    requires x !in a && a + {x} <= b
    ensures |a| < |b|
  {
    SubsetSize(a + {x}, b);
  }

  /** A set of `n` positions below `n` has them all. */
  lemma FullRange(n: nat, kept: set<nat>)
    requires Within(kept, n) && |kept| == n
    ensures forall o: nat :: o < n ==> o in kept
  {
    SubsetSize(kept, UpTo(n));
  }

  ghost function Elems(order: seq<nat>): set<nat> {
    set o | o in order
  }

  predicate Distinct(order: seq<nat>) {
    forall i, j :: 0 <= i < j < |order| ==> order[i] != order[j]
  }

  lemma {:induction false} DistinctSize(order: seq<nat>)
    ensures |Elems(order)| <= |order|
    ensures Distinct(order) ==> |Elems(order)| == |order|
  {
    if order != [] {
      var n := |order| - 1;
      DistinctSize(order[..n]);
      assert Elems(order) == Elems(order[..n]) + {order[n]};
      if Distinct(order) {
        assert order[n] !in Elems(order[..n]);
      }
    }
  }

  // ---- The method ----

  datatype Entry<T> = Entry(score: real, ordinal: nat, value: T)

  function Positions<T>(heap: seq<Entry<T>>): seq<nat> {
    seq(|heap|, i requires 0 <= i < |heap| => heap[i].ordinal)
  }

  ghost predicate Holds<T>(items: Scored<T>, heap: seq<Entry<T>>, kept: set<nat>) {
    && (forall i :: 0 <= i < |heap| ==>
          heap[i].ordinal < |items| && heap[i].value == items[heap[i].ordinal].0
          && heap[i].score == items[heap[i].ordinal].1)
    && Distinct(Positions(heap))
    && kept == Elems(Positions(heap))
  }

  /** Position in the heap's storage of its smallest entry. */
  method Peek<T>(heap: seq<Entry<T>>, ghost items: Scored<T>, ghost kept: set<nat>) returns (at: nat)
    requires Holds(items, heap, kept) && heap != []
    ensures at < |heap| && IsSmallest(items, kept, heap[at].ordinal)
  {
    at := 0;
    for i := 1 to |heap|
      invariant at < i <= |heap|
      invariant forall j :: 0 <= j < i && j != at ==> HeapLess(items, heap[at].ordinal, heap[j].ordinal)
    {
      assert Positions(heap)[at] != Positions(heap)[i];
      if heap[i].score < heap[at].score || (heap[i].score == heap[at].score && heap[i].ordinal < heap[at].ordinal) {
        at := i;
      }
    }
    assert Positions(heap)[at] == heap[at].ordinal;
    forall o | o in kept && o != heap[at].ordinal ensures HeapLess(items, heap[at].ordinal, o) {
      var j :| 0 <= j < |heap| && Positions(heap)[j] == o;
    }
  }

  lemma HoldsPush<T>(items: Scored<T>, heap: seq<Entry<T>>, kept: set<nat>, o: nat)
    requires Holds(items, heap, kept) && o < |items| && o !in kept
    ensures Holds(items, heap + [Entry(items[o].1, o, items[o].0)], kept + {o})
  {
    var longer := heap + [Entry(items[o].1, o, items[o].0)];
    assert Positions(longer) == Positions(heap) + [o];
  }

  lemma HoldsPop<T>(items: Scored<T>, heap: seq<Entry<T>>, kept: set<nat>, at: nat)
    requires Holds(items, heap, kept) && at < |heap|
    ensures Holds(items, heap[..at] + heap[at + 1..], kept - {heap[at].ordinal})
  {
    var rest, all := heap[..at] + heap[at + 1..], Positions(heap);
    assert Positions(rest) == all[..at] + all[at + 1..];
    forall o | o in kept && o != heap[at].ordinal ensures o in Positions(rest) {
      var i :| 0 <= i < |all| && all[i] == o;
      assert Positions(rest)[if i < at then i else i - 1] == o;
    }
    forall i | 0 <= i < |rest| ensures Positions(rest)[i] in kept - {heap[at].ordinal} {
      var k := if i < at then i else i + 1;
      assert Positions(rest)[i] == all[k] && all[k] in all && all[at] == heap[at].ordinal;
      assert all[k] != all[at];
    }
  }

  lemma InsertedIsSorted<T>(before: seq<Entry<T>>, e: Entry<T>, after: seq<Entry<T>>)
    requires Sorted(before + after)
    requires forall i :: 0 <= i < |after| ==> EntryBefore(e, after[i])
    requires forall i :: 0 <= i < |before| ==> EntryBefore(before[i], e)
    ensures Sorted(before + [e] + after)
  {
    var joined, longer := before + after, before + [e] + after;
    forall i, j | 0 <= i < j < |longer| ensures EntryBefore(longer[i], longer[j]) {
      assert i != |before| ==> longer[i] == joined[if i < |before| then i else i - 1];
      assert j != |before| ==> longer[j] == joined[if j < |before| then j else j - 1];
    }
  }

  /** One more entry in a list sorted by rank. */
  method InsertByRank<T>(sorted: seq<Entry<T>>, e: Entry<T>) returns (longer: seq<Entry<T>>)
    requires Sorted(sorted) && forall i :: 0 <= i < |sorted| ==> sorted[i].ordinal != e.ordinal
    ensures Sorted(longer) && multiset(longer) == multiset(sorted) + multiset{e}
  {
    var at := |sorted|;
    while at > 0 && EntryBefore(e, sorted[at - 1])
      invariant 0 <= at <= |sorted|
      invariant forall i :: at <= i < |sorted| ==> EntryBefore(e, sorted[i])
    {
      at := at - 1;
    }
    assert sorted == sorted[..at] + sorted[at..];
    if at > 0 {
      assert forall i :: 0 <= i < at - 1 ==> EntryBefore(sorted[i], sorted[at - 1]);
    }
    InsertedIsSorted(sorted[..at], e, sorted[at..]);
    longer := sorted[..at] + [e] + sorted[at..];
  }

  predicate EntryBefore<T>(a: Entry<T>, b: Entry<T>) {
    a.score > b.score || (a.score == b.score && a.ordinal < b.ordinal)
  }

  predicate Sorted<T>(entries: seq<Entry<T>>) {
    forall i, j :: 0 <= i < j < |entries| ==> EntryBefore(entries[i], entries[j])
  }

  method SortByRank<T>(heap: seq<Entry<T>>) returns (sorted: seq<Entry<T>>)
    requires Distinct(Positions(heap))
    ensures Sorted(sorted) && multiset(sorted) == multiset(heap)
  {
    sorted := [];
    for i := 0 to |heap|
      invariant Sorted(sorted) && multiset(sorted) == multiset(heap[..i])
    {
      forall j | 0 <= j < |sorted| ensures sorted[j].ordinal != heap[i].ordinal {
        assert sorted[j] in multiset(heap[..i]);
        var k :| 0 <= k < i && heap[..i][k] == sorted[j];
        assert Positions(heap)[k] != Positions(heap)[i];
      }
      sorted := InsertByRank(sorted, heap[i]);
      assert heap[..i + 1] == heap[..i] + [heap[i]];
    }
    assert heap[..|heap|] == heap;
  }

  /** What a list of positions must satisfy to be a top `limit` of the items. */
  ghost predicate IsTop<T>(items: Scored<T>, limit: nat, order: seq<nat>) {
    && |order| == Min(limit, |items|)
    && (forall i :: 0 <= i < |order| ==> order[i] < |items|)
    && (forall i, j :: 0 <= i < j < |order| ==> RankedBefore(items, order[i], order[j]))
    && (forall o: nat, i :: o < |items| && o !in order && 0 <= i < |order| ==> items[o].1 <= items[order[i]].1)
  }

  lemma SortedHeapIsTop<T>(items: Scored<T>, limit: nat, heap: seq<Entry<T>>, sorted: seq<Entry<T>>, order: seq<nat>)
    requires Holds(items, heap, Kept(items, |items|, limit))
    requires Sorted(sorted) && multiset(sorted) == multiset(heap)
    requires |order| == |sorted| && forall i :: 0 <= i < |sorted| ==> order[i] == sorted[i].ordinal
    ensures IsTop(items, limit, order)
    ensures forall o :: o in order <==> o in Kept(items, |items|, limit)
    ensures forall i :: 0 <= i < |sorted| ==> items[order[i]] == (sorted[i].value, sorted[i].score)
  {
    var kept := Kept(items, |items|, limit);
    KeptAreBest(items, |items|, limit);
    DistinctSize(Positions(heap));
    assert |multiset(sorted)| == |sorted| && |multiset(heap)| == |heap|;
    forall i | 0 <= i < |sorted| ensures sorted[i] in heap && order[i] in kept {
      assert sorted[i] in multiset(sorted);
      var k :| 0 <= k < |heap| && heap[k] == sorted[i];
      assert Positions(heap)[k] == order[i];
    }
    forall o | o in kept ensures o in order {
      var k :| 0 <= k < |heap| && Positions(heap)[k] == o;
      assert heap[k] in multiset(sorted);
      var i :| 0 <= i < |sorted| && sorted[i] == heap[k];
      assert order[i] == o;
    }
  }

  /** One item offered to the heap. */
  method Offer<T>(items: Scored<T>, n: nat, limit: nat, heap: seq<Entry<T>>, ghost kept: set<nat>)
    returns (next: seq<Entry<T>>)
    requires n < |items| && limit > 0 && Within(kept, n) && Holds(items, heap, kept) && |kept| == Min(limit, n)
    ensures Holds(items, next, Offered(items, n, limit, kept))
  {
    DistinctSize(Positions(heap));
    var candidate := Entry(items[n].1, n, items[n].0);
    if |heap| < limit {
      HoldsPush(items, heap, kept, n);
      return heap + [candidate];
    }
    var at := Peek(heap, items, kept);
    assert heap[at].ordinal == Smallest(items, kept);
    if candidate.score > heap[at].score {
      HoldsPop(items, heap, kept, at);
      next := heap[..at] + heap[at + 1..];
      HoldsPush(items, next, kept - {Smallest(items, kept)}, n);
      return next + [candidate];
    }
    return heap;
  }

  /** The items at the given positions, in that order. */
  ghost predicate Listed<T>(items: Scored<T>, order: seq<nat>, results: Scored<T>) {
    && |results| == |order|
    && forall i :: 0 <= i < |results| ==> order[i] < |items| && results[i] == items[order[i]]
  }

  method TopKScored<T>(items: Scored<T>, limit: nat) returns (results: Scored<T>, ghost order: seq<nat>)
    ensures IsTop(items, limit, order) && Listed(items, order, results)
    ensures forall o :: o in order <==> o in Kept(items, |items|, limit)
    ensures |results| == Min(limit, |items|) && forall i, j :: 0 <= i < j < |results| ==> results[i].1 >= results[j].1
  {
    if limit == 0 {
      return [], [];
    }
    var heap: seq<Entry<T>> := [];
    for n := 0 to |items|
      invariant Holds(items, heap, Kept(items, n, limit))
    {
      KeptAreBest(items, n, limit);
      heap := Offer(items, n, limit, heap, Kept(items, n, limit));
    }
    var sorted := SortByRank(heap);
    order := Positions(sorted);
    SortedHeapIsTop(items, limit, heap, sorted, order);
    results := seq(|sorted|, i requires 0 <= i < |sorted| => (sorted[i].value, sorted[i].score));
  }

  // ---- How far the result is determined ----

  lemma TakenMembers(order: seq<nat>, i: nat)
    requires i <= |order|
    ensures forall k :: 0 <= k < i ==> order[k] in order[..i]
  {
    assert forall k :: 0 <= k < i ==> order[..i][k] == order[k];
  }

  /** The first `i + 1` places of one list hold an entry that is not in the first `i` places of another. */
  lemma OneMoreEntry(a: seq<nat>, b: seq<nat>, i: nat) returns (j: nat)
    requires i < |a| && i <= |b| && Distinct(a) && Distinct(b)
    ensures j <= i && a[j] !in b[..i]
  {
    var first, earlier := a[..i + 1], b[..i];
    DistinctSize(first);
    DistinctSize(earlier);
    if Elems(first) <= Elems(earlier) {
      SubsetSize(Elems(first), Elems(earlier));
    }
    var o :| o in Elems(first) && o !in Elems(earlier);
    j :| 0 <= j < |first| && first[j] == o;
  }

  lemma TopIsDistinct<T>(items: Scored<T>, limit: nat, order: seq<nat>)
    requires IsTop(items, limit, order)
    ensures Distinct(order)
  {
  }

  lemma ScoresNoHigher<T>(items: Scored<T>, limit: nat, a: seq<nat>, b: seq<nat>, i: nat)
    requires IsTop(items, limit, a) && IsTop(items, limit, b) && i < |a|
    ensures items[a[i]].1 <= items[b[i]].1
  {
    TopIsDistinct(items, limit, a);
    TopIsDistinct(items, limit, b);
    var j := OneMoreEntry(a, b, i);
    assert items[a[i]].1 <= items[a[j]].1;
    if a[j] in b {
      var k :| 0 <= k < |b| && b[k] == a[j];
      TakenMembers(b, i);
    }
  }

  /** An entry of a top list that is not among the first `i` is at place `i` or ranked after the one there. */
  lemma AtOrAfter<T>(items: Scored<T>, limit: nat, order: seq<nat>, i: nat, o: nat)
    requires IsTop(items, limit, order) && i < |order| && o in order && o !in order[..i]
    ensures o == order[i] || RankedBefore(items, order[i], o)
  {
    TakenMembers(order, i);
    var j :| 0 <= j < |order| && order[j] == o;
  }

  /** Where two lists agree before place `i`, each has the other's entry there at that place or later. */
  lemma SameAtPlace<T>(items: Scored<T>, limit: nat, a: seq<nat>, b: seq<nat>, i: nat)
    requires IsTop(items, limit, a) && IsTop(items, limit, b) && i < |a| && a[..i] == b[..i]
    requires a[i] in b && b[i] in a
    ensures a[i] == b[i]
  {
    TopIsDistinct(items, limit, a);
    TopIsDistinct(items, limit, b);
    assert a[i] !in a[..i] && b[i] !in b[..i];
    AtOrAfter(items, limit, b, i, a[i]);
    AtOrAfter(items, limit, a, i, b[i]);
  }

  lemma AboveBoundaryIsShared<T>(items: Scored<T>, limit: nat, a: seq<nat>, b: seq<nat>, i: nat)
    requires IsTop(items, limit, a) && IsTop(items, limit, b)
    requires i < |a| && items[a[i]].1 > items[a[|a| - 1]].1
    ensures a[i] in b && b[i] in a
  {
    var last := |a| - 1;
    ScoresNoHigher(items, limit, a, b, last);
    ScoresNoHigher(items, limit, b, a, last);
    ScoresNoHigher(items, limit, a, b, i);
  }

  lemma {:induction false} SameAboveBoundary<T>(items: Scored<T>, limit: nat, a: seq<nat>, b: seq<nat>, i: nat)
    requires IsTop(items, limit, a) && IsTop(items, limit, b)
    requires i < |a| && items[a[i]].1 > items[a[|a| - 1]].1
    ensures a[..i + 1] == b[..i + 1]
  {
    if i > 0 {
      SameAboveBoundary(items, limit, a, b, i - 1);
    }
    AboveBoundaryIsShared(items, limit, a, b, i);
    SameAtPlace(items, limit, a, b, i);
    assert a[..i + 1] == a[..i] + [a[i]] && b[..i + 1] == b[..i] + [b[i]];
  }

  /** Any two top lists, such as the heap's and the first entries of a full sort, have the same scores in the same
      order and the same items wherever the score is above the lowest one kept. */
  lemma TopIsUniqueUpToBoundaryTies<T>(items: Scored<T>, limit: nat, a: seq<nat>, b: seq<nat>)
    requires IsTop(items, limit, a) && IsTop(items, limit, b)
    ensures |a| == |b| && forall i :: 0 <= i < |a| ==> items[a[i]].1 == items[b[i]].1
    ensures forall i :: 0 <= i < |a| && items[a[i]].1 > items[a[|a| - 1]].1 ==> a[i] == b[i]
  {
    forall i | 0 <= i < |a| ensures items[a[i]].1 == items[b[i]].1 {
      ScoresNoHigher(items, limit, a, b, i);
      ScoresNoHigher(items, limit, b, a, i);
    }
    forall i | 0 <= i < |a| && items[a[i]].1 > items[a[|a| - 1]].1 ensures a[i] == b[i] {
      SameAboveBoundary(items, limit, a, b, i);
      assert a[..i + 1][i] == b[..i + 1][i];
    }
  }

  /** The first entries of a ranking of everything are a top list. */
  lemma SortAndTakeIsTop<T>(items: Scored<T>, ranking: seq<nat>, limit: nat)
    requires IsRanking(items, ranking)
    ensures IsTop(items, limit, ranking[..Min(limit, |items|)])
  {
    var order := ranking[..Min(limit, |items|)];
    assert Distinct(ranking);
    DistinctSize(ranking);
    FullRange(|items|, Elems(ranking));
    TakenMembers(ranking, |order|);
    forall o: nat, i | o < |items| && o !in order && 0 <= i < |order| ensures items[o].1 <= items[order[i]].1 {
      assert o in Elems(ranking);
      var j :| 0 <= j < |ranking| && ranking[j] == o;
    }
  }

  // ---- When the heap keeps what a sort would keep ----

  /** The first `n` items that score at least `bar`. */
  ghost function Eligible<T>(items: Scored<T>, n: nat, bar: real): (r: set<nat>)
    requires n <= |items|
    ensures forall o: nat :: o in r <==> o < n && items[o].1 >= bar
  {
    if n == 0 then {}
    else if items[n - 1].1 >= bar then Eligible(items, n - 1, bar) + {n - 1} else Eligible(items, n - 1, bar)
  }

  ghost predicate IsRanking<T>(items: Scored<T>, ranking: seq<nat>) {
    && |ranking| == |items|
    && (forall i :: 0 <= i < |ranking| ==> ranking[i] < |items|)
    && (forall i, j :: 0 <= i < j < |ranking| ==> RankedBefore(items, ranking[i], ranking[j]))
  }

  /** The score that comes `limit`-th in the ranking. */
  function Bar<T>(items: Scored<T>, ranking: seq<nat>, limit: nat): real
    requires 0 < limit <= |ranking| && ranking[limit - 1] < |items|
  {
    items[ranking[limit - 1]].1
  }

  /** Item `j` scores above the bar although `limit` items before it already reach it. */
  ghost predicate LateRiser<T>(items: Scored<T>, limit: nat, bar: real, j: nat) {
    j < |items| && items[j].1 > bar && |Eligible(items, j, bar)| >= limit
  }

  lemma EligibleGrows<T>(items: Scored<T>, n: nat, bar: real)
    requires n < |items|
    ensures |Eligible(items, n, bar)| <= |Eligible(items, n + 1, bar)| <= |Eligible(items, n, bar)| + 1
  {
  }

  lemma EligibleWithin<T>(items: Scored<T>, m: nat, n: nat, bar: real)
    requires m <= n <= |items|
    ensures Eligible(items, m, bar) <= Eligible(items, n, bar)
    ensures |Eligible(items, m, bar)| <= |Eligible(items, n, bar)|
  {
    SubsetSize(Eligible(items, m, bar), Eligible(items, n, bar));
  }

  /** The first moment at which `limit` items reach the bar. */
  lemma {:induction false} FirstFull<T>(items: Scored<T>, n: nat, limit: nat, bar: real) returns (m: nat)
    requires n <= |items| && |Eligible(items, n, bar)| >= limit
    ensures m <= n && |Eligible(items, m, bar)| == limit
    decreases n
  {
    if |Eligible(items, n, bar)| == limit {
      m := n;
    } else {
      EligibleGrows(items, n - 1, bar);
      m := FirstFull(items, n - 1, limit, bar);
    }
  }

  /** A heap full of items, once `limit` items reach the bar, holds only such items. */
  lemma FullHeapIsEligible<T>(items: Scored<T>, n: nat, limit: nat, bar: real)
    requires n <= |items| && limit > 0 && |Eligible(items, n, bar)| >= limit
    ensures Kept(items, n, limit) <= Eligible(items, n, bar)
    ensures |Kept(items, n, limit)| == limit
  {
    var kept, eligible := Kept(items, n, limit), Eligible(items, n, bar);
    KeptAreBest(items, n, limit);
    EligibleIsShort(items, n, bar);
    forall k | k in kept ensures k in eligible {
      if k !in eligible {
        assert forall o :: o in eligible ==> o in kept;
        OneMore(eligible, k, kept);
      }
    }
  }

  lemma EligibleIsShort<T>(items: Scored<T>, n: nat, bar: real)
    requires n <= |items|
    ensures |Eligible(items, n, bar)| <= n
  {
    SubsetSize(Eligible(items, n, bar), UpTo(n));
  }

  /** An offer brings in no other item than the one offered. */
  lemma OfferBringsOnlyItself<T>(items: Scored<T>, n: nat, limit: nat, kept: set<nat>, next: set<nat>, o: nat)
    requires 0 < n <= |items| && Within(kept, n - 1) && next == Offered(items, n - 1, limit, kept)
    requires o < n - 1 && o in next
    ensures o in kept
  {
  }

  lemma {:induction false} WasThereBefore<T>(items: Scored<T>, m: nat, n: nat, limit: nat, o: nat)
    requires o < m <= n <= |items| && limit > 0 && o in Kept(items, n, limit)
    ensures o in Kept(items, m, limit)
    decreases n
  {
    if m < n {
      OfferBringsOnlyItself(items, n, limit, Kept(items, n - 1, limit), Kept(items, n, limit), o);
      WasThereBefore(items, m, n - 1, limit, o);
    }
  }

  /** The first item that scores exactly the bar leaves the heap when a late riser comes. */
  lemma RiserEvictsEarliest<T>(items: Scored<T>, j: nat, limit: nat, bar: real, kept: set<nat>, next: set<nat>, e: nat)
    requires 0 < j <= |items| && limit > 0 && Within(kept, j - 1) && next == Offered(items, j - 1, limit, kept)
    requires items[j - 1].1 > bar && |kept| == limit && kept <= Eligible(items, j - 1, bar)
    requires e < j - 1 && items[e].1 == bar && forall o :: 0 <= o < e ==> items[o].1 != bar
    ensures e !in next
  {
    SubsetSize(kept, UpTo(j - 1));
    if e in kept {
      assert IsSmallest(items, kept, e);
      SmallestIsUnique(items, kept, e, Smallest(items, kept));
    }
  }

  lemma SmallestIsUnique<T>(items: Scored<T>, kept: set<nat>, a: nat, b: nat)
    requires Within(kept, |items|) && IsSmallest(items, kept, a) && IsSmallest(items, kept, b)
    ensures a == b
  {
  }

  /** The heap holds the first `limit` items that reach the bar. */
  ghost predicate HoldsFirst<T>(items: Scored<T>, m: nat, limit: nat, bar: real, kept: set<nat>)
    requires m <= |items|
  {
    |kept| == limit && kept == Eligible(items, m, bar)
  }

  /** Once it holds only items at or above the bar, a full heap refuses what does not score above the bar. */
  lemma FullHeapRefuses<T>(items: Scored<T>, n: nat, limit: nat, bar: real, m: nat, kept: set<nat>, next: set<nat>)
    requires 0 < n <= |items| && limit > 0 && Within(kept, n - 1) && next == Offered(items, n - 1, limit, kept)
    requires m <= n - 1 && HoldsFirst(items, m, limit, bar, kept) && items[n - 1].1 <= bar
    ensures HoldsFirst(items, m, limit, bar, next)
  {
    SubsetSize(kept, UpTo(n - 1));
    assert Smallest(items, kept) in kept;
  }

  lemma FirstFullHeap<T>(items: Scored<T>, m: nat, limit: nat, bar: real)
    requires m <= |items| && limit > 0 && |Eligible(items, m, bar)| == limit
    ensures HoldsFirst(items, m, limit, bar, Kept(items, m, limit))
  {
    FullHeapIsEligible(items, m, limit, bar);
    SubsetSize(Kept(items, m, limit), Eligible(items, m, bar));
  }

  lemma NotRising<T>(items: Scored<T>, m: nat, n: nat, limit: nat, bar: real)
    requires m <= n < |items| && |Eligible(items, m, bar)| == limit && !LateRiser(items, limit, bar, n)
    ensures items[n].1 <= bar
  {
    EligibleWithin(items, m, n, bar);
  }

  /** Without late risers the heap keeps the first `limit` items that reach the bar. */
  lemma {:induction false} FirstEligibleStay<T>(items: Scored<T>, m: nat, n: nat, limit: nat, bar: real)
    requires m <= n <= |items| && limit > 0 && |Eligible(items, m, bar)| == limit
    requires forall j :: 0 <= j < n ==> !LateRiser(items, limit, bar, j)
    ensures HoldsFirst(items, m, limit, bar, Kept(items, n, limit))
    decreases n
  {
    if n == m {
      FirstFullHeap(items, m, limit, bar);
    } else {
      FirstEligibleStay(items, m, n - 1, limit, bar);
      NotRising(items, m, n - 1, limit, bar);
      FullHeapRefuses(items, n, limit, bar, m, Kept(items, n - 1, limit), Kept(items, n, limit));
    }
  }

  lemma RankingHasAll<T>(items: Scored<T>, ranking: seq<nat>, o: nat) returns (i: nat)
    requires IsRanking(items, ranking) && o < |items|
    ensures i < |ranking| && ranking[i] == o
  {
    assert Distinct(ranking);
    DistinctSize(ranking);
    FullRange(|items|, Elems(ranking));
    assert o in Elems(ranking);
    i :| 0 <= i < |ranking| && ranking[i] == o;
  }

  /** The first `limit` of the ranking are those ranked at or before its last one. */
  lemma TakenIff<T>(items: Scored<T>, ranking: seq<nat>, limit: nat, o: nat)
    requires IsRanking(items, ranking) && 0 < limit <= |items| && o < |items|
    ensures o in ranking[..limit] <==> o == ranking[limit - 1] || RankedBefore(items, o, ranking[limit - 1])
  {
    var i := RankingHasAll(items, ranking, o);
    if i < limit {
      assert ranking[..limit][i] == o;
    }
    if o in ranking[..limit] {
      var k :| 0 <= k < limit && ranking[k] == o;
    }
  }

  lemma TakenSize<T>(items: Scored<T>, ranking: seq<nat>, limit: nat)
    requires IsRanking(items, ranking) && limit <= |items|
    ensures |Elems(ranking[..limit])| == limit
    ensures forall o :: o in Elems(ranking[..limit]) ==> o < |items|
  {
    DistinctSize(ranking[..limit]);
  }

  lemma BarIsReached<T>(items: Scored<T>, ranking: seq<nat>, limit: nat)
    requires IsRanking(items, ranking) && 0 < limit <= |items|
    ensures |Eligible(items, |items|, Bar(items, ranking, limit))| >= limit
  {
    var bar := Bar(items, ranking, limit);
    TakenSize(items, ranking, limit);
    forall o | o in Elems(ranking[..limit]) ensures o in Eligible(items, |items|, bar) {
      TakenIff(items, ranking, limit, o);
    }
    SubsetSize(Elems(ranking[..limit]), Eligible(items, |items|, bar));
  }

  /** Without late risers the sort, too, takes the first `limit` items that reach the bar. */
  lemma TakenAreFirstEligible<T>(items: Scored<T>, ranking: seq<nat>, limit: nat, m: nat)
    requires IsRanking(items, ranking) && 0 < limit <= |items| && m <= |items|
    requires |Eligible(items, m, Bar(items, ranking, limit))| == limit
    requires forall j :: 0 <= j < |items| ==> !LateRiser(items, limit, Bar(items, ranking, limit), j)
    ensures Elems(ranking[..limit]) == Eligible(items, m, Bar(items, ranking, limit))
  {
    var bar, taken := Bar(items, ranking, limit), Elems(ranking[..limit]);
    var first := Eligible(items, m, bar);
    TakenSize(items, ranking, limit);
    forall t | t in taken ensures t in first {
      TakenIff(items, ranking, limit, t);
      if t >= m {
        EligibleWithin(items, m, t, bar);
        assert !LateRiser(items, limit, bar, t);
        forall o | o in first ensures o in taken {
          TakenIff(items, ranking, limit, o);
        }
        OneMore(first, t, taken);
      }
    }
    SubsetSize(taken, first);
  }

  /** The earliest item that scores what another one scores. */
  lemma {:induction false} EarliestWith<T>(items: Scored<T>, o: nat) returns (e: nat)
    requires o < |items|
    ensures e <= o && items[e].1 == items[o].1 && forall p :: 0 <= p < e ==> items[p].1 != items[o].1
  {
    e := 0;
    while items[e].1 != items[o].1
      invariant e <= o && forall p :: 0 <= p < e ==> items[p].1 != items[o].1
      decreases o - e
    {
      e := e + 1;
    }
  }

  /** Fewer than `limit` items score above the bar, so one scoring exactly the bar comes before any late riser. */
  lemma RiserComesLater<T>(items: Scored<T>, ranking: seq<nat>, limit: nat, j: nat, e: nat)
    requires IsRanking(items, ranking) && 0 < limit <= |items|
    requires LateRiser(items, limit, Bar(items, ranking, limit), j)
    requires e <= |items| && forall p :: 0 <= p < e ==> items[p].1 != Bar(items, ranking, limit)
    ensures e < j
  {
    var bar, taken := Bar(items, ranking, limit), Elems(ranking[..limit]);
    var before := Eligible(items, j, bar);
    if e >= j {
      TakenSize(items, ranking, limit);
      forall o | o in before + {j} ensures o in taken && o != ranking[limit - 1] {
        TakenIff(items, ranking, limit, o);
        assert items[o].1 > bar;
      }
      OneMore(before, j, taken);
    }
  }

  lemma RiserDropsEarliest<T>(items: Scored<T>, n: nat, limit: nat, bar: real, e: nat)
    requires 0 < n <= |items| && limit > 0 && LateRiser(items, limit, bar, n - 1)
    requires e < n - 1 && items[e].1 == bar && forall o :: 0 <= o < e ==> items[o].1 != bar
    ensures e !in Kept(items, n, limit)
  {
    FullHeapIsEligible(items, n - 1, limit, bar);
    RiserEvictsEarliest(items, n, limit, bar, Kept(items, n - 1, limit), Kept(items, n, limit), e);
  }

  /** The position of the earliest item that scores the bar. */
  ghost predicate EarliestAt<T>(items: Scored<T>, bar: real, e: nat) {
    e < |items| && items[e].1 == bar && forall o :: 0 <= o < e ==> items[o].1 != bar
  }

  /** A late riser drives out the earliest item at the bar, which the sort takes. */
  lemma DropMakesDifference<T>(items: Scored<T>, ranking: seq<nat>, limit: nat, j: nat, final: set<nat>)
    requires IsRanking(items, ranking) && 0 < limit <= |items|
    requires LateRiser(items, limit, Bar(items, ranking, limit), j)
    requires forall e: nat :: EarliestAt(items, Bar(items, ranking, limit), e) && e < j ==> e !in final
    ensures final != Elems(ranking[..limit])
  {
    var e := EarliestWith(items, ranking[limit - 1]);
    RiserComesLater(items, ranking, limit, j, e);
    TakenIff(items, ranking, limit, e);
    assert EarliestAt(items, Bar(items, ranking, limit), e);
    assert e in Elems(ranking[..limit]);
  }

  lemma StaysDropped<T>(items: Scored<T>, j: nat, limit: nat, bar: real, e: nat)
    requires j < |items| && limit > 0 && LateRiser(items, limit, bar, j) && EarliestAt(items, bar, e) && e < j
    ensures e !in Kept(items, |items|, limit)
  {
    RiserDropsEarliest(items, j + 1, limit, bar, e);
    if e in Kept(items, |items|, limit) {
      WasThereBefore(items, j + 1, |items|, limit, e);
    }
  }

  lemma RiserMakesDifference<T>(items: Scored<T>, ranking: seq<nat>, limit: nat, j: nat)
    requires IsRanking(items, ranking) && 0 < limit <= |items|
    requires LateRiser(items, limit, Bar(items, ranking, limit), j)
    ensures Kept(items, |items|, limit) != Elems(ranking[..limit])
  {
    forall e: nat | EarliestAt(items, Bar(items, ranking, limit), e) && e < j
      ensures e !in Kept(items, |items|, limit)
    {
      StaysDropped(items, j, limit, Bar(items, ranking, limit), e);
    }
    DropMakesDifference(items, ranking, limit, j, Kept(items, |items|, limit));
  }

  lemma NoRiserMakesNone<T>(items: Scored<T>, ranking: seq<nat>, limit: nat)
    requires IsRanking(items, ranking) && 0 < limit <= |items|
    requires forall j :: 0 <= j < |items| ==> !LateRiser(items, limit, Bar(items, ranking, limit), j)
    ensures Kept(items, |items|, limit) == Elems(ranking[..limit])
  {
    var bar := Bar(items, ranking, limit);
    BarIsReached(items, ranking, limit);
    var m := FirstFull(items, |items|, limit, bar);
    FirstEligibleStay(items, m, |items|, limit, bar);
    TakenAreFirstEligible(items, ranking, limit, m);
  }

  /** The heap keeps what the first `limit` entries of a full sort would be exactly when no item scoring above the
      `limit`-th largest score comes after `limit` items have reached that score. */
  lemma HeapIsSortAndTakeIff<T>(items: Scored<T>, ranking: seq<nat>, limit: nat)
    requires IsRanking(items, ranking) && 0 < limit <= |items|
    ensures Kept(items, |items|, limit) == Elems(ranking[..limit]) <==>
            forall j :: 0 <= j < |items| ==> !LateRiser(items, limit, Bar(items, ranking, limit), j)
  {
    if j :| 0 <= j < |items| && LateRiser(items, limit, Bar(items, ranking, limit), j) {
      RiserMakesDifference(items, ranking, limit, j);
    } else {
      NoRiserMakesNone(items, ranking, limit);
    }
  }

  /** A list of positions in rank order is determined by which positions it holds. */
  lemma {:induction false} RankedListsAgree<T>(items: Scored<T>, a: seq<nat>, b: seq<nat>)
    requires forall i :: 0 <= i < |a| ==> a[i] < |items|
    requires forall i :: 0 <= i < |b| ==> b[i] < |items|
    requires forall i, j :: 0 <= i < j < |a| ==> RankedBefore(items, a[i], a[j])
    requires forall i, j :: 0 <= i < j < |b| ==> RankedBefore(items, b[i], b[j])
    requires forall o :: o in a <==> o in b
    ensures a == b
  {
    assert a != [] ==> a[0] in b;
    assert b != [] ==> b[0] in a;
    if a != [] {
      FirstAgrees(items, a, b);
      var restA, restB := a[1..], b[1..];
      forall o ensures o in restA <==> o in restB {
        RestHolds(a, o);
        RestHolds(b, o);
        NotAgain(items, a);
        NotAgain(items, b);
      }
      RankedListsAgree(items, restA, restB);
      assert a == [a[0]] + restA && b == [b[0]] + restB;
    }
  }

  lemma FirstAgrees<T>(items: Scored<T>, a: seq<nat>, b: seq<nat>)
    requires a != [] && b != []
    requires forall i :: 0 <= i < |a| ==> a[i] < |items|
    requires forall i :: 0 <= i < |b| ==> b[i] < |items|
    requires forall i, j :: 0 <= i < j < |a| ==> RankedBefore(items, a[i], a[j])
    requires forall i, j :: 0 <= i < j < |b| ==> RankedBefore(items, b[i], b[j])
    requires forall o :: o in a <==> o in b
    ensures a[0] == b[0]
  {
    assert a[0] in b && b[0] in a;
    var i :| 0 <= i < |b| && b[i] == a[0];
    var j :| 0 <= j < |a| && a[j] == b[0];
  }

  lemma RestHolds(a: seq<nat>, o: nat)
    requires a != []
    ensures o in a <==> o == a[0] || o in a[1..]
  {
    assert a == [a[0]] + a[1..];
  }

  lemma NotAgain<T>(items: Scored<T>, a: seq<nat>)
    requires a != [] && forall i :: 0 <= i < |a| ==> a[i] < |items|
    requires forall i, j :: 0 <= i < j < |a| ==> RankedBefore(items, a[i], a[j])
    ensures a[0] !in a[1..]
  {
  }

  /** The first `n` positions in rank order. */
  ghost predicate RanksFirst<T>(items: Scored<T>, n: nat, ranking: seq<nat>)
    requires n <= |items|
  {
    && |ranking| == n
    && (forall i :: 0 <= i < n ==> ranking[i] < n)
    && (forall i, j :: 0 <= i < j < n ==> RankedBefore(items, ranking[i], ranking[j]))
  }

  /** The next position goes before the first that scores lower. */
  function PlaceOf<T>(items: Scored<T>, ranking: seq<nat>, score: real): (k: nat)
    requires forall i :: 0 <= i < |ranking| ==> ranking[i] < |items|
    ensures k <= |ranking| && forall i :: 0 <= i < k ==> items[ranking[i]].1 >= score
    ensures k < |ranking| ==> items[ranking[k]].1 < score
  {
    if ranking == [] || items[ranking[0]].1 < score then 0 else 1 + PlaceOf(items, ranking[1..], score)
  }

  lemma NewcomerRanks<T>(items: Scored<T>, n: nat, before: seq<nat>, k: nat, i: nat)
    requires n < |items| && RanksFirst(items, n, before) && k == PlaceOf(items, before, items[n].1) && i < n
    ensures i < k ==> RankedBefore(items, before[i], n)
    ensures i >= k ==> RankedBefore(items, n, before[i])
  {
    if i > k {
      assert RankedBefore(items, before[k], before[i]);
    }
  }

  /** The entry of the longer list that stands at place `i`. */
  function WithNewcomer(before: seq<nat>, n: nat, k: nat, i: nat): nat
    requires k <= |before| && i <= |before|
  {
    if i < k then before[i] else if i == k then n else before[i - 1]
  }

  lemma PlacedRanks<T>(items: Scored<T>, n: nat, before: seq<nat>, k: nat, i: nat, j: nat)
    requires n < |items| && RanksFirst(items, n, before) && k == PlaceOf(items, before, items[n].1)
    requires i < j <= n
    ensures var a, b := WithNewcomer(before, n, k, i), WithNewcomer(before, n, k, j);
            a <= n && b <= n && RankedBefore(items, a, b)
  {
    if i == k {
      NewcomerRanks(items, n, before, k, j - 1);
    } else if j == k {
      NewcomerRanks(items, n, before, k, i);
    } else {
      assert RankedBefore(items, before[if i < k then i else i - 1], before[if j < k then j else j - 1]);
    }
  }

  lemma {:induction false} RankFirst<T>(items: Scored<T>, n: nat) returns (ranking: seq<nat>)
    requires n <= |items|
    ensures RanksFirst(items, n, ranking)
  {
    ranking := [];
    if n > 0 {
      var before := RankFirst(items, n - 1);
      var k := PlaceOf(items, before, items[n - 1].1);
      ranking := before[..k] + [n - 1] + before[k..];
      forall i | 0 <= i < n ensures ranking[i] == WithNewcomer(before, n - 1, k, i) < n {}
      forall i, j | 0 <= i < j < n ensures RankedBefore(items, ranking[i], ranking[j]) {
        PlacedRanks(items, n - 1, before, k, i, j);
      }
    }
  }

  /** Every list has one ranking and no other. */
  lemma OneRanking<T>(items: Scored<T>)
    ensures exists ranking :: IsRanking(items, ranking) && forall other :: IsRanking(items, other) ==> other == ranking
  {
    var ranking := RankFirst(items, |items|);
    assert IsRanking(items, ranking);
    forall other | IsRanking(items, other) ensures other == ranking {
      forall o: nat ensures o in other <==> o in ranking {
        if o < |items| {
          var i := RankingHasAll(items, ranking, o);
          var j := RankingHasAll(items, other, o);
        }
      }
      RankedListsAgree(items, other, ranking);
    }
  }

  /** What is returned, for every list and limit: exactly the first entries of the full sort when there are no more
      items than asked for or there is no late riser, and only then. `order` is what the selection returns. */
  lemma SelectionIsSortAndTakeIff<T>(items: Scored<T>, ranking: seq<nat>, limit: nat, order: seq<nat>)
    requires IsRanking(items, ranking) && IsTop(items, limit, order)
    requires forall o :: o in order <==> o in Kept(items, |items|, limit)
    ensures order == ranking[..Min(limit, |items|)] <==>
              limit == 0 || limit >= |items|
              || forall j :: 0 <= j < |items| ==> !LateRiser(items, limit, Bar(items, ranking, limit), j)
  {
    var taken := ranking[..Min(limit, |items|)];
    if limit >= |items| {
      TopOfAll(items, limit, order);
      assert taken == ranking;
      SortAndTakeIsTop(items, ranking, limit);
      TopOfAll(items, limit, ranking);
      RankedListsAgree(items, order, taken);
    } else if limit > 0 {
      HeapIsSortAndTakeIff(items, ranking, limit);
      if Kept(items, |items|, limit) == Elems(taken) {
        assert forall o :: o in order <==> o in taken;
        RankedListsAgree(items, order, taken);
      }
    }
  }

  /** A top list no shorter than the items holds them all. */
  lemma TopOfAll<T>(items: Scored<T>, limit: nat, order: seq<nat>)
    requires IsTop(items, limit, order) && limit >= |items|
    ensures forall o: nat :: o in order <==> o < |items|
  {
    TopIsDistinct(items, limit, order);
    DistinctSize(order);
    FullRange(|items|, Elems(order));
    assert forall o: nat :: o in order <==> o in Elems(order);
  }

  const TIED: Scored<nat> := [(0, 5.0), (1, 5.0), (2, 7.0)]

  lemma TiedRanking()
    ensures IsRanking(TIED, [2, 0, 1]) && Bar(TIED, [2, 0, 1], 2) == 5.0 && LateRiser(TIED, 2, 5.0, 2)
    ensures Elems([2, 0, 1][..2]) == {0, 2}
  {
    assert Eligible(TIED, 2, 5.0) == {0, 1};
    assert [2, 0, 1][..2] == [2, 0];
  }

  /** The smallest case: of scores 5, 5, 7 the third rises late. The sort takes the third and the first; the heap has
      given up the first and keeps the second and third. */
  lemma BoundaryTieCanFavourLater()
    ensures IsRanking(TIED, [2, 0, 1]) && Elems([2, 0, 1][..2]) == {0, 2}
    ensures Kept(TIED, 3, 2) == {1, 2}
  {
    TiedRanking();
    FullHeapIsEligible(TIED, 2, 2, 5.0);
    assert Eligible(TIED, 2, 5.0) == {0, 1};
    SubsetSize(Kept(TIED, 2, 2), {0, 1});
    TiedLast(Kept(TIED, 2, 2), Kept(TIED, 3, 2));
  }

  lemma TiedLast(kept: set<nat>, next: set<nat>)
    requires kept == {0, 1} && next == Offered(TIED, 2, 2, kept)
    ensures next == {1, 2}
  {
    assert HeapLess(TIED, 0, 1);
    assert IsSmallest(TIED, kept, 0);
    SmallestIsUnique(TIED, kept, 0, Smallest(TIED, kept));
  }

  // ---- Similarity search ----

  type Vector = seq<real>

  function Dot(a: Vector, b: Vector): real
    requires |a| == |b|
  {
    if a == [] then 0.0 else a[0] * b[0] + Dot(a[1..], b[1..])
  }

  /** The product adds up over the coordinates, the last as well as the first. */
  lemma {:induction false} DotSnoc(a: Vector, b: Vector, x: real, y: real)
    requires |a| == |b|
    ensures Dot(a + [x], b + [y]) == Dot(a, b) + x * y
  {
    if a == [] {
      assert ([] + [x])[1..] == [] && ([] + [y])[1..] == [];
    } else {
      assert (a + [x])[1..] == a[1..] + [x] && (b + [y])[1..] == b[1..] + [y];
      DotSnoc(a[1..], b[1..], x, y);
    }
  }

  lemma {:induction false} DotIsSymmetric(a: Vector, b: Vector)
    requires |a| == |b|
    ensures Dot(a, b) == Dot(b, a) && (a == b ==> Dot(a, b) >= 0.0)
  {
    if a != [] {
      DotIsSymmetric(a[1..], b[1..]);
    }
  }

  /** Score of one candidate; a candidate of another dimension scores zero. */
  function Similarity(query: Vector, candidate: Vector): real {
    if |query| == 0 || |candidate| != |query| then 0.0 else Dot(candidate, query)
  }

  /** Only a candidate of the query's dimension scores, and then by its product with the query. */
  lemma SimilarityIs(query: Vector, candidate: Vector)
    ensures |candidate| != |query| ==> Similarity(query, candidate) == 0.0
    ensures |candidate| == |query| ==> Similarity(query, candidate) == Dot(query, candidate)
  {
    if |candidate| == |query| {
      DotIsSymmetric(candidate, query);
    }
  }

  /** The scored positions that reach the threshold, in order. */
  function Passing(query: Vector, candidates: seq<Vector>, threshold: real): Scored<nat> {
    if candidates == [] then []
    else
      var n := |candidates| - 1;
      var score := Similarity(query, candidates[n]);
      Passing(query, candidates[..n], threshold) + if score >= threshold then [(n, score)] else []
  }

  ghost predicate PassesAll(query: Vector, candidates: seq<Vector>, threshold: real, p: Scored<nat>) {
    && (forall i :: 0 <= i < |p| ==>
          p[i].0 < |candidates| && p[i].1 == Similarity(query, candidates[p[i].0]) && p[i].1 >= threshold)
    && (forall i, j :: 0 <= i < j < |p| ==> p[i].0 < p[j].0)
    && (forall c: nat :: c < |candidates| && Similarity(query, candidates[c]) >= threshold ==>
          exists i :: 0 <= i < |p| && p[i].0 == c)
  }

  lemma PassesOneMore(query: Vector, shorter: seq<Vector>, last: Vector, threshold: real, before: Scored<nat>)
    requires PassesAll(query, shorter, threshold, before)
    ensures var score := Similarity(query, last);
            PassesAll(query, shorter + [last], threshold,
                      before + if score >= threshold then [(|shorter|, score)] else [])
  {
    var score, all := Similarity(query, last), shorter + [last];
    var p := before + if score >= threshold then [(|shorter|, score)] else [];
    forall i | 0 <= i < |p|
      ensures p[i].0 < |all| && p[i].1 == Similarity(query, all[p[i].0]) && p[i].1 >= threshold
    {
      assert i < |before| ==> p[i] == before[i];
    }
    forall c: nat | c < |all| && Similarity(query, all[c]) >= threshold
      ensures exists i :: 0 <= i < |p| && p[i].0 == c
    {
      if c < |shorter| {
        var i :| 0 <= i < |before| && before[i].0 == c;
        assert p[i].0 == c;
      } else {
        assert p[|before|].0 == c;
      }
    }
  }

  lemma {:induction false} PassingFacts(query: Vector, candidates: seq<Vector>, threshold: real)
    ensures PassesAll(query, candidates, threshold, Passing(query, candidates, threshold))
  {
    if candidates != [] {
      var n := |candidates| - 1;
      PassingFacts(query, candidates[..n], threshold);
      PassesOneMore(query, candidates[..n], candidates[n], threshold, Passing(query, candidates[..n], threshold));
      assert candidates == candidates[..n] + [candidates[n]];
    }
  }

  /** The candidates at or above the threshold, best first: as many as exist up to the limit, each with its own
      score, and none left out scores higher than one returned. */
  method FindSimilar(query: Vector, candidates: seq<Vector>, threshold: real, limit: nat) returns (found: Scored<nat>)
    ensures |found| == Min(limit, |Passing(query, candidates, threshold)|)
    ensures forall i :: 0 <= i < |found| ==>
              found[i].0 < |candidates| && found[i].1 == Similarity(query, candidates[found[i].0]) >= threshold
    ensures forall i, j :: 0 <= i < j < |found| ==>
              found[i].1 > found[j].1 || (found[i].1 == found[j].1 && found[i].0 < found[j].0)
    ensures forall c: nat, i :: c < |candidates| && Similarity(query, candidates[c]) >= threshold && 0 <= i < |found|
              ==>
              (exists j :: 0 <= j < |found| && found[j].0 == c) || Similarity(query, candidates[c]) <= found[i].1
  {
    var passing := Passing(query, candidates, threshold);
    PassingFacts(query, candidates, threshold);
    ghost var order;
    found, order := TopKScored(passing, limit);
    forall c: nat, i | c < |candidates| && Similarity(query, candidates[c]) >= threshold && 0 <= i < |found|
      ensures (exists j :: 0 <= j < |found| && found[j].0 == c) || Similarity(query, candidates[c]) <= found[i].1
    {
      var p :| 0 <= p < |passing| && passing[p].0 == c;
      if p in order {
        var j :| 0 <= j < |order| && order[j] == p;
        assert found[j].0 == c;
      } else {
        assert passing[p].1 <= passing[order[i]].1;
      }
    }
  }
}
