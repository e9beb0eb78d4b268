/** The memory benchmark's two small algorithms: the set of processes below some roots, and the answering of terminal
    queries until none is left in the buffer. */
module BenchMemory {

  // ---- Process tree ----

  type Pid = int

  /** One process and its parent, as read from the process table. */
  datatype Proc = Proc(pid: Pid, parent: Pid)

  function ChildrenIn(procs: seq<Proc>, parent: Pid): seq<Pid> {
    if procs == [] then []
    else
      var rest, last := ChildrenIn(procs[..|procs| - 1], parent), procs[|procs| - 1];
      if last.parent == parent then rest + [last.pid] else rest
  }

  lemma {:induction false} ChildrenAre(procs: seq<Proc>, parent: Pid, p: Pid)
    ensures p in ChildrenIn(procs, parent) <==> Proc(p, parent) in procs
  {
    if procs != [] {
      ChildrenAre(procs[..|procs| - 1], parent, p);
      assert procs == procs[..|procs| - 1] + [procs[|procs| - 1]];
    }
  }

  /** Some root is reached from `p` by going to the parent exactly `n` times. */
  ghost predicate BelowRoot(procs: seq<Proc>, roots: seq<Pid>, p: Pid, n: nat)
    decreases n
  {
    if n == 0 then p in roots
    else exists parent :: Proc(p, parent) in procs && BelowRoot(procs, roots, parent, n - 1)
  }

  ghost predicate Reachable(procs: seq<Proc>, roots: seq<Pid>, p: Pid) {
    exists n: nat :: BelowRoot(procs, roots, p, n)
  }

  lemma ChildIsReachable(procs: seq<Proc>, roots: seq<Pid>, parent: Pid, p: Pid)
    requires Reachable(procs, roots, parent) && Proc(p, parent) in procs
    ensures Reachable(procs, roots, p)
  {
    var n: nat :| BelowRoot(procs, roots, parent, n);
    assert BelowRoot(procs, roots, p, n + 1);
  }

  /** A set that holds the roots and the children of its members. */
  ghost predicate ClosedUnderChildren(procs: seq<Proc>, roots: seq<Pid>, pids: set<Pid>) {
    && (forall p :: p in roots ==> p in pids)
    && (forall k :: 0 <= k < |procs| && procs[k].parent in pids ==> procs[k].pid in pids)
  }

  lemma {:induction false} ClosedHoldsBelow(procs: seq<Proc>, roots: seq<Pid>, pids: set<Pid>, p: Pid, n: nat)
    requires ClosedUnderChildren(procs, roots, pids) && BelowRoot(procs, roots, p, n)
    ensures p in pids
    decreases n
  {
    if n > 0 {
      var parent :| Proc(p, parent) in procs && BelowRoot(procs, roots, parent, n - 1);
      ClosedHoldsBelow(procs, roots, pids, parent, n - 1);
      var k :| 0 <= k < |procs| && procs[k] == Proc(p, parent);
      assert procs[k].parent in pids;
    }
  }

  function Pids(procs: seq<Proc>, roots: seq<Pid>): set<Pid> {
    (set p | p in roots) + (set e | e in procs :: e.pid)
  }

  method GroupByParent(procs: seq<Proc>) returns (children: map<Pid, seq<Pid>>)
    ensures forall q :: (if q in children then children[q] else []) == ChildrenIn(procs, q)
  {
    children := map[];
    for i := 0 to |procs|
      invariant forall q :: (if q in children then children[q] else []) == ChildrenIn(procs[..i], q)
    {
      assert procs[..i + 1][..i] == procs[..i];
      var e := procs[i];
      if e.parent !in children {
        children := children[e.parent := []];
      }
      children := children[e.parent := children[e.parent] + [e.pid]];
    }
    assert procs[..|procs|] == procs;
  }

  /** Everything below the roots, roots included and nothing else, whatever the parent table looks like: it may be
      cyclic, and a root need not be a listed process. */
  method CollectDescendants(procs: seq<Proc>, roots: seq<Pid>) returns (seen: set<Pid>)
    ensures forall p :: p in seen <==> Reachable(procs, roots, p)
  {
    var children := GroupByParent(procs);
    seen := {};
    var stack := roots;
    forall p | p in roots ensures Reachable(procs, roots, p) {
      assert BelowRoot(procs, roots, p, 0);
    }
    while stack != []
      invariant forall p :: p in seen || p in stack ==> Reachable(procs, roots, p) && p in Pids(procs, roots)
      invariant forall p :: p in roots ==> p in seen || p in stack
      invariant forall k :: 0 <= k < |procs| && procs[k].parent in seen ==>
              procs[k].pid in seen || procs[k].pid in stack
      decreases |Pids(procs, roots) - seen|, |stack|
    {
      var pid := stack[|stack| - 1];
      ghost var below := stack[..|stack| - 1];
      assert stack == below + [pid];
      stack := stack[..|stack| - 1];
      if pid in seen {
        continue;
      }
      var found := if pid in children then children[pid] else [];
      Discover(procs, roots, pid, found);
      Shrinks(Pids(procs, roots), seen, pid);
      seen := seen + {pid};
      stack := stack + found;
    }
    Complete(procs, roots, seen);
  }

  lemma Discover(procs: seq<Proc>, roots: seq<Pid>, pid: Pid, found: seq<Pid>)
    requires Reachable(procs, roots, pid) && found == ChildrenIn(procs, pid)
    ensures forall p :: p in found ==> Reachable(procs, roots, p) && p in Pids(procs, roots)
    ensures forall k :: 0 <= k < |procs| && procs[k].parent == pid ==> procs[k].pid in found
  {
    forall p | p in found ensures Reachable(procs, roots, p) && p in Pids(procs, roots) {
      ChildrenAre(procs, pid, p);
      ChildIsReachable(procs, roots, pid, p);
      assert Proc(p, pid).pid in set e | e in procs :: e.pid;
    }
    forall k | 0 <= k < |procs| && procs[k].parent == pid ensures procs[k].pid in found {
      ChildrenAre(procs, pid, procs[k].pid);
      assert procs[k] == Proc(procs[k].pid, pid);
    }
  }

  lemma Shrinks(all: set<Pid>, seen: set<Pid>, pid: Pid)
    requires pid in all && pid !in seen
    ensures |all - (seen + {pid})| < |all - seen|
  {
    assert all - seen == (all - (seen + {pid})) + {pid};
  }

  lemma Complete(procs: seq<Proc>, roots: seq<Pid>, pids: set<Pid>)
    requires ClosedUnderChildren(procs, roots, pids)
    ensures forall p :: Reachable(procs, roots, p) ==> p in pids
  {
    forall p | Reachable(procs, roots, p) ensures p in pids {
      var n: nat :| BelowRoot(procs, roots, p, n);
      ClosedHoldsBelow(procs, roots, pids, p, n);
    }
  }

  // ---- Terminal queries ----

  type Bytes = seq<bv8>

  datatype Query = Query(ask: Bytes, answer: Bytes)

  predicate StartsWith(buffer: Bytes, pattern: Bytes) {
    |pattern| <= |buffer| && buffer[..|pattern|] == pattern
  }

  predicate Occurs(buffer: Bytes, pattern: Bytes) {
    StartsWith(buffer, pattern) || (buffer != [] && Occurs(buffer[1..], pattern))
  }

  /** Every occurrence removed, from the left, without looking again at what moves together. */
  function Without(buffer: Bytes, pattern: Bytes): Bytes
    requires pattern != []
  {
    if buffer == [] then []
    else if StartsWith(buffer, pattern) then Without(buffer[|pattern|..], pattern)
    else [buffer[0]] + Without(buffer[1..], pattern)
  }

  /** Removing shortens the buffer exactly when there is something to remove. */
  lemma {:induction false} WithoutFacts(buffer: Bytes, pattern: Bytes)
    requires pattern != []
    ensures |Without(buffer, pattern)| <= |buffer|
    ensures Occurs(buffer, pattern) <==> |Without(buffer, pattern)| < |buffer|
    ensures !Occurs(buffer, pattern) ==> Without(buffer, pattern) == buffer
    decreases |buffer|
  {
    if buffer != [] {
      if StartsWith(buffer, pattern) {
        WithoutFacts(buffer[|pattern|..], pattern);
      } else {
        WithoutFacts(buffer[1..], pattern);
        assert buffer == [buffer[0]] + buffer[1..];
      }
    }
  }

  /** The pattern stands at place `i`. */
  predicate StandsAt(buffer: Bytes, pattern: Bytes, i: nat) {
    i + |pattern| <= |buffer| && buffer[i..i + |pattern|] == pattern
  }

  lemma {:induction false} OccursIffStands(buffer: Bytes, pattern: Bytes)
    ensures Occurs(buffer, pattern) <==> exists i: nat :: StandsAt(buffer, pattern, i)
  {
    if StartsWith(buffer, pattern) {
      assert StandsAt(buffer, pattern, 0);
    } else if buffer != [] {
      OccursIffStands(buffer[1..], pattern);
      if i: nat :| StandsAt(buffer[1..], pattern, i) {
        assert StandsAt(buffer, pattern, i + 1);
      }
      if i: nat :| StandsAt(buffer, pattern, i) {
        assert i > 0 && StandsAt(buffer[1..], pattern, i - 1);
      }
    }
  }

  lemma StandsFurtherOn(buffer: Bytes, pattern: Bytes, i: nat)
    requires buffer != []
    ensures StandsAt(buffer[1..], pattern, i) <==> StandsAt(buffer, pattern, i + 1)
  {
    assert i + 1 + |pattern| <= |buffer| ==> buffer[1..][i..i + |pattern|] == buffer[i + 1..i + 1 + |pattern|];
  }

  predicate FirstAt(buffer: Bytes, pattern: Bytes, i: nat) {
    StandsAt(buffer, pattern, i) && forall j :: 0 <= j < i ==> !StandsAt(buffer, pattern, j)
  }

  lemma FirstFurtherOn(buffer: Bytes, pattern: Bytes, i: nat)
    requires i > 0 && FirstAt(buffer, pattern, i)
    ensures FirstAt(buffer[1..], pattern, i - 1) && !StartsWith(buffer, pattern)
  {
    assert !StandsAt(buffer, pattern, 0);
    StandsFurtherOn(buffer, pattern, i - 1);
    forall j | 0 <= j < i - 1 ensures !StandsAt(buffer[1..], pattern, j) {
      StandsFurtherOn(buffer, pattern, j);
    }
  }

  /** What removal leaves: the bytes up to the first place where the pattern stands, and then what it leaves of the
      bytes behind it. So every occurrence goes, from the left, and nothing else. */
  lemma {:induction false} WithoutSkipsFirst(buffer: Bytes, pattern: Bytes, i: nat)
    requires pattern != [] && FirstAt(buffer, pattern, i)
    ensures Without(buffer, pattern) == buffer[..i] + Without(buffer[i + |pattern|..], pattern)
  {
    if i > 0 {
      FirstFurtherOn(buffer, pattern, i);
      WithoutSkipsFirst(buffer[1..], pattern, i - 1);
      assert buffer[1..][i - 1 + |pattern|..] == buffer[i + |pattern|..];
      assert [buffer[0]] + buffer[1..][..i - 1] == buffer[..i];
    }
  }

  predicate HasQuery(queries: seq<Query>, buffer: Bytes) {
    exists k :: 0 <= k < |queries| && Occurs(buffer, queries[k].ask)
  }

  predicate Indices(queries: seq<Query>, asked: seq<nat>) {
    forall j :: 0 <= j < |asked| ==> asked[j] < |queries| && queries[asked[j]].ask != []
  }

  /** What is left of the buffer when the queries of the given indices are removed one after the other. */
  function Removed(queries: seq<Query>, buffer: Bytes, asked: seq<nat>): Bytes
    requires Indices(queries, asked)
  {
    if asked == [] then buffer
    else Without(Removed(queries, buffer, asked[..|asked| - 1]), queries[asked[|asked| - 1]].ask)
  }

  /** Each of them was in the buffer when its turn came. */
  predicate EachOccurred(queries: seq<Query>, buffer: Bytes, asked: seq<nat>)
    requires Indices(queries, asked)
  {
    forall j :: 0 <= j < |asked| ==> Occurs(Removed(queries, buffer, asked[..j]), queries[asked[j]].ask)
  }

  lemma AskedSnoc(queries: seq<Query>, buffer: Bytes, asked: seq<nat>, k: nat)
    requires Indices(queries, asked) && k < |queries| && queries[k].ask != []
    ensures Removed(queries, buffer, asked + [k]) == Without(Removed(queries, buffer, asked), queries[k].ask)
    ensures EachOccurred(queries, buffer, asked) && Occurs(Removed(queries, buffer, asked), queries[k].ask) ==>
              EachOccurred(queries, buffer, asked + [k])
  {
    var longer := asked + [k];
    assert longer[..|asked|] == asked;
    forall j | 0 <= j < |asked| ensures longer[..j] == asked[..j] {}
  }

  /** Each answer goes out for a query that was there and is removed with all its copies; this goes on until no query is
      left, not even one that removal put together, and it ends for any buffer. */
  method ReplyQueries(queries: seq<Query>, input: Bytes)
    returns (buffer: Bytes, written: seq<Bytes>, ghost asked: seq<nat>)
    requires forall k :: 0 <= k < |queries| ==> queries[k].ask != []
    ensures !HasQuery(queries, buffer)
    ensures Indices(queries, asked) && EachOccurred(queries, input, asked)
    ensures buffer == Removed(queries, input, asked)
    ensures |written| == |asked| && forall j :: 0 <= j < |asked| ==> written[j] == queries[asked[j]].answer
    ensures |buffer| + |written| <= |input|
  {
    buffer, written, asked := input, [], [];
    var changed := true;
    while changed
      invariant !changed ==> !HasQuery(queries, buffer)
      invariant Indices(queries, asked) && EachOccurred(queries, input, asked)
              && buffer == Removed(queries, input, asked)
      invariant |written| == |asked| && forall j :: 0 <= j < |asked| ==> written[j] == queries[asked[j]].answer
      invariant |buffer| + |written| <= |input|
      decreases |buffer|, changed
    {
      changed := false;
      ghost var start := buffer;
      for k := 0 to |queries|
        invariant Indices(queries, asked) && EachOccurred(queries, input, asked)
                && buffer == Removed(queries, input, asked)
        invariant |written| == |asked| && forall j :: 0 <= j < |asked| ==> written[j] == queries[asked[j]].answer
        invariant |buffer| + |written| <= |input|
        invariant if changed then |buffer| < |start| else buffer == start
        invariant !changed ==> forall j :: 0 <= j < k ==> !Occurs(buffer, queries[j].ask)
      {
        if Occurs(buffer, queries[k].ask) {
          WithoutFacts(buffer, queries[k].ask);
          AskedSnoc(queries, input, asked, k);
          written := written + [queries[k].answer];
          asked := asked + [k];
          buffer := Without(buffer, queries[k].ask);
          changed := true;
        }
      }
    }
  }
}
