/** The compaction manager's cache of semantic embeddings. It keeps failed attempts as well as embeddings, so what a
    call returns can differ from what computing it at that moment would have given. */
module SemanticCache {
  import opened Wrappers
  import opened Lru
  import CompactionCore

  const CAPACITY := CompactionCore.SEMANTIC_EMBED_CACHE_CAPACITY

  /** `outcome` is what computing the embedding would give now, None for a failure. */
  method CachedSemanticEmbedding<V>(cache: Cache<Option<V>>, hash: string -> Key, text: string, outcome: Option<V>)
    returns (embedding: Option<V>)
    requires cache.capacity == CAPACITY
    modifies cache
    ensures embedding == Answer(old(cache.View()), hash(text), outcome)
    ensures var was, k := old(cache.View()), hash(text);
            if k in was.entries then cache.View() == Touched(was, k)
            else InsertedSome(was, k, outcome, CAPACITY, cache.View())
  {
    var key := hash(text);
    var hit := cache.Lookup(key);
    if hit.Some? {
      return hit.value;
    }
    embedding := outcome;
    cache.Insert(key, embedding);
  }

  // ---- Runs ----

  // `oldest` is the entry that makes room when there is none; a restore clears the cache and its counter.
  datatype Call<V> = Ask(key: Key, outcome: Option<V>, oldest: Key) | Clear

  function Answer<V>(s: State<Option<V>>, k: Key, outcome: Option<V>): Option<V> {
    if k in s.entries then s.entries[k].value else outcome
  }

  predicate Misses<V>(s: State<Option<V>>, c: Call<V>) {
    c.Ask? && c.key !in s.entries
  }

  ghost predicate Enabled<V>(s: State<Option<V>>, c: Call<V>) {
    Misses(s, c) ==> MayGo(s, CAPACITY, c.oldest)
  }

  function Step<V>(s: State<Option<V>>, c: Call<V>): State<Option<V>> {
    match c
    case Clear => State(map[], 0)
    case Ask(k, outcome, oldest) =>
      if k in s.entries then Touched(s, k) else InsertedEvicting(s, k, outcome, CAPACITY, oldest)
  }

  ghost function After<V>(calls: seq<Call<V>>): Option<State<Option<V>>> {
    if calls == [] then Some(State(map[], 0))
    else
      var before, c := After(calls[..|calls| - 1]), calls[|calls| - 1];
      if before.Some? && Enabled(before.value, c) then Some(Step(before.value, c)) else None
  }

  /** The outcome of the last call for the key that was computed rather than answered from the cache. */
  ghost function LastComputed<V>(calls: seq<Call<V>>, k: Key): Option<Option<V>>
    requires After(calls).Some?
  {
    if calls == [] then None
    else
      var before, c := calls[..|calls| - 1], calls[|calls| - 1];
      if c.Ask? && c.key == k && Misses(After(before).value, c) then Some(c.outcome) else LastComputed(before, k)
  }

  /** Over every run the cache holds, for each key it has, the outcome that was last computed for it. */
  lemma {:induction false} HoldsLastComputed<V>(calls: seq<Call<V>>, k: Key)
    requires After(calls).Some? && k in After(calls).value.entries
    ensures LastComputed(calls, k) == Some(After(calls).value.entries[k].value)
  {
    if calls != [] {
      var before, c := calls[..|calls| - 1], calls[|calls| - 1];
      if !(c.Ask? && c.key == k && Misses(After(before).value, c)) {
        HoldsLastComputed(before, k);
      }
    }
  }

  /** Over every run, a call returns what computing would give at that moment exactly when the key is not cached or its
      last computed outcome was the same: an earlier failure hides a present success, and the other way round. */
  lemma AnswerIsCurrentIff<V>(calls: seq<Call<V>>, k: Key, outcome: Option<V>)
    requires After(calls).Some?
    ensures var s := After(calls).value;
            Answer(s, k, outcome) == outcome <==> k !in s.entries || LastComputed(calls, k) == Some(outcome)
  {
    if k in After(calls).value.entries {
      HoldsLastComputed(calls, k);
    }
  }

  /** The call removes the key: it clears the cache, or makes room by that entry. */
  ghost predicate Removes<V>(s: State<Option<V>>, c: Call<V>, k: Key) {
    c.Clear? || (Misses(s, c) && |s.entries| >= CAPACITY && c.oldest == k)
  }

  ghost predicate NeverRemoves<V>(calls: seq<Call<V>>, later: seq<Call<V>>, k: Key)
    requires After(calls + later).Some?
    decreases |later|
  {
    later == []
    || (var shorter := later[..|later| - 1];
        assert (calls + later)[..|calls + later| - 1] == calls + shorter;
        NeverRemoves(calls, shorter, k) && !Removes(After(calls + shorter).value, later[|later| - 1], k))
  }

  lemma StepKeepsKeyIff<V>(s: State<Option<V>>, c: Call<V>, k: Key)
    requires Enabled(s, c) && k in s.entries
    ensures k in Step(s, c).entries <==> !Removes(s, c, k)
    ensures k in Step(s, c).entries ==> Step(s, c).entries[k].value == s.entries[k].value
  {
  }

  /** A cached outcome, failures included, is what every call for the key returns until the key is evicted or the cache
      cleared, whatever computing it would give meanwhile. */
  lemma {:induction false} CachedOutcomeStays<V>(calls: seq<Call<V>>, later: seq<Call<V>>, k: Key, outcome: Option<V>)
    requires After(calls).Some? && After(calls + later).Some? && k in After(calls).value.entries
    requires NeverRemoves(calls, later, k)
    ensures k in After(calls + later).value.entries
    ensures Answer(After(calls + later).value, k, outcome) == After(calls).value.entries[k].value
    decreases |later|
  {
    if later == [] {
      assert calls + later == calls;
    } else {
      var shorter := later[..|later| - 1];
      assert (calls + later)[..|calls + later| - 1] == calls + shorter;
      CachedOutcomeStays(calls, shorter, k, outcome);
      StepKeepsKeyIff(After(calls + shorter).value, later[|later| - 1], k);
    }
  }

  /** A failed first attempt answers the next call for the same key although it could be computed by then. */
  lemma FailureIsRemembered<V>(k: Key, value: V, oldest: Key)
    ensures var calls: seq<Call<V>> := [Ask(k, None, oldest)];
            After(calls).Some? && Answer(After(calls).value, k, Some(value)) == None
  {
    var calls: seq<Call<V>> := [Ask(k, None, oldest)];
    assert calls[..0] == [];
    assert Enabled(State(map[], 0), calls[0]);
  }

  // ---- Computing that never changes its mind ----

  ghost predicate Steady<V>(calls: seq<Call<V>>, compute: Key -> Option<V>) {
    forall i :: 0 <= i < |calls| && calls[i].Ask? ==> calls[i].outcome == compute(calls[i].key)
  }

  lemma {:induction false} SteadyHolds<V>(calls: seq<Call<V>>, compute: Key -> Option<V>, k: Key)
    requires After(calls).Some? && Steady(calls, compute) && k in After(calls).value.entries
    ensures After(calls).value.entries[k].value == compute(k)
  {
    if calls != [] {
      var before, c := calls[..|calls| - 1], calls[|calls| - 1];
      if !(c.Ask? && c.key == k && Misses(After(before).value, c)) {
        SteadyHolds(before, compute, k);
      }
    }
  }

  /** When the outcome depends on the key alone, hits and misses both return what computing would give. */
  lemma SteadyAnswersAreCurrent<V>(calls: seq<Call<V>>, compute: Key -> Option<V>, k: Key)
    requires After(calls).Some? && Steady(calls, compute)
    ensures Answer(After(calls).value, k, compute(k)) == compute(k)
  {
    if k in After(calls).value.entries {
      SteadyHolds(calls, compute, k);
    }
  }
}
