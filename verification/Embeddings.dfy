/** The process-wide embedder and its stamped cache, whose lookup and insertion are separate critical sections that
    other threads may come between. */
module Embeddings {
  import opened Wrappers
  import opened Lru

  const EMBEDDING_CACHE_CAPACITY: nat := 128

  /** The value is the embedding of one of the texts that have this key. */
  ghost predicate Sourced<V>(value: V, k: Key, texts: set<string>, hash: string -> Key, compute: string -> V) {
    exists text :: text in texts && hash(text) == k && value == compute(text)
  }

  ghost predicate AllSourced<V>(entries: map<Key, Entry<V>>, texts: set<string>, hash: string -> Key,
                                compute: string -> V) {
    forall k :: k in entries ==> Sourced(entries[k].value, k, texts, hash, compute)
  }

  /** Those of the texts that have the key of `text` have its embedding. */
  ghost predicate CollisionsHarmless<V>(texts: set<string>, hash: string -> Key, compute: string -> V, text: string) {
    forall other :: other in texts && hash(other) == hash(text) ==> compute(other) == compute(text)
  }

  // ---- What the mutex protects, and one function per critical section ----

  datatype Shared<V> = Shared(
    lru: State<V>,
    loaded: bool,
    loadError: Option<string>,
    lastUsedAt: Option<nat>,
    loads: nat,
    unloads: nat,
    calls: nat,
    failures: nat,
    hits: nat)

  datatype ModelAnswer = Model | LoadFailed(message: string)

  function LookedUp<V>(g: Shared<V>, k: Key, now: nat): Shared<V> {
    if k in g.lru.entries then g.(lru := Touched(g.lru, k), hits := g.hits + 1, lastUsedAt := Some(now)) else g
  }

  /** `failure` is what loading the model would fail with now, if it were tried. */
  function ModelAsked<V>(g: Shared<V>, failure: Option<string>, now: nat): Shared<V> {
    var used := g.(lastUsedAt := Some(now));
    if g.loaded || g.loadError.Some? then used
    else if failure.Some? then used.(loadError := failure)
    else used.(loaded := true, loads := g.loads + 1)
  }

  function ModelAnswered<V>(g: Shared<V>, failure: Option<string>): ModelAnswer {
    if g.loaded then Model
    else if g.loadError.Some? then LoadFailed(g.loadError.value)
    else if failure.Some? then LoadFailed(failure.value)
    else Model
  }

  ghost function Stored<V>(g: Shared<V>, k: Key, result: Option<V>, now: nat): Shared<V> {
    var counted := g.(calls := g.calls + 1, lastUsedAt := Some(now));
    if result.None? then counted.(failures := g.failures + 1)
    else counted.(lru := Inserted(g.lru, k, result.value, EMBEDDING_CACHE_CAPACITY))
  }

  function StoredEvicting<V>(g: Shared<V>, k: Key, result: Option<V>, now: nat, oldest: Key): Shared<V> {
    var counted := g.(calls := g.calls + 1, lastUsedAt := Some(now));
    if result.None? then counted.(failures := g.failures + 1)
    else counted.(lru := InsertedEvicting(g.lru, k, result.value, EMBEDDING_CACHE_CAPACITY, oldest))
  }

  /** The same whichever of several oldest entries made room. */
  ghost predicate StoredSome<V>(g: Shared<V>, k: Key, result: Option<V>, now: nat, g': Shared<V>) {
    var counted := g.(calls := g.calls + 1, lastUsedAt := Some(now));
    if result.None? then g' == counted.(failures := g.failures + 1)
    else InsertedSome(g.lru, k, result.value, EMBEDDING_CACHE_CAPACITY, g'.lru) && g' == counted.(lru := g'.lru)
  }

  function Unloaded<V>(g: Shared<V>): Shared<V> {
    if g.loaded then g.(loaded := false, unloads := g.unloads + 1, lru := g.lru.(entries := map[])) else g
  }

  predicate IdleEnough<V>(g: Shared<V>, idleFor: nat, now: nat) {
    g.loaded && g.lastUsedAt.Some? && Monus(now, g.lastUsedAt.value) >= idleFor
  }

  class EmbedderCache<V> {
    const lru: Cache<V>
    var loaded: bool
    var loadError: Option<string>
    var lastUsedAt: Option<nat>
    var loadCount: nat
    var unloadCount: nat
    var embedCalls: nat
    var embedFailures: nat
    var cacheHits: nat

    function View(): Shared<V>
      reads this, lru
    {
      Shared(lru.View(), loaded, loadError, lastUsedAt, loadCount, unloadCount, embedCalls, embedFailures, cacheHits)
    }

    constructor ()
      ensures View() == Shared(State(map[], 0), false, None, None, 0, 0, 0, 0, 0)
      ensures lru.capacity == EMBEDDING_CACHE_CAPACITY && fresh(lru)
    {
      lru := new Cache(EMBEDDING_CACHE_CAPACITY);
      loaded, loadError, lastUsedAt := false, None, None;
      loadCount, unloadCount, embedCalls, embedFailures, cacheHits := 0, 0, 0, 0, 0;
    }

    method LookUp(textHash: Key, now: nat) returns (hit: Option<V>)
      modifies this, lru
      ensures hit == (if textHash in old(lru.entries) then Some(old(lru.entries)[textHash].value) else None)
      ensures View() == LookedUp(old(View()), textHash, now)
    {
      hit := lru.Lookup(textHash);
      if hit.Some? {
        cacheHits := cacheHits + 1;
        lastUsedAt := Some(now);
      }
    }

    method GetEmbedder(failure: Option<string>, now: nat) returns (answer: ModelAnswer)
      modifies this
      ensures answer == ModelAnswered(old(View()), failure)
      ensures View() == ModelAsked(old(View()), failure, now)
    {
      lastUsedAt := Some(now);
      if loaded {
        return Model;
      }
      if loadError.Some? {
        return LoadFailed(loadError.value);
      }
      if failure.Some? {
        loadError := failure;
        return LoadFailed(failure.value);
      }
      loaded := true;
      loadError := None;
      loadCount := loadCount + 1;
      return Model;
    }

    method Store(textHash: Key, result: Option<V>, now: nat)
      requires lru.capacity == EMBEDDING_CACHE_CAPACITY
      modifies this, lru
      ensures StoredSome(old(View()), textHash, result, now, View())
      ensures StampsDistinct(old(lru.View())) ==> View() == Stored(old(View()), textHash, result, now)
    {
      embedCalls := embedCalls + 1;
      lastUsedAt := Some(now);
      if result.Some? {
        lru.Insert(textHash, result.value);
      } else {
        embedFailures := embedFailures + 1;
      }
    }

    method UnloadNow() returns (unloaded: bool)
      modifies this, lru
      ensures unloaded == old(loaded)
      ensures View() == Unloaded(old(View()))
    {
      unloaded := false;
      if loaded {
        loaded := false;
        unloadCount := unloadCount + 1;
        lru.Clear();
        unloaded := true;
      }
    }

    method MaybeUnloadIfIdle(idleFor: nat, now: nat) returns (unloaded: bool)
      modifies this, lru
      ensures unloaded == IdleEnough(old(View()), idleFor, now)
      ensures View() == if unloaded then Unloaded(old(View())) else old(View())
    {
      if !loaded || lastUsedAt.None? {
        return false;
      }
      if Monus(now, lastUsedAt.value) < idleFor {
        return false;
      }
      loaded := false;
      unloadCount := unloadCount + 1;
      lru.Clear();
      return true;
    }
  }

  // ---- Threads between the critical sections ----

  datatype Pc<V> =
    | Looking(text: string)
    | NeedsModel(text: string)
    | Computing(text: string)
    | Storing(text: string, result: Option<V>)
    | Returned(text: string, result: Option<V>)

  // `recent` is the recency list that the stamped map stands for.
  datatype Embedder<V> = Embedder(g: Shared<V>, recent: Recency<V>, threads: map<nat, Pc<V>>)

  datatype Event =
    | Call(t: nat, text: string)
    | LookUp(t: nat, now: nat)
    | GetModel(t: nat, failure: Option<string>, now: nat)
    | Compute(t: nat, ok: bool)
    | Store(t: nat, now: nat, oldest: Key)
    | UnloadNow
    | UnloadIfIdle(idleFor: nat, now: nat)

  function Blank<V>(): Embedder<V> {
    Embedder(Shared(State(map[], 0), false, None, None, 0, 0, 0, 0, 0), [], map[])
  }

  /** Any entry with the smallest stamp may make room: after the counter has wrapped there may be several. */
  ghost predicate Enabled<V>(s: Embedder<V>, e: Event) {
    match e
    case Call(t, _) => t !in s.threads || s.threads[t].Returned?
    case LookUp(t, _) => t in s.threads && s.threads[t].Looking?
    case GetModel(t, _, _) => t in s.threads && s.threads[t].NeedsModel?
    case Compute(t, _) => t in s.threads && s.threads[t].Computing?
    case Store(t, _, oldest) =>
      t in s.threads && s.threads[t].Storing? && MayGo(s.g.lru, EMBEDDING_CACHE_CAPACITY, oldest)
    case UnloadNow => true
    case UnloadIfIdle(_, _) => true
  }

  function At<V>(s: Embedder<V>, t: nat, pc: Pc<V>): Embedder<V> {
    s.(threads := s.threads[t := pc])
  }

  ghost function Step<V>(s: Embedder<V>, e: Event, hash: string -> Key, compute: string -> V): Embedder<V>
    requires Enabled(s, e)
  {
    match e
    case Call(t, text) => At(s, t, Looking(text))
    case LookUp(t, now) =>
      var text := s.threads[t].text;
      var k := hash(text);
      if k in s.g.lru.entries then
        var value := s.g.lru.entries[k].value;
        At(s, t, Returned(text, Some(value))).(g := LookedUp(s.g, k, now), recent := MovedToFront(s.recent, k, value))
      else At(s, t, NeedsModel(text)).(g := LookedUp(s.g, k, now))
    case GetModel(t, failure, now) =>
      var text := s.threads[t].text;
      At(s, t, if ModelAnswered(s.g, failure).Model? then Computing(text) else Returned(text, None)).(
        g := ModelAsked(s.g, failure, now))
    case Compute(t, ok) =>
      var text := s.threads[t].text;
      At(s, t, Storing(text, if ok then Some(compute(text)) else None))
    case Store(t, now, oldest) =>
      var text, result := s.threads[t].text, s.threads[t].result;
      var k := hash(text);
      At(s, t, Returned(text, result)).(
        g := StoredEvicting(s.g, k, result, now, oldest),
        recent := if result.None? then s.recent else PutInFront(s.recent, k, result.value, EMBEDDING_CACHE_CAPACITY))
    case UnloadNow => Emptied(s)
    case UnloadIfIdle(idleFor, now) => if IdleEnough(s.g, idleFor, now) then Emptied(s) else s
  }

  function Emptied<V>(s: Embedder<V>): Embedder<V> {
    s.(g := Unloaded(s.g), recent := if s.g.loaded then [] else s.recent)
  }

  ghost function After<V>(events: seq<Event>, hash: string -> Key, compute: string -> V): Option<Embedder<V>> {
    if events == [] then Some(Blank())
    else
      var before, e := After(events[..|events| - 1], hash, compute), events[|events| - 1];
      if before.Some? && Enabled(before.value, e) then Some(Step(before.value, e, hash, compute)) else None
  }

  /** The texts that calls of the run asked for. */
  ghost function Asked(events: seq<Event>): set<string> {
    if events == [] then {} else Asked(events[..|events| - 1]) + AskedBy(events[|events| - 1])
  }

  function AskedBy(e: Event): set<string> {
    if e.Call? then {e.text} else {}
  }

  // ---- The map is the recency list ----

  ghost predicate ListInv<V>(s: Embedder<V>) {
    Refines(s.g.lru, s.recent) && |s.recent| <= EMBEDDING_CACHE_CAPACITY
  }

  lemma LookUpKeepsList<V>(s: Embedder<V>, e: Event, hash: string -> Key, compute: string -> V)
    requires ListInv(s) && e.LookUp? && Enabled(s, e) && s.g.lru.counter + 1 < U64
    ensures ListInv(Step(s, e, hash, compute))
  {
    var k := hash(s.threads[e.t].text);
    if k in s.g.lru.entries {
      TouchRefines(s.g.lru, s.recent, k);
      LookupAgrees(s.g.lru.entries, s.recent, s.g.lru.counter, k);
      FoundShrinks(s.recent, k);
    }
  }

  lemma StoreKeepsList<V>(s: Embedder<V>, e: Event, hash: string -> Key, compute: string -> V)
    requires ListInv(s) && e.Store? && Enabled(s, e) && s.g.lru.counter + 1 < U64
    ensures ListInv(Step(s, e, hash, compute))
  {
    var k, result := hash(s.threads[e.t].text), s.threads[e.t].result;
    if result.Some? {
      EvictingIsSome(s.g.lru, k, result.value, EMBEDDING_CACHE_CAPACITY, e.oldest);
      RefinesFacts(s.g.lru, s.recent);
      SomeIsInserted(s.g.lru, k, result.value, EMBEDDING_CACHE_CAPACITY,
                     InsertedEvicting(s.g.lru, k, result.value, EMBEDDING_CACHE_CAPACITY, e.oldest));
      InsertRefines(s.g.lru, s.recent, k, result.value, EMBEDDING_CACHE_CAPACITY);
    }
  }

  lemma StepKeepsList<V>(s: Embedder<V>, e: Event, hash: string -> Key, compute: string -> V)
    requires ListInv(s) && Enabled(s, e) && s.g.lru.counter + 1 < U64
    ensures ListInv(Step(s, e, hash, compute))
    ensures Step(s, e, hash, compute).g.lru.counter <= s.g.lru.counter + 1
  {
    match e {
      case LookUp(_, _) => LookUpKeepsList(s, e, hash, compute);
      case Store(_, _, _) => StoreKeepsList(s, e, hash, compute);
      case _ =>
    }
  }

  /** In every interleaving of any number of threads with unloads, whatever the hash, the stamped map is the recency
      list within its capacity. */
  lemma {:induction false} EmbedderOverRuns<V>(events: seq<Event>, hash: string -> Key, compute: string -> V)
    requires |events| < U64 && After(events, hash, compute).Some?
    ensures var s := After(events, hash, compute).value;
            && ListInv(s) && s.g.lru.counter <= |events|
            && |s.g.lru.entries| == |s.recent| <= EMBEDDING_CACHE_CAPACITY
  {
    if events != [] {
      var before := events[..|events| - 1];
      EmbedderOverRuns(before, hash, compute);
      StepKeepsList(After(before, hash, compute).value, events[|events| - 1], hash, compute);
    }
    RefinesFacts(After(events, hash, compute).value.g.lru, After(events, hash, compute).value.recent);
  }

  // ---- Whose embedding a call returns ----

  ghost predicate ThreadSourced<V>(pc: Pc<V>, texts: set<string>, hash: string -> Key, compute: string -> V) {
    && pc.text in texts
    && (pc.Storing? && pc.result.Some? ==> pc.result.value == compute(pc.text))
    && (pc.Returned? && pc.result.Some? ==> Sourced(pc.result.value, hash(pc.text), texts, hash, compute))
  }

  ghost predicate SourceInv<V>(s: Embedder<V>, texts: set<string>, hash: string -> Key, compute: string -> V) {
    && AllSourced(s.g.lru.entries, texts, hash, compute)
    && (forall t :: t in s.threads ==> ThreadSourced(s.threads[t], texts, hash, compute))
  }

  lemma MoreTexts<V>(s: Embedder<V>, texts: set<string>, more: set<string>, hash: string -> Key, compute: string -> V)
    requires SourceInv(s, texts, hash, compute) && texts <= more
    ensures SourceInv(s, more, hash, compute)
  {
    forall value, k | Sourced(value, k, texts, hash, compute) ensures Sourced(value, k, more, hash, compute) {
      var text :| text in texts && hash(text) == k && value == compute(text);
      assert text in more;
    }
  }

  lemma LookUpKeepsSources<V>(s: Embedder<V>, e: Event, texts: set<string>, hash: string -> Key, compute: string -> V)
    requires SourceInv(s, texts, hash, compute) && e.LookUp? && Enabled(s, e)
    ensures SourceInv(Step(s, e, hash, compute), texts, hash, compute)
  {
    var k := hash(s.threads[e.t].text);
    if k in s.g.lru.entries {
      var touched := Touched(s.g.lru, k).entries;
      assert forall j :: j in touched ==> j in s.g.lru.entries && touched[j].value == s.g.lru.entries[j].value;
    }
  }

  lemma StoreKeepsSources<V>(s: Embedder<V>, e: Event, texts: set<string>, hash: string -> Key, compute: string -> V)
    requires SourceInv(s, texts, hash, compute) && e.Store? && Enabled(s, e)
    ensures SourceInv(Step(s, e, hash, compute), texts, hash, compute)
  {
    var text, result := s.threads[e.t].text, s.threads[e.t].result;
    assert ThreadSourced(s.threads[e.t], texts, hash, compute);
    if result.Some? {
      assert Sourced(result.value, hash(text), texts, hash, compute);
      var stored := InsertedEvicting(s.g.lru, hash(text), result.value, EMBEDDING_CACHE_CAPACITY, e.oldest).entries;
      forall j | j in stored ensures Sourced(stored[j].value, j, texts, hash, compute) {
        assert j != hash(text) ==> j in s.g.lru.entries && stored[j] == s.g.lru.entries[j];
      }
    }
  }

  lemma StepKeepsSources<V>(s: Embedder<V>, e: Event, texts: set<string>, hash: string -> Key, compute: string -> V)
    requires SourceInv(s, texts, hash, compute) && Enabled(s, e) && AskedBy(e) <= texts
    ensures SourceInv(Step(s, e, hash, compute), texts, hash, compute)
  {
    match e {
      case LookUp(_, _) => LookUpKeepsSources(s, e, texts, hash, compute);
      case Store(_, _, _) => StoreKeepsSources(s, e, texts, hash, compute);
      case _ =>
    }
  }

  lemma {:induction false} SourcesOverRuns<V>(events: seq<Event>, hash: string -> Key, compute: string -> V)
    requires After(events, hash, compute).Some?
    ensures SourceInv(After(events, hash, compute).value, Asked(events), hash, compute)
  {
    if events != [] {
      var before, e := events[..|events| - 1], events[|events| - 1];
      SourcesOverRuns(before, hash, compute);
      MoreTexts(After(before, hash, compute).value, Asked(before), Asked(events), hash, compute);
      StepKeepsSources(After(before, hash, compute).value, e, Asked(events), hash, compute);
    }
  }

  /** In every interleaving of any length, whatever the hash: what is cached or returned under a key is the embedding of
      some text asked for in the run with that key, and a call whose own text collides harmlessly with those returns the
      embedding of its own text. */
  lemma ReturnsOwnOrColliding<V>(events: seq<Event>, hash: string -> Key, compute: string -> V)
    requires After(events, hash, compute).Some?
    ensures var s := After(events, hash, compute).value;
            && AllSourced(s.g.lru.entries, Asked(events), hash, compute)
            && (forall t :: t in s.threads && s.threads[t].Returned? && s.threads[t].result.Some? ==>
                  var text, value := s.threads[t].text, s.threads[t].result.value;
                  && text in Asked(events) && Sourced(value, hash(text), Asked(events), hash, compute)
                  && (CollisionsHarmless(Asked(events), hash, compute, text) ==> value == compute(text)))
  {
    SourcesOverRuns(events, hash, compute);
    var s := After(events, hash, compute).value;
    forall t | t in s.threads && s.threads[t].Returned? && s.threads[t].result.Some?
      ensures var text, value := s.threads[t].text, s.threads[t].result.value;
              && text in Asked(events) && Sourced(value, hash(text), Asked(events), hash, compute)
              && (CollisionsHarmless(Asked(events), hash, compute, text) ==> value == compute(text))
    {
      assert ThreadSourced(s.threads[t], Asked(events), hash, compute);
    }
  }

  // ---- Which texts may be asked for ----

  ghost predicate AnswersRight<V>(s: Embedder<V>, compute: string -> V) {
    forall t :: t in s.threads && s.threads[t].Returned? && s.threads[t].result.Some? ==>
                  s.threads[t].result.value == compute(s.threads[t].text)
  }

  /** A run that asks for these texts only. */
  ghost predicate Asks<V>(events: seq<Event>, texts: set<string>, hash: string -> Key, compute: string -> V) {
    After(events, hash, compute).Some? && Asked(events) <= texts
  }

  ghost predicate NoneMisleads<V>(texts: set<string>, hash: string -> Key, compute: string -> V) {
    forall text :: text in texts ==> CollisionsHarmless(texts, hash, compute, text)
  }

  /** A call for `first` from a cold start finds nothing, loads the model, computes and stores. */
  function FirstCall(first: string): seq<Event> {
    [] + [Call(0, first)] + [LookUp(0, 0)] + [GetModel(0, None, 0)] + [Compute(0, true)] + [Store(0, 0, 0)]
  }

  function TwoCalls(first: string, second: string): seq<Event> {
    FirstCall(first) + [Call(1, second)] + [LookUp(1, 0)]
  }

  lemma Extends<V>(events: seq<Event>, e: Event, hash: string -> Key, compute: string -> V)
    requires After(events, hash, compute).Some? && Enabled(After(events, hash, compute).value, e)
    ensures After(events + [e], hash, compute) == Some(Step(After(events, hash, compute).value, e, hash, compute))
    ensures Asked(events + [e]) == Asked(events) + AskedBy(e)
  {
    assert (events + [e])[..|events + [e]| - 1] == events;
  }

  lemma FirstComputes<V>(first: string, hash: string -> Key, compute: string -> V)
    ensures var run := [] + [Call(0, first)] + [LookUp(0, 0)] + [GetModel(0, None, 0)] + [Compute(0, true)];
            && After(run, hash, compute).Some? && Asked(run) == {first}
            && var s := After(run, hash, compute).value;
               s.threads == map[0 := Storing(first, Some(compute(first)))] && s.g.lru == State(map[], 0)
  {
    Extends([], Call(0, first), hash, compute);
    Extends([] + [Call(0, first)], LookUp(0, 0), hash, compute);
    var run := [] + [Call(0, first)] + [LookUp(0, 0)];
    assert After(run, hash, compute).value.threads == map[0 := NeedsModel(first)];
    Extends(run, GetModel(0, None, 0), hash, compute);
    assert After(run + [GetModel(0, None, 0)], hash, compute).value.threads == map[0 := Computing(first)];
    Extends(run + [GetModel(0, None, 0)], Compute(0, true), hash, compute);
  }

  lemma FirstStores<V>(first: string, hash: string -> Key, compute: string -> V)
    ensures After(FirstCall(first), hash, compute).Some? && Asked(FirstCall(first)) == {first}
    ensures var s := After(FirstCall(first), hash, compute).value;
            && s.threads == map[0 := Returned(first, Some(compute(first)))]
            && s.g.lru.entries == map[hash(first) := Entry(compute(first), 0)]
  {
    FirstComputes(first, hash, compute);
    Extends([] + [Call(0, first)] + [LookUp(0, 0)] + [GetModel(0, None, 0)] + [Compute(0, true)], Store(0, 0, 0),
            hash, compute);
  }

  /** Two texts with one key, asked for one after the other: the second call returns the embedding of the first. */
  lemma SecondGetsFirst<V>(first: string, second: string, hash: string -> Key, compute: string -> V)
    requires hash(first) == hash(second)
    ensures var run := TwoCalls(first, second);
            && After(run, hash, compute).Some? && Asked(run) == {first, second}
            && After(run, hash, compute).value.threads[1] == Returned(second, Some(compute(first)))
  {
    FirstStores(first, hash, compute);
    Extends(FirstCall(first), Call(1, second), hash, compute);
    Extends(FirstCall(first) + [Call(1, second)], LookUp(1, 0), hash, compute);
  }

  /** Every run that asks for these texts only returns to every call the embedding of its own text exactly when those of
      the texts that share a key share their embedding. Other texts do not matter. */
  lemma AnswersRightIff<V>(texts: set<string>, hash: string -> Key, compute: string -> V)
    ensures (forall events :: Asks(events, texts, hash, compute) ==>
                                AnswersRight(After(events, hash, compute).value, compute))
            <==> NoneMisleads(texts, hash, compute)
  {
    if NoneMisleads(texts, hash, compute) {
      forall events | Asks(events, texts, hash, compute)
        ensures AnswersRight(After(events, hash, compute).value, compute)
      {
        ReturnsOwnOrColliding(events, hash, compute);
      }
    } else {
      var text, other :| text in texts && other in texts && hash(other) == hash(text)
                         && compute(other) != compute(text);
      SecondGetsFirst(other, text, hash, compute);
      assert Asks(TwoCalls(other, text), texts, hash, compute);
    }
  }

  // ---- Size and model, with nothing assumed ----

  ghost predicate ModelInv<V>(s: Embedder<V>) {
    && s.g.loads == s.g.unloads + (if s.g.loaded then 1 else 0)
    && (s.g.loadError.Some? ==> !s.g.loaded)
    && s.g.failures <= s.g.calls
  }

  lemma StepKeepsSize<V>(s: Embedder<V>, e: Event, hash: string -> Key, compute: string -> V)
    requires Enabled(s, e) && |s.g.lru.entries| <= EMBEDDING_CACHE_CAPACITY
    ensures |Step(s, e, hash, compute).g.lru.entries| <= EMBEDDING_CACHE_CAPACITY
  {
    if e.LookUp? {
      var k := hash(s.threads[e.t].text);
      if k in s.g.lru.entries {
        var entries := Touched(s.g.lru, k).entries;
        assert entries.Keys == s.g.lru.entries.Keys;
        assert |entries| == |entries.Keys| && |s.g.lru.entries| == |s.g.lru.entries.Keys|;
      }
    } else if e.Store? && s.threads[e.t].result.Some? {
      var k, value := hash(s.threads[e.t].text), s.threads[e.t].result.value;
      EvictingIsSome(s.g.lru, k, value, EMBEDDING_CACHE_CAPACITY, e.oldest);
      InsertedSize(s.g.lru, k, value, EMBEDDING_CACHE_CAPACITY,
                   InsertedEvicting(s.g.lru, k, value, EMBEDDING_CACHE_CAPACITY, e.oldest));
    }
  }

  /** The size bound needs nothing: it holds in every interleaving of any length, wrapped counter or not, with any
      hash function. */
  lemma {:induction false} CacheStaysBounded<V>(events: seq<Event>, hash: string -> Key, compute: string -> V)
    requires After(events, hash, compute).Some?
    ensures |After(events, hash, compute).value.g.lru.entries| <= EMBEDDING_CACHE_CAPACITY
  {
    if events != [] {
      CacheStaysBounded(events[..|events| - 1], hash, compute);
      StepKeepsSize(After(events[..|events| - 1], hash, compute).value, events[|events| - 1], hash, compute);
    }
  }

  lemma StepKeepsModel<V>(s: Embedder<V>, e: Event, hash: string -> Key, compute: string -> V)
    requires Enabled(s, e) && ModelInv(s)
    ensures ModelInv(Step(s, e, hash, compute))
    ensures s.g.loadError.Some? ==>
              Step(s, e, hash, compute).g.loadError == s.g.loadError && Step(s, e, hash, compute).g.loads == s.g.loads
  {
  }

  /** Loads and unloads balance in every interleaving. */
  lemma {:induction false} LoadsBalance<V>(events: seq<Event>, hash: string -> Key, compute: string -> V)
    requires After(events, hash, compute).Some?
    ensures ModelInv(After(events, hash, compute).value)
  {
    if events != [] {
      LoadsBalance(events[..|events| - 1], hash, compute);
      StepKeepsModel(After(events[..|events| - 1], hash, compute).value, events[|events| - 1], hash, compute);
    }
  }

  /** A load that failed once is never tried again, whatever happens later. */
  lemma {:induction false} FailedLoadIsFinal<V>(events: seq<Event>, later: seq<Event>, hash: string -> Key,
                                             compute: string -> V)
    requires After(events + later, hash, compute).Some?
    requires After(events, hash, compute).Some? && After(events, hash, compute).value.g.loadError.Some?
    ensures var was, now := After(events, hash, compute).value, After(events + later, hash, compute).value;
            now.g.loadError == was.g.loadError && now.g.loads == was.g.loads && !now.g.loaded
  {
    if later == [] {
      assert events + later == events;
    } else {
      var shorter := later[..|later| - 1];
      assert (events + later)[..|events + later| - 1] == events + shorter;
      FailedLoadIsFinal(events, shorter, hash, compute);
      LoadsBalance(events + shorter, hash, compute);
      StepKeepsModel(After(events + shorter, hash, compute).value, later[|later| - 1], hash, compute);
    }
    LoadsBalance(events + later, hash, compute);
  }

  // ---- Use, load and counters, read off the events ----

  /** When an event uses the embedder: a hit, a request for the model, or a result coming in. */
  function UsedAt<V>(s: Embedder<V>, e: Event, hash: string -> Key): Option<nat>
    requires Enabled(s, e)
  {
    match e
    case LookUp(t, now) => if hash(s.threads[t].text) in s.g.lru.entries then Some(now) else None
    case GetModel(_, _, now) => Some(now)
    case Store(_, now, _) => Some(now)
    case _ => None
  }

  /** The figures that the events of a run add up to. */
  datatype Tally = Tally(lastUse: Option<nat>, hits: nat, computed: nat, failed: nat)

  function NextTally<V>(s: Embedder<V>, e: Event, hash: string -> Key, tally: Tally): Tally
    requires Enabled(s, e)
  {
    var used := UsedAt(s, e, hash);
    Tally(if used.Some? then used else tally.lastUse,
          tally.hits + (if e.LookUp? && used.Some? then 1 else 0),
          tally.computed + (if e.Store? then 1 else 0),
          tally.failed + (if e.Store? && s.threads[e.t].result.None? then 1 else 0))
  }

  ghost function TallyOf<V>(events: seq<Event>, hash: string -> Key, compute: string -> V): Tally
    requires After(events, hash, compute).Some?
  {
    if events == [] then Tally(None, 0, 0, 0)
    else
      var before := events[..|events| - 1];
      NextTally(After(before, hash, compute).value, events[|events| - 1], hash, TallyOf(before, hash, compute))
  }

  predicate Tallies<V>(g: Shared<V>, tally: Tally) {
    g.lastUsedAt == tally.lastUse && g.hits == tally.hits && g.calls == tally.computed && g.failures == tally.failed
  }

  lemma StepTallies<V>(s: Embedder<V>, e: Event, hash: string -> Key, compute: string -> V, tally: Tally)
    requires Enabled(s, e) && Tallies(s.g, tally)
    ensures Tallies(Step(s, e, hash, compute).g, NextTally(s, e, hash, tally))
  {
  }

  /** Over every run the last use and the counters are those of the events. */
  lemma {:induction false} TalliesOverRuns<V>(events: seq<Event>, hash: string -> Key, compute: string -> V)
    requires After(events, hash, compute).Some?
    ensures Tallies(After(events, hash, compute).value.g, TallyOf(events, hash, compute))
  {
    if events != [] {
      var before := events[..|events| - 1];
      TalliesOverRuns(before, hash, compute);
      StepTallies(After(before, hash, compute).value, events[|events| - 1], hash, compute,
                  TallyOf(before, hash, compute));
    }
  }

  /** An idle check unloads the model and empties the cache exactly when the last use, by any thread, is at least as
      long ago as asked; otherwise it changes nothing. */
  lemma UnloadsIffIdle<V>(events: seq<Event>, hash: string -> Key, compute: string -> V, idleFor: nat, now: nat)
    requires After(events, hash, compute).Some?
    ensures var s := After(events, hash, compute).value;
            var v, last := Step(s, UnloadIfIdle(idleFor, now), hash, compute), TallyOf(events, hash, compute).lastUse;
            if s.g.loaded && last.Some? && (last.value + idleFor <= now || idleFor == 0)
            then !v.g.loaded && v.g.lru.entries == map[] && v.recent == [] && v.threads == s.threads
            else v == s
  {
    TalliesOverRuns(events, hash, compute);
  }

  /** Asking for the model gives it exactly when it is loaded afterwards, which is when it was loaded before or loads
      now; otherwise the call is given the recorded error, the first there was. */
  lemma ModelOrError<V>(g: Shared<V>, failure: Option<string>, now: nat)
    requires g.loadError.Some? ==> !g.loaded
    ensures var v, answer := ModelAsked(g, failure, now), ModelAnswered(g, failure);
            && (answer.Model? <==> v.loaded)
            && (v.loaded <==> g.loaded || (g.loadError.None? && failure.None?))
            && (answer.LoadFailed? ==> v.loadError == Some(answer.message))
            && (g.loadError.Some? ==> v.loadError == g.loadError)
  {
  }
}
