/** The debounced "models updated" event: the first request publishes at once, later ones share a single sleeper.
    Times are milliseconds on one monotonic clock. */
module ModelsUpdatedBus {
  import opened Wrappers

  const MODELS_UPDATED_DEBOUNCE: nat := 750

  /** The state behind the mutex. */
  datatype Shared = Shared(lastPublishedAt: Option<nat>, publishPending: bool)

  datatype Decision = PublishNow | AlreadyPending | SleepFor(delay: nat)

  function Decided(g: Shared, now: nat): Decision {
    if g.lastPublishedAt.None? || Monus(now, g.lastPublishedAt.value) >= MODELS_UPDATED_DEBOUNCE then PublishNow
    else if g.publishPending then AlreadyPending
    else SleepFor(MODELS_UPDATED_DEBOUNCE - Monus(now, g.lastPublishedAt.value))
  }

  function AfterDecision(g: Shared, now: nat): Shared {
    match Decided(g, now)
    case PublishNow => g.(lastPublishedAt := Some(now))
    case AlreadyPending => g
    case SleepFor(_) => g.(publishPending := true)
  }

  function Cleared(now: nat): Shared {
    Shared(Some(now), false)
  }

  class PublishState {
    var lastPublishedAt: Option<nat>
    var publishPending: bool

    function View(): Shared
      reads this
    {
      Shared(lastPublishedAt, publishPending)
    }

    constructor ()
      ensures View() == Shared(None, false)
    {
      lastPublishedAt, publishPending := None, false;
    }

    // The first critical section; `now` was read before the lock was taken.
    method Decide(now: nat) returns (decision: Decision)
      modifies this
      ensures decision == Decided(old(View()), now)
      ensures View() == AfterDecision(old(View()), now)
    {
      if lastPublishedAt.None? {
        lastPublishedAt := Some(now);
        return PublishNow;
      }
      var elapsed := Monus(now, lastPublishedAt.value);
      if elapsed >= MODELS_UPDATED_DEBOUNCE {
        lastPublishedAt := Some(now);
        return PublishNow;
      } else if publishPending {
        return AlreadyPending;
      }
      publishPending := true;
      return SleepFor(MODELS_UPDATED_DEBOUNCE - elapsed);
    }

    // The second critical section: the sleeper's, or the caller's own where there is no runtime.
    method ClearPending(now: nat)
      modifies this
      ensures View() == Cleared(now)
    {
      publishPending := false;
      lastPublishedAt := Some(now);
    }
  }

  // ---- Requests with program counters ----

  datatype Pc =
    | Called(now: nat)
    | Deciding(delay: nat)
    | Scheduled(delay: nat)
    | Sleeping(until: nat)
    | Publishing
    | Done
    | Absorbed

  // When a request came, and how many events had been published by then.
  datatype Arrival = Arrival(time: nat, published: nat)

  datatype State = State(
    g: Shared,
    clock: nat,
    requests: map<nat, Pc>,
    arrivals: map<nat, Arrival>,
    published: seq<nat>)

  datatype Event =
    | Tick(d: nat)
    | Call(r: nat)
    | Lock(r: nat)
    | Spawn(r: nat)
    | NoRuntime(r: nat)
    | StartSleep(r: nat)
    | Wake(r: nat)
    | Publish(r: nat)

  function Init(): State {
    State(Shared(None, false), 0, map[], map[], [])
  }

  predicate Enabled(s: State, e: Event) {
    match e
    case Tick(_) => true
    case Call(r) => r !in s.requests
    case Lock(r) => r in s.requests && s.requests[r].Called?
    case Spawn(r) => r in s.requests && s.requests[r].Deciding?
    case NoRuntime(r) => r in s.requests && s.requests[r].Deciding?
    case StartSleep(r) => r in s.requests && s.requests[r].Scheduled?
    case Wake(r) => r in s.requests && s.requests[r].Sleeping? && s.requests[r].until <= s.clock
    case Publish(r) => r in s.requests && s.requests[r].Publishing?
  }

  function At(s: State, r: nat, pc: Pc): State {
    s.(requests := s.requests[r := pc])
  }

  function DecisionPc(decision: Decision): Pc {
    match decision
    case PublishNow => Publishing
    case AlreadyPending => Absorbed
    case SleepFor(delay) => Deciding(delay)
  }

  function Step(s: State, e: Event): State
    requires Enabled(s, e)
  {
    match e
    case Tick(d) => s.(clock := s.clock + d)
    case Call(r) => At(s, r, Called(s.clock)).(arrivals := s.arrivals[r := Arrival(s.clock, |s.published|)])
    case Lock(r) => At(s, r, DecisionPc(Decided(s.g, s.requests[r].now))).(g := AfterDecision(s.g, s.requests[r].now))
    case Spawn(r) => At(s, r, Scheduled(s.requests[r].delay))
    case NoRuntime(r) => At(s, r, Publishing).(g := Cleared(s.clock))
    case StartSleep(r) => At(s, r, Sleeping(s.clock + s.requests[r].delay))
    case Wake(r) => At(s, r, Publishing).(g := Cleared(s.clock))
    case Publish(r) => At(s, r, Done).(published := s.published + [s.clock])
  }

  function After(events: seq<Event>): Option<State> {
    if events == [] then Some(Init())
    else
      var before, e := After(events[..|events| - 1]), events[|events| - 1];
      if before.Some? && Enabled(before.value, e) then Some(Step(before.value, e)) else None
  }

  // ---- One sleeper, nothing lost: every interleaving, however late ----

  /** The request that set the pending flag and has not yet cleared it. */
  predicate Holds(s: State, r: nat) {
    r in s.requests && (s.requests[r].Deciding? || s.requests[r].Scheduled? || s.requests[r].Sleeping?)
  }

  /** The request still has an event to publish. */
  predicate Outstanding(s: State, r: nat) {
    Holds(s, r) || (r in s.requests && s.requests[r].Publishing?)
  }

  ghost predicate OnePending(s: State) {
    && (s.g.publishPending <==> exists r :: Holds(s, r))
    && (forall r, q :: Holds(s, r) && Holds(s, q) ==> r == q)
  }

  /** An event was published after the request came. */
  ghost predicate Served(s: State, r: nat)
    requires r in s.arrivals
  {
    exists k :: s.arrivals[r].published <= k < |s.published| && s.arrivals[r].time <= s.published[k]
  }

  ghost predicate SomeoneWillPublish(s: State) {
    exists q :: Outstanding(s, q)
  }

  ghost predicate NothingLost(s: State) {
    && s.arrivals.Keys == s.requests.Keys
    && (forall r :: r in s.arrivals ==> s.arrivals[r].time <= s.clock && s.arrivals[r].published <= |s.published|)
    && (forall r :: r in s.requests && !s.requests[r].Called? ==> Served(s, r) || SomeoneWillPublish(s))
  }

  lemma HoldersMove(s: State, e: Event)
    requires Enabled(s, e)
    ensures forall q :: Holds(Step(s, e), q) <==>
              if e.Lock? && q == e.r then Decided(s.g, s.requests[e.r].now).SleepFor?
              else Holds(s, q) && !(e.Wake? && q == e.r) && !(e.NoRuntime? && q == e.r)
  {
  }

  lemma StepKeepsOnePending(s: State, e: Event)
    requires OnePending(s) && Enabled(s, e)
    ensures OnePending(Step(s, e))
  {
    var s' := Step(s, e);
    HoldersMove(s, e);
    if e.Lock? && Decided(s.g, s.requests[e.r].now).SleepFor? {
      assert Holds(s', e.r);
    } else if e.Wake? || e.NoRuntime? {
      assert Holds(s, e.r);
    } else {
      assert forall q :: Holds(s', q) <==> Holds(s, q);
      if s.g.publishPending {
        var q :| Holds(s, q);
        assert Holds(s', q);
      }
    }
  }

  lemma StaysServed(s: State, s': State, r: nat)
    requires r in s.arrivals && Served(s, r) && r in s'.arrivals && s'.arrivals[r] == s.arrivals[r]
    requires s.published <= s'.published
    ensures Served(s', r)
  {
    var k :| s.arrivals[r].published <= k < |s.published| && s.arrivals[r].time <= s.published[k];
    assert s'.published[k] == s.published[k];
  }

  lemma PublishServes(s: State, e: Event, r: nat)
    requires NothingLost(s) && Enabled(s, e) && e.Publish? && r in s.arrivals
    ensures Served(Step(s, e), r)
  {
    assert Step(s, e).published[|s.published|] == s.clock;
  }

  lemma StepKeepsPublisher(s: State, e: Event)
    requires SomeoneWillPublish(s) && Enabled(s, e) && !e.Publish?
    ensures SomeoneWillPublish(Step(s, e))
  {
    var q :| Outstanding(s, q);
    assert Outstanding(Step(s, e), q);
  }

  lemma LockServes(s: State, e: Event)
    requires OnePending(s) && Enabled(s, e) && e.Lock?
    ensures SomeoneWillPublish(Step(s, e))
  {
    if Decided(s.g, s.requests[e.r].now).AlreadyPending? {
      var q :| Holds(s, q);
      assert Outstanding(Step(s, e), q);
    } else {
      assert Outstanding(Step(s, e), e.r);
    }
  }

  lemma StepLosesNothing(s: State, e: Event)
    requires OnePending(s) && NothingLost(s) && Enabled(s, e)
    ensures NothingLost(Step(s, e))
  {
    var s' := Step(s, e);
    forall r | r in s'.requests && !s'.requests[r].Called? ensures Served(s', r) || SomeoneWillPublish(s') {
      if e.Publish? {
        PublishServes(s, e, r);
      } else if e.Lock? {
        LockServes(s, e);
      } else if Served(s, r) {
        StaysServed(s, s', r);
      } else {
        StepKeepsPublisher(s, e);
      }
    }
  }

  /** In every interleaving at most one request sleeps or is about to, exactly when the flag is set, and every request
      that has been through the lock either has an event published after it or someone who will still publish. */
  lemma {:induction false} DebounceOverRuns(events: seq<Event>)
    requires After(events).Some?
    ensures OnePending(After(events).value) && NothingLost(After(events).value)
  {
    if events != [] {
      var before := events[..|events| - 1];
      DebounceOverRuns(before);
      StepKeepsOnePending(After(before).value, events[|events| - 1]);
      StepLosesNothing(After(before).value, events[|events| - 1]);
    }
  }

  /** When nobody is left to publish, every request has been followed by an event. */
  lemma QuietMeansServed(events: seq<Event>, r: nat)
    requires After(events).Some? && r in After(events).value.requests
    requires !After(events).value.requests[r].Called?
    requires forall q :: !Outstanding(After(events).value, q)
    ensures After(events).value.arrivals.Keys == After(events).value.requests.Keys
    ensures Served(After(events).value, r)
  {
    DebounceOverRuns(events);
  }

  // ---- Spacing and latency, when timers are on time ----

  /** Time passes only when no critical section or send is due, never past a sleeper's deadline; a sleeper that is due
      goes before new requests; every caller is inside a runtime. */
  predicate Prompt(s: State, e: Event) {
    match e
    case Tick(d) => forall r :: r in s.requests ==>
                      s.requests[r].Done? || s.requests[r].Absorbed?
                      || (s.requests[r].Sleeping? && s.clock + d <= s.requests[r].until)
    case Call(_) => NoneDue(s)
    case Lock(_) => NoneDue(s)
    case NoRuntime(_) => false
    case _ => true
  }

  predicate NoneDue(s: State) {
    forall r :: r in s.requests && s.requests[r].Sleeping? ==> s.clock < s.requests[r].until
  }

  predicate AllPrompt(events: seq<Event>)
    requires After(events).Some?
  {
    events == []
    || (var before := After(events[..|events| - 1]);
        before.Some? && AllPrompt(events[..|events| - 1]) && Prompt(before.value, events[|events| - 1]))
  }

  predicate Spaced(published: seq<nat>) {
    forall k :: 0 < k < |published| ==> published[k - 1] + MODELS_UPDATED_DEBOUNCE <= published[k]
  }

  /** What each program counter knows about the clock while everything is on time. */
  predicate OnTime(s: State, r: nat)
    requires r in s.requests
  {
    var last := s.g.lastPublishedAt;
    match s.requests[r]
    case Called(now) => now == s.clock && r in s.arrivals && s.arrivals[r].time == s.clock
    case Deciding(delay) => delay > 0 && last.Some? && last.value + MODELS_UPDATED_DEBOUNCE == s.clock + delay
    case Scheduled(delay) => delay > 0 && last.Some? && last.value + MODELS_UPDATED_DEBOUNCE == s.clock + delay
    case Sleeping(until) => last.Some? && until == last.value + MODELS_UPDATED_DEBOUNCE && s.clock <= until
    case Publishing => last == Some(s.clock)
    case _ => true
  }

  predicate OnePublisher(s: State) {
    forall r, q :: r in s.requests && q in s.requests && s.requests[r].Publishing? && s.requests[q].Publishing?
      ==> r == q
  }

  ghost predicate PublisherAtWork(s: State) {
    exists r :: r in s.requests && s.requests[r].Publishing?
  }

  /** The last stamp is the last event, or the one being sent right now. */
  ghost predicate StampInv(s: State) {
    var last, n := s.g.lastPublishedAt, |s.published|;
    && (last.Some? ==> last.value <= s.clock)
    && (if PublisherAtWork(s) then n > 0 ==> s.published[n - 1] + MODELS_UPDATED_DEBOUNCE <= s.clock
        else last == if n == 0 then None else Some(s.published[n - 1]))
  }

  ghost predicate TimedInv(s: State) {
    && OnePending(s) && OnePublisher(s) && StampInv(s) && Spaced(s.published)
    && (forall r :: r in s.requests ==> OnTime(s, r))
  }

  lemma LockOnTime(s: State, e: Event)
    requires TimedInv(s) && Enabled(s, e) && Prompt(s, e) && e.Lock?
    ensures Decided(s.g, s.clock).PublishNow? ==> !s.g.publishPending && !PublisherAtWork(s)
  {
    assert OnTime(s, e.r);
    if Decided(s.g, s.clock).PublishNow? {
      forall r ensures !Holds(s, r) && !(r in s.requests && s.requests[r].Publishing?) {
        if r in s.requests {
          assert OnTime(s, r);
        }
      }
    }
  }

  lemma WakeOnTime(s: State, e: Event)
    requires TimedInv(s) && Enabled(s, e) && e.Wake?
    ensures s.requests[e.r].until == s.clock && !PublisherAtWork(s)
  {
    assert OnTime(s, e.r);
    forall r ensures !(r in s.requests && s.requests[r].Publishing?) {
      if r in s.requests {
        assert OnTime(s, r);
      }
    }
  }

  lemma StepKeepsOnTime(s: State, e: Event, r: nat)
    requires TimedInv(s) && Enabled(s, e) && Prompt(s, e) && r in Step(s, e).requests
    ensures OnTime(Step(s, e), r)
  {
    if r in s.requests {
      assert OnTime(s, r);
    }
    if e.Lock? {
      assert OnTime(s, e.r);
      LockOnTime(s, e);
      assert Holds(s, r) ==> s.g.publishPending;
    } else if e.Wake? {
      WakeOnTime(s, e);
      assert Holds(s, e.r);
      assert r != e.r ==> !Holds(s, r);
    }
  }

  lemma StepKeepsStamp(s: State, e: Event)
    requires TimedInv(s) && Enabled(s, e) && Prompt(s, e)
    ensures StampInv(Step(s, e)) && OnePublisher(Step(s, e)) && Spaced(Step(s, e).published)
  {
    var s' := Step(s, e);
    match e
    case Publish(r) =>
      assert OnTime(s, r);
      assert s.requests[r].Publishing?;
      forall q ensures !(q in s'.requests && s'.requests[q].Publishing?) {}
    case Wake(r) =>
      WakeOnTime(s, e);
      assert OnTime(s, r);
      assert s'.requests[r].Publishing?;
    case Lock(r) =>
      assert OnTime(s, r);
      LockOnTime(s, e);
      if Decided(s.g, s.clock).PublishNow? {
        assert s'.requests[r].Publishing?;
      } else {
        SamePublishers(s, e);
      }
    case Tick(_) =>
      forall q ensures !(q in s.requests && s.requests[q].Publishing?) {}
    case _ =>
      SamePublishers(s, e);
  }

  lemma SamePublishers(s: State, e: Event)
    requires Enabled(s, e) && !e.Publish? && !e.Wake? && !e.NoRuntime?
    requires e.Lock? ==> !Decided(s.g, s.requests[e.r].now).PublishNow?
    ensures forall q :: q in Step(s, e).requests && Step(s, e).requests[q].Publishing? <==>
                        q in s.requests && s.requests[q].Publishing?
  {
  }

  // ---- Latency ----

  ghost predicate ServedInTime(s: State, a: nat) {
    exists k :: 0 <= k < |s.published| && a <= s.published[k] <= a + MODELS_UPDATED_DEBOUNCE
  }

  /** A sleeper, or someone sending right now, will serve a request that came at time `a` soon enough. */
  ghost predicate Promised(s: State, a: nat) {
    var last := s.g.lastPublishedAt;
    && last.Some?
    && ((s.g.publishPending && last.value <= a <= last.value + MODELS_UPDATED_DEBOUNCE)
        || (PublisherAtWork(s) && last.value == s.clock && a <= s.clock <= a + MODELS_UPDATED_DEBOUNCE))
  }

  ghost predicate LatencyInv(s: State) {
    && s.arrivals.Keys == s.requests.Keys
    && forall r :: r in s.requests && !s.requests[r].Called? ==>
                     ServedInTime(s, s.arrivals[r].time) || Promised(s, s.arrivals[r].time)
  }

  lemma StaysServedInTime(s: State, s': State, a: nat)
    requires ServedInTime(s, a) && s.published <= s'.published
    ensures ServedInTime(s', a)
  {
    var k :| 0 <= k < |s.published| && a <= s.published[k] <= a + MODELS_UPDATED_DEBOUNCE;
    assert s'.published[k] == s.published[k];
  }

  lemma StepKeepsPromise(s: State, e: Event, a: nat)
    requires TimedInv(s) && Enabled(s, e) && Prompt(s, e) && Promised(s, a)
    ensures ServedInTime(Step(s, e), a) || Promised(Step(s, e), a)
  {
    var s' := Step(s, e);
    match e
    case Publish(r) =>
      assert s'.published[|s.published|] == s.clock;
    case Wake(r) =>
      WakeOnTime(s, e);
      assert OnTime(s, r);
      assert s'.requests[r].Publishing?;
    case Lock(r) =>
      assert OnTime(s, r);
      LockOnTime(s, e);
      if !Decided(s.g, s.clock).PublishNow? {
        SamePublishers(s, e);
      }
    case Tick(_) =>
      forall q ensures !(q in s.requests && s.requests[q].Publishing?) {}
    case _ =>
      SamePublishers(s, e);
  }

  lemma LockPromises(s: State, e: Event)
    requires TimedInv(s) && Enabled(s, e) && e.Lock?
    ensures Promised(Step(s, e), s.clock)
  {
    assert OnTime(s, e.r);
    if Decided(s.g, s.clock).PublishNow? {
      assert Step(s, e).requests[e.r].Publishing?;
    }
  }

  lemma StepKeepsLatency(s: State, e: Event)
    requires TimedInv(s) && LatencyInv(s) && Enabled(s, e) && Prompt(s, e)
    ensures LatencyInv(Step(s, e))
  {
    var s' := Step(s, e);
    forall r | r in s'.requests && !s'.requests[r].Called?
      ensures ServedInTime(s', s'.arrivals[r].time) || Promised(s', s'.arrivals[r].time)
    {
      var a := s.arrivals[r].time;
      if e == Lock(r) {
        assert OnTime(s, r);
        LockPromises(s, e);
      } else if ServedInTime(s, a) {
        StaysServedInTime(s, s', a);
      } else {
        StepKeepsPromise(s, e, a);
      }
    }
  }

  lemma {:induction false} TimedOverRuns(events: seq<Event>)
    requires After(events).Some? && AllPrompt(events)
    ensures TimedInv(After(events).value) && LatencyInv(After(events).value)
  {
    if events != [] {
      var before, e := events[..|events| - 1], events[|events| - 1];
      TimedOverRuns(before);
      var s := After(before).value;
      StepKeepsOnePending(s, e);
      StepKeepsStamp(s, e);
      forall r | r in Step(s, e).requests ensures OnTime(Step(s, e), r) {
        StepKeepsOnTime(s, e, r);
      }
      StepKeepsLatency(s, e);
    }
  }

  lemma PromiseNotExpired(s: State, a: nat)
    requires TimedInv(s) && Promised(s, a)
    ensures s.clock <= a + MODELS_UPDATED_DEBOUNCE
  {
    if s.g.publishPending {
      var r :| Holds(s, r);
      assert OnTime(s, r);
    }
  }

  /** With timers on time: successive events are at least 750 ms apart, and once 750 ms have passed a request has been
      served by an event within those 750 ms. */
  lemma SpacedAndServedInTime(events: seq<Event>)
    requires After(events).Some? && AllPrompt(events)
    ensures var s := After(events).value;
            && Spaced(s.published)
            && s.arrivals.Keys == s.requests.Keys
            && (forall r :: r in s.requests && s.arrivals[r].time + MODELS_UPDATED_DEBOUNCE < s.clock ==>
                              ServedInTime(s, s.arrivals[r].time))
  {
    TimedOverRuns(events);
    var s := After(events).value;
    forall r | r in s.requests && s.arrivals[r].time + MODELS_UPDATED_DEBOUNCE < s.clock
      ensures ServedInTime(s, s.arrivals[r].time)
    {
      assert OnTime(s, r);
      if Promised(s, s.arrivals[r].time) {
        PromiseNotExpired(s, s.arrivals[r].time);
      }
    }
  }

  // ---- Why the conditions are needed ----

  function Then(s: State, e: Event): State {
    if Enabled(s, e) then Step(s, e) else s
  }

  /** A sleeper that is due but late: a request that gets in first publishes, and the sleeper publishes again at the
      same instant. */
  lemma LateSleeperPublishesTwice(s: State, sleeper: nat, r: nat)
    requires Enabled(s, Wake(sleeper)) && Enabled(s, Lock(r))
    requires Decided(s.g, s.requests[r].now).PublishNow?
    ensures var end := Then(Then(Then(Then(s, Lock(r)), Publish(r)), Wake(sleeper)), Publish(sleeper));
            end.published == s.published + [s.clock, s.clock]
  {
    var s1 := Then(s, Lock(r));
    var s2 := Then(s1, Publish(r));
    var s3 := Then(s2, Wake(sleeper));
    assert s2.published == s.published + [s.clock];
    assert s3.requests[sleeper].Publishing?;
  }

  const FIRST_PUBLISH: seq<Event> := [Call(1), Lock(1), Publish(1)]
  const THEN_SLEEPER: seq<Event> := [Call(2), Lock(2), Spawn(2), StartSleep(2)]

  lemma FirstPublish()
    ensures After(FIRST_PUBLISH) == Some(State(Shared(Some(0), false), 0, map[1 := Done], map[1 := Arrival(0, 0)], [0]))
  {
    Extends([], Call(1));
    assert [] + [Call(1)] == [Call(1)];
    Extends([Call(1)], Lock(1));
    assert [Call(1)] + [Lock(1)] == [Call(1), Lock(1)];
    Extends([Call(1), Lock(1)], Publish(1));
    assert [Call(1), Lock(1)] + [Publish(1)] == FIRST_PUBLISH;
    var s := After(FIRST_PUBLISH).value;
    assert s.requests == map[1 := Done] && s.arrivals == map[1 := Arrival(0, 0)] && s.published == [0];
  }

  lemma OneSleeper()
    ensures After(FIRST_PUBLISH + THEN_SLEEPER)
            == Some(State(Shared(Some(0), true), 0, map[1 := Done, 2 := Sleeping(750)],
                          map[1 := Arrival(0, 0), 2 := Arrival(0, 1)], [0]))
  {
    FirstPublish();
    Extends(FIRST_PUBLISH, Call(2));
    Extends(FIRST_PUBLISH + [Call(2)], Lock(2));
    var s := After(FIRST_PUBLISH + [Call(2)] + [Lock(2)]).value;
    assert s.requests == map[1 := Done, 2 := Deciding(750)];
    assert s.arrivals == map[1 := Arrival(0, 0), 2 := Arrival(0, 1)];
    SleeperArms(FIRST_PUBLISH + [Call(2)] + [Lock(2)], 2);
    assert FIRST_PUBLISH + [Call(2)] + [Lock(2)] + [Spawn(2)] + [StartSleep(2)] == FIRST_PUBLISH + THEN_SLEEPER;
    assert s.requests[2 := Sleeping(750)] == map[1 := Done, 2 := Sleeping(750)];
  }

  lemma SleeperArms(events: seq<Event>, r: nat)
    requires After(events).Some? && Enabled(After(events).value, Spawn(r))
    ensures var s := After(events).value;
            After(events + [Spawn(r)] + [StartSleep(r)])
            == Some(s.(requests := s.requests[r := Sleeping(s.clock + s.requests[r].delay)]))
  {
    var s := After(events).value;
    Extends(events, Spawn(r));
    Extends(events + [Spawn(r)], StartSleep(r));
    assert s.requests[r := Scheduled(s.requests[r].delay)][r := Sleeping(s.clock + s.requests[r].delay)]
           == s.requests[r := Sleeping(s.clock + s.requests[r].delay)];
  }

  /** That situation arises: two requests, and a third after the sleeper's deadline. */
  lemma LateSleeperIsReachable()
    ensures exists events, sleeper, r :: After(events).Some?
              && Enabled(After(events).value, Wake(sleeper)) && Enabled(After(events).value, Lock(r))
              && Decided(After(events).value.g, After(events).value.requests[r].now).PublishNow?
  {
    OneSleeper();
    var armed := FIRST_PUBLISH + THEN_SLEEPER;
    Extends(armed, Tick(800));
    Extends(armed + [Tick(800)], Call(3));
    var s := After(armed + [Tick(800)] + [Call(3)]).value;
    assert Enabled(s, Wake(2)) && Enabled(s, Lock(3));
  }

  lemma Extends(events: seq<Event>, e: Event)
    requires After(events).Some? && Enabled(After(events).value, e)
    ensures After(events + [e]) == Some(Step(After(events).value, e))
  {
    assert (events + [e])[..|events + [e]| - 1] == events;
  }

  lemma ExtendsPrompt(events: seq<Event>, e: Event)
    requires After(events).Some? && AllPrompt(events) && Enabled(After(events).value, e)
            && Prompt(After(events).value, e)
    ensures After(events + [e]).Some? && AllPrompt(events + [e])
  {
    Extends(events, e);
    assert (events + [e])[..|events + [e]| - 1] == events;
  }

  /** Nobody is between stamping and sending. */
  predicate NobodySending(s: State) {
    forall q :: q in s.requests ==> !s.requests[q].Publishing?
  }

  lemma EarlyEvent(s: State, r: nat)
    requires TimedInv(s) && Enabled(s, Lock(r)) && Decided(s.g, s.clock).SleepFor?
    ensures Then(Then(Then(s, Lock(r)), NoRuntime(r)), Publish(r)).published == s.published + [s.clock]
    ensures s.g.lastPublishedAt.Some? && s.clock < s.g.lastPublishedAt.value + MODELS_UPDATED_DEBOUNCE
  {
    assert OnTime(s, r);
  }

  lemma StampIsLastEvent(s: State)
    requires TimedInv(s) && NobodySending(s) && s.g.lastPublishedAt.Some?
    ensures s.published != [] && s.g.lastPublishedAt == Some(s.published[|s.published| - 1])
  {
  }

  /** In a run on time so far, a caller outside any runtime that ought to wait publishes at once, less than 750 ms after
      the last event. */
  lemma NoRuntimePublishesEarly(events: seq<Event>, r: nat)
    requires After(events).Some? && AllPrompt(events) && NobodySending(After(events).value)
    requires Enabled(After(events).value, Lock(r))
            && Decided(After(events).value.g, After(events).value.clock).SleepFor?
    ensures var s := After(events).value;
            var end := Then(Then(Then(s, Lock(r)), NoRuntime(r)), Publish(r));
            && s.published != [] && end.published == s.published + [s.clock]
            && s.clock < s.published[|s.published| - 1] + MODELS_UPDATED_DEBOUNCE
            && !Spaced(end.published)
  {
    TimedOverRuns(events);
    EarlyEvent(After(events).value, r);
    StampIsLastEvent(After(events).value);
    var s := After(events).value;
    var end := Then(Then(Then(s, Lock(r)), NoRuntime(r)), Publish(r));
    assert end.published[|s.published|] == s.clock
            && end.published[|s.published| - 1] == s.published[|s.published| - 1];
  }

  /** Such a state is reached by two requests at the same instant. */
  lemma NoRuntimeCaseIsReachable()
    ensures var events := FIRST_PUBLISH + [Call(2)];
            && After(events).Some? && AllPrompt(events) && NobodySending(After(events).value)
            && Enabled(After(events).value, Lock(2))
               && Decided(After(events).value.g, After(events).value.clock).SleepFor?
  {
    FirstPublish();
    FirstPublishIsPrompt();
    Extends(FIRST_PUBLISH, Call(2));
    ExtendsPrompt(FIRST_PUBLISH, Call(2));
  }

  lemma FirstPublishIsPrompt()
    ensures After(FIRST_PUBLISH).Some? && AllPrompt(FIRST_PUBLISH)
  {
    Extends([], Call(1));
    ExtendsPrompt([], Call(1));
    assert [] + [Call(1)] == [Call(1)];
    Extends([Call(1)], Lock(1));
    ExtendsPrompt([Call(1)], Lock(1));
    assert [Call(1)] + [Lock(1)] == [Call(1), Lock(1)];
    ExtendsPrompt([Call(1), Lock(1)], Publish(1));
    assert [Call(1), Lock(1)] + [Publish(1)] == FIRST_PUBLISH;
  }

  lemma LateWake(s: State, r: nat, d: nat)
    requires r in s.requests && s.requests[r].Sleeping? && s.clock + d >= s.requests[r].until
    ensures Then(Then(Then(s, Tick(d)), Wake(r)), Publish(r)).published == s.published + [s.clock + d]
  {
    var ticked := Then(s, Tick(d));
    var woken := Then(ticked, Wake(r));
    assert ticked.requests == s.requests && ticked.clock == s.clock + d;
    assert woken.requests[r].Publishing? && woken.clock == s.clock + d && woken.published == s.published;
  }

  lemma LateWakeIsSpaced(s: State, r: nat, d: nat)
    requires TimedInv(s) && NobodySending(s)
    requires r in s.requests && s.requests[r].Sleeping? && s.clock + d >= s.requests[r].until
    ensures Spaced(s.published + [s.clock + d])
  {
    assert OnTime(s, r);
  }

  lemma OneMoreEvent(s: State, end: State, at: nat, a: nat)
    requires end.published == s.published + [at] && a <= at
    ensures ServedInTime(end, a) <==> ServedInTime(s, a) || at <= a + MODELS_UPDATED_DEBOUNCE
  {
    if ServedInTime(s, a) {
      StaysServedInTime(s, end, a);
    }
    if at <= a + MODELS_UPDATED_DEBOUNCE {
      assert end.published[|s.published|] == at;
    }
    if ServedInTime(end, a) && at > a + MODELS_UPDATED_DEBOUNCE {
      var k :| 0 <= k < |end.published| && a <= end.published[k] <= a + MODELS_UPDATED_DEBOUNCE;
      assert s.published[k] == end.published[k];
    }
  }

  /** The late sleeper's event, its place after the others, and whether the request was served in time. */
  ghost predicate LateCosts(s: State, end: State, at: nat, a: nat) {
    && end.published == s.published + [at] && Spaced(end.published)
    && (ServedInTime(end, a) <==> ServedInTime(s, a) || at <= a + MODELS_UPDATED_DEBOUNCE)
  }

  ghost predicate ArrivedBefore(s: State) {
    s.arrivals.Keys == s.requests.Keys && forall r :: r in s.arrivals ==> s.arrivals[r].time <= s.clock
  }

  lemma ArrivalsOverRuns(events: seq<Event>)
    requires After(events).Some?
    ensures ArrivedBefore(After(events).value)
  {
    DebounceOverRuns(events);
  }

  lemma LateWakeCosts(s: State, r: nat, d: nat)
    requires TimedInv(s) && NobodySending(s) && ArrivedBefore(s)
    requires r in s.requests && s.requests[r].Sleeping? && s.clock + d >= s.requests[r].until
    ensures r in s.arrivals
            && LateCosts(s, Then(Then(Then(s, Tick(d)), Wake(r)), Publish(r)), s.clock + d, s.arrivals[r].time)
  {
    LateWake(s, r, d);
    LateWakeIsSpaced(s, r, d);
    OneMoreEvent(s, Then(Then(Then(s, Tick(d)), Wake(r)), Publish(r)), s.clock + d, s.arrivals[r].time);
  }

  /** How far being on time is needed: a sleeper that wakes late without being overtaken never breaks the spacing, and
      its own request is served in time exactly when it wakes within 750 ms of the request, unless an earlier event
      already served it. */
  lemma LateWakeCostsLatencyOnly(events: seq<Event>, s: State, r: nat, d: nat)
    requires After(events) == Some(s) && AllPrompt(events) && NobodySending(s)
    requires r in s.requests && s.requests[r].Sleeping? && s.clock + d >= s.requests[r].until
    ensures r in s.arrivals
            && LateCosts(s, Then(Then(Then(s, Tick(d)), Wake(r)), Publish(r)), s.clock + d, s.arrivals[r].time)
  {
    TimedOverRuns(events);
    ArrivalsOverRuns(events);
    LateWakeCosts(s, r, d);
  }
}
