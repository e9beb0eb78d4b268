/** When every request is followed by an event within 750 ms, exactly, however late the sleepers are: in each stretch
    between two events only the first request matters. */
module ModelsUpdatedLatency {
  import opened Wrappers
  import opened ModelsUpdatedBus
  import opened ModelsUpdatedSpacing

  /** An event was published after the request came and within 750 ms of it. */
  ghost predicate ServedWithin(s: State, r: nat)
    requires r in s.arrivals
  {
    exists k :: s.arrivals[r].published <= k < |s.published|
                && s.published[k] <= s.arrivals[r].time + MODELS_UPDATED_DEBOUNCE
  }

  /** Every request that was followed by an event was served in time. */
  ghost predicate ServedSoFar(s: State) {
    forall r :: r in s.arrivals && s.arrivals[r].published < |s.published| ==> ServedWithin(s, r)
  }

  function NextFirst(s: State, e: Event, first: Option<nat>): Option<nat> {
    if e.Publish? then None else if e.Call? && first.None? then Some(s.clock) else first
  }

  /** When the first request came since the last event. */
  function FirstSince(events: seq<Event>): Option<nat>
    requires After(events).Some?
  {
    if events == [] then None
    else
      var before := events[..|events| - 1];
      NextFirst(After(before).value, events[|events| - 1], FirstSince(before))
  }

  predicate Overdue(s: State, first: Option<nat>) {
    first.Some? && first.value + MODELS_UPDATED_DEBOUNCE < s.clock
  }

  /** Somebody is let through to publish, but the first request waiting for it came more than 750 ms ago. */
  predicate Tardy(s: State, e: Event, first: Option<nat>)
    requires Enabled(s, e)
  {
    Stamps(s, e) && Overdue(s, first)
  }

  predicate NoneTardy(events: seq<Event>)
    requires After(events).Some?
  {
    events == []
    || (var before := events[..|events| - 1];
        NoneTardy(before) && !Tardy(After(before).value, events[|events| - 1], FirstSince(before)))
  }

  // ---- Times of events and requests ----

  /** The request came after the events published before it and before the others. */
  predicate CameBetween(s: State, r: nat)
    requires r in s.arrivals
  {
    && s.arrivals[r].published <= |s.published|
    && s.arrivals[r].time <= s.clock
    && (forall k :: 0 <= k < s.arrivals[r].published ==> s.published[k] <= s.arrivals[r].time)
    && (forall k :: s.arrivals[r].published <= k < |s.published| ==> s.arrivals[r].time <= s.published[k])
  }

  predicate InOrder(s: State) {
    && (forall j, k :: 0 <= j < k < |s.published| ==> s.published[j] <= s.published[k])
    && (forall k :: 0 <= k < |s.published| ==> s.published[k] <= s.clock)
    && (forall r :: r in s.arrivals ==> CameBetween(s, r))
  }

  predicate Unserved(s: State, r: nat) {
    r in s.arrivals && s.arrivals[r].published == |s.published|
  }

  ghost predicate FirstFits(s: State, first: Option<nat>) {
    && (first.None? ==> forall r :: !Unserved(s, r))
    && (first.Some? ==>
          && (exists r :: Unserved(s, r) && s.arrivals[r].time == first.value)
          && (forall r :: Unserved(s, r) ==> first.value <= s.arrivals[r].time))
  }

  /** `fine` says that no request so far was or is going to be served late. */
  ghost predicate LatenessIs(s: State, first: Option<nat>, fine: bool) {
    fine <==> ServedSoFar(s) && (NobodySending(s) || !Overdue(s, first))
  }

  ghost predicate LateInv(s: State, first: Option<nat>, fine: bool) {
    s.arrivals.Keys == s.requests.Keys && InOrder(s) && FirstFits(s, first) && LatenessIs(s, first, fine)
  }

  lemma StepKeepsOrder(s: State, e: Event)
    requires InOrder(s) && Enabled(s, e)
    ensures InOrder(Step(s, e))
  {
    var s' := Step(s, e);
    forall r | r in s'.arrivals ensures CameBetween(s', r) {
      if r in s.arrivals {
        assert CameBetween(s, r);
      }
    }
  }

  lemma StepMovesFirst(s: State, e: Event, first: Option<nat>)
    requires s.arrivals.Keys == s.requests.Keys && InOrder(s) && FirstFits(s, first) && Enabled(s, e)
    ensures FirstFits(Step(s, e), NextFirst(s, e, first))
  {
    var s' := Step(s, e);
    match e
    case Publish(_) =>
      forall r ensures !Unserved(s', r) {
        assert r in s.arrivals ==> CameBetween(s, r);
      }
    case Call(r) =>
      assert Unserved(s', r);
      assert forall q :: Unserved(s', q) ==> q == r || Unserved(s, q);
      if first.Some? {
        var q :| Unserved(s, q) && s.arrivals[q].time == first.value;
        assert CameBetween(s, q);
        assert Unserved(s', q) && s'.arrivals[q].time == first.value;
      }
    case _ =>
      assert forall r :: Unserved(s', r) <==> Unserved(s, r);
  }

  /** For a request that was followed by an event, one more event changes nothing. */
  lemma LaterEventsDoNotServe(s: State, r: nat, at: nat)
    requires InOrder(s) && r in s.arrivals && s.arrivals[r].published < |s.published| && s.clock <= at
    ensures ServedWithin(s.(published := s.published + [at]), r) <==> ServedWithin(s, r)
  {
    var longer := s.(published := s.published + [at]);
    var first := s.arrivals[r].published;
    assert longer.published[first] == s.published[first];
    if ServedWithin(s, r) {
      var k :| first <= k < |s.published| && s.published[k] <= s.arrivals[r].time + MODELS_UPDATED_DEBOUNCE;
      assert longer.published[k] == s.published[k];
    }
  }

  lemma NextEventServes(s: State, r: nat)
    requires Unserved(s, r)
    ensures ServedWithin(s.(published := s.published + [s.clock]), r) <==>
              s.clock <= s.arrivals[r].time + MODELS_UPDATED_DEBOUNCE
  {
    assert (s.published + [s.clock])[|s.published|] == s.clock;
  }

  /** Sending serves those that wait, all of them in time exactly when the first of them is. */
  lemma PublishServesSoFar(s: State, e: Event, first: Option<nat>)
    requires InOrder(s) && FirstFits(s, first) && Enabled(s, e) && e.Publish?
    ensures ServedSoFar(Step(s, e)) <==> ServedSoFar(s) && !Overdue(s, first)
  {
    var s' := Step(s, e);
    var longer := s.(published := s.published + [s.clock]);
    assert forall r :: r in s.arrivals ==> (ServedWithin(s', r) <==> ServedWithin(longer, r));
    forall r | r in s.arrivals
      ensures ServedWithin(s', r) <==>
                if Unserved(s, r) then s.clock <= s.arrivals[r].time + MODELS_UPDATED_DEBOUNCE else ServedWithin(s, r)
    {
      assert CameBetween(s, r);
      if Unserved(s, r) {
        NextEventServes(s, r);
      } else {
        LaterEventsDoNotServe(s, r, s.clock);
      }
    }
    if Overdue(s, first) {
      var q :| Unserved(s, q) && s.arrivals[q].time == first.value;
      assert !ServedWithin(s', q);
    }
  }

  lemma ServedSoFarMoves(s: State, e: Event)
    requires s.arrivals.Keys == s.requests.Keys && InOrder(s) && Enabled(s, e) && !e.Publish?
    ensures ServedSoFar(Step(s, e)) <==> ServedSoFar(s)
  {
    var s' := Step(s, e);
    forall r | r in s.arrivals ensures r in s'.arrivals && (ServedWithin(s', r) <==> ServedWithin(s, r)) {
      assert s'.arrivals[r] == s.arrivals[r];
    }
  }

  lemma SendingMoves(s: State, e: Event)
    requires Enabled(s, e)
    ensures Stamps(s, e) ==> !NobodySending(Step(s, e))
    ensures e.Publish? ==> !NobodySending(s)
    ensures !Stamps(s, e) && !e.Publish? ==> (NobodySending(Step(s, e)) <==> NobodySending(s))
  {
    var s' := Step(s, e);
    if Stamps(s, e) {
      assert s'.requests[e.r].Publishing?;
    } else if !e.Publish? && !NobodySending(s) {
      var q :| q in s.requests && s.requests[q].Publishing?;
      assert s'.requests[q].Publishing?;
    }
  }

  lemma StepMovesLateness(s: State, e: Event, first: Option<nat>, fine: bool)
    requires LateInv(s, first, fine) && Enabled(s, e) && Swift(s, e)
    ensures LatenessIs(Step(s, e), NextFirst(s, e, first), fine && !Tardy(s, e, first))
  {
    SendingMoves(s, e);
    if e.Publish? {
      PublishServesSoFar(s, e, first);
    } else {
      ServedSoFarMoves(s, e);
    }
  }

  lemma {:induction false} LatenessOverRuns(events: seq<Event>)
    requires After(events).Some? && AllSwift(events)
    ensures LateInv(After(events).value, FirstSince(events), NoneTardy(events))
  {
    if events != [] {
      var before, e := events[..|events| - 1], events[|events| - 1];
      LatenessOverRuns(before);
      var s := After(before).value;
      StepKeepsOrder(s, e);
      StepMovesFirst(s, e, FirstSince(before));
      StepMovesLateness(s, e, FirstSince(before), NoneTardy(before));
    }
  }

  /** With sleepers late by any amount and callers inside or outside a runtime: when nobody is sending, every request
      that was followed by an event was followed by one within 750 ms exactly when nobody was let through to publish
      more than 750 ms after the first request since the event before. */
  lemma ServedInTimeIff(events: seq<Event>)
    requires After(events).Some? && AllSwift(events) && NobodySending(After(events).value)
    ensures ServedSoFar(After(events).value) <==> NoneTardy(events)
  {
    LatenessOverRuns(events);
  }

  /** Once every request is over or absorbed, that is every request. */
  lemma AllServedInTimeIff(events: seq<Event>)
    requires After(events).Some? && AllSwift(events)
    requires var s := After(events).value;
             forall r :: r in s.requests ==> s.requests[r].Done? || s.requests[r].Absorbed?
    ensures var s := After(events).value;
            && s.arrivals.Keys == s.requests.Keys
            && ((forall r :: r in s.requests ==> ServedWithin(s, r)) <==> NoneTardy(events))
  {
    var s := After(events).value;
    ServedInTimeIff(events);
    DebounceOverRuns(events);
    forall r | r in s.requests ensures s.arrivals[r].published < |s.published| {
      QuietMeansServed(events, r);
    }
  }

  lemma WaitsForSomeone(s: State, q: nat)
    requires NothingLost(s) && Unserved(s, q)
    ensures q in s.requests && (s.requests[q].Called? || SomeoneWillPublish(s))
  {
  }

  lemma PromptStampIsNotTardy(s: State, e: Event, first: Option<nat>)
    requires TimedInv(s) && NothingLost(s) && InOrder(s) && FirstFits(s, first)
    requires Enabled(s, e) && Prompt(s, e) && Stamps(s, e)
    ensures !Overdue(s, first)
  {
    if first.Some? {
      var q :| Unserved(s, q) && s.arrivals[q].time == first.value;
      assert CameBetween(s, q) && OnTime(s, e.r) && OnTime(s, q);
      if e.Wake? {
        WakeOnTime(s, e);
      } else {
        LockOnTime(s, e);
        WaitsForSomeone(s, q);
        assert !SomeoneWillPublish(s);
      }
    }
  }

  /** Runs on time are never late. */
  lemma {:induction false} PromptIsNeverTardy(events: seq<Event>)
    requires After(events).Some? && AllPrompt(events)
    ensures AllSwift(events) && NoneTardy(events)
  {
    PromptIsNeverEarly(events);
    if events != [] {
      var before, e := events[..|events| - 1], events[|events| - 1];
      PromptIsNeverTardy(before);
      TimedOverRuns(before);
      DebounceOverRuns(before);
      LatenessOverRuns(before);
      if Stamps(After(before).value, e) {
        PromptStampIsNotTardy(After(before).value, e, FirstSince(before));
      }
    }
  }

  /** Spacing and latency fail apart: a sleeper that wakes 50 ms late leaves the events 750 ms apart, and its request is
      served too late. */
  lemma LateSleeperIsTardy()
    ensures var run := FIRST_PUBLISH + THEN_SLEEPER + [Tick(800)] + [Wake(2)] + [Publish(2)];
            && After(run).Some? && Spaced(After(run).value.published)
            && 2 in After(run).value.arrivals && !ServedWithin(After(run).value, 2)
  {
    OneSleeper();
    LateButSpaced();
    Extends(FIRST_PUBLISH + THEN_SLEEPER, Tick(800));
    Extends(FIRST_PUBLISH + THEN_SLEEPER + [Tick(800)], Wake(2));
    Extends(FIRST_PUBLISH + THEN_SLEEPER + [Tick(800)] + [Wake(2)], Publish(2));
  }
}
