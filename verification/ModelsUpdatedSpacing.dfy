/** When the debounced events are 750 ms apart, exactly: sleepers may be late by any amount and callers may be outside a
    runtime; only the short stretches between reading the clock, deciding and sending take no time. */
module ModelsUpdatedSpacing {
  import opened Wrappers
  import opened ModelsUpdatedBus

  /** Time passes only while every request is over, absorbed or asleep, however overdue the sleeper. */
  predicate Swift(s: State, e: Event) {
    e.Tick? ==>
      forall r :: r in s.requests ==> s.requests[r].Done? || s.requests[r].Absorbed? || s.requests[r].Sleeping?
  }

  predicate AllSwift(events: seq<Event>)
    requires After(events).Some?
  {
    events == []
    || (var before := After(events[..|events| - 1]);
        before.Some? && AllSwift(events[..|events| - 1]) && Swift(before.value, events[|events| - 1]))
  }

  /** A caller outside a runtime does not wait, or a sleeper wakes less than 750 ms after the last stamp. */
  predicate Early(s: State, e: Event) {
    || e.NoRuntime?
    || (e.Wake? && s.g.lastPublishedAt.Some? && s.clock < s.g.lastPublishedAt.value + MODELS_UPDATED_DEBOUNCE)
  }

  predicate NoneEarly(events: seq<Event>)
    requires After(events).Some?
  {
    events == []
    || (var before := events[..|events| - 1];
        NoneEarly(before) && !Early(After(before).value, events[|events| - 1]))
  }

  // ---- The stamps of a run, which the events follow ----

  predicate Stamps(s: State, e: Event)
    requires Enabled(s, e)
  {
    e.NoRuntime? || e.Wake? || (e.Lock? && Decided(s.g, s.requests[e.r].now).PublishNow?)
  }

  function AllStamps(events: seq<Event>): seq<nat>
    requires After(events).Some?
  {
    if events == [] then []
    else
      var before := events[..|events| - 1];
      var s, e := After(before).value, events[|events| - 1];
      AllStamps(before) + if Stamps(s, e) then [s.clock] else []
  }

  ghost function Senders(s: State): set<nat> {
    set r | r in s.requests && s.requests[r].Publishing?
  }

  predicate Timely(s: State, r: nat)
    requires r in s.requests
  {
    var last := s.g.lastPublishedAt;
    match s.requests[r]
    case Called(now) => now == s.clock
    case Deciding(_) => last.Some? && s.clock < last.value + MODELS_UPDATED_DEBOUNCE
    case _ => true
  }

  predicate StampsFit(s: State, stamps: seq<nat>) {
    && s.g.lastPublishedAt == (if stamps == [] then None else Some(stamps[|stamps| - 1]))
    && (stamps != [] ==> stamps[|stamps| - 1] <= s.clock)
    && s.published <= stamps
    && (forall i :: |s.published| <= i < |stamps| ==> stamps[i] == s.clock)
  }

  ghost predicate SwiftInv(s: State, stamps: seq<nat>) {
    && OnePending(s)
    && (forall r :: r in s.requests ==> Timely(s, r))
    && StampsFit(s, stamps)
    && |stamps| == |s.published| + |Senders(s)|
  }

  function NextStamps(s: State, e: Event, stamps: seq<nat>): seq<nat>
    requires Enabled(s, e)
  {
    stamps + if Stamps(s, e) then [s.clock] else []
  }

  lemma SendersMove(s: State, e: Event)
    requires Enabled(s, e)
    ensures Senders(Step(s, e)) ==
            if Stamps(s, e) then Senders(s) + {e.r} else if e.Publish? then Senders(s) - {e.r} else Senders(s)
    ensures Stamps(s, e) ==> e.r !in Senders(s)
    ensures e.Publish? ==> e.r in Senders(s)
  {
  }

  lemma StepKeepsTimely(s: State, e: Event, r: nat, stamps: seq<nat>)
    requires SwiftInv(s, stamps) && Enabled(s, e) && Swift(s, e) && r in Step(s, e).requests
    ensures Timely(Step(s, e), r)
  {
    if r in s.requests {
      assert Timely(s, r);
    }
    if e.Lock? {
      assert Timely(s, e.r);
    } else if e.Wake? || e.NoRuntime? {
      assert Holds(s, e.r);
      assert r != e.r ==> !Holds(s, r);
    }
  }

  lemma StepKeepsFit(s: State, e: Event, stamps: seq<nat>)
    requires SwiftInv(s, stamps) && Enabled(s, e) && Swift(s, e)
    ensures StampsFit(Step(s, e), NextStamps(s, e, stamps))
  {
    if e.Lock? {
      assert Timely(s, e.r);
    } else if e.Tick? {
      assert Senders(s) == {};
    } else if e.Publish? {
      assert e.r in Senders(s);
    }
  }

  lemma StepKeepsSwift(s: State, e: Event, stamps: seq<nat>)
    requires SwiftInv(s, stamps) && Enabled(s, e) && Swift(s, e)
    ensures SwiftInv(Step(s, e), NextStamps(s, e, stamps))
  {
    StepKeepsOnePending(s, e);
    StepKeepsFit(s, e, stamps);
    SendersMove(s, e);
    forall r | r in Step(s, e).requests ensures Timely(Step(s, e), r) {
      StepKeepsTimely(s, e, r, stamps);
    }
  }

  lemma {:induction false} SwiftOverRuns(events: seq<Event>)
    requires After(events).Some? && AllSwift(events)
    ensures SwiftInv(After(events).value, AllStamps(events))
  {
    if events == [] {
      assert Senders(Init()) == {};
    } else {
      var before := events[..|events| - 1];
      SwiftOverRuns(before);
      StepKeepsSwift(After(before).value, events[|events| - 1], AllStamps(before));
    }
  }

  lemma SpacedSnoc(stamps: seq<nat>, at: nat)
    ensures Spaced(stamps + [at]) <==>
              Spaced(stamps) && (stamps != [] ==> stamps[|stamps| - 1] + MODELS_UPDATED_DEBOUNCE <= at)
  {
    var longer := stamps + [at];
    if Spaced(longer) {
      forall k | 0 < k < |stamps| ensures stamps[k - 1] + MODELS_UPDATED_DEBOUNCE <= stamps[k] {
        assert longer[k - 1] + MODELS_UPDATED_DEBOUNCE <= longer[k];
      }
      if stamps != [] {
        assert longer[|stamps| - 1] + MODELS_UPDATED_DEBOUNCE <= longer[|stamps|];
      }
    }
  }

  lemma StepSpacedIff(s: State, e: Event, stamps: seq<nat>)
    requires SwiftInv(s, stamps) && Enabled(s, e)
    ensures Spaced(NextStamps(s, e, stamps)) <==> Spaced(stamps) && !Early(s, e)
  {
    SpacedSnoc(stamps, s.clock);
    if e.Lock? || e.NoRuntime? {
      assert Timely(s, e.r);
    }
    assert stamps + [] == stamps;
  }

  lemma {:induction false} StampsSpacedIff(events: seq<Event>)
    requires After(events).Some? && AllSwift(events)
    ensures Spaced(AllStamps(events)) <==> NoneEarly(events)
  {
    if events != [] {
      var before := events[..|events| - 1];
      StampsSpacedIff(before);
      SwiftOverRuns(before);
      StepSpacedIff(After(before).value, events[|events| - 1], AllStamps(before));
    }
  }

  /** With sleepers late by any amount and callers inside or outside a runtime: when nobody is sending, the events are
      at least 750 ms apart exactly when no caller was outside a runtime and no sleeper woke less than 750 ms after the
      last stamp. */
  lemma SpacedIff(events: seq<Event>)
    requires After(events).Some? && AllSwift(events) && NobodySending(After(events).value)
    ensures Spaced(After(events).value.published) <==> NoneEarly(events)
  {
    SwiftOverRuns(events);
    StampsSpacedIff(events);
    assert Senders(After(events).value) == {};
    assert After(events).value.published == AllStamps(events);
  }

  /** Runs on time are a special case. */
  lemma {:induction false} PromptIsNeverEarly(events: seq<Event>)
    requires After(events).Some? && AllPrompt(events)
    ensures AllSwift(events) && NoneEarly(events)
  {
    if events != [] {
      var before, e := events[..|events| - 1], events[|events| - 1];
      PromptIsNeverEarly(before);
      TimedOverRuns(before);
      var s := After(before).value;
      if e.Wake? {
        WakeOnTime(s, e);
        assert OnTime(s, e.r);
      }
    }
  }

  // ---- The two failures, as instances ----

  lemma SwiftSnoc(events: seq<Event>, e: Event)
    requires After(events).Some? && AllSwift(events) && Enabled(After(events).value, e) && Swift(After(events).value, e)
    ensures After(events + [e]) == Some(Step(After(events).value, e)) && AllSwift(events + [e])
    ensures NoneEarly(events + [e]) <==> NoneEarly(events) && !Early(After(events).value, e)
  {
    Extends(events, e);
    assert (events + [e])[..|events + [e]| - 1] == events;
  }

  /** A request that overtakes a sleeper which is due stamps first, so the sleeper wakes early and the spacing is
      gone. */
  lemma OvertakenSleeperIsEarly(events: seq<Event>, sleeper: nat, r: nat)
    requires After(events).Some? && AllSwift(events) && NobodySending(After(events).value)
    requires Enabled(After(events).value, Wake(sleeper)) && Enabled(After(events).value, Lock(r))
    requires Decided(After(events).value.g, After(events).value.clock).PublishNow?
    ensures var run := events + [Lock(r)] + [Publish(r)] + [Wake(sleeper)] + [Publish(sleeper)];
            After(run).Some? && !NoneEarly(run) && !Spaced(After(run).value.published)
  {
    SwiftOverRuns(events);
    var s := After(events).value;
    assert Timely(s, r);
    SwiftSnoc(events, Lock(r));
    SwiftSnoc(events + [Lock(r)], Publish(r));
    SwiftSnoc(events + [Lock(r)] + [Publish(r)], Wake(sleeper));
    SwiftSnoc(events + [Lock(r)] + [Publish(r)] + [Wake(sleeper)], Publish(sleeper));
    var run := events + [Lock(r)] + [Publish(r)] + [Wake(sleeper)] + [Publish(sleeper)];
    forall q | q in After(run).value.requests ensures !After(run).value.requests[q].Publishing? {
      assert q in s.requests;
    }
    SpacedIff(run);
  }

  /** A caller outside any runtime that ought to wait is early by definition. */
  lemma NoRuntimeIsEarly(events: seq<Event>, r: nat)
    requires After(events).Some? && AllSwift(events) && NobodySending(After(events).value)
    requires Enabled(After(events).value, NoRuntime(r))
    ensures var run := events + [NoRuntime(r)] + [Publish(r)];
            After(run).Some? && !NoneEarly(run) && !Spaced(After(run).value.published)
  {
    SwiftSnoc(events, NoRuntime(r));
    SwiftSnoc(events + [NoRuntime(r)], Publish(r));
    var run := events + [NoRuntime(r)] + [Publish(r)];
    forall q | q in After(run).value.requests ensures !After(run).value.requests[q].Publishing? {
      assert q in After(events).value.requests;
    }
    SpacedIff(run);
  }

  /** Lateness alone costs nothing: two requests, and a sleeper that wakes 50 ms late. */
  lemma LateButSpaced()
    ensures var run := FIRST_PUBLISH + THEN_SLEEPER + [Tick(800)] + [Wake(2)] + [Publish(2)];
            After(run).Some? && After(run).value.published == [0, 800] && Spaced(After(run).value.published)
  {
    OneSleeper();
    Extends(FIRST_PUBLISH + THEN_SLEEPER, Tick(800));
    Extends(FIRST_PUBLISH + THEN_SLEEPER + [Tick(800)], Wake(2));
    Extends(FIRST_PUBLISH + THEN_SLEEPER + [Tick(800)] + [Wake(2)], Publish(2));
  }
}
