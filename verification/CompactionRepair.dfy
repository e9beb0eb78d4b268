/** A transcript repair under compaction: the whole splice as insertions that the manager is not told of, and what it
    does to coverage and to the messages sent. */
module CompactionRepair {
  import opened Wrappers
  import opened Messages
  import opened CompactionCore
  import opened CompactionModel
  import opened CompactionRuns
  import opened CompactionTools
  import Repair = ToolRepair

  type Places = seq<(nat, seq<string>)>

  /** The results for the missing ids go in behind message `after`, one by one. */
  function InsertOps(after: nat, ids: seq<string>): seq<Op> {
    seq(|ids|, i requires 0 <= i < |ids| => Insert(after + i, Repair.MissingResult(ids[i])))
  }

  /** The insertions of a repair, `inserted` messages having gone in before. */
  function RepairOps(repairs: Places, inserted: nat): seq<Op> {
    if repairs == [] then []
    else InsertOps(repairs[0].0 + inserted, repairs[0].1) + RepairOps(repairs[1..], inserted + |repairs[0].1|)
  }

  lemma {:induction false} RunConcat(w: World, a: seq<Op>, b: seq<Op>)
    ensures Run(w, a + b) == Run(Run(w, a), b)
  {
    if b == [] {
      assert a + b == a;
    } else {
      assert (a + b)[..|a + b| - 1] == a + b[..|b| - 1];
      RunConcat(w, a, b[..|b| - 1]);
    }
  }

  /** Indices after `n` messages were put in at place `at`. */
  ghost function ShiftedBy(indices: set<nat>, at: nat, n: nat): (r: set<nat>)
    ensures forall i: nat :: i in r <==> (i < at && i in indices) || (i >= at + n && i - n in indices)
  {
    (set i | i in indices && i < at) + (set i | i in indices && i >= at :: i + n)
  }

  /** All results for one message, in one piece. */
  ghost function WithPlace(w: World, place: nat, ids: seq<string>): World {
    var at := Min(place, |w.t|);
    w.(t := w.t[..at] + Repair.MissingResults(ids) + w.t[at..],
       covers := ShiftedBy(w.covers, at, |ids|), taskCovers := ShiftedBy(w.taskCovers, at, |ids|))
  }

  ghost function Repaired(w: World, repairs: Places, inserted: nat): World
    decreases |repairs|
  {
    if repairs == [] then w
    else Repaired(WithPlace(w, repairs[0].0 + 1 + inserted, repairs[0].1), repairs[1..], inserted + |repairs[0].1|)
  }

  // ---- The insertions one by one ----

  lemma InsertOpsSnoc(after: nat, ids: seq<string>)
    requires ids != []
    ensures var init := ids[..|ids| - 1];
            && InsertOps(after, ids)[..|ids| - 1] == InsertOps(after, init)
            && InsertOps(after, ids)[|ids| - 1] == Insert(after + |init|, Repair.MissingResult(ids[|ids| - 1]))
  {
  }

  lemma PieceGrows(t: seq<Message>, at: nat, ids: seq<string>, id: string)
    requires at <= |t|
    ensures var s := t[..at] + Repair.MissingResults(ids) + t[at..];
            && at + |ids| <= |s|
            && s[..at + |ids|] + [Repair.MissingResult(id)] + s[at + |ids|..]
               == t[..at] + Repair.MissingResults(ids + [id]) + t[at..]
  {
    assert Repair.MissingResults(ids + [id]) == Repair.MissingResults(ids) + [Repair.MissingResult(id)];
  }

  lemma ShiftOnce(indices: set<nat>, at: nat, n: nat)
    ensures Shifted(ShiftedBy(indices, at, n), at + n) == ShiftedBy(indices, at, n + 1)
    ensures ShiftedBy(indices, at, 0) == indices
  {
    var next, whole := Shifted(ShiftedBy(indices, at, n), at + n), ShiftedBy(indices, at, n + 1);
    forall i: nat ensures i in next <==> i in whole {
      if i > at + n {
        var before: nat := i - 1;
        assert before in ShiftedBy(indices, at, n) <==> before - n in indices;
      }
    }
  }

  /** A message more at place `at`, for the transcript and what its summaries cover. */
  ghost function WithOne(w: World, at: nat, message: Message): World
    requires at <= |w.t|
  {
    w.(t := w.t[..at] + [message] + w.t[at..], covers := Shifted(w.covers, at), taskCovers := Shifted(w.taskCovers, at))
  }

  lemma InsertIsWithOne(w: World, after: nat, message: Message)
    requires after < |w.t|
    ensures Step(w, Insert(after, message)) == WithOne(w, after + 1, message)
  {
  }

  lemma OneMoreInPlace(w: World, at: nat, ids: seq<string>, id: string)
    requires at <= |w.t|
    ensures at + |ids| <= |WithPlace(w, at, ids).t|
    ensures WithOne(WithPlace(w, at, ids), at + |ids|, Repair.MissingResult(id)) == WithPlace(w, at, ids + [id])
  {
    PieceGrows(w.t, at, ids, id);
    ShiftOnce(w.covers, at, |ids|);
    ShiftOnce(w.taskCovers, at, |ids|);
  }

  lemma LastOfPlace(w: World, after: nat, ids: seq<string>)
    requires after < |w.t| && ids != []
    ensures var init := ids[..|ids| - 1];
            Step(WithPlace(w, after + 1, init), Insert(after + |init|, Repair.MissingResult(ids[|ids| - 1])))
            == WithPlace(w, after + 1, ids)
  {
    var init, id := ids[..|ids| - 1], ids[|ids| - 1];
    assert ids == init + [id];
    OneMoreInPlace(w, after + 1, init, id);
    InsertIsWithOne(WithPlace(w, after + 1, init), after + |init|, Repair.MissingResult(id));
  }

  lemma {:induction false} InsertsFillPlace(w: World, after: nat, ids: seq<string>)
    requires after < |w.t|
    ensures Run(w, InsertOps(after, ids)) == WithPlace(w, after + 1, ids)
  {
    if ids == [] {
      ShiftOnce(w.covers, after + 1, 0);
      ShiftOnce(w.taskCovers, after + 1, 0);
      assert w.t == w.t[..after + 1] + [] + w.t[after + 1..];
    } else {
      InsertsFillPlace(w, after, ids[..|ids| - 1]);
      InsertOpsSnoc(after, ids);
      LastOfPlace(w, after, ids);
    }
  }

  /** The places are inside the transcript, in order, with something to insert at each. */
  predicate Placed(repairs: Places, inserted: nat, len: nat) {
    repairs == []
    || (var rest, n := repairs[1..], |repairs[0].1|;
        && repairs[0].0 + inserted < len && n > 0
        && (rest != [] ==> repairs[0].0 < rest[0].0)
        && Placed(rest, inserted + n, len + n))
  }

  /** The insertions of a repair, one after the other. */
  lemma {:induction false} InsertionsRepair(w: World, repairs: Places, inserted: nat)
    requires Placed(repairs, inserted, |w.t|)
    ensures Run(w, RepairOps(repairs, inserted)) == Repaired(w, repairs, inserted)
    decreases |repairs|
  {
    if repairs != [] {
      var after, n := repairs[0].0 + inserted, inserted + |repairs[0].1|;
      InsertsFillPlace(w, after, repairs[0].1);
      RunConcat(w, InsertOps(after, repairs[0].1), RepairOps(repairs[1..], n));
      InsertionsRepair(WithPlace(w, after + 1, repairs[0].1), repairs[1..], n);
    }
  }

  lemma {:induction false} RepairedIsSpliced(w: World, repairs: Places, inserted: nat)
    ensures var v := Repaired(w, repairs, inserted);
            v.t == Repair.Spliced(w.t, repairs, inserted) && v.m == w.m && v.taskBase == w.taskBase
    decreases |repairs|
  {
    if repairs != [] {
      RepairedIsSpliced(WithPlace(w, repairs[0].0 + 1 + inserted, repairs[0].1), repairs[1..],
                        inserted + |repairs[0].1|);
    }
  }

  // ---- Coverage ----

  lemma BelowShiftsBy(count: nat, at: nat, n: nat)
    ensures count <= at ==> ShiftedBy(Below(count), at, n) == Below(count)
    ensures n > 0 ==> at !in ShiftedBy(Below(count), at, n)
  {
  }

  /** A message that no summary speaks for although it is counted as compacted, or as taken by the pending task. */
  ghost predicate LeftOutAt(w: World, i: nat) {
    || (i < w.m.compacted && i !in w.covers)
    || (w.m.pending.Some? && i < w.taskBase + w.m.pendingCutoff && i !in w.taskCovers)
  }

  lemma LeftOutBreaksCoverage(w: World, i: nat)
    requires LeftOutAt(w, i)
    ensures !CoverageInv(w)
  {
  }

  /** What one place does to coverage. */
  lemma PlaceCoverage(w: World, place: nat, ids: seq<string>)
    requires CoverageInv(w) && place <= |w.t| && ids != []
    ensures TakenEnd(w) <= place ==> CoverageInv(WithPlace(w, place, ids))
    ensures TakenEnd(w) > place ==> LeftOutAt(WithPlace(w, place, ids), place)
    ensures TakenEnd(WithPlace(w, place, ids)) == TakenEnd(w)
  {
    BelowShiftsBy(w.m.compacted, place, |ids|);
    BelowShiftsBy(w.taskBase + w.m.pendingCutoff, place, |ids|);
  }

  lemma StaysLeftOut(w: World, place: nat, ids: seq<string>, i: nat)
    requires LeftOutAt(w, i) && i < place <= |w.t|
    ensures LeftOutAt(WithPlace(w, place, ids), i)
  {
  }

  /** The places come behind message `i`. */
  predicate Behind(repairs: Places, inserted: nat, i: nat) {
    repairs != [] ==> i <= repairs[0].0 + inserted
  }

  lemma {:induction false} LaterPlacesLeaveOut(w: World, repairs: Places, inserted: nat, i: nat)
    requires Placed(repairs, inserted, |w.t|) && LeftOutAt(w, i) && Behind(repairs, inserted, i)
    ensures LeftOutAt(Repaired(w, repairs, inserted), i)
    decreases |repairs|
  {
    if repairs != [] {
      var place := repairs[0].0 + 1 + inserted;
      StaysLeftOut(w, place, repairs[0].1, i);
      LaterPlacesLeaveOut(WithPlace(w, place, repairs[0].1), repairs[1..], inserted + |repairs[0].1|, i);
    }
  }

  lemma {:induction false} PlacesKeepCoverageIff(w: World, repairs: Places, inserted: nat)
    requires CoverageInv(w) && Placed(repairs, inserted, |w.t|)
    ensures CoverageInv(Repaired(w, repairs, inserted)) <==>
              repairs == [] || TakenEnd(w) <= repairs[0].0 + 1 + inserted
    decreases |repairs|
  {
    if repairs != [] {
      var place, rest, n := repairs[0].0 + 1 + inserted, repairs[1..], inserted + |repairs[0].1|;
      var v := WithPlace(w, place, repairs[0].1);
      PlaceCoverage(w, place, repairs[0].1);
      if TakenEnd(w) <= place {
        PlacesKeepCoverageIff(v, rest, n);
      } else {
        LaterPlacesLeaveOut(v, rest, n, place);
        LeftOutBreaksCoverage(Repaired(v, rest, n), place);
      }
    }
  }

  // ---- The agent's repair ----

  predicate LacksResult(m: Message, known: set<string>) {
    Repair.MissingIn(m, known) != []
  }

  predicate UnansweredAt(t: seq<Message>, base: nat, known: set<string>, i: nat) {
    base <= i < |t| && LacksResult(t[i], known)
  }

  /** The message made a call that has no result yet and was not scanned before. A transcript shorter than what was
      scanned is scanned anew. */
  predicate NeedsRepair(s: Repair.Tracker, i: nat) {
    var base := Repair.ScanBase(s);
    UnansweredAt(base.messages, base.scanIndex, Repair.Known(base), i)
  }

  function PlacesOf(s: Repair.Tracker): Places {
    var base := Repair.ScanBase(s);
    Repair.Repairs(base.messages[base.scanIndex..], base.scanIndex, Repair.Known(base))
  }

  lemma PlacedCons(repairs: Places, inserted: nat, len: nat)
    requires repairs != [] && repairs[0].0 + inserted < len && repairs[0].1 != []
    requires repairs[1..] != [] ==> repairs[0].0 < repairs[1..][0].0
    requires Placed(repairs[1..], inserted + |repairs[0].1|, len + |repairs[0].1|)
    ensures Placed(repairs, inserted, len)
  {
  }

  lemma {:induction false} PlacesArePlaced(ms: seq<Message>, base: nat, inserted: nat, known: set<string>)
    ensures var repairs := Repair.Repairs(ms, base, known);
            Placed(repairs, inserted, base + |ms| + inserted) && (repairs != [] ==> base <= repairs[0].0)
  {
    if ms != [] {
      var missing := Repair.MissingIn(ms[0], known);
      PlacesArePlaced(ms[1..], base + 1, inserted + |missing|, known);
      Repair.RepairsCons(ms, base, known);
      if missing != [] {
        PlacedCons(Repair.Repairs(ms, base, known), inserted, base + |ms| + inserted);
      }
    }
  }

  /** The first place is that of the first message that lacks a result. */
  ghost predicate StartsAtFirst(ms: seq<Message>, base: nat, known: set<string>, repairs: Places) {
    if repairs == [] then forall i :: 0 <= i < |ms| ==> !LacksResult(ms[i], known)
    else
      && base <= repairs[0].0 < base + |ms| && LacksResult(ms[repairs[0].0 - base], known)
      && forall i :: 0 <= i < repairs[0].0 - base ==> !LacksResult(ms[i], known)
  }

  lemma SkipsComplete(m: Message, rest: seq<Message>, base: nat, known: set<string>, repairs: Places)
    requires StartsAtFirst(rest, base + 1, known, repairs) && !LacksResult(m, known)
    ensures StartsAtFirst([m] + rest, base, known, repairs)
  {
  }

  lemma {:induction false} FirstPlaceIs(ms: seq<Message>, base: nat, known: set<string>)
    ensures StartsAtFirst(ms, base, known, Repair.Repairs(ms, base, known))
  {
    if ms != [] {
      Repair.RepairsCons(ms, base, known);
      if !LacksResult(ms[0], known) {
        FirstPlaceIs(ms[1..], base + 1, known);
        SkipsComplete(ms[0], ms[1..], base, known, Repair.Repairs(ms, base, known));
        assert ms == [ms[0]] + ms[1..];
      }
    }
  }

  /** A repair leaves the manager as it was. It keeps the coverage invariant exactly when every message it repairs is
      the last of the compacted ones and those of a pending task, or comes after them. */
  lemma RepairKeepsCoverageIff(w: World, s: Repair.Tracker)
    requires CoverageInv(w) && s.messages == w.t
    ensures var v := Run(w, RepairOps(PlacesOf(s), 0));
            && v.t == Repair.RepairedTracker(s).messages && v.m == w.m
            && (CoverageInv(v) <==> forall i: nat :: NeedsRepair(s, i) ==> TakenEnd(w) <= i + 1)
  {
    var base := Repair.ScanBase(s);
    PlacesArePlaced(w.t[base.scanIndex..], base.scanIndex, 0, Repair.Known(base));
    InsertionsRepair(w, PlacesOf(s), 0);
    RepairedIsSpliced(w, PlacesOf(s), 0);
    Repair.RepairAssembles(base, PlacesOf(s));
    PlacesKeepCoverageIff(w, PlacesOf(s), 0);
    FirstPlaceDecides(w, s);
  }

  lemma FirstPlaceDecides(w: World, s: Repair.Tracker)
    requires s.messages == w.t
    ensures (forall i: nat :: NeedsRepair(s, i) ==> TakenEnd(w) <= i + 1) <==>
              PlacesOf(s) == [] || TakenEnd(w) <= PlacesOf(s)[0].0 + 1
  {
    FirstNeedsRepair(s);
    if PlacesOf(s) != [] && TakenEnd(w) > PlacesOf(s)[0].0 + 1 {
      assert NeedsRepair(s, PlacesOf(s)[0].0);
    }
  }

  lemma FirstNeedsRepair(s: Repair.Tracker)
    ensures forall i: nat :: NeedsRepair(s, i) ==> PlacesOf(s) != [] && PlacesOf(s)[0].0 <= i
    ensures PlacesOf(s) != [] ==> NeedsRepair(s, PlacesOf(s)[0].0)
  {
    var base := Repair.ScanBase(s);
    FirstPlaceIs(base.messages[base.scanIndex..], base.scanIndex, Repair.Known(base));
    FirstOfPlaces(base.messages, base.scanIndex, Repair.Known(base), PlacesOf(s));
  }

  lemma FirstOfPlaces(t: seq<Message>, base: nat, known: set<string>, repairs: Places)
    requires base <= |t| && StartsAtFirst(t[base..], base, known, repairs)
    ensures forall i: nat :: UnansweredAt(t, base, known, i) ==> repairs != [] && repairs[0].0 <= i
    ensures repairs != [] ==> UnansweredAt(t, base, known, repairs[0].0)
  {
    forall i: nat | UnansweredAt(t, base, known, i) ensures repairs != [] && repairs[0].0 <= i {
      assert t[base..][i - base] == t[i];
    }
  }

  // ---- Tool results ----

  lemma {:induction false} ResultsAnswer(ids: seq<string>)
    ensures Answers(Repair.MissingResults(ids)) == Repair.Elements(ids) && Uses(Repair.MissingResults(ids)) == {}
  {
    if ids != [] {
      var first := Repair.MissingResult(ids[0]);
      ResultsAnswer(ids[1..]);
      assert Repair.MissingResults(ids)[1..] == Repair.MissingResults(ids[1..]);
      assert first.content[0].ToolResult?;
      assert AnsweredIn(first.content) == {ids[0]} && UsedIn(first.content) == {};
      assert Repair.Elements(ids) == {ids[0]} + Repair.Elements(ids[1..]);
    }
  }

  /** The part sent holds the same calls as before and answers these ids as well. */
  ghost predicate AnswersAlso(w: World, v: World, ids: set<string>) {
    && v.m == w.m && w.m.compacted <= |w.t| && v.m.compacted <= |v.t|
    && Uses(v.t[v.m.compacted..]) == Uses(w.t[w.m.compacted..])
    && Answers(v.t[v.m.compacted..]) == Answers(w.t[w.m.compacted..]) + ids
  }

  lemma IdsAround(before: seq<Message>, added: seq<Message>, behind: seq<Message>)
    ensures Uses(before + added + behind) == Uses(before + behind) + Uses(added)
    ensures Answers(before + added + behind) == Answers(before + behind) + Answers(added)
  {
    IdsConcat(before, behind);
    IdsConcat(before, added);
    IdsConcat(before + added, behind);
  }

  lemma InsertedAnswers(t: seq<Message>, c: nat, place: nat, ids: seq<string>, spliced: seq<Message>)
    requires c <= place <= |t| && spliced == t[..place] + Repair.MissingResults(ids) + t[place..]
    ensures c <= |spliced| && Uses(spliced[c..]) == Uses(t[c..])
    ensures Answers(spliced[c..]) == Answers(t[c..]) + Repair.Elements(ids)
  {
    var added := Repair.MissingResults(ids);
    ResultsAnswer(ids);
    IdsAround(t[c..place], added, t[place..]);
    assert spliced[c..] == t[c..place] + added + t[place..];
    assert t[c..place] + t[place..] == t[c..];
  }

  lemma PlaceAnswers(w: World, place: nat, ids: seq<string>)
    requires w.m.compacted <= place <= |w.t|
    ensures AnswersAlso(w, WithPlace(w, place, ids), Repair.Elements(ids))
  {
    InsertedAnswers(w.t, w.m.compacted, place, ids, WithPlace(w, place, ids).t);
  }

  lemma AnswersAdd(w: World, v: World, x: World, ids: set<string>, more: set<string>)
    requires AnswersAlso(w, v, ids) && AnswersAlso(v, x, more)
    ensures AnswersAlso(w, x, ids + more)
  {
  }

  /** The places come at or after the count. */
  predicate BehindCount(w: World, repairs: Places, inserted: nat) {
    w.m.compacted <= |w.t| && (repairs != [] ==> w.m.compacted <= repairs[0].0 + 1 + inserted)
  }

  lemma {:induction false} PlacesAnswer(w: World, repairs: Places, inserted: nat)
    requires BehindCount(w, repairs, inserted) && Placed(repairs, inserted, |w.t|)
    ensures AnswersAlso(w, Repaired(w, repairs, inserted), Repair.SplicedIds(repairs))
    decreases |repairs|
  {
    if repairs != [] {
      var place, rest, n := repairs[0].0 + 1 + inserted, repairs[1..], inserted + |repairs[0].1|;
      var v := WithPlace(w, place, repairs[0].1);
      PlaceAnswers(w, place, repairs[0].1);
      PlacesAnswer(v, rest, n);
      AnswersAdd(w, v, Repaired(v, rest, n), Repair.Elements(repairs[0].1), Repair.SplicedIds(rest));
    }
  }

  lemma PlacesBehindCount(w: World, s: Repair.Tracker)
    requires w.m.compacted <= |w.t| && s.messages == w.t
    requires forall i: nat :: NeedsRepair(s, i) ==> w.m.compacted <= i + 1
    ensures BehindCount(w, PlacesOf(s), 0)
  {
    FirstNeedsRepair(s);
    if PlacesOf(s) != [] {
      assert NeedsRepair(s, PlacesOf(s)[0].0);
    }
  }

  /** The ids that a repair answers: those of unscanned calls without a known result. */
  function Unanswered(s: Repair.Tracker): set<string> {
    var base := Repair.ScanBase(s);
    Repair.Calls(base.messages[base.scanIndex..]) - Repair.Known(base)
  }

  lemma AnsweredByPlaces(unscanned: seq<Message>, base: nat, known: set<string>)
    ensures Repair.SplicedIds(Repair.Repairs(unscanned, base, known)) == Repair.Calls(unscanned) - known
  {
    Repair.RepairsInRange(unscanned, base, known);
    Repair.AddedIdsAre(unscanned, known);
  }

  lemma PlacesAnswerTheUnanswered(s: Repair.Tracker)
    ensures Repair.SplicedIds(PlacesOf(s)) == Unanswered(s) && Placed(PlacesOf(s), 0, |s.messages|)
  {
    var base := Repair.ScanBase(s);
    AnsweredByPlaces(base.messages[base.scanIndex..], base.scanIndex, Repair.Known(base));
    PlacesArePlaced(base.messages[base.scanIndex..], base.scanIndex, 0, Repair.Known(base));
  }

  lemma ClosedAgainIff(w: World, v: World, ids: set<string>)
    requires KeptClosed(w) && AnswersAlso(w, v, ids)
    ensures KeptClosed(v) <==> ids <= Uses(w.t[w.m.compacted..])
  {
  }

  /** A repair behind the count keeps the messages sent tool-closed exactly when they hold all the calls it answers. */
  lemma RepairKeepsClosedIff(w: World, s: Repair.Tracker)
    requires KeptClosed(w) && s.messages == w.t
    requires forall i: nat :: NeedsRepair(s, i) ==> w.m.compacted <= i + 1
    ensures KeptClosed(Run(w, RepairOps(PlacesOf(s), 0))) <==> Unanswered(s) <= Uses(w.t[w.m.compacted..])
  {
    PlacesBehindCount(w, s);
    PlacesAnswerTheUnanswered(s);
    PlacesAnswer(w, PlacesOf(s), 0);
    InsertionsRepair(w, PlacesOf(s), 0);
    ClosedAgainIff(w, Repaired(w, PlacesOf(s), 0), Unanswered(s));
  }
}
