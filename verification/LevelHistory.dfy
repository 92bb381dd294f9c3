/** The tally told from the events alone: which hands count, and when the level rises. */
module LevelHistory {
  import opened Basics
  import opened HandCount

  ghost predicate OpenedBefore(events: seq<Event>, i: int, r: RoundId)
  {
    exists j :: 0 <= j < |events| && j < i && events[j] == Open(r)
  }

  /** A settlement of a round that exists. */
  ghost predicate SettledAt(events: seq<Event>, i: int, r: RoundId)
  {
    0 <= i < |events| && events[i].Settle? && events[i].round == r && OpenedBefore(events, i, r)
  }

  /** A settlement that no reopening of the round follows. */
  ghost predicate SettledForGood(events: seq<Event>, i: int, r: RoundId)
  {
    SettledAt(events, i, r) && forall j :: i < j < |events| ==> events[j] != Reopen(r)
  }

  lemma OneMoreOpens(front: seq<Event>, e: Event, r: RoundId)
    ensures OpenedBefore(front + [e], |front| + 1, r) <==> OpenedBefore(front, |front|, r) || e == Open(r)
  {
    var events := front + [e];
    assert events[|front|] == e;
    assert forall j :: 0 <= j < |front| ==> events[j] == front[j];
  }

  lemma SettledStays(front: seq<Event>, e: Event, i: int, r: RoundId)
    requires i < |front|
    ensures SettledAt(front + [e], i, r) <==> SettledAt(front, i, r)
  {
    var events := front + [e];
    assert forall j :: 0 <= j < |front| ==> events[j] == front[j];
  }

  lemma SettledLast(front: seq<Event>, e: Event, r: RoundId)
    ensures SettledAt(front + [e], |front|, r) <==> e.Settle? && e.round == r && OpenedBefore(front, |front|, r)
  {
    var events := front + [e];
    assert events[|front|] == e;
    assert forall j :: 0 <= j < |front| ==> events[j] == front[j];
  }

  lemma OneMoreSettles(front: seq<Event>, e: Event, r: RoundId)
    ensures (exists i :: SettledAt(front + [e], i, r)) <==>
              (exists i :: SettledAt(front, i, r)) || (e.Settle? && e.round == r && OpenedBefore(front, |front|, r))
  {
    SettledLast(front, e, r);
    if i :| SettledAt(front, i, r) {
      SettledStays(front, e, i, r);
    }
    if i :| SettledAt(front + [e], i, r) && i < |front| {
      SettledStays(front, e, i, r);
    }
  }

  lemma OneMoreForGood(front: seq<Event>, e: Event, r: RoundId)
    ensures (exists i :: SettledForGood(front + [e], i, r)) <==>
              e != Reopen(r)
              && ((exists i :: SettledForGood(front, i, r))
                  || (e.Settle? && e.round == r && OpenedBefore(front, |front|, r)))
  {
    var events := front + [e];
    assert events[|front|] == e;
    SettledLast(front, e, r);
    if SettledAt(events, |front|, r) {
      assert SettledForGood(events, |front|, r);
    }
    if i :| SettledForGood(front, i, r) && e != Reopen(r) {
      SettledStays(front, e, i, r);
      assert SettledForGood(events, i, r);
    }
    if i :| SettledForGood(events, i, r) && i < |front| {
      SettledStays(front, e, i, r);
      forall j | i < j < |front| ensures front[j] != Reopen(r) {
        assert events[j] == front[j];
      }
      assert SettledForGood(front, i, r);
    }
  }

  /** What a tally holds of round `r`. */
  ghost predicate Held(t: Tally, r: RoundId, open: bool, ever: bool, now: bool)
  {
    && (r in t.rounds <==> open)
    && (r in t.rounds && t.rounds[r].everCompleted <==> ever)
    && (r in t.rounds && t.rounds[r].completed <==> now)
  }

  lemma HeldAfter(t: Tally, maxLevel: int, e: Event, r: RoundId, open: bool, ever: bool, now: bool)
    requires Held(t, r, open, ever, now) && (now ==> ever)
    ensures var settles := e.Settle? && e.round == r && open;
            Held(Next(t, maxLevel, e), r, open || e == Open(r), ever || settles,
                 e != Reopen(r) && (now || settles))
  {
  }

  /** A round exists once opened, was ever completed once settled, and is completed when a
      settlement stands that no reopening follows. */
  lemma {:induction false} RoundsAreHistory(maxLevel: int, events: seq<Event>, r: RoundId)
    ensures Held(Run(NEW_GAME, maxLevel, events), r, OpenedBefore(events, |events|, r),
                 exists i :: SettledAt(events, i, r), exists i :: SettledForGood(events, i, r))
  {
    if events != [] {
      var front, e := events[..|events| - 1], events[|events| - 1];
      RoundsAreHistory(maxLevel, front, r);
      assert front + [e] == events;
      OneMoreOpens(front, e, r);
      OneMoreSettles(front, e, r);
      OneMoreForGood(front, e, r);
      HeldAfter(Run(NEW_GAME, maxLevel, front), maxLevel, e, r, OpenedBefore(front, |front|, r),
                exists i :: SettledAt(front, i, r), exists i :: SettledForGood(front, i, r));
    }
  }

  /** The next event settles an existing round for the first time. */
  ghost predicate FirstSettles(events: seq<Event>, e: Event)
  {
    e.Settle? && OpenedBefore(events, |events|, e.round) && forall i :: !SettledAt(events, i, e.round)
  }

  /** What one event does to the counters. */
  ghost predicate Counted(t: Tally, n: Tally, maxLevel: int, counts: bool, over: bool, raised: bool)
  {
    && n.handsPlayed == t.handsPlayed + (if counts then 1 else 0)
    && if counts && over && t.level < maxLevel then n.level == t.level + 1 && n.handsAtLevel == 0
       else if counts then n.level == t.level && n.handsAtLevel == t.handsAtLevel + 1
       else n.handsAtLevel == t.handsAtLevel && n.level == t.level + if raised then 1 else 0
  }

  /** After any run of events: the first settlement of a round, and nothing else, counts a hand;
      a counted hand whose level is over and not the highest raises the level by one and starts
      counting anew, any other counted hand adds to those at the level; raising the blinds by
      hand raises the level by one while a next level exists, and no other event touches the
      level or the counts. */
  lemma WhatOneEventCounts(maxLevel: int, events: seq<Event>, e: Event, t: Tally)
    requires maxLevel >= 1 && t == Run(NEW_GAME, maxLevel, events)
    ensures Counted(t, Next(t, maxLevel, e), maxLevel, FirstSettles(events, e), e.Settle? && e.levelIsOver,
                    e.AdvanceBlinds? && e.levelExists && t.level < maxLevel)
  {
    RunKeepsTally(maxLevel, events);
    if e.Settle? {
      RoundsAreHistory(maxLevel, events, e.round);
    } else if e.RecordCompleted? {
      RecordCountsNothing(t, maxLevel, e.levelIsOver);
    }
  }
}
