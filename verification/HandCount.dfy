/** Counting completed hands and raising the blinds: settlements, reopenings, re-settlements
    and explicit completion records in any order. */
module HandCount {
  import opened Basics

  type RoundId = nat

  /** Per round: whether it is completed now, and whether its ledger ever recorded completion. */
  datatype RoundInfo = RoundInfo(completed: bool, everCompleted: bool)

  datatype Tally = Tally(rounds: map<RoundId, RoundInfo>, handsPlayed: int, handsAtLevel: int, level: int)

  datatype Event =
    | Open(round: RoundId)
    | Settle(round: RoundId, levelIsOver: bool)
    | Reopen(round: RoundId)
    | RecordCompleted(levelIsOver: bool)
    | AdvanceBlinds(levelExists: bool)

  /** `apply_hand_completion`; whether the level's time is over is an input. */
  function ApplyCompletion(t: Tally, maxLevel: int, count: bool, levelIsOver: bool): Tally
  {
    if !count then t
    else
      var u := t.(handsPlayed := t.handsPlayed + 1, handsAtLevel := t.handsAtLevel + 1);
      if levelIsOver && t.level < maxLevel then u.(level := t.level + 1, handsAtLevel := 0) else u
  }

  function CompletedNow(t: Tally): set<RoundId> { set r | r in t.rounds && t.rounds[r].completed }

  function EverCompleted(t: Tally): set<RoundId> { set r | r in t.rounds && t.rounds[r].everCompleted }

  function Next(t: Tally, maxLevel: int, e: Event): Tally
  {
    match e
    case Open(r) => if r in t.rounds then t else t.(rounds := t.rounds[r := RoundInfo(false, false)])
    case Settle(r, over) =>
      if r !in t.rounds || t.rounds[r].completed then t
      else
        var settled := t.(rounds := t.rounds[r := RoundInfo(true, true)]);
        ApplyCompletion(settled, maxLevel, !t.rounds[r].everCompleted, over)
    case Reopen(r) =>
      if r !in t.rounds || !t.rounds[r].completed then t
      else t.(rounds := t.rounds[r := t.rounds[r].(completed := false)])
    case RecordCompleted(over) =>
      ApplyCompletion(t, maxLevel, t.handsPlayed < |CompletedNow(t)|, over)
    case AdvanceBlinds(levelExists) =>
      if t.level >= maxLevel || !levelExists then t else t.(level := t.level + 1)
  }

  function Run(t: Tally, maxLevel: int, events: seq<Event>): Tally
  {
    if events == [] then t else Next(Run(t, maxLevel, events[..|events| - 1]), maxLevel, events[|events| - 1])
  }

  const NEW_GAME := Tally(map[], 0, 0, 1)

  ghost predicate TallyOk(t: Tally, maxLevel: int)
  {
    && t.handsPlayed == |EverCompleted(t)|
    && (forall r :: r in t.rounds && t.rounds[r].completed ==> t.rounds[r].everCompleted)
    && 1 <= t.level <= Max(1, maxLevel)
  }

  lemma SubsetIsSmaller<T>(a: set<T>, b: set<T>)
    requires a <= b
    ensures |a| <= |b|
  {
    if a != {} {
      var x :| x in a;
      SubsetIsSmaller(a - {x}, b - {x});
    }
  }

  /** An explicit completion record finds nothing left to count. */
  lemma RecordCountsNothing(t: Tally, maxLevel: int, over: bool)
    requires TallyOk(t, maxLevel)
    ensures Next(t, maxLevel, RecordCompleted(over)) == t
  {
    assert CompletedNow(t) <= EverCompleted(t);
    SubsetIsSmaller(CompletedNow(t), EverCompleted(t));
  }

  lemma SettlingCountsOnce(t: Tally, r: RoundId)
    requires r in t.rounds
    ensures var n := t.(rounds := t.rounds[r := RoundInfo(true, true)]);
            |EverCompleted(n)| == |EverCompleted(t)| + if t.rounds[r].everCompleted then 0 else 1
  {
    var n := t.(rounds := t.rounds[r := RoundInfo(true, true)]);
    assert EverCompleted(n) == EverCompleted(t) + {r};
    if t.rounds[r].everCompleted {
      assert EverCompleted(t) + {r} == EverCompleted(t);
    }
  }

  lemma NextKeepsTally(t: Tally, maxLevel: int, e: Event)
    requires TallyOk(t, maxLevel)
    ensures TallyOk(Next(t, maxLevel, e), maxLevel) && t.level <= Next(t, maxLevel, e).level
  {
    var n := Next(t, maxLevel, e);
    match e
    case Open(r) => assert EverCompleted(n) == EverCompleted(t);
    case Settle(r, _) =>
      if r in t.rounds && !t.rounds[r].completed {
        SettlingCountsOnce(t, r);
      }
    case Reopen(r) => assert EverCompleted(n) == EverCompleted(t);
    case RecordCompleted(over) => RecordCountsNothing(t, maxLevel, over);
    case AdvanceBlinds(_) => assert EverCompleted(n) == EverCompleted(t);
  }

  lemma {:induction false} RunKeepsTally(maxLevel: int, events: seq<Event>)
    ensures TallyOk(Run(NEW_GAME, maxLevel, events), maxLevel)
  {
    if events == [] {
      assert EverCompleted(NEW_GAME) == {};
    } else {
      RunKeepsTally(maxLevel, events[..|events| - 1]);
      NextKeepsTally(Run(NEW_GAME, maxLevel, events[..|events| - 1]), maxLevel, events[|events| - 1]);
    }
  }

  /** For every order of openings, settlements, reopenings, re-settlements, completion records
      and blind advances: hands played is the number of rounds that ever completed, a
      completion record never changes anything, and the blind level never falls and never
      passes the highest configured level. */
  lemma HandsPlayedCountsRounds(maxLevel: int, events: seq<Event>, e: Event)
    requires maxLevel >= 1
    ensures var t := Run(NEW_GAME, maxLevel, events);
            && t.handsPlayed == |EverCompleted(t)|
            && t.level <= Next(t, maxLevel, e).level <= maxLevel
            && (e.RecordCompleted? ==> Next(t, maxLevel, e) == t)
  {
    var t := Run(NEW_GAME, maxLevel, events);
    RunKeepsTally(maxLevel, events);
    NextKeepsTally(t, maxLevel, e);
    if e.RecordCompleted? {
      RecordCountsNothing(t, maxLevel, e.levelIsOver);
    }
  }
}
