/** What holds of every run of a hand: the early stop is the exhaustive scan, betting
    terminates, CHECK only opens a street, and the raise arithmetic. */
module HandTheorems {
  import opened Basics
  import opened HandTypes
  import opened Validator
  import opened TurnEngine
  import opened ActionPipeline
  import opened BlindPosting
  import opened StreetProgression
  import opened HandMachine

  function AbleCount(h: Hand): int { SumBy(h.players, AbleUnit) }

  lemma {:induction false} EligibleCount(ps: seq<PlayerState>, seats: seq<ActionSeat>)
    requires |ps| == |seats| && forall i :: 0 <= i < |ps| ==> seats[i] == SeatView(ps[i])
    ensures |Eligible(seats)| == SumBy(ps, AbleUnit)
  {
    if ps != [] {
      EligibleCount(ps[1..], seats[1..]);
      assert seats[0] == SeatView(ps[0]);
    }
  }

  /** Player `j` is able, owes, and is reached from `from` before every other who owes. */
  ghost predicate FirstOwing(n: Hand, from: int, j: int)
  {
    && 0 <= j < |n.players|
    && Owing(n.players[j], n.round.highest)
    && forall k :: 0 <= k < |n.players| && k != j && Owing(n.players[k], n.round.highest)
         ==> Precedes(from, n.players[j].seat, n.players[k].seat)
  }

  /** In every reachable state, an accepted bet gets from the early-stopping scan the answer
      of the exhaustive one. So the action closes only when fewer than two players can act
      or every able player has matched the highest bet, and otherwise passes to a player
      who is able, owes, and is reached before every other player who owes. */
  lemma EarlyStopNeverMatters(d: Deal, steps: seq<Step>, id: PlayerId, action: Action, amount: int)
    requires DealOk(d)
    requires ApplyAction(Play(StartRound(d), steps), id, action, amount, None).Ok?
    ensures var h := Play(StartRound(d), steps);
            var n := Take(h, BetStep(id, action, amount));
            var from := h.players[IndexOf(h.players, id)].seat;
            if n.round.closed then
              && n.round.actor == None
              && (AbleCount(n) < 2
                  || forall k :: 0 <= k < |n.players| && Able(n.players[k]) ==> n.players[k].street == n.round.highest)
            else
              && AbleCount(n) >= 2
              && exists j :: FirstOwing(n, from, j) && n.round.actor == Some(n.players[j].id)
  {
    var h := Play(StartRound(d), steps);
    var n := Take(h, BetStep(id, action, amount));
    ReachableStatesAreSound(d, steps);
    var i, v := AcceptedBet(h, id, action, amount);
    BetScansExhaustively(d, h, id, action, amount, i, v, n);
    BetKeepsInv(d, h, id, action, amount, i, v, n);
    NamesStay(d, n);
    EligibleCount(n.players, Asked(n));
    ReadOutcome(n, h.players[i].seat, NextToAct(Asked(n), h.players[i].seat, n.round.aggressor, n.round.highest));
  }

  /** So an accepted bet closes the action exactly when fewer than two players can act or
      everyone who can has matched the highest bet, whether or not they have acted. */
  lemma ClosesIff(d: Deal, steps: seq<Step>, id: PlayerId, action: Action, amount: int)
    requires DealOk(d)
    requires ApplyAction(Play(StartRound(d), steps), id, action, amount, None).Ok?
    ensures var n := Take(Play(StartRound(d), steps), BetStep(id, action, amount));
            n.round.closed <==>
              || AbleCount(n) < 2
              || forall k :: 0 <= k < |n.players| && Able(n.players[k]) ==> n.players[k].street == n.round.highest
  {
    EarlyStopNeverMatters(d, steps, id, action, amount);
  }

  /** When one able player alone owes, an accepted bet passes the action to that player. */
  lemma OnlyDebtorIsNext(d: Deal, steps: seq<Step>, id: PlayerId, action: Action, amount: int, j: nat)
    requires DealOk(d)
    requires ApplyAction(Play(StartRound(d), steps), id, action, amount, None).Ok?
    requires var n := Take(Play(StartRound(d), steps), BetStep(id, action, amount));
             && AbleCount(n) >= 2
             && j < |n.players| && Owing(n.players[j], n.round.highest)
             && forall k :: 0 <= k < |n.players| && k != j ==> !Owing(n.players[k], n.round.highest)
    ensures var n := Take(Play(StartRound(d), steps), BetStep(id, action, amount));
            !n.round.closed && n.round.actor == Some(n.players[j].id)
  {
    EarlyStopNeverMatters(d, steps, id, action, amount);
  }

  /** When everyone who can act has matched, an accepted bet leaves nobody to act. */
  lemma AllMatchedCloses(d: Deal, steps: seq<Step>, id: PlayerId, action: Action, amount: int)
    requires DealOk(d)
    requires ApplyAction(Play(StartRound(d), steps), id, action, amount, None).Ok?
    requires var n := Take(Play(StartRound(d), steps), BetStep(id, action, amount));
             forall k :: 0 <= k < |n.players| && Able(n.players[k]) ==> n.players[k].street == n.round.highest
    ensures var n := Take(Play(StartRound(d), steps), BetStep(id, action, amount));
            n.round.closed && n.round.actor == None
  {
    ClosesIff(d, steps, id, action, amount);
    EarlyStopNeverMatters(d, steps, id, action, amount);
  }

  lemma ReadOutcome(n: Hand, from: int, next: NextActor)
    requires ExhaustiveOutcome(Asked(n), from, n.round.highest, next)
    requires SeatsAscend(n.players)
    requires IsHighest(n.players, n.round.highest)
    requires |Eligible(Asked(n))| == AbleCount(n)
    ensures match next
            case Closed =>
              AbleCount(n) < 2
              || forall k :: 0 <= k < |n.players| && Able(n.players[k]) ==> n.players[k].street == n.round.highest
            case Next(id, seat) =>
              AbleCount(n) >= 2 && exists j :: FirstOwing(n, from, j) && id == n.players[j].id
  {
    match next
    case Closed =>
      if AbleCount(n) >= 2 {
        forall k | 0 <= k < |n.players| && Able(n.players[k]) ensures n.players[k].street == n.round.highest {
          assert Asked(n)[k] in Asked(n);
        }
      }
    case Next(id, seat) =>
      var p :| p in Asked(n) && p.id == id && NeedsAction(p, n.round.highest)
        && (forall q :: q in Asked(n) && NeedsAction(q, n.round.highest) && q != p ==> Precedes(from, p.seat, q.seat));
      var j :| 0 <= j < |n.players| && Asked(n)[j] == p;
      FirstSeatIsFirst(n, from, j);
  }

  lemma FirstSeatIsFirst(n: Hand, from: int, j: nat)
    requires SeatsAscend(n.players) && j < |n.players|
    requires NeedsAction(Asked(n)[j], n.round.highest)
    requires forall q :: q in Asked(n) && NeedsAction(q, n.round.highest) && q != Asked(n)[j] ==>
      Precedes(from, Asked(n)[j].seat, q.seat)
    ensures FirstOwing(n, from, j)
  {
    forall k | 0 <= k < |n.players| && k != j && Owing(n.players[k], n.round.highest)
      ensures Precedes(from, n.players[j].seat, n.players[k].seat)
    {
      assert Asked(n)[k] in Asked(n) && Asked(n)[k].seat != Asked(n)[j].seat;
    }
  }

  // ----------------------------------------------------------------- termination

  function Rank(s: Street): nat
  {
    match s case PreFlop => 4 case Flop => 3 case Turn => 2 case River => 1 case Showdown => 0
  }

  /** One unit while the player to act owes nothing, which only the opener of a street can be. */
  function OpeningUnit(h: Hand): nat
  {
    if h.round.actor.None? then 0
    else
      var i := IndexOf(h.players, h.round.actor.value);
      if i < |h.players| && Owing(h.players[i], h.round.highest) then 0 else 1
  }

  function Potential(h: Hand): int
  {
    SumBy(h.players, StackOf) + AbleCount(h) + Max(Rank(h.round.street) - 1, 0) + OpeningUnit(h)
  }

  /** Every accepted action spends chips, an able player or the opening unit. */
  lemma BettorSpends(s: BlindPosting.SeatPlayer, r: RoundState, p: PlayerState, action: Action, amount: int)
    requires Judge(r, p, action, amount).Ok? && Able(p) && PlayerOk(p, s)
    requires p.street <= r.highest && 0 < r.minRaise
    ensures var v := Judge(r, p, action, amount).value;
            var q := MutatePlayer(p, PlayerChange(p.id, v));
            StackOf(q) + AbleUnit(q) + (if Owing(p, r.highest) then 1 else 0) <= StackOf(p) + AbleUnit(p)
  {
    JudgeFacts(r, p, action, amount);
  }

  lemma BetLowersPotential(d: Deal, h: Hand, id: PlayerId, action: Action, amount: int)
    requires DealOk(d) && Inv(d, h) && ApplyAction(h, id, action, amount, None).Ok?
    ensures Potential(Take(h, BetStep(id, action, amount))) < Potential(h)
    ensures ActorOwes(Take(h, BetStep(id, action, amount)))
  {
    var n := Take(h, BetStep(id, action, amount));
    var i, v := AcceptedBet(h, id, action, amount);
    BetKeepsInv(d, h, id, action, amount, i, v, n);
    assert PlayerOk(h.players[i], d.seats[i]);
    BettorSpends(d.seats[i], h.round, h.players[i], action, amount);
    SumByUpdate(h.players, i, n.players[i], StackOf);
    SumByUpdate(h.players, i, n.players[i], AbleUnit);
  }

  lemma AdvanceKeepsSums(d: Deal, h: Hand)
    requires DealOk(d) && Inv(d, h) && AdvanceStreet(h).Ok?
    ensures SumBy(AdvanceStreet(h).value.players, StackOf) == SumBy(h.players, StackOf)
    ensures AbleCount(AdvanceStreet(h).value) == AbleCount(h)
  {
    var n := AdvanceStreet(h).value;
    AdvanceKeepsInv(d, h);
    SumByPointwise(h.players, StackOf, n.players, StackOf);
    SumByPointwise(h.players, AbleUnit, n.players, AbleUnit);
  }

  lemma AdvanceSpendsAStreet(h: Hand)
    requires AdvanceStreet(h).Ok?
    ensures var n := AdvanceStreet(h).value;
            Max(Rank(n.round.street) - 1, 0) + OpeningUnit(n) <= Max(Rank(h.round.street) - 1, 0) + OpeningUnit(h)
  {
  }

  lemma AdvanceKeepsPotential(d: Deal, h: Hand)
    requires DealOk(d) && Inv(d, h) && AdvanceStreet(h).Ok?
    ensures Potential(AdvanceStreet(h).value) <= Potential(h)
  {
    AdvanceKeepsSums(d, h);
    AdvanceSpendsAStreet(h);
  }

  lemma PotentialIsNonNegative(d: Deal, h: Hand)
    requires Inv(d, h)
    ensures Potential(h) >= 0
  {
    forall p | p in h.players ensures 0 <= StackOf(p) {
      var i :| 0 <= i < |h.players| && h.players[i] == p;
      assert PlayerOk(p, d.seats[i]);
    }
    SumByNonNegative(h.players, StackOf);
    SumByNonNegative(h.players, AbleUnit);
  }

  /** Accepted by `validate_bet`, the only way a bet is refused here. */
  predicate IsAcceptedBet(h: Hand, s: Step)
  {
    s.BetStep? && ValidateBet(h, s.id, s.action, s.amount).Ok?
  }

  /** How many bets a run accepts. */
  function BetsAccepted(h: Hand, steps: seq<Step>): nat
  {
    if steps == [] then 0
    else
      var front := steps[..|steps| - 1];
      BetsAccepted(h, front) + if IsAcceptedBet(Play(h, front), steps[|steps| - 1]) then 1 else 0
  }

  lemma {:induction false} BetsSpendPotential(d: Deal, h: Hand, steps: seq<Step>)
    requires DealOk(d) && Inv(d, h)
    ensures BetsAccepted(h, steps) + Potential(Play(h, steps)) <= Potential(h)
  {
    if steps != [] {
      var front, s := steps[..|steps| - 1], steps[|steps| - 1];
      var m := Play(h, front);
      BetsSpendPotential(d, h, front);
      PlayKeepsInv(d, h, front);
      if IsAcceptedBet(m, s) {
        BetLowersPotential(d, m, s.id, s.action, s.amount);
      } else if s.AdvanceStep? && AdvanceStreet(m).Ok? {
        AdvanceKeepsPotential(d, m);
      }
    }
  }

  /** A hand accepts at most as many bets as there are chips behind after posting, plus the
      players able to act after posting, plus four. */
  lemma BettingTerminates(d: Deal, steps: seq<Step>)
    requires DealOk(d)
    ensures BetsAccepted(StartRound(d), steps)
            <= SumBy(StartRound(d).players, StackOf) + AbleCount(StartRound(d)) + 4
  {
    StartIsOk(d);
    BetsSpendPotential(d, StartRound(d), steps);
    ReachableStatesAreSound(d, steps);
    PotentialIsNonNegative(d, Play(StartRound(d), steps));
  }

  lemma OwingCannotCheck(h: Hand, id: PlayerId, action: Action, amount: int)
    requires ActorOwes(h) && ValidateBet(h, id, action, amount).Ok?
    ensures ValidateBet(h, id, action, amount).value.action != Check
  {
  }

  /** A bet accepted right after another accepted bet is never a CHECK: on each street a
      CHECK can only be the opening action. */
  lemma CheckOnlyOpens(d: Deal, steps: seq<Step>, s: Step, id: PlayerId, action: Action, amount: int)
    requires DealOk(d)
    requires IsAcceptedBet(Play(StartRound(d), steps), s)
    requires ValidateBet(Take(Play(StartRound(d), steps), s), id, action, amount).Ok?
    ensures ValidateBet(Take(Play(StartRound(d), steps), s), id, action, amount).value.action != Check
  {
    var h := Play(StartRound(d), steps);
    ReachableStatesAreSound(d, steps);
    BetLowersPotential(d, h, s.id, s.action, s.amount);
    OwingCannotCheck(Take(h, s), id, action, amount);
  }

  /** The first CHECK on a street without a bet closes the action at once: nobody behind the
      checker is asked. */
  lemma FirstCheckCloses(d: Deal, steps: seq<Step>, id: PlayerId, amount: int)
    requires DealOk(d)
    requires IsAcceptedBet(Play(StartRound(d), steps), BetStep(id, Check, amount))
    requires Play(StartRound(d), steps).round.highest == 0
    ensures var n := Take(Play(StartRound(d), steps), BetStep(id, Check, amount));
            n.round.closed && n.round.actor == None
  {
    var h := Play(StartRound(d), steps);
    var n := Take(h, BetStep(id, Check, amount));
    EarlyStopNeverMatters(d, steps, id, Check, amount);
    ReachableStatesAreSound(d, steps);
    CheckLeavesNothingOwed(d, h, id, amount);
    assert forall j :: !FirstOwing(n, h.players[IndexOf(h.players, id)].seat, j);
  }

  lemma CheckLeavesNothingOwed(d: Deal, h: Hand, id: PlayerId, amount: int)
    requires DealOk(d) && Inv(d, h) && IsAcceptedBet(h, BetStep(id, Check, amount)) && h.round.highest == 0
    ensures var n := Take(h, BetStep(id, Check, amount));
            forall k :: 0 <= k < |n.players| ==> !Owing(n.players[k], n.round.highest)
  {
    var n := Take(h, BetStep(id, Check, amount));
    var i, v := AcceptedBet(h, id, Check, amount);
    BetKeepsInv(d, h, id, Check, amount, i, v, n);
    assert n.round.highest == 0;
    forall k | 0 <= k < |n.players| ensures !Owing(n.players[k], n.round.highest) {
      assert PlayerOk(n.players[k], d.seats[k]);
    }
  }

  // --------------------------------------------------------------- raise arithmetic

  predicate AllBets(steps: seq<Step>) { forall i :: 0 <= i < |steps| ==> steps[i].BetStep? }

  predicate IsFullRaise(h: Hand, s: Step)
  {
    && IsAcceptedBet(h, s)
    && var a := ValidateBet(h, s.id, s.action, s.amount).value.action; (a == Bet || a == Raise)
  }

  /** Accepted bets and raises that are not all-in. */
  function FullRaises(h: Hand, steps: seq<Step>): nat
  {
    if steps == [] then 0
    else
      var front := steps[..|steps| - 1];
      FullRaises(h, front) + if IsFullRaise(Play(h, front), steps[|steps| - 1]) then 1 else 0
  }

  lemma BetLifts(d: Deal, h: Hand, s: Step)
    requires DealOk(d) && Inv(d, h) && s.BetStep?
    ensures h.round.minRaise <= Take(h, s).round.minRaise
    ensures Take(h, s).round.highest >= h.round.highest + if IsFullRaise(h, s) then d.big else 0
  {
    if IsAcceptedBet(h, s) {
      var i, v := AcceptedBet(h, s.id, s.action, s.amount);
      BetKeepsChips(d, h, s.id, s.action, s.amount, i, v, Take(h, s));
    }
  }

  /** `b` for each full bet or raise. */
  function Lift(b: nat, h: Hand, steps: seq<Step>): nat
  {
    if steps == [] then 0
    else
      var front := steps[..|steps| - 1];
      Lift(b, h, front) + if IsFullRaise(Play(h, front), steps[|steps| - 1]) then b else 0
  }

  lemma {:induction false} LiftIsProduct(b: nat, h: Hand, steps: seq<Step>)
    ensures Lift(b, h, steps) == b * FullRaises(h, steps)
  {
    if steps != [] {
      LiftIsProduct(b, h, steps[..|steps| - 1]);
      OneMoreLot(b, FullRaises(h, steps[..|steps| - 1]));
    }
  }

  lemma OneMoreLot(b: nat, n: nat)
    ensures b * (n + 1) == b * n + b
  {
  }

  lemma {:induction false} RaisesLift(d: Deal, h: Hand, steps: seq<Step>)
    requires DealOk(d) && Inv(d, h) && AllBets(steps)
    ensures h.round.minRaise <= Play(h, steps).round.minRaise
    ensures Play(h, steps).round.highest >= h.round.highest + Lift(d.big, h, steps)
  {
    if steps != [] {
      var front, s := steps[..|steps| - 1], steps[|steps| - 1];
      RaisesLift(d, h, front);
      PlayKeepsInv(d, h, front);
      BetLifts(d, Play(h, front), s);
    }
  }

  lemma HighestFits(d: Deal, h: Hand)
    requires Inv(d, h)
    ensures h.round.highest >= 0
    ensures exists i :: 0 <= i < |d.seats| && h.round.highest <= d.seats[i].stack
  {
    var j :| 0 <= j < |h.players| && h.players[j].street == h.round.highest;
    assert PlayerOk(h.players[j], d.seats[j]);
    assert h.round.highest <= d.seats[j].stack;
  }

  /** Within a street the minimum raise never falls and stays at least the big blind, the
      highest bet never falls, each full bet or raise lifts it by a big blind, and so their
      number times the big blind fits in some player's starting stack. */
  lemma RaiseArithmetic(d: Deal, before: seq<Step>, steps: seq<Step>)
    requires DealOk(d) && AllBets(steps)
    ensures var h := Play(StartRound(d), before);
            var n := Play(h, steps);
            && d.big <= h.round.minRaise <= n.round.minRaise
            && h.round.highest <= n.round.highest
            && n.round.highest >= h.round.highest + d.big * FullRaises(h, steps)
            && exists i :: 0 <= i < |d.seats| && d.big * FullRaises(h, steps) <= d.seats[i].stack
  {
    var h := Play(StartRound(d), before);
    ReachableStatesAreSound(d, before);
    RaisesLift(d, h, steps);
    LiftIsProduct(d.big, h, steps);
    PlayKeepsInv(d, h, steps);
    HighestFits(d, h);
    HighestFits(d, Play(h, steps));
  }
}
