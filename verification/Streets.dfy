/** What a street advance does, told from the players of the hand, and what the minimum raise
    of a street comes to. */
module Streets {
  import opened Basics
  import opened HandTypes
  import opened TurnEngine
  import opened ActionPipeline
  import opened BlindPosting
  import opened StreetProgression
  import opened HandMachine
  import opened HandTheorems
  import opened Verdicts

  function InHandUnit(p: PlayerState): int { if p.active && !p.folded then 1 else 0 }

  /** How many players have not folded. */
  function InHandCount(h: Hand): int { SumBy(h.players, InHandUnit) }

  lemma {:induction false} RemainingCount(ps: seq<PlayerState>)
    ensures |Remaining(ps)| == SumBy(ps, InHandUnit)
    ensures |NotAllIn(Remaining(ps))| == SumBy(ps, AbleUnit)
  {
    if ps != [] {
      RemainingCount(ps[1..]);
      if InHand(ps[0]) {
        assert Remaining(ps)[1..] == Remaining(ps[1..]);
      }
    }
  }

  // ------------------------------------------------------------------------ one advance

  /** The next betting street. */
  ghost predicate NextBettingStreet(s: Street, n: Street)
  {
    (s == PreFlop && n == Flop) || (s == Flop && n == Turn) || (s == Turn && n == River)
  }

  /** Player `j` can act and is reached from the dealer before everybody else who can. */
  ghost predicate OpensFromDealer(h: Hand, j: int)
  {
    && 0 <= j < |h.players| && Able(h.players[j])
    && forall k :: 0 <= k < |h.players| && Able(h.players[k]) && h.players[k].seat != h.players[j].seat ==>
         Precedes(h.round.dealerSeat, h.players[j].seat, h.players[k].seat)
  }

  ghost predicate StreetCleared(h: Hand, n: Hand)
  {
    |n.players| == |h.players| && forall k :: 0 <= k < |h.players| ==> n.players[k] == h.players[k].(street := 0)
  }

  /** One player left: the action closes on the street it is on. */
  ghost predicate ClosedAsWon(h: Hand, n: Hand)
  {
    && n.players == h.players
    && n.round == h.round.(closed := true, actor := None, version := h.round.version + 1)
  }

  /** Nothing left to bet: on to the showdown. */
  ghost predicate ClosedAtShowdown(h: Hand, n: Hand)
  {
    && StreetCleared(h, n)
    && n.round == h.round.(street := Showdown, closed := true, actor := None, highest := 0,
                           version := h.round.version + 1)
  }

  /** The next street opens with nothing bet, the minimum raise back at the big blind, and the
      first able player after the dealer to act. */
  ghost predicate OpenedNextStreet(h: Hand, n: Hand)
  {
    && StreetCleared(h, n)
    && NextBettingStreet(h.round.street, n.round.street)
    && n.round == h.round.(street := n.round.street, highest := 0, minRaise := h.round.bigBlind, aggressor := None,
                           closed := false, actor := n.round.actor, version := h.round.version + 1)
    && exists j :: OpensFromDealer(h, j) && n.round.actor == Some(h.players[j].id)
  }

  lemma FirstAbleOpens(h: Hand)
    requires SumBy(h.players, AbleUnit) >= 2
    ensures var first := FindFirstToAct(NotAllIn(Remaining(h.players)), h.round.dealerSeat);
            first.Some? && exists j :: OpensFromDealer(h, j) && first.value.id == h.players[j].id
  {
    var able := NotAllIn(Remaining(h.players));
    RemainingCount(h.players);
    FirstActorIsClockwise(able, h.round.dealerSeat);
    var first := FindFirstToAct(able, h.round.dealerSeat).value;
    var j :| 0 <= j < |h.players| && h.players[j] == first;
    forall k | 0 <= k < |h.players| && Able(h.players[k]) && h.players[k].seat != first.seat
      ensures Precedes(h.round.dealerSeat, first.seat, h.players[k].seat)
    {
      assert h.players[k] in able;
    }
    assert OpensFromDealer(h, j);
  }

  lemma AdvanceToWinner(h: Hand)
    requires h.round.status == Active && h.round.street != Showdown && InHandCount(h) <= 1
    ensures AdvanceStreet(h).Ok? && ClosedAsWon(h, AdvanceStreet(h).value)
  {
    RemainingCount(h.players);
  }

  lemma AdvanceToShowdown(h: Hand)
    requires h.round.status == Active && h.round.street != Showdown && InHandCount(h) > 1
    requires h.round.street == River || AbleCount(h) <= 1
    ensures AdvanceStreet(h).Ok? && ClosedAtShowdown(h, AdvanceStreet(h).value)
  {
    RemainingCount(h.players);
  }

  lemma AdvanceToNext(h: Hand)
    requires h.round.status == Active && h.round.street != Showdown && h.round.street != River
    requires InHandCount(h) > 1 && AbleCount(h) > 1
    ensures AdvanceStreet(h).Ok? && OpenedNextStreet(h, AdvanceStreet(h).value)
  {
    RemainingCount(h.players);
    FirstAbleOpens(h);
  }

  /** The outcome of an advance, for every hand: refused when the hand is not active or is at
      showdown; with at most one player in the hand the street is kept and the action closed;
      on the river, or with at most one player able to act, the hand goes to showdown; otherwise
      the next street opens. */
  lemma AdvanceOutcome(h: Hand)
    ensures AdvanceStreet(h) == Err(RoundNotActive) <==> h.round.status != Active
    ensures AdvanceStreet(h) == Err(AlreadyAtShowdown) <==> h.round.status == Active && h.round.street == Showdown
    ensures h.round.status == Active && h.round.street != Showdown ==>
      && AdvanceStreet(h).Ok?
      && var n := AdvanceStreet(h).value;
         if InHandCount(h) <= 1 then ClosedAsWon(h, n)
         else if h.round.street == River || AbleCount(h) <= 1 then ClosedAtShowdown(h, n)
         else OpenedNextStreet(h, n)
  {
    if h.round.status == Active && h.round.street != Showdown {
      if InHandCount(h) <= 1 {
        AdvanceToWinner(h);
      } else if h.round.street == River || AbleCount(h) <= 1 {
        AdvanceToShowdown(h);
      } else {
        AdvanceToNext(h);
      }
    }
  }

  /** An advance that settles a hand names the one player left in it. */
  lemma LastPlayerIsNamed(h: Hand, i: nat)
    requires i < |h.players| && InHandUnit(h.players[i]) == 1 && InHandCount(h) <= 1
    ensures EvaluateStreetEnd(h.round.street, h.round.dealerSeat, h.players) == SettleHand(Some(h.players[i].id))
  {
    RemainingCount(h.players);
    assert h.players[i] in Remaining(h.players);
  }

  // ------------------------------------------------------------------- all the streets

  lemma {:induction false} AbleWithinHand(ps: seq<PlayerState>)
    ensures SumBy(ps, AbleUnit) <= SumBy(ps, InHandUnit)
  {
    if ps != [] {
      AbleWithinHand(ps[1..]);
    }
  }

  /** With two players able to act the next street opens, and they still are. */
  lemma NextOpens(h: Hand)
    requires h.round.status == Active && AbleCount(h) >= 2
    requires h.round.street == PreFlop || h.round.street == Flop || h.round.street == Turn
    ensures AdvanceStreet(h).Ok?
    ensures var n := AdvanceStreet(h).value;
            && NextBettingStreet(h.round.street, n.round.street) && n.round.status == Active
            && AbleCount(n) == AbleCount(h)
  {
    AdvanceOutcome(h);
    AbleWithinHand(h.players);
    SumByPointwise(h.players, AbleUnit, AdvanceStreet(h).value.players, AbleUnit);
  }

  /** Advanced four times before the flop with two players able to act, a hand is dealt the
      flop, the turn and the river, each once, and then shown down. */
  lemma EveryStreetOnce(h: Hand)
    requires h.round.status == Active && h.round.street == PreFlop && AbleCount(h) >= 2
    ensures var flop := Take(h, AdvanceStep);
            var turn := Take(flop, AdvanceStep);
            var river := Take(turn, AdvanceStep);
            && flop.round.street == Flop && turn.round.street == Turn && river.round.street == River
            && Take(river, AdvanceStep).round.street == Showdown
  {
    NextOpens(h);
    var flop := Take(h, AdvanceStep);
    NextOpens(flop);
    var turn := Take(flop, AdvanceStep);
    NextOpens(turn);
    var river := Take(turn, AdvanceStep);
    AdvanceOutcome(river);
    AbleWithinHand(river.players);
  }

  // -------------------------------------------------------------- the minimum raise

  /** The largest single lift of the highest bet along a run. */
  function LargestLift(h: Hand, steps: seq<Step>): int
  {
    if steps == [] then 0
    else
      var m := Play(h, steps[..|steps| - 1]);
      Max(LargestLift(h, steps[..|steps| - 1]), Take(m, steps[|steps| - 1]).round.highest - m.round.highest)
  }

  lemma BetLiftsMinimum(d: Deal, h: Hand, s: Step)
    requires DealOk(d) && Inv(d, h) && s.BetStep?
    ensures var n := Take(h, s);
            n.round.minRaise == Max(h.round.minRaise, n.round.highest - h.round.highest)
  {
    if ApplyAction(h, s.id, s.action, s.amount, None).Ok? {
      var i, v := AcceptedBet(h, s.id, s.action, s.amount);
      OneBetMoves(d, h, s.id, s.action, s.amount, i, v, Take(h, s));
    }
  }

  lemma {:induction false} BetsLiftMinimum(d: Deal, h: Hand, steps: seq<Step>)
    requires DealOk(d) && Inv(d, h) && AllBets(steps)
    ensures Play(h, steps).round.minRaise == Max(h.round.minRaise, LargestLift(h, steps))
  {
    if steps != [] {
      var front := steps[..|steps| - 1];
      BetsLiftMinimum(d, h, front);
      PlayKeepsInv(d, h, front);
      BetLiftsMinimum(d, Play(h, front), steps[|steps| - 1]);
    }
  }

  /** The run stands at the opening of a street: at the start, or right after an advance that
      opened one. */
  ghost predicate AtOpening(d: Deal, before: seq<Step>)
    requires |d.seats| > 0
  {
    before == [] ||
    var front := before[..|before| - 1];
    && before[|before| - 1] == AdvanceStep
    && Play(StartRound(d), before).round.street != Play(StartRound(d), front).round.street
    && !Play(StartRound(d), before).round.closed
  }

  lemma OpeningMinimum(d: Deal, before: seq<Step>)
    requires DealOk(d) && AtOpening(d, before)
    ensures Play(StartRound(d), before).round.minRaise == d.big
  {
    if before != [] {
      var front := before[..|before| - 1];
      ReachableStatesAreSound(d, front);
      AdvanceOutcome(Play(StartRound(d), front));
    }
  }

  /** Over any run of bets from the opening of a street, the minimum raise is the big blind or
      the largest single lift of the highest bet on that street, whichever is larger. */
  lemma MinimumRaiseIsLargestLift(d: Deal, before: seq<Step>, steps: seq<Step>)
    requires DealOk(d) && AtOpening(d, before) && AllBets(steps)
    ensures var h := Play(StartRound(d), before);
            Play(h, steps).round.minRaise == Max(d.big, LargestLift(h, steps))
  {
    ReachableStatesAreSound(d, before);
    OpeningMinimum(d, before);
    BetsLiftMinimum(d, Play(StartRound(d), before), steps);
  }
}
