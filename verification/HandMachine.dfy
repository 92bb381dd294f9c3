/** One hand as a state machine: start, then any sequence of bets and street advances.
    A refused step leaves the state alone. */
module HandMachine {
  import opened Basics
  import opened HandTypes
  import opened Validator
  import opened TurnEngine
  import opened ActionPipeline
  import opened BlindPosting
  import opened StreetProgression

  datatype Step = BetStep(id: PlayerId, action: Action, amount: int) | AdvanceStep

  function Take(h: Hand, s: Step): Hand
  {
    match s
    case BetStep(id, action, amount) =>
      (match ApplyAction(h, id, action, amount, None) case Ok(a) => a.hand case Err(_) => h)
    case AdvanceStep =>
      (match AdvanceStreet(h) case Ok(n) => n case Err(_) => h)
  }

  function Play(h: Hand, steps: seq<Step>): Hand
  {
    if steps == [] then h else Take(Play(h, steps[..|steps| - 1]), steps[|steps| - 1])
  }

  // ------------------------------------------------------------- the invariant

  ghost predicate PlayerOk(p: PlayerState, s: SeatPlayer)
  {
    && p.id == s.id && p.seat == s.seat
    && 0 <= p.stack && 0 <= p.street <= p.hand
    && p.stack + p.hand == s.stack
    && (p.allIn <==> p.stack == 0)
    && (p.active <==> !p.folded)
  }

  ghost predicate ChipsOk(d: Deal, h: Hand)
  {
    && |h.players| == |d.seats|
    && (forall i :: 0 <= i < |h.players| ==> PlayerOk(h.players[i], d.seats[i]))
    && h.round.pot == SumBy(h.players, CommitOf)
  }

  ghost predicate IsHighest(ps: seq<PlayerState>, highest: int)
  {
    && (forall i :: 0 <= i < |ps| ==> ps[i].street <= highest)
    && (exists i :: 0 <= i < |ps| && ps[i].street == highest)
  }

  ghost predicate RoundOk(d: Deal, r: RoundState)
  {
    && r.status == Active && r.bigBlind == d.big && d.big <= r.minRaise
    && (r.closed <==> r.actor.None?)
  }

  /** Whoever is to act is in the hand, is not the last aggressor, and nobody able owes
      between the aggressor and them. */
  ghost predicate TurnOk(h: Hand)
  {
    h.round.actor.Some? ==>
      var i := IndexOf(h.players, h.round.actor.value);
      && i < |h.players|
      && (h.round.aggressor.Some? ==>
            && h.players[i].seat != h.round.aggressor.value
            && forall k :: 0 <= k < |h.players| && OnArc(h.round.aggressor.value, h.players[i].seat, h.players[k].seat)
                 ==> !Owing(h.players[k], h.round.highest))
  }

  ghost predicate Inv(d: Deal, h: Hand)
  {
    ChipsOk(d, h) && IsHighest(h.players, h.round.highest) && RoundOk(d, h.round) && TurnOk(h)
  }

  /** After a bet: action closed and nobody to act, or the player to act is able and owes. */
  ghost predicate ActorOwes(h: Hand)
  {
    if h.round.closed then h.round.actor == None
    else
      && h.round.actor.Some?
      && var i := IndexOf(h.players, h.round.actor.value);
         i < |h.players| && Owing(h.players[i], h.round.highest)
  }

  /** The designated actor, if any, is in the hand and can act. */
  ghost predicate ActorIsAble(h: Hand)
  {
    h.round.actor.Some? ==>
      var i := IndexOf(h.players, h.round.actor.value);
      i < |h.players| && Able(h.players[i])
  }

  lemma NamesStay(d: Deal, h: Hand)
    requires DealOk(d) && ChipsOk(d, h)
    ensures SeatsAscend(h.players) && IdsDistinct(h.players)
  {
    forall i, j | 0 <= i < j < |h.players|
      ensures h.players[i].seat < h.players[j].seat && h.players[i].id != h.players[j].id
    {
      assert PlayerOk(h.players[i], d.seats[i]) && PlayerOk(h.players[j], d.seats[j]);
    }
  }

  // -------------------------------------------------------------- the first state

  lemma {:induction false} MaxPostedIsMax(s: seq<PostedPlayer>)
    requires s != []
    ensures forall i :: 0 <= i < |s| ==> s[i].street <= MaxPosted(s)
    ensures exists i :: 0 <= i < |s| && s[i].street == MaxPosted(s)
  {
    if |s| > 1 {
      MaxPostedIsMax(s[1..]);
      var k :| 0 <= k < |s[1..]| && s[1..][k].street == MaxPosted(s[1..]);
      assert s[k + 1].street == MaxPosted(s[1..]);
      forall i | 0 <= i < |s| ensures s[i].street <= MaxPosted(s) {
        assert i > 0 ==> s[i] == s[1..][i - 1];
      }
      assert s[0].street == MaxPosted(s) || s[k + 1].street == MaxPosted(s);
    } else {
      assert s[0].street == MaxPosted(s);
    }
  }

  lemma StartPlayersOk(d: Deal)
    requires DealOk(d)
    ensures forall i :: 0 <= i < |d.seats| ==> PlayerOk(SeatedAll(d)[i], d.seats[i])
    ensures SumBy(PostAll(d), PostedOf) == SumBy(SeatedAll(d), CommitOf)
  {
    forall i | 0 <= i < |d.seats| ensures PlayerOk(SeatedAll(d)[i], d.seats[i]) {
      PostingIsCapped(d, d.seats[i]);
    }
    SumByPointwise(PostAll(d), PostedOf, SeatedAll(d), CommitOf);
  }

  lemma StartHighest(d: Deal)
    requires |d.seats| > 0
    ensures IsHighest(SeatedAll(d), MaxPosted(PostAll(d)))
  {
    MaxPostedIsMax(PostAll(d));
    var k :| 0 <= k < |PostAll(d)| && PostAll(d)[k].street == MaxPosted(PostAll(d));
    assert forall i :: 0 <= i < |d.seats| ==> SeatedAll(d)[i].street == PostAll(d)[i].street;
    assert SeatedAll(d)[k].street == MaxPosted(PostAll(d));
  }

  lemma StartIsOk(d: Deal)
    requires DealOk(d)
    ensures Inv(d, StartRound(d))
    ensures StartRound(d).round.aggressor == None && StartRound(d).round.street == PreFlop
  {
    StartPlayersOk(d);
    StartHighest(d);
    assert SeatedAll(d)[FirstActorIndex(d)].id == StartRound(d).round.actor.value;
  }

  // -------------------------------------------------------------------- one bet

  /** What an accepted action is worth, for a player who still has chips. */
  lemma JudgeFacts(r: RoundState, p: PlayerState, action: Action, amount: int)
    requires Judge(r, p, action, amount).Ok?
    requires 0 < p.stack && 0 <= p.street <= r.highest && 0 < r.minRaise
    ensures var v := Judge(r, p, action, amount).value;
            && v.action != Unknown
            && 0 <= v.amount <= p.stack
            && (v.action == AllIn <==> v.amount == p.stack)
            && (MovesChips(v.action) <==> v.amount > 0)
            && (v.action == Check ==> p.street == r.highest)
            && (v.action == Call ==> p.street + v.amount == r.highest)
            && (v.action == Bet || v.action == Raise ==> p.street + v.amount >= r.highest + r.minRaise)
  {
  }

  /** The player an accepted bet is for, and what was decided. */
  ghost predicate Accepted(h: Hand, id: PlayerId, action: Action, amount: int, i: nat, v: ValidatedAction)
  {
    && i == IndexOf(h.players, id) && i < |h.players|
    && Able(h.players[i])
    && h.round.status == Active && !h.round.closed
    && (h.round.actor.Some? ==> h.round.actor.value == id)
    && Judge(h.round, h.players[i], action, amount) == Ok(v)
  }

  /** The players and round after an accepted bet, field by field. */
  ghost predicate BetResult(h: Hand, i: nat, v: ValidatedAction, n: Hand)
    requires i < |h.players|
  {
    var p := h.players[i];
    && n.players == h.players[i := MutatePlayer(p, PlayerChange(p.id, v))]
    && n.round == MutateRound(h.round, Plan(h, p, v).round)
  }

  lemma AcceptedBet(h: Hand, id: PlayerId, action: Action, amount: int) returns (i: nat, v: ValidatedAction)
    requires ApplyAction(h, id, action, amount, None).Ok?
    ensures Accepted(h, id, action, amount, i, v)
    ensures BetResult(h, i, v, Take(h, BetStep(id, action, amount)))
    ensures ApplyAction(h, id, action, amount, None).value.action == v.action
    ensures ApplyAction(h, id, action, amount, None).value.amount == v.amount
  {
    i := IndexOf(h.players, id);
    v := ValidateBet(h, id, action, amount).value;
  }

  /** The bettor's own row, and the bet level, after an accepted action. */
  lemma BettorAfter(s: SeatPlayer, r: RoundState, p: PlayerState, action: Action, amount: int)
    requires Judge(r, p, action, amount).Ok? && Able(p) && PlayerOk(p, s)
    requires p.street <= r.highest && 0 < r.minRaise
    ensures var v := Judge(r, p, action, amount).value;
            var q := MutatePlayer(p, PlayerChange(p.id, v));
            var top := OrElse(NewHighest(r, p, v), r.highest);
            var least := OrElse(NewMinRaise(r, p, v), r.minRaise);
            && PlayerOk(q, s) && q.stack == p.stack - v.amount && q.hand == p.hand + v.amount
            && p.street <= q.street <= top && r.highest <= top && (top == r.highest || top == q.street)
            && !Owing(q, top) && r.minRaise <= least
            && (v.action == Bet || v.action == Raise ==> top >= r.highest + r.minRaise)
  {
    JudgeFacts(r, p, action, amount);
  }

  lemma HighestAfter(ps: seq<PlayerState>, i: nat, q: PlayerState, highest: int, top: int)
    requires i < |ps| && IsHighest(ps, highest) && ps[i].street <= q.street <= top
    requires highest <= top && (top == highest || top == q.street)
    ensures IsHighest(ps[i := q], top)
  {
    var k :| 0 <= k < |ps| && ps[k].street == highest;
    assert ps[i := q][i].street == top || ps[i := q][k].street == top;
  }

  lemma BetKeepsChips(d: Deal, h: Hand, id: PlayerId, action: Action, amount: int, i: nat, v: ValidatedAction, n: Hand)
    requires DealOk(d) && Inv(d, h) && Accepted(h, id, action, amount, i, v) && BetResult(h, i, v, n)
    ensures ChipsOk(d, n) && IsHighest(n.players, n.round.highest)
    ensures d.big <= n.round.minRaise && h.round.minRaise <= n.round.minRaise
    ensures h.round.highest <= n.round.highest
    ensures v.action == Bet || v.action == Raise ==> n.round.highest >= h.round.highest + h.round.minRaise
    ensures !Owing(n.players[i], n.round.highest)
    ensures n.players[i].stack == h.players[i].stack - v.amount
  {
    assert PlayerOk(h.players[i], d.seats[i]);
    BettorAfter(d.seats[i], h.round, h.players[i], action, amount);
    HighestAfter(h.players, i, n.players[i], h.round.highest, n.round.highest);
    SumByUpdate(h.players, i, n.players[i], CommitOf);
  }

  /** The seats the turn engine was shown are the seats that are then stored. */
  function SeatView(p: PlayerState): ActionSeat
  {
    ActionSeat(p.id, p.seat, p.folded, p.allIn, p.active, p.street)
  }

  lemma PlannedSeatsAreStored(h: Hand, i: nat, v: ValidatedAction, n: Hand)
    requires IdsDistinct(h.players) && i < |h.players| && BetResult(h, i, v, n)
    ensures var seats := SeatsAfter(h.players, PlayerChange(h.players[i].id, v));
            |seats| == |n.players| && forall k :: 0 <= k < |seats| ==> seats[k] == SeatView(n.players[k])
  {
  }

  /** The seats, starting seat, aggressor and highest bet handed to the turn engine. */
  ghost function Asked(n: Hand): (seats: seq<ActionSeat>)
    ensures |seats| == |n.players| && forall k :: 0 <= k < |seats| ==> seats[k] == SeatView(n.players[k])
  {
    seq(|n.players|, k requires 0 <= k < |n.players| => SeatView(n.players[k]))
  }

  lemma BetAsksTurnEngine(h: Hand, i: nat, v: ValidatedAction, n: Hand)
    requires IdsDistinct(h.players) && i < |h.players| && BetResult(h, i, v, n)
    ensures var next := NextToAct(Asked(n), h.players[i].seat, n.round.aggressor, n.round.highest);
            && n.round.closed == next.Closed?
            && n.round.actor == if next.Closed? then None else Some(next.id)
  {
    PlannedSeatsAreStored(h, i, v, n);
    assert Asked(n) == SeatsAfter(h.players, PlayerChange(h.players[i].id, v));
  }

  lemma SeatsAreDistinct(n: Hand)
    requires SeatsAscend(n.players)
    ensures DistinctSeats(Asked(n))
  {
  }

  /** An accepted bet leaves the arc from the (new) aggressor to the bettor settled. */
  lemma BetSettlesArc(d: Deal, h: Hand, id: PlayerId, action: Action, amount: int, i: nat, v: ValidatedAction, n: Hand)
    requires DealOk(d) && Inv(d, h) && Accepted(h, id, action, amount, i, v) && BetResult(h, i, v, n)
    ensures ArcSettled(Asked(n), h.players[i].seat, n.round.aggressor, n.round.highest)
  {
    BetKeepsChips(d, h, id, action, amount, i, v, n);
    NamesStay(d, h);
    var from := h.players[i].seat;
    forall k | 0 <= k < |n.players| && n.round.aggressor.Some?
               && (n.players[k].seat == from || OnArc(n.round.aggressor.value, from, n.players[k].seat))
      ensures !NeedsAction(SeatView(n.players[k]), n.round.highest)
    {
      if k != i {
        assert n.players[k] == h.players[k];
        assert h.players[k].seat != from;
        assert !Aggressive(v.action);
      }
    }
  }

  /** The early stop of the turn engine, asked by a bet in a state that satisfies the
      invariant, is the exhaustive scan. */
  lemma BetScansExhaustively(d: Deal, h: Hand, id: PlayerId, action: Action, amount: int,
                             i: nat, v: ValidatedAction, n: Hand)
    requires DealOk(d) && Inv(d, h) && Accepted(h, id, action, amount, i, v) && BetResult(h, i, v, n)
    ensures var from, g, top := h.players[i].seat, n.round.aggressor, n.round.highest;
            var next := NextToAct(Asked(n), from, g, top);
            && ExhaustiveOutcome(Asked(n), from, top, next)
            && n.round.closed == next.Closed?
            && n.round.actor == (if next.Closed? then None else Some(next.id))
            && (next.Next? && g.Some? ==>
                  && next.seat != g.value
                  && forall q :: q in Asked(n) && OnArc(g.value, next.seat, q.seat) ==> !NeedsAction(q, top))
  {
    NamesStay(d, h);
    BetSettlesArc(d, h, id, action, amount, i, v, n);
    BetAsksTurnEngine(h, i, v, n);
    assert SeatsAscend(n.players);
    SeatsAreDistinct(n);
    EarlyStopIsExhaustive(Asked(n), h.players[i].seat, n.round.aggressor, n.round.highest);
    ArcStaysSettled(Asked(n), h.players[i].seat, n.round.aggressor, n.round.highest);
  }

  /** A scan's answer, stored, meets the turn part of the invariant. */
  lemma AnswerGivesTurn(n: Hand, from: int, next: NextActor)
    requires IdsDistinct(n.players)
    requires ExhaustiveOutcome(Asked(n), from, n.round.highest, next)
    requires n.round.closed == next.Closed?
    requires n.round.actor == (if next.Closed? then None else Some(next.id))
    requires next.Next? && n.round.aggressor.Some? ==>
      && next.seat != n.round.aggressor.value
      && forall q :: q in Asked(n) && OnArc(n.round.aggressor.value, next.seat, q.seat) ==>
           !NeedsAction(q, n.round.highest)
    ensures TurnOk(n) && ActorOwes(n)
  {
    var g, top := n.round.aggressor, n.round.highest;
    if next.Next? {
      var q :| q in Asked(n) && q.id == next.id && q.seat == next.seat && NeedsAction(q, top);
      var j :| 0 <= j < |n.players| && Asked(n)[j] == q;
      assert IndexOf(n.players, next.id) == j;
      forall k | 0 <= k < |n.players| && g.Some? && OnArc(g.value, next.seat, n.players[k].seat)
        ensures !Owing(n.players[k], top)
      {
        assert Asked(n)[k] in Asked(n);
      }
    }
  }

  lemma BetKeepsInv(d: Deal, h: Hand, id: PlayerId, action: Action, amount: int, i: nat, v: ValidatedAction, n: Hand)
    requires DealOk(d) && Inv(d, h) && Accepted(h, id, action, amount, i, v) && BetResult(h, i, v, n)
    ensures Inv(d, n) && ActorOwes(n)
  {
    BetScansExhaustively(d, h, id, action, amount, i, v, n);
    BetKeepsChips(d, h, id, action, amount, i, v, n);
    NamesStay(d, n);
    AnswerGivesTurn(n, h.players[i].seat,
      NextToAct(Asked(n), h.players[i].seat, n.round.aggressor, n.round.highest));
  }

  // ------------------------------------------------------------------ one advance

  lemma AdvanceKeepsInv(d: Deal, h: Hand)
    requires DealOk(d) && Inv(d, h) && AdvanceStreet(h).Ok?
    ensures Inv(d, AdvanceStreet(h).value)
    ensures forall k :: 0 <= k < |h.players| ==>
      AdvanceStreet(h).value.players[k].stack == h.players[k].stack
      && Able(AdvanceStreet(h).value.players[k]) == Able(h.players[k])
  {
    var n := AdvanceStreet(h).value;
    var end := EvaluateStreetEnd(h.round.street, h.round.dealerSeat, h.players);
    if !end.SettleHand? {
      SumByPointwise(h.players, CommitOf, n.players, CommitOf);
      assert n.players[0].street == 0;
      forall i | 0 <= i < |n.players| ensures PlayerOk(n.players[i], d.seats[i]) {
        assert PlayerOk(h.players[i], d.seats[i]);
      }
    }
    if end.NextStreet? {
      var able := NotAllIn(Remaining(h.players));
      FirstActorIsClockwise(able, h.round.dealerSeat);
      var first := FindFirstToAct(able, h.round.dealerSeat).value;
      var j :| 0 <= j < |h.players| && h.players[j] == first;
      assert n.players[j].id == first.id;
    }
  }

  /** A street opens on a player who is able to act; otherwise nobody is to act. */
  lemma AdvancedActorIsAble(d: Deal, h: Hand)
    requires DealOk(d) && Inv(d, h) && AdvanceStreet(h).Ok?
    ensures ActorIsAble(AdvanceStreet(h).value)
  {
    var n := AdvanceStreet(h).value;
    var end := EvaluateStreetEnd(h.round.street, h.round.dealerSeat, h.players);
    if end.NextStreet? {
      var able := NotAllIn(Remaining(h.players));
      FirstActorIsClockwise(able, h.round.dealerSeat);
      var first := FindFirstToAct(able, h.round.dealerSeat).value;
      var j :| 0 <= j < |h.players| && h.players[j] == first;
      NamesStay(d, h);
      assert n.players[j] == ClearStreet(first);
      assert IndexOf(n.players, first.id) == j;
    }
  }

  // ---------------------------------------------------------------------- all runs

  lemma TakeKeepsInv(d: Deal, h: Hand, s: Step)
    requires DealOk(d) && Inv(d, h)
    ensures Inv(d, Take(h, s))
  {
    match s
    case BetStep(id, action, amount) =>
      if ApplyAction(h, id, action, amount, None).Ok? {
        var i, v := AcceptedBet(h, id, action, amount);
        BetKeepsInv(d, h, id, action, amount, i, v, Take(h, s));
      }
    case AdvanceStep =>
      if AdvanceStreet(h).Ok? {
        AdvanceKeepsInv(d, h);
      }
  }

  lemma {:induction false} PlayKeepsInv(d: Deal, h: Hand, steps: seq<Step>)
    requires DealOk(d) && Inv(d, h)
    ensures Inv(d, Play(h, steps))
  {
    if steps != [] {
      PlayKeepsInv(d, h, steps[..|steps| - 1]);
      TakeKeepsInv(d, Play(h, steps[..|steps| - 1]), steps[|steps| - 1]);
    }
  }

  /** Every state of every run keeps the invariant: pot = sum of commitments, stacks never
      negative, stack + commitment constant per player, highest bet = largest street
      commitment, all-in exactly at an empty stack, active exactly when not folded. */
  lemma ReachableStatesAreSound(d: Deal, steps: seq<Step>)
    requires DealOk(d)
    ensures Inv(d, Play(StartRound(d), steps))
  {
    StartIsOk(d);
    PlayKeepsInv(d, StartRound(d), steps);
  }
}
