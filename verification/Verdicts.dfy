/** Which request is accepted, with what effect, and what each refusal says: the validator and
    the transition against conditions on the stack, the street and the bet level. */
module Verdicts {
  import opened Basics
  import opened HandTypes
  import opened Validator
  import opened ActionPipeline
  import opened BlindPosting
  import opened HandMachine

  // ------------------------------------------------------------------------ acceptance

  /** A wager of `chips` that brings the street total to `total`: affordable, and at least the
      minimum over the highest bet unless it is the whole stack. */
  predicate Affordable(r: RoundState, p: PlayerState, chips: int, total: int)
  {
    0 < chips <= p.stack && (chips == p.stack || total >= r.highest + r.minRaise)
  }

  /** What a player who may act is permitted to do. */
  predicate Permits(r: RoundState, p: PlayerState, action: Action, amount: int)
  {
    match action
    case Fold => true
    case Check => p.street >= r.highest
    case Call => p.street < r.highest
    case Bet => r.highest == 0 && Affordable(r, p, amount, amount)
    case Raise => r.highest > 0 && amount > 0 && Affordable(r, p, amount - p.street, amount)
    case AllIn => p.stack > 0
    case Unknown => false
  }

  /** The chips a permitted action moves. */
  function ChipsMoved(r: RoundState, p: PlayerState, action: Action, amount: int): int
  {
    match action
    case Call => Min(r.highest - p.street, p.stack)
    case Bet => amount
    case Raise => amount - p.street
    case AllIn => p.stack
    case _ => 0
  }

  /** Exactly the permitted actions are accepted; each moves its chips, and one that moves the
      whole stack is recorded as all-in, any other as what it was. */
  lemma AcceptedExactlyWhenPermitted(r: RoundState, p: PlayerState, action: Action, amount: int)
    requires r.highest >= 0
    ensures Judge(r, p, action, amount).Ok? <==> Permits(r, p, action, amount)
    ensures Permits(r, p, action, amount) ==>
      var v, chips := Judge(r, p, action, amount).value, ChipsMoved(r, p, action, amount);
      && v.amount == chips
      && v.action == if action != Fold && action != Check && chips == p.stack then AllIn else action
  {
  }

  /** What each refusal says. */
  lemma RefusalSays(r: RoundState, p: PlayerState, action: Action, amount: int)
    requires r.highest >= 0 && !Permits(r, p, action, amount)
    ensures var e, chips := Judge(r, p, action, amount).error, if action == Raise then amount - p.street else amount;
            match action
            case Check => e == CheckNotAllowed
            case Call => e == CallNotAllowed
            case AllIn => e == PlayerAlreadyAllIn
            case Unknown => e == IllegalAction
            case Bet => WagerError(r, p, r.highest == 0, BetNotAllowed, amount, chips, e)
            case Raise => WagerError(r, p, r.highest > 0, RaiseNotAllowed, amount, chips, e)
            case Fold => false
  {
  }

  /** A refused bet or raise: the wrong one of the two, no chips, too many, or too few. */
  predicate WagerError(r: RoundState, p: PlayerState, rightKind: bool, wrongKind: BetError,
                       amount: int, chips: int, e: BetError)
  {
    && (e == wrongKind <==> !rightKind)
    && (rightKind ==>
          && (e == InvalidAmount <==> amount <= 0 || chips <= 0)
          && (e == AmountExceedsStack <==> amount > 0 && chips > 0 && chips > p.stack)
          && (e == RaiseBelowMinimum <==> amount > 0 && 0 < chips < p.stack && amount < r.highest + r.minRaise)
          && (e == InvalidAmount || e == AmountExceedsStack || e == RaiseBelowMinimum))
  }

  /** The player may act at all: the round is open and active, and it is their turn. */
  ghost predicate MayAct(h: Hand, i: nat)
  {
    && h.round.status == Active && !h.round.closed
    && i < |h.players| && Able(h.players[i])
    && (h.round.actor.Some? ==> h.round.actor.value == h.players[i].id)
  }

  lemma ValidatedIff(h: Hand, i: nat, action: Action, amount: int)
    requires IdsDistinct(h.players) && i < |h.players|
    ensures ValidateBet(h, h.players[i].id, action, amount).Ok? <==>
              MayAct(h, i) && Judge(h.round, h.players[i], action, amount).Ok?
  {
    assert IndexOf(h.players, h.players[i].id) == i;
  }

  /** A request is accepted exactly when it names the current version or none, its player may
      act, and the action is permitted; a wrong version is reported before anything else. */
  lemma RequestAcceptedIff(h: Hand, i: nat, action: Action, amount: int, expected: Option<int>)
    requires IdsDistinct(h.players) && i < |h.players| && h.round.highest >= 0
    ensures ApplyAction(h, h.players[i].id, action, amount, expected).Ok? <==>
              && (expected.Some? ==> expected.value == h.round.version)
              && MayAct(h, i) && Permits(h.round, h.players[i], action, amount)
    ensures ApplyAction(h, h.players[i].id, action, amount, expected) == Err(StaleState) <==>
              expected.Some? && expected.value != h.round.version
  {
    ValidatedIff(h, i, action, amount);
    AcceptedExactlyWhenPermitted(h.round, h.players[i], action, amount);
  }

  /** Whose request it is not: the first reason that applies, in the order of the checks. */
  lemma WhoIsRefused(h: Hand, id: PlayerId, action: Action, amount: int)
    ensures var e, i := ValidateBet(h, id, action, amount), IndexOf(h.players, id);
            if h.round.status != Active then e == Err(RoundNotActive)
            else if h.round.closed then e == Err(ActionClosed)
            else if i == |h.players| || !h.players[i].active then e == Err(PlayerNotInHand)
            else if h.players[i].folded then e == Err(PlayerAlreadyFolded)
            else if h.players[i].allIn then e == Err(PlayerAlreadyAllIn)
            else h.round.actor.Some? && h.round.actor.value != id ==> e == Err(NotYourTurn)
  {
  }

  // ---------------------------------------------------------------------------- effect

  /** The bettor's row after an action recorded as `v`. */
  ghost predicate RowMoved(p: PlayerState, q: PlayerState, v: ValidatedAction)
  {
    && q.id == p.id && q.seat == p.seat
    && q.stack == p.stack - v.amount && q.street == p.street + v.amount && q.hand == p.hand + v.amount
    && (q.folded <==> v.action == Fold) && (q.active <==> v.action != Fold) && (q.allIn <==> q.stack == 0)
  }

  /** The round after an action of `p` recorded as `v`, the turn apart. */
  ghost predicate RoundMoved(r: RoundState, n: RoundState, p: PlayerState, v: ValidatedAction)
  {
    && n.pot == r.pot + v.amount
    && n.highest == Max(r.highest, p.street + v.amount)
    && n.minRaise == Max(r.minRaise, n.highest - r.highest)
    && n.aggressor == (if v.action in {Bet, Raise, AllIn} then Some(p.seat) else r.aggressor)
    && n.version == r.version + 1
    && n == r.(pot := n.pot, highest := n.highest, minRaise := n.minRaise, aggressor := n.aggressor,
               version := n.version, actor := n.actor, closed := n.closed)
  }

  lemma BettorMoves(r: RoundState, p: PlayerState, action: Action, amount: int, v: ValidatedAction)
    requires Judge(r, p, action, amount) == Ok(v) && Able(p) && 0 < p.stack && 0 <= p.street <= r.highest
    requires 0 < r.minRaise
    ensures RowMoved(p, MutatePlayer(p, PlayerChange(p.id, v)), v)
  {
    JudgeFacts(r, p, action, amount);
  }

  lemma LevelsMove(r: RoundState, p: PlayerState, action: Action, amount: int, v: ValidatedAction)
    requires Judge(r, p, action, amount) == Ok(v) && 0 < p.stack && 0 <= p.street <= r.highest && 0 < r.minRaise
    ensures var top := OrElse(NewHighest(r, p, v), r.highest);
            && top == Max(r.highest, p.street + v.amount)
            && OrElse(NewMinRaise(r, p, v), r.minRaise) == Max(r.minRaise, top - r.highest)
  {
    JudgeFacts(r, p, action, amount);
  }

  lemma OneBetMoves(d: Deal, h: Hand, id: PlayerId, action: Action, amount: int, i: nat, v: ValidatedAction, n: Hand)
    requires DealOk(d) && Inv(d, h) && Accepted(h, id, action, amount, i, v) && BetResult(h, i, v, n)
    ensures RowMoved(h.players[i], n.players[i], v) && RoundMoved(h.round, n.round, h.players[i], v)
    ensures n.players == h.players[i := n.players[i]]
  {
    assert PlayerOk(h.players[i], d.seats[i]);
    BettorMoves(h.round, h.players[i], action, amount, v);
    LevelsMove(h.round, h.players[i], action, amount, v);
  }

  /** In every reachable state an accepted bet moves its chips from the bettor's stack to the
      pot, lifts the highest bet to the bettor's street total, lifts the minimum raise to the
      size of the lift if that is larger, makes a bettor who wagered the aggressor, and changes
      nobody else. */
  lemma BetOutcome(d: Deal, steps: seq<Step>, id: PlayerId, action: Action, amount: int)
    requires DealOk(d) && ApplyAction(Play(StartRound(d), steps), id, action, amount, None).Ok?
    ensures var h := Play(StartRound(d), steps);
            var a := ApplyAction(h, id, action, amount, None).value;
            var i, v := IndexOf(h.players, id), ValidatedAction(a.action, a.amount);
            && i < |h.players| && |a.hand.players| == |h.players|
            && v.amount == ChipsMoved(h.round, h.players[i], action, amount)
            && RowMoved(h.players[i], a.hand.players[i], v)
            && RoundMoved(h.round, a.hand.round, h.players[i], v)
            && forall k :: 0 <= k < |h.players| && k != i ==> a.hand.players[k] == h.players[k]
  {
    var h := Play(StartRound(d), steps);
    ReachableStatesAreSound(d, steps);
    var i, v := AcceptedBet(h, id, action, amount);
    AcceptedExactlyWhenPermitted(h.round, h.players[i], action, amount);
    OneBetMoves(d, h, id, action, amount, i, v, Take(h, BetStep(id, action, amount)));
  }
}
