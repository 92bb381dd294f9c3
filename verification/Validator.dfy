/** `validate_bet`: which requests the engine accepts, and what each one amounts to. */
module Validator {
  import opened Basics
  import opened HandTypes

  datatype BetError =
    | RoundNotActive | ActionClosed | PlayerNotInHand | PlayerAlreadyFolded
    | PlayerAlreadyAllIn | NotYourTurn | CheckNotAllowed | CallNotAllowed
    | BetNotAllowed | InvalidAmount | AmountExceedsStack | RaiseBelowMinimum
    | RaiseNotAllowed | IllegalAction | StaleState

  /** The action and the number of chips it moves from the stack. */
  datatype ValidatedAction = ValidatedAction(action: Action, amount: int)

  function CallAmount(r: RoundState, p: PlayerState): int { Max(0, r.highest - p.street) }

  function ValidateBet(h: Hand, id: PlayerId, action: Action, amount: int)
    : Result<ValidatedAction, BetError>
  {
    if h.round.status != Active then Err(RoundNotActive)
    else if h.round.closed then Err(ActionClosed)
    else
      var i := IndexOf(h.players, id);
      if i == |h.players| then Err(PlayerNotInHand)
      else
        var p := h.players[i];
        if !p.active then Err(PlayerNotInHand)
        else if p.folded then Err(PlayerAlreadyFolded)
        else if p.allIn then Err(PlayerAlreadyAllIn)
        else if h.round.actor.Some? && h.round.actor.value != id then Err(NotYourTurn)
        else Judge(h.round, p, action, amount)
  }

  /** The branch on the action, once the player may act at all. */
  function Judge(r: RoundState, p: PlayerState, action: Action, amount: int)
    : Result<ValidatedAction, BetError>
  {
    var call := CallAmount(r, p);
    match action
    case Fold => Ok(ValidatedAction(Fold, 0))
    case Check =>
      if call > 0 then Err(CheckNotAllowed) else Ok(ValidatedAction(Check, 0))
    case Call =>
      if call == 0 then Err(CallNotAllowed)
      else
        var effective := Min(call, p.stack);
        if effective == p.stack then Ok(ValidatedAction(AllIn, effective))
        else Ok(ValidatedAction(Call, effective))
    case Bet =>
      if r.highest > 0 then Err(BetNotAllowed)
      else if amount <= 0 then Err(InvalidAmount)
      else if amount > p.stack then Err(AmountExceedsStack)
      else if amount < r.minRaise && amount != p.stack then Err(RaiseBelowMinimum)
      else if amount == p.stack then Ok(ValidatedAction(AllIn, amount))
      else Ok(ValidatedAction(Bet, amount))
    case Raise =>
      if r.highest == 0 then Err(RaiseNotAllowed)
      else if amount <= 0 then Err(InvalidAmount)
      else
        var additional := amount - p.street;
        if additional <= 0 then Err(InvalidAmount)
        else if additional > p.stack then Err(AmountExceedsStack)
        else if amount - r.highest < r.minRaise && additional != p.stack then Err(RaiseBelowMinimum)
        else if additional == p.stack then Ok(ValidatedAction(AllIn, additional))
        else Ok(ValidatedAction(Raise, additional))
    case AllIn =>
      if p.stack <= 0 then Err(PlayerAlreadyAllIn) else Ok(ValidatedAction(AllIn, p.stack))
    case Unknown => Err(IllegalAction)
  }
}
