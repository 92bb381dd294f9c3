/** `transition_hand_state`, `_apply_transition` and `apply_action`: plan a bet on frozen
    values, then write the plan into the rows. */
module ActionPipeline {
  import opened Basics
  import opened HandTypes
  import opened Validator
  import opened TurnEngine
  import opened Rows

  datatype PlayerMutation = PlayerMutation(
    id: PlayerId, stackDelta: int, streetDelta: int, handDelta: int, fold: bool, allIn: bool)

  datatype RoundMutation = RoundMutation(
    potDelta: int, newHighest: Option<int>, newMinRaise: Option<int>,
    newActor: Option<PlayerId>, newAggressor: Option<int>, closed: bool)

  datatype HandTransition = HandTransition(
    action: Action, amount: int, player: PlayerMutation, round: RoundMutation)

  predicate MovesChips(a: Action) { a == Call || a == Bet || a == Raise || a == AllIn }

  predicate Aggressive(a: Action) { a == Bet || a == Raise || a == AllIn }

  function PlayerChange(id: PlayerId, v: ValidatedAction): PlayerMutation
  {
    var moved := if MovesChips(v.action) then v.amount else 0;
    PlayerMutation(id, -moved, moved, moved, v.action == Fold, v.action == AllIn)
  }

  /** The seat as it will stand once `m` is applied. */
  function SeatAfter(p: PlayerState, m: PlayerMutation): ActionSeat
  {
    if p.id == m.id then
      ActionSeat(p.id, p.seat, p.folded || m.fold, p.allIn || m.allIn, p.active && !m.fold, p.street + m.streetDelta)
    else
      ActionSeat(p.id, p.seat, p.folded, p.allIn, p.active, p.street)
  }

  function SeatsAfter(ps: seq<PlayerState>, m: PlayerMutation): (seats: seq<ActionSeat>)
    ensures |seats| == |ps|
    ensures forall i :: 0 <= i < |ps| ==> seats[i] == SeatAfter(ps[i], m)
  {
    seq(|ps|, i requires 0 <= i < |ps| => SeatAfter(ps[i], m))
  }

  function NewHighest(r: RoundState, p: PlayerState, v: ValidatedAction): Option<int>
  {
    if Aggressive(v.action) && p.street + v.amount > r.highest then Some(p.street + v.amount) else None
  }

  function NewMinRaise(r: RoundState, p: PlayerState, v: ValidatedAction): Option<int>
  {
    if NewHighest(r, p, v).Some? && p.street + v.amount - r.highest > r.minRaise
    then Some(p.street + v.amount - r.highest) else None
  }

  function OrElse<T>(o: Option<T>, otherwise: T): T { if o.Some? then o.value else otherwise }

  /** The plan for an accepted action of player `p`. */
  function Plan(h: Hand, p: PlayerState, v: ValidatedAction): HandTransition
  {
    var m := PlayerChange(p.id, v);
    var aggressor := if Aggressive(v.action) then Some(p.seat) else None;
    var highest := NewHighest(h.round, p, v);
    var next := NextToAct(SeatsAfter(h.players, m), p.seat,
                          if aggressor.Some? then aggressor else h.round.aggressor,
                          OrElse(highest, h.round.highest));
    HandTransition(v.action, v.amount, m,
      RoundMutation(v.amount, highest, NewMinRaise(h.round, p, v),
                    if next.Next? then Some(next.id) else None, aggressor, next.Closed?))
  }

  function TransitionHandState(h: Hand, id: PlayerId, action: Action, amount: int)
    : Result<HandTransition, BetError>
  {
    match ValidateBet(h, id, action, amount)
    case Err(e) => Err(e)
    case Ok(v) => Ok(Plan(h, h.players[IndexOf(h.players, id)], v))
  }

  function MutatePlayer(p: PlayerState, m: PlayerMutation): PlayerState
  {
    p.(stack := p.stack + m.stackDelta, street := p.street + m.streetDelta, hand := p.hand + m.handDelta,
       folded := p.folded || m.fold, active := p.active && !m.fold, allIn := p.allIn || m.allIn)
  }

  function MutateRound(r: RoundState, m: RoundMutation): RoundState
  {
    r.(pot := r.pot + m.potDelta,
       highest := OrElse(m.newHighest, r.highest),
       minRaise := OrElse(m.newMinRaise, r.minRaise),
       aggressor := if m.newAggressor.Some? then m.newAggressor else r.aggressor,
       actor := if m.closed then None else m.newActor,
       closed := m.closed,
       version := r.version + 1)
  }

  function ApplyTransition(h: Hand, t: HandTransition): Hand
  {
    var i := IndexOf(h.players, t.player.id);
    Hand(MutateRound(h.round, t.round),
         if i < |h.players| then h.players[i := MutatePlayer(h.players[i], t.player)] else h.players)
  }

  datatype Applied = Applied(hand: Hand, action: Action, amount: int)

  /** `apply_action` on values: the new hand with the effective action, or the refusal. */
  function ApplyAction(h: Hand, id: PlayerId, action: Action, amount: int, expected: Option<int>)
    : Result<Applied, BetError>
  {
    if expected.Some? && expected.value != h.round.version then Err(StaleState)
    else match TransitionHandState(h, id, action, amount)
      case Err(e) => Err(e)
      case Ok(t) => Ok(Applied(ApplyTransition(h, t), t.action, t.amount))
  }

  // --------------------------------------------------- the imperative pipeline

  /** The list-building loop of `transition_hand_state`, and the turn engine's loops. */
  method RunTransition(h: Hand, id: PlayerId, action: Action, amount: int)
    returns (r: Result<HandTransition, BetError>)
    ensures r == TransitionHandState(h, id, action, amount)
  {
    var checked := ValidateBet(h, id, action, amount);
    if checked.Err? {
      return Err(checked.error);
    }
    var v := checked.value;
    var p := h.players[IndexOf(h.players, id)];
    var m := PlayerChange(id, v);
    var seats: seq<ActionSeat> := [];
    for k := 0 to |h.players|
      invariant seats == SeatsAfter(h.players, m)[..k]
    {
      seats := seats + [SeatAfter(h.players[k], m)];
    }
    assert seats == SeatsAfter(h.players, m);
    var aggressor := if Aggressive(v.action) then Some(p.seat) else None;
    var highest := NewHighest(h.round, p, v);
    var next := RunNextToAct(seats, p.seat, if aggressor.Some? then aggressor else h.round.aggressor,
                             OrElse(highest, h.round.highest));
    return Ok(HandTransition(v.action, v.amount, m,
      RoundMutation(v.amount, highest, NewMinRaise(h.round, p, v),
                    if next.Next? then Some(next.id) else None, aggressor, next.Closed?)));
  }

  /** `_apply_transition`: assign the fields of the first matching row, then of the round. */
  method WriteTransition(round: Round, rows: seq<RoundPlayer>, t: HandTransition)
    requires RowsDistinct(rows)
    modifies round, rows
    ensures ViewHand(round, rows) == ApplyTransition(old(ViewHand(round, rows)), t)
    ensures round.completedAt == old(round.completedAt)
  {
    WritePlayer(rows, t.player);
    WriteRound(round, t.round);
  }

  method MutateRow(rp: RoundPlayer, m: PlayerMutation)
    modifies rp
    ensures rp.View() == MutatePlayer(old(rp.View()), m)
  {
    rp.stack := rp.stack + m.stackDelta;
    rp.street := rp.street + m.streetDelta;
    rp.hand := rp.hand + m.handDelta;
    if m.fold {
      rp.folded := true;
      rp.active := false;
    }
    if m.allIn {
      rp.allIn := true;
    }
  }

  method WritePlayer(rows: seq<RoundPlayer>, m: PlayerMutation)
    requires RowsDistinct(rows)
    modifies rows
    ensures var was := old(ViewAll(rows)); var i := IndexOf(was, m.id);
            ViewAll(rows) == if i < |was| then was[i := MutatePlayer(was[i], m)] else was
  {
    ghost var was := ViewAll(rows);
    var i := 0;
    while i < |rows| && rows[i].id != m.id
      invariant 0 <= i <= |rows|
      invariant forall j :: 0 <= j < i ==> was[j].id != m.id
    {
      i := i + 1;
    }
    assert i == IndexOf(was, m.id);
    if i < |rows| {
      MutateRow(rows[i], m);
      assert ViewAll(rows) == was[i := MutatePlayer(was[i], m)];
    }
  }

  method WriteRound(round: Round, m: RoundMutation)
    modifies round
    ensures round.View() == MutateRound(old(round.View()), m) && round.completedAt == old(round.completedAt)
  {
    round.pot := round.pot + m.potDelta;
    if m.newHighest.Some? { round.highest := m.newHighest.value; }
    if m.newMinRaise.Some? { round.minRaise := m.newMinRaise.value; }
    if m.newAggressor.Some? { round.aggressor := m.newAggressor; }
    if m.closed {
      round.actor := None;
      round.closed := true;
    } else {
      round.actor := m.newActor;
      round.closed := false;
    }
    round.version := round.version + 1;
  }

  /** `apply_action` in place: a refusal leaves every row as it was. */
  method RunApplyAction(round: Round, rows: seq<RoundPlayer>, id: PlayerId, action: Action,
                        amount: int, expected: Option<int>)
    returns (r: Result<ValidatedAction, BetError>)
    requires RowsDistinct(rows)
    modifies round, rows
    ensures match ApplyAction(old(ViewHand(round, rows)), id, action, amount, expected)
            case Ok(a) => r == Ok(ValidatedAction(a.action, a.amount)) && ViewHand(round, rows) == a.hand
            case Err(e) => r == Err(e) && ViewHand(round, rows) == old(ViewHand(round, rows))
    ensures round.completedAt == old(round.completedAt)
  {
    if expected.Some? && expected.value != round.version {
      return Err(StaleState);
    }
    var t := RunTransition(ViewHand(round, rows), id, action, amount);
    if t.Err? {
      return Err(t.error);
    }
    WriteTransition(round, rows, t.value);
    return Ok(ValidatedAction(t.value.action, t.value.amount));
  }
}
