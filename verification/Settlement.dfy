/** `validate_payouts_against_side_pots`, `resolve_hand` and `declare_winner`. */
module Settlement {
  import opened Basics
  import opened HandTypes
  import opened SidePots
  import opened Rows

  datatype Share = Share(id: PlayerId, amount: int)

  datatype PotPayout = PotPayout(index: nat, amount: int, winners: seq<Share>)

  datatype SettleError = RoundNotActive | PayoutEmpty | PayoutExceedsPot | PayoutMismatch | MalformedRequest

  /** What the request schema admits: at least one payout, each with a winner, every amount
      at least one chip. */
  ghost predicate WellFormed(payouts: seq<PotPayout>)
  {
    && payouts != []
    && forall p :: p in payouts ==>
         p.amount >= 1 && p.winners != [] && forall w :: w in p.winners ==> w.amount >= 1
  }

  function ContributionOf(p: PlayerState): Contribution
  {
    Contribution(p.id, p.hand, p.folded, !p.folded && p.active)
  }

  function Contributions(ps: seq<PlayerState>): (cs: seq<Contribution>)
    ensures |cs| == |ps|
    ensures forall i :: 0 <= i < |ps| ==> cs[i] == ContributionOf(ps[i])
  {
    seq(|ps|, i requires 0 <= i < |ps| => ContributionOf(ps[i]))
  }

  function PotsOf(h: Hand): seq<Pot> { CalculateSidePots(Contributions(h.players)) }

  function ShareAmount(w: Share): int { w.amount }

  function PaidBy(p: PotPayout): int { SumBy(p.winners, ShareAmount) }

  function TotalPaid(payouts: seq<PotPayout>): int { SumBy(payouts, PaidBy) }

  /** The checks on one submitted pot, in the source's order. */
  function CheckPayout(pots: seq<Pot>, p: PotPayout): Option<SettleError>
  {
    if p.index >= |pots| then Some(PayoutMismatch)
    else if PaidBy(p) > pots[p.index].amount then Some(PayoutExceedsPot)
    else if exists w :: w in p.winners && w.id !in pots[p.index].eligible then Some(PayoutMismatch)
    else None
  }

  /** The first failing check over all submitted pots. */
  function CheckPayouts(pots: seq<Pot>, payouts: seq<PotPayout>): Option<SettleError>
  {
    if payouts == [] then None
    else if CheckPayout(pots, payouts[0]).Some? then CheckPayout(pots, payouts[0])
    else CheckPayouts(pots, payouts[1..])
  }

  /** With no pots at all the source returns before checking anything. */
  function ValidatePayouts(pots: seq<Pot>, payouts: seq<PotPayout>): Option<SettleError>
  {
    if pots == [] then None else CheckPayouts(pots, payouts)
  }

  /** Add to one player's stack; a player who is not in the hand gets nothing. */
  function AddStack(ps: seq<PlayerState>, id: PlayerId, amount: int): (r: seq<PlayerState>)
    ensures |r| == |ps|
  {
    var i := IndexOf(ps, id);
    if i < |ps| then ps[i := ps[i].(stack := ps[i].stack + amount)] else ps
  }

  function PayShares(ps: seq<PlayerState>, shares: seq<Share>): (r: seq<PlayerState>)
    ensures |r| == |ps|
  {
    if shares == [] then ps
    else
      var w := shares[|shares| - 1];
      AddStack(PayShares(ps, shares[..|shares| - 1]), w.id, w.amount)
  }

  function PayAll(ps: seq<PlayerState>, payouts: seq<PotPayout>): (r: seq<PlayerState>)
    ensures |r| == |ps|
  {
    if payouts == [] then ps
    else PayShares(PayAll(ps, payouts[..|payouts| - 1]), payouts[|payouts| - 1].winners)
  }

  function Completion(r: RoundState): RoundState
  {
    r.(status := Completed, street := Showdown, actor := None, closed := true, stamped := true,
       version := r.version + 1)
  }

  /** Why a settlement is refused, if it is. */
  function Refusal(h: Hand, payouts: seq<PotPayout>): Option<SettleError>
  {
    if h.round.status != Active then Some(RoundNotActive)
    else if payouts == [] then Some(PayoutEmpty)
    else if TotalPaid(payouts) > h.round.pot then Some(PayoutExceedsPot)
    else if exists p :: p in payouts && PaidBy(p) != p.amount then Some(PayoutMismatch)
    else ValidatePayouts(PotsOf(h), payouts)
  }

  function ResolveHand(h: Hand, payouts: seq<PotPayout>): Result<Hand, SettleError>
  {
    match Refusal(h, payouts)
    case Some(e) => Err(e)
    case None => Ok(Hand(Completion(h.round), PayAll(h.players, payouts)))
  }

  /** The single-winner shortcut: pay the stored pot amount as pot 0. */
  function WholePot(h: Hand, winner: PlayerId): seq<PotPayout>
  {
    [PotPayout(0, h.round.pot, [Share(winner, h.round.pot)])]
  }

  function DeclareWinner(h: Hand, winner: PlayerId): Result<Hand, SettleError>
  {
    if h.round.pot < 1 then Err(MalformedRequest) else ResolveHand(h, WholePot(h, winner))
  }

  // ---------------------------------------------------------- the source's loops

  /** Every submitted amount is what its winners receive. */
  method AmountsMatch(payouts: seq<PotPayout>) returns (ok: bool)
    ensures ok <==> forall p :: p in payouts ==> PaidBy(p) == p.amount
  {
    for i := 0 to |payouts|
      invariant forall p :: p in payouts[..i] ==> PaidBy(p) == p.amount
    {
      if PaidBy(payouts[i]) != payouts[i].amount {
        assert payouts[i] in payouts;
        return false;
      }
      assert payouts[..i + 1] == payouts[..i] + [payouts[i]];
    }
    assert payouts[..|payouts|] == payouts;
    return true;
  }

  method WinnersEligible(winners: seq<Share>, eligible: seq<PlayerId>) returns (ok: bool)
    ensures ok <==> forall w :: w in winners ==> w.id in eligible
  {
    for j := 0 to |winners|
      invariant forall w :: w in winners[..j] ==> w.id in eligible
    {
      if winners[j].id !in eligible {
        assert winners[j] in winners;
        return false;
      }
      assert winners[..j + 1] == winners[..j] + [winners[j]];
    }
    assert winners[..|winners|] == winners;
    return true;
  }

  method RunCheckPayout(pots: seq<Pot>, p: PotPayout) returns (e: Option<SettleError>)
    ensures e == CheckPayout(pots, p)
  {
    if p.index >= |pots| {
      return Some(PayoutMismatch);
    }
    if PaidBy(p) > pots[p.index].amount {
      return Some(PayoutExceedsPot);
    }
    var ok := WinnersEligible(p.winners, pots[p.index].eligible);
    return if ok then None else Some(PayoutMismatch);
  }

  /** `validate_payouts_against_side_pots`: compute the pots, then check each payout in turn. */
  method RunValidatePayouts(ps: seq<PlayerState>, payouts: seq<PotPayout>) returns (e: Option<SettleError>)
    ensures e == ValidatePayouts(CalculateSidePots(Contributions(ps)), payouts)
  {
    var pots := RunCalculateSidePots(Contributions(ps));
    if pots == [] {
      return None;
    }
    for i := 0 to |payouts|
      invariant CheckPayouts(pots, payouts) == CheckPayouts(pots, payouts[i..])
    {
      assert payouts[i..][0] == payouts[i] && payouts[i..][1..] == payouts[i + 1..];
      e := RunCheckPayout(pots, payouts[i]);
      if e.Some? {
        return;
      }
    }
    return None;
  }

  /** The checks of `resolve_hand`, in its order. */
  method RunRefusal(h: Hand, payouts: seq<PotPayout>) returns (e: Option<SettleError>)
    ensures e == Refusal(h, payouts)
  {
    if h.round.status != Active {
      return Some(RoundNotActive);
    }
    if payouts == [] {
      return Some(PayoutEmpty);
    }
    if TotalPaid(payouts) > h.round.pot {
      return Some(PayoutExceedsPot);
    }
    var ok := AmountsMatch(payouts);
    if !ok {
      return Some(PayoutMismatch);
    }
    e := RunValidatePayouts(h.players, payouts);
  }

  method CreditRow(rows: seq<RoundPlayer>, id: PlayerId, amount: int)
    requires RowsDistinct(rows)
    modifies rows
    ensures ViewAll(rows) == AddStack(old(ViewAll(rows)), id, amount)
  {
    var i := IndexOf(ViewAll(rows), id);
    if i < |rows| {
      rows[i].stack := rows[i].stack + amount;
    }
    assert ViewAll(rows) == AddStack(old(ViewAll(rows)), id, amount);
  }

  method CompleteRound(round: Round, now: int)
    modifies round
    ensures round.View() == Completion(old(round.View())) && round.completedAt == Some(now)
  {
    round.status := Completed;
    round.street := Showdown;
    round.actor := None;
    round.closed := true;
    round.completedAt := Some(now);
    round.version := round.version + 1;
  }

  // ------------------------------------------------------- what payment changes

  /** Chips a request awards to one player. */
  function ShareTo(id: PlayerId): Share -> int { (w: Share) => if w.id == id then w.amount else 0 }

  function WonFrom(id: PlayerId): PotPayout -> int { (p: PotPayout) => SumBy(p.winners, ShareTo(id)) }

  function WonBy(payouts: seq<PotPayout>, id: PlayerId): int { SumBy(payouts, WonFrom(id)) }

  /** `b` is `a` with each stack raised by what `gain` says, everything else equal. */
  ghost predicate Raised(a: seq<PlayerState>, b: seq<PlayerState>, gain: PlayerId -> int)
  {
    && |a| == |b|
    && forall i :: 0 <= i < |a| ==> b[i] == a[i].(stack := a[i].stack + gain(a[i].id))
  }

  function GainOfShares(shares: seq<Share>): PlayerId -> int { id => SumBy(shares, ShareTo(id)) }

  function GainOfPayouts(payouts: seq<PotPayout>): PlayerId -> int { id => WonBy(payouts, id) }

  lemma {:induction false} SharesRaise(ps: seq<PlayerState>, shares: seq<Share>)
    requires IdsDistinct(ps)
    ensures Raised(ps, PayShares(ps, shares), GainOfShares(shares))
  {
    if shares != [] {
      var front, w := shares[..|shares| - 1], shares[|shares| - 1];
      SharesRaise(ps, front);
      assert shares == front + [w];
      forall i | 0 <= i < |ps|
        ensures PayShares(ps, shares)[i] == ps[i].(stack := ps[i].stack + GainOfShares(shares)(ps[i].id))
      {
        SumByAppend(front, w, ShareTo(ps[i].id));
      }
    }
  }

  /** Settlement raises each stack by exactly what the request awards to that player and
      changes nothing else about the players. */
  lemma {:induction false} PayoutsRaise(ps: seq<PlayerState>, payouts: seq<PotPayout>)
    requires IdsDistinct(ps)
    ensures Raised(ps, PayAll(ps, payouts), GainOfPayouts(payouts))
  {
    if payouts != [] {
      var front, p := payouts[..|payouts| - 1], payouts[|payouts| - 1];
      PayoutsRaise(ps, front);
      assert payouts == front + [p];
      var mid := PayAll(ps, front);
      assert IdsDistinct(mid);
      SharesRaise(mid, p.winners);
      forall i | 0 <= i < |ps|
        ensures PayAll(ps, payouts)[i] == ps[i].(stack := ps[i].stack + GainOfPayouts(payouts)(ps[i].id))
      {
        SumByAppend(front, p, WonFrom(ps[i].id));
      }
    }
  }
}
