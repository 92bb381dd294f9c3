/** Exactly which settlements are accepted, why the others are refused, and what an accepted
    one changes. */
module SettlementVerdicts {
  import opened Basics
  import opened HandTypes
  import opened SidePots
  import opened Settlement
  import opened SidePotTheorems
  import opened SettlementTheorems

  /** The payout names a pot of the hand, draws no more than it holds, and pays only players
      eligible for it. */
  ghost predicate Payable(pots: seq<Pot>, p: PotPayout)
  {
    && p.index < |pots|
    && PaidBy(p) <= pots[p.index].amount
    && forall w :: w in p.winners ==> w.id in pots[p.index].eligible
  }

  /** The amount stated for each pot is what its winners receive. */
  ghost predicate AmountsAdd(payouts: seq<PotPayout>)
  {
    forall k :: 0 <= k < |payouts| ==> SumBy(payouts[k].winners, ShareAmount) == payouts[k].amount
  }

  /** Why a payout that is not payable is refused. */
  ghost predicate PayoutError(pots: seq<Pot>, p: PotPayout, e: SettleError)
  {
    if p.index < |pots| && PaidBy(p) > pots[p.index].amount then e == PayoutExceedsPot else e == PayoutMismatch
  }

  lemma {:induction false} CheckedInOrder(pots: seq<Pot>, payouts: seq<PotPayout>)
    ensures CheckPayouts(pots, payouts).None? <==> forall k :: 0 <= k < |payouts| ==> Payable(pots, payouts[k])
    ensures CheckPayouts(pots, payouts).Some? ==>
      exists k :: 0 <= k < |payouts| && !Payable(pots, payouts[k])
        && PayoutError(pots, payouts[k], CheckPayouts(pots, payouts).value)
        && forall j :: 0 <= j < k ==> Payable(pots, payouts[j])
  {
    if payouts != [] && CheckPayout(pots, payouts[0]).None? {
      var rest := payouts[1..];
      CheckedInOrder(pots, rest);
      assert forall k :: 0 <= k < |rest| ==> rest[k] == payouts[k + 1];
      if CheckPayouts(pots, rest).Some? {
        var k :| 0 <= k < |rest| && !Payable(pots, rest[k])
          && PayoutError(pots, rest[k], CheckPayouts(pots, rest).value)
          && forall j :: 0 <= j < k ==> Payable(pots, rest[j]);
        forall j | 0 <= j < k + 1 ensures Payable(pots, payouts[j]) {
          assert j > 0 ==> payouts[j] == rest[j - 1];
        }
        assert !Payable(pots, payouts[k + 1]);
      } else {
        forall k | 0 <= k < |payouts| ensures Payable(pots, payouts[k]) {
          assert k > 0 ==> payouts[k] == rest[k - 1];
        }
      }
    } else if payouts != [] {
      assert !Payable(pots, payouts[0]) && PayoutError(pots, payouts[0], CheckPayout(pots, payouts[0]).value);
    }
  }

  lemma AmountsAddMeans(payouts: seq<PotPayout>)
    ensures AmountsAdd(payouts) <==> forall p :: p in payouts ==> PaidBy(p) == p.amount
  {
    if AmountsAdd(payouts) {
      forall p | p in payouts ensures PaidBy(p) == p.amount {
        var k :| 0 <= k < |payouts| && payouts[k] == p;
      }
    } else {
      var k :| 0 <= k < |payouts| && SumBy(payouts[k].winners, ShareAmount) != payouts[k].amount;
      assert payouts[k] in payouts && PaidBy(payouts[k]) != payouts[k].amount;
    }
  }

  lemma SomethingIsPaid(payouts: seq<PotPayout>)
    requires WellFormed(payouts)
    ensures TotalPaid(payouts) > 0
  {
    forall p | p in payouts ensures PaidBy(p) >= 1 {
      SumByNonNegative(p.winners, ShareAmount);
      assert p.winners[0] in p.winners;
    }
    SumByNonNegative(payouts, PaidBy);
    assert payouts[0] in payouts;
  }

  lemma AcceptedWhenChecked(h: Hand, payouts: seq<PotPayout>)
    ensures ResolveHand(h, payouts).Ok? <==>
              && h.round.status == Active && payouts != [] && SumBy(payouts, PaidBy) <= h.round.pot
              && AmountsAdd(payouts) && (PotsOf(h) == [] || CheckPayouts(PotsOf(h), payouts).None?)
  {
    AmountsAddMeans(payouts);
  }

  /** A settlement is accepted exactly when the round is active, the winners take no more than
      the pot in all, each payout's amount is what its winners receive, and each names an
      existing pot, draws no more than that pot holds and pays only players eligible for it. */
  lemma SettlementAcceptedIff(h: Hand, payouts: seq<PotPayout>)
    requires Balanced(h) && WellFormed(payouts)
    ensures ResolveHand(h, payouts).Ok? <==>
              && h.round.status == Active
              && SumBy(payouts, PaidBy) <= h.round.pot
              && AmountsAdd(payouts)
              && forall k :: 0 <= k < |payouts| ==> Payable(PotsOf(h), payouts[k])
  {
    AcceptedWhenChecked(h, payouts);
    CheckedInOrder(PotsOf(h), payouts);
    if h.round.status == Active && TotalPaid(payouts) <= h.round.pot {
      SomethingIsPaid(payouts);
      BalancedPots(h);
    }
  }

  /** Which error a request gets, for every hand and every request: an inactive round first,
      then an empty request, then a total above the pot, then an amount its winners do not add
      up to, and then the first payout that cannot be paid. */
  lemma RefusalNamesTheFirstFailure(h: Hand, payouts: seq<PotPayout>)
    requires ResolveHand(h, payouts).Err?
    ensures var e, pots := ResolveHand(h, payouts).error, PotsOf(h);
            if h.round.status != Active then e == RoundNotActive
            else if payouts == [] then e == PayoutEmpty
            else if SumBy(payouts, PaidBy) > h.round.pot then e == PayoutExceedsPot
            else if !AmountsAdd(payouts) then e == PayoutMismatch
            else exists k :: 0 <= k < |payouts| && !Payable(pots, payouts[k]) && PayoutError(pots, payouts[k], e)
                               && forall j :: 0 <= j < k ==> Payable(pots, payouts[j])
  {
    AmountsAddMeans(payouts);
    CheckedInOrder(PotsOf(h), payouts);
  }

  // ------------------------------------------------------------------- what it does

  /** The round is completed, shown down and stamped, one version on, everything else kept; each
      stack is raised by the sum of the shares that name its player. */
  ghost predicate SettledAs(h: Hand, payouts: seq<PotPayout>, n: Hand)
  {
    && n.round == h.round.(status := Completed, street := Showdown, actor := None, closed := true, stamped := true,
                           version := h.round.version + 1)
    && |n.players| == |h.players|
    && forall i :: 0 <= i < |h.players| ==>
         n.players[i] == h.players[i].(stack := h.players[i].stack + WonBy(payouts, h.players[i].id))
  }

  lemma SettlementOutcome(h: Hand, payouts: seq<PotPayout>)
    requires IdsDistinct(h.players) && ResolveHand(h, payouts).Ok?
    ensures SettledAs(h, payouts, ResolveHand(h, payouts).value)
  {
    PayoutsRaise(h.players, payouts);
  }

  lemma WholePotWon(h: Hand, winner: PlayerId, id: PlayerId)
    ensures WonBy(WholePot(h, winner), id) == if id == winner then h.round.pot else 0
  {
    var req := WholePot(h, winner);
    SumOfOne(req, WonFrom(id));
    SumOfOne(req[0].winners, ShareTo(id));
  }

  /** Declaring a winner pays that player the whole pot and nobody else anything; with no chips
      in the pot the request is malformed. */
  lemma DeclareWinnerOutcome(h: Hand, winner: PlayerId)
    requires IdsDistinct(h.players)
    ensures DeclareWinner(h, winner) == Err(MalformedRequest) <==> h.round.pot < 1
    ensures DeclareWinner(h, winner).Ok? ==>
      var n := DeclareWinner(h, winner).value;
      && n.round.status == Completed && n.round.pot == h.round.pot && |n.players| == |h.players|
      && forall i :: 0 <= i < |h.players| ==>
           n.players[i] == h.players[i].(stack := h.players[i].stack
             + if h.players[i].id == winner then h.round.pot else 0)
  {
    var req := WholePot(h, winner);
    if h.round.pot >= 1 && ResolveHand(h, req).Ok? {
      SettlementOutcome(h, req);
      forall id ensures WonBy(req, id) == if id == winner then h.round.pot else 0 {
        WholePotWon(h, winner, id);
      }
    }
    RefusalsAreNotMalformed(h, req);
  }

  lemma RefusalsAreNotMalformed(h: Hand, payouts: seq<PotPayout>)
    ensures ResolveHand(h, payouts) != Err(MalformedRequest)
  {
    if ResolveHand(h, payouts).Err? {
      RefusalNamesTheFirstFailure(h, payouts);
    }
  }
}
