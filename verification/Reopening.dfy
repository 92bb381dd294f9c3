/** Reopening a settled hand takes no payout back: what could settle it before settles it
    again, and every settlement pays on top. */
module Reopening {
  import opened Basics
  import opened HandTypes
  import opened BlindPosting
  import opened Settlement
  import opened SettlementTheorems
  import opened Book
  import opened EventSourcing
  import opened LedgerTheorems
  import opened ReversalTheorems

  /** Both hands are open with the same pot, and the same players committed the same; only
      stacks may differ. */
  ghost predicate SameStakes(h: Hand, n: Hand)
  {
    && h.round.status == Active && n.round.status == Active && n.round.pot == h.round.pot
    && |n.players| == |h.players|
    && forall i :: 0 <= i < |h.players| ==> n.players[i] == h.players[i].(stack := n.players[i].stack)
  }

  /** Whether a settlement is refused does not depend on the stacks. */
  lemma SameStakesSameAnswer(h: Hand, n: Hand, payouts: seq<PotPayout>)
    requires SameStakes(h, n)
    ensures Refusal(n, payouts) == Refusal(h, payouts)
  {
    assert Contributions(n.players) == Contributions(h.players);
  }

  /** A settlement that passes the checks only raises stacks, so it is never rolled back. */
  lemma AcceptedSettlementCommits(d: Deal, b: Book, payouts: seq<PotPayout>)
    requires NamedDeal(d) && Sound(d, b) && WellFormed(payouts)
    ensures Commits(b, Settle(payouts)) <==> Refusal(b.hand, payouts).None?
  {
    BookNames(d, b);
    PayoutsRaise(b.hand.players, payouts);
    forall i | 0 <= i < |b.hand.players| ensures 0 <= WonBy(payouts, b.hand.players[i].id) {
      forall p | p in payouts ensures 0 <= WonFrom(b.hand.players[i].id)(p) {
        PaidIsNonNegative(p, b.hand.players[i].id);
      }
      SumByNonNegative(payouts, WonFrom(b.hand.players[i].id));
    }
  }

  lemma SettledStacksGrow(d: Deal, b: Book, payouts: seq<PotPayout>)
    requires NamedDeal(d) && Sound(d, b) && Commits(b, Settle(payouts)) && WellFormed(payouts)
    ensures var m := Do(b, Settle(payouts));
            && SumBy(m.hand.players, StackOf) == SumBy(b.hand.players, StackOf) + TotalPaid(payouts)
            && m.hand.round.pot == b.hand.round.pot && m.hand.round.status == Completed
            && m.hand.players == PayAll(b.hand.players, payouts)
            && Sound(d, m)
  {
    SoundIsBalanced(d, b);
    SettlementAddsItsPayment(b.hand, payouts);
    SettleKeepsSound(d, b, payouts);
  }

  /** A settled hand can always be reopened, with every stack and the pot as they are. */
  lemma SettledReopens(d: Deal, m: Book)
    requires NamedDeal(d) && Sound(d, m) && m.hand.round.status == Completed
    ensures var r := Do(m, Reopen);
            && Commits(m, Reopen) && Sound(d, r)
            && r.hand.players == m.hand.players && r.hand.round.pot == m.hand.round.pot && r.hand.round.status == Active
  {
    ReopenKeepsSound(d, m);
  }

  /** Settle and reopen: the stakes are as before, the payment stays on the stacks. */
  lemma ReopenedKeepsPayment(d: Deal, b: Book, payouts: seq<PotPayout>)
    requires NamedDeal(d) && Sound(d, b) && Commits(b, Settle(payouts)) && WellFormed(payouts)
    ensures var r := Do(Do(b, Settle(payouts)), Reopen);
            && Commits(Do(b, Settle(payouts)), Reopen) && Sound(d, r) && SameStakes(b.hand, r.hand)
            && SumBy(r.hand.players, StackOf) == SumBy(b.hand.players, StackOf) + TotalPaid(payouts)
  {
    SettledStacksGrow(d, b, payouts);
    SettledReopens(d, Do(b, Settle(payouts)));
    BookNames(d, b);
    PayoutsRaise(b.hand.players, payouts);
  }

  /** After settling and reopening, a request is accepted exactly when it was accepted before,
      so in particular the request that has just been paid. */
  lemma ReopenedAcceptsTheSame(d: Deal, b: Book, first: seq<PotPayout>, second: seq<PotPayout>)
    requires NamedDeal(d) && Sound(d, b) && WellFormed(first) && WellFormed(second) && Commits(b, Settle(first))
    ensures Commits(Do(Do(b, Settle(first)), Reopen), Settle(second)) <==> Commits(b, Settle(second))
  {
    var r := Do(Do(b, Settle(first)), Reopen);
    ReopenedKeepsPayment(d, b, first);
    SameStakesSameAnswer(b.hand, r.hand, second);
    AcceptedSettlementCommits(d, b, second);
    AcceptedSettlementCommits(d, r, second);
  }

  /** Settle, reopen, settle again with any request the hand accepted before: it is accepted,
      and both payments stay on the stacks, so stacks come to what stacks and pot held before
      exactly when the two settlements together pay one pot. */
  lemma ReopenedHandPaysTwice(d: Deal, b: Book, first: seq<PotPayout>, second: seq<PotPayout>)
    requires NamedDeal(d) && Sound(d, b) && WellFormed(first) && WellFormed(second)
    requires Commits(b, Settle(first)) && Commits(b, Settle(second))
    ensures var r := Do(Do(b, Settle(first)), Reopen);
            var stacks := SumBy(Do(r, Settle(second)).hand.players, StackOf);
            && Commits(r, Settle(second))
            && stacks == SumBy(b.hand.players, StackOf) + TotalPaid(first) + TotalPaid(second)
            && (stacks == SumBy(b.hand.players, StackOf) + b.hand.round.pot
                <==> TotalPaid(first) + TotalPaid(second) == b.hand.round.pot)
  {
    ReopenedAcceptsTheSame(d, b, first, second);
    ReopenedKeepsPayment(d, b, first);
    SettledStacksGrow(d, Do(Do(b, Settle(first)), Reopen), second);
  }

  // ------------------------------------------------------------ any number of times

  /** Settle with each request in turn, reopening after each. */
  function Reopenings(requests: seq<seq<PotPayout>>): seq<Op>
  {
    if requests == [] then []
    else Reopenings(requests[..|requests| - 1]) + [Settle(requests[|requests| - 1]), Reopen]
  }

  lemma {:induction false} DoTwoMore(b: Book, ops: seq<Op>, x: Op, y: Op)
    ensures DoAll(b, ops + [x, y]) == Do(Do(DoAll(b, ops), x), y)
  {
    assert (ops + [x, y])[..|ops| + 1] == ops + [x] && (ops + [x])[..|ops|] == ops;
  }

  /** Book `m` has the stakes of `h` and `extra` more chips on its stacks. */
  ghost predicate OpenWith(d: Deal, h: Hand, m: Book, extra: int)
  {
    && Sound(d, m) && SameStakes(h, m.hand)
    && SumBy(m.hand.players, StackOf) == SumBy(h.players, StackOf) + extra
  }

  /** One more settlement, on a hand that others have settled and reopened before. */
  lemma OneMoreReopening(d: Deal, h: Hand, m: Book, extra: int, request: seq<PotPayout>)
    requires NamedDeal(d) && OpenWith(d, h, m, extra)
    requires WellFormed(request) && Refusal(h, request).None?
    ensures OpenWith(d, h, Do(Do(m, Settle(request)), Reopen), extra + TotalPaid(request))
  {
    SameStakesSameAnswer(h, m.hand, request);
    AcceptedSettlementCommits(d, m, request);
    ReopenedKeepsPayment(d, m, request);
  }

  /** Settled and reopened any number of times, each time with a request that the hand accepts,
      a hand pays all of them. */
  lemma {:induction false} EveryReopeningPays(d: Deal, b: Book, requests: seq<seq<PotPayout>>)
    requires NamedDeal(d) && Sound(d, b) && b.hand.round.status == Active
    requires forall i :: 0 <= i < |requests| ==> WellFormed(requests[i]) && Refusal(b.hand, requests[i]).None?
    ensures OpenWith(d, b.hand, DoAll(b, Reopenings(requests)), SumBy(requests, TotalPaid))
  {
    if requests != [] {
      var front, last := requests[..|requests| - 1], requests[|requests| - 1];
      EveryReopeningPays(d, b, front);
      OneMoreReopening(d, b.hand, DoAll(b, Reopenings(front)), SumBy(front, TotalPaid), last);
      DoTwoMore(b, Reopenings(front), Settle(last), Reopen);
      LastRequest(requests);
    }
  }

  lemma LastRequest(requests: seq<seq<PotPayout>>)
    requires requests != []
    ensures SumBy(requests, TotalPaid)
            == SumBy(requests[..|requests| - 1], TotalPaid) + TotalPaid(requests[|requests| - 1])
  {
    assert requests == requests[..|requests| - 1] + [requests[|requests| - 1]];
    SumByAppend(requests[..|requests| - 1], requests[|requests| - 1], TotalPaid);
  }
}
