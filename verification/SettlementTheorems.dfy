/** What an accepted settlement guarantees, and exactly when the shortcut is accepted. */
module SettlementTheorems {
  import opened Basics
  import opened HandTypes
  import opened SidePots
  import opened SidePotTheory
  import opened SidePotTheorems
  import opened Settlement

  /** Distinct players, no negative commitment, and the pot is the sum of commitments: what
      every correction-free hand keeps. */
  ghost predicate Balanced(h: Hand)
  {
    && IdsDistinct(h.players)
    && (forall i :: 0 <= i < |h.players| ==> h.players[i].hand >= 0)
    && h.round.pot == SumBy(h.players, CommitOf)
  }

  lemma BalancedPots(h: Hand)
    requires Balanced(h)
    ensures DistinctBy(Contributions(h.players), IdOf) && NonNegative(Contributions(h.players))
    ensures SumBy(PotsOf(h), PotAmount) == h.round.pot == SumBy(Contributions(h.players), Committed)
    ensures forall k :: 0 <= k < |PotsOf(h)| ==> PotsOf(h)[k].amount > 0
  {
    var cs := Contributions(h.players);
    assert forall i :: 0 <= i < |cs| ==> IdOf(cs[i]) == h.players[i].id;
    SumByPointwise(cs, Committed, h.players, CommitOf);
    PotsHoldAllChips(cs);
  }

  // ----------------------------------------------------------- accepted settlements

  lemma {:induction false} CheckedPayout(pots: seq<Pot>, payouts: seq<PotPayout>, k: nat)
    requires CheckPayouts(pots, payouts).None? && k < |payouts|
    ensures CheckPayout(pots, payouts[k]).None?
  {
    if k > 0 {
      CheckedPayout(pots, payouts[1..], k - 1);
    }
  }

  lemma PaidIsNonNegative(p: PotPayout, id: PlayerId)
    requires forall w :: w in p.winners ==> w.amount >= 0
    ensures 0 <= WonFrom(id)(p) <= PaidBy(p)
  {
    SumByNonNegative(p.winners, ShareTo(id));
    SumByMonotone(p.winners, ShareTo(id), ShareAmount);
  }

  lemma {:induction false} NobodyElsesShare(ws: seq<Share>, id: PlayerId)
    requires forall w :: w in ws ==> w.id != id
    ensures SumBy(ws, ShareTo(id)) == 0
  {
    if ws != [] {
      assert ws[0] in ws;
      NobodyElsesShare(ws[1..], id);
    }
  }

  /** One accepted payout gives a player at most what that pot holds for them. */
  lemma PayoutIsCapped(pots: seq<Pot>, p: PotPayout, id: PlayerId)
    requires CheckPayout(pots, p).None? && forall w :: w in p.winners ==> w.amount >= 0
    ensures p.index < |pots| && PaidBy(p) <= pots[p.index].amount
    ensures 0 <= WonFrom(id)(p) <= EligibleShare(id)(pots[p.index])
  {
    PaidIsNonNegative(p, id);
    if id !in pots[p.index].eligible {
      NobodyElsesShare(p.winners, id);
    }
  }

  ghost predicate IndicesDistinct(payouts: seq<PotPayout>)
  {
    forall i, j :: 0 <= i < j < |payouts| ==> payouts[i].index != payouts[j].index
  }

  function Same(x: int): int { x }

  /** Payouts naming each pot at most once cannot draw more than the caps allow in all. */
  lemma {:induction false} DistinctDraws(payouts: seq<PotPayout>, f: PotPayout -> int, caps: seq<int>)
    requires IndicesDistinct(payouts)
    requires forall k :: 0 <= k < |payouts| ==> payouts[k].index < |caps| && f(payouts[k]) <= caps[payouts[k].index]
    requires forall i :: 0 <= i < |caps| ==> caps[i] >= 0
    ensures SumBy(payouts, f) <= SumBy(caps, Same)
  {
    if payouts == [] {
      SumByNonNegative(caps, Same);
    } else {
      var p := payouts[0];
      var left := caps[p.index := 0];
      forall k | 0 <= k < |payouts[1..]|
        ensures payouts[1..][k].index < |left| && f(payouts[1..][k]) <= left[payouts[1..][k].index]
      {
        assert payouts[1..][k] == payouts[k + 1];
      }
      DistinctDraws(payouts[1..], f, left);
      SumByUpdate(caps, p.index, 0, Same);
    }
  }

  /** An accepted settlement that names each pot at most once gives each player at most the
      chips in the pots they may win. */
  lemma WinningsAreCapped(h: Hand, payouts: seq<PotPayout>, id: PlayerId)
    requires Balanced(h) && ResolveHand(h, payouts).Ok?
    requires WellFormed(payouts) && IndicesDistinct(payouts)
    ensures WonBy(payouts, id) <= EligibleTotal(PotsOf(h), id)
  {
    var pots := PotsOf(h);
    BalancedPots(h);
    PotsExist(h, payouts);
    var caps := seq(|pots|, i requires 0 <= i < |pots| => EligibleShare(id)(pots[i]));
    forall k | 0 <= k < |payouts|
      ensures payouts[k].index < |caps| && WonFrom(id)(payouts[k]) <= caps[payouts[k].index]
    {
      CheckedPayout(pots, payouts, k);
      assert payouts[k] in payouts;
      PayoutIsCapped(pots, payouts[k], id);
    }
    forall i | 0 <= i < |caps| ensures caps[i] >= 0 {
      assert pots[i].amount > 0;
      assert caps[i] == EligibleShare(id)(pots[i]);
    }
    DistinctDraws(payouts, WonFrom(id), caps);
    SumByPointwise(caps, Same, pots, EligibleShare(id));
  }

  /** An accepted settlement pays something, so there is a pot to check it against. */
  lemma PotsExist(h: Hand, payouts: seq<PotPayout>)
    requires Balanced(h) && Refusal(h, payouts).None? && WellFormed(payouts)
    ensures PotsOf(h) != [] && CheckPayouts(PotsOf(h), payouts).None?
    ensures 0 < TotalPaid(payouts) <= h.round.pot
  {
    BalancedPots(h);
    forall p | p in payouts ensures PaidBy(p) >= 1 {
      assert PaidBy(p) == p.amount;
    }
    SumByNonNegative(payouts, PaidBy);
    assert payouts[0] in payouts;
  }

  /** The table-stakes rule: a winner who committed `c` takes at most `min(c, c_j)` from each
      player `j`, or the whole pot when nobody live committed more; a player who folded or
      put nothing in takes nothing. */
  lemma TableStakes(h: Hand, payouts: seq<PotPayout>, i: nat)
    requires Balanced(h) && ResolveHand(h, payouts).Ok?
    requires WellFormed(payouts) && IndicesDistinct(payouts) && i < |h.players|
    ensures var p := ContributionOf(h.players[i]);
            var cs := Contributions(h.players);
            WonBy(payouts, p.id) <=
              if !Live(p) || p.committed == 0 then 0
              else if LargestLive(cs, p.committed) then h.round.pot
              else SumBy(cs, CappedAt(p.committed))
  {
    WinningsAreCapped(h, payouts, h.players[i].id);
    BalancedPots(h);
    var cs := Contributions(h.players);
    assert cs[i] in cs;
    EligibleChips(cs, cs[i]);
  }

  /** Every player a settlement pays is in the hand and eligible for the pot that pays them. */
  lemma OnlyEligiblePlayersArePaid(h: Hand, payouts: seq<PotPayout>, k: nat, w: Share)
    requires Balanced(h) && ResolveHand(h, payouts).Ok? && WellFormed(payouts)
    requires k < |payouts| && w in payouts[k].winners
    ensures payouts[k].index < |PotsOf(h)| && w.id in PotsOf(h)[payouts[k].index].eligible
    ensures IndexOf(h.players, w.id) < |h.players|
  {
    PotsExist(h, payouts);
    CheckedPayout(PotsOf(h), payouts, k);
    var cs := Contributions(h.players);
    BalancedPots(h);
    EligibleArePlayers(cs, payouts[k].index, w.id);
    var p :| p in cs && p.id == w.id;
    var i :| 0 <= i < |cs| && cs[i] == p;
    assert h.players[i].id == w.id;
  }

  // ----------------------------------------------------------------- repeated pots

  function FromPot(i: nat): PotPayout -> int { (p: PotPayout) => if p.index == i then PaidBy(p) else 0 }

  /** The chips a request takes out of pot `i`. */
  function PaidFromPot(payouts: seq<PotPayout>, i: nat): int { SumBy(payouts, FromPot(i)) }

  /** Every accepted request keeps every pot within its amount. */
  ghost predicate PotsNeverOverdrawn(h: Hand)
  {
    forall payouts, i: nat :: WellFormed(payouts) && ResolveHand(h, payouts).Ok? && i < |PotsOf(h)| ==>
      PaidFromPot(payouts, i) <= PotsOf(h)[i].amount
  }

  /** Naming pot 0 twice: its whole amount, and one chip more. */
  function TwiceFromPotZero(amount: int, winner: PlayerId): seq<PotPayout>
  {
    [PotPayout(0, amount, [Share(winner, amount)]), PotPayout(0, 1, [Share(winner, 1)])]
  }

  lemma PairSum<T>(s: seq<T>, f: T -> int)
    requires |s| == 2
    ensures SumBy(s, f) == f(s[0]) + f(s[1])
  {
    assert s == [s[0]] + [s[1]];
    SumByConcat([s[0]], [s[1]], f);
    SumOfOne([s[0]], f);
    SumOfOne([s[1]], f);
  }

  lemma TwiceIsAccepted(h: Hand, amount: int, winner: PlayerId)
    requires h.round.status == Active && |PotsOf(h)| > 0
    requires PotsOf(h)[0].amount == amount >= 1 && winner in PotsOf(h)[0].eligible && h.round.pot > amount
    ensures var req := TwiceFromPotZero(amount, winner);
            WellFormed(req) && ResolveHand(h, req).Ok? && PaidFromPot(req, 0) == amount + 1
  {
    var req := TwiceFromPotZero(amount, winner);
    SumOfOne(req[0].winners, ShareAmount);
    SumOfOne(req[1].winners, ShareAmount);
    PairSum(req, PaidBy);
    PairSum(req, FromPot(0));
    assert forall p :: p in req ==> p == req[0] || p == req[1];
    assert CheckPayout(PotsOf(h), req[0]).None? && CheckPayout(PotsOf(h), req[1]).None?;
    CheckPair(PotsOf(h), req);
  }

  lemma CheckPair(pots: seq<Pot>, req: seq<PotPayout>)
    requires 1 <= |req| <= 2 && forall k :: 0 <= k < |req| ==> CheckPayout(pots, req[k]).None?
    ensures CheckPayouts(pots, req).None?
  {
    assert |req| == 1 ==> req[1..] == [];
    assert |req| == 2 ==> req[1..] == [req[1]] && req[1..][1..] == [];
  }

  lemma {:induction false} TwoAmounts(pots: seq<Pot>)
    requires |pots| >= 2 && forall k :: 0 <= k < |pots| ==> pots[k].amount > 0
    ensures SumBy(pots, PotAmount) > pots[0].amount
  {
    forall p | p in pots[1..] ensures PotAmount(p) >= 0 {
      var k :| 0 <= k < |pots[1..]| && pots[1..][k] == p;
      assert p == pots[k + 1];
    }
    SumByNonNegative(pots[1..], PotAmount);
    assert pots[1] == pots[1..][0];
  }

  /** Because repeated indices are not added up, no pot can be overdrawn exactly when the
      round has at most one pot. */
  lemma OverdrawnExactlyWithSeveralPots(h: Hand)
    requires Balanced(h) && h.round.status == Active
    ensures PotsNeverOverdrawn(h) <==> |PotsOf(h)| <= 1
  {
    BalancedPots(h);
    var pots := PotsOf(h);
    if |pots| <= 1 {
      forall payouts, i: nat | WellFormed(payouts) && ResolveHand(h, payouts).Ok? && i < |pots|
        ensures PaidFromPot(payouts, i) <= pots[i].amount
      {
        PotsExist(h, payouts);
        forall p | p in payouts ensures FromPot(i)(p) <= PaidBy(p) {
          assert PaidBy(p) == p.amount;
        }
        SumByMonotone(payouts, FromPot(i), PaidBy);
        SumOfOne(pots, PotAmount);
      }
    } else {
      SeveralPotsAreLive(Contributions(h.players), 0);
      TwoAmounts(pots);
      TwiceIsAccepted(h, pots[0].amount, pots[0].eligible[0]);
    }
  }

  /** The same in terms of the commitments: a settlement can overdraw a pot exactly when
      somebody who put chips in stopped short of a live commitment. */
  lemma OverdrawnExactlyWhenShort(h: Hand)
    requires Balanced(h) && h.round.status == Active
    ensures PotsNeverOverdrawn(h) <==> NobodyShort(Contributions(h.players))
  {
    OverdrawnExactlyWithSeveralPots(h);
    BalancedPots(h);
    SeveralPotsIff(Contributions(h.players));
  }

  /** Naming each pot at most once keeps every pot within its amount. */
  lemma EachPotPaidWithin(h: Hand, payouts: seq<PotPayout>, i: nat)
    requires Balanced(h) && ResolveHand(h, payouts).Ok?
    requires WellFormed(payouts) && IndicesDistinct(payouts) && i < |PotsOf(h)|
    ensures PaidFromPot(payouts, i) <= PotsOf(h)[i].amount
  {
    var pots := PotsOf(h);
    PotsExist(h, payouts);
    BalancedPots(h);
    forall k | 0 <= k < |payouts|
      ensures payouts[k].index < |pots| && (payouts[k].index == i ==> PaidBy(payouts[k]) <= pots[i].amount)
    {
      CheckedPayout(pots, payouts, k);
    }
    DrawsOnOnePot(payouts, |pots|, i, pots[i].amount);
  }

  lemma DrawsOnOnePot(payouts: seq<PotPayout>, n: nat, i: nat, c: int)
    requires i < n && 0 <= c && IndicesDistinct(payouts)
    requires forall k :: 0 <= k < |payouts| ==>
      payouts[k].index < n && (payouts[k].index == i ==> PaidBy(payouts[k]) <= c)
    ensures PaidFromPot(payouts, i) <= c
  {
    var caps := seq(n, k => if k == i then c else 0);
    DistinctDraws(payouts, FromPot(i), caps);
    OneCap(caps, i, c);
  }

  lemma {:induction false} OneCap(caps: seq<int>, i: nat, c: int)
    requires i < |caps| && forall k :: 0 <= k < |caps| ==> caps[k] == if k == i then c else 0
    ensures SumBy(caps, Same) == c
  {
    SumByUpdate(caps, i, 0, Same);
    SumOfZeros(caps[i := 0], Same);
  }

  lemma {:induction false} SumByPlus<T>(s: seq<T>, f: T -> int, g: T -> int, sum: T -> int)
    requires forall x :: x in s ==> sum(x) == f(x) + g(x)
    ensures SumBy(s, sum) == SumBy(s, f) + SumBy(s, g)
  {
    if s != [] {
      assert s[0] in s;
      SumByPlus(s[1..], f, g, sum);
    }
  }

  function TakenBy(payouts: seq<PotPayout>): Pot -> int { (pot: Pot) => PaidFromPot(payouts, pot.index) }

  /** Payouts that name existing pots are accounted for pot by pot. */
  lemma {:induction false} PaidPotByPot(pots: seq<Pot>, payouts: seq<PotPayout>)
    requires forall k :: 0 <= k < |pots| ==> pots[k].index == k
    requires forall p :: p in payouts ==> p.index < |pots|
    ensures SumBy(pots, TakenBy(payouts)) == TotalPaid(payouts)
  {
    if payouts == [] {
      SumOfZeros(pots, TakenBy(payouts));
    } else {
      var p, rest := payouts[0], payouts[1..];
      assert p in payouts;
      PaidPotByPot(pots, rest);
      var mine := (pot: Pot) => FromPot(pot.index)(p);
      SumByPlus(pots, mine, TakenBy(rest), TakenBy(payouts));
      var caps := seq(|pots|, k requires 0 <= k < |pots| => mine(pots[k]));
      OneCap(caps, p.index, PaidBy(p));
      SumByPointwise(pots, mine, caps, Same);
    }
  }

  lemma {:induction false} EqualSums<T>(s: seq<T>, f: T -> int, g: T -> int)
    requires forall x :: x in s ==> f(x) <= g(x)
    ensures SumBy(s, f) == SumBy(s, g) <==> forall x :: x in s ==> f(x) == g(x)
  {
    if s != [] {
      assert s[0] in s;
      EqualSums(s[1..], f, g);
      SumByMonotone(s[1..], f, g);
    }
  }

  /** With each pot named at most once, the whole pot is paid out exactly when every pot is
      paid in full. */
  lemma PaidInFull(h: Hand, payouts: seq<PotPayout>)
    requires Balanced(h) && ResolveHand(h, payouts).Ok?
    requires WellFormed(payouts) && IndicesDistinct(payouts)
    ensures TotalPaid(payouts) == h.round.pot
            <==> forall i :: 0 <= i < |PotsOf(h)| ==> PaidFromPot(payouts, i) == PotsOf(h)[i].amount
  {
    var pots := PotsOf(h);
    PotsExist(h, payouts);
    BalancedPots(h);
    forall p | p in payouts ensures p.index < |pots| {
      var k :| 0 <= k < |payouts| && payouts[k] == p;
      CheckedPayout(pots, payouts, k);
    }
    PaidPotByPot(pots, payouts);
    forall pot | pot in pots ensures TakenBy(payouts)(pot) <= PotAmount(pot) {
      var i :| 0 <= i < |pots| && pots[i] == pot;
      EachPotPaidWithin(h, payouts, i);
    }
    EqualSums(pots, TakenBy(payouts), PotAmount);
    if forall i :: 0 <= i < |pots| ==> PaidFromPot(payouts, i) == pots[i].amount {
      assert forall pot :: pot in pots ==> TakenBy(payouts)(pot) == PotAmount(pot);
    }
    if TotalPaid(payouts) == h.round.pot {
      forall i | 0 <= i < |pots| ensures PaidFromPot(payouts, i) == pots[i].amount {
        assert pots[i] in pots;
      }
    }
  }

  // ------------------------------------------------------------------ the shortcut

  lemma WholePotCheck(h: Hand, winner: PlayerId)
    requires Balanced(h) && h.round.status == Active && h.round.pot >= 1
    ensures ResolveHand(h, WholePot(h, winner)).Ok? <==> |PotsOf(h)| == 1 && winner in PotsOf(h)[0].eligible
  {
    var req, pots := WholePot(h, winner), PotsOf(h);
    SumOfOne(req[0].winners, ShareAmount);
    SumOfOne(req, PaidBy);
    assert forall p :: p in req ==> p == req[0];
    BalancedPots(h);
    if |pots| == 1 {
      SumOfOne(pots, PotAmount);
    } else if |pots| > 1 {
      TwoAmounts(pots);
    }
    assert req[0].winners[0] in req[0].winners;
    if CheckPayout(pots, req[0]).None? {
      CheckPair(pots, req);
    }
    assert CheckPayout(pots, req[0]).None? <==> |pots| == 1 && winner in pots[0].eligible;
  }

  /** `declare_winner` is accepted exactly when the round is active, the named player is live
      with chips in the pot, and nobody who put chips in stopped short of a live commitment. */
  lemma DeclareWinnerAccepted(h: Hand, winner: PlayerId)
    requires Balanced(h)
    ensures DeclareWinner(h, winner).Ok? <==>
              && h.round.status == Active
              && NobodyShort(Contributions(h.players))
              && exists i :: 0 <= i < |h.players| && h.players[i].id == winner
                   && Live(ContributionOf(h.players[i])) && h.players[i].hand > 0
  {
    var cs := Contributions(h.players);
    BalancedPots(h);
    var i := IndexOf(h.players, winner);
    if i < |h.players| {
      assert cs[i] in cs;
      OnePotFor(cs, cs[i]);
      SumByNonNegative(cs, Committed);
      assert h.players[i].hand <= h.round.pot;
      if h.round.status == Active && h.round.pot >= 1 {
        WholePotCheck(h, winner);
      }
    } else if h.round.status == Active && h.round.pot >= 1 {
      WholePotCheck(h, winner);
      if |PotsOf(h)| == 1 && winner in PotsOf(h)[0].eligible {
        EligibleArePlayers(cs, 0, winner);
      }
    }
  }

  // --------------------------------------------------------------- paying conserves

  ghost predicate SameIds(a: seq<PlayerState>, b: seq<PlayerState>)
  {
    |a| == |b| && forall i :: 0 <= i < |a| ==> a[i].id == b[i].id
  }

  lemma SameIndex(a: seq<PlayerState>, b: seq<PlayerState>, id: PlayerId)
    requires SameIds(a, b)
    ensures IndexOf(a, id) == IndexOf(b, id)
  {
  }

  lemma {:induction false} OnePaid(ps: seq<PlayerState>, w: Share)
    requires IndexOf(ps, w.id) < |ps|
    ensures SumBy(AddStack(ps, w.id, w.amount), StackOf) == SumBy(ps, StackOf) + w.amount
  {
    var i := IndexOf(ps, w.id);
    var q := ps[i].(stack := ps[i].stack + w.amount);
    assert AddStack(ps, w.id, w.amount) == ps[i := q] && StackOf(q) == StackOf(ps[i]) + w.amount;
    SumByUpdate(ps, i, q, StackOf);
  }

  lemma OneMorePaid(ps: seq<PlayerState>, mid: seq<PlayerState>, w: Share)
    requires SameIds(ps, mid) && IndexOf(ps, w.id) < |ps|
    ensures SumBy(AddStack(mid, w.id, w.amount), StackOf) == SumBy(mid, StackOf) + w.amount
    ensures SameIds(ps, AddStack(mid, w.id, w.amount))
  {
    SameIndex(ps, mid, w.id);
    OnePaid(mid, w);
  }

  ghost predicate IsDealtIn(ps: seq<PlayerState>, w: Share) { IndexOf(ps, w.id) < |ps| }

  lemma {:induction false} SharesPaid(ps: seq<PlayerState>, shares: seq<Share>)
    requires forall k :: 0 <= k < |shares| ==> IsDealtIn(ps, shares[k])
    ensures SumBy(PayShares(ps, shares), StackOf) == SumBy(ps, StackOf) + SumBy(shares, ShareAmount)
    ensures SameIds(ps, PayShares(ps, shares))
  {
    if shares != [] {
      var front, w := shares[..|shares| - 1], shares[|shares| - 1];
      SharesPaid(ps, front);
      assert shares == front + [w] && IsDealtIn(ps, w);
      SumByAppend(front, w, ShareAmount);
      OneMorePaid(ps, PayShares(ps, front), w);
    }
  }

  /** Every winner of every payout is in the hand. */
  ghost predicate PaysTheHand(ps: seq<PlayerState>, payouts: seq<PotPayout>)
  {
    forall j, k :: 0 <= j < |payouts| && 0 <= k < |payouts[j].winners| ==>
      IndexOf(ps, payouts[j].winners[k].id) < |ps|
  }

  lemma {:induction false} PayoutsPaid(ps: seq<PlayerState>, payouts: seq<PotPayout>)
    requires PaysTheHand(ps, payouts)
    ensures SumBy(PayAll(ps, payouts), StackOf) == SumBy(ps, StackOf) + TotalPaid(payouts)
    ensures SameIds(ps, PayAll(ps, payouts))
  {
    if payouts != [] {
      var n := |payouts| - 1;
      var front, p := payouts[..n], payouts[n];
      PayoutsPaid(ps, front);
      assert payouts == front + [p];
      SumByAppend(front, p, PaidBy);
      var mid := PayAll(ps, front);
      forall k | 0 <= k < |p.winners| ensures IsDealtIn(mid, p.winners[k]) {
        assert payouts[n].winners[k] == p.winners[k];
        SameIndex(ps, mid, p.winners[k].id);
      }
      SharesPaid(mid, p.winners);
    }
  }

  /** Only players of the hand are paid, so an accepted settlement adds exactly what it pays to
      the stacks. */
  lemma SettlementAddsItsPayment(h: Hand, payouts: seq<PotPayout>)
    requires Balanced(h) && ResolveHand(h, payouts).Ok? && WellFormed(payouts)
    ensures SumBy(ResolveHand(h, payouts).value.players, StackOf) == SumBy(h.players, StackOf) + TotalPaid(payouts)
  {
    var ps := h.players;
    forall j, k | 0 <= j < |payouts| && 0 <= k < |payouts[j].winners|
      ensures IndexOf(ps, payouts[j].winners[k].id) < |ps|
    {
      OnlyEligiblePlayersArePaid(h, payouts, j, payouts[j].winners[k]);
    }
    PayoutsPaid(ps, payouts);
  }
}
