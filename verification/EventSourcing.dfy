/** The ledger is a second copy of the truth: after any run of commands, replaying it gives
    back the live stacks, commitments and pot. */
module EventSourcing {
  import opened Basics
  import opened HandTypes
  import opened Validator
  import opened ActionPipeline
  import opened BlindPosting
  import opened StreetProgression
  import opened Settlement
  import opened Ledger
  import opened Book
  import HandMachine

  // ------------------------------------------------------------- what agreement is

  function Committed(ledger: seq<LedgerRow>, p: PlayerId): int { Snapshot(Rebuild(ledger).players, p).committed }
  function Won(ledger: seq<LedgerRow>, p: PlayerId): int { Snapshot(Rebuild(ledger).players, p).won }
  function Adjusted(ledger: seq<LedgerRow>, p: PlayerId): int { Snapshot(Rebuild(ledger).players, p).adjustment }

  ghost predicate PlayerAgrees(ledger: seq<LedgerRow>, s: SeatPlayer, p: PlayerState)
  {
    && p.id == s.id
    && p.hand == Committed(ledger, p.id)
    && p.stack == s.stack - Committed(ledger, p.id) + Won(ledger, p.id) + Adjusted(ledger, p.id)
  }

  /** Live state and replayed state agree on every player of the hand and on the pot. */
  ghost predicate Agrees(d: Deal, b: Book)
  {
    && |b.hand.players| == |d.seats|
    && (forall i :: 0 <= i < |d.seats| ==> PlayerAgrees(b.ledger, d.seats[i], b.hand.players[i]))
    && b.hand.round.pot == Rebuild(b.ledger).pot
  }

  ghost predicate NamedDeal(d: Deal)
  {
    DealOk(d) && forall i :: 0 <= i < |d.seats| ==> d.seats[i].id != ""
  }

  // ------------------------------------------------------ agreement, by increments

  /** `q` is `p` moved by exactly what the rows `more` say. */
  ghost predicate MovedBy(more: seq<LedgerRow>, p: PlayerState, q: PlayerState)
  {
    && q.id == p.id
    && q.hand == p.hand + SumBy(more, CommittedShare(p.id))
    && q.stack == p.stack - SumBy(more, CommittedShare(p.id))
                  + SumBy(more, WonShare(p.id)) + SumBy(more, AdjustedShare(p.id))
  }

  ghost predicate HandMovedBy(more: seq<LedgerRow>, h: Hand, n: Hand)
  {
    && |n.players| == |h.players|
    && (forall i :: 0 <= i < |h.players| ==> MovedBy(more, h.players[i], n.players[i]))
    && n.round.pot == h.round.pot + SumBy(more, PotShare)
  }

  lemma TotalsGrow(ledger: seq<LedgerRow>, more: seq<LedgerRow>, p: PlayerId)
    ensures Committed(ledger + more, p) == Committed(ledger, p) + SumBy(more, CommittedShare(p))
    ensures Won(ledger + more, p) == Won(ledger, p) + SumBy(more, WonShare(p))
    ensures Adjusted(ledger + more, p) == Adjusted(ledger, p) + SumBy(more, AdjustedShare(p))
    ensures Rebuild(ledger + more).pot == Rebuild(ledger).pot + SumBy(more, PotShare)
  {
    RebuildIsSums(ledger, p);
    RebuildIsSums(ledger + more, p);
    SumByConcat(ledger, more, CommittedShare(p));
    SumByConcat(ledger, more, WonShare(p));
    SumByConcat(ledger, more, AdjustedShare(p));
    SumByConcat(ledger, more, PotShare);
  }

  /** From an agreeing book, appending `more` keeps agreement exactly when the live hand
      moves by what `more` says. */
  lemma AgreementMoves(d: Deal, b: Book, n: Hand, more: seq<LedgerRow>)
    requires Agrees(d, b) && |d.seats| > 0
    ensures Agrees(d, Book(n, b.ledger + more)) <==> HandMovedBy(more, b.hand, n)
  {
    TotalsGrow(b.ledger, more, d.seats[0].id);
    forall i | 0 <= i < |d.seats|
      ensures |n.players| == |d.seats| ==>
        (PlayerAgrees(b.ledger + more, d.seats[i], n.players[i]) <==> MovedBy(more, b.hand.players[i], n.players[i]))
    {
      assert PlayerAgrees(b.ledger, d.seats[i], b.hand.players[i]);
      TotalsGrow(b.ledger, more, d.seats[i].id);
    }
  }

  lemma OneRow(e: LedgerRow, p: PlayerId)
    ensures SumBy([e], PotShare) == PotShare(e)
    ensures SumBy([e], CommittedShare(p)) == CommittedShare(p)(e)
    ensures SumBy([e], WonShare(p)) == WonShare(p)(e)
    ensures SumBy([e], AdjustedShare(p)) == AdjustedShare(p)(e)
  {
    assert [e][1..] == [];
  }

  // ------------------------------------------------------------ commands that move chips

  lemma JudgeAmounts(r: RoundState, p: PlayerState, action: Action, amount: int)
    requires Judge(r, p, action, amount).Ok? && p.stack >= 0
    ensures var v := Judge(r, p, action, amount).value;
            0 <= v.amount <= p.stack && (!MovesChips(v.action) ==> v.amount == 0)
  {
  }

  /** Distinct named players, as the deal seated them. */
  lemma BookNames(d: Deal, b: Book)
    requires NamedDeal(d) && Agrees(d, b)
    ensures IdsDistinct(b.hand.players)
    ensures forall i :: 0 <= i < |b.hand.players| ==> b.hand.players[i].id != ""
  {
    forall i | 0 <= i < |d.seats| ensures b.hand.players[i].id == d.seats[i].id {
      assert PlayerAgrees(b.ledger, d.seats[i], b.hand.players[i]);
    }
  }

  /** A bet row moves the bettor by its amount and nobody else. */
  lemma BetRowMoves(e: LedgerRow, p: PlayerState, q: PlayerState, id: PlayerId, amount: int)
    requires e.kind == BetPlaced && e.player == Some(id) && e.amount == Some(amount) && amount >= 0 && id != ""
    requires if p.id == id then q.id == id && q.hand == p.hand + amount && q.stack == p.stack - amount else q == p
    ensures MovedBy([e], p, q)
  {
    OneRow(e, p.id);
  }

  lemma BetMoves(b: Book, id: PlayerId, action: Action, amount: int)
    requires IdsDistinct(b.hand.players) && forall i :: 0 <= i < |b.hand.players| ==> b.hand.players[i].id != ""
    requires RowsLegal(b.hand) && ApplyAction(b.hand, id, action, amount, None).Ok?
    ensures var a := ApplyAction(b.hand, id, action, amount, None).value;
            && a.amount >= 0 && IndexOf(b.hand.players, id) < |b.hand.players|
            && HandMovedBy([BetEntry(b.ledger, id, a.amount)], b.hand, a.hand)
            && SumBy(a.hand.players, CommitOf) == SumBy(b.hand.players, CommitOf) + a.amount
  {
    var a := ApplyAction(b.hand, id, action, amount, None).value;
    var i, v := HandMachine.AcceptedBet(b.hand, id, action, amount);
    JudgeAmounts(b.hand.round, b.hand.players[i], action, amount);
    var e := BetEntry(b.ledger, id, a.amount);
    SumByUpdate(b.hand.players, i, a.hand.players[i], CommitOf);
    OneRow(e, id);
    forall k | 0 <= k < |b.hand.players| ensures MovedBy([e], b.hand.players[k], a.hand.players[k]) {
      BetRowMoves(e, b.hand.players[k], a.hand.players[k], id, a.amount);
    }
  }

  lemma AdvanceMoves(h: Hand)
    requires AdvanceStreet(h).Ok?
    ensures HandMovedBy([], h, AdvanceStreet(h).value)
    ensures SumBy(AdvanceStreet(h).value.players, CommitOf) == SumBy(h.players, CommitOf)
  {
    SumByPointwise(h.players, CommitOf, AdvanceStreet(h).value.players, CommitOf);
  }

  // ---------------------------------------------------------------------- settlement

  /** Rows that carry no commitment and no adjustment, and award `won` to `p`. */
  ghost predicate Award(rows: seq<LedgerRow>, p: PlayerId, won: int)
  {
    && SumBy(rows, PotShare) == 0 && SumBy(rows, CommittedShare(p)) == 0 && SumBy(rows, AdjustedShare(p)) == 0
    && SumBy(rows, WonShare(p)) == won
  }

  lemma AwardsAdd(rows: seq<LedgerRow>, more: seq<LedgerRow>, p: PlayerId, a: int, b: int)
    requires Award(rows, p, a) && Award(more, p, b)
    ensures Award(rows + more, p, a + b)
  {
    SumByConcat(rows, more, PotShare);
    SumByConcat(rows, more, CommittedShare(p));
    SumByConcat(rows, more, AdjustedShare(p));
    SumByConcat(rows, more, WonShare(p));
  }

  lemma {:induction false} ShareRows(shares: seq<Share>, n: nat, p: PlayerId)
    requires p != ""
    ensures Award(ShareEntries(shares, n), p, SumBy(shares, ShareTo(p)))
  {
    if shares != [] {
      var front, w := shares[..|shares| - 1], shares[|shares| - 1];
      var e := AwardEntry(n + |shares| - 1, w);
      ShareRows(front, n, p);
      assert shares == front + [w];
      SumByAppend(front, w, ShareTo(p));
      OneRow(e, p);
      AwardsAdd(ShareEntries(front, n), [e], p, SumBy(front, ShareTo(p)), ShareTo(p)(w));
    }
  }

  lemma {:induction false} PayoutRows(payouts: seq<PotPayout>, n: nat, p: PlayerId)
    requires p != ""
    ensures Award(PayoutEntries(payouts, n), p, WonBy(payouts, p))
  {
    if payouts != [] {
      var front, last := payouts[..|payouts| - 1], payouts[|payouts| - 1];
      var rows := PayoutEntries(front, n);
      PayoutRows(front, n, p);
      ShareRows(last.winners, n + |rows|, p);
      assert payouts == front + [last];
      SumByAppend(front, last, WonFrom(p));
      AwardsAdd(rows, ShareEntries(last.winners, n + |rows|), p, WonBy(front, p), SumBy(last.winners, ShareTo(p)));
    }
  }

  lemma SettleRows(h: Hand, payouts: seq<PotPayout>, n: nat, p: PlayerId)
    requires p != ""
    ensures Award(SettleEntries(h, payouts, n), p, WonBy(payouts, p))
  {
    var paid := PayoutEntries(payouts, n);
    var e := CompletionEntry(n + |paid|, h.round.pot);
    PayoutRows(payouts, n, p);
    OneRow(e, p);
    AwardsAdd(paid, [e], p, WonBy(payouts, p), 0);
  }

  lemma SettleMoves(h: Hand, payouts: seq<PotPayout>, n: nat)
    requires IdsDistinct(h.players) && forall i :: 0 <= i < |h.players| ==> h.players[i].id != ""
    requires ResolveHand(h, payouts).Ok?
    ensures HandMovedBy(SettleEntries(h, payouts, n), h, ResolveHand(h, payouts).value)
    ensures SumBy(ResolveHand(h, payouts).value.players, CommitOf) == SumBy(h.players, CommitOf)
  {
    var r := ResolveHand(h, payouts).value;
    PayoutsRaise(h.players, payouts);
    SettleRows(h, payouts, n, "a");
    forall i | 0 <= i < |h.players| ensures MovedBy(SettleEntries(h, payouts, n), h.players[i], r.players[i]) {
      SettleRows(h, payouts, n, h.players[i].id);
    }
    SumByPointwise(h.players, CommitOf, r.players, CommitOf);
  }

  // ---------------------------------------------------------------------- corrections

  lemma ReopenMoves(b: Book)
    requires Proposed(b, Reopen).Some?
    ensures HandMovedBy([Entry(b.ledger, HandReopened, None, None, None)], b.hand, Proposed(b, Reopen).value.hand)
  {
    var e := Entry(b.ledger, HandReopened, None, None, None);
    OneRow(e, "");
    forall i | 0 <= i < |b.hand.players| ensures MovedBy([e], b.hand.players[i], b.hand.players[i]) {
      OneRow(e, b.hand.players[i].id);
    }
  }

  lemma AdjustMoves(b: Book, id: PlayerId, amount: int)
    requires IdsDistinct(b.hand.players) && forall i :: 0 <= i < |b.hand.players| ==> b.hand.players[i].id != ""
    ensures var n := Proposed(b, Adjust(id, amount)).value.hand;
            && HandMovedBy([Entry(b.ledger, StackAdjusted, Some(id), Some(amount), None)], b.hand, n)
            && SumBy(n.players, CommitOf) == SumBy(b.hand.players, CommitOf)
  {
    var e := Entry(b.ledger, StackAdjusted, Some(id), Some(amount), None);
    var n := Proposed(b, Adjust(id, amount)).value.hand;
    OneRow(e, id);
    AddStackCredits(b.hand.players, id, amount);
    forall i | 0 <= i < |b.hand.players| ensures MovedBy([e], b.hand.players[i], n.players[i]) {
      OneRow(e, b.hand.players[i].id);
    }
    SumByPointwise(b.hand.players, CommitOf, n.players, CommitOf);
  }

  /** `n` is `ps` with `amount` added to the stack of `id`. */
  ghost predicate Credited(ps: seq<PlayerState>, n: seq<PlayerState>, id: PlayerId, amount: int)
  {
    && |n| == |ps|
    && forall i :: 0 <= i < |ps| ==> n[i] == ps[i].(stack := ps[i].stack + if ps[i].id == id then amount else 0)
  }

  lemma AddStackCredits(ps: seq<PlayerState>, id: PlayerId, amount: int)
    requires IdsDistinct(ps)
    ensures Credited(ps, AddStack(ps, id, amount), id, amount)
    ensures IdsDistinct(AddStack(ps, id, amount))
  {
    forall i | 0 <= i < |ps| ensures IndexOf(ps, id) == i <==> ps[i].id == id {
    }
  }

  lemma CorrectionShares(e: LedgerRow, oldId: PlayerId, oldAmount: int, newId: PlayerId, newAmount: int, p: PlayerId)
    requires e.kind == PayoutCorrected && e.player == Some(newId) && AmountOf(e) == newAmount
    requires OldPlayer(e) == Some(oldId) && OldAmount(e) == oldAmount && p != ""
    ensures Award([e], p, (if p == newId then newAmount else 0) - (if p == oldId then oldAmount else 0))
  {
    OneRow(e, p);
  }

  /** What a payout correction does to one stack. */
  function CorrectionOf(id: PlayerId, oldId: PlayerId, oldAmount: int, newId: PlayerId, newAmount: int): int
  {
    (if id == newId then newAmount else 0) - (if id == oldId then oldAmount else 0)
  }

  lemma TwoCredits(ps: seq<PlayerState>, mid: seq<PlayerState>, n: seq<PlayerState>,
                   oldId: PlayerId, oldAmount: int, newId: PlayerId, newAmount: int)
    requires Credited(ps, mid, oldId, -oldAmount) && Credited(mid, n, newId, newAmount)
    ensures forall i :: 0 <= i < |ps| ==>
              n[i] == ps[i].(stack := ps[i].stack + CorrectionOf(ps[i].id, oldId, oldAmount, newId, newAmount))
  {
    forall i | 0 <= i < |ps|
      ensures n[i] == ps[i].(stack := ps[i].stack + CorrectionOf(ps[i].id, oldId, oldAmount, newId, newAmount))
    {
      assert mid[i].id == ps[i].id;
    }
  }

  lemma CorrectEffect(ps: seq<PlayerState>, oldId: PlayerId, oldAmount: int, newId: PlayerId, newAmount: int)
    requires IdsDistinct(ps)
    ensures var n := Repaid(ps, oldId, oldAmount, newId, newAmount);
            && |n| == |ps|
            && forall i :: 0 <= i < |ps| ==>
                 n[i] == ps[i].(stack := ps[i].stack + CorrectionOf(ps[i].id, oldId, oldAmount, newId, newAmount))
  {
    var mid := AddStack(ps, oldId, -oldAmount);
    AddStackCredits(ps, oldId, -oldAmount);
    AddStackCredits(mid, newId, newAmount);
    TwoCredits(ps, mid, AddStack(mid, newId, newAmount), oldId, oldAmount, newId, newAmount);
  }

  lemma CorrectMoves(ps: seq<PlayerState>, e: LedgerRow,
                     oldId: PlayerId, oldAmount: int, newId: PlayerId, newAmount: int)
    requires IdsDistinct(ps) && forall i :: 0 <= i < |ps| ==> ps[i].id != ""
    requires e.kind == PayoutCorrected && e.player == Some(newId) && AmountOf(e) == newAmount
    requires OldPlayer(e) == Some(oldId) && OldAmount(e) == oldAmount
    ensures var n := Repaid(ps, oldId, oldAmount, newId, newAmount);
            && |n| == |ps| && (forall i :: 0 <= i < |ps| ==> MovedBy([e], ps[i], n[i]))
            && SumBy(n, CommitOf) == SumBy(ps, CommitOf)
  {
    CorrectEffect(ps, oldId, oldAmount, newId, newAmount);
    var n := Repaid(ps, oldId, oldAmount, newId, newAmount);
    forall i | 0 <= i < |ps| ensures MovedBy([e], ps[i], n[i]) {
      CorrectionShares(e, oldId, oldAmount, newId, newAmount, ps[i].id);
    }
    SumByPointwise(ps, CommitOf, n, CommitOf);
  }

  /** The amount can be taken back in full from where the ledger takes it. */
  predicate Fits(h: Hand, e: LedgerRow)
  {
    var amt := AmountOf(e);
    || amt == 0
    || (&& amt > 0 && Named(e.player) && amt <= h.round.pot
        && var i := IndexOf(h.players, e.player.value);
           i < |h.players| ==> amt <= h.players[i].hand)
  }

  lemma ReverseMoves(h: Hand, e: LedgerRow, r: LedgerRow)
    requires IdsDistinct(h.players) && RowsLegal(h) && Reverses(r, e)
    ensures HandMovedBy([r], h, Returned(h, e)) <==> Fits(h, e)
  {
    var n, amt := Returned(h, e), AmountOf(e);
    OneRow(r, "");
    forall k | 0 <= k < |h.players|
      ensures MovedBy([r], h.players[k], n.players[k]) <==>
        (!Names(e.player, h.players[k].id) || amt == 0 || 0 < amt <= h.players[k].hand)
    {
      OneRow(r, h.players[k].id);
    }
  }
}
