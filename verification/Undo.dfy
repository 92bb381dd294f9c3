/** What a correction gives back: a bet and its reversal, an adjustment and its opposite, a
    payout correction and its swap; which entries can be reversed at all; and what a reopened
    hand lets its players do. */
module Undo {
  import opened Basics
  import opened HandTypes
  import opened Validator
  import opened ActionPipeline
  import opened BlindPosting
  import opened StreetProgression
  import opened Settlement
  import opened SettlementTheorems
  import opened Ledger
  import opened Book
  import opened EventSourcing
  import opened LedgerTheorems
  import opened HandMachine
  import opened Verdicts

  // ---------------------------------------------------------- which entries, and once

  /** An entry can be reversed exactly when it exists, is none of the four kinds of correction,
      and no row has reversed it. */
  lemma ReversibleIff(b: Book, e: EntryId)
    ensures Proposed(b, Reverse(e)).Some? <==>
              && e < |b.ledger|
              && b.ledger[e].kind !in {ActionReversed, StackAdjusted, HandReopened, PayoutCorrected}
              && forall k :: 0 <= k < |b.ledger| && b.ledger[k].kind == ActionReversed ==>
                   b.ledger[k].original != Some(e)
  {
  }

  lemma LedgerGrows(b: Book, op: Op)
    ensures |Do(b, op).ledger| >= |b.ledger| && Do(b, op).ledger[..|b.ledger|] == b.ledger
  {
  }

  lemma {:induction false} LedgerOnlyGrows(b: Book, ops: seq<Op>)
    ensures |DoAll(b, ops).ledger| >= |b.ledger| && DoAll(b, ops).ledger[..|b.ledger|] == b.ledger
  {
    if ops != [] {
      var front := DoAll(b, ops[..|ops| - 1]);
      LedgerOnlyGrows(b, ops[..|ops| - 1]);
      LedgerGrows(front, ops[|ops| - 1]);
      assert Do(front, ops[|ops| - 1]).ledger[..|front.ledger|][..|b.ledger|] == b.ledger;
    }
  }

  lemma ReversalIsMarked(b: Book, e: EntryId)
    requires Commits(b, Reverse(e))
    ensures AlreadyReversed(Do(b, Reverse(e)).ledger, e)
  {
    var n := Do(b, Reverse(e)).ledger;
    assert n[|b.ledger|].kind == ActionReversed && n[|b.ledger|].original == Some(e);
  }

  /** Once reversed, an entry cannot be reversed again, whatever is done in between. */
  lemma ReversedOnlyOnce(b: Book, e: EntryId, ops: seq<Op>)
    requires Commits(b, Reverse(e))
    ensures !Commits(DoAll(Do(b, Reverse(e)), ops), Reverse(e))
  {
    var m := Do(b, Reverse(e));
    ReversalIsMarked(b, e);
    LedgerOnlyGrows(m, ops);
    var k :| 0 <= k < |m.ledger| && m.ledger[k].kind == ActionReversed && m.ledger[k].original == Some(e);
    assert DoAll(m, ops).ledger[..|m.ledger|][k] == m.ledger[k];
  }

  // -------------------------------------------------------------- a bet and its reversal

  /** The chips are where they were; a fold or an all-in stands. */
  ghost predicate ChipsBack(h: Hand, m: Hand, n: Hand)
  {
    && |n.players| == |h.players| == |m.players|
    && (forall k :: 0 <= k < |h.players| ==>
          n.players[k] == h.players[k].(folded := m.players[k].folded, allIn := m.players[k].allIn,
                                        active := m.players[k].active))
    && n.round == m.round.(pot := h.round.pot)
  }

  /** Seat `i` has moved `a` chips from its stack to the pot, and nothing else of anybody's. */
  ghost predicate ChipsOut(h: Hand, i: nat, a: int, m: Hand)
  {
    && i < |h.players| == |m.players|
    && m.players == h.players[i := m.players[i]]
    && m.round.pot == h.round.pot + a
    && var p, q := h.players[i], m.players[i];
       q == p.(stack := p.stack - a, street := p.street + a, hand := p.hand + a,
               folded := q.folded, allIn := q.allIn, active := q.active)
  }

  lemma BetMovesChipsOut(h: Hand, id: PlayerId, action: Action, amount: int, i: nat, v: ValidatedAction, m: Hand)
    requires RowsLegal(h) && Accepted(h, id, action, amount, i, v) && BetResult(h, i, v, m)
    ensures ChipsOut(h, i, v.amount, m) && v.amount >= 0
  {
    JudgeAmounts(h.round, h.players[i], action, amount);
  }

  lemma ReturnUndoesBet(h: Hand, i: nat, a: int, m: Hand, e: LedgerRow)
    requires RowsLegal(h) && ChipsOut(h, i, a, m) && a >= 0
    requires i == IndexOf(h.players, h.players[i].id) && h.players[i].id != ""
    requires e.player == Some(h.players[i].id) && e.amount == Some(a)
    ensures ChipsBack(h, m, Returned(m, e))
  {
    assert SameIds(h.players, m.players);
    SameIndex(h.players, m.players, h.players[i].id);
  }

  lemma BetCommitted(b: Book, id: PlayerId, action: Action, amount: int, m: Book) returns (i: nat, v: ValidatedAction)
    requires Commits(b, PlaceBet(id, action, amount)) && m == Do(b, PlaceBet(id, action, amount))
    ensures Accepted(b.hand, id, action, amount, i, v) && BetResult(b.hand, i, v, m.hand)
    ensures m.ledger == b.ledger + [BetEntry(b.ledger, id, v.amount)] && RowsLegal(m.hand)
  {
    i, v := AcceptedBet(b.hand, id, action, amount);
  }

  lemma NewRowIsReversible(d: Deal, b: Book, e: LedgerRow, m: Book)
    requires LedgerOk(d, b.ledger) && m.ledger == b.ledger + [e] && e.kind == BetPlaced && RowsLegal(m.hand)
    ensures Commits(m, Reverse(|b.ledger|)) && Do(m, Reverse(|b.ledger|)).hand == Returned(m.hand, e)
  {
    forall k | 0 <= k < |m.ledger| && m.ledger[k].kind == ActionReversed
      ensures m.ledger[k].original != Some(|b.ledger|)
    {
      assert m.ledger[k] == b.ledger[k];
      assert RowOk(d, b.ledger, k);
    }
    assert m.ledger[|b.ledger|] == e;
    ReversibleIff(m, |b.ledger|);
    ReturnedIsLegal(m.hand, e);
  }

  lemma ReturnedIsLegal(h: Hand, e: LedgerRow)
    requires RowsLegal(h)
    ensures RowsLegal(Returned(h, e))
  {
  }

  lemma SeatedIsNamed(d: Deal, b: Book, i: nat)
    requires NamedDeal(d) && Agrees(d, b) && i < |b.hand.players|
    ensures b.hand.players[i].id != ""
  {
    assert PlayerAgrees(b.ledger, d.seats[i], b.hand.players[i]);
  }

  /** A bet and the reversal of its entry: the reversal is accepted, every stack, street and
      hand commitment and the pot are as before the bet, and everything else stays as the bet
      left it: the bet level, the minimum raise, the turn, a fold, an all-in. */
  lemma BetThenReversal(d: Deal, b: Book, id: PlayerId, action: Action, amount: int, m: Book)
    requires NamedDeal(d) && Sound(d, b)
    requires Commits(b, PlaceBet(id, action, amount)) && m == Do(b, PlaceBet(id, action, amount))
    ensures Commits(m, Reverse(|b.ledger|)) && ChipsBack(b.hand, m.hand, Do(m, Reverse(|b.ledger|)).hand)
  {
    var i, v := BetCommitted(b, id, action, amount, m);
    var e := BetEntry(b.ledger, id, v.amount);
    SeatedIsNamed(d, b, i);
    NewRowIsReversible(d, b, e, m);
    BetMovesChipsOut(b.hand, id, action, amount, i, v, m.hand);
    ReturnUndoesBet(b.hand, i, v.amount, m.hand, e);
  }

  // --------------------------------------------- adjustments and payout corrections

  lemma AddStackBack(ps: seq<PlayerState>, id: PlayerId, amount: int)
    ensures AddStack(AddStack(ps, id, amount), id, -amount) == ps
  {
    var i, n := IndexOf(ps, id), AddStack(ps, id, amount);
    assert SameIds(ps, n);
    SameIndex(ps, n, id);
  }

  /** An adjustment and its opposite leave the hand as it was. */
  lemma AdjustmentAndBack(b: Book, id: PlayerId, amount: int)
    requires RowsLegal(b.hand) && Commits(b, Adjust(id, amount))
    ensures Do(Do(b, Adjust(id, amount)), Adjust(id, -amount)).hand == b.hand
  {
    AddStackBack(b.hand.players, id, amount);
  }

  lemma RepaidBack(ps: seq<PlayerState>, x: PlayerId, a: int, y: PlayerId, c: int)
    ensures Repaid(Repaid(ps, x, a, y, c), y, c, x, a) == ps
  {
    AddStackBack(AddStack(ps, x, -a), y, c);
    AddStackBack(ps, x, -a);
  }

  /** A payout correction and the one that swaps its two sides leave the hand as it was. */
  lemma CorrectionAndBack(b: Book, x: PlayerId, a: int, y: PlayerId, c: int)
    requires RowsLegal(b.hand) && Commits(b, CorrectPayout(x, a, y, c))
    ensures Do(Do(b, CorrectPayout(x, a, y, c)), CorrectPayout(y, c, x, a)).hand == b.hand
  {
    RepaidBack(b.hand.players, x, a, y, c);
  }

  // ------------------------------------------------------------------ a reopened hand

  lemma Reopened(b: Book, m: Book, r: Book, payouts: seq<PotPayout>)
    requires Commits(b, Settle(payouts)) && m == Do(b, Settle(payouts))
    requires RowsLegal(m.hand) && r == Do(m, Reopen)
    ensures r.hand.players == m.hand.players
    ensures r.hand.round == b.hand.round.(street := Showdown, actor := None, closed := false, stamped := false,
                                          version := b.hand.round.version + 1)
  {
  }

  /** A hand that was settled and reopened stands at showdown with nobody's turn: no street can
      be dealt, it cannot be reopened again, and anybody still able to act may do whatever the
      bets on the table permit, in any order. */
  lemma ReopenedHandIsOpenToAll(b: Book, payouts: seq<PotPayout>, m: Book, r: Book, i: nat, action: Action, amount: int)
    requires Commits(b, Settle(payouts)) && m == Do(b, Settle(payouts)) && r == Do(m, Reopen)
    requires RowsLegal(m.hand) && IdsDistinct(r.hand.players) && i < |r.hand.players| && b.hand.round.highest >= 0
    ensures !Commits(r, Reopen) && AdvanceStreet(r.hand) == Err(AlreadyAtShowdown)
    ensures ApplyAction(r.hand, r.hand.players[i].id, action, amount, None).Ok? <==>
              Able(r.hand.players[i]) && Permits(b.hand.round, r.hand.players[i], action, amount)
  {
    Reopened(b, m, r, payouts);
    SettledWasActive(b, payouts);
    OpenToAll(b.hand.round, r.hand, i, action, amount);
    OnlyCompletedReopens(r);
  }

  lemma OpenToAll(was: RoundState, h: Hand, i: nat, action: Action, amount: int)
    requires h.round == was.(street := Showdown, actor := None, closed := false, stamped := false,
                             version := h.round.version)
    requires was.status == Active && was.highest >= 0 && IdsDistinct(h.players) && i < |h.players|
    ensures AdvanceStreet(h) == Err(AlreadyAtShowdown)
    ensures ApplyAction(h, h.players[i].id, action, amount, None).Ok? <==>
              Able(h.players[i]) && Permits(was, h.players[i], action, amount)
  {
    RequestAcceptedIff(h, i, action, amount, None);
  }

  lemma OnlyCompletedReopens(b: Book)
    requires b.hand.round.status == Active
    ensures !Commits(b, Reopen)
  {
  }

  lemma SettledWasActive(b: Book, payouts: seq<PotPayout>)
    requires Commits(b, Settle(payouts))
    ensures b.hand.round.status == Active
  {
  }
}
