/** What reversing the rows of a settlement does: the completion row always breaks the
    agreement of ledger and live state, an award row exactly when it exceeds the winner's own
    commitment. */
module ReversalTheorems {
  import opened Basics
  import opened HandTypes
  import opened BlindPosting
  import opened Settlement
  import opened SettlementTheorems
  import opened Ledger
  import opened Book
  import opened EventSourcing
  import opened LedgerTheorems

  /** In a well-kept ledger only wagers have been reversed. */
  lemma OthersStand(d: Deal, ledger: seq<LedgerRow>, e: EntryId)
    requires LedgerOk(d, ledger) && e < |ledger| && !IsWager(ledger[e].kind)
    ensures !AlreadyReversed(ledger, e)
  {
    forall k | 0 <= k < |ledger| && ledger[k].kind == ActionReversed ensures ledger[k].original != Some(e) {
      assert RowOk(d, ledger, k);
    }
  }

  lemma ReturnIsLegal(h: Hand, e: LedgerRow)
    requires RowsLegal(h)
    ensures RowsLegal(Returned(h, e))
  {
  }

  /** A row of a sound book that is neither a wager nor a correction can always be reversed. */
  lemma ReversalCommits(d: Deal, b: Book, e: EntryId)
    requires Sound(d, b) && e < |b.ledger| && !IsWager(b.ledger[e].kind) && !IsCorrection(b.ledger[e].kind)
    ensures Commits(b, Reverse(e)) && b.ledger[e].id == e
  {
    OthersStand(d, b.ledger, e);
    ReturnIsLegal(b.hand, b.ledger[e]);
    assert RowOk(d, b.ledger, e);
  }

  // --------------------------------------------------------------- the rows of a settlement

  lemma SettledBook(b: Book, payouts: seq<PotPayout>)
    requires Commits(b, Settle(payouts))
    ensures Refusal(b.hand, payouts).None?
    ensures Do(b, Settle(payouts))
            == Book(Hand(Completion(b.hand.round), PayAll(b.hand.players, payouts)),
                    b.ledger + SettleEntries(b.hand, payouts, |b.ledger|))
  {
  }

  lemma SettledLedger(b: Book, payouts: seq<PotPayout>)
    requires Commits(b, Settle(payouts))
    ensures var m := Do(b, Settle(payouts));
            var rows := PayoutEntries(payouts, |b.ledger|);
            && m.ledger == b.ledger + rows + [CompletionEntry(|b.ledger| + |rows|, b.hand.round.pot)]
            && m.hand.players == PayAll(b.hand.players, payouts)
            && m.hand.round.pot == b.hand.round.pot
            && Refusal(b.hand, payouts).None?
  {
    SettledBook(b, payouts);
    var rows, last := PayoutEntries(payouts, |b.ledger|), SettleEntries(b.hand, payouts, |b.ledger|);
    assert b.ledger + last == b.ledger + rows + [last[|rows|]];
  }

  /** A settlement ends the ledger with its completion row, preceded by its award rows. */
  lemma SettlementEnds(d: Deal, b: Book, payouts: seq<PotPayout>)
    requires NamedDeal(d) && Sound(d, b) && Commits(b, Settle(payouts))
    ensures var m := Do(b, Settle(payouts));
            var rows := PayoutEntries(payouts, |b.ledger|);
            && Sound(d, m) && m.hand.round.pot == b.hand.round.pot
            && |m.ledger| == |b.ledger| + |rows| + 1
            && m.ledger[|m.ledger| - 1] == CompletionEntry(|m.ledger| - 1, b.hand.round.pot)
            && forall k :: 0 <= k < |rows| ==> m.ledger[|b.ledger| + k] == rows[k]
  {
    SettleKeepsSound(d, b, payouts);
    SettledLedger(b, payouts);
  }

  /** Book `m` ends with the completion of a pot of `pot`. */
  ghost predicate EndsCompleted(d: Deal, m: Book, pot: int)
  {
    && Sound(d, m) && m.ledger != []
    && m.ledger[|m.ledger| - 1] == CompletionEntry(|m.ledger| - 1, pot)
  }

  lemma SettlementCompletes(d: Deal, b: Book, payouts: seq<PotPayout>)
    requires NamedDeal(d) && Sound(d, b) && Commits(b, Settle(payouts))
    ensures EndsCompleted(d, Do(b, Settle(payouts)), b.hand.round.pot)
    ensures |Do(b, Settle(payouts)).ledger| > |b.ledger|
  {
    SettlementEnds(d, b, payouts);
  }

  /** Reversing row `e` is accepted, leaves the live hand alone and takes `amount` from the
      replayed pot, so that ledger and live state part. */
  ghost predicate PartsBy(d: Deal, m: Book, e: EntryId, amount: int)
  {
    && Commits(m, Reverse(e))
    && Do(m, Reverse(e)).hand == m.hand
    && Rebuild(Do(m, Reverse(e)).ledger).pot == m.hand.round.pot - amount
    && !Agrees(d, Do(m, Reverse(e)))
  }

  lemma CompletionReversed(d: Deal, m: Book, e: EntryId, amount: int)
    requires NamedDeal(d) && Sound(d, m) && e < |m.ledger| && amount > 0
    requires m.ledger[e].kind == RoundCompleted && m.ledger[e].player == None && m.ledger[e].amount == Some(amount)
    ensures PartsBy(d, m, e, amount)
  {
    ReversalCommits(d, m, e);
    var r := Entry(m.ledger, ActionReversed, None, Some(amount), Some(e));
    assert Do(m, Reverse(e)) == Book(m.hand, m.ledger + [r]);
    TotalsGrow(m.ledger, [r], "");
    OneRow(r, "");
  }

  lemma AwardReversed(d: Deal, m: Book, e: EntryId, w: Share)
    requires NamedDeal(d) && Sound(d, m) && e < |m.ledger| && m.ledger[e] == AwardEntry(e, w)
    requires w.amount > 0 && w.id != "" && IndexOf(m.hand.players, w.id) < |m.hand.players|
    ensures Commits(m, Reverse(e))
    ensures Agrees(d, Do(m, Reverse(e))) <==> w.amount <= m.hand.players[IndexOf(m.hand.players, w.id)].hand
  {
    ReversalCommits(d, m, e);
    ReversalKeepsAgreementIff(d, m, e);
    CommitmentWithinPot(m.hand, IndexOf(m.hand.players, w.id));
  }

  lemma LastRowParts(d: Deal, m: Book, amount: int)
    requires NamedDeal(d) && EndsCompleted(d, m, amount) && amount > 0
    ensures PartsBy(d, m, |m.ledger| - 1, amount)
  {
    CompletionReversed(d, m, |m.ledger| - 1, amount);
  }

  /** Settling and then reversing the completion row: the reversal is accepted, and the replayed
      pot falls by the whole pot while the live hand does not move. */
  lemma ReversingCompletionDiverges(d: Deal, b: Book, payouts: seq<PotPayout>, m: Book)
    requires NamedDeal(d) && Sound(d, b) && Commits(b, Settle(payouts)) && m == Do(b, Settle(payouts))
    requires b.hand.round.pot > 0
    ensures |m.ledger| > |b.ledger| && m.ledger[|m.ledger| - 1].kind == RoundCompleted
    ensures PartsBy(d, m, |m.ledger| - 1, b.hand.round.pot)
  {
    SettlementCompletes(d, b, payouts);
    LastRowParts(d, m, b.hand.round.pot);
  }

  /** Every award row of a settlement pays one of its shares. */
  lemma {:induction false} AwardOf(payouts: seq<PotPayout>, n: nat, k: nat) returns (j: nat, w: Share)
    requires k < |PayoutEntries(payouts, n)|
    ensures j < |payouts| && w in payouts[j].winners
    ensures PayoutEntries(payouts, n)[k] == AwardEntry(n + k, w)
  {
    var last := |payouts| - 1;
    var front := PayoutEntries(payouts[..last], n);
    if k < |front| {
      j, w := AwardOf(payouts[..last], n, k);
    } else {
      j := last;
      w := ShareOf(payouts[last].winners, n + |front|, k - |front|);
    }
  }

  lemma {:induction false} ShareOf(shares: seq<Share>, n: nat, k: nat) returns (w: Share)
    requires k < |shares|
    ensures w in shares && ShareEntries(shares, n)[k] == AwardEntry(n + k, w)
  {
    if k == |shares| - 1 {
      w := shares[k];
    } else {
      w := ShareOf(shares[..|shares| - 1], n, k);
    }
  }

  lemma SoundIsBalanced(d: Deal, b: Book)
    requires NamedDeal(d) && Sound(d, b)
    ensures Balanced(b.hand)
  {
    BookNames(d, b);
  }

  lemma CommitmentWithinPot(h: Hand, i: nat)
    requires RowsLegal(h) && i < |h.players| && h.round.pot == SumBy(h.players, CommitOf)
    ensures h.players[i].hand <= h.round.pot
  {
    forall p | p in h.players ensures 0 <= CommitOf(p) {
    }
    SumByNonNegative(h.players, CommitOf);
    assert h.players[i] in h.players;
  }

  /** Settling and then reversing an award: the reversal is accepted, the award's player is in
      the hand, and ledger and live state still agree exactly when the award was no more than
      that player's own commitment. */
  lemma ReversingAwardAgreesIff(d: Deal, b: Book, payouts: seq<PotPayout>, e: EntryId)
    requires NamedDeal(d) && Sound(d, b) && Commits(b, Settle(payouts)) && WellFormed(payouts)
    requires |b.ledger| <= e < |Do(b, Settle(payouts)).ledger| - 1
    ensures var m := Do(b, Settle(payouts));
            var row := m.ledger[e];
            && row.kind == PayoutAwarded && Named(row.player)
            && Commits(m, Reverse(e))
            && var i := IndexOf(m.hand.players, row.player.value);
               && i < |m.hand.players|
               && (Agrees(d, Do(m, Reverse(e))) <==> AmountOf(row) <= m.hand.players[i].hand)
  {
    var m := Do(b, Settle(payouts));
    SettlementEnds(d, b, payouts);
    var j, w := AwardOf(payouts, |b.ledger|, e - |b.ledger|);
    AwardedPlayer(d, b, payouts, j, w);
    AwardReversed(d, m, e, w);
  }

  lemma AwardedPlayer(d: Deal, b: Book, payouts: seq<PotPayout>, j: nat, w: Share)
    requires NamedDeal(d) && Sound(d, b) && Commits(b, Settle(payouts)) && WellFormed(payouts)
    requires j < |payouts| && w in payouts[j].winners
    ensures w.amount > 0 && w.id != ""
    ensures IndexOf(Do(b, Settle(payouts)).hand.players, w.id) < |b.hand.players|
  {
    SoundIsBalanced(d, b);
    OnlyEligiblePlayersArePaid(b.hand, payouts, j, w);
    var i := IndexOf(b.hand.players, w.id);
    assert PlayerAgrees(b.ledger, d.seats[i], b.hand.players[i]);
    SettledLedger(b, payouts);
    BookNames(d, b);
    PayoutsRaise(b.hand.players, payouts);
    assert payouts[j] in payouts;
    assert PayAll(b.hand.players, payouts)[i].id == w.id;
  }
}
