/** The commands in place, on the stored rows and the ledger of one hand: a bet, a street
    advance, a settlement and the dealer's corrections. Each appends its ledger rows and
    changes the stored rows, all before the one commit. */
module Commands {
  import opened Basics
  import opened HandTypes
  import opened Rows
  import opened Validator
  import opened ActionPipeline
  import opened StreetProgression
  import opened Settlement
  import opened Ledger
  import opened Book
  import CasProtocol

  datatype CorrectionError = EntryNotFound | CannotReverseCorrection | EntryAlreadyReversed | RoundNotCompleted

  /** A row of `round_payouts`. */
  datatype PayoutRow = PayoutRow(index: nat, id: PlayerId, amount: int)

  function RowAmount(r: PayoutRow): int { r.amount }

  function ShareRowsOf(index: nat, shares: seq<Share>): (rows: seq<PayoutRow>)
    ensures |rows| == |shares|
    ensures forall i :: 0 <= i < |shares| ==> rows[i] == PayoutRow(index, shares[i].id, shares[i].amount)
  {
    seq(|shares|, i requires 0 <= i < |shares| => PayoutRow(index, shares[i].id, shares[i].amount))
  }

  /** One payout row per winner of each submitted pot, in order. */
  function PayoutRowsOf(payouts: seq<PotPayout>): seq<PayoutRow>
  {
    if payouts == [] then []
    else
      var p := payouts[|payouts| - 1];
      PayoutRowsOf(payouts[..|payouts| - 1]) + ShareRowsOf(p.index, p.winners)
  }

  /** The payout rows carry exactly the chips that the settlement pays. */
  lemma {:induction false} PayoutRowsTotal(payouts: seq<PotPayout>)
    ensures SumBy(PayoutRowsOf(payouts), RowAmount) == TotalPaid(payouts)
  {
    if payouts != [] {
      var front, p := payouts[..|payouts| - 1], payouts[|payouts| - 1];
      PayoutRowsTotal(front);
      SumByConcat(PayoutRowsOf(front), ShareRowsOf(p.index, p.winners), RowAmount);
      SumByPointwise(ShareRowsOf(p.index, p.winners), RowAmount, p.winners, ShareAmount);
      assert payouts == front + [p];
      SumByAppend(front, p, PaidBy);
    }
  }

  /** The chips of a payout row, if it pays this player from this pot. */
  function RowOf(index: nat, id: PlayerId): PayoutRow -> int
  {
    (r: PayoutRow) => if r.index == index && r.id == id then r.amount else 0
  }

  /** The chips a submitted payout gives this player, if it draws on this pot. */
  function WonFromPot(index: nat, id: PlayerId): PotPayout -> int
  {
    (p: PotPayout) => if p.index == index then SumBy(p.winners, ShareTo(id)) else 0
  }

  lemma {:induction false} SharesOfPot(index: nat, shares: seq<Share>, pot: nat, id: PlayerId)
    ensures SumBy(ShareRowsOf(index, shares), RowOf(pot, id)) == if index == pot then SumBy(shares, ShareTo(id)) else 0
  {
    if shares != [] {
      SharesOfPot(index, shares[1..], pot, id);
      assert ShareRowsOf(index, shares)[1..] == ShareRowsOf(index, shares[1..]);
    }
  }

  /** Pot by pot and player by player, the payout rows carry what the request awards. */
  lemma {:induction false} PayoutRowsByPot(payouts: seq<PotPayout>, pot: nat, id: PlayerId)
    ensures SumBy(PayoutRowsOf(payouts), RowOf(pot, id)) == SumBy(payouts, WonFromPot(pot, id))
  {
    if payouts != [] {
      var front, p := payouts[..|payouts| - 1], payouts[|payouts| - 1];
      PayoutRowsByPot(front, pot, id);
      SumByConcat(PayoutRowsOf(front), ShareRowsOf(p.index, p.winners), RowOf(pot, id));
      SharesOfPot(p.index, p.winners, pot, id);
      assert payouts == front + [p];
      SumByAppend(front, p, WonFromPot(pot, id));
    }
  }

  // -------------------------------------------- what the payment loops have done so far

  /** From players `ps`, ledger `l` and payout rows `r`, paying `shares` of pot `index` led to
      `ps1`, `l1` and `r1`. */
  ghost predicate PaidShares(ps: seq<PlayerState>, l: seq<LedgerRow>, r: seq<PayoutRow>,
                             ps1: seq<PlayerState>, l1: seq<LedgerRow>, r1: seq<PayoutRow>,
                             index: nat, shares: seq<Share>)
  {
    && ps1 == PayShares(ps, shares)
    && l1 == l + ShareEntries(shares, |l|)
    && r1 == r + ShareRowsOf(index, shares)
  }

  /** The same for whole payouts. */
  ghost predicate Paid(ps: seq<PlayerState>, l: seq<LedgerRow>, r: seq<PayoutRow>,
                       ps1: seq<PlayerState>, l1: seq<LedgerRow>, r1: seq<PayoutRow>, payouts: seq<PotPayout>)
  {
    && ps1 == PayAll(ps, payouts)
    && l1 == l + PayoutEntries(payouts, |l|)
    && r1 == r + PayoutRowsOf(payouts)
  }

  lemma {:induction false} OneMoreShare(ps: seq<PlayerState>, l: seq<LedgerRow>, r: seq<PayoutRow>,
                                        ps1: seq<PlayerState>, l1: seq<LedgerRow>, r1: seq<PayoutRow>,
                                        index: nat, shares: seq<Share>, w: Share)
    requires PaidShares(ps, l, r, ps1, l1, r1, index, shares)
    ensures PaidShares(ps, l, r, AddStack(ps1, w.id, w.amount), l1 + [AwardEntry(|l1|, w)],
                       r1 + [PayoutRow(index, w.id, w.amount)], index, shares + [w])
  {
    assert (shares + [w])[..|shares|] == shares;
    assert ShareRowsOf(index, shares + [w]) == ShareRowsOf(index, shares) + [PayoutRow(index, w.id, w.amount)];
  }

  lemma {:induction false} OneMorePot(ps: seq<PlayerState>, l: seq<LedgerRow>, r: seq<PayoutRow>,
                                      ps1: seq<PlayerState>, l1: seq<LedgerRow>, r1: seq<PayoutRow>,
                                      ps2: seq<PlayerState>, l2: seq<LedgerRow>, r2: seq<PayoutRow>,
                                      payouts: seq<PotPayout>, p: PotPayout)
    requires Paid(ps, l, r, ps1, l1, r1, payouts)
    requires PaidShares(ps1, l1, r1, ps2, l2, r2, p.index, p.winners)
    ensures Paid(ps, l, r, ps2, l2, r2, payouts + [p])
  {
    assert (payouts + [p])[..|payouts|] == payouts;
  }

  /** The book after payment and completion, whoever checked the request. */
  ghost function Closed(b: Book, payouts: seq<PotPayout>): Book
  {
    Book(Hand(Completion(b.hand.round), PayAll(b.hand.players, payouts)),
         b.ledger + SettleEntries(b.hand, payouts, |b.ledger|))
  }

  lemma CompletionCloses(b: Book, r: seq<PayoutRow>, ps1: seq<PlayerState>, l1: seq<LedgerRow>, r1: seq<PayoutRow>,
                         payouts: seq<PotPayout>)
    requires Paid(b.hand.players, b.ledger, r, ps1, l1, r1, payouts)
    ensures Closed(b, payouts)
            == Book(Hand(Completion(b.hand.round), ps1), l1 + [CompletionEntry(|l1|, b.hand.round.pot)])
  {
    var rows := PayoutEntries(payouts, |b.ledger|);
    var e := CompletionEntry(|l1|, b.hand.round.pot);
    assert (b.ledger + rows) + [e] == b.ledger + (rows + [e]);
  }

  lemma AcceptedIsClosed(b: Book, payouts: seq<PotPayout>)
    ensures Settled(b, payouts) == if Refusal(b.hand, payouts).None? then Some(Closed(b, payouts)) else None
  {
  }

  /** The stored round, its player rows, its ledger, its bet rows and its payout rows. */
  class LiveHand {
    const round: Round
    const rows: seq<RoundPlayer>
    var ledger: seq<LedgerRow>
    var bets: seq<CasProtocol.BetRow>
    var paid: seq<PayoutRow>

    constructor (round: Round, rows: seq<RoundPlayer>, ledger: seq<LedgerRow>)
      requires RowsDistinct(rows)
      ensures Valid() && this.round == round && this.rows == rows && View() == Book(ViewHand(round, rows), ledger)
      ensures bets == [] && paid == []
    {
      this.round, this.rows, this.ledger, this.bets, this.paid := round, rows, ledger, [], [];
    }

    ghost predicate Valid() { RowsDistinct(rows) }

    ghost function View(): Book
      reads this, round, rows
    {
      Book(ViewHand(round, rows), ledger)
    }

    // ------------------------------------------------------------- play and settlement

    /** `record_bet_action`: the bet row and the ledger row of an applied action. */
    method RecordBet(id: PlayerId, v: ValidatedAction, key: Option<string>)
      modifies this`ledger, this`bets
      ensures ledger == old(ledger) + [BetEntry(old(ledger), id, v.amount)]
      ensures bets == old(bets) + [CasProtocol.BetRow(id, v.action, v.amount, key)]
    {
      bets := bets + [CasProtocol.BetRow(id, v.action, v.amount, key)];
      ledger := ledger + [BetEntry(ledger, id, v.amount)];
    }

    method PlaceBet(id: PlayerId, action: Action, amount: int, key: Option<string>)
      returns (r: Result<ValidatedAction, BetError>)
      requires Valid()
      modifies this`ledger, this`bets, round, rows
      ensures match BetPlacedOn(old(View()), id, action, amount)
              case Some(n) =>
                && r.Ok? && View() == n
                && bets == old(bets) + [CasProtocol.BetRow(id, r.value.action, r.value.amount, key)]
              case None => r.Err? && View() == old(View()) && bets == old(bets)
      ensures r == ValidateBet(old(ViewHand(round, rows)), id, action, amount)
      ensures round.completedAt == old(round.completedAt)
    {
      r := RunApplyAction(round, rows, id, action, amount, None);
      if r.Ok? {
        RecordBet(id, r.value, key);
      }
    }

    method Advance() returns (e: Option<AdvanceError>)
      requires Valid()
      modifies round, rows
      ensures match Proposed(old(View()), Op.Advance)
              case Some(n) => e == None && View() == n
              case None => e.Some? && View() == old(View())
      ensures round.completedAt == old(round.completedAt)
    {
      e := RunAdvanceStreet(round, rows);
    }

    /** One winner: payout row, credit and ledger row. */
    method PayWinner(index: nat, w: Share)
      requires Valid()
      modifies this`ledger, this`paid, rows
      ensures ViewAll(rows) == AddStack(old(ViewAll(rows)), w.id, w.amount)
      ensures ledger == old(ledger) + [AwardEntry(|old(ledger)|, w)]
      ensures paid == old(paid) + [PayoutRow(index, w.id, w.amount)]
    {
      paid := paid + [PayoutRow(index, w.id, w.amount)];
      CreditRow(rows, w.id, w.amount);
      ledger := ledger + [AwardEntry(|ledger|, w)];
    }

    /** The inner payment loop. */
    method PayWinners(index: nat, winners: seq<Share>)
      requires Valid()
      modifies this`ledger, this`paid, rows
      ensures PaidShares(old(ViewAll(rows)), old(ledger), old(paid), ViewAll(rows), ledger, paid, index, winners)
    {
      ghost var players, entries, lines := ViewAll(rows), ledger, paid;
      for j := 0 to |winners|
        invariant PaidShares(players, entries, lines, ViewAll(rows), ledger, paid, index, winners[..j])
      {
        ghost var before, had, held := ViewAll(rows), ledger, paid;
        PayWinner(index, winners[j]);
        OneMoreShare(players, entries, lines, before, had, held, index, winners[..j], winners[j]);
        assert winners[..j + 1] == winners[..j] + [winners[j]];
      }
      assert winners[..|winners|] == winners;
    }

    /** The outer payment loop. */
    method PayPots(payouts: seq<PotPayout>)
      requires Valid()
      modifies this`ledger, this`paid, rows
      ensures Paid(old(ViewAll(rows)), old(ledger), old(paid), ViewAll(rows), ledger, paid, payouts)
    {
      ghost var players, entries, lines := ViewAll(rows), ledger, paid;
      for i := 0 to |payouts|
        invariant Paid(players, entries, lines, ViewAll(rows), ledger, paid, payouts[..i])
      {
        ghost var before, had, held := ViewAll(rows), ledger, paid;
        PayWinners(payouts[i].index, payouts[i].winners);
        OneMorePot(players, entries, lines, before, had, held, ViewAll(rows), ledger, paid, payouts[..i], payouts[i]);
        assert payouts[..i + 1] == payouts[..i] + [payouts[i]];
      }
      assert payouts[..|payouts|] == payouts;
    }

    /** What follows the checks. */
    method PayAndComplete(payouts: seq<PotPayout>, now: int)
      requires Valid()
      modifies this`ledger, this`paid, round, rows
      ensures View() == Closed(old(View()), payouts)
      ensures paid == old(paid) + PayoutRowsOf(payouts) && round.completedAt == Some(now)
    {
      ghost var before, lines := View(), paid;
      PayPots(payouts);
      CompletionCloses(before, lines, ViewAll(rows), ledger, paid, payouts);
      CompleteRound(round, now);
      ledger := ledger + [CompletionEntry(|ledger|, round.pot)];
    }

    /** `resolve_hand`: the checks, the nested payment loops, the round's fields and the
        completion row. A refusal leaves everything as it was. */
    method ResolveHand(payouts: seq<PotPayout>, now: int) returns (e: Option<SettleError>)
      requires Valid()
      modifies this`ledger, this`paid, round, rows
      ensures e == Refusal(old(ViewHand(round, rows)), payouts)
      ensures match Settled(old(View()), payouts)
              case Some(n) => e == None && View() == n && paid == old(paid) + PayoutRowsOf(payouts)
              case None => e.Some? && View() == old(View()) && paid == old(paid)
      ensures round.completedAt == if e == None then Some(now) else old(round.completedAt)
    {
      e := RunRefusal(ViewHand(round, rows), payouts);
      AcceptedIsClosed(View(), payouts);
      if e.Some? {
        return;
      }
      PayAndComplete(payouts, now);
    }

    // ---------------------------------------------------------------------- corrections

    /** The rows marked as reversed so far, scanned in order. */
    method IsReversed(e: EntryId) returns (found: bool)
      ensures found <==> AlreadyReversed(ledger, e)
    {
      found := false;
      for k := 0 to |ledger|
        invariant found <==> exists j :: 0 <= j < k && ledger[j].kind == ActionReversed && ledger[j].original == Some(e)
      {
        if ledger[k].kind == ActionReversed && ledger[k].original == Some(e) {
          found := true;
        }
      }
    }

    method RepayRows(oldId: PlayerId, oldAmount: int, newId: PlayerId, newAmount: int)
      requires Valid()
      modifies rows
      ensures ViewAll(rows) == Repaid(old(ViewAll(rows)), oldId, oldAmount, newId, newAmount)
    {
      CreditRow(rows, oldId, -oldAmount);
      CreditRow(rows, newId, newAmount);
    }

    /** Hand the chips of `original` back to its player and out of the pot. */
    method GiveBack(original: LedgerRow)
      requires Valid()
      modifies round, rows
      ensures ViewHand(round, rows) == Returned(old(ViewHand(round, rows)), original)
      ensures round.completedAt == old(round.completedAt)
    {
      var amount := AmountOf(original);
      if Named(original.player) && amount > 0 {
        var i := IndexOf(ViewAll(rows), original.player.value);
        if i < |rows| {
          var row := rows[i];
          row.stack := row.stack + amount;
          row.street := Max(0, row.street - amount);
          row.hand := Max(0, row.hand - amount);
        }
        round.pot := Max(0, round.pot - amount);
      }
      assert ViewAll(rows) == Returned(old(ViewHand(round, rows)), original).players;
    }

    method ReverseAction(e: EntryId) returns (error: Option<CorrectionError>)
      requires Valid()
      modifies this`ledger, round, rows
      ensures match Proposed(old(View()), Reverse(e))
              case Some(n) => error == None && View() == n
              case None => error.Some? && View() == old(View())
      ensures error == Some(EntryNotFound) <==> e >= |old(ledger)|
      ensures error == Some(CannotReverseCorrection) <==> e < |old(ledger)| && IsCorrection(old(ledger)[e].kind)
      ensures error == Some(EntryAlreadyReversed) <==>
        e < |old(ledger)| && !IsCorrection(old(ledger)[e].kind) && AlreadyReversed(old(ledger), e)
      ensures error != Some(RoundNotCompleted) && round.completedAt == old(round.completedAt)
    {
      if e >= |ledger| {
        return Some(EntryNotFound);
      }
      var original := ledger[e];
      if IsCorrection(original.kind) {
        return Some(CannotReverseCorrection);
      }
      var reversed := IsReversed(e);
      if reversed {
        return Some(EntryAlreadyReversed);
      }
      ledger := ledger + [Entry(ledger, ActionReversed, original.player, original.amount, Some(e))];
      GiveBack(original);
      return None;
    }

    method AdjustStack(id: PlayerId, amount: int)
      requires Valid()
      modifies this`ledger, rows
      ensures Proposed(old(View()), Adjust(id, amount)) == Some(View())
    {
      ledger := ledger + [Entry(ledger, StackAdjusted, Some(id), Some(amount), None)];
      CreditRow(rows, id, amount);
    }

    method ReopenHand() returns (error: Option<CorrectionError>)
      requires Valid()
      modifies this`ledger, round
      ensures match Proposed(old(View()), Reopen)
              case Some(n) => error == None && View() == n
              case None => error == Some(RoundNotCompleted) && View() == old(View())
      ensures round.completedAt == if error == None then None else old(round.completedAt)
    {
      if round.status != Completed {
        return Some(RoundNotCompleted);
      }
      round.status := Active;
      round.closed := false;
      round.completedAt := None;
      ledger := ledger + [Entry(ledger, HandReopened, None, None, None)];
      return None;
    }

    method CorrectPayout(oldId: PlayerId, oldAmount: int, newId: PlayerId, newAmount: int)
      requires Valid()
      modifies this`ledger, rows
      ensures Proposed(old(View()), Op.CorrectPayout(oldId, oldAmount, newId, newAmount)) == Some(View())
    {
      ledger := ledger + [CorrectionEntry(ledger, oldId, oldAmount, newId, newAmount)];
      RepayRows(oldId, oldAmount, newId, newAmount);
    }
  }
}
