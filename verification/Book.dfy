/** The live hand together with its ledger, and every command that changes both: bets,
    street advances, settlement and the dealer's corrections. */
module Book {
  import opened Basics
  import opened HandTypes
  import opened ActionPipeline
  import opened BlindPosting
  import opened StreetProgression
  import opened Settlement
  import opened Ledger

  datatype Book = Book(hand: Hand, ledger: seq<LedgerRow>)

  datatype Op =
    | PlaceBet(id: PlayerId, action: Action, amount: int)
    | Advance
    | Settle(payouts: seq<PotPayout>)
    | Reopen
    | Adjust(id: PlayerId, amount: int)
    | CorrectPayout(oldId: PlayerId, oldAmount: int, newId: PlayerId, newAmount: int)
    | Reverse(entry: EntryId)

  /** The check constraints of the two tables; a commit that breaks one is rolled back. */
  predicate RowsLegal(h: Hand)
  {
    && h.round.pot >= 0
    && forall i :: 0 <= i < |h.players| ==>
         h.players[i].stack >= 0 && h.players[i].street >= 0 && h.players[i].hand >= 0
  }

  /** A row as appended: its id is fresh. */
  function Entry(ledger: seq<LedgerRow>, kind: EntryType, player: Option<PlayerId>, amount: Option<int>,
                 original: Option<EntryId>): LedgerRow
  {
    LedgerRow(|ledger|, kind, player, amount, None, original)
  }

  function BetEntry(ledger: seq<LedgerRow>, id: PlayerId, amount: int): LedgerRow
  {
    Entry(ledger, BetPlaced, Some(id), Some(amount), None)
  }

  function AwardEntry(id: EntryId, w: Share): LedgerRow
  {
    LedgerRow(id, PayoutAwarded, Some(w.id), Some(w.amount), None, None)
  }

  /** One PAYOUT_AWARDED row per winner share, in the order they are paid; ids from `n` on. */
  function ShareEntries(shares: seq<Share>, n: nat): (rows: seq<LedgerRow>)
    ensures |rows| == |shares|
  {
    if shares == [] then []
    else
      var w := shares[|shares| - 1];
      ShareEntries(shares[..|shares| - 1], n) + [AwardEntry(n + |shares| - 1, w)]
  }

  function PayoutEntries(payouts: seq<PotPayout>, n: nat): seq<LedgerRow>
  {
    if payouts == [] then []
    else
      var front := PayoutEntries(payouts[..|payouts| - 1], n);
      front + ShareEntries(payouts[|payouts| - 1].winners, n + |front|)
  }

  function CompletionEntry(id: EntryId, pot: int): LedgerRow
  {
    LedgerRow(id, RoundCompleted, None, Some(pot), None, None)
  }

  function SettleEntries(h: Hand, payouts: seq<PotPayout>, n: nat): seq<LedgerRow>
  {
    var paid := PayoutEntries(payouts, n);
    paid + [CompletionEntry(n + |paid|, h.round.pot)]
  }

  function CorrectionEntry(ledger: seq<LedgerRow>, oldId: PlayerId, oldAmount: int, newId: PlayerId,
                           newAmount: int): LedgerRow
  {
    LedgerRow(|ledger|, PayoutCorrected, Some(newId), Some(newAmount),
              Some(Detail(None, Some(oldId), Some(oldAmount))), None)
  }

  /** A payout correction on the stacks: take the old award back, give the new one. */
  function Repaid(ps: seq<PlayerState>, oldId: PlayerId, oldAmount: int, newId: PlayerId, newAmount: int)
    : seq<PlayerState>
  {
    AddStack(AddStack(ps, oldId, -oldAmount), newId, newAmount)
  }

  predicate AlreadyReversed(ledger: seq<LedgerRow>, e: EntryId)
  {
    exists k :: 0 <= k < |ledger| && ledger[k].kind == ActionReversed && ledger[k].original == Some(e)
  }

  /** The live effect of reversing an entry: give the chips back, with zero clamps. */
  function Returned(h: Hand, e: LedgerRow): Hand
  {
    var amt := AmountOf(e);
    if !Named(e.player) || amt <= 0 then h
    else
      var i := IndexOf(h.players, e.player.value);
      Hand(h.round.(pot := Max(0, h.round.pot - amt)),
           if i < |h.players| then
             var p := h.players[i];
             h.players[i := p.(stack := p.stack + amt, street := Max(0, p.street - amt), hand := Max(0, p.hand - amt))]
           else h.players)
  }

  function BetPlacedOn(b: Book, id: PlayerId, action: Action, amount: int): Option<Book>
  {
    match ApplyAction(b.hand, id, action, amount, None)
    case Err(_) => None
    case Ok(a) => Some(Book(a.hand, b.ledger + [BetEntry(b.ledger, id, a.amount)]))
  }

  function Settled(b: Book, payouts: seq<PotPayout>): Option<Book>
  {
    match ResolveHand(b.hand, payouts)
    case Err(_) => None
    case Ok(h) => Some(Book(h, b.ledger + SettleEntries(b.hand, payouts, |b.ledger|)))
  }

  /** What each command would commit; `None` when it is refused. */
  function Proposed(b: Book, op: Op): Option<Book>
  {
    match op
    case PlaceBet(id, action, amount) => BetPlacedOn(b, id, action, amount)
    case Advance =>
      (match AdvanceStreet(b.hand) case Err(_) => None case Ok(h) => Some(Book(h, b.ledger)))
    case Settle(payouts) => Settled(b, payouts)
    case Reopen =>
      if b.hand.round.status != Completed then None
      else Some(Book(b.hand.(round := b.hand.round.(status := Active, closed := false, stamped := false)),
                     b.ledger + [Entry(b.ledger, HandReopened, None, None, None)]))
    case Adjust(id, amount) =>
      Some(Book(b.hand.(players := AddStack(b.hand.players, id, amount)),
                b.ledger + [Entry(b.ledger, StackAdjusted, Some(id), Some(amount), None)]))
    case CorrectPayout(oldId, oldAmount, newId, newAmount) =>
      Some(Book(b.hand.(players := Repaid(b.hand.players, oldId, oldAmount, newId, newAmount)),
                b.ledger + [CorrectionEntry(b.ledger, oldId, oldAmount, newId, newAmount)]))
    case Reverse(e) =>
      if e >= |b.ledger| || IsCorrection(b.ledger[e].kind) || AlreadyReversed(b.ledger, e) then None
      else
        var original := b.ledger[e];
        Some(Book(Returned(b.hand, original),
                  b.ledger + [Entry(b.ledger, ActionReversed, original.player, original.amount, Some(e))]))
  }

  predicate Commits(b: Book, op: Op)
  {
    var n := Proposed(b, op);
    n.Some? && RowsLegal(n.value.hand)
  }

  function Do(b: Book, op: Op): Book { if Commits(b, op) then Proposed(b, op).value else b }

  function DoAll(b: Book, ops: seq<Op>): Book
  {
    if ops == [] then b else Do(DoAll(b, ops[..|ops| - 1]), ops[|ops| - 1])
  }

  // --------------------------------------------------------------- starting a hand

  /** The rows `start_round` writes for the first `k` seats: one per seat that posted. */
  function PostingRows(d: Deal, k: nat): seq<LedgerRow>
    requires k <= |d.seats|
  {
    if k == 0 then []
    else
      var front, p := PostingRows(d, k - 1), PostOne(d, d.seats[k - 1]);
      if p.hand <= 0 then front else front + [PostingRow(d, |front|, p)]
  }

  function PostingRow(d: Deal, n: nat, p: PostedPlayer): LedgerRow
  {
    LedgerRow(n, if p.seat == d.smallSeat || p.seat == d.bigSeat then BlindPosted else AntePosted,
              Some(p.id), Some(p.hand), None, None)
  }

  function Opened(d: Deal): Book
    requires |d.seats| > 0
  {
    Book(StartRound(d), PostingRows(d, |d.seats|))
  }
}
