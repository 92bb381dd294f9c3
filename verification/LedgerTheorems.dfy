/** Over whole runs: the ledger stays well kept, reversals cancel, the zero clamps never take
    effect, and the replay agrees with the live hand. */
module LedgerTheorems {
  import opened Basics
  import opened HandTypes
  import opened ActionPipeline
  import opened BlindPosting
  import opened StreetProgression
  import opened Settlement
  import opened Ledger
  import opened LedgerFlags
  import opened Book
  import opened EventSourcing
  import HandMachine

  // -------------------------------------------------------------- a well-kept ledger

  predicate Seats(d: Deal, p: Option<PlayerId>)
  {
    p.Some? && exists i :: 0 <= i < |d.seats| && d.seats[i].id == p.value
  }

  /** Row `k` of a ledger: its id is its position; a wager is a non-negative amount of a
      player of the hand; a reversal undoes an earlier wager. */
  ghost predicate RowOk(d: Deal, ledger: seq<LedgerRow>, k: nat)
    requires k < |ledger|
  {
    var e := ledger[k];
    && e.id == k
    && (IsWager(e.kind) ==> AmountOf(e) >= 0 && Seats(d, e.player))
    && (e.kind == ActionReversed ==>
          e.original.Some? && e.original.value < k
          && IsWager(ledger[e.original.value].kind) && Reverses(e, ledger[e.original.value]))
  }

  /** No entry is reversed twice. */
  ghost predicate ReversedOnce(ledger: seq<LedgerRow>)
  {
    forall j, k :: 0 <= j < k < |ledger| && ledger[j].kind == ActionReversed && ledger[k].kind == ActionReversed ==>
      ledger[j].original != ledger[k].original
  }

  ghost predicate LedgerOk(d: Deal, ledger: seq<LedgerRow>)
  {
    (forall k :: 0 <= k < |ledger| ==> RowOk(d, ledger, k)) && ReversedOnce(ledger)
  }

  lemma LedgerOkFront(d: Deal, ledger: seq<LedgerRow>)
    requires LedgerOk(d, ledger) && ledger != []
    ensures LedgerOk(d, ledger[..|ledger| - 1])
  {
    var front := ledger[..|ledger| - 1];
    forall k | 0 <= k < |front| ensures RowOk(d, front, k) {
      assert RowOk(d, ledger, k);
    }
  }

  /** Appending a row that undoes nothing. */
  lemma LedgerOkAppend(d: Deal, ledger: seq<LedgerRow>, e: LedgerRow)
    requires LedgerOk(d, ledger) && e.id == |ledger| && e.kind != ActionReversed
    requires IsWager(e.kind) ==> AmountOf(e) >= 0 && Seats(d, e.player)
    ensures LedgerOk(d, ledger + [e])
  {
    forall k | 0 <= k < |ledger + [e]| ensures RowOk(d, ledger + [e], k) {
      if k < |ledger| {
        assert RowOk(d, ledger, k);
      }
    }
  }

  lemma ReversedIdsMeaning(ledger: seq<LedgerRow>, e: EntryId)
    ensures AlreadyReversed(ledger, e) <==> e in Rebuild(ledger).reversedIds
  {
    ReversedIdsAre(ledger, e);
    if k :| 0 <= k < |ledger| && ledger[k].kind == ActionReversed && ledger[k].original == Some(e) {
      assert ReversesAt(ledger, k, e);
    }
  }

  // --------------------------------------------------------------- reversals cancel

  /** What an entry still stands for once the entries in `gone` have been reversed. */
  function StandingShare(gone: set<EntryId>, p: PlayerId): LedgerRow -> int
  {
    (e: LedgerRow) => if IsWager(e.kind) && e.id !in gone && Names(e.player, p) then AmountOf(e) else 0
  }

  lemma {:induction false} SumDiffersAt<T>(s: seq<T>, k: nat, f: T -> int, g: T -> int)
    requires k < |s| && forall i :: 0 <= i < |s| && i != k ==> f(s[i]) == g(s[i])
    ensures SumBy(s, g) == SumBy(s, f) - f(s[k]) + g(s[k])
  {
    if k == 0 {
      assert forall i :: 0 <= i < |s[1..]| ==> s[1..][i] == s[i + 1];
      SumByPointwise(s[1..], f, s[1..], g);
    } else {
      assert forall i :: 0 <= i < |s[1..]| ==> s[1..][i] == s[i + 1];
      SumDiffersAt(s[1..], k - 1, f, g);
    }
  }

  /** A player's replayed commitment is the sum of the wagers that were not reversed. */
  ghost predicate OnlyStanding(ledger: seq<LedgerRow>, p: PlayerId)
  {
    SumBy(ledger, CommittedShare(p)) == SumBy(ledger, StandingShare(Rebuild(ledger).reversedIds, p))
  }

  lemma StandingStep(d: Deal, front: seq<LedgerRow>, e: LedgerRow, p: PlayerId)
    requires LedgerOk(d, front + [e]) && LedgerOk(d, front) && OnlyStanding(front, p)
    ensures OnlyStanding(front + [e], p)
  {
    var ledger, n := front + [e], |front|;
    assert ledger[..n] == front && ledger[n] == e && RowOk(d, ledger, n);
    SumByAppend(front, e, CommittedShare(p));
    SumByAppend(front, e, StandingShare(Rebuild(ledger).reversedIds, p));
    if e.kind == ActionReversed {
      ReversalRemoves(d, front, e, p);
    } else {
      assert Rebuild(ledger).reversedIds == Rebuild(front).reversedIds;
      NotYetReversed(d, front, n);
    }
  }

  /** This holds of every well-kept ledger: each reversal cancels its entry, wherever the two
      sit. */
  lemma {:induction false} OnlyStandingWagersCount(d: Deal, ledger: seq<LedgerRow>, p: PlayerId)
    requires LedgerOk(d, ledger)
    ensures OnlyStanding(ledger, p)
  {
    if ledger != [] {
      var front, e := ledger[..|ledger| - 1], ledger[|ledger| - 1];
      LedgerOkFront(d, ledger);
      OnlyStandingWagersCount(d, front, p);
      assert ledger == front + [e];
      StandingStep(d, front, e, p);
    }
  }

  lemma NotYetReversed(d: Deal, ledger: seq<LedgerRow>, n: EntryId)
    requires LedgerOk(d, ledger) && n >= |ledger|
    ensures n !in Rebuild(ledger).reversedIds
  {
    ReversedIdsMeaning(ledger, n);
    forall k | 0 <= k < |ledger| && ledger[k].kind == ActionReversed ensures ledger[k].original != Some(n) {
      assert RowOk(d, ledger, k);
    }
  }

  lemma ReversalRemoves(d: Deal, front: seq<LedgerRow>, e: LedgerRow, p: PlayerId)
    requires LedgerOk(d, front + [e]) && LedgerOk(d, front) && e.kind == ActionReversed
    ensures var gone := Rebuild(front).reversedIds;
            e.original.Some? &&
            SumBy(front, StandingShare(gone + {e.original.value}, p))
              == SumBy(front, StandingShare(gone, p)) + CommittedShare(p)(e)
  {
    var ledger, n := front + [e], |front|;
    assert ledger[n] == e && RowOk(d, ledger, n);
    var j := e.original.value;
    var gone := Rebuild(front).reversedIds;
    ReversedIdsMeaning(front, j);
    forall k | 0 <= k < |front| && front[k].kind == ActionReversed ensures front[k].original != Some(j) {
      assert ledger[k] == front[k];
    }
    forall i | 0 <= i < |front| ensures front[i].id == i {
      assert RowOk(d, front, i);
    }
    SumDiffersAt(front, j, StandingShare(gone, p), StandingShare(gone + {j}, p));
  }

  /** A wager that still stands is at most its player's replayed commitment. */
  lemma StandingFits(d: Deal, ledger: seq<LedgerRow>, e: EntryId)
    requires LedgerOk(d, ledger) && e < |ledger| && IsWager(ledger[e].kind) && !AlreadyReversed(ledger, e)
    requires Named(ledger[e].player)
    ensures 0 <= AmountOf(ledger[e]) <= Committed(ledger, ledger[e].player.value)
  {
    var p := ledger[e].player.value;
    var gone := Rebuild(ledger).reversedIds;
    RebuildIsSums(ledger, p);
    OnlyStandingWagersCount(d, ledger, p);
    ReversedIdsMeaning(ledger, e);
    assert RowOk(d, ledger, e);
    forall x | x in ledger ensures StandingShare(gone, p)(x) >= 0 {
      var k :| 0 <= k < |ledger| && ledger[k] == x;
      assert RowOk(d, ledger, k);
    }
    SumByNonNegative(ledger, StandingShare(gone, p));
    assert ledger[e] in ledger;
  }

  // ------------------------------------------------------------------ the invariant

  /** Agreement, the stored check constraints, and pot = sum of commitments. */
  ghost predicate Sound(d: Deal, b: Book)
  {
    && Agrees(d, b) && RowsLegal(b.hand) && LedgerOk(d, b.ledger)
    && b.hand.round.pot == SumBy(b.hand.players, CommitOf)
  }

  lemma InHandSeats(d: Deal, b: Book, id: PlayerId)
    requires Agrees(d, b) && IndexOf(b.hand.players, id) < |b.hand.players|
    ensures Seats(d, Some(id))
  {
    var i := IndexOf(b.hand.players, id);
    assert PlayerAgrees(b.ledger, d.seats[i], b.hand.players[i]);
  }

  /** A commit that appends one row, moves the live hand by what the row says and keeps
      pot = sum of commitments. */
  lemma AppendKeepsSound(d: Deal, b: Book, n: Hand, e: LedgerRow)
    requires NamedDeal(d) && Sound(d, b) && RowsLegal(n) && HandMovedBy([e], b.hand, n)
    requires SumBy(n.players, CommitOf) == n.round.pot
    requires e.id == |b.ledger| && e.kind != ActionReversed
    requires IsWager(e.kind) ==> AmountOf(e) >= 0 && Seats(d, e.player)
    ensures Sound(d, Book(n, b.ledger + [e]))
  {
    AgreementMoves(d, b, n, [e]);
    LedgerOkAppend(d, b.ledger, e);
  }

  lemma BetKeepsSound(d: Deal, b: Book, id: PlayerId, action: Action, amount: int)
    requires NamedDeal(d) && Sound(d, b) && Commits(b, PlaceBet(id, action, amount))
    ensures Sound(d, Do(b, PlaceBet(id, action, amount)))
  {
    BookNames(d, b);
    BetMoves(b, id, action, amount);
    var a := ApplyAction(b.hand, id, action, amount, None).value;
    var e := BetEntry(b.ledger, id, a.amount);
    InHandSeats(d, b, id);
    OneRow(e, id);
    AppendKeepsSound(d, b, a.hand, e);
  }

  lemma AdvanceKeepsSound(d: Deal, b: Book)
    requires NamedDeal(d) && Sound(d, b) && Commits(b, Advance)
    ensures Sound(d, Do(b, Advance))
  {
    AdvanceMoves(b.hand);
    AgreementMoves(d, b, AdvanceStreet(b.hand).value, []);
    assert b.ledger + [] == b.ledger;
  }

  lemma {:induction false} AwardRowsOk(d: Deal, ledger: seq<LedgerRow>, rows: seq<LedgerRow>)
    requires LedgerOk(d, ledger)
    requires forall k :: 0 <= k < |rows| ==>
      rows[k].id == |ledger| + k && !IsWager(rows[k].kind) && rows[k].kind != ActionReversed
    ensures LedgerOk(d, ledger + rows)
  {
    if rows == [] {
      assert ledger + rows == ledger;
    } else {
      var front, e := rows[..|rows| - 1], rows[|rows| - 1];
      AwardRowsOk(d, ledger, front);
      LedgerOkAppend(d, ledger + front, e);
      assert ledger + rows == ledger + front + [e];
    }
  }

  lemma {:induction false} ShareRowShape(shares: seq<Share>, n: nat)
    ensures forall k :: 0 <= k < |shares| ==>
      ShareEntries(shares, n)[k].id == n + k && ShareEntries(shares, n)[k].kind == PayoutAwarded
  {
    if shares != [] {
      ShareRowShape(shares[..|shares| - 1], n);
    }
  }

  lemma {:induction false} PayoutRowShape(payouts: seq<PotPayout>, n: nat)
    ensures forall k :: 0 <= k < |PayoutEntries(payouts, n)| ==>
      PayoutEntries(payouts, n)[k].id == n + k && PayoutEntries(payouts, n)[k].kind == PayoutAwarded
  {
    if payouts != [] {
      var front := PayoutEntries(payouts[..|payouts| - 1], n);
      PayoutRowShape(payouts[..|payouts| - 1], n);
      ShareRowShape(payouts[|payouts| - 1].winners, n + |front|);
    }
  }

  lemma SettleRowsOk(d: Deal, h: Hand, ledger: seq<LedgerRow>, payouts: seq<PotPayout>)
    requires LedgerOk(d, ledger)
    ensures LedgerOk(d, ledger + SettleEntries(h, payouts, |ledger|))
  {
    PayoutRowShape(payouts, |ledger|);
    AwardRowsOk(d, ledger, SettleEntries(h, payouts, |ledger|));
  }

  lemma SettleKeepsSound(d: Deal, b: Book, payouts: seq<PotPayout>)
    requires NamedDeal(d) && Sound(d, b) && Commits(b, Settle(payouts))
    ensures Sound(d, Do(b, Settle(payouts)))
  {
    BookNames(d, b);
    var rows := SettleEntries(b.hand, payouts, |b.ledger|);
    SettleMoves(b.hand, payouts, |b.ledger|);
    AgreementMoves(d, b, ResolveHand(b.hand, payouts).value, rows);
    SettleRowsOk(d, b.hand, b.ledger, payouts);
  }

  lemma ReopenKeepsSound(d: Deal, b: Book)
    requires NamedDeal(d) && Sound(d, b) && Commits(b, Reopen)
    ensures Sound(d, Do(b, Reopen))
  {
    ReopenMoves(b);
    AppendKeepsSound(d, b, Proposed(b, Reopen).value.hand, Entry(b.ledger, HandReopened, None, None, None));
  }

  lemma AdjustKeepsSound(d: Deal, b: Book, id: PlayerId, amount: int)
    requires NamedDeal(d) && Sound(d, b) && Commits(b, Adjust(id, amount))
    ensures Sound(d, Do(b, Adjust(id, amount)))
  {
    BookNames(d, b);
    AdjustMoves(b, id, amount);
    AppendKeepsSound(d, b, Proposed(b, Adjust(id, amount)).value.hand,
                     Entry(b.ledger, StackAdjusted, Some(id), Some(amount), None));
  }

  lemma CorrectedHandMoves(h: Hand, e: LedgerRow, oldId: PlayerId, oldAmount: int, newId: PlayerId, newAmount: int)
    requires IdsDistinct(h.players) && forall i :: 0 <= i < |h.players| ==> h.players[i].id != ""
    requires e.kind == PayoutCorrected && e.player == Some(newId) && AmountOf(e) == newAmount
    requires OldPlayer(e) == Some(oldId) && OldAmount(e) == oldAmount
    ensures HandMovedBy([e], h, h.(players := Repaid(h.players, oldId, oldAmount, newId, newAmount)))
    ensures SumBy(Repaid(h.players, oldId, oldAmount, newId, newAmount), CommitOf) == SumBy(h.players, CommitOf)
  {
    CorrectMoves(h.players, e, oldId, oldAmount, newId, newAmount);
    OneRow(e, "");
    assert PotShare(e) == 0;
  }

  lemma CorrectionCommits(b: Book, oldId: PlayerId, oldAmount: int, newId: PlayerId, newAmount: int)
    requires Commits(b, CorrectPayout(oldId, oldAmount, newId, newAmount))
    ensures var n := b.hand.(players := Repaid(b.hand.players, oldId, oldAmount, newId, newAmount));
            && RowsLegal(n)
            && Do(b, CorrectPayout(oldId, oldAmount, newId, newAmount))
               == Book(n, b.ledger + [CorrectionEntry(b.ledger, oldId, oldAmount, newId, newAmount)])
  {
  }

  lemma CorrectKeepsSound(d: Deal, b: Book, oldId: PlayerId, oldAmount: int, newId: PlayerId, newAmount: int)
    requires NamedDeal(d) && Sound(d, b) && Commits(b, CorrectPayout(oldId, oldAmount, newId, newAmount))
    ensures Sound(d, Do(b, CorrectPayout(oldId, oldAmount, newId, newAmount)))
  {
    var e := CorrectionEntry(b.ledger, oldId, oldAmount, newId, newAmount);
    BookNames(d, b);
    CorrectedHandMoves(b.hand, e, oldId, oldAmount, newId, newAmount);
    CorrectionCommits(b, oldId, oldAmount, newId, newAmount);
    AppendKeepsSound(d, b, b.hand.(players := Repaid(b.hand.players, oldId, oldAmount, newId, newAmount)), e);
  }

  // ------------------------------------------------------------------------ reversal

  /** Reversing any entry from an agreeing book keeps agreement exactly when the amount can
      be taken back in full: it is zero, or it belongs to a player, is no more than the pot
      and no more than that player's commitment. */
  lemma ReversalKeepsAgreementIff(d: Deal, b: Book, e: EntryId)
    requires NamedDeal(d) && Agrees(d, b) && RowsLegal(b.hand) && Commits(b, Reverse(e)) && b.ledger[e].id == e
    ensures Agrees(d, Do(b, Reverse(e))) <==> Fits(b.hand, b.ledger[e])
  {
    BookNames(d, b);
    var r := Entry(b.ledger, ActionReversed, b.ledger[e].player, b.ledger[e].amount, Some(e));
    ReverseMoves(b.hand, b.ledger[e], r);
    AgreementMoves(d, b, Returned(b.hand, b.ledger[e]), [r]);
  }

  /** The zero clamps never take effect on a blind, ante or bet that was not reversed yet. */
  lemma WagersAlwaysFit(d: Deal, b: Book, e: EntryId)
    requires NamedDeal(d) && Sound(d, b) && e < |b.ledger| && IsWager(b.ledger[e].kind) && !AlreadyReversed(b.ledger, e)
    ensures Fits(b.hand, b.ledger[e])
    ensures Named(b.ledger[e].player) && IndexOf(b.hand.players, b.ledger[e].player.value) < |b.hand.players|
  {
    var row := b.ledger[e];
    assert RowOk(d, b.ledger, e);
    var i :| 0 <= i < |d.seats| && d.seats[i].id == row.player.value;
    assert PlayerAgrees(b.ledger, d.seats[i], b.hand.players[i]);
    StandingFits(d, b.ledger, e);
    forall p | p in b.hand.players ensures 0 <= CommitOf(p) {
    }
    SumByNonNegative(b.hand.players, CommitOf);
    BookNames(d, b);
    assert IndexOf(b.hand.players, row.player.value) == i;
    assert b.hand.players[i] in b.hand.players;
  }

  lemma ReversalAppends(d: Deal, ledger: seq<LedgerRow>, e: EntryId)
    requires LedgerOk(d, ledger) && e < |ledger| && IsWager(ledger[e].kind) && !AlreadyReversed(ledger, e)
    ensures LedgerOk(d, ledger + [Entry(ledger, ActionReversed, ledger[e].player, ledger[e].amount, Some(e))])
  {
    var r := Entry(ledger, ActionReversed, ledger[e].player, ledger[e].amount, Some(e));
    assert RowOk(d, ledger, e);
    forall k | 0 <= k < |ledger + [r]| ensures RowOk(d, ledger + [r], k) {
      if k < |ledger| {
        assert RowOk(d, ledger, k);
      }
    }
  }

  lemma ReverseKeepsSound(d: Deal, b: Book, e: EntryId)
    requires NamedDeal(d) && Sound(d, b) && Commits(b, Reverse(e)) && IsWager(b.ledger[e].kind)
    ensures Sound(d, Do(b, Reverse(e)))
  {
    var row, n := b.ledger[e], Do(b, Reverse(e)).hand;
    assert RowOk(d, b.ledger, e);
    WagersAlwaysFit(d, b, e);
    ReversalKeepsAgreementIff(d, b, e);
    ReversalAppends(d, b.ledger, e);
    var i := IndexOf(b.hand.players, row.player.value);
    SumByUpdate(b.hand.players, i, n.players[i], CommitOf);
  }

  // ------------------------------------------------------------------- the first state

  /** Rows that commit `committed` for `p`, `pot` in all, and award or adjust nothing. */
  ghost predicate Posts(rows: seq<LedgerRow>, p: PlayerId, committed: int, pot: int)
  {
    && SumBy(rows, PotShare) == pot && SumBy(rows, CommittedShare(p)) == committed
    && SumBy(rows, WonShare(p)) == 0 && SumBy(rows, AdjustedShare(p)) == 0
  }

  lemma PostsAdd(rows: seq<LedgerRow>, e: LedgerRow, p: PlayerId, committed: int, pot: int)
    requires Posts(rows, p, committed, pot) && IsWager(e.kind)
    ensures Posts(rows + [e], p, committed + (if Names(e.player, p) then AmountOf(e) else 0), pot + AmountOf(e))
  {
    SumByAppend(rows, e, PotShare);
    SumByAppend(rows, e, CommittedShare(p));
    SumByAppend(rows, e, WonShare(p));
    SumByAppend(rows, e, AdjustedShare(p));
  }

  lemma PostedGrows(d: Deal, k: nat)
    requires NamedDeal(d) && 0 < k <= |d.seats|
    ensures SumBy(PostAll(d)[..k], PostedOf) == SumBy(PostAll(d)[..k - 1], PostedOf) + PostOne(d, d.seats[k - 1]).hand
    ensures PostOne(d, d.seats[k - 1]).hand >= 0
  {
    PostingIsCapped(d, d.seats[k - 1]);
    assert PostAll(d)[..k] == PostAll(d)[..k - 1] + [PostAll(d)[k - 1]];
    SumByAppend(PostAll(d)[..k - 1], PostAll(d)[k - 1], PostedOf);
  }

  lemma PostingRowNames(d: Deal, n: nat, k: nat, i: nat)
    requires NamedDeal(d) && k < |d.seats| && i < |d.seats|
    ensures var e := PostingRow(d, n, PostOne(d, d.seats[k]));
            && IsWager(e.kind) && AmountOf(e) == PostOne(d, d.seats[k]).hand
            && (Names(e.player, d.seats[i].id) <==> i == k)
  {
    assert i < k ==> d.seats[i].id != d.seats[k].id;
    assert k < i ==> d.seats[k].id != d.seats[i].id;
  }

  /** The rows of the first `k` seats account for those seats' posts. */
  ghost predicate PostsUpTo(d: Deal, k: nat, i: nat)
    requires k <= |d.seats| && i < |d.seats|
  {
    Posts(PostingRows(d, k), d.seats[i].id, if i < k then PostOne(d, d.seats[i]).hand else 0,
          SumBy(PostAll(d)[..k], PostedOf))
  }

  lemma OneMorePosting(d: Deal, k: nat, i: nat)
    requires NamedDeal(d) && k < |d.seats| && i < |d.seats| && PostsUpTo(d, k, i)
    ensures PostsUpTo(d, k + 1, i)
  {
    var p, rows := PostOne(d, d.seats[k]), PostingRows(d, k);
    PostedGrows(d, k + 1);
    if p.hand > 0 {
      PostingRowNames(d, |rows|, k, i);
      PostsAdd(rows, PostingRow(d, |rows|, p), d.seats[i].id, if i < k then PostOne(d, d.seats[i]).hand else 0,
               SumBy(PostAll(d)[..k], PostedOf));
    }
  }

  lemma {:induction false} PostingRowsAddUp(d: Deal, k: nat, i: nat)
    requires NamedDeal(d) && k <= |d.seats| && i < |d.seats|
    ensures PostsUpTo(d, k, i)
  {
    if k > 0 {
      PostingRowsAddUp(d, k - 1, i);
      OneMorePosting(d, k - 1, i);
    }
  }

  lemma {:induction false} PostingRowsOk(d: Deal, k: nat)
    requires NamedDeal(d) && k <= |d.seats|
    ensures LedgerOk(d, PostingRows(d, k))
  {
    if k > 0 {
      PostingRowsOk(d, k - 1);
      var p, front := PostOne(d, d.seats[k - 1]), PostingRows(d, k - 1);
      if p.hand > 0 {
        LedgerOkAppend(d, front, PostingRow(d, |front|, p));
      }
    }
  }

  lemma OpenedIsSound(d: Deal)
    requires NamedDeal(d)
    ensures Sound(d, Opened(d))
  {
    var b, n := Opened(d), |d.seats|;
    HandMachine.StartIsOk(d);
    PostingRowsOk(d, n);
    PostingRowsAddUp(d, n, 0);
    assert PostAll(d)[..n] == PostAll(d);
    forall i | 0 <= i < n
      ensures PlayerAgrees(b.ledger, d.seats[i], b.hand.players[i])
      ensures b.hand.players[i].stack >= 0 && b.hand.players[i].street >= 0 && b.hand.players[i].hand >= 0
    {
      PostingRowsAddUp(d, n, i);
      RebuildIsSums(b.ledger, d.seats[i].id);
      assert HandMachine.PlayerOk(b.hand.players[i], d.seats[i]);
    }
    RebuildIsSums(b.ledger, "");
    forall p | p in b.hand.players ensures 0 <= CommitOf(p) {
    }
    SumByNonNegative(b.hand.players, CommitOf);
  }

  // --------------------------------------------------------------------------- all runs

  /** Only blind, ante and bet entries are reversed along the run. */
  predicate ReversesOnlyWagers(b: Book, ops: seq<Op>)
  {
    ops == [] ||
    var front, op := ops[..|ops| - 1], ops[|ops| - 1];
    var at := DoAll(b, front);
    && ReversesOnlyWagers(b, front)
    && (op.Reverse? && Commits(at, op) ==> IsWager(at.ledger[op.entry].kind))
  }

  lemma DoKeepsSound(d: Deal, b: Book, op: Op)
    requires NamedDeal(d) && Sound(d, b)
    requires op.Reverse? && Commits(b, op) ==> IsWager(b.ledger[op.entry].kind)
    ensures Sound(d, Do(b, op))
  {
    if Commits(b, op) {
      match op
      case PlaceBet(id, action, amount) => BetKeepsSound(d, b, id, action, amount);
      case Advance => AdvanceKeepsSound(d, b);
      case Settle(payouts) => SettleKeepsSound(d, b, payouts);
      case Reopen => ReopenKeepsSound(d, b);
      case Adjust(id, amount) => AdjustKeepsSound(d, b, id, amount);
      case CorrectPayout(oldId, oldAmount, newId, newAmount) =>
        CorrectKeepsSound(d, b, oldId, oldAmount, newId, newAmount);
      case Reverse(e) => ReverseKeepsSound(d, b, e);
    }
  }

  /** Event sourcing: after any run of bets, street advances, settlements, reopenings, stack
      adjustments, payout corrections and reversals of blind, ante and bet entries, each
      player's live stack is the starting stack minus what the ledger replays as committed
      plus won plus adjusted, the live commitment is the replayed one, and so is the pot;
      no entry was reversed twice. */
  lemma {:induction false} LedgerAndLiveAgree(d: Deal, ops: seq<Op>)
    requires NamedDeal(d) && ReversesOnlyWagers(Opened(d), ops)
    ensures Sound(d, DoAll(Opened(d), ops))
  {
    OpenedIsSound(d);
    if ops != [] {
      LedgerAndLiveAgree(d, ops[..|ops| - 1]);
      DoKeepsSound(d, DoAll(Opened(d), ops[..|ops| - 1]), ops[|ops| - 1]);
    }
  }
}
