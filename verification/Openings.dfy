/** The first state of a hand and the rows it is opened with, told from the deal. */
module Openings {
  import opened Basics
  import opened HandTypes
  import opened TurnEngine
  import opened BlindPosting
  import opened HandMachine
  import opened Ledger
  import opened Book

  /** What a seat puts in before the first bet: the ante and its blind, as far as its chips go. */
  function Posted(d: Deal, s: SeatPlayer): int
  {
    Min(s.stack, d.ante + (if s.seat == d.smallSeat then d.small else if s.seat == d.bigSeat then d.big else 0))
  }

  ghost predicate DealtIn(d: Deal, s: SeatPlayer, p: PlayerState)
  {
    && p.id == s.id && p.seat == s.seat
    && p.stack == s.stack - Posted(d, s) && p.street == Posted(d, s) && p.hand == Posted(d, s)
    && p.active && !p.folded && (p.allIn <==> Posted(d, s) == s.stack)
  }

  /** Seat `i` acts first: the first dealt seat after the big blind, or the lowest seat when the
      big blind's is not dealt in. */
  ghost predicate OpensTheHand(d: Deal, i: int)
  {
    && 0 <= i < |d.seats|
    && if exists b :: 0 <= b < |d.seats| && d.seats[b].seat == d.bigSeat then
         forall k :: 0 <= k < |d.seats| && k != i ==> Precedes(d.bigSeat, d.seats[i].seat, d.seats[k].seat)
       else
         forall k :: 0 <= k < |d.seats| ==> d.seats[i].seat <= d.seats[k].seat
  }

  lemma SeatAfterBigBlind(d: Deal)
    requires DealOk(d)
    ensures OpensTheHand(d, FirstActorIndex(d))
  {
    var b := SeatIndex(d.seats, d.bigSeat);
    var i := FirstActorIndex(d);
    if b < |d.seats| {
      OnwardIsModulo(b, 1, |d.seats|);
      forall k | 0 <= k < |d.seats| && k != i ensures Precedes(d.bigSeat, d.seats[i].seat, d.seats[k].seat) {
        assert b < k ==> d.seats[b].seat < d.seats[k].seat;
        assert k < b ==> d.seats[k].seat < d.seats[b].seat;
      }
    }
  }

  /** A hand opens before the flop with everybody dealt in, the blinds and antes posted, the pot
      what was posted, the highest bet the most any seat posted, the minimum raise the big
      blind, nobody the aggressor, and the first seat after the big blind to act. */
  lemma FirstStateOfAHand(d: Deal)
    requires DealOk(d)
    ensures var h := StartRound(d);
            && |h.players| == |d.seats|
            && (forall i :: 0 <= i < |d.seats| ==> DealtIn(d, d.seats[i], h.players[i]))
            && h.round.status == Active && h.round.street == PreFlop && h.round.dealerSeat == d.dealerSeat
            && h.round.bigBlind == d.big && h.round.minRaise == d.big
            && h.round.pot == SumBy(h.players, CommitOf) && IsHighest(h.players, h.round.highest)
            && h.round.aggressor == None && !h.round.closed && !h.round.stamped && h.round.version == 1
            && exists i :: OpensTheHand(d, i) && h.round.actor == Some(d.seats[i].id)
  {
    StartPlayersOk(d);
    StartHighest(d);
    SeatAfterBigBlind(d);
    forall i | 0 <= i < |d.seats| ensures DealtIn(d, d.seats[i], StartRound(d).players[i]) {
      PostingIsCapped(d, d.seats[i]);
    }
  }

  // ------------------------------------------------------------------ the opening rows

  /** The row of a seat that posted: a blind for the two blind seats, an ante for the others. */
  ghost predicate RowOfSeat(d: Deal, s: SeatPlayer, e: LedgerRow)
  {
    && Posted(d, s) > 0
    && e.kind == (if s.seat == d.smallSeat || s.seat == d.bigSeat then BlindPosted else AntePosted)
    && e.player == Some(s.id) && e.amount == Some(Posted(d, s)) && e.detail == None && e.original == None
  }

  ghost predicate HasRow(d: Deal, rows: seq<LedgerRow>, s: SeatPlayer)
  {
    exists j :: 0 <= j < |rows| && RowOfSeat(d, s, rows[j])
  }

  ghost predicate IsPosting(d: Deal, k: nat, e: LedgerRow)
    requires k <= |d.seats|
  {
    exists i :: 0 <= i < k && RowOfSeat(d, d.seats[i], e)
  }

  ghost predicate NobodyTwice(rows: seq<LedgerRow>)
  {
    forall a, b :: 0 <= a < b < |rows| ==> rows[a].player != rows[b].player
  }

  lemma LastSeatPosts(d: Deal, k: nat)
    requires DealOk(d) && 0 < k <= |d.seats|
    ensures var front, rows, s := PostingRows(d, k - 1), PostingRows(d, k), d.seats[k - 1];
            if Posted(d, s) > 0
            then |rows| == |front| + 1 && rows[..|front|] == front && rows[|front|].id == |front|
                 && RowOfSeat(d, s, rows[|front|])
            else rows == front
  {
    PostingIsCapped(d, d.seats[k - 1]);
  }

  lemma {:induction false} RowsArePostings(d: Deal, k: nat)
    requires DealOk(d) && k <= |d.seats|
    ensures var rows := PostingRows(d, k);
            forall j :: 0 <= j < |rows| ==> rows[j].id == j && IsPosting(d, k, rows[j])
  {
    if k > 0 {
      RowsArePostings(d, k - 1);
      LastSeatPosts(d, k);
      var front, rows := PostingRows(d, k - 1), PostingRows(d, k);
      forall j | 0 <= j < |front| ensures rows[j] == front[j] && IsPosting(d, k, front[j]) {
        assert rows[j] == rows[..|front|][j];
        var i :| 0 <= i < k - 1 && RowOfSeat(d, d.seats[i], front[j]);
      }
    }
  }

  lemma {:induction false} NobodyPostsTwice(d: Deal, k: nat)
    requires DealOk(d) && k <= |d.seats|
    ensures NobodyTwice(PostingRows(d, k))
  {
    if k > 0 {
      NobodyPostsTwice(d, k - 1);
      RowsArePostings(d, k - 1);
      LastSeatPosts(d, k);
      var front, rows := PostingRows(d, k - 1), PostingRows(d, k);
      forall j | 0 <= j < |front| ensures rows[j] == front[j] && front[j].player != Some(d.seats[k - 1].id) {
        assert rows[j] == rows[..|front|][j];
        var i :| 0 <= i < k - 1 && RowOfSeat(d, d.seats[i], front[j]);
      }
    }
  }

  lemma {:induction false} SeatsThatPosted(d: Deal, k: nat, i: nat)
    requires DealOk(d) && i < k <= |d.seats| && Posted(d, d.seats[i]) > 0
    ensures HasRow(d, PostingRows(d, k), d.seats[i])
  {
    LastSeatPosts(d, k);
    var front, rows := PostingRows(d, k - 1), PostingRows(d, k);
    if i < k - 1 {
      SeatsThatPosted(d, k - 1, i);
      var j :| 0 <= j < |front| && RowOfSeat(d, d.seats[i], front[j]);
      assert rows[..|front|][j] == rows[j];
    }
  }

  /** A new hand's ledger holds one row for each seat that posted, naming what it posted, and
      nothing else. */
  lemma OpeningRows(d: Deal)
    requires DealOk(d)
    ensures var rows := Opened(d).ledger;
            && (forall j :: 0 <= j < |rows| ==> rows[j].id == j && IsPosting(d, |d.seats|, rows[j]))
            && (forall i :: 0 <= i < |d.seats| ==> (Posted(d, d.seats[i]) > 0 <==> HasRow(d, rows, d.seats[i])))
            && NobodyTwice(rows)
  {
    var rows := Opened(d).ledger;
    assert rows == PostingRows(d, |d.seats|);
    RowsArePostings(d, |d.seats|);
    NobodyPostsTwice(d, |d.seats|);
    forall i | 0 <= i < |d.seats| && Posted(d, d.seats[i]) > 0 ensures HasRow(d, rows, d.seats[i]) {
      SeatsThatPosted(d, |d.seats|, i);
    }
  }
}
