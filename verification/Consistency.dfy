/** What `verify_consistency` reports along the runs of a hand, and when it reports nothing. */
module Consistency {
  import opened Basics
  import opened HandTypes
  import opened BlindPosting
  import opened Ledger
  import opened HandHistory
  import opened Book
  import opened EventSourcing
  import opened LedgerTheorems

  // --------------------------------------------------------- whom a ledger mentions

  /** The rows that put a player into the replayed state: every kind but the street, the
      completion and the reopening, and a correction also for the old winner. */
  predicate RowNames(e: LedgerRow, p: PlayerId)
  {
    match e.kind
    case StreetDealt | RoundCompleted | HandReopened => false
    case PayoutCorrected => Names(e.player, p) || Names(OldPlayer(e), p)
    case BlindPosted | AntePosted | BetPlaced | PayoutAwarded | ActionReversed | StackAdjusted => Names(e.player, p)
  }

  predicate Mentioned(ledger: seq<LedgerRow>, p: PlayerId)
  {
    exists k :: 0 <= k < |ledger| && RowNames(ledger[k], p)
  }

  lemma EntryMentions(players: map<PlayerId, PlayerSnapshot>, e: LedgerRow, p: PlayerId)
    ensures p in PlayersAfter(players, e) <==> p in players || RowNames(e, p)
  {
  }

  lemma MentionedGrows(ledger: seq<LedgerRow>, e: LedgerRow, p: PlayerId)
    ensures Mentioned(ledger + [e], p) <==> Mentioned(ledger, p) || RowNames(e, p)
  {
    if k :| 0 <= k < |ledger| && RowNames(ledger[k], p) {
      assert (ledger + [e])[k] == ledger[k];
    }
    if RowNames(e, p) {
      assert (ledger + [e])[|ledger|] == e;
    }
  }

  /** The replayed state holds exactly the players that some row names. */
  lemma {:induction false} ReplayedAreMentioned(ledger: seq<LedgerRow>, p: PlayerId)
    ensures p in Rebuild(ledger).players <==> Mentioned(ledger, p)
  {
    if ledger != [] {
      var front, e := ledger[..|ledger| - 1], ledger[|ledger| - 1];
      assert ledger == front + [e];
      ReplayedAreMentioned(front, p);
      MentionedGrows(front, e, p);
      EntryMentions(Rebuild(front).players, e, p);
    }
  }

  // ------------------------------------------------------------------- the report

  function LiveCommitted(h: Hand): map<PlayerId, int>
    requires forall i, j :: 0 <= i < j < |h.players| ==> h.players[i].id != h.players[j].id
  {
    map i | 0 <= i < |h.players| :: h.players[i].id := h.players[i].hand
  }

  /** What the check reports on a book. */
  function Report(b: Book): set<Discrepancy>
    requires IdsDistinct(b.hand.players)
  {
    Discrepancies(Rebuild(b.ledger), b.hand.round.pot, LiveCommitted(b.hand))
  }

  lemma LiveAreSeated(d: Deal, b: Book, id: PlayerId)
    requires NamedDeal(d) && Agrees(d, b) && IdsDistinct(b.hand.players)
    ensures id in LiveCommitted(b.hand) <==> Seats(d, Some(id))
  {
    forall i | 0 <= i < |d.seats| ensures b.hand.players[i].id == d.seats[i].id {
      assert PlayerAgrees(b.ledger, d.seats[i], b.hand.players[i]);
    }
    if Seats(d, Some(id)) {
      var i :| 0 <= i < |d.seats| && d.seats[i].id == id;
      assert b.hand.players[i].id == id;
    }
  }

  lemma CommitmentsAgree(d: Deal, b: Book, id: PlayerId)
    requires NamedDeal(d) && Agrees(d, b) && IdsDistinct(b.hand.players)
    requires id in LiveCommitted(b.hand) && id in Rebuild(b.ledger).players
    ensures Rebuild(b.ledger).players[id].committed == LiveCommitted(b.hand)[id]
  {
    var i :| 0 <= i < |b.hand.players| && b.hand.players[i].id == id;
    assert PlayerAgrees(b.ledger, d.seats[i], b.hand.players[i]);
  }

  /** A seated player whom no row mentions, or a stranger whom some row mentions. */
  ghost predicate Misplaced(d: Deal, ledger: seq<LedgerRow>, x: Discrepancy)
  {
    || (x.OnlyLive? && Seats(d, Some(x.id)) && !Mentioned(ledger, x.id))
    || (x.OnlyReplayed? && Mentioned(ledger, x.id) && !Seats(d, Some(x.id)))
  }

  lemma AgreeingReport(d: Deal, b: Book, x: Discrepancy)
    requires NamedDeal(d) && Agrees(d, b) && IdsDistinct(b.hand.players)
    ensures x in Report(b) <==> Misplaced(d, b.ledger, x)
  {
    DiscrepancyCases(Rebuild(b.ledger), b.hand.round.pot, LiveCommitted(b.hand), x);
    if !x.PotMismatch? {
      LiveAreSeated(d, b, x.id);
      ReplayedAreMentioned(b.ledger, x.id);
      if x.id in LiveCommitted(b.hand) && x.id in Rebuild(b.ledger).players {
        CommitmentsAgree(d, b, x.id);
      }
    }
  }

  /** In every run the consistency check reports exactly the seated players whom no ledger
      row mentions and the strangers whom one does; it never finds a pot or a commitment
      that differs. */
  lemma CheckReportsOnlyPresence(d: Deal, ops: seq<Op>)
    requires NamedDeal(d) && ReversesOnlyWagers(Opened(d), ops)
    ensures var b := DoAll(Opened(d), ops);
            && IdsDistinct(b.hand.players)
            && forall x :: x in Report(b) <==> Misplaced(d, b.ledger, x)
  {
    var b := DoAll(Opened(d), ops);
    LedgerAndLiveAgree(d, ops);
    BookNames(d, b);
    forall x ensures x in Report(b) <==> Misplaced(d, b.ledger, x) {
      AgreeingReport(d, b, x);
    }
  }

  /** In every run the check is silent exactly when the players that ledger rows mention are
      the seated ones. */
  lemma CheckIsSilentIff(d: Deal, ops: seq<Op>)
    requires NamedDeal(d) && ReversesOnlyWagers(Opened(d), ops)
    ensures var b := DoAll(Opened(d), ops);
            && IdsDistinct(b.hand.players)
            && (Report(b) == {} <==> forall id :: Mentioned(b.ledger, id) <==> Seats(d, Some(id)))
  {
    var b := DoAll(Opened(d), ops);
    CheckReportsOnlyPresence(d, ops);
    if Report(b) == {} {
      forall id ensures Mentioned(b.ledger, id) <==> Seats(d, Some(id)) {
        assert OnlyLive(id) !in Report(b) && OnlyReplayed(id) !in Report(b);
      }
    } else if forall id :: Mentioned(b.ledger, id) <==> Seats(d, Some(id)) {
      var x :| x in Report(b);
      assert Misplaced(d, b.ledger, x);
    }
  }

  // ------------------------------------------------------------- at the start of a hand

  /** The rows of the first `k` seats mention those of them that posted. */
  lemma {:induction false} PostingMentions(d: Deal, k: nat, id: PlayerId)
    requires NamedDeal(d) && k <= |d.seats|
    ensures Mentioned(PostingRows(d, k), id) <==>
              exists i :: 0 <= i < k && d.seats[i].id == id && PostOne(d, d.seats[i]).hand > 0
  {
    if k > 0 {
      var p, front := PostOne(d, d.seats[k - 1]), PostingRows(d, k - 1);
      PostingMentions(d, k - 1, id);
      if p.hand > 0 {
        MentionedGrows(front, PostingRow(d, |front|, p), id);
        assert RowNames(PostingRow(d, |front|, p), id) <==> d.seats[k - 1].id == id;
      }
    }
  }

  lemma PostedIsMentioned(d: Deal, i: nat)
    requires NamedDeal(d) && i < |d.seats|
    ensures Mentioned(Opened(d).ledger, d.seats[i].id)
            <==> !(d.ante == 0 && d.seats[i].seat != d.smallSeat && d.seats[i].seat != d.bigSeat)
  {
    PostingMentions(d, |d.seats|, d.seats[i].id);
    PostingIsCapped(d, d.seats[i]);
    forall k | 0 <= k < |d.seats| && d.seats[k].id == d.seats[i].id ensures k == i {
    }
  }

  /** A seat is reported the moment the hand starts exactly when it posts nothing: there is
      no ante and it is neither blind. */
  lemma SilentSeatIsReported(d: Deal, i: nat)
    requires NamedDeal(d) && i < |d.seats|
    ensures IdsDistinct(Opened(d).hand.players)
    ensures OnlyLive(d.seats[i].id) in Report(Opened(d))
            <==> d.ante == 0 && d.seats[i].seat != d.smallSeat && d.seats[i].seat != d.bigSeat
  {
    OpenedIsSound(d);
    BookNames(d, Opened(d));
    assert Seats(d, Some(d.seats[i].id));
    AgreeingReport(d, Opened(d), OnlyLive(d.seats[i].id));
    PostedIsMentioned(d, i);
  }

  /** So every hand of three or more players without an ante is reported as inconsistent
      before anybody has acted. */
  lemma NoAnteHandIsReported(d: Deal)
    requires NamedDeal(d) && d.ante == 0 && |d.seats| >= 3
    ensures IdsDistinct(Opened(d).hand.players) && Report(Opened(d)) != {}
  {
    var s := d.seats;
    assert s[0].seat < s[1].seat < s[2].seat;
    var i := if s[0].seat != d.smallSeat && s[0].seat != d.bigSeat then 0
             else if s[1].seat != d.smallSeat && s[1].seat != d.bigSeat then 1 else 2;
    SilentSeatIsReported(d, i);
  }
}
