/** One ordinary three-handed deal on which the surprises happen: the big blind gets no
    option, a pot can be overdrawn, a retried CALL conflicts, the consistency check reports a
    player who has done nothing, a reopened hand pays twice, and a reversed completion or award
    parts ledger and live state. */
module WorkedHand {
  import opened Basics
  import opened HandTypes
  import opened Validator
  import opened ActionPipeline
  import opened BlindPosting
  import opened HandMachine
  import opened HandTheorems
  import opened SidePots
  import opened SidePotTheorems
  import opened Settlement
  import opened SettlementTheorems
  import opened Ledger
  import opened Book
  import opened EventSourcing
  import opened LedgerTheorems
  import opened ReversalTheorems
  import opened BookOfPlay
  import opened Consistency
  import CasProtocol
  import GameLoop
  import HandHistory
  import Reopening
  import Retries

  /** Ann on the button, Bob the small blind of 5, Cat the big blind of 10; no ante. */
  function ThreeHanded(): Deal
  {
    Deal([SeatPlayer("Ann", 1, 100), SeatPlayer("Bob", 2, 100), SeatPlayer("Cat", 3, 100)], 1, 2, 3, 5, 10, 0)
  }

  function Row(id: PlayerId, seat: int, committed: int): PlayerState
  {
    PlayerState(id, seat, 100 - committed, committed, committed, false, false, true)
  }

  lemma DealIsOk()
    ensures NamedDeal(ThreeHanded()) && FirstActorIndex(ThreeHanded()) == 0
  {
    var s := ThreeHanded().seats;
    assert "Ann"[0] != "Bob"[0] && "Ann"[0] != "Cat"[0] && "Bob"[0] != "Cat"[0];
    assert s[1..] == [s[1], s[2]] && s[1..][1..] == [s[2]];
  }

  lemma BlindsPosted(d: Deal)
    requires d == ThreeHanded()
    ensures MaxPosted(PostAll(d)) == 10
    ensures SeatedAll(d) == [Row("Ann", 1, 0), Row("Bob", 2, 5), Row("Cat", 3, 10)]
  {
    var posted := PostAll(d);
    assert posted[1..] == [posted[1], posted[2]] && posted[1..][1..] == [posted[2]];
    assert posted[0].street == 0 && posted[1].street == 5 && posted[2].street == 10;
    assert MaxPosted(posted[1..][1..]) == 10 && MaxPosted(posted[1..]) == 10;
  }

  /** The hand as dealt: Ann is to act and owes 10, Bob owes 5. */
  lemma Dealt()
    ensures var h := StartRound(ThreeHanded());
            Stands(h, 0, 5) && h.round.actor == Some("Ann") && !h.round.closed
  {
    DealIsOk();
    BlindsPosted(ThreeHanded());
  }

  lemma ThreeAble(h: Hand)
    requires |h.players| == 3 && Able(h.players[0]) && Able(h.players[1])
    ensures AbleCount(h) >= 2
  {
    var s := h.players;
    SumByConcat(s[..2], s[2..], AbleUnit);
    assert s == s[..2] + s[2..] && s[..2][1..] == [s[1]] && [s[1]][1..] == [] && s[2..][1..] == [];
  }

  lemma CallIsAccepted(h: Hand, id: PlayerId, i: nat)
    requires i == IndexOf(h.players, id) && i < |h.players| && Able(h.players[i])
    requires h.round.status == Active && !h.round.closed && h.round.actor == Some(id)
    requires 0 < h.round.highest - h.players[i].street < h.players[i].stack
    ensures Judge(h.round, h.players[i], Call, 0)
            == Ok(ValidatedAction(Call, h.round.highest - h.players[i].street))
    ensures ApplyAction(h, id, Call, 0, None).Ok?
  {
  }

  /** What a CALL for more than nothing and less than the stack does to the hand. */
  lemma CallMatches(h: Hand, id: PlayerId, i: nat)
    requires i == IndexOf(h.players, id) && i < |h.players| && Able(h.players[i])
    requires h.round.status == Active && !h.round.closed && h.round.actor == Some(id)
    requires 0 < h.round.highest - h.players[i].street < h.players[i].stack
    ensures ApplyAction(h, id, Call, 0, None).Ok?
    ensures var n, call := Take(h, BetStep(id, Call, 0)), h.round.highest - h.players[i].street;
            && n.players == h.players[i := h.players[i].(stack := h.players[i].stack - call,
                                                          street := h.players[i].street + call,
                                                          hand := h.players[i].hand + call)]
            && n.round.highest == h.round.highest && n.round.street == h.round.street
            && n.round.status == h.round.status
  {
    CallIsAccepted(h, id, i);
    var k, v := AcceptedBet(h, id, Call, 0);
    assert v == ValidatedAction(Call, h.round.highest - h.players[i].street);
  }

  /** The hand before each of the three moments, whatever deal led to it. */
  ghost predicate Stands(h: Hand, ann: int, bob: int)
  {
    && h.players == [Row("Ann", 1, ann), Row("Bob", 2, bob), Row("Cat", 3, 10)]
    && h.round.highest == 10 && h.round.street == PreFlop && h.round.status == Active
  }

  lemma AnnMayCall(h: Hand)
    requires Stands(h, 0, 5) && !h.round.closed && h.round.actor == Some("Ann")
    ensures ApplyAction(h, "Ann", Call, 0, None).Ok? && Stands(Take(h, BetStep("Ann", Call, 0)), 10, 5)
  {
    assert h.players[0].id == "Ann";
    CallMatches(h, "Ann", 0);
  }

  lemma BobMayCall(h: Hand)
    requires Stands(h, 10, 5) && !h.round.closed && h.round.actor == Some("Bob")
    ensures ApplyAction(h, "Bob", Call, 0, None).Ok? && Stands(Take(h, BetStep("Bob", Call, 0)), 10, 10)
  {
    assert "Ann"[0] != "Bob"[0] && h.players[0].id != "Bob" && h.players[1].id == "Bob";
    CallMatches(h, "Bob", 1);
  }

  /** After Ann's call it is Bob's turn. */
  lemma AnnPasses(d: Deal, steps: seq<Step>)
    requires DealOk(d) && Stands(Play(StartRound(d), steps), 0, 5)
    requires !Play(StartRound(d), steps).round.closed && Play(StartRound(d), steps).round.actor == Some("Ann")
    ensures var n := Take(Play(StartRound(d), steps), BetStep("Ann", Call, 0));
            Stands(n, 10, 5) && !n.round.closed && n.round.actor == Some("Bob")
  {
    var h := Play(StartRound(d), steps);
    AnnMayCall(h);
    ThreeAble(Take(h, BetStep("Ann", Call, 0)));
    OnlyDebtorIsNext(d, steps, "Ann", Call, 0, 1);
  }

  lemma EverybodyMatched(n: Hand)
    requires Stands(n, 10, 10)
    ensures forall k :: 0 <= k < |n.players| ==> n.players[k].street == n.round.highest
  {
  }

  /** After Bob's call nobody is asked. */
  lemma BobCloses(d: Deal, steps: seq<Step>)
    requires DealOk(d) && Stands(Play(StartRound(d), steps), 10, 5)
    requires !Play(StartRound(d), steps).round.closed && Play(StartRound(d), steps).round.actor == Some("Bob")
    ensures var n := Take(Play(StartRound(d), steps), BetStep("Bob", Call, 0));
            Stands(n, 10, 10) && n.round.closed && n.round.actor == None
  {
    BobMayCall(Play(StartRound(d), steps));
    EverybodyMatched(Take(Play(StartRound(d), steps), BetStep("Bob", Call, 0)));
    AllMatchedCloses(d, steps, "Bob", Call, 0);
  }

  lemma {:induction false} PlayGrows(h: Hand, steps: seq<Step>, s: Step)
    ensures Play(h, steps + [s]) == Take(Play(h, steps), s)
  {
    assert (steps + [s])[..|steps|] == steps;
  }

  lemma TwoCalls(d: Deal)
    requires DealOk(d) && Stands(StartRound(d), 0, 5)
    requires !StartRound(d).round.closed && StartRound(d).round.actor == Some("Ann")
    ensures var one, two := [BetStep("Ann", Call, 0)], [BetStep("Ann", Call, 0), BetStep("Bob", Call, 0)];
            var n, m := Play(StartRound(d), one), Play(StartRound(d), two);
            n.round.actor == Some("Bob") && Stands(m, 10, 10) && m.round.closed && m.round.actor == None
  {
    var h := StartRound(d);
    var one := [BetStep("Ann", Call, 0)];
    assert Play(h, []) == h;
    PlayGrows(h, [], BetStep("Ann", Call, 0));
    assert [] + one == one;
    AnnPasses(d, []);
    PlayGrows(h, one, BetStep("Bob", Call, 0));
    BobCloses(d, one);
    assert one + [BetStep("Bob", Call, 0)] == [BetStep("Ann", Call, 0), BetStep("Bob", Call, 0)];
  }

  /** Once Ann and Bob have called, the action is closed: Cat, the big blind, is able to act
      and has not been asked. */
  lemma BigBlindHasNoOption()
    ensures var d := ThreeHanded();
            var h := StartRound(d);
            var afterAnn := Play(h, [BetStep("Ann", Call, 0)]);
            var afterBob := Play(h, [BetStep("Ann", Call, 0), BetStep("Bob", Call, 0)]);
            && DealOk(d) && d.seats[2].id == "Cat" && d.seats[2].seat == d.bigSeat
            && h.round.actor == Some("Ann") && afterAnn.round.actor == Some("Bob")
            && afterBob.round.closed && afterBob.round.actor == None && Stands(afterBob, 10, 10)
            && Able(afterBob.players[2])
  {
    DealIsOk();
    Dealt();
    TwoCalls(ThreeHanded());
  }

  /** The pots of the dealt hand can be overdrawn: Bob is short of Cat's blind. */
  lemma BlindsCanBeOverdrawn()
    ensures var h := StartRound(ThreeHanded());
            Balanced(h) && h.round.status == Active && |PotsOf(h)| > 1 && !PotsNeverOverdrawn(h)
  {
    var d := ThreeHanded();
    var h := StartRound(d);
    DealIsOk();
    Dealt();
    StartIsOk(d);
    NamesStay(d, h);
    var cs := Contributions(h.players);
    assert cs[1] in cs && cs[2] in cs && cs[1].committed == 5 && cs[2].committed == 10 && Live(cs[2]);
    OverdrawnExactlyWhenShort(h);
    OverdrawnExactlyWithSeveralPots(h);
  }

  /** Ann's CALL, sent with amount 0 and retried, is committed once and then conflicts. */
  lemma RetriedCallConflicts(c: CasProtocol.ClientId, key: string)
    requires key != ""
    ensures var req := CasProtocol.Request("Ann", Call, 0, Some(key), None);
            var w := CasProtocol.Run(CasProtocol.Fresh(StartRound(ThreeHanded())), Retries.SendTwice(c, req));
            && w.log == [CasProtocol.BetChange(req)]
            && CasProtocol.ClientOf(w, c) == CasProtocol.Answered(req, CasProtocol.KeyConflict)
  {
    var req := CasProtocol.Request("Ann", Call, 0, Some(key), None);
    Dealt();
    AnnMayCall(StartRound(ThreeHanded()));
    Retries.SecondAnswer(StartRound(ThreeHanded()), c, req);
    Retries.CallNeverRecordsZero(StartRound(ThreeHanded()), req);
  }

  /** Before anybody has acted the consistency check reports Ann. */
  lemma AnnIsReported()
    ensures var b := Opened(ThreeHanded());
            IdsDistinct(b.hand.players) && HandHistory.OnlyLive("Ann") in Report(b)
  {
    DealIsOk();
    SilentSeatIsReported(ThreeHanded(), 0);
  }

  // ------------------------------------------------------------ settled, then corrected

  /** Book `b` is this deal once Ann and Bob have called. */
  ghost predicate Called(d: Deal, b: Book)
  {
    && d == ThreeHanded()
    && b == DoAll(Opened(d), OpsOf([BetStep("Ann", Call, 0), BetStep("Bob", Call, 0)]))
  }

  /** There is such a book: the deal and its two commands. */
  lemma TheBook() returns (d: Deal, b: Book)
    ensures Called(d, b)
  {
    d := ThreeHanded();
    b := DoAll(Opened(d), OpsOf([BetStep("Ann", Call, 0), BetStep("Bob", Call, 0)]));
  }

  /** The whole pot for Cat. */
  function CatWins(b: Book): seq<PotPayout> { WholePot(b.hand, "Cat") }

  lemma ThreeSum<T>(s: seq<T>, f: T -> int)
    requires |s| == 3
    ensures SumBy(s, f) == f(s[0]) + f(s[1]) + f(s[2])
  {
    PairSum(s[1..], f);
  }

  /** A sound book of three players in for 10 each. */
  ghost predicate InForTen(d: Deal, b: Book)
  {
    && NamedDeal(d) && Sound(d, b) && Stands(b.hand, 10, 10)
    && b.hand.round.pot == 30 && SumBy(b.hand.players, StackOf) == 270
  }

  lemma CalledIsSound(d: Deal, b: Book)
    requires Called(d, b)
    ensures InForTen(d, b)
  {
    DealIsOk();
    Dealt();
    TwoCalls(d);
    PlayIsRecorded(d, [BetStep("Ann", Call, 0), BetStep("Bob", Call, 0)]);
    ThreeSum(b.hand.players, CommitOf);
    ThreeSum(b.hand.players, StackOf);
  }

  /** With everybody in for 10, Cat may be declared the winner. */
  lemma CatMayWin(h: Hand)
    requires Balanced(h) && Stands(h, 10, 10)
    ensures DeclareWinner(h, "Cat").Ok?
  {
    var cs := Contributions(h.players);
    forall c | c in cs ensures c.committed == 10 {
    }
    assert h.players[2].id == "Cat" && Live(ContributionOf(h.players[2]));
    DeclareWinnerAccepted(h, "Cat");
  }

  lemma WholePotPays(h: Hand, winner: PlayerId)
    requires h.round.pot >= 1
    ensures WellFormed(WholePot(h, winner)) && TotalPaid(WholePot(h, winner)) == h.round.pot
  {
    SumOfOne(WholePot(h, winner)[0].winners, ShareAmount);
    SumOfOne(WholePot(h, winner), PaidBy);
  }

  lemma CatIsPaid(d: Deal, b: Book)
    requires InForTen(d, b)
    ensures WellFormed(CatWins(b)) && TotalPaid(CatWins(b)) == 30 && Commits(b, Settle(CatWins(b)))
  {
    SoundIsBalanced(d, b);
    CatMayWin(b.hand);
    WholePotPays(b.hand, "Cat");
    Reopening.AcceptedSettlementCommits(d, b, CatWins(b));
  }

  /** 300 chips were dealt in; settled, reopened and settled again, the hand has 330. */
  lemma ReopenedHandCreatesChips(d: Deal, b: Book, r: Book)
    requires Called(d, b) && r == Do(Do(b, Settle(CatWins(b))), Reopen)
    ensures Commits(b, Settle(CatWins(b))) && Commits(r, Settle(CatWins(b)))
    ensures SumBy(d.seats, GameLoop.SeatStack) == 300
    ensures SumBy(Do(r, Settle(CatWins(b))).hand.players, StackOf) == 330
  {
    CalledIsSound(d, b);
    CatIsPaid(d, b);
    ThreeSum(d.seats, GameLoop.SeatStack);
    Reopening.ReopenedHandPaysTwice(d, b, CatWins(b), CatWins(b));
  }

  /** Reversing the completion of this hand takes the 30 chips of the pot out of the replay
      and leaves them in the live hand. */
  lemma ReversedCompletionDiverges(d: Deal, b: Book, m: Book)
    requires Called(d, b) && m == Do(b, Settle(CatWins(b)))
    ensures Commits(b, Settle(CatWins(b)))
    ensures m.ledger != [] && m.ledger[|m.ledger| - 1].kind == RoundCompleted
    ensures PartsBy(d, m, |m.ledger| - 1, 30)
  {
    CalledIsSound(d, b);
    CatIsPaid(d, b);
    ReversingCompletionDiverges(d, b, CatWins(b), m);
  }

  /** So does reversing Cat's award of 30, which is more than the 10 Cat put in. */
  lemma ReversedAwardDiverges(d: Deal, b: Book, m: Book)
    requires Called(d, b) && m == Do(b, Settle(CatWins(b)))
    ensures Commits(b, Settle(CatWins(b)))
    ensures var e := |b.ledger|;
            && e < |m.ledger| && m.ledger[e] == AwardEntry(e, Share("Cat", 30))
            && Commits(m, Reverse(e)) && !Agrees(d, Do(m, Reverse(e)))
  {
    CalledIsSound(d, b);
    CatIsPaid(d, b);
    CatsRow(d, b, m);
    CatKeepsCommitment(d, b, m);
    AwardReversed(d, m, |b.ledger|, Share("Cat", 30));
  }

  lemma CatsRow(d: Deal, b: Book, m: Book)
    requires InForTen(d, b) && Commits(b, Settle(CatWins(b))) && m == Do(b, Settle(CatWins(b)))
    ensures |b.ledger| < |m.ledger| && m.ledger[|b.ledger|] == AwardEntry(|b.ledger|, Share("Cat", 30)) && Sound(d, m)
  {
    OneAwardRow(CatWins(b), Share("Cat", 30), |b.ledger|);
    SettlementEnds(d, b, CatWins(b));
  }

  lemma OneAwardRow(payouts: seq<PotPayout>, w: Share, n: nat)
    requires |payouts| == 1 && payouts[0].winners == [w]
    ensures PayoutEntries(payouts, n) == [AwardEntry(n, w)]
  {
    assert payouts[..0] == [] && [w][..0] == [];
    assert PayoutEntries([], n) == [] && ShareEntries([], n) == [];
  }

  lemma CatKeepsCommitment(d: Deal, b: Book, m: Book)
    requires InForTen(d, b) && Commits(b, Settle(CatWins(b))) && m == Do(b, Settle(CatWins(b)))
    ensures var ps := m.hand.players;
            IndexOf(ps, "Cat") == 2 && |ps| == 3 && ps[2].hand == 10
  {
    BookNames(d, b);
    SettledLedger(b, CatWins(b));
    PayoutsRaise(b.hand.players, CatWins(b));
    var ps := m.hand.players;
    assert ps[2].id == "Cat" && ps[0].id == "Ann" && ps[1].id == "Bob";
    assert "Ann"[0] != "Cat"[0] && "Bob"[0] != "Cat"[0];
  }
}
