/** The timelines of real ledgers: no command deals a street, so every run has one. */
module Timelines {
  import opened Basics
  import opened HandTypes
  import opened BlindPosting
  import opened Settlement
  import opened Ledger
  import opened HandHistory
  import opened Book
  import opened LedgerTheorems

  ghost predicate NoStreetDealt(ledger: seq<LedgerRow>)
  {
    forall k :: 0 <= k < |ledger| ==> ledger[k].kind != StreetDealt
  }

  lemma SettleDealsNoStreet(h: Hand, payouts: seq<PotPayout>, n: nat)
    ensures NoStreetDealt(SettleEntries(h, payouts, n))
  {
    PayoutRowShape(payouts, n);
  }

  lemma CommandDealsNoStreet(b: Book, op: Op)
    requires NoStreetDealt(b.ledger)
    ensures NoStreetDealt(Do(b, op).ledger)
  {
    if op.Settle? {
      SettleDealsNoStreet(b.hand, op.payouts, |b.ledger|);
    }
  }

  lemma {:induction false} PostingDealsNoStreet(d: Deal, k: nat)
    requires k <= |d.seats|
    ensures NoStreetDealt(PostingRows(d, k))
  {
    if k > 0 {
      PostingDealsNoStreet(d, k - 1);
    }
  }

  lemma {:induction false} CommandsDealNoStreet(d: Deal, ops: seq<Op>)
    requires |d.seats| > 0
    ensures NoStreetDealt(DoAll(Opened(d), ops).ledger)
  {
    if ops == [] {
      PostingDealsNoStreet(d, |d.seats|);
    } else {
      CommandsDealNoStreet(d, ops[..|ops| - 1]);
      CommandDealsNoStreet(DoAll(Opened(d), ops[..|ops| - 1]), ops[|ops| - 1]);
    }
  }

  /** No command writes a STREET_DEALT row, whatever the run, so the timeline of every hand is
      the one street PRE_FLOP that holds all its wagers and ends at the rebuilt pot. */
  method TimelineOfRun(d: Deal, ops: seq<Op>) returns (t: HandTimeline)
    requires |d.seats| > 0
    ensures var ledger := DoAll(Opened(d), ops).ledger;
            t.streets == [StreetSummary("PRE_FLOP", WagerLog(ledger), 0, Rebuild(ledger).pot)]
  {
    var ledger := DoAll(Opened(d), ops).ledger;
    CommandsDealNoStreet(d, ops);
    NothingDealt(ledger);
    t := BuildHandTimeline(ledger);
    OneStreet(t.streets, ledger);
  }

  lemma OneStreet(streets: seq<StreetSummary>, ledger: seq<LedgerRow>)
    requires ActionsOf(streets) == WagerLog(ledger) && OpeningsOf(streets) == [Opening("PRE_FLOP", 0)]
    requires StreetsChain(streets) && EndsOf(streets) == [Rebuild(ledger).pot]
    ensures streets == [StreetSummary("PRE_FLOP", WagerLog(ledger), 0, Rebuild(ledger).pot)]
  {
    assert |streets| == |EndsOf(streets)| == 1 && EndsOf(streets)[0] == streets[0].end;
    assert streets[..0] == [] && ActionsOf([]) == [] && OpeningsOf([]) == [];
    assert OpeningsOf(streets) == [] + [Opening(streets[0].name, 0)];
    assert OpeningsOf(streets)[0].name == streets[0].name;
    assert ActionsOf(streets) == [] + streets[0].actions;
    assert [Rebuild(ledger).pot][0] == streets[0].end && [Opening("PRE_FLOP", 0)][0].name == streets[0].name;
    assert [] + streets[0].actions == streets[0].actions;
    assert streets[0] == StreetSummary("PRE_FLOP", WagerLog(ledger), 0, Rebuild(ledger).pot);
  }
}
