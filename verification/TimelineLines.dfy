/** The lines of a timeline: which entries they show, in which order, and with what running pot. */
module TimelineLines {
  import opened Basics
  import opened HandTypes
  import opened Ledger
  import opened LedgerFlags
  import opened HandHistory

  predicate IsStake(e: LedgerRow) { e.kind == BlindPosted || e.kind == AntePosted || e.kind == BetPlaced }

  predicate IsPaid(e: LedgerRow) { e.kind == PayoutAwarded && e.player.Some? && e.player.value != "" }

  predicate IsAmendment(e: LedgerRow)
  {
    e.kind == ActionReversed || e.kind == StackAdjusted || e.kind == HandReopened || e.kind == PayoutCorrected
  }

  predicate ShowsWager(e: LedgerRow, a: ActionEntry) { a.entry == e && a.amount == AmountOf(e) }

  predicate ShowsAward(e: LedgerRow, p: PayoutLine)
  {
    p.entry == e && Some(p.player) == e.player && p.amount == AmountOf(e)
  }

  predicate ShowsItself(e: LedgerRow, c: LedgerRow) { c == e }

  /** What the entries up to and including number `k` put into the pot. */
  function PotAt(entries: seq<LedgerRow>, k: nat): int
    requires k < |entries|
  {
    SumBy(entries[..k + 1], PotShare)
  }

  /** The running pot of each line is what all entries up to its own come to. */
  ghost predicate RunsWith(entries: seq<LedgerRow>, at: seq<nat>, lines: seq<ActionEntry>)
  {
    |lines| == |at| && forall j :: 0 <= j < |at| ==> at[j] < |entries| && lines[j].running == PotAt(entries, at[j])
  }

  lemma PotStays(front: seq<LedgerRow>, e: LedgerRow, k: nat)
    requires k < |front|
    ensures PotAt(front + [e], k) == PotAt(front, k)
  {
    assert (front + [e])[..k + 1] == front[..k + 1];
  }

  lemma LastPot(front: seq<LedgerRow>, e: LedgerRow)
    ensures PotAt(front + [e], |front|) == SumBy(front + [e], PotShare)
  {
    assert (front + [e])[..|front| + 1] == front + [e];
  }

  lemma RunsStay(front: seq<LedgerRow>, e: LedgerRow, at: seq<nat>, lines: seq<ActionEntry>)
    requires RunsWith(front, at, lines)
    ensures RunsWith(front + [e], at, lines)
  {
    forall j | 0 <= j < |at| ensures lines[j].running == PotAt(front + [e], at[j]) {
      PotStays(front, e, at[j]);
    }
  }

  lemma RunsOn(entries: seq<LedgerRow>, at: seq<nat>, lines: seq<ActionEntry>, k: nat, line: ActionEntry)
    requires RunsWith(entries, at, lines) && k < |entries| && line.running == PotAt(entries, k)
    ensures RunsWith(entries, at + [k], lines + [line])
  {
  }

  ghost predicate WagersShown(entries: seq<LedgerRow>, at: seq<nat>, lines: seq<ActionEntry>)
  {
    Lists(entries, at, IsStake) && Shows(entries, at, lines, ShowsWager) && RunsWith(entries, at, lines)
  }

  lemma OneMoreWager(front: seq<LedgerRow>, e: LedgerRow, at: seq<nat>, lines: seq<ActionEntry>, line: ActionEntry)
    requires WagersShown(front, at, lines)
    requires ShowsWager(e, line) && line.running == SumBy(front + [e], PotShare)
    ensures if IsStake(e) then WagersShown(front + [e], at + [|front|], lines + [line])
            else WagersShown(front + [e], at, lines)
  {
    ListGrows(front, e, at, IsStake);
    ShowsGrow(front, e, at, lines, line, ShowsWager);
    RunsStay(front, e, at, lines);
    LastPot(front, e);
    RunsOn(front + [e], at, lines, |front|, line);
  }

  /** The action lines show the blinds, antes and bets, each once and in order, each with the
      pot that all entries up to it come to. */
  lemma {:induction false} ActionLines(entries: seq<LedgerRow>) returns (at: seq<nat>)
    ensures WagersShown(entries, at, WagerLog(entries))
  {
    at := [];
    if entries != [] {
      var front, e := entries[..|entries| - 1], entries[|entries| - 1];
      at := ActionLines(front);
      assert front + [e] == entries;
      RebuildIsSums(entries, "");
      OneMoreWager(front, e, at, WagerLog(front), ActionEntry(e, AmountOf(e), Rebuild(entries).pot));
      if IsStake(e) {
        at := at + [|front|];
      } else {
        assert WagerLog(entries) == WagerLog(front);
      }
    }
  }

  ghost predicate AwardsShown(entries: seq<LedgerRow>, at: seq<nat>, lines: seq<PayoutLine>)
  {
    Lists(entries, at, IsPaid) && Shows(entries, at, lines, ShowsAward)
  }

  lemma OneMoreAward(front: seq<LedgerRow>, e: LedgerRow, at: seq<nat>, lines: seq<PayoutLine>)
    requires AwardsShown(front, at, lines)
    ensures if IsPaid(e)
            then AwardsShown(front + [e], at + [|front|], lines + [PayoutLine(e, e.player.value, AmountOf(e))])
            else AwardsShown(front + [e], at, lines)
  {
    ListGrows(front, e, at, IsPaid);
    if IsPaid(e) {
      ShowsGrow(front, e, at, lines, PayoutLine(e, e.player.value, AmountOf(e)), ShowsAward);
    } else {
      ShowsGrow(front, e, at, lines, PayoutLine(e, "", 0), ShowsAward);
    }
  }

  /** The payout lines show the awards that name a player, each once and in order. */
  lemma {:induction false} PayoutLines(entries: seq<LedgerRow>) returns (at: seq<nat>)
    ensures AwardsShown(entries, at, PayoutLog(entries))
  {
    at := [];
    if entries != [] {
      var front, e := entries[..|entries| - 1], entries[|entries| - 1];
      at := PayoutLines(front);
      assert front + [e] == entries;
      OneMoreAward(front, e, at, PayoutLog(front));
      if IsPaid(e) {
        at := at + [|front|];
      } else {
        assert PayoutLog(entries) == PayoutLog(front);
      }
    }
  }

  ghost predicate AmendmentsShown(entries: seq<LedgerRow>, at: seq<nat>, lines: seq<LedgerRow>)
  {
    Lists(entries, at, IsAmendment) && Shows(entries, at, lines, ShowsItself)
  }

  /** The correction lines show the four kinds of correction, each entry once and in order. */
  lemma {:induction false} CorrectionLines(entries: seq<LedgerRow>) returns (at: seq<nat>)
    ensures AmendmentsShown(entries, at, CorrectionLog(entries))
  {
    at := [];
    if entries != [] {
      var front, e := entries[..|entries| - 1], entries[|entries| - 1];
      at := CorrectionLines(front);
      assert front + [e] == entries;
      ListGrows(front, e, at, IsAmendment);
      ShowsGrow(front, e, at, CorrectionLog(front), e, ShowsItself);
      if IsAmendment(e) {
        at := at + [|front|];
      } else {
        assert CorrectionLog(entries) == CorrectionLog(front);
      }
    }
  }
}
