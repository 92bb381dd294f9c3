/** A hand in play together with its ledger: playing the steps of a hand and committing them as
    commands come to the same, so the replay of the ledger is the hand as played. */
module BookOfPlay {
  import opened Basics
  import opened HandTypes
  import opened BlindPosting
  import opened HandMachine
  import opened Book
  import opened EventSourcing
  import opened LedgerTheorems

  function OpOf(s: Step): Op
  {
    match s
    case BetStep(id, action, amount) => PlaceBet(id, action, amount)
    case AdvanceStep => Advance
  }

  function OpsOf(steps: seq<Step>): (ops: seq<Op>)
    ensures |ops| == |steps| && forall i :: 0 <= i < |steps| ==> ops[i] == OpOf(steps[i])
  {
    seq(|steps|, i requires 0 <= i < |steps| => OpOf(steps[i]))
  }

  lemma InvIsLegal(d: Deal, h: Hand)
    requires Inv(d, h)
    ensures RowsLegal(h)
  {
    forall i | 0 <= i < |h.players|
      ensures h.players[i].stack >= 0 && h.players[i].street >= 0 && h.players[i].hand >= 0
    {
      assert PlayerOk(h.players[i], d.seats[i]);
    }
    SumByNonNegative(h.players, CommitOf);
  }

  /** An accepted step never breaks a check constraint, so it is never rolled back. */
  lemma StepIsCommitted(d: Deal, b: Book, s: Step)
    requires DealOk(d) && Inv(d, b.hand)
    ensures Do(b, OpOf(s)).hand == Take(b.hand, s)
  {
    TakeKeepsInv(d, b.hand, s);
    InvIsLegal(d, Take(b.hand, s));
  }

  lemma {:induction false} NothingReversed(b: Book, steps: seq<Step>)
    ensures ReversesOnlyWagers(b, OpsOf(steps))
  {
    if steps != [] {
      NothingReversed(b, steps[..|steps| - 1]);
      assert OpsOf(steps)[..|steps| - 1] == OpsOf(steps[..|steps| - 1]);
    }
  }

  lemma {:induction false} PlayIsCommitted(d: Deal, steps: seq<Step>)
    requires DealOk(d)
    ensures DoAll(Opened(d), OpsOf(steps)).hand == Play(StartRound(d), steps)
  {
    if steps != [] {
      var front := steps[..|steps| - 1];
      PlayIsCommitted(d, front);
      ReachableStatesAreSound(d, front);
      StepIsCommitted(d, DoAll(Opened(d), OpsOf(front)), steps[|steps| - 1]);
      assert OpsOf(steps)[..|steps| - 1] == OpsOf(front);
    }
  }

  /** Every run of a hand, committed step by step, is stored as played and agrees with the
      replay of its ledger. */
  lemma PlayIsRecorded(d: Deal, steps: seq<Step>)
    requires NamedDeal(d)
    ensures var b := DoAll(Opened(d), OpsOf(steps));
            b.hand == Play(StartRound(d), steps) && Sound(d, b)
  {
    PlayIsCommitted(d, steps);
    NothingReversed(Opened(d), steps);
    LedgerAndLiveAgree(d, OpsOf(steps));
  }
}
