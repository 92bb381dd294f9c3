/** What the replayed flags, reversed ids and corrections say about the ledger. */
module LedgerFlags {
  import opened Basics
  import opened HandTypes
  import opened Ledger

  /** A completion that no reopening follows. */
  ghost predicate CompletesAt(entries: seq<LedgerRow>, k: int)
  {
    && 0 <= k < |entries| && entries[k].kind == RoundCompleted
    && forall j :: k < j < |entries| ==> entries[j].kind != HandReopened
  }

  ghost predicate ReopensAt(entries: seq<LedgerRow>, k: int)
  {
    0 <= k < |entries| && entries[k].kind == HandReopened
  }

  ghost predicate ReversesAt(entries: seq<LedgerRow>, k: int, id: EntryId)
  {
    0 <= k < |entries| && entries[k].kind == ActionReversed && entries[k].original == Some(id)
  }

  /** A blind, an ante or a bet that names the player. */
  predicate WagerOf(e: LedgerRow, p: PlayerId)
  {
    (e.kind == BlindPosted || e.kind == AntePosted || e.kind == BetPlaced) && Names(e.player, p)
  }

  /** A reversal that names the player and that no wager of theirs follows. */
  ghost predicate LeavesReversed(entries: seq<LedgerRow>, k: int, p: PlayerId)
  {
    && 0 <= k < |entries| && entries[k].kind == ActionReversed && Names(entries[k].player, p)
    && forall j :: k < j < |entries| ==> !WagerOf(entries[j], p)
  }

  /** A replayed hand counts every entry, is completed when a completion stands that no
      reopening follows, and is reopened when any entry reopened it. */
  lemma {:induction false} CompletedAndReopened(entries: seq<LedgerRow>)
    ensures Rebuild(entries).count == |entries|
    ensures Rebuild(entries).completed <==> exists k :: CompletesAt(entries, k)
    ensures Rebuild(entries).reopened <==> exists k :: ReopensAt(entries, k)
  {
    if entries != [] {
      var n := |entries| - 1;
      var front, last := entries[..n], entries[n];
      CompletedAndReopened(front);
      if last.kind == RoundCompleted {
        assert CompletesAt(entries, n);
      } else if last.kind == HandReopened {
        assert ReopensAt(entries, n);
      }
      if last.kind != HandReopened {
        if k :| CompletesAt(front, k) {
          assert CompletesAt(entries, k);
        }
        if k :| CompletesAt(entries, k) && k < n {
          assert CompletesAt(front, k);
        }
      }
      if k :| ReopensAt(front, k) {
        assert ReopensAt(entries, k);
      }
      if k :| ReopensAt(entries, k) && k < n {
        assert ReopensAt(front, k);
      }
    }
  }

  /** The reversed entries are those that some reversal names as its original. */
  lemma {:induction false} ReversedIdsAre(entries: seq<LedgerRow>, id: EntryId)
    ensures id in Rebuild(entries).reversedIds <==> exists k :: ReversesAt(entries, k, id)
  {
    if entries != [] {
      var n := |entries| - 1;
      var front := entries[..n];
      ReversedIdsAre(front, id);
      if entries[n].kind == ActionReversed && entries[n].original == Some(id) {
        assert ReversesAt(entries, n, id);
      }
      if k :| ReversesAt(front, k, id) {
        assert ReversesAt(entries, k, id);
      }
      if k :| ReversesAt(entries, k, id) && k < n {
        assert ReversesAt(front, k, id);
      }
    }
  }

  lemma OneEntryMarks(players: map<PlayerId, PlayerSnapshot>, e: LedgerRow, p: PlayerId)
    ensures Snapshot(PlayersAfter(players, e), p).reversed ==
              if WagerOf(e, p) then false
              else Snapshot(players, p).reversed || (e.kind == ActionReversed && Names(e.player, p))
  {
  }

  lemma OneEntryLeaves(front: seq<LedgerRow>, e: LedgerRow, p: PlayerId)
    ensures (exists k :: LeavesReversed(front + [e], k, p)) <==>
              if WagerOf(e, p) then false
              else (exists k :: LeavesReversed(front, k, p)) || (e.kind == ActionReversed && Names(e.player, p))
  {
    var n, entries := |front|, front + [e];
    if !WagerOf(e, p) {
      if e.kind == ActionReversed && Names(e.player, p) {
        assert LeavesReversed(entries, n, p);
      }
      if k :| LeavesReversed(front, k, p) {
        assert LeavesReversed(entries, k, p);
      }
    }
    if k :| LeavesReversed(entries, k, p) && k < n {
      assert entries[n] == e;
      assert forall j :: k < j < n ==> entries[j] == front[j];
      assert LeavesReversed(front, k, p);
    }
  }

  /** A player is marked as reversed when a reversal names them and no later blind, ante or bet
      does. */
  lemma {:induction false} MarkedAsReversed(entries: seq<LedgerRow>, p: PlayerId)
    ensures Snapshot(Rebuild(entries).players, p).reversed <==> exists k :: LeavesReversed(entries, k, p)
  {
    if entries != [] {
      var front, last := entries[..|entries| - 1], entries[|entries| - 1];
      MarkedAsReversed(front, p);
      OneEntryMarks(Rebuild(front).players, last, p);
      OneEntryLeaves(front, last, p);
      assert front + [last] == entries;
    }
  }

  // ------------------------------------------------------------------- lists of entries

  /** Positions of picked entries, in ledger order. */
  ghost predicate ListsOnly(entries: seq<LedgerRow>, at: seq<nat>, picked: LedgerRow -> bool)
  {
    && (forall j :: 0 <= j < |at| ==> at[j] < |entries| && picked(entries[at[j]]))
    && (forall i, j :: 0 <= i < j < |at| ==> at[i] < at[j])
  }

  ghost predicate ListsAll(entries: seq<LedgerRow>, at: seq<nat>, picked: LedgerRow -> bool)
  {
    forall k :: 0 <= k < |entries| && picked(entries[k]) ==> k in at
  }

  /** `at` lists the positions of the picked entries, each once, in ledger order. */
  ghost predicate Lists(entries: seq<LedgerRow>, at: seq<nat>, picked: LedgerRow -> bool)
  {
    ListsOnly(entries, at, picked) && ListsAll(entries, at, picked)
  }

  lemma ListsOnlyGrow(front: seq<LedgerRow>, e: LedgerRow, at: seq<nat>, picked: LedgerRow -> bool)
    requires ListsOnly(front, at, picked)
    ensures ListsOnly(front + [e], at, picked)
    ensures picked(e) ==> ListsOnly(front + [e], at + [|front|], picked)
  {
  }

  lemma ListsAllGrow(front: seq<LedgerRow>, e: LedgerRow, at: seq<nat>, picked: LedgerRow -> bool)
    requires ListsAll(front, at, picked)
    ensures !picked(e) ==> ListsAll(front + [e], at, picked)
    ensures ListsAll(front + [e], at + [|front|], picked)
  {
    forall k | 0 <= k < |front| && picked((front + [e])[k]) ensures k in at {
      assert (front + [e])[k] == front[k];
    }
    assert |front| in at + [|front|];
  }

  lemma ListGrows(front: seq<LedgerRow>, e: LedgerRow, at: seq<nat>, picked: LedgerRow -> bool)
    requires Lists(front, at, picked)
    ensures Lists(front + [e], if picked(e) then at + [|front|] else at, picked)
  {
    ListsOnlyGrow(front, e, at, picked);
    ListsAllGrow(front, e, at, picked);
  }

  /** Each line says of its entry what `says` states. */
  ghost predicate Shows<T>(entries: seq<LedgerRow>, at: seq<nat>, lines: seq<T>, says: (LedgerRow, T) -> bool)
  {
    |lines| == |at| && forall j :: 0 <= j < |at| ==> at[j] < |entries| && says(entries[at[j]], lines[j])
  }

  lemma ShowsGrow<T>(front: seq<LedgerRow>, e: LedgerRow, at: seq<nat>, lines: seq<T>, line: T,
                     says: (LedgerRow, T) -> bool)
    requires Shows(front, at, lines, says)
    ensures Shows(front + [e], at, lines, says)
    ensures says(e, line) ==> Shows(front + [e], at + [|front|], lines + [line], says)
  {
    assert forall j :: 0 <= j < |front| ==> (front + [e])[j] == front[j];
  }

  predicate MovesAward(e: LedgerRow) { e.kind == PayoutCorrected }

  /** `c` tells what the correction `e` moved, and between whom. */
  predicate Tells(e: LedgerRow, c: Correction)
  {
    && c.id == e.id && c.newPlayer == e.player && c.newAmount == AmountOf(e)
    && c.oldPlayer == (if e.detail.Some? then e.detail.value.oldPlayer else None)
    && c.oldAmount == if e.detail.Some? && e.detail.value.oldAmount.Some? then e.detail.value.oldAmount.value else 0
  }

  ghost predicate CorrectionsTold(entries: seq<LedgerRow>, at: seq<nat>, cs: seq<Correction>)
  {
    Lists(entries, at, MovesAward) && Shows(entries, at, cs, Tells)
  }

  lemma OneMoreCorrection(front: seq<LedgerRow>, e: LedgerRow, at: seq<nat>, cs: seq<Correction>, c: Correction)
    requires CorrectionsTold(front, at, cs) && Tells(e, c)
    ensures if MovesAward(e) then CorrectionsTold(front + [e], at + [|front|], cs + [c])
            else CorrectionsTold(front + [e], at, cs)
  {
    ListGrows(front, e, at, MovesAward);
    ShowsGrow(front, e, at, cs, c, Tells);
  }

  /** The replayed corrections tell the payout corrections of the ledger, none missing and none
      twice, in order. */
  lemma {:induction false} CorrectionsAreListed(entries: seq<LedgerRow>) returns (at: seq<nat>)
    ensures CorrectionsTold(entries, at, Rebuild(entries).corrections)
  {
    at := [];
    if entries != [] {
      var front, e := entries[..|entries| - 1], entries[|entries| - 1];
      at := CorrectionsAreListed(front);
      assert front + [e] == entries;
      OneMoreCorrection(front, e, at, Rebuild(front).corrections,
                        Correction(e.id, OldPlayer(e), OldAmount(e), e.player, AmountOf(e)));
      if MovesAward(e) {
        at := at + [|front|];
      }
    }
  }

  /** The replayed players stand in the order in which the entries first name them: what the
      first entries come to is where the whole order begins. */
  lemma {:induction false} OrderOnlyGrows(entries: seq<LedgerRow>, k: nat)
    requires k <= |entries|
    ensures Order(entries[..k]) <= Order(entries)
  {
    if k == |entries| {
      assert entries[..k] == entries;
    } else {
      var front := entries[..|entries| - 1];
      OrderOnlyGrows(front, k);
      assert front[..k] == entries[..k];
    }
  }
}
