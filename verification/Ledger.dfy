/** The hand ledger: `apply_entry`, `rebuild_hand_state` and the totals they come to. */
module Ledger {
  import opened Basics
  import opened HandTypes

  /** A generated entry id; only its identity matters. */
  type EntryId = nat

  datatype EntryType =
    | BlindPosted | AntePosted | BetPlaced | StreetDealt | PayoutAwarded | RoundCompleted
    | ActionReversed | StackAdjusted | HandReopened | PayoutCorrected

  /** The detail fields that the ledger code reads. */
  datatype Detail = Detail(street: Option<string>, oldPlayer: Option<PlayerId>, oldAmount: Option<int>)

  datatype LedgerRow = LedgerRow(
    id: EntryId, kind: EntryType, player: Option<PlayerId>, amount: Option<int>,
    detail: Option<Detail>, original: Option<EntryId>)

  datatype PlayerSnapshot = PlayerSnapshot(adjustment: int, committed: int, won: int, reversed: bool)

  datatype Correction = Correction(
    id: EntryId, oldPlayer: Option<PlayerId>, oldAmount: int, newPlayer: Option<PlayerId>, newAmount: int)

  /** The value of a `HandState`. */
  datatype Replayed = Replayed(
    players: map<PlayerId, PlayerSnapshot>, pot: int, completed: bool, reopened: bool,
    reversedIds: set<EntryId>, corrections: seq<Correction>, count: nat)

  const NOTHING := Replayed(map[], 0, false, false, {}, [], 0)

  predicate IsWager(k: EntryType) { k == BlindPosted || k == AntePosted || k == BetPlaced }

  predicate IsCorrection(k: EntryType)
  {
    k == ActionReversed || k == StackAdjusted || k == HandReopened || k == PayoutCorrected
  }

  /** `amount or 0`. */
  function AmountOf(e: LedgerRow): int { if e.amount.Some? then e.amount.value else 0 }

  /** A player column that Python would treat as true. */
  predicate Named(p: Option<PlayerId>) { p.Some? && p.value != "" }

  function OldPlayer(e: LedgerRow): Option<PlayerId>
  {
    if e.detail.Some? then e.detail.value.oldPlayer else None
  }

  function OldAmount(e: LedgerRow): int
  {
    if e.detail.Some? && e.detail.value.oldAmount.Some? then e.detail.value.oldAmount.value else 0
  }

  function Snapshot(players: map<PlayerId, PlayerSnapshot>, p: PlayerId): PlayerSnapshot
  {
    if p in players then players[p] else PlayerSnapshot(0, 0, 0, false)
  }

  /** Add to one player's counters, creating the snapshot when it is missing. */
  function AddTo(players: map<PlayerId, PlayerSnapshot>, who: Option<PlayerId>,
                 adjustment: int, committed: int, won: int, reversed: Option<bool>)
    : map<PlayerId, PlayerSnapshot>
  {
    if !Named(who) then players
    else
      var s := Snapshot(players, who.value);
      players[who.value := PlayerSnapshot(s.adjustment + adjustment, s.committed + committed, s.won + won,
                                          if reversed.Some? then reversed.value else s.reversed)]
  }

  /** The player counters after one entry. */
  function PlayersAfter(players: map<PlayerId, PlayerSnapshot>, e: LedgerRow): map<PlayerId, PlayerSnapshot>
  {
    var amt := AmountOf(e);
    match e.kind
    case BlindPosted | AntePosted | BetPlaced => AddTo(players, e.player, 0, amt, 0, Some(false))
    case PayoutAwarded => AddTo(players, e.player, 0, 0, amt, None)
    case ActionReversed => AddTo(players, e.player, 0, -amt, 0, Some(true))
    case StackAdjusted => AddTo(players, e.player, amt, 0, 0, None)
    case PayoutCorrected =>
      AddTo(AddTo(players, OldPlayer(e), 0, 0, -OldAmount(e), None), e.player, 0, 0, amt, None)
    case StreetDealt | RoundCompleted | HandReopened => players
  }

  function PotAfter(pot: int, e: LedgerRow): int
  {
    if IsWager(e.kind) then pot + AmountOf(e)
    else if e.kind == ActionReversed then pot - AmountOf(e)
    else pot
  }

  function ApplyEntry(s: Replayed, e: LedgerRow): Replayed
  {
    Replayed(
      PlayersAfter(s.players, e),
      PotAfter(s.pot, e),
      (s.completed || e.kind == RoundCompleted) && e.kind != HandReopened,
      s.reopened || e.kind == HandReopened,
      if e.kind == ActionReversed && e.original.Some? then s.reversedIds + {e.original.value} else s.reversedIds,
      if e.kind == PayoutCorrected
      then s.corrections + [Correction(e.id, OldPlayer(e), OldAmount(e), e.player, AmountOf(e))]
      else s.corrections,
      s.count + 1)
  }

  function Rebuild(entries: seq<LedgerRow>): Replayed
  {
    if entries == [] then NOTHING
    else ApplyEntry(Rebuild(entries[..|entries| - 1]), entries[|entries| - 1])
  }

  // ------------------------------------------------- the order of the player dictionary

  /** A dictionary keeps its keys in the order in which they were first stored. */
  function Noted(order: seq<PlayerId>, who: Option<PlayerId>): seq<PlayerId>
  {
    if Named(who) && who.value !in order then order + [who.value] else order
  }

  function OrderAfter(order: seq<PlayerId>, e: LedgerRow): seq<PlayerId>
  {
    match e.kind
    case StreetDealt | RoundCompleted | HandReopened => order
    case PayoutCorrected => Noted(Noted(order, OldPlayer(e)), e.player)
    case BlindPosted | AntePosted | BetPlaced | PayoutAwarded | ActionReversed | StackAdjusted => Noted(order, e.player)
  }

  /** The replayed players in the order in which the entries first name them. */
  function Order(entries: seq<LedgerRow>): seq<PlayerId>
  {
    if entries == [] then [] else OrderAfter(Order(entries[..|entries| - 1]), entries[|entries| - 1])
  }

  /** The dictionary is iterated in this order: each key once. */
  ghost predicate Iterates<V>(order: seq<PlayerId>, m: map<PlayerId, V>)
  {
    NoDuplicates(order) && forall p :: p in order <==> p in m
  }

  // -------------------------------------------------------- the mutable state

  class HandState {
    var players: map<PlayerId, PlayerSnapshot>
    var order: seq<PlayerId>
    var pot: int
    var completed: bool
    var reopened: bool
    var reversedIds: set<EntryId>
    var corrections: seq<Correction>
    var count: nat

    constructor ()
      ensures Valid() && View() == NOTHING && order == []
    {
      players, order, pot, completed, reopened := map[], [], 0, false, false;
      reversedIds, corrections, count := {}, [], 0;
    }

    ghost predicate Valid()
      reads this
    {
      Iterates(order, players)
    }

    function View(): Replayed
      reads this
    {
      Replayed(players, pot, completed, reopened, reversedIds, corrections, count)
    }

    method Add(who: Option<PlayerId>, adjustment: int, committed: int, won: int, reversed: Option<bool>)
      requires Valid()
      modifies this
      ensures View() == old(View()).(players := AddTo(old(players), who, adjustment, committed, won, reversed))
      ensures Valid() && order == Noted(old(order), who)
    {
      if Named(who) {
        if who.value !in players {
          order := order + [who.value];
        }
        var s := Snapshot(players, who.value);
        s := s.(adjustment := s.adjustment + adjustment, committed := s.committed + committed, won := s.won + won);
        if reversed.Some? {
          s := s.(reversed := reversed.value);
        }
        players := players[who.value := s];
      }
    }

    /** `apply_entry`. */
    method Apply(e: LedgerRow)
      requires Valid()
      modifies this
      ensures View() == ApplyEntry(old(View()), e)
      ensures Valid() && order == OrderAfter(old(order), e)
    {
      count := count + 1;
      var amt := AmountOf(e);
      match e.kind {
        case BlindPosted | AntePosted | BetPlaced =>
          Add(e.player, 0, amt, 0, Some(false));
          pot := pot + amt;
        case StreetDealt =>
        case PayoutAwarded =>
          Add(e.player, 0, 0, amt, None);
        case RoundCompleted =>
          completed := true;
        case ActionReversed | StackAdjusted | HandReopened | PayoutCorrected =>
          Amend(e);
      }
    }

    /** The correction branches of `apply_entry`. */
    method Amend(e: LedgerRow)
      requires IsCorrection(e.kind) && Valid()
      modifies this
      ensures View() == ApplyEntry(old(View()), e).(count := old(count))
      ensures Valid() && order == OrderAfter(old(order), e)
    {
      var amt := AmountOf(e);
      match e.kind {
        case ActionReversed =>
          TakeBack(e);
        case StackAdjusted =>
          Add(e.player, amt, 0, 0, None);
        case HandReopened =>
          completed := false;
          reopened := true;
        case PayoutCorrected =>
          MoveAward(e);
          corrections := corrections + [Correction(e.id, OldPlayer(e), OldAmount(e), e.player, amt)];
      }
    }

    method TakeBack(e: LedgerRow)
      requires e.kind == ActionReversed && Valid()
      modifies this
      ensures View() == ApplyEntry(old(View()), e).(count := old(count))
      ensures Valid() && order == OrderAfter(old(order), e)
    {
      if e.original.Some? {
        reversedIds := reversedIds + {e.original.value};
      }
      Add(e.player, 0, -AmountOf(e), 0, Some(true));
      pot := pot - AmountOf(e);
    }

    /** Take the old award from its player and give the new one. */
    method MoveAward(e: LedgerRow)
      requires e.kind == PayoutCorrected && Valid()
      modifies this
      ensures View() == old(View()).(players := PlayersAfter(old(players), e))
      ensures Valid() && order == OrderAfter(old(order), e)
    {
      Add(OldPlayer(e), 0, 0, -OldAmount(e), None);
      Add(e.player, 0, 0, AmountOf(e), None);
    }
  }

  lemma {:induction false} RebuildOneMore(entries: seq<LedgerRow>, i: nat)
    requires i < |entries|
    ensures Rebuild(entries[..i + 1]) == ApplyEntry(Rebuild(entries[..i]), entries[i])
    ensures Order(entries[..i + 1]) == OrderAfter(Order(entries[..i]), entries[i])
  {
    assert entries[..i + 1][..i] == entries[..i];
  }

  /** `rebuild_hand_state`. */
  method RebuildHandState(entries: seq<LedgerRow>) returns (state: HandState)
    ensures fresh(state) && state.View() == Rebuild(entries)
    ensures state.Valid() && state.order == Order(entries)
  {
    state := new HandState();
    for i := 0 to |entries|
      invariant fresh(state) && state.View() == Rebuild(entries[..i])
      invariant state.Valid() && state.order == Order(entries[..i])
    {
      RebuildOneMore(entries, i);
      state.Apply(entries[i]);
    }
    assert entries[..|entries|] == entries;
  }

  // ------------------------------------------------------------------- totals

  predicate Names(who: Option<PlayerId>, p: PlayerId) { Named(who) && who.value == p }

  function PotShare(e: LedgerRow): int
  {
    if IsWager(e.kind) then AmountOf(e) else if e.kind == ActionReversed then -AmountOf(e) else 0
  }

  function CommittedShare(p: PlayerId): LedgerRow -> int
  {
    (e: LedgerRow) => if Names(e.player, p) then PotShare(e) else 0
  }

  function WonShare(p: PlayerId): LedgerRow -> int
  {
    (e: LedgerRow) =>
      if e.kind == PayoutAwarded then (if Names(e.player, p) then AmountOf(e) else 0)
      else if e.kind == PayoutCorrected then
        (if Names(e.player, p) then AmountOf(e) else 0) - (if Names(OldPlayer(e), p) then OldAmount(e) else 0)
      else 0
  }

  function AdjustedShare(p: PlayerId): LedgerRow -> int
  {
    (e: LedgerRow) => if e.kind == StackAdjusted && Names(e.player, p) then AmountOf(e) else 0
  }

  lemma AddToCounters(players: map<PlayerId, PlayerSnapshot>, who: Option<PlayerId>,
                      adjustment: int, committed: int, won: int, reversed: Option<bool>, p: PlayerId)
    ensures var s, t := Snapshot(players, p), Snapshot(AddTo(players, who, adjustment, committed, won, reversed), p);
            && t.adjustment == s.adjustment + (if Names(who, p) then adjustment else 0)
            && t.committed == s.committed + (if Names(who, p) then committed else 0)
            && t.won == s.won + (if Names(who, p) then won else 0)
  {
  }

  /** `t` is `s` moved by the shares of `e` for `p`. */
  ghost predicate AddsShares(s: PlayerSnapshot, t: PlayerSnapshot, e: LedgerRow, p: PlayerId)
  {
    && t.committed == s.committed + CommittedShare(p)(e)
    && t.won == s.won + WonShare(p)(e)
    && t.adjustment == s.adjustment + AdjustedShare(p)(e)
  }

  lemma PlainEntryAdds(players: map<PlayerId, PlayerSnapshot>, e: LedgerRow, p: PlayerId)
    requires e.kind != PayoutCorrected
    ensures AddsShares(Snapshot(players, p), Snapshot(PlayersAfter(players, e), p), e, p)
  {
    var amt := AmountOf(e);
    if IsWager(e.kind) {
      AddToCounters(players, e.player, 0, amt, 0, Some(false), p);
    } else if e.kind == PayoutAwarded {
      AddToCounters(players, e.player, 0, 0, amt, None, p);
    } else if e.kind == ActionReversed {
      AddToCounters(players, e.player, 0, -amt, 0, Some(true), p);
    } else if e.kind == StackAdjusted {
      AddToCounters(players, e.player, amt, 0, 0, None, p);
    }
  }

  lemma CorrectionAdds(players: map<PlayerId, PlayerSnapshot>, e: LedgerRow, p: PlayerId)
    requires e.kind == PayoutCorrected
    ensures AddsShares(Snapshot(players, p), Snapshot(PlayersAfter(players, e), p), e, p)
  {
    var mid := AddTo(players, OldPlayer(e), 0, 0, -OldAmount(e), None);
    AddToCounters(players, OldPlayer(e), 0, 0, -OldAmount(e), None, p);
    AddToCounters(mid, e.player, 0, 0, AmountOf(e), None, p);
  }

  /** One entry moves each counter by its share. */
  lemma EntryAdds(players: map<PlayerId, PlayerSnapshot>, e: LedgerRow, p: PlayerId)
    ensures AddsShares(Snapshot(players, p), Snapshot(PlayersAfter(players, e), p), e, p)
  {
    if e.kind == PayoutCorrected {
      CorrectionAdds(players, e, p);
    } else {
      PlainEntryAdds(players, e, p);
    }
  }

  /** The counters of a player and the pot are the sums of what the entries contribute. */
  lemma {:induction false} RebuildIsSums(entries: seq<LedgerRow>, p: PlayerId)
    ensures var s := Rebuild(entries);
            && s.pot == SumBy(entries, PotShare)
            && Snapshot(s.players, p).committed == SumBy(entries, CommittedShare(p))
            && Snapshot(s.players, p).won == SumBy(entries, WonShare(p))
            && Snapshot(s.players, p).adjustment == SumBy(entries, AdjustedShare(p))
  {
    if entries != [] {
      var front, e := entries[..|entries| - 1], entries[|entries| - 1];
      RebuildIsSums(front, p);
      assert entries == front + [e];
      EntryAdds(Rebuild(front).players, e, p);
      SharesGrow(front, e, p);
    }
  }

  lemma SharesGrow(front: seq<LedgerRow>, e: LedgerRow, p: PlayerId)
    ensures SumBy(front + [e], PotShare) == SumBy(front, PotShare) + PotShare(e)
    ensures SumBy(front + [e], CommittedShare(p)) == SumBy(front, CommittedShare(p)) + CommittedShare(p)(e)
    ensures SumBy(front + [e], WonShare(p)) == SumBy(front, WonShare(p)) + WonShare(p)(e)
    ensures SumBy(front + [e], AdjustedShare(p)) == SumBy(front, AdjustedShare(p)) + AdjustedShare(p)(e)
  {
    SumByAppend(front, e, PotShare);
    SumByAppend(front, e, CommittedShare(p));
    SumByAppend(front, e, WonShare(p));
    SumByAppend(front, e, AdjustedShare(p));
  }

  /** The four totals the ledger keeps for a player, and the pot. */
  ghost predicate SameTotals(a: seq<LedgerRow>, b: seq<LedgerRow>)
  {
    && Rebuild(a).pot == Rebuild(b).pot
    && forall p :: var s, t := Snapshot(Rebuild(a).players, p), Snapshot(Rebuild(b).players, p);
                   s.committed == t.committed && s.won == t.won && s.adjustment == t.adjustment
  }

  /** `r` is the reversal that `reverse_action` writes for `e`. */
  ghost predicate Reverses(r: LedgerRow, e: LedgerRow)
  {
    r.kind == ActionReversed && r.player == e.player && r.amount == e.amount && r.original == Some(e.id)
  }

  lemma {:induction false} SumWithoutTwo(a: seq<LedgerRow>, e: LedgerRow, b: seq<LedgerRow>,
                                         r: LedgerRow, c: seq<LedgerRow>, f: LedgerRow -> int)
    ensures SumBy(a + [e] + b + [r] + c, f) == SumBy(a + b + c, f) + f(e) + f(r)
  {
    SumByConcat(a + [e] + b + [r], c, f);
    SumByAppend(a + [e] + b, r, f);
    SumByConcat(a + [e], b, f);
    SumByAppend(a, e, f);
    SumByConcat(a + b, c, f);
    SumByConcat(a, b, f);
  }

  /** Reversing a blind, ante or bet cancels it: the replayed totals are those of the ledger
      with the entry and its reversal taken out, wherever the two sit. */
  lemma ReversalCancels(a: seq<LedgerRow>, e: LedgerRow, b: seq<LedgerRow>, r: LedgerRow, c: seq<LedgerRow>)
    requires IsWager(e.kind) && Reverses(r, e)
    ensures SameTotals(a + [e] + b + [r] + c, a + b + c)
  {
    var full, cut := a + [e] + b + [r] + c, a + b + c;
    forall p ensures
      var s, t := Snapshot(Rebuild(full).players, p), Snapshot(Rebuild(cut).players, p);
      s.committed == t.committed && s.won == t.won && s.adjustment == t.adjustment
      && Rebuild(full).pot == Rebuild(cut).pot
    {
      RebuildIsSums(full, p);
      RebuildIsSums(cut, p);
      SumWithoutTwo(a, e, b, r, c, PotShare);
      SumWithoutTwo(a, e, b, r, c, CommittedShare(p));
      SumWithoutTwo(a, e, b, r, c, WonShare(p));
      SumWithoutTwo(a, e, b, r, c, AdjustedShare(p));
    }
    assert Snapshot(Rebuild(full).players, "").committed == Snapshot(Rebuild(cut).players, "").committed;
  }
}
