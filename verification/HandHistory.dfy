/** `replay_hand`, `verify_consistency` and `build_hand_timeline`, each against the rebuild
    of the ledger. */
module HandHistory {
  import opened Basics
  import opened HandTypes
  import opened Ledger

  // ------------------------------------------------------------------- replay

  datatype HandStep = HandStep(number: nat, entry: LedgerRow, after: Replayed)

  /** The step of entry `k`: the state rebuilt from the entries up to it. */
  ghost function StepAt(entries: seq<LedgerRow>, k: nat): HandStep
    requires k < |entries|
  {
    HandStep(k + 1, entries[k], Rebuild(entries[..k + 1]))
  }

  /** `replay_hand`: one mutated state, copied after every entry. */
  method ReplayHand(entries: seq<LedgerRow>) returns (steps: seq<HandStep>, final: Replayed)
    ensures |steps| == |entries|
    ensures forall i :: 0 <= i < |entries| ==> steps[i] == HandStep(i + 1, entries[i], Rebuild(entries[..i + 1]))
    ensures final == Rebuild(entries)
  {
    steps := [];
    ghost var goal := seq(|entries|, k requires 0 <= k < |entries| => StepAt(entries, k));
    var state := new HandState();
    for i := 0 to |entries|
      invariant fresh(state) && state.Valid() && state.View() == Rebuild(entries[..i])
      invariant steps == goal[..i]
    {
      RebuildOneMore(entries, i);
      state.Apply(entries[i]);
      steps := steps + [HandStep(i + 1, entries[i], state.View())];
    }
    assert entries[..|entries|] == entries;
    final := state.View();
  }

  // -------------------------------------------------------------- consistency

  datatype Discrepancy =
    | PotMismatch
    | OnlyLive(id: PlayerId)
    | CommittedMismatch(id: PlayerId)
    | OnlyReplayed(id: PlayerId)

  /** What the check compares: the pot, every live commitment, every replayed player. */
  function Discrepancies(replayed: Replayed, pot: int, live: map<PlayerId, int>): set<Discrepancy>
  {
    (if replayed.pot != pot then {PotMismatch} else {})
    + (set id | id in live && id !in replayed.players :: OnlyLive(id))
    + (set id | id in live && id in replayed.players && replayed.players[id].committed != live[id]
       :: CommittedMismatch(id))
    + (set id | id in replayed.players && id !in live :: OnlyReplayed(id))
  }

  /** What the check has to say about one live player. */
  ghost predicate SaidOfLive(s: Replayed, live: map<PlayerId, int>, x: Discrepancy)
  {
    || (x.OnlyLive? && x.id in live && x.id !in s.players)
    || (x.CommittedMismatch? && x.id in live && x.id in s.players && s.players[x.id].committed != live[x.id])
  }

  // What the report says, in its order: the pot, then the live players in the order of their
  // dictionary, then the replayed players in the order of theirs.

  function PotLine(s: Replayed, pot: int): seq<Discrepancy> { if s.pot != pot then [PotMismatch] else [] }

  function LiveLine(s: Replayed, live: map<PlayerId, int>, id: PlayerId): seq<Discrepancy>
    requires id in live
  {
    if id !in s.players then [OnlyLive(id)]
    else if s.players[id].committed != live[id] then [CommittedMismatch(id)]
    else []
  }

  function LiveLines(s: Replayed, live: map<PlayerId, int>, order: seq<PlayerId>): seq<Discrepancy>
    requires forall p :: p in order ==> p in live
  {
    if order == [] then []
    else LiveLines(s, live, order[..|order| - 1]) + LiveLine(s, live, order[|order| - 1])
  }

  function ReplayedLines(live: map<PlayerId, int>, order: seq<PlayerId>): seq<Discrepancy>
  {
    if order == [] then []
    else
      var id := order[|order| - 1];
      ReplayedLines(live, order[..|order| - 1]) + if id !in live then [OnlyReplayed(id)] else []
  }

  method CheckLive(replayed: Replayed, live: map<PlayerId, int>, order: seq<PlayerId>)
    returns (found: seq<Discrepancy>)
    requires Iterates(order, live)
    ensures found == LiveLines(replayed, live, order)
  {
    found := [];
    for i := 0 to |order|
      invariant found == LiveLines(replayed, live, order[..i])
    {
      assert order[..i + 1][..i] == order[..i];
      var id := order[i];
      if id !in replayed.players {
        found := found + [OnlyLive(id)];
      } else if replayed.players[id].committed != live[id] {
        found := found + [CommittedMismatch(id)];
      }
    }
    assert order[..|order|] == order;
  }

  method CheckReplayed(live: map<PlayerId, int>, order: seq<PlayerId>) returns (found: seq<Discrepancy>)
    ensures found == ReplayedLines(live, order)
  {
    found := [];
    for i := 0 to |order|
      invariant found == ReplayedLines(live, order[..i])
    {
      assert order[..i + 1][..i] == order[..i];
      if order[i] !in live {
        found := found + [OnlyReplayed(order[i])];
      }
    }
    assert order[..|order|] == order;
  }

  /** The live lines say what there is to say of the listed players, each thing once. */
  lemma {:induction false} LiveLinesMeaning(s: Replayed, live: map<PlayerId, int>, order: seq<PlayerId>)
    requires NoDuplicates(order) && forall p :: p in order ==> p in live
    ensures forall x :: x in LiveLines(s, live, order) <==> SaidOfLive(s, live, x) && x.id in order
    ensures NoDuplicates(LiveLines(s, live, order))
  {
    if order != [] {
      var front, id := order[..|order| - 1], order[|order| - 1];
      LiveLinesMeaning(s, live, front);
      assert order == front + [id];
    }
  }

  lemma {:induction false} ReplayedLinesMeaning(live: map<PlayerId, int>, order: seq<PlayerId>)
    requires NoDuplicates(order)
    ensures forall x :: x in ReplayedLines(live, order) <==> x.OnlyReplayed? && x.id in order && x.id !in live
    ensures NoDuplicates(ReplayedLines(live, order))
  {
    if order != [] {
      var front, id := order[..|order| - 1], order[|order| - 1];
      ReplayedLinesMeaning(live, front);
      assert order == front + [id];
    }
  }

  lemma PartsJoin(pot: seq<Discrepancy>, a: seq<Discrepancy>, b: seq<Discrepancy>)
    requires |pot| <= 1 && NoDuplicates(a) && NoDuplicates(b)
    requires (forall x :: x in pot ==> x.PotMismatch?) && (forall x :: x in b ==> x.OnlyReplayed?)
    requires forall x :: x in a ==> x.OnlyLive? || x.CommittedMismatch?
    ensures NoDuplicates(pot + a + b)
  {
    var all := pot + a + b;
    forall i, j | 0 <= i < j < |all| ensures all[i] != all[j] {
      assert i < |pot| ==> all[i] in pot;
      assert |pot| <= i < |pot| + |a| ==> all[i] in a && all[i] == a[i - |pot|];
      assert |pot| + |a| <= i ==> all[i] in b && all[i] == b[i - |pot| - |a|];
      assert |pot| <= j < |pot| + |a| ==> all[j] in a && all[j] == a[j - |pot|];
      assert |pot| + |a| <= j ==> all[j] in b && all[j] == b[j - |pot| - |a|];
    }
  }

  /** `verify_consistency`: the report lists exactly the discrepancies, each once: the pot, the
      live players in the order of their dictionary, then the replayed players in the order in
      which the ledger first names them. */
  method VerifyConsistency(entries: seq<LedgerRow>, pot: int, live: map<PlayerId, int>, order: seq<PlayerId>)
    returns (found: seq<Discrepancy>)
    requires Iterates(order, live)
    ensures var s := Rebuild(entries);
            found == PotLine(s, pot) + LiveLines(s, live, order) + ReplayedLines(live, Order(entries))
    ensures forall x :: x in found <==> x in Discrepancies(Rebuild(entries), pot, live)
    ensures NoDuplicates(found)
    ensures found == [] <==>
      var s := Rebuild(entries);
      && s.pot == pot && s.players.Keys == live.Keys
      && forall id :: id in live && id in s.players ==> s.players[id].committed == live[id]
  {
    var state := RebuildHandState(entries);
    found := Compare(state.View(), state.order, pot, live, order);
    ReportIsEmpty(state.View(), pot, live, found);
  }

  lemma DiscrepancyCases(s: Replayed, pot: int, live: map<PlayerId, int>, x: Discrepancy)
    ensures x in Discrepancies(s, pot, live) <==>
      || (x == PotMismatch && s.pot != pot)
      || SaidOfLive(s, live, x)
      || (x.OnlyReplayed? && x.id in s.players && x.id !in live)
  {
  }

  method Compare(replayed: Replayed, known: seq<PlayerId>, pot: int, live: map<PlayerId, int>, order: seq<PlayerId>)
    returns (found: seq<Discrepancy>)
    requires Iterates(known, replayed.players) && Iterates(order, live)
    ensures found == PotLine(replayed, pot) + LiveLines(replayed, live, order) + ReplayedLines(live, known)
    ensures forall x :: x in found <==> x in Discrepancies(replayed, pot, live)
    ensures NoDuplicates(found)
  {
    var first := if replayed.pot != pot then [PotMismatch] else [];
    var a := CheckLive(replayed, live, order);
    var b := CheckReplayed(live, known);
    LiveLinesMeaning(replayed, live, order);
    ReplayedLinesMeaning(live, known);
    PartsJoin(first, a, b);
    found := first + a + b;
    forall x ensures x in found <==> x in Discrepancies(replayed, pot, live) {
      DiscrepancyCases(replayed, pot, live, x);
    }
  }

  lemma ReportIsEmpty(s: Replayed, pot: int, live: map<PlayerId, int>, found: seq<Discrepancy>)
    requires forall d :: d in found <==> d in Discrepancies(s, pot, live)
    ensures found == [] <==>
      && s.pot == pot && s.players.Keys == live.Keys
      && forall id :: id in live && id in s.players ==> s.players[id].committed == live[id]
  {
    if found == [] {
      assert PotMismatch !in found;
      forall id ensures id in s.players <==> id in live {
        assert OnlyLive(id) !in found && OnlyReplayed(id) !in found;
      }
      forall id | id in live && id in s.players ensures s.players[id].committed == live[id] {
        assert CommittedMismatch(id) !in found;
      }
    } else {
      assert found[0] in Discrepancies(s, pot, live);
    }
  }

  // ----------------------------------------------------------------- timeline

  datatype ActionEntry = ActionEntry(entry: LedgerRow, amount: int, running: int)

  datatype StreetSummary = StreetSummary(name: string, actions: seq<ActionEntry>, start: int, end: int)

  datatype PayoutLine = PayoutLine(entry: LedgerRow, player: PlayerId, amount: int)

  datatype HandTimeline = HandTimeline(
    streets: seq<StreetSummary>, payouts: seq<PayoutLine>, corrections: seq<LedgerRow>,
    completed: bool, reopened: bool, total: nat)

  function DealtName(e: LedgerRow): string
  {
    if e.detail.Some? && e.detail.value.street.Some? then e.detail.value.street.value else "UNKNOWN"
  }

  /** Every blind, ante and bet in order, each with the rebuilt pot right after it. */
  function WagerLog(entries: seq<LedgerRow>): seq<ActionEntry>
  {
    if entries == [] then []
    else
      var e := entries[|entries| - 1];
      WagerLog(entries[..|entries| - 1])
      + if IsWager(e.kind) then [ActionEntry(e, AmountOf(e), Rebuild(entries).pot)] else []
  }

  function PayoutLog(entries: seq<LedgerRow>): seq<PayoutLine>
  {
    if entries == [] then []
    else
      var e := entries[|entries| - 1];
      PayoutLog(entries[..|entries| - 1])
      + if e.kind == PayoutAwarded && Named(e.player) then [PayoutLine(e, e.player.value, AmountOf(e))] else []
  }

  function CorrectionLog(entries: seq<LedgerRow>): seq<LedgerRow>
  {
    if entries == [] then []
    else
      var e := entries[|entries| - 1];
      CorrectionLog(entries[..|entries| - 1]) + if IsCorrection(e.kind) then [e] else []
  }

  /** The rebuilt pot at each dealt street, in order. */
  function PotsAtDeals(entries: seq<LedgerRow>): seq<int>
  {
    if entries == [] then []
    else
      PotsAtDeals(entries[..|entries| - 1])
      + if entries[|entries| - 1].kind == StreetDealt then [Rebuild(entries).pot] else []
  }

  function ActionsOf(streets: seq<StreetSummary>): seq<ActionEntry>
  {
    if streets == [] then [] else ActionsOf(streets[..|streets| - 1]) + streets[|streets| - 1].actions
  }

  function EndsOf(streets: seq<StreetSummary>): (r: seq<int>)
    ensures |r| == |streets| && forall i :: 0 <= i < |streets| ==> r[i] == streets[i].end
  {
    seq(|streets|, i requires 0 <= i < |streets| => streets[i].end)
  }

  /** The first street starts at zero and each later one where the previous one ended. */
  ghost predicate StreetsChain(streets: seq<StreetSummary>)
  {
    && (streets != [] ==> streets[0].start == 0)
    && forall j, k :: 0 <= j < k < |streets| && k == j + 1 ==> streets[k].start == streets[j].end
  }

  /** A street as opened: its name, and how many actions came before it. */
  datatype Opening = Opening(name: string, before: nat)

  /** What the deals of the ledger open, each after the wagers that precede it. */
  function DealtOpenings(entries: seq<LedgerRow>): seq<Opening>
  {
    if entries == [] then []
    else
      var e := entries[|entries| - 1];
      DealtOpenings(entries[..|entries| - 1])
      + if e.kind == StreetDealt then [Opening(DealtName(e), |WagerLog(entries)|)] else []
  }

  /** Where the streets of a timeline begin. */
  function OpeningsOf(streets: seq<StreetSummary>): seq<Opening>
  {
    if streets == [] then []
    else
      var front := streets[..|streets| - 1];
      OpeningsOf(front) + [Opening(streets[|streets| - 1].name, |ActionsOf(front)|)]
  }

  /** The locals of the loop. */
  datatype Building = Building(
    streets: seq<StreetSummary>, current: StreetSummary, pot: int,
    payouts: seq<PayoutLine>, corrections: seq<LedgerRow>, completed: bool, reopened: bool)

  ghost predicate StreetsMatch(b: Building, entries: seq<LedgerRow>)
  {
    && b.pot == Rebuild(entries).pot
    && ActionsOf(b.streets) + b.current.actions == WagerLog(entries)
    && StreetsChain(b.streets)
    && b.current.start == (if b.streets == [] then 0 else b.streets[|b.streets| - 1].end)
    && EndsOf(b.streets) == PotsAtDeals(entries)
  }

  ghost predicate OpeningsMatch(b: Building, entries: seq<LedgerRow>)
  {
    OpeningsOf(b.streets) + [Opening(b.current.name, |ActionsOf(b.streets)|)]
    == [Opening("PRE_FLOP", 0)] + DealtOpenings(entries)
  }

  ghost predicate LinesMatch(b: Building, entries: seq<LedgerRow>)
  {
    && b.payouts == PayoutLog(entries) && b.corrections == CorrectionLog(entries)
    && b.completed == Rebuild(entries).completed && b.reopened == Rebuild(entries).reopened
  }

  ghost predicate Matched(b: Building, entries: seq<LedgerRow>)
  {
    StreetsMatch(b, entries) && OpeningsMatch(b, entries) && LinesMatch(b, entries)
  }

  /** One turn of the loop. */
  method AddLine(b: Building, e: LedgerRow) returns (n: Building)
    ensures n == Extended(b, e)
  {
    n := b;
    if e.kind == StreetDealt {
      n := n.(streets := n.streets + [n.current.(end := n.pot)]);
      n := n.(current := StreetSummary(DealtName(e), [], n.pot, 0));
    } else if IsWager(e.kind) {
      n := n.(pot := n.pot + AmountOf(e));
      n := n.(current := n.current.(actions := n.current.actions + [ActionEntry(e, AmountOf(e), n.pot)]));
    } else if e.kind == PayoutAwarded {
      if Named(e.player) {
        n := n.(payouts := n.payouts + [PayoutLine(e, e.player.value, AmountOf(e))]);
      }
    } else if e.kind == RoundCompleted {
      n := n.(completed := true);
    } else {
      if e.kind == HandReopened {
        n := n.(reopened := true, completed := false);
      }
      if e.kind == ActionReversed {
        n := n.(pot := n.pot - AmountOf(e));
      }
      n := n.(corrections := n.corrections + [e]);
    }
  }

  function Extended(b: Building, e: LedgerRow): Building
  {
    var pot := PotAfter(b.pot, e);
    Building(
      if e.kind == StreetDealt then b.streets + [b.current.(end := b.pot)] else b.streets,
      if e.kind == StreetDealt then StreetSummary(DealtName(e), [], b.pot, 0)
      else if IsWager(e.kind) then b.current.(actions := b.current.actions + [ActionEntry(e, AmountOf(e), pot)])
      else b.current,
      pot,
      if e.kind == PayoutAwarded && Named(e.player)
      then b.payouts + [PayoutLine(e, e.player.value, AmountOf(e))] else b.payouts,
      if IsCorrection(e.kind) then b.corrections + [e] else b.corrections,
      (b.completed || e.kind == RoundCompleted) && e.kind != HandReopened,
      b.reopened || e.kind == HandReopened)
  }

  /** `build_hand_timeline`, for every ledger: the actions of all streets are the wagers with
      the rebuilt pot after each, split where the deals are, streets chain and end at the
      rebuilt pot of each deal, and the final pot, payouts, corrections and flags are those of
      the rebuild. */
  method BuildHandTimeline(entries: seq<LedgerRow>) returns (t: HandTimeline)
    ensures t.total == |entries| && |t.streets| > 0
    ensures ActionsOf(t.streets) == WagerLog(entries)
    ensures OpeningsOf(t.streets) == [Opening("PRE_FLOP", 0)] + DealtOpenings(entries)
    ensures StreetsChain(t.streets)
    ensures EndsOf(t.streets) == PotsAtDeals(entries) + [Rebuild(entries).pot]
    ensures t.payouts == PayoutLog(entries) && t.corrections == CorrectionLog(entries)
    ensures t.completed == Rebuild(entries).completed && t.reopened == Rebuild(entries).reopened
  {
    var b := Building([], StreetSummary("PRE_FLOP", [], 0, 0), 0, [], [], false, false);
    for i := 0 to |entries|
      invariant Matched(b, entries[..i])
    {
      EntryStaysMatched(b, entries, i);
      b := AddLine(b, entries[i]);
    }
    assert entries[..|entries|] == entries;
    StreetCloses(b.streets, b.current, b.pot);
    OpeningsGrow(b.streets, b.current.(end := b.pot));
    t := HandTimeline(b.streets + [b.current.(end := b.pot)], b.payouts, b.corrections,
                      b.completed, b.reopened, |entries|);
  }

  /** A ledger without a dealt street has a timeline of one street. */
  lemma {:induction false} NothingDealt(entries: seq<LedgerRow>)
    requires forall k :: 0 <= k < |entries| ==> entries[k].kind != StreetDealt
    ensures DealtOpenings(entries) == [] && PotsAtDeals(entries) == []
  {
    if entries != [] {
      NothingDealt(entries[..|entries| - 1]);
    }
  }

  lemma ChainGrows(streets: seq<StreetSummary>, last: StreetSummary)
    requires StreetsChain(streets) && last.start == if streets == [] then 0 else streets[|streets| - 1].end
    ensures StreetsChain(streets + [last])
  {
  }

  lemma ActionsGrow(streets: seq<StreetSummary>, last: StreetSummary)
    ensures ActionsOf(streets + [last]) == ActionsOf(streets) + last.actions
  {
    assert (streets + [last])[..|streets|] == streets;
  }

  lemma EndsGrow(streets: seq<StreetSummary>, last: StreetSummary)
    ensures EndsOf(streets + [last]) == EndsOf(streets) + [last.end]
  {
  }

  /** Closing the current street extends the chain, the actions and the end pots. */
  lemma StreetCloses(streets: seq<StreetSummary>, current: StreetSummary, pot: int)
    requires StreetsChain(streets) && current.start == if streets == [] then 0 else streets[|streets| - 1].end
    ensures StreetsChain(streets + [current.(end := pot)])
    ensures ActionsOf(streets + [current.(end := pot)]) == ActionsOf(streets) + current.actions
    ensures EndsOf(streets + [current.(end := pot)]) == EndsOf(streets) + [pot]
  {
    ChainGrows(streets, current.(end := pot));
    ActionsGrow(streets, current.(end := pot));
    EndsGrow(streets, current.(end := pot));
  }

  /** What one more entry adds to the reference logs. */
  lemma LogsGrow(front: seq<LedgerRow>, e: LedgerRow)
    ensures var pot := PotAfter(Rebuild(front).pot, e);
            && Rebuild(front + [e]).pot == pot
            && WagerLog(front + [e])
               == WagerLog(front) + (if IsWager(e.kind) then [ActionEntry(e, AmountOf(e), pot)] else [])
            && PotsAtDeals(front + [e]) == PotsAtDeals(front) + if e.kind == StreetDealt then [pot] else []
  {
    assert (front + [e])[..|front|] == front;
  }

  lemma DealStaysMatched(b: Building, front: seq<LedgerRow>, e: LedgerRow)
    requires StreetsMatch(b, front) && e.kind == StreetDealt
    ensures StreetsMatch(Extended(b, e), front + [e])
  {
    LogsGrow(front, e);
    StreetCloses(b.streets, b.current, b.pot);
    assert ActionsOf(b.streets + [b.current.(end := b.pot)]) + [] == WagerLog(front) + [];
  }

  lemma WagerStaysMatched(b: Building, front: seq<LedgerRow>, e: LedgerRow)
    requires StreetsMatch(b, front) && IsWager(e.kind)
    ensures StreetsMatch(Extended(b, e), front + [e])
  {
    LogsGrow(front, e);
    var line := ActionEntry(e, AmountOf(e), b.pot + AmountOf(e));
    assert ActionsOf(b.streets) + (b.current.actions + [line]) == ActionsOf(b.streets) + b.current.actions + [line];
    assert PotsAtDeals(front) + [] == PotsAtDeals(front);
  }

  lemma StreetsStayMatched(b: Building, front: seq<LedgerRow>, e: LedgerRow)
    requires StreetsMatch(b, front)
    ensures StreetsMatch(Extended(b, e), front + [e])
  {
    if e.kind == StreetDealt {
      DealStaysMatched(b, front, e);
    } else if IsWager(e.kind) {
      WagerStaysMatched(b, front, e);
    } else {
      LogsGrow(front, e);
      assert WagerLog(front) + [] == WagerLog(front) && PotsAtDeals(front) + [] == PotsAtDeals(front);
    }
  }

  lemma OpeningsGrow(streets: seq<StreetSummary>, last: StreetSummary)
    ensures OpeningsOf(streets + [last]) == OpeningsOf(streets) + [Opening(last.name, |ActionsOf(streets)|)]
  {
    assert (streets + [last])[..|streets|] == streets;
  }

  lemma DealGrows(front: seq<LedgerRow>, e: LedgerRow)
    ensures DealtOpenings(front + [e])
            == DealtOpenings(front) + if e.kind == StreetDealt then [Opening(DealtName(e), |WagerLog(front)|)] else []
  {
    assert (front + [e])[..|front|] == front;
  }

  lemma OpeningsStayMatched(b: Building, front: seq<LedgerRow>, e: LedgerRow)
    requires StreetsMatch(b, front) && OpeningsMatch(b, front)
    ensures OpeningsMatch(Extended(b, e), front + [e])
  {
    DealGrows(front, e);
    if e.kind == StreetDealt {
      OpeningsGrow(b.streets, b.current.(end := b.pot));
      ActionsGrow(b.streets, b.current.(end := b.pot));
    } else {
      assert DealtOpenings(front) + [] == DealtOpenings(front);
    }
  }

  lemma LinesStayMatched(b: Building, front: seq<LedgerRow>, e: LedgerRow)
    requires LinesMatch(b, front)
    ensures LinesMatch(Extended(b, e), front + [e])
  {
    assert (front + [e])[..|front|] == front;
  }

  lemma EntryStaysMatched(b: Building, entries: seq<LedgerRow>, i: nat)
    requires i < |entries| && Matched(b, entries[..i])
    ensures Matched(Extended(b, entries[i]), entries[..i + 1])
  {
    StreetsStayMatched(b, entries[..i], entries[i]);
    OpeningsStayMatched(b, entries[..i], entries[i]);
    LinesStayMatched(b, entries[..i], entries[i]);
    assert entries[..i + 1] == entries[..i] + [entries[i]];
  }
}
