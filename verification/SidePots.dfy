/** `calculate_side_pots`, `_merge_dead_pots` and `_unique_ordered`. */
module SidePots {
  import opened Basics
  import opened HandTypes

  datatype Contribution = Contribution(id: PlayerId, committed: int, folded: bool, showdown: bool)

  datatype RawPot = RawPot(amount: int, contributors: seq<PlayerId>, eligible: seq<PlayerId>)

  datatype Pot = Pot(index: nat, amount: int, contributors: seq<PlayerId>, eligible: seq<PlayerId>)

  /** May win chips: reached showdown and never folded. */
  predicate Live(p: Contribution) { !p.folded && p.showdown }

  function Committed(p: Contribution): int { p.committed }

  function RawAmount(p: RawPot): int { p.amount }

  // -------------------------------------------------------------------- tiers

  /** The players of the list committed beyond `level`, in list order. */
  function Above(s: seq<Contribution>, level: int): seq<Contribution>
  {
    if s == [] then []
    else if s[0].committed > level then [s[0]] + Above(s[1..], level)
    else Above(s[1..], level)
  }

  function LiveOf(s: seq<Contribution>): seq<Contribution>
  {
    if s == [] then []
    else if Live(s[0]) then [s[0]] + LiveOf(s[1..])
    else LiveOf(s[1..])
  }

  function Ids(s: seq<Contribution>): (r: seq<PlayerId>)
    ensures |r| == |s|
  {
    if s == [] then [] else [s[0].id] + Ids(s[1..])
  }

  /** The chips between two successive levels, and who put them there. */
  function Tier(s: seq<Contribution>, below: int, level: int): RawPot
  {
    var above := Above(s, below);
    RawPot((level - below) * |above|, Ids(above), Ids(LiveOf(above)))
  }

  /** The tiers the loop still has to build from position `i` on, standing at `below`. */
  function TiersFrom(s: seq<Contribution>, i: nat, below: int): seq<RawPot>
    requires i <= |s|
    decreases |s| - i
  {
    if i == |s| then []
    else if s[i].committed <= below then TiersFrom(s, i + 1, below)
    else [Tier(s, below, s[i].committed)] + TiersFrom(s, i + 1, s[i].committed)
  }

  // ------------------------------------------------------------------- merging

  function UniqueOrdered(items: seq<PlayerId>): seq<PlayerId>
  {
    if items == [] then [] else
      var last := items[|items| - 1];
      var r := UniqueOrdered(items[..|items| - 1]);
      if last in r then r else r + [last]
  }

  datatype Merge = Merge(result: seq<RawPot>, carry: int, carried: seq<PlayerId>)

  /** One turn of the merging loop. */
  function MergeOne(m: Merge, pot: RawPot): Merge
  {
    var amount := pot.amount + m.carry;
    var contributors := UniqueOrdered(m.carried + pot.contributors);
    if pot.eligible != [] then Merge(m.result + [RawPot(amount, contributors, pot.eligible)], 0, [])
    else Merge(m.result, amount, contributors)
  }

  function MergeAll(raw: seq<RawPot>): Merge
  {
    if raw == [] then Merge([], 0, [])
    else MergeOne(MergeAll(raw[..|raw| - 1]), raw[|raw| - 1])
  }

  /** What follows the loop: a leftover joins the last pot, or stands alone. */
  function Finish(m: Merge): seq<RawPot>
  {
    if m.carry > 0 && m.result != [] then
      var last := m.result[|m.result| - 1];
      var contributors := UniqueOrdered(last.contributors + m.carried);
      m.result[|m.result| - 1 := RawPot(last.amount + m.carry, contributors, last.eligible)]
    else if m.carry > 0 then m.result + [RawPot(m.carry, m.carried, [])]
    else m.result
  }

  function MergeDeadPots(raw: seq<RawPot>): seq<RawPot> { Finish(MergeAll(raw)) }

  function Numbered(raw: seq<RawPot>): (pots: seq<Pot>)
    ensures |pots| == |raw|
    ensures forall i :: 0 <= i < |raw| ==> pots[i] == Pot(i, raw[i].amount, raw[i].contributors, raw[i].eligible)
  {
    seq(|raw|, i requires 0 <= i < |raw| => Pot(i, raw[i].amount, raw[i].contributors, raw[i].eligible))
  }

  function CalculateSidePots(ps: seq<Contribution>): seq<Pot>
  {
    Numbered(MergeDeadPots(TiersFrom(SortBy(ps, Committed), 0, 0)))
  }

  // ---------------------------------------------------------- the source's loops

  method RunUniqueOrdered(items: seq<PlayerId>) returns (out: seq<PlayerId>)
    ensures out == UniqueOrdered(items)
  {
    var seen: set<PlayerId> := {};
    out := [];
    for i := 0 to |items|
      invariant out == UniqueOrdered(items[..i])
      invariant forall x :: x in seen <==> x in out
    {
      assert items[..i + 1][..i] == items[..i];
      if items[i] !in seen {
        seen := seen + {items[i]};
        out := out + [items[i]];
      }
    }
    assert items[..|items|] == items;
  }

  lemma {:induction false} AboveAppend(s: seq<Contribution>, p: Contribution, below: int)
    ensures Above(s + [p], below) == Above(s, below) + if p.committed > below then [p] else []
  {
    if s == [] {
      assert s + [p] == [p] && [p][1..] == [];
    } else {
      assert (s + [p])[1..] == s[1..] + [p];
      AboveAppend(s[1..], p, below);
    }
  }

  lemma {:induction false} LiveAppend(s: seq<Contribution>, p: Contribution)
    ensures LiveOf(s + [p]) == LiveOf(s) + if Live(p) then [p] else []
  {
    if s == [] {
      assert s + [p] == [p] && [p][1..] == [];
    } else {
      assert (s + [p])[1..] == s[1..] + [p];
      LiveAppend(s[1..], p);
    }
  }

  lemma {:induction false} IdsAppend(s: seq<Contribution>, p: Contribution)
    ensures Ids(s + [p]) == Ids(s) + [p.id]
  {
    if s == [] {
      assert s + [p] == [p] && [p][1..] == [];
    } else {
      assert (s + [p])[1..] == s[1..] + [p];
      IdsAppend(s[1..], p);
    }
  }

  /** What one more player adds to the two lists of a tier. */
  lemma TierStep(s: seq<Contribution>, p: Contribution, below: int)
    ensures var was, now := Above(s, below), Above(s + [p], below);
            if p.committed > below then
              && Ids(now) == Ids(was) + [p.id]
              && Ids(LiveOf(now)) == Ids(LiveOf(was)) + if Live(p) then [p.id] else []
            else now == was
  {
    AboveAppend(s, p, below);
    if p.committed > below {
      IdsAppend(Above(s, below), p);
      LiveAppend(Above(s, below), p);
      if Live(p) {
        IdsAppend(LiveOf(Above(s, below)), p);
      } else {
        assert LiveOf(Above(s, below)) + [] == LiveOf(Above(s, below));
      }
    }
  }

  method CollectTier(s: seq<Contribution>, below: int) returns (contributors: seq<PlayerId>, eligible: seq<PlayerId>)
    ensures contributors == Ids(Above(s, below)) && eligible == Ids(LiveOf(Above(s, below)))
  {
    contributors, eligible := [], [];
    for i := 0 to |s|
      invariant contributors == Ids(Above(s[..i], below))
      invariant eligible == Ids(LiveOf(Above(s[..i], below)))
    {
      TierStep(s[..i], s[i], below);
      assert s[..i + 1] == s[..i] + [s[i]];
      if s[i].committed > below {
        contributors := contributors + [s[i].id];
        if !s[i].folded && s[i].showdown {
          eligible := eligible + [s[i].id];
        }
      }
    }
    assert s[..|s|] == s;
  }

  method RunTier(s: seq<Contribution>, below: int, level: int) returns (pot: RawPot)
    ensures pot == Tier(s, below, level)
  {
    var contributors, eligible := CollectTier(s, below);
    pot := RawPot((level - below) * |contributors|, contributors, eligible);
  }

  lemma {:induction false} MergeOneMore(raw: seq<RawPot>, i: nat)
    requires i < |raw|
    ensures MergeAll(raw[..i + 1]) == MergeOne(MergeAll(raw[..i]), raw[i])
  {
    assert raw[..i + 1][..i] == raw[..i];
  }

  /** The statement after the merging loop. */
  method RunFinish(m: Merge) returns (result: seq<RawPot>)
    ensures result == Finish(m)
  {
    result := m.result;
    if m.carry > 0 && result != [] {
      var last := result[|result| - 1];
      var contributors := RunUniqueOrdered(last.contributors + m.carried);
      result := result[|result| - 1 := RawPot(last.amount + m.carry, contributors, last.eligible)];
    } else if m.carry > 0 {
      result := result + [RawPot(m.carry, m.carried, [])];
    }
  }

  method RunMergeDeadPots(raw: seq<RawPot>) returns (result: seq<RawPot>)
    ensures result == MergeDeadPots(raw)
  {
    result := [];
    var carry := 0;
    var carried: seq<PlayerId> := [];
    for i := 0 to |raw|
      invariant Merge(result, carry, carried) == MergeAll(raw[..i])
    {
      MergeOneMore(raw, i);
      var pot := raw[i];
      var amount := pot.amount + carry;
      var contributors := RunUniqueOrdered(carried + pot.contributors);
      if pot.eligible != [] {
        result := result + [RawPot(amount, contributors, pot.eligible)];
        carry := 0;
        carried := [];
      } else {
        carry := amount;
        carried := contributors;
      }
    }
    assert raw[..|raw|] == raw;
    result := RunFinish(Merge(result, carry, carried));
  }

  method RunTiers(s: seq<Contribution>) returns (raw: seq<RawPot>)
    ensures raw == TiersFrom(s, 0, 0)
  {
    raw := [];
    var below := 0;
    for i := 0 to |s|
      invariant raw + TiersFrom(s, i, below) == TiersFrom(s, 0, 0)
    {
      var level := s[i].committed;
      if level > below {
        var pot := RunTier(s, below, level);
        assert TiersFrom(s, i, below) == [pot] + TiersFrom(s, i + 1, level);
        raw := raw + [pot];
        below := level;
      }
    }
  }

  method RunCalculateSidePots(ps: seq<Contribution>) returns (pots: seq<Pot>)
    ensures pots == CalculateSidePots(ps)
  {
    if ps == [] {
      return [];
    }
    var raw := RunTiers(SortBy(ps, Committed));
    var merged := RunMergeDeadPots(raw);
    pots := Numbered(merged);
  }
}
