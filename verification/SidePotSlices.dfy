/** The side pots, told from the commitments alone: where the chips are cut, and what each
    slice holds. */
module SidePotSlices {
  import opened Basics
  import opened HandTypes
  import opened SidePots
  import opened SidePotTheory
  import opened SidePotMerging
  import opened SidePotTheorems

  /** Somebody stopped at `c`, short of a live commitment. */
  ghost predicate IsCut(ps: seq<Contribution>, c: int)
  {
    && c > 0
    && (exists p :: p in ps && p.committed == c)
    && (exists l :: l in ps && Live(l) && l.committed > c)
  }

  ghost predicate BeyondCut(ps: seq<Contribution>, low: int, id: PlayerId)
  {
    exists p :: p in ps && p.id == id && p.committed > low
  }

  ghost predicate LiveBeyondCut(ps: seq<Contribution>, low: int, id: PlayerId)
  {
    exists p :: p in ps && p.id == id && p.committed > low && Live(p)
  }

  /** The chips committed below `high`, or all of them. */
  function Below(ps: seq<Contribution>, high: Option<int>): int
  {
    SumBy(ps, if high.Some? then CappedAt(high.value) else Committed)
  }

  /** Pot number `k` holds the chips between two cuts; everybody beyond the lower cut
      contributes, once, and the live ones among them may win it. */
  ghost predicate IsSlice(ps: seq<Contribution>, pot: Pot, k: nat, low: int, high: Option<int>)
  {
    && pot.index == k
    && pot.amount == Below(ps, high) - Below(ps, Some(low))
    && NoDuplicates(pot.contributors)
    && forall id :: (id in pot.contributors <==> BeyondCut(ps, low, id))
                 && (id in pot.eligible <==> LiveBeyondCut(ps, low, id))
  }

  function CutAbove(cuts: seq<int>, k: nat): Option<int>
  {
    if k + 1 < |cuts| then Some(cuts[k + 1]) else None
  }

  ghost predicate CutsAre(ps: seq<Contribution>, cuts: seq<int>)
  {
    && (forall i, j :: 0 <= i < j < |cuts| ==> cuts[i] < cuts[j])
    && (cuts == [] <==> forall p :: p in ps ==> p.committed <= 0)
    && (cuts != [] ==> cuts[0] == 0)
    && forall c :: c > 0 ==> (c in cuts <==> IsCut(ps, c))
  }

  ghost predicate SlicedAt(ps: seq<Contribution>, pots: seq<Pot>, cuts: seq<int>)
  {
    && |pots| == |cuts|
    && forall k :: 0 <= k < |pots| ==> IsSlice(ps, pots[k], k, cuts[k], CutAbove(cuts, k))
  }

  // ------------------------------------------------------------- on the sorted players

  /** How many pots there are: the live tiers, or one when no tier is live. */
  function PotCount(raw: seq<RawPot>): (n: nat)
    ensures n <= |raw|
  {
    if raw == [] then 0 else if LiveTiers(raw) == 0 then 1 else LiveTiers(raw)
  }

  ghost function CutsOf(s: seq<Contribution>): (cuts: seq<int>)
    ensures |cuts| == PotCount(TiersFrom(s, 0, 0))
    ensures forall k :: 0 <= k < |cuts| ==> cuts[k] == Under(LevelsFrom(s, 0, 0), k, 0)
  {
    var n, levels := PotCount(TiersFrom(s, 0, 0)), LevelsFrom(s, 0, 0);
    seq(n, k requires 0 <= k < n => Under(levels, k, 0))
  }

  lemma LowerLevelsAreCuts(s: seq<Contribution>, t: nat)
    requires SortedBy(s, Committed) && DistinctBy(s, IdOf) && t < |TiersFrom(s, 0, 0)|
    ensures t + 1 < PotCount(TiersFrom(s, 0, 0)) <==> IsCut(s, LevelsFrom(s, 0, 0)[t])
  {
    var raw, levels := TiersFrom(s, 0, 0), LevelsFrom(s, 0, 0);
    LevelsAreCuts(s);
    assert levels[t] in levels;
    if t < LiveTiers(raw) {
      LastLiveLevel(s, t);
    }
    if l :| l in s && Live(l) && l.committed > levels[t] {
      BeyondMeansLive(s, l, t);
    }
  }

  lemma NoChipsNoTiers(s: seq<Contribution>)
    requires SortedBy(s, Committed)
    ensures TiersFrom(s, 0, 0) == [] <==> forall p :: p in s ==> p.committed <= 0
  {
    var levels := LevelsFrom(s, 0, 0);
    LevelsAreCuts(s);
    if levels != [] {
      assert levels[0] in levels;
    }
  }

  lemma CutsAscend(s: seq<Contribution>)
    ensures forall i, j :: 0 <= i < j < |CutsOf(s)| ==> CutsOf(s)[i] < CutsOf(s)[j]
  {
    LevelsAscend(s, 0, 0);
  }

  lemma CutIsOne(s: seq<Contribution>, c: int)
    requires SortedBy(s, Committed) && DistinctBy(s, IdOf) && c > 0 && c in CutsOf(s)
    ensures IsCut(s, c)
  {
    var k :| 0 <= k < |CutsOf(s)| && CutsOf(s)[k] == c;
    LowerLevelsAreCuts(s, k - 1);
  }

  lemma CutIsFound(s: seq<Contribution>, c: int)
    requires SortedBy(s, Committed) && DistinctBy(s, IdOf) && IsCut(s, c)
    ensures c in CutsOf(s)
  {
    var p :| p in s && p.committed == c;
    var t := LevelOf(s, p);
    LowerLevelsAreCuts(s, t);
    assert CutsOf(s)[t + 1] == c;
  }

  lemma SortedCuts(s: seq<Contribution>)
    requires SortedBy(s, Committed) && DistinctBy(s, IdOf)
    ensures CutsAre(s, CutsOf(s))
  {
    CutsAscend(s);
    NoChipsNoTiers(s);
    forall c | c > 0 ensures c in CutsOf(s) <==> IsCut(s, c) {
      if c in CutsOf(s) {
        CutIsOne(s, c);
      }
      if IsCut(s, c) {
        CutIsFound(s, c);
      }
    }
  }

  lemma TierIsSliced(s: seq<Contribution>, k: nat)
    requires SortedBy(s, Committed) && DistinctBy(s, IdOf) && k < |TiersFrom(s, 0, 0)|
    ensures var tier, low := TiersFrom(s, 0, 0)[k], Under(LevelsFrom(s, 0, 0), k, 0);
            && NoDuplicates(tier.contributors)
            && forall id :: (id in tier.contributors <==> BeyondCut(s, low, id))
                         && (id in tier.eligible <==> LiveBeyondCut(s, low, id))
  {
    var levels := LevelsFrom(s, 0, 0);
    var low := Under(levels, k, 0);
    TierAt(s, 0, 0, k);
    ContributorsAreUnique(s, low);
    forall id ensures (id in TiersFrom(s, 0, 0)[k].contributors <==> BeyondCut(s, low, id))
                   && (id in TiersFrom(s, 0, 0)[k].eligible <==> LiveBeyondCut(s, low, id)) {
      TierMembers(s, low, levels[k], id);
    }
  }

  lemma SumOfTheRest<T>(s: seq<T>, k: nat, f: T -> int)
    requires k <= |s|
    ensures SumBy(s[k..], f) == SumBy(s, f) - SumBy(s[..k], f)
  {
    assert s == s[..k] + s[k..];
    SumByConcat(s[..k], s[k..], f);
  }

  /** The last pot holds all chips beyond its cut. */
  lemma LastPotHoldsTheRest(s: seq<Contribution>, k: nat)
    requires SortedBy(s, Committed) && NonNegative(s) && k < |TiersFrom(s, 0, 0)|
    ensures SumBy(TiersFrom(s, 0, 0)[k..], RawAmount)
            == SumBy(s, Committed) - SumBy(s, CappedAt(Under(LevelsFrom(s, 0, 0), k, 0)))
  {
    var raw := TiersFrom(s, 0, 0);
    TiersHoldAll(s);
    TiersUpTo(s, k);
    SumOfTheRest(raw, k, RawAmount);
  }

  lemma MergedPot(raw: seq<RawPot>, k: nat)
    requires k < PotCount(raw)
    requires LiveTiers(raw) == 0 ==> raw[0].eligible == []
    ensures var merged := MergedTiers(raw, LiveTiers(raw));
            && |merged| == PotCount(raw)
            && merged[k].contributors == raw[k].contributors && merged[k].eligible == raw[k].eligible
            && merged[k].amount == if k + 1 < PotCount(raw) then raw[k].amount else SumBy(raw[k..], RawAmount)
  {
    var m := LiveTiers(raw);
    if k + 1 == PotCount(raw) {
      assert raw[k..][1..] == raw[k + 1..];
      if m == 0 {
        assert raw[0..] == raw;
      } else if m == |raw| {
        assert raw[k + 1..] == [];
      }
    }
  }

  lemma SortedSlices(s: seq<Contribution>, k: nat)
    requires SortedBy(s, Committed) && DistinctBy(s, IdOf) && NonNegative(s)
    requires k < PotCount(TiersFrom(s, 0, 0))
    ensures var raw := TiersFrom(s, 0, 0);
            var pots := Numbered(MergedTiers(raw, LiveTiers(raw)));
            && |pots| == PotCount(raw)
            && IsSlice(s, pots[k], k, CutsOf(s)[k], CutAbove(CutsOf(s), k))
  {
    MergedPot(TiersFrom(s, 0, 0), k);
    TierIsSliced(s, k);
    if k + 1 < PotCount(TiersFrom(s, 0, 0)) {
      TierWorth(s, k);
    } else {
      LastPotHoldsTheRest(s, k);
    }
  }

  // ---------------------------------------------------------------------- the theorem

  lemma SliceOfAnyOrder(ps: seq<Contribution>, s: seq<Contribution>, pot: Pot, k: nat, low: int, high: Option<int>)
    requires s == SortBy(ps, Committed) && IsSlice(s, pot, k, low, high)
    ensures IsSlice(ps, pot, k, low, high)
  {
    SortBySorted(ps, Committed);
    SortBySum(ps, Committed, if high.Some? then CappedAt(high.value) else Committed);
    SortBySum(ps, Committed, CappedAt(low));
    assert Below(s, high) == Below(ps, high) && Below(s, Some(low)) == Below(ps, Some(low));
    forall id ensures (BeyondCut(s, low, id) <==> BeyondCut(ps, low, id))
                   && (LiveBeyondCut(s, low, id) <==> LiveBeyondCut(ps, low, id)) {
    }
  }

  lemma CutsOfAnyOrder(ps: seq<Contribution>, s: seq<Contribution>, cuts: seq<int>)
    requires s == SortBy(ps, Committed) && CutsAre(s, cuts)
    ensures CutsAre(ps, cuts)
  {
    SortBySorted(ps, Committed);
    forall c ensures IsCut(s, c) <==> IsCut(ps, c) {
    }
  }

  /** For distinct players with no negative commitment: the chips are cut at 0 and wherever
      somebody stopped short of a live commitment, and nowhere else; there is one pot for each
      cut, in order, holding the chips between that cut and the next (the last one all that is
      left), with everybody committed beyond the cut as contributor and the live ones eligible.
      Without chips there is no pot. */
  lemma PotsAreSlices(ps: seq<Contribution>) returns (cuts: seq<int>)
    requires DistinctBy(ps, IdOf) && NonNegative(ps)
    ensures CutsAre(ps, cuts) && SlicedAt(ps, CalculateSidePots(ps), cuts)
  {
    var s := SortBy(ps, Committed);
    SortedCopy(ps);
    PotStructure(ps);
    cuts := CutsOf(s);
    SortedCuts(s);
    CutsOfAnyOrder(ps, s, cuts);
    var raw := TiersFrom(s, 0, 0);
    forall k | 0 <= k < |cuts| ensures IsSlice(ps, CalculateSidePots(ps)[k], k, cuts[k], CutAbove(cuts, k)) {
      SortedSlices(s, k);
      SliceOfAnyOrder(ps, s, CalculateSidePots(ps)[k], k, cuts[k], CutAbove(cuts, k));
    }
  }
}
