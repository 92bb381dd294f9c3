/** The three facts a settlement rests on: the pots split the committed chips exactly, their
    structure, and how many chips each player can be awarded at most. */
module SidePotTheorems {
  import opened Basics
  import opened HandTypes
  import opened SidePots
  import opened SidePotTheory
  import opened SidePotMerging

  ghost predicate NonNegative(ps: seq<Contribution>)
  {
    forall p :: p in ps ==> p.committed >= 0
  }

  lemma SortedCopy(ps: seq<Contribution>)
    ensures SortedBy(SortBy(ps, Committed), Committed)
    ensures forall p :: p in SortBy(ps, Committed) <==> p in ps
    ensures NonNegative(ps) ==> NonNegative(SortBy(ps, Committed))
    ensures DistinctBy(ps, IdOf) ==> DistinctBy(SortBy(ps, Committed), IdOf)
  {
    SortBySorted(ps, Committed);
    if DistinctBy(ps, IdOf) {
      SortByDistinct(ps, Committed, IdOf);
    }
  }

  /** For every input with non-negative commitments, every pot has chips in it and together
      they hold exactly the committed chips. */
  lemma PotsHoldAllChips(ps: seq<Contribution>)
    requires NonNegative(ps)
    ensures SumBy(CalculateSidePots(ps), PotAmount) == SumBy(ps, Committed)
    ensures forall k :: 0 <= k < |CalculateSidePots(ps)| ==> CalculateSidePots(ps)[k].amount > 0
  {
    var s := SortBy(ps, Committed);
    var raw := TiersFrom(s, 0, 0);
    SortedCopy(ps);
    forall p | p in raw ensures p.amount > 0 {
      var k :| 0 <= k < |raw| && raw[k] == p;
      TierIsPositive(s, k);
    }
    MergeConserves(raw);
    TiersHoldAll(s);
    SortBySum(ps, Committed, Committed);
    SumByPointwise(MergeDeadPots(raw), RawAmount, CalculateSidePots(ps), PotAmount);
    forall k | 0 <= k < |MergeDeadPots(raw)| ensures CalculateSidePots(ps)[k].amount > 0 {
      assert MergeDeadPots(raw)[k] in MergeDeadPots(raw);
    }
  }

  // ---------------------------------------------------------------- structure

  lemma ContributorsAreUnique(s: seq<Contribution>, below: int)
    requires DistinctBy(s, IdOf)
    ensures NoDuplicates(Ids(Above(s, below)))
  {
    AboveDistinct(s, below);
    IdsAt(Above(s, below));
    var a := Above(s, below);
    forall i, j | 0 <= i < j < |a| ensures Ids(a)[i] != Ids(a)[j] {
      assert IdOf(a[i]) != IdOf(a[j]);
    }
  }

  lemma HigherTiersShrink(s: seq<Contribution>, low: int, lower: int, high: int, higher: int)
    requires low <= high
    ensures Within(Tier(s, high, higher).contributors, Tier(s, low, lower).contributors)
    ensures Within(Tier(s, high, higher).eligible, Tier(s, low, lower).eligible)
  {
    forall x | x in Tier(s, high, higher).contributors ensures x in Tier(s, low, lower).contributors {
      TierMembers(s, high, higher, x);
      TierMembers(s, low, lower, x);
    }
    forall x | x in Tier(s, high, higher).eligible ensures x in Tier(s, low, lower).eligible {
      TierMembers(s, high, higher, x);
      TierMembers(s, low, lower, x);
    }
  }

  /** Successive tiers are nested: contributors and eligible winners only shrink. */
  lemma TiersAreNested(s: seq<Contribution>)
    requires SortedBy(s, Committed) && DistinctBy(s, IdOf)
    ensures Tiered(TiersFrom(s, 0, 0))
  {
    var raw, levels := TiersFrom(s, 0, 0), LevelsFrom(s, 0, 0);
    LevelsAreCuts(s);
    forall k | 0 <= k < |raw| ensures raw[k].amount > 0 && NoDuplicates(raw[k].contributors) {
      TierIsPositive(s, k);
      TierAt(s, 0, 0, k);
      ContributorsAreUnique(s, Under(levels, k, 0));
    }
    forall j, k | 0 <= j < k < |raw|
      ensures Within(raw[k].contributors, raw[j].contributors) && Within(raw[k].eligible, raw[j].eligible)
    {
      TierAt(s, 0, 0, j);
      TierAt(s, 0, 0, k);
      HigherTiersShrink(s, Under(levels, j, 0), levels[j], Under(levels, k, 0), levels[k]);
    }
  }

  /** The pots of any list of distinct players: nested tiers, the winnable ones first, each
      but the last exactly as cut, the last with every unwinnable chip added. */
  lemma PotStructure(ps: seq<Contribution>)
    requires DistinctBy(ps, IdOf)
    ensures var raw := TiersFrom(SortBy(ps, Committed), 0, 0);
            Tiered(raw) && CalculateSidePots(ps) == Numbered(MergedTiers(raw, LiveTiers(raw)))
  {
    SortedCopy(ps);
    TiersAreNested(SortBy(ps, Committed));
    DeadChipsJoinTheLastLivePot(TiersFrom(SortBy(ps, Committed), 0, 0));
  }

  // ----------------------------------------------------------- what one may win

  function EligibleShare(id: PlayerId): Pot -> int
  {
    (pot: Pot) => if id in pot.eligible then pot.amount else 0
  }

  /** The chips in the pots this player may win. */
  function EligibleTotal(pots: seq<Pot>, id: PlayerId): int { SumBy(pots, EligibleShare(id)) }

  lemma {:induction false} SumOfZeros<T>(s: seq<T>, f: T -> int)
    requires forall i :: 0 <= i < |s| ==> f(s[i]) == 0
    ensures SumBy(s, f) == 0
  {
    if s != [] {
      SumOfZeros(s[1..], f);
    }
  }

  lemma EligiblePrefix(merged: seq<RawPot>, id: PlayerId, t: nat)
    requires t <= |merged|
    requires forall k :: 0 <= k < |merged| ==> (id in merged[k].eligible <==> k < t)
    ensures EligibleTotal(Numbered(merged), id) == SumBy(merged[..t], RawAmount)
  {
    var pots := Numbered(merged);
    assert pots == pots[..t] + pots[t..];
    SumByConcat(pots[..t], pots[t..], EligibleShare(id));
    SumByPointwise(pots[..t], EligibleShare(id), merged[..t], RawAmount);
    SumOfZeros(pots[t..], EligibleShare(id));
  }

  /** A player may win tier `k` exactly when live and committed beyond the level under it. */
  lemma EligibleForTier(s: seq<Contribution>, p: Contribution, k: nat)
    requires DistinctBy(s, IdOf) && p in s && k < |TiersFrom(s, 0, 0)|
    ensures p.id in TiersFrom(s, 0, 0)[k].eligible
            <==> Live(p) && p.committed > Under(LevelsFrom(s, 0, 0), k, 0)
  {
    TierAt(s, 0, 0, k);
    var levels := LevelsFrom(s, 0, 0);
    TierMembers(s, Under(levels, k, 0), levels[k], p.id);
    forall q | q in s && q.id == p.id ensures q == p {
      var i :| 0 <= i < |s| && s[i] == q;
      var j :| 0 <= j < |s| && s[j] == p;
      assert i < j ==> IdOf(s[i]) != IdOf(s[j]);
      assert j < i ==> IdOf(s[j]) != IdOf(s[i]);
    }
  }

  ghost predicate LargestLive(ps: seq<Contribution>, c: int)
  {
    forall q :: q in ps && Live(q) ==> q.committed <= c
  }

  /** Every positive commitment is one of the levels. */
  lemma LevelOf(s: seq<Contribution>, p: Contribution) returns (t: nat)
    requires SortedBy(s, Committed) && p in s && p.committed > 0
    ensures Ascending(LevelsFrom(s, 0, 0), 0)
    ensures t < |LevelsFrom(s, 0, 0)| && LevelsFrom(s, 0, 0)[t] == p.committed
  {
    LevelsAreCuts(s);
    t :| 0 <= t < |LevelsFrom(s, 0, 0)| && LevelsFrom(s, 0, 0)[t] == p.committed;
  }

  lemma TierWithWinnerIsLive(s: seq<Contribution>, k: nat)
    requires SortedBy(s, Committed) && DistinctBy(s, IdOf) && k < |TiersFrom(s, 0, 0)|
    requires TiersFrom(s, 0, 0)[k].eligible != []
    ensures k < LiveTiers(TiersFrom(s, 0, 0))
  {
    TiersAreNested(s);
    DeadTiersAreASuffix(TiersFrom(s, 0, 0));
  }

  /** A live player's own level is level `t`; they may win tiers `0..t`, all of them live;
      `t` is the last live tier exactly when nobody live committed more. */
  lemma OwnLevel(s: seq<Contribution>, p: Contribution) returns (t: nat)
    requires SortedBy(s, Committed) && DistinctBy(s, IdOf)
    requires p in s && Live(p) && p.committed > 0
    ensures var raw, levels := TiersFrom(s, 0, 0), LevelsFrom(s, 0, 0);
            && t < LiveTiers(raw) && levels[t] == p.committed
            && (forall k :: 0 <= k < |raw| ==> (p.id in raw[k].eligible <==> k <= t))
            && (t + 1 == LiveTiers(raw) <==> LargestLive(s, p.committed))
  {
    var raw, levels := TiersFrom(s, 0, 0), LevelsFrom(s, 0, 0);
    t := LevelOf(s, p);
    forall k | 0 <= k < |raw| ensures p.id in raw[k].eligible <==> k <= t {
      EligibleForTier(s, p, k);
    }
    assert p.id in raw[t].eligible;
    TierWithWinnerIsLive(s, t);
    LastLiveLevel(s, t);
  }

  /** Somebody live committed beyond level `t` exactly when the next tier is live. */
  lemma LastLiveLevel(s: seq<Contribution>, t: nat)
    requires SortedBy(s, Committed) && DistinctBy(s, IdOf)
    requires t < LiveTiers(TiersFrom(s, 0, 0))
    ensures t + 1 == LiveTiers(TiersFrom(s, 0, 0)) <==> LargestLive(s, LevelsFrom(s, 0, 0)[t])
  {
    forall q | q in s && Live(q) && q.committed > LevelsFrom(s, 0, 0)[t] ensures t + 1 < LiveTiers(TiersFrom(s, 0, 0)) {
      BeyondMeansLive(s, q, t);
    }
    if t + 1 < LiveTiers(TiersFrom(s, 0, 0)) {
      var q := LiveMeansBeyond(s, t + 1);
    }
  }

  lemma BeyondMeansLive(s: seq<Contribution>, q: Contribution, t: nat)
    requires SortedBy(s, Committed) && DistinctBy(s, IdOf) && t < |TiersFrom(s, 0, 0)|
    requires q in s && Live(q) && q.committed > LevelsFrom(s, 0, 0)[t]
    ensures t + 1 < LiveTiers(TiersFrom(s, 0, 0))
  {
    var raw, levels := TiersFrom(s, 0, 0), LevelsFrom(s, 0, 0);
    LevelsAscend(s, 0, 0);
    assert levels[t] > 0;
    var j := LevelOf(s, q);
    assert t < j && (t + 1 < j ==> levels[t + 1] < levels[j]);
    EligibleForTier(s, q, t + 1);
    assert q.id in raw[t + 1].eligible;
    TierWithWinnerIsLive(s, t + 1);
  }

  lemma LiveMeansBeyond(s: seq<Contribution>, k: nat) returns (q: Contribution)
    requires k < LiveTiers(TiersFrom(s, 0, 0))
    ensures q in s && Live(q) && q.committed > Under(LevelsFrom(s, 0, 0), k, 0)
  {
    var raw, levels := TiersFrom(s, 0, 0), LevelsFrom(s, 0, 0);
    TierAt(s, 0, 0, k);
    var id := raw[k].eligible[0];
    TierMembers(s, Under(levels, k, 0), levels[k], id);
    q :| q in s && q.committed > Under(levels, k, 0) && Live(q) && q.id == id;
  }

  lemma NothingToWin(s: seq<Contribution>, p: Contribution)
    requires SortedBy(s, Committed) && DistinctBy(s, IdOf) && p in s
    requires !Live(p) || p.committed == 0
    ensures var raw := TiersFrom(s, 0, 0);
            EligibleTotal(Numbered(MergedTiers(raw, LiveTiers(raw))), p.id) == 0
  {
    var raw := TiersFrom(s, 0, 0);
    var merged := MergedTiers(raw, LiveTiers(raw));
    LevelsAscend(s, 0, 0);
    forall k | 0 <= k < |merged| ensures p.id !in merged[k].eligible {
      EligibleForTier(s, p, k);
    }
    EligiblePrefix(merged, p.id, 0);
  }

  lemma MergedPrefix(raw: seq<RawPot>, m: nat, k: nat)
    requires 0 < m <= |raw| && k < m
    ensures |MergedTiers(raw, m)| == m
    ensures MergedTiers(raw, m)[k].eligible == raw[k].eligible
    ensures k + 1 < m ==> MergedTiers(raw, m)[k] == raw[k]
  {
  }

  /** Who may win exactly the tiers `0..t` may win the merged pots up to `t`. */
  lemma WinnablePrefix(raw: seq<RawPot>, m: nat, id: PlayerId, t: nat)
    requires t < m <= |raw|
    requires forall k :: 0 <= k < |raw| ==> (id in raw[k].eligible <==> k <= t)
    ensures EligibleTotal(Numbered(MergedTiers(raw, m)), id) ==
              if t + 1 == m then SumBy(MergedTiers(raw, m), RawAmount) else SumBy(raw[..t + 1], RawAmount)
  {
    var merged := MergedTiers(raw, m);
    MergedPrefix(raw, m, t);
    forall k | 0 <= k < m ensures (id in merged[k].eligible <==> k < t + 1) && (k + 1 < m ==> merged[k] == raw[k]) {
      MergedPrefix(raw, m, k);
    }
    EligiblePrefix(merged, id, t + 1);
    if t + 1 == m {
      assert merged[..m] == merged;
    } else {
      assert merged[..t + 1] == raw[..t + 1];
    }
  }

  lemma MatchedToWin(s: seq<Contribution>, p: Contribution)
    requires SortedBy(s, Committed) && DistinctBy(s, IdOf) && NonNegative(s) && p in s
    requires Live(p) && p.committed > 0
    ensures var raw := TiersFrom(s, 0, 0);
            EligibleTotal(Numbered(MergedTiers(raw, LiveTiers(raw))), p.id) ==
              if LargestLive(s, p.committed) then SumBy(MergedTiers(raw, LiveTiers(raw)), RawAmount)
              else SumBy(s, CappedAt(p.committed))
  {
    var raw := TiersFrom(s, 0, 0);
    var m := LiveTiers(raw);
    var t := OwnLevel(s, p);
    WinnablePrefix(raw, m, p.id, t);
    TiersUpTo(s, t + 1);
  }

  /** The pots a live player with chips in may win total exactly what matches their own
      commitment, or the whole pot for the largest live commitment; anyone else may win
      nothing. */
  lemma EligibleChips(ps: seq<Contribution>, p: Contribution)
    requires DistinctBy(ps, IdOf) && NonNegative(ps) && p in ps
    ensures EligibleTotal(CalculateSidePots(ps), p.id) ==
              if !Live(p) || p.committed == 0 then 0
              else if LargestLive(ps, p.committed) then SumBy(ps, Committed)
              else SumBy(ps, CappedAt(p.committed))
  {
    var s := SortBy(ps, Committed);
    SortedCopy(ps);
    PotStructure(ps);
    if !Live(p) || p.committed == 0 {
      NothingToWin(s, p);
    } else {
      MatchedToWin(s, p);
    }
    assert LargestLive(s, p.committed) <==> LargestLive(ps, p.committed);
    SortBySum(ps, Committed, CappedAt(p.committed));
    PotsHoldAllChips(ps);
    var raw := TiersFrom(s, 0, 0);
    SumByPointwise(MergedTiers(raw, LiveTiers(raw)), RawAmount, CalculateSidePots(ps), PotAmount);
  }

  // ------------------------------------------------------------------ one pot only

  /** Nobody who put chips in stopped short of a live commitment. */
  ghost predicate NobodyShort(ps: seq<Contribution>)
  {
    forall j, l :: j in ps && l in ps && j.committed > 0 && Live(l) ==> l.committed <= j.committed
  }

  lemma SumOfOne<T>(s: seq<T>, f: T -> int)
    requires |s| == 1
    ensures SumBy(s, f) == f(s[0])
  {
    assert s[1..] == [];
  }

  lemma OneTierFor(s: seq<Contribution>, w: Contribution)
    requires SortedBy(s, Committed) && DistinctBy(s, IdOf)
    requires w in s && Live(w) && w.committed > 0
    ensures LiveTiers(TiersFrom(s, 0, 0)) == 1 <==> NobodyShort(s)
  {
    var raw, levels := TiersFrom(s, 0, 0), LevelsFrom(s, 0, 0);
    var t := OwnLevel(s, w);
    LevelsAreCuts(s);
    LastLiveLevel(s, 0);
    assert levels[0] in levels;
    var lowest :| lowest in s && lowest.committed == levels[0];
    if LiveTiers(raw) == 1 {
      forall j, l | j in s && l in s && j.committed > 0 && Live(l) ensures l.committed <= j.committed {
        var i :| 0 <= i < |levels| && levels[i] == j.committed;
        assert levels[0] <= levels[i];
      }
    }
  }

  /** There is a single pot, and `w` may win it, exactly when `w` is live with chips in and
      every contributor put in at least the largest live commitment. */
  lemma OnePotFor(ps: seq<Contribution>, w: Contribution)
    requires DistinctBy(ps, IdOf) && w in ps && NonNegative(ps)
    ensures var pots := CalculateSidePots(ps);
            |pots| == 1 && w.id in pots[0].eligible <==> Live(w) && w.committed > 0 && NobodyShort(ps)
  {
    var s := SortBy(ps, Committed);
    var raw := TiersFrom(s, 0, 0);
    SortedCopy(ps);
    PotStructure(ps);
    if Live(w) && w.committed > 0 {
      OneTierFor(s, w);
      var t := OwnLevel(s, w);
      MergedPrefix(raw, LiveTiers(raw), 0);
      assert NobodyShort(s) <==> NobodyShort(ps);
    } else {
      NothingToWin(s, w);
      PotsHoldAllChips(ps);
      var pots := CalculateSidePots(ps);
      if |pots| == 1 {
        SumOfOne(pots, EligibleShare(w.id));
      }
    }
  }

  /** Only players of the hand are ever eligible. */
  lemma EligibleArePlayers(ps: seq<Contribution>, k: nat, id: PlayerId)
    requires DistinctBy(ps, IdOf) && k < |CalculateSidePots(ps)|
    requires id in CalculateSidePots(ps)[k].eligible
    ensures exists p :: p in ps && p.id == id
  {
    var s := SortBy(ps, Committed);
    SortedCopy(ps);
    PotStructure(ps);
    var raw := TiersFrom(s, 0, 0);
    MergedEligible(raw, LiveTiers(raw), k, id);
    TierAt(s, 0, 0, k);
    var levels := LevelsFrom(s, 0, 0);
    TierMembers(s, Under(levels, k, 0), levels[k], id);
  }

  lemma MergedEligible(raw: seq<RawPot>, m: nat, k: nat, id: PlayerId)
    requires m <= |raw| && k < |MergedTiers(raw, m)| && id in MergedTiers(raw, m)[k].eligible
    ensures k < |raw| && id in raw[k].eligible
  {
  }

  /** With two pots or more, each can be won by somebody. */
  lemma SeveralPotsAreLive(ps: seq<Contribution>, k: nat)
    requires DistinctBy(ps, IdOf) && |CalculateSidePots(ps)| > 1 && k < |CalculateSidePots(ps)|
    ensures CalculateSidePots(ps)[k].eligible != []
  {
    PotStructure(ps);
    var raw := TiersFrom(SortBy(ps, Committed), 0, 0);
    MergedPrefix(raw, LiveTiers(raw), k);
  }

  lemma MergedCount(raw: seq<RawPot>, m: nat)
    requires m <= |raw|
    ensures |MergedTiers(raw, m)| > 1 <==> m > 1
  {
  }

  /** There are several pots exactly when somebody who put chips in stopped short of a live
      commitment. */
  lemma SeveralPotsIff(ps: seq<Contribution>)
    requires DistinctBy(ps, IdOf)
    ensures |CalculateSidePots(ps)| > 1 <==> !NobodyShort(ps)
  {
    var s := SortBy(ps, Committed);
    var raw := TiersFrom(s, 0, 0);
    SortedCopy(ps);
    PotStructure(ps);
    MergedCount(raw, LiveTiers(raw));
    if !NobodyShort(ps) {
      var j, l :| j in ps && l in ps && j.committed > 0 && Live(l) && l.committed > j.committed;
      SeveralTiers(s, j, l);
    } else if LiveTiers(raw) > 0 {
      var q := LiveMeansBeyond(s, 0);
      OneTierFor(s, q);
      assert NobodyShort(s);
    }
  }

  lemma SeveralTiers(s: seq<Contribution>, j: Contribution, l: Contribution)
    requires SortedBy(s, Committed) && DistinctBy(s, IdOf)
    requires j in s && l in s && j.committed > 0 && Live(l) && l.committed > j.committed
    ensures LiveTiers(TiersFrom(s, 0, 0)) > 1
  {
    OneTierFor(s, l);
    var t := OwnLevel(s, l);
  }
}
