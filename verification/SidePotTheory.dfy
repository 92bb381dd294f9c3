/** What the side pots are worth: they split exactly the committed chips, dead tiers form
    a suffix that lands in the last live pot, and a live player is eligible for exactly
    the chips that match their own commitment. */
module SidePotTheory {
  import opened Basics
  import opened HandTypes
  import opened SidePots

  function PotAmount(p: Pot): int { p.amount }

  function IdOf(p: Contribution): PlayerId { p.id }

  /** The part of each commitment that lies below `c`. */
  function CappedAt(c: int): Contribution -> int { (p: Contribution) => Min(c, p.committed) }

  // ------------------------------------------------------------------ membership

  lemma {:induction false} AboveMembers(s: seq<Contribution>, level: int)
    ensures forall p :: p in Above(s, level) <==> p in s && p.committed > level
  {
    if s != [] {
      AboveMembers(s[1..], level);
    }
  }

  lemma {:induction false} LiveMembers(s: seq<Contribution>)
    ensures forall p :: p in LiveOf(s) <==> p in s && Live(p)
  {
    if s != [] {
      LiveMembers(s[1..]);
    }
  }

  lemma {:induction false} IdsAt(s: seq<Contribution>)
    ensures forall i :: 0 <= i < |s| ==> Ids(s)[i] == s[i].id
  {
    if s != [] {
      IdsAt(s[1..]);
    }
  }

  lemma IdsMembers(s: seq<Contribution>, id: PlayerId)
    ensures id in Ids(s) <==> exists p :: p in s && p.id == id
  {
    IdsAt(s);
    if id in Ids(s) {
      var i :| 0 <= i < |s| && Ids(s)[i] == id;
      assert s[i] in s && s[i].id == id;
    }
    if p :| p in s && p.id == id {
      var i :| 0 <= i < |s| && s[i] == p;
      assert Ids(s)[i] == id;
    }
  }

  lemma {:induction false} AboveDistinct(s: seq<Contribution>, level: int)
    requires DistinctBy(s, IdOf)
    ensures DistinctBy(Above(s, level), IdOf)
  {
    if s != [] {
      AboveDistinct(s[1..], level);
      AboveMembers(s[1..], level);
      forall q | q in Above(s[1..], level) ensures IdOf(q) != IdOf(s[0]) {
        var j :| 0 <= j < |s[1..]| && s[1..][j] == q;
        assert s[j + 1] == q;
      }
    }
  }

  /** Who contributes to a tier, and who may win it. */
  lemma TierMembers(s: seq<Contribution>, below: int, level: int, id: PlayerId)
    ensures id in Tier(s, below, level).contributors <==> exists p :: p in s && p.committed > below && p.id == id
    ensures id in Tier(s, below, level).eligible <==> exists p :: p in s && p.committed > below && Live(p) && p.id == id
  {
    AboveMembers(s, below);
    LiveMembers(Above(s, below));
    IdsMembers(Above(s, below), id);
    IdsMembers(LiveOf(Above(s, below)), id);
  }

  // ---------------------------------------------------------------------- levels

  /** The levels at which `TiersFrom` cuts. */
  ghost function LevelsFrom(s: seq<Contribution>, i: nat, below: int): (r: seq<int>)
    requires i <= |s|
    ensures |r| == |TiersFrom(s, i, below)|
    decreases |s| - i
  {
    if i == |s| then []
    else if s[i].committed <= below then LevelsFrom(s, i + 1, below)
    else [s[i].committed] + LevelsFrom(s, i + 1, s[i].committed)
  }

  /** The level under tier `k`. */
  ghost function Under(levels: seq<int>, k: nat, below: int): int
    requires k <= |levels|
  {
    if k == 0 then below else levels[k - 1]
  }

  ghost predicate Ascending(levels: seq<int>, below: int)
  {
    && (forall i, j :: 0 <= i < j < |levels| ==> levels[i] < levels[j])
    && (forall i :: 0 <= i < |levels| ==> below < levels[i])
  }

  /** Cutting levels: ascending, each somebody's commitment, and every commitment above
      `below` is one of them. */
  ghost predicate CutsAt(s: seq<Contribution>, levels: seq<int>, below: int)
  {
    && Ascending(levels, below)
    && (forall p :: p in s && p.committed > below ==> p.committed in levels)
    && (forall l :: l in levels ==> exists p :: p in s && p.committed == l)
  }

  lemma {:induction false} LevelsAscend(s: seq<Contribution>, i: nat, below: int)
    requires i <= |s|
    ensures Ascending(LevelsFrom(s, i, below), below)
    decreases |s| - i
  {
    if i < |s| {
      LevelsAscend(s, i + 1, if s[i].committed <= below then below else s[i].committed);
    }
  }

  lemma {:induction false} LevelsCover(s: seq<Contribution>, i: nat, below: int, k: nat)
    requires i <= k < |s| && SortedBy(s, Committed)
    requires s[k].committed > below
    ensures s[k].committed in LevelsFrom(s, i, below)
    decreases |s| - i
  {
    if s[i].committed <= below {
      LevelsCover(s, i + 1, below, k);
    } else if s[k].committed > s[i].committed {
      LevelsCover(s, i + 1, s[i].committed, k);
    } else {
      assert Committed(s[i]) <= Committed(s[k]);
      assert LevelsFrom(s, i, below)[0] == s[k].committed;
    }
  }

  lemma {:induction false} LevelsOccur(s: seq<Contribution>, i: nat, below: int, l: int)
    requires i <= |s| && l in LevelsFrom(s, i, below)
    ensures exists p :: p in s && p.committed == l
    decreases |s| - i
  {
    if s[i].committed > below && l == s[i].committed {
      assert s[i] in s;
    } else {
      LevelsOccur(s, i + 1, if s[i].committed <= below then below else s[i].committed, l);
    }
  }

  lemma LevelsAreCuts(s: seq<Contribution>)
    requires SortedBy(s, Committed)
    ensures CutsAt(s, LevelsFrom(s, 0, 0), 0)
  {
    LevelsAscend(s, 0, 0);
    forall p | p in s && p.committed > 0 ensures p.committed in LevelsFrom(s, 0, 0) {
      var k :| 0 <= k < |s| && s[k] == p;
      LevelsCover(s, 0, 0, k);
    }
    forall l | l in LevelsFrom(s, 0, 0) ensures exists p :: p in s && p.committed == l {
      LevelsOccur(s, 0, 0, l);
    }
  }

  lemma {:induction false} TierAt(s: seq<Contribution>, i: nat, below: int, k: nat)
    requires i <= |s| && k < |TiersFrom(s, i, below)|
    ensures var levels := LevelsFrom(s, i, below);
            TiersFrom(s, i, below)[k] == Tier(s, Under(levels, k, below), levels[k])
    decreases |s| - i
  {
    if s[i].committed <= below {
      TierAt(s, i + 1, below, k);
    } else if k > 0 {
      TierAt(s, i + 1, s[i].committed, k - 1);
    }
  }

  // ------------------------------------------------------------- what a tier is worth

  lemma OneMoreStake(stake: int, n: nat)
    ensures stake * (n + 1) == stake * n + stake
  {
  }

  /** When nobody stopped strictly between the two levels, a tier holds exactly the chips
      that lie between them. */
  lemma {:induction false} TierIsSlice(s: seq<Contribution>, below: int, level: int)
    requires below <= level
    requires forall p :: p in s && p.committed > below ==> p.committed >= level
    ensures (level - below) * |Above(s, below)| == SumBy(s, CappedAt(level)) - SumBy(s, CappedAt(below))
  {
    if s != [] {
      TierIsSlice(s[1..], below, level);
      assert s[0] in s;
      OneMoreStake(level - below, |Above(s[1..], below)|);
    }
  }

  /** Nobody's commitment lies strictly between a level and the one under it. */
  lemma NoneBetween(s: seq<Contribution>, levels: seq<int>, k: nat)
    requires CutsAt(s, levels, 0) && k < |levels|
    ensures forall p :: p in s && p.committed > Under(levels, k, 0) ==> p.committed >= levels[k]
  {
    forall p | p in s && p.committed > Under(levels, k, 0) ensures p.committed >= levels[k] {
      assert Under(levels, k, 0) >= 0;
      var j :| 0 <= j < |levels| && levels[j] == p.committed;
    }
  }

  lemma TierWorth(s: seq<Contribution>, k: nat)
    requires SortedBy(s, Committed) && k < |TiersFrom(s, 0, 0)|
    ensures var levels := LevelsFrom(s, 0, 0);
            TiersFrom(s, 0, 0)[k].amount
            == SumBy(s, CappedAt(Under(levels, k + 1, 0))) - SumBy(s, CappedAt(Under(levels, k, 0)))
  {
    LevelsAreCuts(s);
    TierAt(s, 0, 0, k);
    CutWorth(s, LevelsFrom(s, 0, 0), k);
  }

  lemma CutWorth(s: seq<Contribution>, levels: seq<int>, k: nat)
    requires CutsAt(s, levels, 0) && k < |levels|
    ensures Tier(s, Under(levels, k, 0), levels[k]).amount
            == SumBy(s, CappedAt(levels[k])) - SumBy(s, CappedAt(Under(levels, k, 0)))
  {
    NoneBetween(s, levels, k);
    TierIsSlice(s, Under(levels, k, 0), levels[k]);
  }

  lemma ProductIsPositive(a: int, b: int)
    requires a > 0 && b > 0
    ensures a * b > 0
  {
  }

  lemma CutHasContributor(s: seq<Contribution>, levels: seq<int>, k: nat)
    requires CutsAt(s, levels, 0) && k < |levels|
    ensures |Above(s, Under(levels, k, 0))| > 0
  {
    var l, below := levels[k], Under(levels, k, 0);
    assert l in levels && below < l;
    var p :| p in s && p.committed == l;
    AboveMembers(s, below);
    assert p in Above(s, below);
  }

  /** Every tier has chips in it. */
  lemma TierIsPositive(s: seq<Contribution>, k: nat)
    requires SortedBy(s, Committed) && k < |TiersFrom(s, 0, 0)|
    ensures TiersFrom(s, 0, 0)[k].amount > 0
  {
    var levels := LevelsFrom(s, 0, 0);
    LevelsAreCuts(s);
    TierAt(s, 0, 0, k);
    CutHasContributor(s, levels, k);
    ProductIsPositive(levels[k] - Under(levels, k, 0), |Above(s, Under(levels, k, 0))|);
  }

  /** The first `k` tiers hold what lies below the `k`-th level. */
  lemma {:induction false} TiersUpTo(s: seq<Contribution>, k: nat)
    requires SortedBy(s, Committed) && k <= |TiersFrom(s, 0, 0)|
    requires forall p :: p in s ==> p.committed >= 0
    ensures SumBy(TiersFrom(s, 0, 0)[..k], RawAmount) == SumBy(s, CappedAt(Under(LevelsFrom(s, 0, 0), k, 0)))
  {
    var raw := TiersFrom(s, 0, 0);
    if k == 0 {
      SumByNothing(s);
    } else {
      TiersUpTo(s, k - 1);
      assert raw[..k] == raw[..k - 1] + [raw[k - 1]];
      SumByAppend(raw[..k - 1], raw[k - 1], RawAmount);
      TierWorth(s, k - 1);
    }
  }

  lemma {:induction false} SumByNothing(s: seq<Contribution>)
    requires forall p :: p in s ==> p.committed >= 0
    ensures SumBy(s, CappedAt(0)) == 0
  {
    if s != [] {
      assert s[0] in s;
      SumByNothing(s[1..]);
    }
  }

  /** Nobody is committed beyond the last level. */
  lemma TopLevelCaps(s: seq<Contribution>, levels: seq<int>, p: Contribution)
    requires CutsAt(s, levels, 0) && p in s && p.committed >= 0
    ensures CappedAt(Under(levels, |levels|, 0))(p) == Committed(p)
  {
    if p.committed > 0 {
      var j :| 0 <= j < |levels| && levels[j] == p.committed;
      assert j < |levels| - 1 ==> levels[j] < levels[|levels| - 1];
    } else {
      assert levels != [] ==> 0 < levels[|levels| - 1];
    }
  }

  /** Together the tiers hold every committed chip. */
  lemma TiersHoldAll(s: seq<Contribution>)
    requires SortedBy(s, Committed)
    requires forall p :: p in s ==> p.committed >= 0
    ensures SumBy(TiersFrom(s, 0, 0), RawAmount) == SumBy(s, Committed)
  {
    var raw, levels := TiersFrom(s, 0, 0), LevelsFrom(s, 0, 0);
    TiersUpTo(s, |raw|);
    assert raw[..|raw|] == raw;
    var top := Under(levels, |levels|, 0);
    forall i | 0 <= i < |s| ensures CappedAt(top)(s[i]) == Committed(s[i]) {
      assert s[i] in s;
      LevelsAreCuts(s);
      TopLevelCaps(s, levels, s[i]);
    }
    SumByPointwise(s, CappedAt(top), s, Committed);
  }
}
