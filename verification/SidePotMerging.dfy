/** `_merge_dead_pots` on tiers whose eligible sets shrink: the dead tiers are a suffix,
    and all their chips land in the last live pot. */
module SidePotMerging {
  import opened Basics
  import opened HandTypes
  import opened SidePots

  ghost predicate Within(a: seq<PlayerId>, b: seq<PlayerId>)
  {
    forall x :: x in a ==> x in b
  }

  // --------------------------------------------------------- chips are conserved

  lemma {:induction false} MergeAllConserves(raw: seq<RawPot>)
    requires forall p :: p in raw ==> p.amount > 0
    ensures var m := MergeAll(raw);
            && SumBy(m.result, RawAmount) + m.carry == SumBy(raw, RawAmount)
            && m.carry >= 0
            && forall p :: p in m.result ==> p.amount > 0
  {
    if raw != [] {
      var front, last := raw[..|raw| - 1], raw[|raw| - 1];
      MergeAllConserves(front);
      assert raw == front + [last];
      assert last in raw;
      SumByAppend(front, last, RawAmount);
      MergeOneConserves(MergeAll(front), last);
    }
  }

  lemma MergeOneConserves(m: Merge, pot: RawPot)
    requires m.carry >= 0 && pot.amount > 0
    requires forall p :: p in m.result ==> p.amount > 0
    ensures var n := MergeOne(m, pot);
            && SumBy(n.result, RawAmount) + n.carry == SumBy(m.result, RawAmount) + m.carry + pot.amount
            && n.carry >= 0
            && forall p :: p in n.result ==> p.amount > 0
  {
    var merged := RawPot(pot.amount + m.carry, UniqueOrdered(m.carried + pot.contributors), pot.eligible);
    SumByAppend(m.result, merged, RawAmount);
  }

  /** Merging neither loses nor makes a chip, and leaves every pot with chips in it,
      whatever the contributors and eligible players are. */
  lemma MergeConserves(raw: seq<RawPot>)
    requires forall p :: p in raw ==> p.amount > 0
    ensures SumBy(MergeDeadPots(raw), RawAmount) == SumBy(raw, RawAmount)
    ensures forall p :: p in MergeDeadPots(raw) ==> p.amount > 0
  {
    MergeAllConserves(raw);
    var m := MergeAll(raw);
    if m.carry > 0 && m.result != [] {
      var k := |m.result| - 1;
      SumByUpdate(m.result, k, MergeDeadPots(raw)[k], RawAmount);
      assert m.result[k] in m.result;
      assert forall p :: p in MergeDeadPots(raw) ==> p == MergeDeadPots(raw)[k] || p in m.result;
    } else if m.carry > 0 {
      SumByAppend(m.result, RawPot(m.carry, m.carried, []), RawAmount);
    }
  }

  // ------------------------------------------------------------ deduplication

  /** Each name once, and no name lost or added. */
  lemma {:induction false} UniqueMeaning(items: seq<PlayerId>)
    ensures NoDuplicates(UniqueOrdered(items))
    ensures forall x :: x in UniqueOrdered(items) <==> x in items
  {
    if items != [] {
      UniqueMeaning(items[..|items| - 1]);
      assert items == items[..|items| - 1] + [items[|items| - 1]];
    }
  }

  lemma {:induction false} UniqueKeeps(a: seq<PlayerId>)
    requires NoDuplicates(a)
    ensures UniqueOrdered(a) == a
  {
    if a != [] {
      UniqueKeeps(a[..|a| - 1]);
      assert a == a[..|a| - 1] + [a[|a| - 1]];
    }
  }

  /** Names already present add nothing. */
  lemma {:induction false} UniqueAbsorbs(a: seq<PlayerId>, b: seq<PlayerId>)
    requires NoDuplicates(a) && Within(b, a)
    ensures UniqueOrdered(a + b) == a
  {
    if b == [] {
      assert a + b == a;
      UniqueKeeps(a);
    } else {
      var front := b[..|b| - 1];
      assert (a + b)[..|a + b| - 1] == a + front;
      assert forall x :: x in front ==> x in b;
      UniqueAbsorbs(a, front);
      assert b[|b| - 1] in a;
    }
  }

  // -------------------------------------------------------------- the merged shape

  /** Shrinking tiers with chips in each. */
  ghost predicate Tiered(raw: seq<RawPot>)
  {
    && (forall k :: 0 <= k < |raw| ==> raw[k].amount > 0 && NoDuplicates(raw[k].contributors))
    && (forall j, k :: 0 <= j < k < |raw| ==> Within(raw[k].contributors, raw[j].contributors))
    && (forall j, k :: 0 <= j < k < |raw| ==> Within(raw[k].eligible, raw[j].eligible))
  }

  /** The number of tiers before the first one that nobody may win. */
  function LiveTiers(raw: seq<RawPot>): (m: nat)
    ensures m <= |raw|
    ensures forall k :: 0 <= k < m ==> raw[k].eligible != []
    ensures m < |raw| ==> raw[m].eligible == []
  {
    if raw == [] || raw[0].eligible == [] then 0
    else
      var m := LiveTiers(raw[1..]);
      assert forall k :: 1 <= k < m + 1 ==> raw[k] == raw[1..][k - 1];
      m + 1
  }

  lemma WithinNobody(a: seq<PlayerId>, b: seq<PlayerId>)
    requires Within(a, b)
    ensures b == [] ==> a == []
  {
    if a != [] {
      assert a[0] in a;
    }
  }

  /** Once a tier is dead every later tier is dead. */
  lemma DeadTiersAreASuffix(raw: seq<RawPot>)
    requires Tiered(raw)
    ensures forall k :: 0 <= k < |raw| ==> (raw[k].eligible == [] <==> k >= LiveTiers(raw))
  {
    var m := LiveTiers(raw);
    forall k | m < k < |raw| ensures raw[k].eligible == [] {
      WithinNobody(raw[k].eligible, raw[m].eligible);
    }
  }

  lemma {:induction false} LiveTiersPassThrough(raw: seq<RawPot>)
    requires forall k :: 0 <= k < |raw| ==> raw[k].eligible != [] && NoDuplicates(raw[k].contributors)
    ensures MergeAll(raw) == Merge(raw, 0, [])
  {
    if raw != [] {
      var front, last := raw[..|raw| - 1], raw[|raw| - 1];
      LiveTiersPassThrough(front);
      assert raw == front + [last];
      assert [] + last.contributors == last.contributors;
      UniqueKeeps(last.contributors);
    }
  }

  /** The loop after the first `m`, live, tiers and at least one dead one. */
  lemma {:induction false} DeadTiersAreCarried(raw: seq<RawPot>, m: nat)
    requires Tiered(raw) && m < |raw|
    requires forall k :: 0 <= k < |raw| ==> (raw[k].eligible == [] <==> k >= m)
    ensures MergeAll(raw) == Merge(raw[..m], SumBy(raw[m..], RawAmount), raw[m].contributors)
  {
    var front, last := raw[..|raw| - 1], raw[|raw| - 1];
    assert front[..m] == raw[..m] && raw[m..] == front[m..] + [last];
    SumByAppend(front[m..], last, RawAmount);
    if m == |front| {
      LiveTiersPassThrough(front);
      assert [] + last.contributors == last.contributors;
      UniqueKeeps(last.contributors);
    } else {
      DeadTiersAreCarried(front, m);
      assert Within(last.contributors, raw[m].contributors);
      UniqueAbsorbs(raw[m].contributors, last.contributors);
    }
  }

  /** The reference: live tiers as they are, the last one with all dead chips added; a
      single unwinnable pot when no tier is live. */
  function MergedTiers(raw: seq<RawPot>, m: nat): seq<RawPot>
    requires m <= |raw|
  {
    var dead := SumBy(raw[m..], RawAmount);
    if m == |raw| then raw
    else if m > 0 then raw[..m - 1] + [RawPot(raw[m - 1].amount + dead, raw[m - 1].contributors, raw[m - 1].eligible)]
    else [RawPot(dead, raw[0].contributors, [])]
  }

  /** Every live tier but the last is untouched, the last one receives exactly the dead
      chips, and it gains no contributor. */
  lemma DeadChipsJoinTheLastLivePot(raw: seq<RawPot>)
    requires Tiered(raw)
    ensures MergeDeadPots(raw) == MergedTiers(raw, LiveTiers(raw))
  {
    var m := LiveTiers(raw);
    DeadTiersAreASuffix(raw);
    if m == |raw| {
      LiveTiersPassThrough(raw);
    } else {
      DeadTiersAreCarried(raw, m);
      DeadIsPositive(raw[m..]);
      if m > 0 {
        FinishAddsToLast(raw, m);
      }
    }
  }

  lemma FinishAddsToLast(raw: seq<RawPot>, m: nat)
    requires Tiered(raw) && 0 < m < |raw| && SumBy(raw[m..], RawAmount) > 0
    ensures Finish(Merge(raw[..m], SumBy(raw[m..], RawAmount), raw[m].contributors)) == MergedTiers(raw, m)
  {
    assert Within(raw[m].contributors, raw[m - 1].contributors);
    UniqueAbsorbs(raw[m - 1].contributors, raw[m].contributors);
    assert raw[..m][m - 1] == raw[m - 1] && raw[..m][..m - 1] == raw[..m - 1];
  }

  lemma {:induction false} DeadIsPositive(raw: seq<RawPot>)
    requires raw != [] && forall k :: 0 <= k < |raw| ==> raw[k].amount > 0
    ensures SumBy(raw, RawAmount) > 0
  {
    if |raw| > 1 {
      assert forall k :: 0 <= k < |raw[1..]| ==> raw[1..][k] == raw[k + 1];
      DeadIsPositive(raw[1..]);
    }
  }
}
