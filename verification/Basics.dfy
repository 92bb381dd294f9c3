/** Shared value types and the list functions (sums, stable sort, first-occurrence
    deduplication) that the engine modules use. */
module Basics {

  datatype Option<+T> = None | Some(value: T)

  datatype Result<+T, +E> = Ok(value: T) | Err(error: E)

  function Min(a: int, b: int): int { if a <= b then a else b }

  function Max(a: int, b: int): int { if a <= b then b else a }

  // ------------------------------------------------- stepping round a table

  /** `k` places on from index `d`, wrapping once. */
  function Onward(d: nat, k: nat, n: nat): nat
    requires d < n && k <= n
  {
    if d + k < n then d + k else d + k - n
  }

  lemma QuotientBelowTwo(x: nat, n: nat, q: int)
    requires n > 0 && x < 2 * n && q * n <= x
    ensures q <= 1
  {
    assert q >= 2 ==> q * n >= 2 * n;
  }

  lemma QuotientPositive(x: nat, n: nat, q: int, r: int)
    requires n > 0 && n <= x && x == q * n + r && r < n
    ensures q >= 1
  {
    assert q <= 0 ==> q * n <= 0;
  }

  lemma OnwardIsModulo(d: nat, k: nat, n: nat)
    requires d < n && k <= n
    ensures (d + k) % n == Onward(d, k, n)
  {
    var x := d + k;
    var q, r := x / n, x % n;
    assert x == q * n + r;
    QuotientBelowTwo(x, n, q);
    if x >= n {
      QuotientPositive(x, n, q, r);
    }
  }

  // ---------------------------------------------------------------- sums

  /** The sum of `f` over the elements of `s`. */
  function SumBy<T>(s: seq<T>, f: T -> int): int
  {
    if s == [] then 0 else f(s[0]) + SumBy(s[1..], f)
  }

  lemma {:induction false} SumByConcat<T>(a: seq<T>, b: seq<T>, f: T -> int)
    ensures SumBy(a + b, f) == SumBy(a, f) + SumBy(b, f)
  {
    if a == [] {
      assert a + b == b;
    } else {
      assert (a + b)[1..] == a[1..] + b;
      SumByConcat(a[1..], b, f);
    }
  }

  lemma {:induction false} SumByAppend<T>(a: seq<T>, x: T, f: T -> int)
    ensures SumBy(a + [x], f) == SumBy(a, f) + f(x)
  {
    SumByConcat(a, [x], f);
    assert [x][1..] == [];
  }

  lemma {:induction false} SumByUpdate<T>(s: seq<T>, i: nat, x: T, f: T -> int)
    requires i < |s|
    ensures SumBy(s[i := x], f) == SumBy(s, f) - f(s[i]) + f(x)
  {
    if i == 0 {
      assert s[0 := x][1..] == s[1..];
    } else {
      assert s[i := x][1..] == s[1..][i - 1 := x];
      SumByUpdate(s[1..], i - 1, x, f);
    }
  }

  /** Sums agree when the summands agree position by position. */
  lemma {:induction false} SumByPointwise<S, T>(a: seq<S>, f: S -> int, b: seq<T>, g: T -> int)
    requires |a| == |b|
    requires forall i :: 0 <= i < |a| ==> f(a[i]) == g(b[i])
    ensures SumBy(a, f) == SumBy(b, g)
  {
    if a != [] {
      SumByPointwise(a[1..], f, b[1..], g);
    }
  }

  lemma {:induction false} SumByMonotone<T>(s: seq<T>, f: T -> int, g: T -> int)
    requires forall x :: x in s ==> f(x) <= g(x)
    ensures SumBy(s, f) <= SumBy(s, g)
  {
    if s != [] {
      SumByMonotone(s[1..], f, g);
    }
  }

  lemma {:induction false} SumByNonNegative<T>(s: seq<T>, f: T -> int)
    requires forall x :: x in s ==> 0 <= f(x)
    ensures 0 <= SumBy(s, f)
    ensures forall x :: x in s ==> f(x) <= SumBy(s, f)
  {
    if s != [] {
      SumByNonNegative(s[1..], f);
      forall x | x in s ensures f(x) <= SumBy(s, f) {
        assert x == s[0] || x in s[1..];
      }
    }
  }

  // ------------------------------------------------------- stable sorting

  ghost predicate SortedBy<T>(s: seq<T>, key: T -> int)
  {
    forall i, j :: 0 <= i < j < |s| ==> key(s[i]) <= key(s[j])
  }

  function InsertBy<T>(x: T, s: seq<T>, key: T -> int): (r: seq<T>)
    ensures multiset(r) == multiset(s) + multiset{x}
    ensures |r| == |s| + 1
  {
    if s == [] || key(x) <= key(s[0]) then
      [x] + s
    else
      assert s == [s[0]] + s[1..];
      [s[0]] + InsertBy(x, s[1..], key)
  }

  /** Python's `sorted(s, key=key)`: ascending and stable. */
  function SortBy<T>(s: seq<T>, key: T -> int): (r: seq<T>)
    ensures multiset(r) == multiset(s)
    ensures |r| == |s|
  {
    if s == [] then [] else
      assert s == [s[0]] + s[1..];
      InsertBy(s[0], SortBy(s[1..], key), key)
  }

  lemma {:induction false} InsertBySorted<T>(x: T, s: seq<T>, key: T -> int)
    requires SortedBy(s, key)
    ensures SortedBy(InsertBy(x, s, key), key)
  {
    if s == [] || key(x) <= key(s[0]) {
    } else {
      InsertBySorted(x, s[1..], key);
      var rest := InsertBy(x, s[1..], key);
      forall j | 0 <= j < |rest| ensures key(s[0]) <= key(rest[j]) {
        assert rest[j] in multiset(rest);
        assert rest[j] == x || rest[j] in s[1..];
      }
    }
  }

  lemma {:induction false} SortBySorted<T>(s: seq<T>, key: T -> int)
    ensures SortedBy(SortBy(s, key), key)
    ensures forall x :: x in SortBy(s, key) <==> x in s
  {
    if s != [] {
      SortBySorted(s[1..], key);
      InsertBySorted(s[0], SortBy(s[1..], key), key);
    }
    forall x ensures x in SortBy(s, key) <==> x in s {
      assert x in SortBy(s, key) <==> x in multiset(SortBy(s, key));
      assert x in s <==> x in multiset(s);
    }
  }

  lemma {:induction false} InsertBySum<T>(x: T, s: seq<T>, key: T -> int, f: T -> int)
    ensures SumBy(InsertBy(x, s, key), f) == SumBy(s, f) + f(x)
  {
    if s == [] || key(x) <= key(s[0]) {
      assert ([x] + s)[1..] == s;
    } else {
      InsertBySum(x, s[1..], key, f);
      assert ([s[0]] + InsertBy(x, s[1..], key))[1..] == InsertBy(x, s[1..], key);
    }
  }

  /** Sorting does not change a sum. */
  lemma {:induction false} SortBySum<T>(s: seq<T>, key: T -> int, f: T -> int)
    ensures SumBy(SortBy(s, key), f) == SumBy(s, f)
  {
    if s != [] {
      SortBySum(s[1..], key, f);
      InsertBySum(s[0], SortBy(s[1..], key), key, f);
    }
  }

  // --------------------------------------------------- distinct sequences

  ghost predicate NoDuplicates<T>(s: seq<T>)
  {
    forall i, j :: 0 <= i < j < |s| ==> s[i] != s[j]
  }

  /** No two positions carry the same tag. */
  ghost predicate DistinctBy<T, K>(s: seq<T>, tag: T -> K)
  {
    forall i, j :: 0 <= i < j < |s| ==> tag(s[i]) != tag(s[j])
  }

  lemma {:induction false} InsertByDistinct<T, K>(x: T, s: seq<T>, key: T -> int, tag: T -> K)
    requires DistinctBy(s, tag) && forall q :: q in s ==> tag(q) != tag(x)
    ensures DistinctBy(InsertBy(x, s, key), tag)
    ensures forall q :: q in InsertBy(x, s, key) ==> q == x || q in s
  {
    if s == [] || key(x) <= key(s[0]) {
    } else {
      InsertByDistinct(x, s[1..], key, tag);
      forall q | q in InsertBy(x, s[1..], key) ensures tag(q) != tag(s[0]) {
        assert q == x || q in s[1..];
      }
    }
  }

  /** Sorting keeps tags distinct. */
  lemma {:induction false} SortByDistinct<T, K>(s: seq<T>, key: T -> int, tag: T -> K)
    requires DistinctBy(s, tag)
    ensures DistinctBy(SortBy(s, key), tag)
  {
    if s != [] {
      SortByDistinct(s[1..], key, tag);
      SortBySorted(s[1..], key);
      var rest := SortBy(s[1..], key);
      forall q | q in rest ensures tag(q) != tag(s[0]) {
        assert q in multiset(rest);
        var j :| 0 <= j < |s[1..]| && s[1..][j] == q;
        assert s[j + 1] == q;
      }
      InsertByDistinct(s[0], rest, key, tag);
    }
  }
}
