/** Sequence helpers: order-preserving filtering and distinctness of keys. */
module Seqs {
  import opened Wrappers

  /** The first element of `s` that satisfies `p`, if any (Django's `.filter(...).first()` or a `get` that may miss). */
  function FindFirst<T(==,!new)>(s: seq<T>, p: T -> bool): (r: Option<T>)
    ensures r.Some? ==> r.value in s && p(r.value)
    ensures r.None? ==> forall x :: x in s ==> !p(x)
  {
    if s == [] then None else if p(s[0]) then Some(s[0]) else FindFirst(s[1..], p)
  }

  /** `FindFirst` returns the element at the first position that satisfies `p`. */
  lemma {:induction false} FindFirstAt<T(!new)>(s: seq<T>, p: T -> bool, i: nat)
    requires i < |s| && p(s[i])
    requires forall j :: 0 <= j < i ==> !p(s[j])
    ensures FindFirst(s, p) == Some(s[i])
  {
    if i > 0 {
      assert forall j :: 0 <= j < i - 1 ==> s[1..][j] == s[j + 1];
      FindFirstAt(s[1..], p, i - 1);
    }
  }

  /** `FindFirst` finds the first position that satisfies `p`: every earlier one fails it. */
  lemma {:induction false} FindFirstIsFirst<T(!new)>(s: seq<T>, p: T -> bool)
    requires FindFirst(s, p).Some?
    ensures exists i :: 0 <= i < |s| && s[i] == FindFirst(s, p).value && forall j :: 0 <= j < i ==> !p(s[j])
  {
    if !p(s[0]) {
      FindFirstIsFirst(s[1..], p);
      var i :| 0 <= i < |s[1..]| && s[1..][i] == FindFirst(s[1..], p).value && forall j :: 0 <= j < i ==> !p(s[1..][j]);
      assert s[i + 1] == FindFirst(s, p).value;
      assert forall j :: 0 < j < i + 1 ==> s[j] == s[1..][j - 1];
    } else {
      assert s[0] == FindFirst(s, p).value;
    }
  }

  /** The elements of `s` that satisfy `keep`, in their original order (a list comprehension with a condition). */
  function Filter<T(==,!new)>(s: seq<T>, keep: T -> bool): (r: seq<T>)
    ensures |r| <= |s|
    ensures forall x :: x in r <==> x in s && keep(x)
  {
    if s == [] then []
    else (if keep(s[0]) then [s[0]] else []) + Filter(s[1..], keep)
  }

  /** Filtering distributes over concatenation, so it keeps the relative order of elements. */
  lemma {:induction false} FilterAppend<T(!new)>(a: seq<T>, b: seq<T>, keep: T -> bool)
    ensures Filter(a + b, keep) == Filter(a, keep) + Filter(b, keep)
  {
    if a == [] {
      assert a + b == b;
    } else {
      assert (a + b)[1..] == a[1..] + b;
      FilterAppend(a[1..], b, keep);
    }
  }

  /** A position of `s` holding the `k`-th kept element: the one it was kept from. */
  function FilterOrigin<T(==,!new)>(s: seq<T>, keep: T -> bool, k: nat): (i: nat)
    requires k < |Filter(s, keep)|
    ensures i < |s| && s[i] == Filter(s, keep)[k] && keep(s[i])
  {
    if keep(s[0]) then
      assert Filter(s, keep) == [s[0]] + Filter(s[1..], keep);
      if k == 0 then 0 else 1 + FilterOrigin(s[1..], keep, k - 1)
    else
      assert Filter(s, keep) == Filter(s[1..], keep);
      1 + FilterOrigin(s[1..], keep, k)
  }

  /** Filtering the part of `s` before the origin of the `k`-th kept element yields the first `k` kept elements. */
  lemma {:induction false} FilterOriginPrefix<T(!new)>(s: seq<T>, keep: T -> bool, k: nat)
    requires k < |Filter(s, keep)|
    ensures Filter(s[..FilterOrigin(s, keep, k)], keep) == Filter(s, keep)[..k]
    decreases |s|, 1
  {
    if !keep(s[0]) {
      FilterOriginPrefixSkipped(s, keep, k);
    } else if k > 0 {
      FilterOriginPrefixKept(s, keep, k);
    } else {
      assert s[..0] == [];
    }
  }

  lemma {:induction false} FilterOriginPrefixKept<T(!new)>(s: seq<T>, keep: T -> bool, k: nat)
    requires k < |Filter(s, keep)| && keep(s[0]) && k > 0
    ensures Filter(s[..FilterOrigin(s, keep, k)], keep) == Filter(s, keep)[..k]
    decreases |s|, 0
  {
    FilterHeadKept(s, keep, k);
    var i' := FilterOrigin(s[1..], keep, k - 1);
    calc {
      Filter(s[..FilterOrigin(s, keep, k)], keep);
      Filter(s[..i' + 1], keep);
      { FilterOriginStep(s, keep, i'); }
      [s[0]] + Filter(s[1..][..i'], keep);
      { FilterOriginPrefix(s[1..], keep, k - 1); }
      [s[0]] + Filter(s[1..], keep)[..k - 1];
    }
  }

  lemma {:induction false} FilterOriginPrefixSkipped<T(!new)>(s: seq<T>, keep: T -> bool, k: nat)
    requires k < |Filter(s, keep)| && !keep(s[0])
    ensures Filter(s[..FilterOrigin(s, keep, k)], keep) == Filter(s, keep)[..k]
    decreases |s|, 0
  {
    FilterHeadSkipped(s, keep, k);
    var i' := FilterOrigin(s[1..], keep, k);
    calc {
      Filter(s[..FilterOrigin(s, keep, k)], keep);
      Filter(s[..i' + 1], keep);
      { FilterOriginStep(s, keep, i'); }
      Filter(s[1..][..i'], keep);
      { FilterOriginPrefix(s[1..], keep, k); }
      Filter(s[1..], keep)[..k];
    }
  }

  /** A kept head: the `k`-th kept element is the `(k - 1)`-th of the tail, one position further on. */
  lemma FilterHeadKept<T(!new)>(s: seq<T>, keep: T -> bool, k: nat)
    requires k < |Filter(s, keep)| && keep(s[0]) && k > 0
    ensures k - 1 < |Filter(s[1..], keep)|
    ensures Filter(s, keep)[..k] == [s[0]] + Filter(s[1..], keep)[..k - 1]
    ensures FilterOrigin(s, keep, k) == FilterOrigin(s[1..], keep, k - 1) + 1
  {
    assert Filter(s, keep) == [s[0]] + Filter(s[1..], keep);
  }

  /** A skipped head: the `k`-th kept element is the `k`-th of the tail, one position further on. */
  lemma FilterHeadSkipped<T(!new)>(s: seq<T>, keep: T -> bool, k: nat)
    requires k < |Filter(s, keep)| && !keep(s[0])
    ensures k < |Filter(s[1..], keep)|
    ensures Filter(s, keep)[..k] == Filter(s[1..], keep)[..k]
    ensures FilterOrigin(s, keep, k) == FilterOrigin(s[1..], keep, k) + 1
  {
    assert Filter(s, keep) == Filter(s[1..], keep);
  }

  /** Filtering `s[..j + 1]` is filtering its first element, then `s[1..][..j]`. */
  lemma FilterOriginStep<T(!new)>(s: seq<T>, keep: T -> bool, j: nat)
    requires j < |s|
    ensures Filter(s[..j + 1], keep) == (if keep(s[0]) then [s[0]] else []) + Filter(s[1..][..j], keep)
  {
    assert s[..j + 1][0] == s[0];
    assert s[..j + 1][1..] == s[1..][..j];
  }

  /** No two positions of `s` carry the same key (a uniqueness constraint on a table). */
  ghost predicate DistinctBy<T, K>(s: seq<T>, key: T -> K) {
    forall i, j :: 0 <= i < j < |s| ==> key(s[i]) != key(s[j])
  }

  /** Dropping the head keeps keys distinct, and the head's key occurs nowhere in the tail. */
  lemma DistinctTail<T(!new), K>(s: seq<T>, key: T -> K)
    requires s != [] && DistinctBy(s, key)
    ensures DistinctBy(s[1..], key)
    ensures forall x :: x in s[1..] ==> key(x) != key(s[0])
  {
    forall i, j | 0 <= i < j < |s[1..]| ensures key(s[1..][i]) != key(s[1..][j]) {
      assert s[1..][i] == s[i + 1] && s[1..][j] == s[j + 1];
    }
    forall x | x in s[1..] ensures key(x) != key(s[0]) {
      var k :| 0 <= k < |s[1..]| && s[1..][k] == x;
      assert s[k + 1] == x;
    }
  }

  /** Prepending an element whose key is new keeps keys distinct. */
  lemma DistinctCons<T(!new), K>(x: T, s: seq<T>, key: T -> K)
    requires DistinctBy(s, key)
    requires forall y :: y in s ==> key(y) != key(x)
    ensures DistinctBy([x] + s, key)
  {
    var r := [x] + s;
    forall i, j | 0 <= i < j < |r| ensures key(r[i]) != key(r[j]) {
      if i == 0 {
        assert r[j] == s[j - 1];
        assert r[j] in s;
      } else {
        assert r[i] == s[i - 1] && r[j] == s[j - 1];
      }
    }
  }

  lemma {:induction false} FilterKeepsDistinct<T(!new), K>(s: seq<T>, keep: T -> bool, key: T -> K)
    requires DistinctBy(s, key)
    ensures DistinctBy(Filter(s, keep), key)
  {
    if s != [] {
      DistinctTail(s, key);
      FilterKeepsDistinct(s[1..], keep, key);
      if keep(s[0]) {
        DistinctCons(s[0], Filter(s[1..], keep), key);
      } else {
        assert Filter(s, keep) == Filter(s[1..], keep);
      }
    }
  }

  /** The set of keys that occur in `s`. */
  function Keys<T(==,!new), K>(s: seq<T>, key: T -> K): set<K> {
    set x | x in s :: key(x)
  }
}
