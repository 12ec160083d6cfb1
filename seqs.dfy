/**
 * The array operations the app relies on (`find`, `filter`, `reduce` with
 * `+`), as functions over sequences, with the facts about them that the
 * store, the report and the day view need.
 */
module Seqs {
  import opened Wrappers

  /** The index of the first element satisfying `p`, as JavaScript's `findIndex`. */
  function FindIndex<T(!new)>(s: seq<T>, p: T -> bool): (r: Option<nat>)
    ensures r.Some? ==> r.value < |s| && p(s[r.value])
    ensures r.Some? ==> forall j :: 0 <= j < r.value ==> !p(s[j])
    ensures r.None? ==> forall j :: 0 <= j < |s| ==> !p(s[j])
  {
    if |s| == 0 then None
    else if p(s[0]) then Some(0)
    else match FindIndex(s[1..], p)
      case None => None
      case Some(i) => Some(i + 1)
  }

  /** The first element satisfying `p`, or `None`: JavaScript's `find`. */
  function Find<T(!new)>(s: seq<T>, p: T -> bool): (r: Option<T>)
    ensures r.Some? ==> r.value in s && p(r.value)
    ensures r.None? <==> forall x :: x in s ==> !p(x)
  {
    match FindIndex(s, p)
    case None => None
    case Some(i) => Some(s[i])
  }

  /** The elements satisfying `p`, in their original order: JavaScript's `filter`. */
  function Filter<T(!new)>(s: seq<T>, p: T -> bool): (r: seq<T>)
    ensures |r| <= |s|
    ensures forall x :: x in r <==> x in s && p(x)
  {
    if |s| == 0 then []
    else if p(s[0]) then [s[0]] + Filter(s[1..], p)
    else Filter(s[1..], p)
  }

  /** The sum of `w` over the elements: `reduce((sum, x) => sum + w(x), 0)`. */
  function Sum<T(!new)>(s: seq<T>, w: T -> int): int {
    if |s| == 0 then 0 else w(s[0]) + Sum(s[1..], w)
  }

  /** No two elements share the same `key`: a UNIQUE constraint on a table. */
  ghost predicate KeysDistinct<T(!new), K>(s: seq<T>, key: T -> K) {
    forall i, j :: 0 <= i < j < |s| ==> key(s[i]) != key(s[j])
  }

  lemma {:induction false} FilterConcat<T(!new)>(a: seq<T>, b: seq<T>, p: T -> bool)
    ensures Filter(a + b, p) == Filter(a, p) + Filter(b, p)
  {
    if |a| > 0 {
      assert (a + b)[1..] == a[1..] + b;
      FilterConcat(a[1..], b, p);
    } else {
      assert a + b == b;
    }
  }

  /** Filtering keeps everything when every element passes. */
  lemma {:induction false} FilterAll<T(!new)>(s: seq<T>, p: T -> bool)
    requires forall x :: x in s ==> p(x)
    ensures Filter(s, p) == s
  {
    if |s| > 0 {
      assert forall x :: x in s[1..] ==> x in s;
      FilterAll(s[1..], p);
    }
  }

  /** Filtering keeps nothing when no element passes. */
  lemma {:induction false} FilterNone<T(!new)>(s: seq<T>, p: T -> bool)
    requires forall x :: x in s ==> !p(x)
    ensures Filter(s, p) == []
  {
    if |s| > 0 {
      assert forall x :: x in s[1..] ==> x in s;
      FilterNone(s[1..], p);
    }
  }

  /** Filters whose tests agree on every element give the same result. */
  lemma {:induction false} FilterSame<T(!new)>(s: seq<T>, p: T -> bool, q: T -> bool)
    requires forall x :: x in s ==> p(x) == q(x)
    ensures Filter(s, p) == Filter(s, q)
  {
    if |s| > 0 {
      assert forall x :: x in s[1..] ==> x in s;
      FilterSame(s[1..], p, q);
    }
  }

  /** Replacing an element that fails the test by another that fails it too
   *  does not change the filtered sequence. */
  lemma {:induction false} FilterUpdateOutside<T(!new)>(s: seq<T>, i: nat, v: T, p: T -> bool)
    requires i < |s| && !p(s[i]) && !p(v)
    ensures Filter(s[i := v], p) == Filter(s, p)
  {
    if i > 0 {
      assert s[i := v][1..] == s[1..][i - 1 := v];
      FilterUpdateOutside(s[1..], i - 1, v, p);
    } else {
      assert s[i := v][1..] == s[1..];
    }
  }

  /** Filtering by `p` and then by `q` is filtering by both at once. */
  lemma {:induction false} FilterFilter<T(!new)>(s: seq<T>, p: T -> bool, q: T -> bool, pq: T -> bool)
    requires forall x :: pq(x) == (p(x) && q(x))
    ensures Filter(Filter(s, p), q) == Filter(s, pq)
  {
    if |s| > 0 {
      FilterFilter(s[1..], p, q, pq);
      if p(s[0]) {
        assert Filter(s, p) == [s[0]] + Filter(s[1..], p);
        assert ([s[0]] + Filter(s[1..], p))[1..] == Filter(s[1..], p);
      }
    }
  }

  /** A sub-sequence chosen by a filter keeps a UNIQUE constraint. */
  lemma {:induction false} FilterKeepsKeysDistinct<T(!new), K>(s: seq<T>, p: T -> bool, key: T -> K)
    requires KeysDistinct(s, key)
    ensures KeysDistinct(Filter(s, p), key)
  {
    if |s| > 0 {
      FilterKeepsKeysDistinct(s[1..], p, key);
      if p(s[0]) {
        var r := Filter(s[1..], p);
        forall y | y in r ensures key(y) != key(s[0]) {
          var k :| 0 <= k < |s[1..]| && s[1..][k] == y;
          assert s[k + 1] == y;
        }
        ConsKeysDistinct(s[0], r, key);
      }
    }
  }

  lemma ConsKeysDistinct<T(!new), K>(x: T, s: seq<T>, key: T -> K)
    requires KeysDistinct(s, key)
    requires forall y :: y in s ==> key(y) != key(x)
    ensures KeysDistinct([x] + s, key)
  {
    var r := [x] + s;
    forall i, j | 0 <= i < j < |r| ensures key(r[i]) != key(r[j]) {
      if i == 0 {
        assert r[j] == s[j - 1];
      } else {
        assert r[i] == s[i - 1] && r[j] == s[j - 1];
      }
    }
  }

  lemma {:induction false} SumConcat<T(!new)>(a: seq<T>, b: seq<T>, w: T -> int)
    ensures Sum(a + b, w) == Sum(a, w) + Sum(b, w)
  {
    if |a| > 0 {
      assert (a + b)[1..] == a[1..] + b;
      SumConcat(a[1..], b, w);
    } else {
      assert a + b == b;
    }
  }

  /** Weights that agree on every element give the same sum. */
  lemma {:induction false} SumSame<T(!new)>(s: seq<T>, w: T -> int, v: T -> int)
    requires forall x :: x in s ==> w(x) == v(x)
    ensures Sum(s, w) == Sum(s, v)
  {
    if |s| > 0 {
      assert forall x :: x in s[1..] ==> x in s;
      SumSame(s[1..], w, v);
    }
  }

  /** A sum splits over a pointwise sum of weights. */
  lemma {:induction false} SumSplit<T(!new)>(s: seq<T>, w: T -> int, w1: T -> int, w2: T -> int)
    requires forall x :: x in s ==> w(x) == w1(x) + w2(x)
    ensures Sum(s, w) == Sum(s, w1) + Sum(s, w2)
  {
    if |s| > 0 {
      assert forall x :: x in s[1..] ==> x in s;
      SumSplit(s[1..], w, w1, w2);
    }
  }

  /** Summing over the filtered elements is summing a weight that is zero
   *  outside the filter: SQL's `SUM(..) WHERE ..`. */
  lemma {:induction false} SumFilter<T(!new)>(s: seq<T>, p: T -> bool, w: T -> int, wp: T -> int)
    requires forall x :: wp(x) == (if p(x) then w(x) else 0)
    ensures Sum(Filter(s, p), w) == Sum(s, wp)
  {
    if |s| > 0 {
      SumFilter(s[1..], p, w, wp);
      if p(s[0]) {
        assert ([s[0]] + Filter(s[1..], p))[1..] == Filter(s[1..], p);
      }
    }
  }

  /** A weight that is zero on every element sums to zero. */
  lemma {:induction false} SumZero<T(!new)>(s: seq<T>, w: T -> int)
    requires forall x :: x in s ==> w(x) == 0
    ensures Sum(s, w) == 0
  {
    if |s| > 0 {
      assert forall x :: x in s[1..] ==> x in s;
      SumZero(s[1..], w);
    }
  }
  /** `find` looks at the head first, then at the rest. */
  lemma FindCons<T(!new)>(s: seq<T>, p: T -> bool)
    requires |s| > 0
    ensures Find(s, p) == if p(s[0]) then Some(s[0]) else Find(s[1..], p)
  {
    if !p(s[0]) {
      match FindIndex(s[1..], p)
      case None =>
      case Some(i) => assert s[1..][i] == s[i + 1];
    }
  }

  /** When exactly one element passes, the filter holds just that element. */
  lemma {:induction false} FilterSingle<T(!new)>(s: seq<T>, i: nat, p: T -> bool)
    requires i < |s| && p(s[i])
    requires forall j :: 0 <= j < |s| && j != i ==> !p(s[j])
    ensures Filter(s, p) == [s[i]]
  {
    if i == 0 {
      assert forall x :: x in s[1..] ==> !p(x) by {
        forall x | x in s[1..] ensures !p(x) {
          var k :| 0 <= k < |s[1..]| && s[1..][k] == x;
          assert s[k + 1] == x;
        }
      }
      FilterNone(s[1..], p);
    } else {
      FilterSingle(s[1..], i - 1, p);
    }
  }

  /** Appending an element whose key is new keeps a UNIQUE constraint. */
  lemma AppendKeepsKeysDistinct<T(!new), K>(s: seq<T>, x: T, key: T -> K)
    requires KeysDistinct(s, key)
    requires forall y :: y in s ==> key(y) != key(x)
    ensures KeysDistinct(s + [x], key)
  {
    var r := s + [x];
    forall i, j | 0 <= i < j < |r| ensures key(r[i]) != key(r[j]) {
      assert r[i] == s[i];
      if j == |s| {
        assert r[i] in s;
      } else {
        assert r[j] == s[j];
      }
    }
  }

  /** Overwriting an element by one with the same key keeps a UNIQUE constraint. */
  lemma UpdateKeepsKeysDistinct<T(!new), K>(s: seq<T>, i: nat, v: T, key: T -> K)
    requires i < |s| && KeysDistinct(s, key) && key(v) == key(s[i])
    ensures KeysDistinct(s[i := v], key)
  {
  }

  /** The first index whose element passes is what `findIndex` returns. */
  lemma FindIndexFirst<T(!new)>(s: seq<T>, p: T -> bool, i: nat)
    requires i < |s| && p(s[i])
    requires forall j :: 0 <= j < i ==> !p(s[j])
    ensures FindIndex(s, p) == Some(i)
  {
  }

  /** Under a UNIQUE constraint two rows with the same key are the same row. */
  lemma KeysDistinctSame<T(!new), K>(s: seq<T>, key: T -> K, x: T, y: T)
    requires KeysDistinct(s, key) && x in s && y in s && key(x) == key(y)
    ensures x == y
  {
    var i :| 0 <= i < |s| && s[i] == x;
    var j :| 0 <= j < |s| && s[j] == y;
    if i < j {
      assert key(s[i]) != key(s[j]);
    } else if j < i {
      assert key(s[j]) != key(s[i]);
    }
  }
}
