/**
 * SQL's `ORDER BY a, b, ...`: rows are ordered by a sort key, a sequence of
 * integers compared column by column. SQL promises only that the result is
 * ordered by the key and holds the same rows; insertion sort is one way to
 * produce such a result, and every property below is stated in those terms.
 */
module Sorting {
  import opened Seqs

  /** Column-by-column comparison of two sort keys. */
  predicate KeyLe(a: seq<int>, b: seq<int>) {
    |a| == 0 || (|b| > 0 && (a[0] < b[0] || (a[0] == b[0] && KeyLe(a[1..], b[1..]))))
  }

  lemma {:induction false} KeyLeTotal(a: seq<int>, b: seq<int>)
    requires |a| == |b|
    ensures KeyLe(a, b) || KeyLe(b, a)
  {
    if |a| > 0 && a[0] == b[0] {
      KeyLeTotal(a[1..], b[1..]);
    }
  }

  lemma {:induction false} KeyLeTransitive(a: seq<int>, b: seq<int>, c: seq<int>)
    requires |a| == |b| == |c|
    requires KeyLe(a, b) && KeyLe(b, c)
    ensures KeyLe(a, c)
  {
    if |a| > 0 && a[0] == b[0] == c[0] {
      KeyLeTransitive(a[1..], b[1..], c[1..]);
    }
  }

  /** Rows ordered by `key`; every key has the same number of columns. */
  ghost predicate SortedBy<T(!new)>(s: seq<T>, key: T -> seq<int>) {
    forall i, j :: 0 <= i < j < |s| ==> KeyLe(key(s[i]), key(s[j]))
  }

  ghost predicate SameWidth<T(!new)>(key: T -> seq<int>, n: nat) {
    forall x :: |key(x)| == n
  }

  function Insert<T(!new)>(x: T, s: seq<T>, key: T -> seq<int>): (r: seq<T>)
    ensures |r| == |s| + 1
    ensures multiset(r) == multiset(s) + multiset{x}
  {
    if |s| == 0 then [x]
    else if KeyLe(key(x), key(s[0])) then [x] + s
    else
      assert s == [s[0]] + s[1..];
      [s[0]] + Insert(x, s[1..], key)
  }

  /** The rows of `s` ordered by `key`. */
  function SortBy<T(!new)>(s: seq<T>, key: T -> seq<int>): (r: seq<T>)
    ensures |r| == |s|
    ensures multiset(r) == multiset(s)
  {
    if |s| == 0 then []
    else
      assert s == [s[0]] + s[1..];
      Insert(s[0], SortBy(s[1..], key), key)
  }

  lemma {:induction false} InsertSorted<T(!new)>(x: T, s: seq<T>, key: T -> seq<int>, n: nat)
    requires SameWidth(key, n)
    requires SortedBy(s, key)
    ensures SortedBy(Insert(x, s, key), key)
  {
    if |s| == 0 {
    } else if KeyLe(key(x), key(s[0])) {
      var r := [x] + s;
      forall i, j | 0 <= i < j < |r| ensures KeyLe(key(r[i]), key(r[j])) {
        if i == 0 && j > 1 {
          KeyLeTransitive(key(x), key(s[0]), key(s[j - 1]));
        }
      }
    } else {
      KeyLeTotal(key(x), key(s[0]));
      var t := Insert(x, s[1..], key);
      InsertSorted(x, s[1..], key, n);
      var r := [s[0]] + t;
      forall k | 0 <= k < |t| ensures KeyLe(key(s[0]), key(t[k])) {
        assert t[k] in multiset(t);
        if t[k] != x {
          assert t[k] in multiset(s[1..]);
          var m :| 0 <= m < |s[1..]| && s[1..][m] == t[k];
          assert s[m + 1] == t[k];
        }
      }
      forall i, j | 0 <= i < j < |r| ensures KeyLe(key(r[i]), key(r[j])) {
        if i == 0 {
          assert r[j] == t[j - 1];
        } else {
          assert r[i] == t[i - 1] && r[j] == t[j - 1];
        }
      }
    }
  }

  /** Sorting orders the rows by the key. */
  lemma {:induction false} SortBySorted<T(!new)>(s: seq<T>, key: T -> seq<int>, n: nat)
    requires SameWidth(key, n)
    ensures SortedBy(SortBy(s, key), key)
  {
    if |s| > 0 {
      SortBySorted(s[1..], key, n);
      InsertSorted(s[0], SortBy(s[1..], key), key, n);
    }
  }

  /** Sorting keeps exactly the same rows. */
  lemma SortBySameMembers<T(!new)>(s: seq<T>, key: T -> seq<int>)
    ensures forall x :: x in SortBy(s, key) <==> x in s
  {
    var r := SortBy(s, key);
    forall x ensures x in r <==> x in s {
      assert x in r <==> x in multiset(r);
      assert x in s <==> x in multiset(s);
    }
  }

  lemma {:induction false} InsertSum<T(!new)>(x: T, s: seq<T>, key: T -> seq<int>, w: T -> int)
    ensures Sum(Insert(x, s, key), w) == w(x) + Sum(s, w)
  {
    if |s| > 0 && !KeyLe(key(x), key(s[0])) {
      InsertSum(x, s[1..], key, w);
      assert ([s[0]] + Insert(x, s[1..], key))[1..] == Insert(x, s[1..], key);
    } else if |s| > 0 {
      assert ([x] + s)[1..] == s;
    }
  }

  /** Sorting does not change a sum over the rows. */
  lemma {:induction false} SortBySum<T(!new)>(s: seq<T>, key: T -> seq<int>, w: T -> int)
    ensures Sum(SortBy(s, key), w) == Sum(s, w)
  {
    if |s| > 0 {
      SortBySum(s[1..], key, w);
      InsertSum(s[0], SortBy(s[1..], key), key, w);
    }
  }

  /** Sorting keeps a UNIQUE constraint on any column set. */
  lemma {:induction false} SortByKeepsKeysDistinct<T(!new), K>(s: seq<T>, key: T -> seq<int>, id: T -> K)
    requires KeysDistinct(s, id)
    ensures KeysDistinct(SortBy(s, key), id)
  {
    if |s| > 0 {
      assert KeysDistinct(s[1..], id) by {
        forall i, j | 0 <= i < j < |s[1..]| ensures id(s[1..][i]) != id(s[1..][j]) {
          assert s[1..][i] == s[i + 1] && s[1..][j] == s[j + 1];
        }
      }
      SortByKeepsKeysDistinct(s[1..], key, id);
      SortBySameMembers(s[1..], key);
      forall y | y in SortBy(s[1..], key) ensures id(y) != id(s[0]) {
        var m :| 0 <= m < |s[1..]| && s[1..][m] == y;
        assert s[m + 1] == y;
      }
      InsertKeepsKeysDistinct(s[0], SortBy(s[1..], key), key, id);
    }
  }

  lemma {:induction false} InsertKeepsKeysDistinct<T(!new), K>(x: T, s: seq<T>, key: T -> seq<int>, id: T -> K)
    requires KeysDistinct(s, id)
    requires forall y :: y in s ==> id(y) != id(x)
    ensures KeysDistinct(Insert(x, s, key), id)
  {
    if |s| == 0 {
    } else if KeyLe(key(x), key(s[0])) {
      ConsKeysDistinct(x, s, id);
    } else {
      assert KeysDistinct(s[1..], id) by {
        forall i, j | 0 <= i < j < |s[1..]| ensures id(s[1..][i]) != id(s[1..][j]) {
          assert s[1..][i] == s[i + 1] && s[1..][j] == s[j + 1];
        }
      }
      InsertKeepsKeysDistinct(x, s[1..], key, id);
      var t := Insert(x, s[1..], key);
      forall y | y in t ensures id(y) != id(s[0]) {
        assert y in multiset(t);
        if y != x {
          assert y in multiset(s[1..]);
          var m :| 0 <= m < |s[1..]| && s[1..][m] == y;
          assert s[m + 1] == y;
        }
      }
      ConsKeysDistinct(s[0], t, id);
    }
  }
}
