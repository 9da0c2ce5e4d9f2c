/** A stable sort into non-increasing order of a real-valued key: the behaviour
    of `Array.prototype.sort` (stable since ECMAScript 2019) called with the
    comparator `(a, b) => key(b) - key(a)`. */
module StableSort {

  /** Non-increasing by key. */
  predicate SortedDesc<T>(s: seq<T>, key: T -> real) {
    forall i, j :: 0 <= i < j < |s| ==> key(s[i]) >= key(s[j])
  }

  /** The elements of `s` whose key is `k`, in their order in `s`. A sort is
      stable exactly when it keeps every such subsequence. */
  function KeyFilter<T>(s: seq<T>, key: T -> real, k: real): seq<T> {
    if |s| == 0 then []
    else (if key(s[0]) == k then [s[0]] else []) + KeyFilter(s[1..], key, k)
  }

  /** Prepending an element whose key bounds every key of a sorted sequence
      keeps it sorted. */
  lemma ConsSorted<T>(a: T, t: seq<T>, key: T -> real)
    requires SortedDesc(t, key)
    requires forall y :: y in t ==> key(a) >= key(y)
    ensures SortedDesc([a] + t, key)
  {
    forall i, j | 0 <= i < j < |[a] + t|
      ensures key(([a] + t)[i]) >= key(([a] + t)[j])
    {
      if i > 0 {
        assert ([a] + t)[i] == t[i - 1];
      }
      assert ([a] + t)[j] == t[j - 1];
    }
  }

  /** Places `x` in front of the first element whose key does not exceed its own,
      so `x` stays ahead of the elements with an equal key. */
  function Insert<T>(x: T, s: seq<T>, key: T -> real): (r: seq<T>)
    requires SortedDesc(s, key)
    ensures SortedDesc(r, key)
    ensures multiset(r) == multiset(s) + multiset{x}
    ensures forall y :: y in r ==> y == x || y in s
  {
    if |s| == 0 || key(s[0]) <= key(x) then
      ConsSorted(x, s, key);
      [x] + s
    else
      var rest := Insert(x, s[1..], key);
      assert s == [s[0]] + s[1..];
      assert forall y :: y in s[1..] ==> key(s[0]) >= key(y);
      ConsSorted(s[0], rest, key);
      [s[0]] + rest
  }

  /** Insertion sort: the stable sort into non-increasing key order. */
  function Sort<T>(s: seq<T>, key: T -> real): (r: seq<T>)
    ensures SortedDesc(r, key)
    ensures multiset(r) == multiset(s)
    ensures |r| == |s|
  {
    if |s| == 0 then []
    else
      assert s == [s[0]] + s[1..];
      var r := Insert(s[0], Sort(s[1..], key), key);
      assert |r| == |multiset(r)|;
      r
  }

  lemma {:induction false} InsertKeepsKeyFilter<T>(x: T, s: seq<T>, key: T -> real, k: real)
    requires SortedDesc(s, key)
    ensures KeyFilter(Insert(x, s, key), key, k) == KeyFilter([x] + s, key, k)
  {
    if |s| == 0 || key(s[0]) <= key(x) {
    } else {
      var rest := Insert(x, s[1..], key);
      InsertKeepsKeyFilter(x, s[1..], key, k);
      assert ([s[0]] + rest)[1..] == rest;
      assert ([x] + s)[1..] == s;
      assert ([x] + s[1..])[1..] == s[1..];
    }
  }

  /** Stability: elements with equal keys leave the sort in the order they
      entered it. */
  lemma {:induction false} SortIsStable<T>(s: seq<T>, key: T -> real, k: real)
    ensures KeyFilter(Sort(s, key), key, k) == KeyFilter(s, key, k)
  {
    if |s| > 0 {
      SortIsStable(s[1..], key, k);
      InsertKeepsKeyFilter(s[0], Sort(s[1..], key), key, k);
      assert ([s[0]] + Sort(s[1..], key))[1..] == Sort(s[1..], key);
    }
  }

  /** Every element after position `m` of a sorted sequence has a key no
      larger than any element before it. */
  lemma PrefixDominates<T>(t: seq<T>, key: T -> real, m: nat, x: T, y: T)
    requires SortedDesc(t, key) && m <= |t|
    requires x in t[..m] && y in t[m..]
    ensures key(x) >= key(y)
  {
    var i :| 0 <= i < m && t[..m][i] == x;
    var j :| 0 <= j < |t| - m && t[m..][j] == y;
    assert t[i] == x && t[m + j] == y;
  }

  /** The first `n` elements of the stable sort: `sort(...).slice(0, n)`. */
  function TopN<T>(s: seq<T>, key: T -> real, n: nat): (r: seq<T>)
    ensures IsTop(r, s, key, n)
  {
    var t := Sort(s, key);
    var m := if n < |t| then n else |t|;
    TopNFacts(t, key, m);
    t[..m]
  }

  lemma TopNFacts<T>(t: seq<T>, key: T -> real, m: nat)
    requires SortedDesc(t, key) && m <= |t|
    ensures multiset(t[..m]) <= multiset(t)
    ensures forall x, y :: x in t[..m] && y in multiset(t) - multiset(t[..m]) ==> key(x) >= key(y)
  {
    assert t == t[..m] + t[m..];
    assert multiset(t) - multiset(t[..m]) == multiset(t[m..]);
    forall x, y | x in t[..m] && y in multiset(t) - multiset(t[..m])
      ensures key(x) >= key(y)
    {
      assert y in t[m..];
      PrefixDominates(t, key, m, x, y);
    }
  }

  /** `r` holds min(n, |s|) elements of `s`, sorted, and no element left out
      has a larger key than one kept. */
  ghost predicate IsTop<T>(r: seq<T>, s: seq<T>, key: T -> real, n: nat) {
    && |r| == (if n < |s| then n else |s|)
    && SortedDesc(r, key)
    && multiset(r) <= multiset(s)
    && forall x, y :: x in r && y in multiset(s) - multiset(r) ==> key(x) >= key(y)
  }

  lemma {:induction false} KeyFilterAppend<T>(a: seq<T>, b: seq<T>, key: T -> real, k: real)
    ensures KeyFilter(a + b, key, k) == KeyFilter(a, key, k) + KeyFilter(b, key, k)
  {
    if |a| == 0 {
      assert a + b == b;
    } else {
      assert (a + b)[0] == a[0];
      assert (a + b)[1..] == a[1..] + b;
      KeyFilterAppend(a[1..], b, key, k);
      var h := if key(a[0]) == k then [a[0]] else [];
      assert h + (KeyFilter(a[1..], key, k) + KeyFilter(b, key, k))
          == (h + KeyFilter(a[1..], key, k)) + KeyFilter(b, key, k);
    }
  }

  /** The key filter of a prefix is a prefix of the key filter. */
  lemma KeyFilterPrefix<T>(t: seq<T>, m: nat, key: T -> real, k: real)
    requires m <= |t|
    ensures var f := KeyFilter(t[..m], key, k);
            var g := KeyFilter(t, key, k);
            |f| <= |g| && f == g[..|f|]
  {
    assert t == t[..m] + t[m..];
    KeyFilterAppend(t[..m], t[m..], key, k);
  }

  lemma TopNIsPrefix<T>(s: seq<T>, key: T -> real, n: nat)
    ensures var t := Sort(s, key);
            TopN(s, key, n) == t[..if n < |t| then n else |t|]
  {
  }

  /** Ties at the cut go to the earliest: among the elements with key `k`,
      the kept ones are the first of them in input order. */
  lemma TopNKeepsFirstTies<T>(s: seq<T>, key: T -> real, n: nat, k: real)
    ensures var kept := KeyFilter(TopN(s, key, n), key, k);
            var all := KeyFilter(s, key, k);
            |kept| <= |all| && kept == all[..|kept|]
  {
    var t := Sort(s, key);
    TopNIsPrefix(s, key, n);
    KeyFilterPrefix(t, if n < |t| then n else |t|, key, k);
    SortIsStable(s, key, k);
  }

  /** The head of a non-empty `TopN` has the largest key of the whole input. */
  lemma TopNHeadIsMax<T>(s: seq<T>, key: T -> real, n: nat)
    requires TopN(s, key, n) != []
    ensures forall y :: y in s ==> key(TopN(s, key, n)[0]) >= key(y)
  {
    var r := TopN(s, key, n);
    forall y | y in s
      ensures key(r[0]) >= key(y)
    {
      if y in r {
        var j :| 0 <= j < |r| && r[j] == y;
        if j > 0 {
          assert key(r[0]) >= key(r[j]);
        }
      } else {
        assert y in multiset(s);
        assert y !in multiset(r);
        assert y in multiset(s) - multiset(r);
        assert r[0] in r;
      }
    }
  }
}
