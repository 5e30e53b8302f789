// The array operations the source relies on: a stable sort by descending key
// (what `Array.prototype.sort` with a comparator `(a, b) => key(b) - key(a)` does)
// and `Array.prototype.slice`.
module Sorting {

  ghost predicate SortedDesc<T>(s: seq<T>, key: T -> real)
  {
    forall i, j :: 0 <= i < j < |s| ==> key(s[i]) >= key(s[j])
  }

  /** Inserts `x` after every element whose key is at least `key(x)`. */
  function Insert<T>(x: T, s: seq<T>, key: T -> real): seq<T>
  {
    if |s| == 0 then [x]
    else if key(s[0]) < key(x) then [x] + s
    else [s[0]] + Insert(x, s[1..], key)
  }

  lemma {:induction false} InsertMultiset<T>(x: T, s: seq<T>, key: T -> real)
    ensures multiset(Insert(x, s, key)) == multiset(s) + multiset{x}
  {
    if |s| > 0 && key(s[0]) >= key(x) {
      InsertMultiset(x, s[1..], key);
      assert s == [s[0]] + s[1..];
    }
  }

  /** Inserting next to the head: the result starts with `s[0]` or with `x`. */
  lemma {:induction false} InsertHead<T>(x: T, s: seq<T>, key: T -> real)
    ensures |Insert(x, s, key)| == |s| + 1
    ensures Insert(x, s, key)[0] == x || (|s| > 0 && Insert(x, s, key)[0] == s[0])
  {
    if |s| > 0 && key(s[0]) >= key(x) {
      InsertHead(x, s[1..], key);
    }
  }

  lemma {:induction false} InsertSorted<T>(x: T, s: seq<T>, key: T -> real)
    requires SortedDesc(s, key)
    ensures SortedDesc(Insert(x, s, key), key)
  {
    if |s| > 0 && key(s[0]) >= key(x) {
      var rest := Insert(x, s[1..], key);
      InsertSorted(x, s[1..], key);
      InsertHead(x, s[1..], key);
      // key(s[0]) bounds the head of rest, and rest is sorted
      assert key(s[0]) >= key(rest[0]);
      var r := [s[0]] + rest;
      forall i, j | 0 <= i < j < |r| ensures key(r[i]) >= key(r[j]) {
        if i > 0 {
          assert r[i] == rest[i - 1] && r[j] == rest[j - 1];
        } else {
          assert r[j] == rest[j - 1];
          assert key(rest[0]) >= key(rest[j - 1]);
        }
      }
    }
  }

  /** A stable sort: elements with equal keys keep their input order. */
  function SortDesc<T>(xs: seq<T>, key: T -> real): seq<T>
  {
    if |xs| == 0 then [] else Insert(xs[|xs| - 1], SortDesc(xs[..|xs| - 1], key), key)
  }

  /** Two elements come out in descending key order. */
  lemma SortTwo<T>(a: T, b: T, key: T -> real)
    requires key(a) < key(b)
    ensures SortDesc([a, b], key) == [b, a]
  {
    assert [a, b][..1] == [a];
    assert [a][..0] == [];
    assert SortDesc([a], key) == Insert(a, [], key) == [a];
    assert SortDesc([a, b], key) == Insert(b, [a], key);
  }

  lemma {:induction false} SortDescProperties<T>(xs: seq<T>, key: T -> real)
    ensures SortedDesc(SortDesc(xs, key), key)
    ensures multiset(SortDesc(xs, key)) == multiset(xs)
    ensures |SortDesc(xs, key)| == |xs|
  {
    if |xs| > 0 {
      var init := xs[..|xs| - 1];
      SortDescProperties(init, key);
      InsertSorted(xs[|xs| - 1], SortDesc(init, key), key);
      InsertMultiset(xs[|xs| - 1], SortDesc(init, key), key);
      InsertHead(xs[|xs| - 1], SortDesc(init, key), key);
      assert xs == init + [xs[|xs| - 1]];
    }
  }

  /** The elements of `s` whose key is exactly `k`, in order. */
  function WithKey<T>(s: seq<T>, key: T -> real, k: real): seq<T>
  {
    if |s| == 0 then [] else (if key(s[0]) == k then [s[0]] else []) + WithKey(s[1..], key, k)
  }

  lemma {:induction false} WithKeyAppend<T>(a: seq<T>, b: seq<T>, key: T -> real, k: real)
    ensures WithKey(a + b, key, k) == WithKey(a, key, k) + WithKey(b, key, k)
  {
    if |a| == 0 {
      assert a + b == b;
    } else {
      assert (a + b)[1..] == a[1..] + b;
      WithKeyAppend(a[1..], b, key, k);
    }
  }

  lemma {:induction false} InsertWithKey<T>(x: T, s: seq<T>, key: T -> real, k: real)
    requires SortedDesc(s, key)
    ensures WithKey(Insert(x, s, key), key, k)
      == WithKey(s, key, k) + (if key(x) == k then [x] else [])
  {
    if |s| == 0 {
    } else if key(s[0]) < key(x) {
      // every element of s has a key below key(x), so none of them has key k when key(x) == k
      WithKeyNone(s, key, k, key(x));
      assert WithKey([x] + s, key, k) == (if key(x) == k then [x] else []) + WithKey(s, key, k) by {
        assert ([x] + s)[1..] == s;
      }
    } else {
      var rest := Insert(x, s[1..], key);
      InsertWithKey(x, s[1..], key, k);
      var r := [s[0]] + rest;
      assert r[1..] == rest;
      assert WithKey(r, key, k) == (if key(s[0]) == k then [s[0]] else []) + WithKey(rest, key, k);
      assert WithKey(s, key, k) == (if key(s[0]) == k then [s[0]] else []) + WithKey(s[1..], key, k);
    }
  }

  /** In a descending sequence whose head key is below `bound`, no element has key `bound`. */
  lemma {:induction false} WithKeyNone<T>(s: seq<T>, key: T -> real, k: real, bound: real)
    requires SortedDesc(s, key) && |s| > 0 && key(s[0]) < bound
    ensures k == bound ==> WithKey(s, key, k) == []
    decreases |s|
  {
    if k == bound && |s| > 1 {
      WithKeyNone(s[1..], key, k, bound);
    }
  }

  /** Stability: for every key value, the elements carrying it appear in input order. */
  lemma {:induction false} SortDescStable<T>(xs: seq<T>, key: T -> real, k: real)
    ensures WithKey(SortDesc(xs, key), key, k) == WithKey(xs, key, k)
  {
    if |xs| > 0 {
      var init := xs[..|xs| - 1];
      var x := xs[|xs| - 1];
      var sorted := SortDesc(init, key);
      assert SortDesc(xs, key) == Insert(x, sorted, key);
      SortDescStable(init, key, k);
      SortDescProperties(init, key);
      InsertWithKey(x, sorted, key, k);
      assert xs == init + [x];
      WithKeyAppend(init, [x], key, k);
      assert WithKey([x], key, k) == (if key(x) == k then [x] else []) + WithKey([], key, k) by {
        assert [x][1..] == [];
      }
    }
  }

  /** No two positions carry the same `f`-value. */
  ghost predicate DistinctBy<T, K>(s: seq<T>, f: T -> K)
  {
    forall i, j :: 0 <= i < j < |s| ==> f(s[i]) != f(s[j])
  }

  lemma {:induction false} InsertDistinct<T, K>(x: T, s: seq<T>, key: T -> real, f: T -> K)
    requires DistinctBy(s, f)
    requires forall y :: y in s ==> f(y) != f(x)
    ensures DistinctBy(Insert(x, s, key), f)
  {
    if |s| > 0 && key(s[0]) >= key(x) {
      var rest := Insert(x, s[1..], key);
      InsertDistinct(x, s[1..], key, f);
      InsertMultiset(x, s[1..], key);
      var r := [s[0]] + rest;
      forall i, j | 0 <= i < j < |r| ensures f(r[i]) != f(r[j]) {
        assert r[j] == rest[j - 1];
        if i > 0 {
          assert r[i] == rest[i - 1];
        } else {
          assert r[j] in multiset(rest);
          assert r[j] == x || r[j] in s[1..];
        }
      }
    } else if |s| > 0 {
      var r := [x] + s;
      forall i, j | 0 <= i < j < |r| ensures f(r[i]) != f(r[j]) {
        assert r[j] == s[j - 1];
        if i > 0 {
          assert r[i] == s[i - 1];
        }
      }
    }
  }

  /** Sorting neither drops nor repeats an `f`-value. */
  lemma {:induction false} SortDescDistinct<T, K>(xs: seq<T>, key: T -> real, f: T -> K)
    requires DistinctBy(xs, f)
    ensures DistinctBy(SortDesc(xs, key), f)
  {
    if |xs| > 0 {
      var init := xs[..|xs| - 1];
      var x := xs[|xs| - 1];
      assert DistinctBy(init, f) by {
        forall i, j | 0 <= i < j < |init| ensures f(init[i]) != f(init[j]) {
          assert init[i] == xs[i] && init[j] == xs[j];
        }
      }
      SortDescDistinct(init, key, f);
      SortDescProperties(init, key);
      forall y | y in SortDesc(init, key) ensures f(y) != f(x) {
        assert y in multiset(SortDesc(init, key));
        var i :| 0 <= i < |init| && init[i] == y;
        assert xs[i] == y;
      }
      InsertDistinct(x, SortDesc(init, key), key, f);
    }
  }

  /** `xs.slice(0, n)` for a non-negative `n`. */
  function Take<T>(xs: seq<T>, n: nat): (r: seq<T>)
    ensures |r| == if n < |xs| then n else |xs|
    ensures r == xs[..|r|]
  {
    if n < |xs| then xs[..n] else xs
  }

  /**
   * The first `k` of a descending sort: sorted, drawn from the input, at least
   * as high as everything left out, and everything when there is room.
   */
  lemma TakeSortDesc<T>(xs: seq<T>, key: T -> real, k: nat)
    ensures var r := Take(SortDesc(xs, key), k);
      SortedDesc(r, key)
      && |r| == (if k < |xs| then k else |xs|)
      && (forall d :: d in r ==> d in xs)
      && (forall d, e :: d in xs && d !in r && e in r ==> key(e) >= key(d))
      && (k >= |xs| ==> multiset(r) == multiset(xs))
  {
    var s := SortDesc(xs, key);
    SortDescProperties(xs, key);
    var r := Take(s, k);
    forall d | d in r ensures d in xs {
      assert d in multiset(s);
    }
    forall d, e | d in xs && d !in r && e in r ensures key(e) >= key(d) {
      assert d in multiset(s);
      var i :| 0 <= i < |s| && s[i] == d;
      var j :| 0 <= j < |r| && r[j] == e;
      assert s[j] == e;
    }
    if k >= |xs| {
      assert r == s;
    }
  }

  /** Index normalisation of `Array.prototype.slice`: negative counts from the end. */
  function SliceIndex(len: nat, i: int): (r: nat)
    ensures r <= len
  {
    if i < 0 then (if len + i < 0 then 0 else len + i) else if i > len then len else i
  }

  /** `xs.slice(start, end)`. */
  function Slice<T>(xs: seq<T>, start: int, end: int): (r: seq<T>)
    ensures var a := SliceIndex(|xs|, start); var b := SliceIndex(|xs|, end);
      r == if a <= b then xs[a..b] else []
  {
    var a := SliceIndex(|xs|, start);
    var b := SliceIndex(|xs|, end);
    if a <= b then xs[a..b] else []
  }

  /** `xs.filter(p)`. */
  function Filter<T>(xs: seq<T>, p: T -> bool): (r: seq<T>)
    ensures |r| <= |xs|
    ensures forall y :: y in r ==> y in xs && p(y)
    ensures forall y :: y in xs && p(y) ==> y in r
  {
    if |xs| == 0 then [] else (if p(xs[0]) then [xs[0]] else []) + Filter(xs[1..], p)
  }

  lemma {:induction false} FilterAppend<T>(a: seq<T>, b: seq<T>, p: T -> bool)
    ensures Filter(a + b, p) == Filter(a, p) + Filter(b, p)
  {
    if |a| == 0 {
      assert a + b == b;
    } else {
      assert (a + b)[1..] == a[1..] + b;
      FilterAppend(a[1..], b, p);
    }
  }

  /** `xs.map(f)`. */
  function Map<T, U>(xs: seq<T>, f: T -> U): (r: seq<U>)
    ensures |r| == |xs| && forall i :: 0 <= i < |xs| ==> r[i] == f(xs[i])
  {
    seq(|xs|, i requires 0 <= i < |xs| => f(xs[i]))
  }
}
