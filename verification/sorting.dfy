/** `Array.prototype.sort` with a numeric comparator `(a, b) => key(a) - key(b)`, modelled as a
    stable insertion sort (the language guarantees stability). A descending sort negates the
    comparison, which is the same as sorting ascending by the negated key. */
module Sorting {
  import Seqs

  predicate SortedBy<T>(s: seq<T>, key: T -> real) {
    forall i, j :: 0 <= i < j < |s| ==> key(s[i]) <= key(s[j])
  }

  predicate SortedDescBy<T>(s: seq<T>, key: T -> real) {
    forall i, j :: 0 <= i < j < |s| ==> key(s[i]) >= key(s[j])
  }

  /** Inserts `x` after every element whose key is not larger, which keeps equal keys in arrival order. */
  function Insert<T>(s: seq<T>, x: T, key: T -> real): (r: seq<T>)
    requires SortedBy(s, key)
    ensures |r| == |s| + 1
    ensures SortedBy(r, key)
    ensures multiset(r) == multiset(s) + multiset{x}
    ensures (forall i :: 0 <= i < |s| ==> key(s[i]) <= key(x)) ==> r == s + [x]
  {
    if |s| == 0 then [x]
    else if key(s[|s| - 1]) <= key(x) then s + [x]
    else
      var last := s[|s| - 1];
      var init := s[..|s| - 1];
      assert s == init + [last];
      var r' := Insert(init, x, key);
      InsertBelow(init, x, key, last, r');
      r' + [last]
  }

  /** Every element of an insertion into a list bounded by `last` is still bounded by `last`. */
  lemma InsertBelow<T>(init: seq<T>, x: T, key: T -> real, last: T, r': seq<T>)
    requires SortedBy(init + [last], key) && key(x) < key(last)
    requires multiset(r') == multiset(init) + multiset{x}
    ensures forall i :: 0 <= i < |r'| ==> key(r'[i]) <= key(last)
  {
    forall i | 0 <= i < |r'| ensures key(r'[i]) <= key(last) {
      assert r'[i] in multiset(r');
      if r'[i] != x {
        assert r'[i] in multiset(init);
        var j :| 0 <= j < |init| && init[j] == r'[i];
        assert (init + [last])[j] == init[j] && (init + [last])[|init|] == last;
      }
    }
  }

  /** The elements whose key is `k`. */
  function KeyIs<T>(key: T -> real, k: real): T -> bool {
    x => key(x) == k
  }

  /** Stability: for every key value, the elements carrying it appear in `r` in the order they
      have in `s`. */
  ghost predicate KeepsTies<T>(r: seq<T>, s: seq<T>, key: T -> real) {
    forall k :: Seqs.Filter(r, KeyIs(key, k)) == Seqs.Filter(s, KeyIs(key, k))
  }

  /** An inserted element lands after every element with the same key. */
  lemma {:induction false} InsertKeepsTies<T>(s: seq<T>, x: T, key: T -> real, k: real)
    requires SortedBy(s, key)
    ensures Seqs.Filter(Insert(s, x, key), KeyIs(key, k)) == Seqs.Filter(s, KeyIs(key, k)) + Seqs.Filter([x], KeyIs(key, k))
    decreases |s|
  {
    var p := KeyIs(key, k);
    if |s| == 0 {
      assert Insert(s, x, key) == [x];
    } else if key(s[|s| - 1]) <= key(x) {
      Seqs.FilterAppend(s, [x], p);
    } else {
      var last := s[|s| - 1];
      var init := s[..|s| - 1];
      assert s == init + [last];
      InsertKeepsTies(init, x, key, k);
      var r' := Insert(init, x, key);
      assert Insert(s, x, key) == r' + [last];
      TiesStep(r', init, last, x, key, k);
    }
  }

  /** Putting `last` back behind an insertion that kept ties keeps them, since `x`, which sorts
      strictly before `last`, cannot share its key. */
  lemma TiesStep<T>(r': seq<T>, init: seq<T>, last: T, x: T, key: T -> real, k: real)
    requires key(x) < key(last)
    requires Seqs.Filter(r', KeyIs(key, k)) == Seqs.Filter(init, KeyIs(key, k)) + Seqs.Filter([x], KeyIs(key, k))
    ensures Seqs.Filter(r' + [last], KeyIs(key, k)) == Seqs.Filter(init + [last], KeyIs(key, k)) + Seqs.Filter([x], KeyIs(key, k))
  {
    var p := KeyIs(key, k);
    Seqs.FilterAppend(r', [last], p);
    Seqs.FilterAppend(init, [last], p);
    Seqs.FilterSingleton(x, p);
    Seqs.FilterSingleton(last, p);
  }

  /** The sorted arrangement of `s`: ordered by `key`, a permutation of `s`, and stable. */
  function SortBy<T>(s: seq<T>, key: T -> real): (r: seq<T>)
    ensures |r| == |s|
    ensures SortedBy(r, key)
    ensures multiset(r) == multiset(s)
    ensures KeepsTies(r, s, key)
  {
    if |s| == 0 then []
    else
      var init, last := s[..|s| - 1], s[|s| - 1];
      assert s == init + [last];
      var sorted := SortBy(init, key);
      assert KeepsTies(Insert(sorted, last, key), s, key) by {
        forall k ensures Seqs.Filter(Insert(sorted, last, key), KeyIs(key, k)) == Seqs.Filter(s, KeyIs(key, k)) {
          InsertKeepsTies(sorted, last, key, k);
          Seqs.FilterAppend(init, [last], KeyIs(key, k));
        }
      }
      Insert(sorted, last, key)
  }

  /** The `desc` direction: the comparison negated, which keeps equal keys in input order too. */
  function SortDescBy<T>(s: seq<T>, key: T -> real): (r: seq<T>)
    ensures |r| == |s|
    ensures SortedDescBy(r, key)
    ensures multiset(r) == multiset(s)
    ensures KeepsTies(r, s, key)
  {
    var neg := (x: T) => -key(x);
    var r := SortBy(s, neg);
    assert forall i, j :: 0 <= i < j < |r| ==> neg(r[i]) <= neg(r[j]);
    assert KeepsTies(r, s, key) by {
      forall k ensures Seqs.Filter(r, KeyIs(key, k)) == Seqs.Filter(s, KeyIs(key, k)) {
        assert Seqs.Filter(r, KeyIs(neg, -k)) == Seqs.Filter(s, KeyIs(neg, -k));
        Seqs.FilterExt(r, KeyIs(neg, -k), KeyIs(key, k));
        Seqs.FilterExt(s, KeyIs(neg, -k), KeyIs(key, k));
      }
    }
    r
  }

  /** Stability in its simplest form: an already ordered list is left exactly as it is. */
  lemma {:induction false} SortSortedIsIdentity<T>(s: seq<T>, key: T -> real)
    requires SortedBy(s, key)
    ensures SortBy(s, key) == s
  {
    if |s| > 0 {
      var init := s[..|s| - 1];
      SortSortedIsIdentity(init, key);
    }
  }

  /** `[...s].sort(desc by key).slice(0, n)`: the `n` newest elements, newest first; whatever
      is left out is no newer than anything kept, and among equal keys at the cut the stable
      sort keeps the earliest in input order. */
  function Latest<T(!new)>(s: seq<T>, key: T -> real, n: nat): (r: seq<T>)
    ensures |r| == if |s| < n then |s| else n
    ensures SortedDescBy(r, key)
    ensures multiset(r) <= multiset(s)
    ensures forall x, i :: x in s && x !in r && 0 <= i < |r| ==> key(x) <= key(r[i])
    ensures r == SortDescBy(s, key)[..|r|]
  {
    var t := SortDescBy(s, key);
    var r := if |t| <= n then t else t[..n];
    assert t == r + t[|r|..];
    assert r <= t;
    assert forall x, i :: x in s && x !in r && 0 <= i < |r| ==> key(x) <= key(r[i]) by {
      forall x, i | x in s && x !in r && 0 <= i < |r| ensures key(x) <= key(r[i]) {
        assert x in multiset(t);
        PrefixDominates(t, key, r, x);
      }
    }
    r
  }

  /** In a descending list, an element outside a prefix is no newer than the prefix. */
  lemma PrefixDominates<T>(t: seq<T>, key: T -> real, r: seq<T>, x: T)
    requires SortedDescBy(t, key) && r <= t
    requires x in t && x !in r
    ensures forall i :: 0 <= i < |r| ==> key(x) <= key(r[i])
  {
    var j :| 0 <= j < |t| && t[j] == x;
    assert j >= |r|;
  }
}
