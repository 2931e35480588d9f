/** `array.sort((a, b) => key(b) - key(a))`: a stable sort by a natural-number
    key, largest first. `Array.prototype.sort` has been required to be stable
    since the 2019 edition of ECMA-262 (section 22.1.3.27), so elements with
    equal keys keep their relative order. The sort is written as insertion
    sort; only its result matters. */
module StableSort {
  import opened Seqs

  predicate NonIncreasing<T>(s: seq<T>, key: T -> nat) {
    forall a, b :: 0 <= a < b < |s| ==> key(s[a]) >= key(s[b])
  }

  function KeyIs<T>(key: T -> nat, k: nat): T -> bool {
    (x: T) => key(x) == k
  }

  /** Places `x` after the leading elements whose key is larger than its own. */
  function Insert<T>(x: T, s: seq<T>, key: T -> nat): (r: seq<T>)
    ensures |r| == |s| + 1
  {
    if s == [] || key(s[0]) <= key(x) then [x] + s
    else [s[0]] + Insert(x, s[1..], key)
  }

  lemma {:induction false} InsertPermutes<T>(x: T, s: seq<T>, key: T -> nat)
    ensures multiset(Insert(x, s, key)) == multiset(s) + multiset{x}
  {
    if s != [] && key(s[0]) > key(x) {
      InsertPermutes(x, s[1..], key);
      assert s == [s[0]] + s[1..];
    }
  }

  /** The sorted sequence: the largest keys first, ties in input order. */
  function SortByKeyDesc<T>(s: seq<T>, key: T -> nat): (r: seq<T>)
    ensures |r| == |s|
  {
    if s == [] then []
    else Insert(s[0], SortByKeyDesc(s[1..], key), key)
  }

  /** The result is a permutation of the input. */
  lemma {:induction false} SortPermutes<T>(s: seq<T>, key: T -> nat)
    ensures multiset(SortByKeyDesc(s, key)) == multiset(s)
  {
    if s != [] {
      SortPermutes(s[1..], key);
      InsertPermutes(s[0], SortByKeyDesc(s[1..], key), key);
      assert s == [s[0]] + s[1..];
    }
  }

  /** Inserting keeps every key at most `b` when `x` and `s` have keys at most `b`. */
  lemma {:induction false} InsertBounded<T>(x: T, s: seq<T>, key: T -> nat, b: nat)
    requires key(x) <= b && forall k :: 0 <= k < |s| ==> key(s[k]) <= b
    ensures forall k :: 0 <= k < |Insert(x, s, key)| ==> key(Insert(x, s, key)[k]) <= b
  {
    if s != [] && key(s[0]) > key(x) {
      assert forall k :: 0 <= k < |s[1..]| ==> s[1..][k] == s[k + 1];
      InsertBounded(x, s[1..], key, b);
    }
  }

  lemma {:induction false} InsertSorted<T>(x: T, s: seq<T>, key: T -> nat)
    requires NonIncreasing(s, key)
    ensures NonIncreasing(Insert(x, s, key), key)
  {
    if s != [] && key(s[0]) > key(x) {
      var t := Insert(x, s[1..], key);
      assert NonIncreasing(s[1..], key) by {
        assert forall k :: 0 <= k < |s[1..]| ==> s[1..][k] == s[k + 1];
      }
      InsertSorted(x, s[1..], key);
      assert forall k :: 0 <= k < |s[1..]| ==> key(s[1..][k]) <= key(s[0]) by {
        assert forall k :: 0 <= k < |s[1..]| ==> s[1..][k] == s[k + 1];
      }
      InsertBounded(x, s[1..], key, key(s[0]));
      var r := [s[0]] + t;
      assert forall a, b :: 0 <= a < b < |r| ==> key(r[a]) >= key(r[b]) by {
        forall a, b | 0 <= a < b < |r| ensures key(r[a]) >= key(r[b]) {
          if a > 0 { assert r[a] == t[a - 1] && r[b] == t[b - 1]; } else { assert r[b] == t[b - 1]; }
        }
      }
    } else {
      var r := [x] + s;
      assert forall a, b :: 0 <= a < b < |r| ==> key(r[a]) >= key(r[b]) by {
        forall a, b | 0 <= a < b < |r| ensures key(r[a]) >= key(r[b]) {
          if a > 0 { assert r[a] == s[a - 1] && r[b] == s[b - 1]; } else { assert r[b] == s[b - 1]; }
        }
      }
    }
  }

  /** The result is ordered by non-increasing key. */
  lemma {:induction false} SortedByKeyDesc<T>(s: seq<T>, key: T -> nat)
    ensures NonIncreasing(SortByKeyDesc(s, key), key)
  {
    if s != [] {
      SortedByKeyDesc(s[1..], key);
      InsertSorted(s[0], SortByKeyDesc(s[1..], key), key);
    }
  }

  /** Two adjacent elements that cannot both pass `p` may be swapped without
      changing the filtered sequence. */
  lemma FilterSwap<T>(x: T, y: T, t: seq<T>, p: T -> bool)
    requires !p(x) || !p(y)
    ensures Filter([y], p) + (Filter([x], p) + Filter(t, p)) == Filter([x], p) + (Filter([y], p) + Filter(t, p))
  {
    FilterSingleton(x, p);
    FilterSingleton(y, p);
    var fx, fy := Filter([x], p), Filter([y], p);
    assert fx == [] || fy == [];
  }

  /** Inserting does not reorder the elements that share a key. */
  lemma {:induction false} InsertStable<T>(x: T, s: seq<T>, key: T -> nat, k: nat)
    ensures Filter(Insert(x, s, key), KeyIs(key, k)) == Filter([x] + s, KeyIs(key, k))
  {
    var p := KeyIs(key, k);
    if s != [] && key(s[0]) > key(x) {
      var y, t := s[0], s[1..];
      InsertStable(x, t, key, k);
      FilterAppend([y], Insert(x, t, key), p);
      FilterAppend([x], t, p);
      assert s == [y] + t;
      FilterAppend([y], t, p);
      FilterAppend([x], s, p);
      FilterSwap(x, y, t, p);
    } else {
      assert Insert(x, s, key) == [x] + s;
    }
  }

  /** Stability: for every key, the elements with that key appear in the
      result in the order they had in the input. */
  lemma {:induction false} SortStable<T>(s: seq<T>, key: T -> nat, k: nat)
    ensures Filter(SortByKeyDesc(s, key), KeyIs(key, k)) == Filter(s, KeyIs(key, k))
  {
    var p := KeyIs(key, k);
    if s != [] {
      var t := SortByKeyDesc(s[1..], key);
      SortStable(s[1..], key, k);
      InsertStable(s[0], t, key, k);
      FilterAppend([s[0]], t, p);
      FilterAppend([s[0]], s[1..], p);
      assert [s[0]] + s[1..] == s;
    }
  }

  /** A sequence that is already ordered is returned as it is. */
  lemma {:induction false} SortOfSorted<T>(s: seq<T>, key: T -> nat)
    requires NonIncreasing(s, key)
    ensures SortByKeyDesc(s, key) == s
  {
    if s != [] {
      assert NonIncreasing(s[1..], key) by {
        forall a, b | 0 <= a < b < |s[1..]| ensures key(s[1..][a]) >= key(s[1..][b]) {
          assert s[1..][a] == s[a + 1] && s[1..][b] == s[b + 1];
        }
      }
      SortOfSorted(s[1..], key);
      assert s == [s[0]] + s[1..];
    }
  }
}
