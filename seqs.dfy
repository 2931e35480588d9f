/** The array operations the extension's stores are built from: `filter`,
    `find`/`findIndex`, and the `unshift` + truncate idiom that bounds a list. */
module Seqs {
  import opened Wrappers

  /** `r` is an order-preserving subsequence of `s`. */
  ghost predicate Subsequence<T>(r: seq<T>, s: seq<T>)
    decreases |s|
  {
    if r == [] then true
    else if s == [] then false
    else (r[0] == s[0] && Subsequence(r[1..], s[1..])) || Subsequence(r, s[1..])
  }

  /** `Array.prototype.filter`. */
  function Filter<T(==)>(s: seq<T>, p: T -> bool): (r: seq<T>)
    ensures |r| <= |s|
    ensures forall k :: 0 <= k < |r| ==> r[k] in s && p(r[k])
    ensures forall k :: 0 <= k < |s| && p(s[k]) ==> s[k] in r
  {
    if s == [] then [] else (if p(s[0]) then [s[0]] else []) + Filter(s[1..], p)
  }

  lemma AppendAssoc<T>(a: seq<T>, b: seq<T>, c: seq<T>)
    ensures (a + b) + c == a + (b + c)
  {
  }

  /** Nothing survives exactly when no element passes. */
  lemma FilterEmpty<T>(s: seq<T>, p: T -> bool)
    ensures Filter(s, p) == [] <==> forall k :: 0 <= k < |s| ==> !p(s[k])
  {
    var r := Filter(s, p);
    if r != [] {
      assert r[0] in s;
    }
  }

  /** Filtering keeps the surviving elements in their original order. */
  lemma {:induction false} FilterIsSubsequence<T>(s: seq<T>, p: T -> bool)
    ensures Subsequence(Filter(s, p), s)
  {
    if s != [] {
      FilterIsSubsequence(s[1..], p);
      var r := Filter(s, p);
      if p(s[0]) {
        assert r[0] == s[0] && r[1..] == Filter(s[1..], p);
      } else {
        assert r == Filter(s[1..], p);
        SubsequenceOfTail(r, s);
      }
    }
  }

  lemma {:induction false} SubsequenceOfTail<T>(r: seq<T>, s: seq<T>)
    requires s != [] && Subsequence(r, s[1..])
    ensures Subsequence(r, s)
  {
  }

  /** A filter drops nothing exactly when every element passes: a length
      comparison detects whether anything was removed. */
  lemma {:induction false} FilterKeepsAll<T>(s: seq<T>, p: T -> bool)
    ensures |Filter(s, p)| == |s| <==> (forall k :: 0 <= k < |s| ==> p(s[k]))
  {
    if s != [] {
      FilterKeepsAll(s[1..], p);
      assert forall k :: 0 <= k < |s[1..]| ==> s[1..][k] == s[k + 1];
      if !p(s[0]) {
        assert |Filter(s, p)| < |s|;
      }
    }
  }

  /** When nothing is dropped, the filter is the identity. */
  lemma {:induction false} FilterKeepsAllIdentity<T>(s: seq<T>, p: T -> bool)
    requires |Filter(s, p)| == |s|
    ensures Filter(s, p) == s
  {
    if s != [] {
      FilterKeepsAll(s, p);
      assert p(s[0]);
      FilterKeepsAllIdentity(s[1..], p);
      assert s == [s[0]] + s[1..];
    }
  }

  /** Filtering a second time with the same predicate removes nothing more. */
  lemma FilterIdempotent<T>(s: seq<T>, p: T -> bool)
    ensures Filter(Filter(s, p), p) == Filter(s, p)
  {
    FilterKeepsAll(Filter(s, p), p);
    FilterKeepsAllIdentity(Filter(s, p), p);
  }

  lemma FilterSingleton<T>(x: T, p: T -> bool)
    ensures Filter([x], p) == if p(x) then [x] else []
  {
    assert [x][1..] == [];
  }

  /** Filtering distributes over concatenation. */
  lemma {:induction false} FilterAppend<T>(a: seq<T>, b: seq<T>, p: T -> bool)
    ensures Filter(a + b, p) == Filter(a, p) + Filter(b, p)
  {
    if a != [] {
      assert (a + b)[1..] == a[1..] + b;
      FilterAppend(a[1..], b, p);
    } else {
      assert a + b == b;
    }
  }

  /** Two filters in a row are one filter by both predicates. */
  lemma {:induction false} FilterThenFilter<T>(s: seq<T>, p: T -> bool, q: T -> bool, both: T -> bool)
    requires forall x :: both(x) == (p(x) && q(x))
    ensures Filter(Filter(s, p), q) == Filter(s, both)
  {
    if s != [] {
      FilterThenFilter(s[1..], p, q, both);
      var head := if p(s[0]) then [s[0]] else [];
      FilterAppend(head, Filter(s[1..], p), q);
      FilterSingleton(s[0], q);
    }
  }

  /** The values `f` yields along the first `k` elements of `s`, each taken
      with its index, in order, skipping the elements it yields nothing for. */
  function Collect<A, B>(s: seq<A>, f: (nat, A) -> Option<B>, k: nat): (r: seq<B>)
    requires k <= |s|
    ensures |r| <= k
  {
    if k == 0 then []
    else Collect(s, f, k - 1) + if f(k - 1, s[k - 1]).Some? then [f(k - 1, s[k - 1]).value] else []
  }

  /** Nothing is collected exactly when `f` yields nothing for every element. */
  lemma {:induction false} CollectNone<A, B>(s: seq<A>, f: (nat, A) -> Option<B>, k: nat)
    requires k <= |s|
    ensures |Collect(s, f, k)| == 0 <==> forall g :: 0 <= g < k ==> f(g, s[g]).None?
  {
    if k > 0 {
      CollectNone(s, f, k - 1);
    }
  }

  /** When `f` yields a value for every element, one value per element is
      collected. */
  lemma {:induction false} CollectAll<A, B>(s: seq<A>, f: (nat, A) -> Option<B>, k: nat)
    requires k <= |s|
    requires forall g :: 0 <= g < k ==> f(g, s[g]).Some?
    ensures |Collect(s, f, k)| == k
  {
    if k > 0 {
      CollectAll(s, f, k - 1);
    }
  }

  /** `Array.prototype.findIndex`, as an option: the first element satisfying `p`. */
  function FirstIndex<T>(s: seq<T>, p: T -> bool): (r: Option<nat>)
    ensures r.Some? ==> r.value < |s| && p(s[r.value])
    ensures r.Some? ==> forall j :: 0 <= j < r.value ==> !p(s[j])
    ensures r.None? <==> forall j :: 0 <= j < |s| ==> !p(s[j])
  {
    if s == [] then None
    else if p(s[0]) then Some(0)
    else match FirstIndex(s[1..], p)
      case None => None
      case Some(k) => Some(k + 1)
  }

  /** `findIndex` is pinned down by a match with no match before it. */
  lemma FirstIndexIs<T>(s: seq<T>, p: T -> bool, k: nat)
    requires k < |s| && p(s[k])
    requires forall j :: 0 <= j < k ==> !p(s[j])
    ensures FirstIndex(s, p) == Some(k)
  {
    var f := FirstIndex(s, p);
    assert f.Some?;
    assert !(f.value < k) && !(f.value > k);
  }

  /** `findIndex` depends only on which positions satisfy the predicate. */
  lemma {:induction false} FirstIndexPointwise<T>(a: seq<T>, b: seq<T>, p: T -> bool)
    requires |a| == |b|
    requires forall k :: 0 <= k < |a| ==> p(a[k]) == p(b[k])
    ensures FirstIndex(a, p) == FirstIndex(b, p)
  {
    if a != [] && !p(a[0]) {
      FirstIndexPointwise(a[1..], b[1..], p);
    }
  }

  /** `Array.prototype.find`. */
  function Find<T(==)>(s: seq<T>, p: T -> bool): (r: Option<T>)
    ensures r.Some? ==> r.value in s && p(r.value)
    ensures r.None? <==> forall j :: 0 <= j < |s| ==> !p(s[j])
  {
    match FirstIndex(s, p)
    case None => None
    case Some(k) => Some(s[k])
  }

  /** `if (a.length > cap) a.length = cap` (equivalently `a.splice(cap)`). */
  function Cap<T>(s: seq<T>, cap: nat): (r: seq<T>)
    ensures r <= s
    ensures |r| == if |s| <= cap then |s| else cap
  {
    if |s| > cap then s[..cap] else s
  }

  /** `unshift(x)` followed by truncation to `cap` elements: `x` comes first,
      the old elements follow in order, and only the oldest tail is dropped. */
  lemma PrependCapped<T>(s: seq<T>, x: T, cap: nat)
    requires cap >= 1
    ensures var r := Cap([x] + s, cap);
      && r[0] == x
      && r[1..] <= s
      && |r| == if |s| + 1 <= cap then |s| + 1 else cap
  {
    var r := Cap([x] + s, cap);
    assert r[1..] == ([x] + s)[1..|r|];
    assert ([x] + s)[1..] == s;
  }
}
