/** The greedy single-pass partition of `clusterByTopics`
    (utils/tab-grouper.js), on indices. Index `i`, unless an earlier cluster
    took it, seeds a cluster; every later index that no earlier cluster took
    and that the seed judges similar joins it. The judgement `similar(seed,
    other)` is arbitrary and need not be symmetric. */
module Clustering {
  import Seqs

  predicate Increasing(s: seq<nat>) {
    forall a, b :: 0 <= a < b < |s| ==> s[a] < s[b]
  }

  function Elems(s: seq<nat>): set<nat> {
    set x | x in s
  }

  lemma ElemsAppend(a: seq<nat>, b: seq<nat>)
    ensures Elems(a + b) == Elems(a) + Elems(b)
  {
    assert forall x :: x in a + b <==> x in a || x in b;
  }

  /** A cluster as the partition produces it: non-empty, in increasing index
      order, within `[lo, n)` and clear of the indices already taken. */
  predicate IsGroup(m: seq<nat>, lo: nat, n: nat, taken: set<nat>) {
    |m| >= 1 && Increasing(m) && forall x :: x in m ==> lo <= x < n && x !in taken
  }

  /** The indices between `seed` and `j` (exclusive) that join the cluster
      seeded by `seed`: those not taken that the seed judges similar. */
  function Candidates<T>(topics: seq<T>, similar: (T, T) -> bool, seed: nat, j: nat, taken: set<nat>): (r: seq<nat>)
    requires seed < |topics| && j <= |topics|
    ensures Increasing(r)
    ensures forall x :: x in r <==> seed < x < j && x !in taken && similar(topics[seed], topics[x])
    decreases j
  {
    if j <= seed + 1 then []
    else
      var rest := Candidates(topics, similar, seed, j - 1, taken);
      if j - 1 !in taken && similar(topics[seed], topics[j - 1]) then
        var r := rest + [j - 1];
        assert forall b :: 0 <= b < |rest| ==> r[b] == rest[b] && rest[b] in rest;
        r
      else rest
  }

  // --------------------------------------------------------- inner sweep

  predicate Below(m: seq<nat>, n: nat) {
    forall k :: 0 <= k < |m| ==> m[k] < n
  }

  /** The elements of `items` at the indices `m`, in that order. */
  function Picked<U>(items: seq<U>, m: seq<nat>): (r: seq<U>)
    requires Below(m, |items|)
    ensures |r| == |m|
  {
    seq(|m|, k requires 0 <= k < |m| => items[m[k]])
  }

  /** The state of the inner loop for one seed: what it has gathered and the
      processed set. */
  datatype Sweep<U> = Sweep(gathered: seq<U>, processed: set<nat>)

  /** The inner loop for the seed `i` once it has looked at the indices
      before `j`: an index not yet processed that the seed judges similar
      has its item gathered and becomes processed. */
  function Swept<T, U>(topics: seq<T>, items: seq<U>, similar: (T, T) -> bool, i: nat, j: nat, taken: set<nat>): Sweep<U>
    requires |items| == |topics| && i < j <= |topics|
    decreases j
  {
    if j == i + 1 then Sweep([items[i]], taken)
    else
      var prev := Swept(topics, items, similar, i, j - 1, taken);
      if j - 1 !in prev.processed && similar(topics[i], topics[j - 1]) then
        Sweep(prev.gathered + [items[j - 1]], prev.processed + {j - 1})
      else prev
  }

  /** One step of the sweep: index `j - 1` joins the candidates exactly when
      it is free and judged similar to the seed. */
  lemma CandidatesStep<T>(topics: seq<T>, similar: (T, T) -> bool, i: nat, j: nat, taken: set<nat>)
    requires i + 1 < j <= |topics|
    ensures Candidates(topics, similar, i, j, taken) ==
      Candidates(topics, similar, i, j - 1, taken) + if j - 1 !in taken && similar(topics[i], topics[j - 1]) then [j - 1] else []
  {
  }

  /** An index is processed after the sweep exactly when it was taken
      before, or it lies between the seed and `j` and the seed judges it
      similar. */
  lemma {:induction false} SweptProcessedAt<T, U>(topics: seq<T>, items: seq<U>, similar: (T, T) -> bool, i: nat, j: nat, taken: set<nat>, x: nat)
    requires |items| == |topics| && i < j <= |topics| && x < |topics|
    ensures x in Swept(topics, items, similar, i, j, taken).processed <==>
      x in taken || (i < x < j && similar(topics[i], topics[x]))
    decreases j
  {
    if j > i + 1 {
      SweptProcessedAt(topics, items, similar, i, j - 1, taken, x);
      SweptProcessedAt(topics, items, similar, i, j - 1, taken, j - 1);
    }
  }

  /** The sweep marks exactly the seed's candidates processed. */
  lemma SweptProcessed<T, U>(topics: seq<T>, items: seq<U>, similar: (T, T) -> bool, i: nat, j: nat, taken: set<nat>)
    requires |items| == |topics| && i < j <= |topics|
    ensures Swept(topics, items, similar, i, j, taken).processed == taken + Elems(Candidates(topics, similar, i, j, taken))
  {
    var p := Swept(topics, items, similar, i, j, taken).processed;
    var c := Candidates(topics, similar, i, j, taken);
    forall x | x in p ensures x in taken + Elems(c) {
      if x < |topics| {
        SweptProcessedAt(topics, items, similar, i, j, taken, x);
      } else {
        SweptProcessedBeyond(topics, items, similar, i, j, taken, x);
      }
    }
    forall x | x in taken + Elems(c) ensures x in p {
      if x < |topics| {
        SweptProcessedAt(topics, items, similar, i, j, taken, x);
      } else {
        SweptProcessedBeyond(topics, items, similar, i, j, taken, x);
      }
    }
  }

  /** The sweep only adds indices below `j`. */
  lemma {:induction false} SweptProcessedBeyond<T, U>(topics: seq<T>, items: seq<U>, similar: (T, T) -> bool, i: nat, j: nat, taken: set<nat>, x: nat)
    requires |items| == |topics| && i < j <= |topics| && j <= x
    ensures x in Swept(topics, items, similar, i, j, taken).processed <==> x in taken
    decreases j
  {
    if j > i + 1 {
      SweptProcessedBeyond(topics, items, similar, i, j - 1, taken, x);
    }
  }

  lemma PickedAppend<U>(items: seq<U>, m: seq<nat>, j: nat)
    requires Below(m, |items|) && j < |items|
    ensures Below(m + [j], |items|) && Picked(items, m + [j]) == Picked(items, m) + [items[j]]
  {
    assert forall k :: 0 <= k < |m| ==> (m + [j])[k] == m[k];
  }

  /** The seed and its candidates lie below `n`. */
  lemma MembersBelow<T>(topics: seq<T>, similar: (T, T) -> bool, i: nat, j: nat, taken: set<nat>)
    requires i < |topics| && j <= |topics|
    ensures Below([i] + Candidates(topics, similar, i, j, taken), |topics|)
  {
    var m := [i] + Candidates(topics, similar, i, j, taken);
    assert forall k :: 0 <= k < |m| ==> m[k] == i || m[k] in m[1..];
  }

  /** The sweep gathers the items of the seed and of its candidates, in index
      order. */
  lemma {:induction false} SweptGathered<T, U>(topics: seq<T>, items: seq<U>, similar: (T, T) -> bool, i: nat, j: nat, taken: set<nat>)
    requires |items| == |topics| && i < j <= |topics|
    ensures Below([i] + Candidates(topics, similar, i, j, taken), |topics|)
    ensures Swept(topics, items, similar, i, j, taken).gathered == Picked(items, [i] + Candidates(topics, similar, i, j, taken))
    decreases j
  {
    MembersBelow(topics, similar, i, j, taken);
    if j == i + 1 {
      assert Candidates(topics, similar, i, j, taken) == [];
      assert [i] + [] == [i];
    } else {
      SweptGathered(topics, items, similar, i, j - 1, taken);
      SweptProcessedBeyond(topics, items, similar, i, j - 1, taken, j - 1);
      var before := Candidates(topics, similar, i, j - 1, taken);
      CandidatesStep(topics, similar, i, j, taken);
      if j - 1 !in taken && similar(topics[i], topics[j - 1]) {
        PickedAppend(items, [i] + before, j - 1);
        Seqs.AppendAssoc([i], before, [j - 1]);
      }
    }
  }

  /** The clusters seeded from index `i` on, given the indices `taken` by the
      clusters before them. */
  function Clusters<T>(topics: seq<T>, similar: (T, T) -> bool, i: nat, taken: set<nat>): (c: seq<seq<nat>>)
    ensures forall g :: 0 <= g < |c| ==> IsGroup(c[g], i, |topics|, taken)
    decreases |topics| - i
  {
    if i >= |topics| then []
    else if i in taken then Clusters(topics, similar, i + 1, taken)
    else
      var m := [i] + Candidates(topics, similar, i, |topics|, taken);
      var rest := Clusters(topics, similar, i + 1, taken + Elems(m));
      SeedIsGroup(topics, similar, i, taken);
      assert forall g :: 0 <= g < |rest| ==> IsGroup(rest[g], i, |topics|, taken) by {
        forall g | 0 <= g < |rest| ensures IsGroup(rest[g], i, |topics|, taken) {
          assert IsGroup(rest[g], i + 1, |topics|, taken + Elems(m));
        }
      }
      [m] + rest
  }

  lemma SeedIsGroup<T>(topics: seq<T>, similar: (T, T) -> bool, i: nat, taken: set<nat>)
    requires i < |topics| && i !in taken
    ensures IsGroup([i] + Candidates(topics, similar, i, |topics|, taken), i, |topics|, taken)
  {
    var cand := Candidates(topics, similar, i, |topics|, taken);
    var m := [i] + cand;
    forall a, b | 0 <= a < b < |m| ensures m[a] < m[b] {
      assert m[b] == cand[b - 1] && cand[b - 1] in cand;
      if a > 0 {
        assert m[a] == cand[a - 1];
      }
    }
    forall x | x in m ensures i <= x < |topics| && x !in taken {
      if x != i {
        assert x in cand;
      }
    }
  }

  /** The clusters of all the indices of `topics`, in creation order. */
  function Groups<T>(topics: seq<T>, similar: (T, T) -> bool): seq<seq<nat>> {
    Clusters(topics, similar, 0, {})
  }

  /** Seed `i` comes first in its cluster, followed by the candidates; the
      later clusters are formed with the seed and its candidates taken. */
  lemma SeedCluster<T>(topics: seq<T>, similar: (T, T) -> bool, i: nat, taken: set<nat>, after: set<nat>)
    requires i < |topics| && i !in taken
    requires after == taken + Elems(Candidates(topics, similar, i, |topics|, taken)) + {i}
    ensures var m := [i] + Candidates(topics, similar, i, |topics|, taken);
      Clusters(topics, similar, i, taken) == [m] + Clusters(topics, similar, i + 1, after)
  {
    var c := Candidates(topics, similar, i, |topics|, taken);
    ElemsAppend([i], c);
    assert Elems([i]) == {i};
    assert after == taken + Elems([i] + c);
  }

  /** `x` is in one of the first `g` clusters. */
  predicate InEarlier(c: seq<seq<nat>>, g: nat, x: nat) {
    exists h :: 0 <= h < g && h < |c| && x in c[h]
  }

  predicate InSome(c: seq<seq<nat>>, x: nat) {
    InEarlier(c, |c|, x)
  }

  predicate Disjoint(c: seq<seq<nat>>) {
    forall g, h, x :: 0 <= g < h < |c| && x in c[g] ==> x !in c[h]
  }

  /** Every free index in `[lo, n)` is in some cluster. */
  predicate Covers(c: seq<seq<nat>>, lo: nat, n: nat, taken: set<nat>) {
    forall x :: lo <= x < n && x !in taken ==> InSome(c, x)
  }

  /** Each cluster's first element is the lowest free index from `lo` on that
      no earlier cluster holds. */
  predicate SeedsLowest(c: seq<seq<nat>>, lo: nat, taken: set<nat>) {
    forall g, x :: 0 <= g < |c| && |c[g]| >= 1 && lo <= x < c[g][0] && x !in taken ==> InEarlier(c, g, x)
  }

  predicate SeedsIncrease(c: seq<seq<nat>>) {
    forall g, h :: 0 <= g < h < |c| && |c[g]| >= 1 && |c[h]| >= 1 ==> c[g][0] < c[h][0]
  }

  /** A free index after a cluster's seed that no earlier cluster holds is in
      that cluster exactly when the seed judges it similar. */
  predicate MembersSimilar<T>(c: seq<seq<nat>>, topics: seq<T>, similar: (T, T) -> bool, taken: set<nat>) {
    forall g, x :: 0 <= g < |c| && |c[g]| >= 1 && c[g][0] < x < |topics| && x !in taken && !InEarlier(c, g, x) ==>
      c[g][0] < |topics| && (x in c[g] <==> similar(topics[c[g][0]], topics[x]))
  }

  lemma {:induction false} ClustersDisjoint<T>(topics: seq<T>, similar: (T, T) -> bool, i: nat, taken: set<nat>)
    ensures Disjoint(Clusters(topics, similar, i, taken))
    decreases |topics| - i
  {
    if i < |topics| {
      var c := Clusters(topics, similar, i, taken);
      if i in taken {
        ClustersDisjoint(topics, similar, i + 1, taken);
      } else {
        var m := [i] + Candidates(topics, similar, i, |topics|, taken);
        var rest := Clusters(topics, similar, i + 1, taken + Elems(m));
        assert c == [m] + rest;
        ClustersDisjoint(topics, similar, i + 1, taken + Elems(m));
        forall g, h, x | 0 <= g < h < |c| && x in c[g] ensures x !in c[h] {
          assert c[h] == rest[h - 1] && IsGroup(rest[h - 1], i + 1, |topics|, taken + Elems(m));
          if g == 0 {
            assert x in Elems(m);
          } else {
            assert c[g] == rest[g - 1];
          }
        }
      }
    }
  }

  lemma {:induction false} ClustersCover<T>(topics: seq<T>, similar: (T, T) -> bool, i: nat, taken: set<nat>)
    ensures Covers(Clusters(topics, similar, i, taken), i, |topics|, taken)
    decreases |topics| - i
  {
    if i < |topics| {
      var c := Clusters(topics, similar, i, taken);
      if i in taken {
        ClustersCover(topics, similar, i + 1, taken);
      } else {
        var m := [i] + Candidates(topics, similar, i, |topics|, taken);
        var rest := Clusters(topics, similar, i + 1, taken + Elems(m));
        assert c == [m] + rest;
        ClustersCover(topics, similar, i + 1, taken + Elems(m));
        forall x | i <= x < |topics| && x !in taken ensures InSome(c, x) {
          if x in m {
            assert c[0] == m;
          } else {
            assert x != i && x !in Elems(m);
            assert InSome(rest, x);
            var g :| 0 <= g < |rest| && x in rest[g];
            assert c[g + 1] == rest[g];
          }
        }
      }
    }
  }

  lemma {:induction false} ClustersSeedsLowest<T>(topics: seq<T>, similar: (T, T) -> bool, i: nat, taken: set<nat>)
    ensures SeedsLowest(Clusters(topics, similar, i, taken), i, taken)
    decreases |topics| - i
  {
    if i < |topics| {
      var c := Clusters(topics, similar, i, taken);
      if i in taken {
        ClustersSeedsLowest(topics, similar, i + 1, taken);
        assert SeedsLowest(c, i + 1, taken);
      } else {
        var m := [i] + Candidates(topics, similar, i, |topics|, taken);
        var rest := Clusters(topics, similar, i + 1, taken + Elems(m));
        assert c == [m] + rest;
        ClustersSeedsLowest(topics, similar, i + 1, taken + Elems(m));
        forall g, x | 0 <= g < |c| && |c[g]| >= 1 && i <= x < c[g][0] && x !in taken ensures InEarlier(c, g, x) {
          assert c[0][0] == i;
          assert g != 0 && c[g] == rest[g - 1];
          if x in m {
            assert c[0] == m;
          } else {
            assert x != i && x !in Elems(m);
            assert InEarlier(rest, g - 1, x);
            var h :| 0 <= h < g - 1 && x in rest[h];
            assert c[h + 1] == rest[h];
          }
        }
      }
    }
  }

  lemma {:induction false} ClustersSeedsIncrease<T>(topics: seq<T>, similar: (T, T) -> bool, i: nat, taken: set<nat>)
    ensures SeedsIncrease(Clusters(topics, similar, i, taken))
    decreases |topics| - i
  {
    if i < |topics| {
      var c := Clusters(topics, similar, i, taken);
      if i in taken {
        ClustersSeedsIncrease(topics, similar, i + 1, taken);
      } else {
        var m := [i] + Candidates(topics, similar, i, |topics|, taken);
        var rest := Clusters(topics, similar, i + 1, taken + Elems(m));
        assert c == [m] + rest;
        ClustersSeedsIncrease(topics, similar, i + 1, taken + Elems(m));
        forall g, h | 0 <= g < h < |c| && |c[g]| >= 1 && |c[h]| >= 1 ensures c[g][0] < c[h][0] {
          assert c[h] == rest[h - 1] && rest[h - 1][0] in rest[h - 1];
          assert IsGroup(rest[h - 1], i + 1, |topics|, taken + Elems(m));
          if g > 0 {
            assert c[g] == rest[g - 1];
          }
        }
      }
    }
  }

  /** Prepending the seed's cluster `m` keeps the clusters after it
      faithful to their seeds: an index not in an earlier cluster is not in
      `m` either. */
  lemma MembersAfterSeed<T>(c: seq<seq<nat>>, m: seq<nat>, rest: seq<seq<nat>>, topics: seq<T>,
                            similar: (T, T) -> bool, taken: set<nat>, g: nat, x: nat)
    requires c == [m] + rest
    requires MembersSimilar(rest, topics, similar, taken + Elems(m))
    requires 0 < g < |c| && |c[g]| >= 1 && c[g][0] < x < |topics| && x !in taken && !InEarlier(c, g, x)
    ensures c[g][0] < |topics| && (x in c[g] <==> similar(topics[c[g][0]], topics[x]))
  {
    assert x !in m by {
      assert c[0] == m;
    }
    assert c[g] == rest[g - 1];
    assert !InEarlier(rest, g - 1, x) by {
      forall h | 0 <= h < g - 1 ensures x !in rest[h] {
        assert c[h + 1] == rest[h];
      }
    }
  }

  lemma {:induction false} ClustersMembers<T>(topics: seq<T>, similar: (T, T) -> bool, i: nat, taken: set<nat>)
    ensures MembersSimilar(Clusters(topics, similar, i, taken), topics, similar, taken)
    decreases |topics| - i
  {
    if i < |topics| {
      var c := Clusters(topics, similar, i, taken);
      if i in taken {
        ClustersMembers(topics, similar, i + 1, taken);
      } else {
        var cand := Candidates(topics, similar, i, |topics|, taken);
        var m := [i] + cand;
        var rest := Clusters(topics, similar, i + 1, taken + Elems(m));
        assert c == [m] + rest;
        ClustersMembers(topics, similar, i + 1, taken + Elems(m));
        forall g, x | 0 <= g < |c| && |c[g]| >= 1 && c[g][0] < x < |topics| && x !in taken && !InEarlier(c, g, x)
          ensures c[g][0] < |topics| && (x in c[g] <==> similar(topics[c[g][0]], topics[x]))
        {
          if g == 0 {
            assert c[0] == m && m[0] == i;
            assert x in m <==> x in cand;
          } else {
            MembersAfterSeed(c, m, rest, topics, similar, taken, g, x);
          }
        }
      }
    }
  }

  /** `clusterByTopics` partitions the indices of its input: every cluster is
      non-empty, increasing and within range, no index is in two clusters, and
      every index is in one. */
  lemma GroupsPartition<T>(topics: seq<T>, similar: (T, T) -> bool)
    ensures var c := Groups(topics, similar);
      && (forall g :: 0 <= g < |c| ==> |c[g]| >= 1 && Increasing(c[g]) && forall x :: x in c[g] ==> x < |topics|)
      && Disjoint(c)
      && (forall x :: 0 <= x < |topics| ==> InSome(c, x))
  {
    ClustersDisjoint(topics, similar, 0, {});
    ClustersCover(topics, similar, 0, {});
  }

  /** Each cluster is seeded by the lowest index not in an earlier cluster,
      later seeds are larger, and a cluster takes exactly the later free
      indices its seed judges similar. */
  lemma GroupsGreedy<T>(topics: seq<T>, similar: (T, T) -> bool)
    ensures var c := Groups(topics, similar);
      && (forall g, x :: 0 <= g < |c| && x < c[g][0] ==> InEarlier(c, g, x))
      && SeedsIncrease(c)
      && (forall g, x :: 0 <= g < |c| && c[g][0] < x < |topics| && !InEarlier(c, g, x) ==>
            (x in c[g] <==> similar(topics[c[g][0]], topics[x])))
  {
    ClustersSeedsLowest(topics, similar, 0, {});
    ClustersSeedsIncrease(topics, similar, 0, {});
    ClustersMembers(topics, similar, 0, {});
  }
}
