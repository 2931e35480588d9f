/** `fallbackGrouping` (utils/tab-grouper.js): without the language model, the
    tabs are grouped by the host name of their page, less its first "www.",
    in the order in which each domain is first met. URL parsing is the
    parameter `hostOf`, a partial function from a URL to its host name;
    `None` is a URL that `new URL` rejects, and such an entry is dropped. */
module Fallback {
  import opened Wrappers
  import opened Text
  import opened Seqs
  import opened Tabs

  type HostOf = string -> Option<string>

  /** `new URL(url).hostname.replace('www.', '')`. */
  function Domain(url: string, hostOf: HostOf): (r: Option<string>)
    ensures hostOf(url).None? <==> r.None?
  {
    match hostOf(url)
    case None => None
    case Some(host) => Some(ReplaceFirst(host, "www.", ""))
  }

  /** A leading "www." is dropped, and so is one in the middle of the host
      when no 'w' comes before it ("blog.www.example.com" gives
      "blog.example.com"). */
  lemma DomainDropsWww(url: string, hostOf: HostOf, head: string, tail: string)
    ensures hostOf(url) == Some("www." + tail) ==> Domain(url, hostOf) == Some(tail)
    ensures hostOf(url) == Some(head + "www." + tail) && 'w' !in head ==> Domain(url, hostOf) == Some(head + tail)
  {
    if hostOf(url) == Some("www." + tail) {
      ReplaceFirstOfPrefix("www." + tail, "www.");
      assert ("www." + tail)[4..] == tail;
    }
    if hostOf(url) == Some(head + "www." + tail) && 'w' !in head {
      ReplaceFirstInside(head, tail);
    }
  }

  /** The distinct domains of `cs`, in the order each is first met. */
  function FirstSeen(cs: seq<TabContent>, hostOf: HostOf): (r: seq<string>)
    decreases |cs|
  {
    if cs == [] then []
    else
      var earlier := FirstSeen(cs[..|cs| - 1], hostOf);
      match Domain(cs[|cs| - 1].url, hostOf)
      case None => earlier
      case Some(d) => if d in earlier then earlier else earlier + [d]
  }

  /** The tabs of the entries of `cs` whose domain is `d`, in order. */
  function TabsFor(cs: seq<TabContent>, hostOf: HostOf, d: string): seq<Tab>
    decreases |cs|
  {
    if cs == [] then []
    else
      var last := cs[|cs| - 1];
      TabsFor(cs[..|cs| - 1], hostOf, d) + if Domain(last.url, hostOf) == Some(d) then [last.tab] else []
  }

  /** The groups `fallbackGrouping` returns: one per domain, named by it. */
  function FallbackGroups(cs: seq<TabContent>, hostOf: HostOf): (r: seq<Cluster>)
    ensures |r| == |FirstSeen(cs, hostOf)|
  {
    var ds := FirstSeen(cs, hostOf);
    seq(|ds|, k requires 0 <= k < |ds| => Cluster(ds[k], TabsFor(cs, hostOf, ds[k]), ds[k]))
  }

  predicate HasTabs(c: Cluster) {
    |c.tabs| > 0
  }

  /** Every listed domain is the domain of some entry. */
  lemma {:induction false} FirstSeenSound(cs: seq<TabContent>, hostOf: HostOf, d: string)
    requires d in FirstSeen(cs, hostOf)
    ensures exists k :: 0 <= k < |cs| && Domain(cs[k].url, hostOf) == Some(d)
    decreases |cs|
  {
    var init := cs[..|cs| - 1];
    if d in FirstSeen(init, hostOf) {
      FirstSeenSound(init, hostOf, d);
      var k :| 0 <= k < |init| && Domain(init[k].url, hostOf) == Some(d);
      assert cs[k] == init[k];
    } else {
      assert Domain(cs[|cs| - 1].url, hostOf) == Some(d);
    }
  }

  /** The domain of every entry that has one is listed. */
  lemma {:induction false} FirstSeenComplete(cs: seq<TabContent>, hostOf: HostOf, k: nat)
    requires k < |cs| && Domain(cs[k].url, hostOf).Some?
    ensures Domain(cs[k].url, hostOf).value in FirstSeen(cs, hostOf)
    decreases |cs|
  {
    var init := cs[..|cs| - 1];
    if k < |init| {
      assert init[k] == cs[k];
      FirstSeenComplete(init, hostOf, k);
    }
  }

  /** A domain is listed exactly when some entry has it. */
  lemma FirstSeenDomains(cs: seq<TabContent>, hostOf: HostOf)
    ensures forall d :: d in FirstSeen(cs, hostOf) <==> exists k :: 0 <= k < |cs| && Domain(cs[k].url, hostOf) == Some(d)
  {
    forall d ensures d in FirstSeen(cs, hostOf) <==> exists k :: 0 <= k < |cs| && Domain(cs[k].url, hostOf) == Some(d) {
      if d in FirstSeen(cs, hostOf) {
        FirstSeenSound(cs, hostOf, d);
      }
      if exists k :: 0 <= k < |cs| && Domain(cs[k].url, hostOf) == Some(d) {
        var k :| 0 <= k < |cs| && Domain(cs[k].url, hostOf) == Some(d);
        FirstSeenComplete(cs, hostOf, k);
      }
    }
  }

  predicate Distinct(ds: seq<string>) {
    forall a, b :: 0 <= a < b < |ds| ==> ds[a] != ds[b]
  }

  /** No domain is listed twice. */
  lemma {:induction false} FirstSeenDistinct(cs: seq<TabContent>, hostOf: HostOf)
    ensures Distinct(FirstSeen(cs, hostOf))
    decreases |cs|
  {
    if cs != [] {
      var init := cs[..|cs| - 1];
      FirstSeenDistinct(init, hostOf);
      var e := FirstSeen(init, hostOf);
      match Domain(cs[|cs| - 1].url, hostOf)
      case None =>
      case Some(d) =>
        if d !in e {
          var ds := e + [d];
          forall a, b | 0 <= a < b < |ds| ensures ds[a] != ds[b] {
            if b == |e| {
              assert ds[a] == e[a];
            } else {
              assert ds[a] == e[a] && ds[b] == e[b];
            }
          }
        }
    }
  }

  /** Every listed domain has at least one tab. */
  lemma {:induction false} TabsForFirstSeen(cs: seq<TabContent>, hostOf: HostOf, d: string)
    ensures d in FirstSeen(cs, hostOf) <==> |TabsFor(cs, hostOf, d)| > 0
    decreases |cs|
  {
    if cs != [] {
      TabsForFirstSeen(cs[..|cs| - 1], hostOf, d);
    }
  }

  /** Every tab listed for domain `d` belongs to an entry with that domain. */
  lemma {:induction false} TabsForSound(cs: seq<TabContent>, hostOf: HostOf, d: string)
    ensures forall t :: t in TabsFor(cs, hostOf, d) ==> exists k :: 0 <= k < |cs| && cs[k].tab == t && Domain(cs[k].url, hostOf) == Some(d)
    decreases |cs|
  {
    if cs != [] {
      var init := cs[..|cs| - 1];
      TabsForSound(init, hostOf, d);
      forall t | t in TabsFor(cs, hostOf, d)
        ensures exists k :: 0 <= k < |cs| && cs[k].tab == t && Domain(cs[k].url, hostOf) == Some(d)
      {
        if t in TabsFor(init, hostOf, d) {
          var k :| 0 <= k < |init| && init[k].tab == t && Domain(init[k].url, hostOf) == Some(d);
          assert cs[k] == init[k];
        } else {
          assert cs[|cs| - 1].tab == t;
        }
      }
    }
  }

  /** Every entry with domain `d` contributes its tab. */
  lemma {:induction false} TabsForComplete(cs: seq<TabContent>, hostOf: HostOf, d: string)
    ensures forall k :: 0 <= k < |cs| && Domain(cs[k].url, hostOf) == Some(d) ==> cs[k].tab in TabsFor(cs, hostOf, d)
    decreases |cs|
  {
    if cs != [] {
      var init := cs[..|cs| - 1];
      TabsForComplete(init, hostOf, d);
      forall k | 0 <= k < |cs| && Domain(cs[k].url, hostOf) == Some(d) ensures cs[k].tab in TabsFor(cs, hostOf, d) {
        if k < |init| {
          assert init[k] == cs[k];
        }
      }
    }
  }

  /** The fallback's groups are named after distinct domains, with
      `name == topic`, none is empty, and each holds exactly the tabs of its
      domain. */
  lemma FallbackGroupsShape(cs: seq<TabContent>, hostOf: HostOf)
    ensures var r := FallbackGroups(cs, hostOf);
      && (forall k :: 0 <= k < |r| ==> r[k].name == r[k].topic && |r[k].tabs| > 0)
      && (forall a, b :: 0 <= a < b < |r| ==> r[a].name != r[b].name)
      && (forall k :: 0 <= k < |r| ==> r[k].tabs == TabsFor(cs, hostOf, r[k].name))
      && (forall k :: 0 <= k < |cs| && Domain(cs[k].url, hostOf).Some? ==>
            exists g :: 0 <= g < |r| && r[g].name == Domain(cs[k].url, hostOf).value && cs[k].tab in r[g].tabs)
  {
    var ds := FirstSeen(cs, hostOf);
    var r := FallbackGroups(cs, hostOf);
    FirstSeenDomains(cs, hostOf);
    forall k | 0 <= k < |r| ensures r[k].name == r[k].topic && |r[k].tabs| > 0 {
      TabsForFirstSeen(cs, hostOf, ds[k]);
    }
    FirstSeenDistinct(cs, hostOf);
    forall a, b | 0 <= a < b < |r| ensures r[a].name != r[b].name {
      assert r[a].name == ds[a] && r[b].name == ds[b];
    }
    assert forall k :: 0 <= k < |r| ==> r[k].tabs == TabsFor(cs, hostOf, r[k].name);
    forall k | 0 <= k < |cs| && Domain(cs[k].url, hostOf).Some?
      ensures exists g :: 0 <= g < |r| && r[g].name == Domain(cs[k].url, hostOf).value && cs[k].tab in r[g].tabs
    {
      var d := Domain(cs[k].url, hostOf).value;
      assert d in ds;
      var g :| 0 <= g < |ds| && ds[g] == d;
      TabsForComplete(cs, hostOf, d);
      assert r[g].name == d && cs[k].tab in r[g].tabs;
    }
  }

  /** `fallbackGrouping`: one pass fills the domain-to-tabs map (the `order`
      sequence is the map's insertion order), then the entries become groups. */
  method FallbackGrouping(contents: seq<TabContent>, hostOf: HostOf) returns (groups: seq<Cluster>)
    ensures groups == FallbackGroups(contents, hostOf)
  {
    var order: seq<string> := [];
    var byDomain: map<string, seq<Tab>> := map[];
    for k := 0 to |contents|
      invariant order == FirstSeen(contents[..k], hostOf)
      invariant forall d :: d in byDomain <==> d in order
      invariant forall d :: d in byDomain ==> byDomain[d] == TabsFor(contents[..k], hostOf, d)
    {
      assert contents[..k + 1][..k] == contents[..k];
      var domain := Domain(contents[k].url, hostOf);
      if domain.Some? {
        var d := domain.value;
        if d !in byDomain {
          TabsForFirstSeen(contents[..k], hostOf, d);
          byDomain := byDomain[d := []];
          order := order + [d];
        }
        byDomain := byDomain[d := byDomain[d] + [contents[k].tab]];
      }
    }
    assert contents[..|contents|] == contents;
    var all := seq(|order|, k requires 0 <= k < |order| => Cluster(order[k], byDomain[order[k]], order[k]));
    assert all == FallbackGroups(contents, hostOf);
    FallbackGroupsShape(contents, hostOf);
    FilterKeepsAll(all, HasTabs);
    FilterKeepsAllIdentity(all, HasTabs);
    groups := Filter(all, HasTabs);
  }
}
