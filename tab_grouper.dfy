/** `TabGrouper` (utils/tab-grouper.js): from the open tabs to a proposal of
    tab groups and the group-creation calls it leads to. The browser is seen
    through parameters: the tabs of the window, what the injected script
    returns for each tab (`scrape`), host-name parsing (`hostOf`), the model's
    availability and its answers (`model`), and whether creating and
    destroying the model session succeed. */
module TabGrouper {
  import opened Wrappers
  import opened Text
  import opened Seqs
  import opened LanguageModel
  import opened Similarity
  import opened Clustering
  import opened StableSort
  import opened Tabs
  import opened Fallback

  // ---------------------------------------------------------------- tabs

  /** The pages `groupOpenTabs` never groups. */
  predicate IsSystemUrl(url: string) {
    "chrome://" <= url || "chrome-extension://" <= url || "edge://" <= url || "about:" <= url
  }

  /** A tab with a non-empty URL that is not a system page. */
  predicate IsGroupable(t: Tab) {
    t.url.Some? && t.url.value != "" && !IsSystemUrl(t.url.value)
  }

  /** What `chrome.scripting.executeScript` yields for one tab: the call
      throws, returns no result, or returns the object built by the injected
      function, either from its `catch` (a DOM error) or from the page. */
  datatype Extraction =
    | ScriptFailed
    | NoResult
    | PageError(docTitle: string, href: string)
    | Page(docTitle: string, headings: string, text: string, href: string)

  /** The check `extractTabContents` makes before injecting its script. */
  predicate SkippedBeforeScript(t: Tab) {
    t.url.None? || t.url.value == "" || "chrome://" <= t.url.value || "chrome-extension://" <= t.url.value
  }

  /** The entry pushed for a result with a title, a text or headings. */
  function Kept(t: Tab, title: string, headings: string, text: string, url: string): (r: Option<TabContent>)
    ensures r.Some? <==> title != "" || text != "" || headings != ""
    ensures r.Some? ==> r.value.text != "" && r.value.title == title && r.value.tab == t
  {
    if title != "" || text != "" || headings != "" then
      Some(TabContent(t, title, headings, Or(text, Or(title, "No content")), url, ""))
    else None
  }

  /** The entry `extractTabContents` records for a tab, if any. A failed
      script still yields an entry built from the tab itself. */
  function ContentOf(t: Tab, e: Extraction): (r: Option<TabContent>)
    ensures SkippedBeforeScript(t) || e.NoResult? ==> r.None?
    ensures r.Some? ==> r.value.tab == t && r.value.topic == "" && r.value.title != "" && r.value.text != ""
    ensures !SkippedBeforeScript(t) && e.ScriptFailed? ==>
      r == Some(TabContent(t, OrElse(t.title, "Untitled"), "", OrElse(t.title, "Unknown content"), t.url.value, ""))
  {
    if SkippedBeforeScript(t) then None
    else match e
      case ScriptFailed =>
        Some(TabContent(t, OrElse(t.title, "Untitled"), "", OrElse(t.title, "Unknown content"), t.url.value, ""))
      case NoResult => None
      case PageError(docTitle, href) => Kept(t, Or(docTitle, "Untitled"), "", "", href)
      case Page(docTitle, headings, text, href) => Kept(t, Or(docTitle, "Untitled"), headings, Trim(Take(text, 500)), href)
  }

  /** The guard on a script result never rejects one: the injected function
      always supplies a title. Only missing results and skipped tabs are lost. */
  lemma ResultAlwaysKept(t: Tab, e: Extraction)
    requires !SkippedBeforeScript(t) && !e.NoResult?
    ensures ContentOf(t, e).Some?
  {
  }

  function OptionToSeq<T>(o: Option<T>): seq<T> {
    if o.Some? then [o.value] else []
  }

  /** The entries of `extractTabContents(tabs)`, in tab order. */
  function Extracted(tabs: seq<Tab>, scrape: Tab -> Extraction): (r: seq<TabContent>)
    ensures |r| <= |tabs|
    ensures forall k :: 0 <= k < |r| ==> r[k].tab in tabs && r[k].topic == ""
    decreases |tabs|
  {
    if tabs == [] then []
    else
      var last := tabs[|tabs| - 1];
      var init := Extracted(tabs[..|tabs| - 1], scrape);
      assert forall k :: 0 <= k < |init| ==> init[k].tab in tabs[..|tabs| - 1];
      init + OptionToSeq(ContentOf(last, scrape(last)))
  }

  /** Every groupable tab whose script returns something has an entry. */
  lemma {:induction false} ExtractedAll(tabs: seq<Tab>, scrape: Tab -> Extraction)
    requires forall k :: 0 <= k < |tabs| ==> IsGroupable(tabs[k]) && !scrape(tabs[k]).NoResult?
    ensures |Extracted(tabs, scrape)| == |tabs|
    decreases |tabs|
  {
    if tabs != [] {
      var last := tabs[|tabs| - 1];
      ExtractedAll(tabs[..|tabs| - 1], scrape);
      ResultAlwaysKept(last, scrape(last));
    }
  }

  method ExtractTabContents(tabs: seq<Tab>, scrape: Tab -> Extraction) returns (contents: seq<TabContent>)
    ensures contents == Extracted(tabs, scrape)
  {
    contents := [];
    for k := 0 to |tabs|
      invariant contents == Extracted(tabs[..k], scrape)
    {
      assert tabs[..k + 1][..k] == tabs[..k];
      var tab := tabs[k];
      if SkippedBeforeScript(tab) {
        continue;
      }
      var content := ContentOf(tab, scrape(tab));
      if content.Some? {
        contents := contents + [content.value];
      }
    }
    assert tabs[..|tabs|] == tabs;
  }

  // -------------------------------------------------------------- topics

  /** The prompt of `extractTopic`. */
  function TopicPrompt(c: TabContent): Prompt {
    TopicQuestion(c.title, c.headings, c.text)
  }

  /** The topic of one entry: the model's trimmed answer, or the first 50
      characters of the title when the prompt fails or misses its deadline. */
  function TopicFor(c: TabContent, model: Oracle): (r: string)
    ensures model(TopicPrompt(c)).None? ==> r <= c.title && |r| == if |c.title| <= 50 then |c.title| else 50
    ensures model(TopicPrompt(c)).Some? ==> r == Trim(model(TopicPrompt(c)).value)
  {
    match model(TopicPrompt(c))
    case None => Take(c.title, 50)
    case Some(answer) => Trim(answer)
  }

  /** `extractTopic` as a function of the entry. */
  function TopicOf(model: Oracle): TabContent -> string {
    (c: TabContent) => TopicFor(c, model)
  }

  /** The entry with its topic set; nothing else moves. */
  function WithTopic(c: TabContent, topicOf: TabContent -> string): (r: TabContent)
    ensures r.topic == topicOf(c) && r.(topic := c.topic) == c
  {
    c.(topic := topicOf(c))
  }

  /** The entries after the topic loop. */
  function WithTopics(cs: seq<TabContent>, topicOf: TabContent -> string): (r: seq<TabContent>)
    ensures |r| == |cs|
    ensures forall k :: 0 <= k < |cs| ==> r[k] == WithTopic(cs[k], topicOf)
  {
    seq(|cs|, k requires 0 <= k < |cs| => WithTopic(cs[k], topicOf))
  }

  /** The topic loop of `generateSemanticGroups`, writing `content.topic` in
      place; `topicOf` is `extractTopic`. */
  method AssignTopics(contents: array<TabContent>, topicOf: TabContent -> string)
    modifies contents
    ensures contents[..] == WithTopics(old(contents[..]), topicOf)
  {
    ghost var original := contents[..];
    ghost var updated := WithTopics(original, topicOf);
    for k := 0 to contents.Length
      invariant forall j :: 0 <= j < k ==> contents[j] == updated[j]
      invariant forall j :: k <= j < contents.Length ==> contents[j] == original[j]
    {
      contents[k] := WithTopic(contents[k], topicOf);
    }
    assert forall j :: 0 <= j < contents.Length ==> contents[..][j] == updated[j];
  }

  // ---------------------------------------------------------- clustering

  function Topics(cs: seq<TabContent>): (r: seq<string>)
    ensures |r| == |cs| && forall k :: 0 <= k < |cs| ==> r[k] == cs[k].topic
  {
    seq(|cs|, k requires 0 <= k < |cs| => cs[k].topic)
  }

  /** Whether the topic of a later entry matches the seed's, as the seed
      judges it. */
  type Judgement = (string, string) -> bool

  function Judge(model: Oracle): Judgement {
    (a: string, b: string) => AreTopicsSimilar(a, b, model)
  }

  /** Non-empty index groups within the entries. */
  predicate ValidGroups(groups: seq<seq<nat>>, n: nat) {
    forall g :: 0 <= g < |groups| ==> |groups[g]| >= 1 && Below(groups[g], n)
  }

  /** The tab of every entry, in order. */
  function TabList(cs: seq<TabContent>): (r: seq<Tab>)
    ensures |r| == |cs| && forall k :: 0 <= k < |cs| ==> r[k] == cs[k].tab
  {
    seq(|cs|, k requires 0 <= k < |cs| => cs[k].tab)
  }

  /** The tabs of the entries at the indices `m`. */
  function TabsOf(cs: seq<TabContent>, m: seq<nat>): (r: seq<Tab>)
    requires Below(m, |cs|)
    ensures |r| == |m| && forall k :: 0 <= k < |m| ==> r[k] == cs[m[k]].tab
  {
    Picked(TabList(cs), m)
  }

  /** The cluster an index group stands for: named after its seed's topic. */
  function ClusterOf(cs: seq<TabContent>, m: seq<nat>): (r: Cluster)
    requires |m| >= 1 && Below(m, |cs|)
    ensures r.name == r.topic == cs[m[0]].topic && r.tabs == TabsOf(cs, m)
  {
    Cluster(cs[m[0]].topic, TabsOf(cs, m), cs[m[0]].topic)
  }

  function Resolve(cs: seq<TabContent>, groups: seq<seq<nat>>): (r: seq<Cluster>)
    requires ValidGroups(groups, |cs|)
    ensures |r| == |groups| && forall g :: 0 <= g < |groups| ==> r[g] == ClusterOf(cs, groups[g])
  {
    seq(|groups|, g requires 0 <= g < |groups| => ClusterOf(cs, groups[g]))
  }

  lemma ResolveAppend(cs: seq<TabContent>, groups: seq<seq<nat>>, m: seq<nat>)
    requires ValidGroups(groups, |cs|) && |m| >= 1 && Below(m, |cs|)
    ensures ValidGroups(groups + [m], |cs|)
    ensures Resolve(cs, groups + [m]) == Resolve(cs, groups) + [ClusterOf(cs, m)]
  {
    assert forall g :: 0 <= g < |groups| ==> (groups + [m])[g] == groups[g];
  }

  lemma GroupsValid(cs: seq<TabContent>, similar: Judgement)
    ensures ValidGroups(Groups(Topics(cs), similar), |cs|)
  {
    var c := Groups(Topics(cs), similar);
    forall g | 0 <= g < |c| ensures |c[g]| >= 1 && Below(c[g], |cs|) {
      assert IsGroup(c[g], 0, |cs|, {});
      assert forall k :: 0 <= k < |c[g]| ==> c[g][k] in c[g];
    }
  }

  /** The clusters in the order `clusterByTopics` creates them, one per
      index group of the greedy partition. */
  function Created(cs: seq<TabContent>, similar: Judgement): (r: seq<Cluster>)
    ensures |r| == |Groups(Topics(cs), similar)|
    ensures forall g :: 0 <= g < |r| ==> |r[g].tabs| >= 1 && r[g].name == r[g].topic
  {
    GroupsValid(cs, similar);
    Resolve(cs, Groups(Topics(cs), similar))
  }

  /** The result of `clusterByTopics`: the created clusters, sorted by size,
      largest first. */
  function TopicClusters(cs: seq<TabContent>, similar: Judgement): seq<Cluster> {
    SortByKeyDesc(Created(cs, similar), ClusterSize)
  }

  /** One step of the outer loop over a taken index. */
  lemma ClustersSkip<T>(topics: seq<T>, similar: (T, T) -> bool, i: nat, taken: set<nat>)
    requires i < |topics| && i in taken
    ensures Clusters(topics, similar, i, taken) == Clusters(topics, similar, i + 1, taken)
  {
  }

  /** One step of the outer loop over a free seed: its index group joins the
      groups, and the cluster of its tabs joins the clusters. */
  lemma SeedStep(cs: seq<TabContent>, similar: Judgement, groups: seq<seq<nat>>, i: nat, before: set<nat>, after: set<nat>, tabs: seq<Tab>)
    requires i < |cs| && i !in before && ValidGroups(groups, |cs|)
    requires groups + Clusters(Topics(cs), similar, i, before) == Groups(Topics(cs), similar)
    requires after == before + Elems(Candidates(Topics(cs), similar, i, |cs|, before)) + {i}
    requires Below([i] + Candidates(Topics(cs), similar, i, |cs|, before), |cs|)
    requires tabs == TabsOf(cs, [i] + Candidates(Topics(cs), similar, i, |cs|, before))
    ensures var m := [i] + Candidates(Topics(cs), similar, i, |cs|, before);
      && ValidGroups(groups + [m], |cs|)
      && (groups + [m]) + Clusters(Topics(cs), similar, i + 1, after) == Groups(Topics(cs), similar)
      && Resolve(cs, groups + [m]) == Resolve(cs, groups) + [Cluster(cs[i].topic, tabs, cs[i].topic)]
  {
    var m := [i] + Candidates(Topics(cs), similar, i, |cs|, before);
    SeedCluster(Topics(cs), similar, i, before, after);
    AppendAssoc(groups, [m], Clusters(Topics(cs), similar, i + 1, after));
    ResolveAppend(cs, groups, m);
  }

  /** The inner loop of `clusterByTopics` for the seed `i`: every later entry
      not yet processed that the seed's topic judges similar joins the seed's
      tabs and becomes processed. */
  method GatherSimilar(contents: seq<TabContent>, similar: Judgement, i: nat, processed: set<nat>)
      returns (tabs: seq<Tab>, processedAfter: set<nat>)
    requires i < |contents|
    ensures var joined := Candidates(Topics(contents), similar, i, |contents|, processed);
      && Below([i] + joined, |contents|)
      && tabs == TabsOf(contents, [i] + joined)
      && processedAfter == processed + Elems(joined)
  {
    var n := |contents|;
    var baseTab := contents[i];
    tabs := [baseTab.tab];
    processedAfter := processed;
    var j := i + 1;
    while j < n
      invariant i + 1 <= j <= n
      invariant Sweep(tabs, processedAfter) == Swept(Topics(contents), TabList(contents), similar, i, j, processed)
    {
      if j in processedAfter {
        j := j + 1;
        continue;
      }
      var compareTab := contents[j];
      var areSimilar := similar(baseTab.topic, compareTab.topic);
      if areSimilar {
        tabs := tabs + [compareTab.tab];
        processedAfter := processedAfter + {j};
      }
      j := j + 1;
    }
    SweptGathered(Topics(contents), TabList(contents), similar, i, n, processed);
    SweptProcessed(Topics(contents), TabList(contents), similar, i, n, processed);
  }

  /** `clusterByTopics`, with the `processed` set, one seed at a time; the
      clusters are then sorted by size. `groups` holds the index groups behind
      `clusters`. */
  method ClusterByTopics(contents: seq<TabContent>, similar: Judgement) returns (clusters: seq<Cluster>)
    ensures clusters == TopicClusters(contents, similar)
  {
    ghost var topics := Topics(contents);
    var n := |contents|;
    clusters := [];
    ghost var groups: seq<seq<nat>> := [];
    var processed: set<nat> := {};
    var i := 0;
    assert groups + Clusters(topics, similar, i, processed) == Groups(topics, similar) by {
      assert [] + Groups(topics, similar) == Groups(topics, similar);
    }
    while i < n
      invariant i <= n
      invariant groups + Clusters(topics, similar, i, processed) == Groups(topics, similar)
      invariant ValidGroups(groups, n)
      invariant clusters == Resolve(contents, groups)
    {
      if i in processed {
        ClustersSkip(topics, similar, i, processed);
        i := i + 1;
        continue;
      }
      var baseTab := contents[i];
      ghost var before := processed;
      ghost var members := [i] + Candidates(topics, similar, i, n, processed);
      var tabs;
      tabs, processed := GatherSimilar(contents, similar, i, processed);
      processed := processed + {i};
      SeedStep(contents, similar, groups, i, before, processed, tabs);
      if |tabs| >= 1 {
        clusters := clusters + [Cluster(baseTab.topic, tabs, baseTab.topic)];
        groups := groups + [members];
      }
      i := i + 1;
    }
    assert groups == Groups(topics, similar) by {
      assert groups + [] == groups;
    }
    clusters := SortByKeyDesc(clusters, ClusterSize);
  }

  /** What `clusterByTopics` promises: every entry's tab is in one cluster
      (the index groups partition the entries), every cluster is non-empty and
      named after its seed's topic, and the clusters are ordered by size with
      equal sizes in creation order. */
  lemma TopicClustersShape(cs: seq<TabContent>, similar: Judgement)
    ensures var created := Created(cs, similar);
      var r := TopicClusters(cs, similar);
      && NonIncreasing(r, ClusterSize)
      && multiset(r) == multiset(created)
      && (forall k: nat :: Filter(r, KeyIs(ClusterSize, k)) == Filter(created, KeyIs(ClusterSize, k)))
      && (forall g :: 0 <= g < |r| ==> |r[g].tabs| >= 1 && r[g].name == r[g].topic)
  {
    var created := Created(cs, similar);
    var r := TopicClusters(cs, similar);
    SortedByKeyDesc(created, ClusterSize);
    SortPermutes(created, ClusterSize);
    forall k: nat ensures Filter(r, KeyIs(ClusterSize, k)) == Filter(created, KeyIs(ClusterSize, k)) {
      SortStable(created, ClusterSize, k);
    }
    forall g | 0 <= g < |r| ensures |r[g].tabs| >= 1 && r[g].name == r[g].topic {
      assert r[g] in multiset(created);
      var h :| 0 <= h < |created| && created[h] == r[g];
    }
  }

  /** Two entries with the same topic, one with a word of more than three
      letters, end up together whenever the later one is still free when the
      earlier one seeds its cluster, whatever the model answers. */
  lemma SameTopicJoins(cs: seq<TabContent>, model: Oracle, g: nat, x: nat)
    requires var c := Groups(Topics(cs), Judge(model));
      g < |c| && c[g][0] < x < |cs| && !InEarlier(c, g, x)
    requires var c := Groups(Topics(cs), Judge(model));
      cs[x].topic == cs[c[g][0]].topic && SignificantWords(cs[x].topic) != {}
    ensures x in Groups(Topics(cs), Judge(model))[g]
  {
    var c := Groups(Topics(cs), Judge(model));
    GroupsGreedy(Topics(cs), Judge(model));
    SimilarToItself(cs[x].topic, model);
    assert Judge(model)(Topics(cs)[c[g][0]], Topics(cs)[x]);
  }

  // ------------------------------------------------------------ semantic

  /** `generateSemanticGroups` on the entries `cs`: the domain fallback unless
      the model is ready and a session opens; then topics and clusters, unless
      destroying the session throws, which also ends in the fallback. */
  function SemanticGroups(cs: seq<TabContent>, availability: Availability, model: Oracle,
                          createOk: bool, destroyOk: bool, hostOf: HostOf): seq<Cluster> {
    if !IsReady(availability) || !createOk then FallbackGroups(cs, hostOf)
    else
      var withTopics := WithTopics(cs, TopicOf(model));
      if destroyOk then TopicClusters(withTopics, Judge(model)) else FallbackGroups(withTopics, hostOf)
  }

  method GenerateSemanticGroups(contents: array<TabContent>, availability: Availability, model: Oracle,
                                createOk: bool, destroyOk: bool, hostOf: HostOf) returns (groups: seq<Cluster>)
    modifies contents
    ensures groups == SemanticGroups(old(contents[..]), availability, model, createOk, destroyOk, hostOf)
    ensures contents[..] == if IsReady(availability) && createOk then WithTopics(old(contents[..]), TopicOf(model)) else old(contents[..])
  {
    if !IsReady(availability) {
      groups := FallbackGrouping(contents[..], hostOf);
      return;
    }
    if !createOk {
      groups := FallbackGrouping(contents[..], hostOf);
      return;
    }
    AssignTopics(contents, TopicOf(model));
    var clusters := ClusterByTopics(contents[..], Judge(model));
    if !destroyOk {
      groups := FallbackGrouping(contents[..], hostOf);
      return;
    }
    groups := clusters;
  }

  /** Every proposed group, from either path, has at least one tab. */
  lemma SemanticGroupsNonEmpty(cs: seq<TabContent>, availability: Availability, model: Oracle,
                               createOk: bool, destroyOk: bool, hostOf: HostOf)
    ensures var r := SemanticGroups(cs, availability, model, createOk, destroyOk, hostOf);
      forall g :: 0 <= g < |r| ==> |r[g].tabs| >= 1 && r[g].name == r[g].topic
  {
    FallbackGroupsShape(cs, hostOf);
    FallbackGroupsShape(WithTopics(cs, TopicOf(model)), hostOf);
    TopicClustersShape(WithTopics(cs, TopicOf(model)), Judge(model));
  }

  // ------------------------------------------------------------- applying

  /** The colours of `chrome.tabGroups`, in the order groups receive them. */
  datatype Color = Blue | Red | Yellow | Green | Pink | Purple | Cyan | Orange | Grey

  const Colors: seq<Color> := [Blue, Red, Yellow, Green, Pink, Purple, Cyan, Orange, Grey]

  /** The `chrome.tabs.group` and `chrome.tabGroups.update` calls for one
      group: the tab ids to group, and the name shown for the group, its tab count, colour
      and collapsed state. The title the update sets is `Title` of the plan. */
  datatype GroupPlan = GroupPlan(tabIds: seq<nat>, shownName: string, tabCount: nat, color: Color, collapsed: bool)

  /** `tabs.map(t => t.id).filter(id => id !== undefined)`. */
  function DefinedIds(tabs: seq<Tab>): (r: seq<nat>)
    ensures |r| <= |tabs|
    ensures r == [] <==> forall k :: 0 <= k < |tabs| ==> tabs[k].id.None?
  {
    if tabs == [] then []
    else
      assert forall k :: 0 < k < |tabs| ==> tabs[k] == tabs[1..][k - 1];
      (if tabs[0].id.Some? then [tabs[0].id.value] else []) + DefinedIds(tabs[1..])
  }

  /** The ids kept are exactly the ids some tab has. */
  lemma {:induction false} DefinedIdsExactly(tabs: seq<Tab>)
    ensures forall x :: x in DefinedIds(tabs) <==> exists k :: 0 <= k < |tabs| && tabs[k].id == Some(x)
  {
    if tabs != [] {
      var rest := tabs[1..];
      DefinedIdsExactly(rest);
      forall x ensures x in DefinedIds(tabs) <==> exists k :: 0 <= k < |tabs| && tabs[k].id == Some(x) {
        if x in DefinedIds(rest) {
          var k :| 0 <= k < |rest| && rest[k].id == Some(x);
          assert tabs[k + 1].id == Some(x);
        }
        if exists k :: 0 <= k < |tabs| && tabs[k].id == Some(x) {
          var k :| 0 <= k < |tabs| && tabs[k].id == Some(x);
          if k > 0 {
            assert rest[k - 1].id == Some(x);
          }
        }
      }
    }
  }

  /** Some tab of `c` has an id (see `DefinedIds`). */
  predicate HasDefinedId(c: Cluster) {
    DefinedIds(c.tabs) != []
  }

  /** The group label: names longer than 30 characters are cut to 27 and
      marked with "...", so a label's name part never exceeds 30 characters. */
  function DisplayName(name: string): (r: string)
    ensures |r| <= 30
    ensures |name| <= 30 ==> r == name
    ensures |name| > 30 ==> |r| == 30 && r[..27] == name[..27] && r[27..] == "..."
  {
    if |name| > 30 then name[..27] + "..." else name
  }

  /** The title `chrome.tabGroups.update` sets: the shown name, then the tab
      count in parentheses. */
  function Title(p: GroupPlan): string {
    p.shownName + " (" + NatToString(p.tabCount) + ")"
  }

  /** The plan for the group at position `i`, or `None` when it is skipped:
      it has no tab, or none of its tabs has an id. */
  function PlanFor(i: nat, c: Cluster): (r: Option<GroupPlan>)
    ensures r.Some? <==> HasDefinedId(c)
    ensures r.Some? ==> r.value.color == Colors[i % 9] && (r.value.collapsed <==> |c.tabs| > 5)
    ensures r.Some? ==> |r.value.tabIds| >= 1 && r.value.shownName == DisplayName(c.name) && r.value.tabCount == |c.tabs|
  {
    if |c.tabs| < 1 then None
    else
      var ids := DefinedIds(c.tabs);
      if |ids| == 0 then None
      else
        assert ids[0] in ids;
        Some(GroupPlan(ids, DisplayName(c.name), |c.tabs|, Colors[i % 9], |c.tabs| > 5))
  }

  /** The plans for the first `k` groups, in order. */
  function Plans(groups: seq<Cluster>, k: nat): (r: seq<GroupPlan>)
    requires k <= |groups|
  {
    Collect(groups, PlanFor, k)
  }

  /** No plan at all exactly when no group has a tab with an id. */
  lemma PlansNone(groups: seq<Cluster>)
    ensures |Plans(groups, |groups|)| == 0 <==> forall g :: 0 <= g < |groups| ==> !HasDefinedId(groups[g])
  {
    CollectNone(groups, PlanFor, |groups|);
  }

  /** When every group has a tab with an id, every group is planned. */
  lemma PlansAll(groups: seq<Cluster>)
    requires forall g :: 0 <= g < |groups| ==> HasDefinedId(groups[g])
    ensures |Plans(groups, |groups|)| == |groups|
  {
    CollectAll(groups, PlanFor, |groups|);
  }

  /** `applyTabGroups` without the ungrouping of existing groups: one plan per
      group that has a tab with an id, and an error when there is none. */
  method ApplyTabGroups(groups: seq<Cluster>) returns (r: Result<seq<GroupPlan>>)
    ensures r.Ok? <==> |Plans(groups, |groups|)| > 0
    ensures r.Ok? ==> r.value == Plans(groups, |groups|)
    ensures r.Err? ==> r.message == "No groups were created"
  {
    var plans: seq<GroupPlan> := [];
    var createdCount := 0;
    for i := 0 to |groups|
      invariant plans == Plans(groups, i)
      invariant createdCount == |plans|
    {
      var tabs := groups[i].tabs;
      if |tabs| < 1 {
        continue;
      }
      var tabIds := DefinedIds(tabs);
      if |tabIds| == 0 {
        continue;
      }
      var displayName := if |groups[i].name| > 30 then groups[i].name[..27] + "..." else groups[i].name;
      plans := plans + [GroupPlan(tabIds, displayName, |tabs|, Colors[i % 9], |tabs| > 5)];
      createdCount := createdCount + 1;
    }
    if createdCount == 0 {
      return Err("No groups were created");
    }
    r := Ok(plans);
  }

  // ----------------------------------------------------------- top level

  /** The errors `groupOpenTabs` throws, each with its message. */
  datatype GroupingError = NoValidTabs | NoContent | NoGroupsCreated

  function Message(e: GroupingError): string {
    match e
    case NoValidTabs => "No valid tabs to group (all are system pages)"
    case NoContent => "Could not extract content from any tabs"
    case NoGroupsCreated => "No groups were created"
  }

  /** What `groupOpenTabs` resolves to: the proposed groups, or the error it
      rethrows. */
  datatype Outcome = Grouped(groups: seq<Cluster>) | Failed(error: GroupingError)

  function GroupingOutcome(tabs: seq<Tab>, scrape: Tab -> Extraction, availability: Availability, model: Oracle,
                           createOk: bool, destroyOk: bool, hostOf: HostOf): Outcome {
    var valid := Filter(tabs, IsGroupable);
    if valid == [] then Failed(NoValidTabs)
    else
      var contents := Extracted(valid, scrape);
      if contents == [] then Failed(NoContent)
      else
        var groups := SemanticGroups(contents, availability, model, createOk, destroyOk, hostOf);
        if Plans(groups, |groups|) == [] then Failed(NoGroupsCreated) else Grouped(groups)
  }

  /** `groupOpenTabs`; `plans` are the group-creation calls it makes. */
  method GroupOpenTabs(tabs: seq<Tab>, scrape: Tab -> Extraction, availability: Availability, model: Oracle,
                       createOk: bool, destroyOk: bool, hostOf: HostOf) returns (r: Outcome, plans: seq<GroupPlan>)
    ensures r == GroupingOutcome(tabs, scrape, availability, model, createOk, destroyOk, hostOf)
    ensures r.Grouped? ==> plans == Plans(r.groups, |r.groups|)
    ensures r.Failed? ==> plans == []
  {
    plans := [];
    var validTabs := Filter(tabs, IsGroupable);
    if |validTabs| == 0 {
      return Failed(NoValidTabs), plans;
    }
    var tabContents := ExtractTabContents(validTabs, scrape);
    if |tabContents| == 0 {
      return Failed(NoContent), plans;
    }
    var contents := new TabContent[|tabContents|](k requires 0 <= k < |tabContents| => tabContents[k]);
    assert contents[..] == tabContents;
    var groups := GenerateSemanticGroups(contents, availability, model, createOk, destroyOk, hostOf);
    var applied := ApplyTabGroups(groups);
    if applied.Err? {
      return Failed(NoGroupsCreated), plans;
    }
    plans := applied.value;
    r := Grouped(groups);
  }

  /** The first error: it is thrown exactly when every tab is a system page or
      has no URL. */
  lemma OnlySystemPages(tabs: seq<Tab>, scrape: Tab -> Extraction, availability: Availability, model: Oracle,
                        createOk: bool, destroyOk: bool, hostOf: HostOf)
    ensures GroupingOutcome(tabs, scrape, availability, model, createOk, destroyOk, hostOf) == Failed(NoValidTabs)
      <==> forall k :: 0 <= k < |tabs| ==> !IsGroupable(tabs[k])
  {
    FilterEmpty(tabs, IsGroupable);
  }

  /** A grouping that succeeds proposes at least one group, every group has a
      tab, and at least one group has a tab with an id. */
  lemma SuccessfulGrouping(tabs: seq<Tab>, scrape: Tab -> Extraction, availability: Availability, model: Oracle,
                           createOk: bool, destroyOk: bool, hostOf: HostOf)
    requires GroupingOutcome(tabs, scrape, availability, model, createOk, destroyOk, hostOf).Grouped?
    ensures var groups := GroupingOutcome(tabs, scrape, availability, model, createOk, destroyOk, hostOf).groups;
      && |groups| >= 1
      && (forall g :: 0 <= g < |groups| ==> |groups[g].tabs| >= 1)
      && (exists g :: 0 <= g < |groups| && HasDefinedId(groups[g]))
  {
    var valid := Filter(tabs, IsGroupable);
    var contents := Extracted(valid, scrape);
    var groups := SemanticGroups(contents, availability, model, createOk, destroyOk, hostOf);
    SemanticGroupsNonEmpty(contents, availability, model, createOk, destroyOk, hostOf);
    PlansNone(groups);
  }
}
