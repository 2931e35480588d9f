/** The values `TabGrouper` works on (utils/tab-grouper.js): the browser's
    tabs, the content extracted from each, and the groups it proposes. */
module Tabs {
  import opened Wrappers

  /** A `chrome.tabs.Tab`, reduced to the fields the grouper reads. */
  datatype Tab = Tab(id: Option<nat>, url: Option<string>, title: Option<string>)

  /** One entry of `tabContents`. The source's `topic: null` before topic
      extraction is the empty string here; `topic` is read only after every
      entry has been given one. */
  datatype TabContent = TabContent(tab: Tab, title: string, headings: string, text: string, url: string, topic: string)

  /** A proposed group: `{ name, tabs, topic }`. */
  datatype Cluster = Cluster(name: string, tabs: seq<Tab>, topic: string)

  /** The sort key of `clusterByTopics`. */
  function ClusterSize(c: Cluster): nat {
    |c.tabs|
  }
}
