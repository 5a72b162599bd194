/** The records that flow through the ingestion pipeline. */
module NewsItem {

  /** One news record as a crawler produces it (a Python dict). A key the
      dict lacks is modelled as "" because every reader of the dict in the
      core defaults a missing key to ""; `tags` is [] when unset. */
  datatype Item = Item(title: string, content: string, url: string, tags: seq<string>)

  /** A record with no tags, the shape every crawler returns. */
  function Untagged(title: string, content: string, url: string): Item
  {
    Item(title, content, url, [])
  }

  /** One `<a>` element as the HTML parser hands it over: its text with
      surrounding whitespace stripped, and its `href` ("" when absent). */
  datatype Anchor = Anchor(text: string, href: string)

  /** What fetching one page gave: its anchors, or the message of the
      exception the request or the parser raised. */
  datatype Fetch = Fetched(anchors: seq<Anchor>) | FetchFailed(error: string)
}
