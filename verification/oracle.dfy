/** The browser as the scraper sees it. Every DOM query, attribute read and
    navigation is an answer of an abstract page oracle instead of browser I/O,
    so each stage of the pipeline becomes a pure function of those answers. */
module PageOracle {
  import opened Wrappers

  /** The outcome of one query or read: nothing there (Python's None), a
      value, or an exception raised by the browser. */
  datatype Lookup<+T> = Missing | Found(value: T) | Throws

  /** A DOM element handle: what text_content() answers, and what
      get_attribute(name) answers for each attribute name. */
  datatype Element = Element(text: Lookup<string>, attribute: string -> Lookup<string>)

  /** query_selector_all either raises or returns its matches in document order. */
  datatype Listing = ListingThrows | Listed(elements: seq<Element>)

  /** A loaded page: its current URL (after any redirect), query_selector and
      query_selector_all. */
  datatype Page = Page(url: string, query: string -> Lookup<Element>, queryAll: string -> Listing)

  /** urljoin(base, href); None when it raises. Reference resolution itself
      (section 5.2 of RFC 3986) is left uninterpreted. */
  type UrlJoin = (string, string) -> Option<string>

  /** The text of the element a selector finds, as the extractor reads it
      before stripping: `query_selector(sel).text_content()`. A text_content()
      of None makes the following `.strip()` raise, so it reads as Throws. */
  function TextAt(page: Page, selector: string): (r: Lookup<string>)
    ensures r.Missing? <==> page.query(selector).Missing?
    ensures r.Found? <==> page.query(selector).Found? && page.query(selector).value.text.Found?
    ensures r.Found? ==> r.value == page.query(selector).value.text.value
  {
    match page.query(selector)
    case Missing => Missing
    case Throws => Throws
    case Found(e) =>
      match e.text
      case Found(t) => Found(t)
      case _ => Throws
  }
}
