/** The storefront resolver: reads the href of the storefront link on the
    seller page and resolves it against the page URL. */
module Storefront {
  import opened Wrappers
  import opened PageOracle

  const StorefrontSelector := "#seller-info-storefront-link > span > a"
  const HrefAttribute := "href"

  /** The href the resolver would resolve: present only when the link element
      exists and its href attribute is a non-empty string. */
  predicate HasHref(page: Page, href: string) {
    && page.query(StorefrontSelector).Found?
    && page.query(StorefrontSelector).value.attribute(HrefAttribute) == Found(href)
    && href != ""
  }

  /** get_storefront_url: "" when the link is missing, the query raises, the
      href is absent or empty, reading it raises, or urljoin raises; otherwise
      urljoin(page.url, href). Any non-empty result is a resolution of the
      link's own href against the page's own URL. */
  function StorefrontUrl(page: Page, join: UrlJoin): (url: string)
    ensures url != "" ==> exists href :: HasHref(page, href) && join(page.url, href) == Some(url)
    ensures forall href :: HasHref(page, href) && join(page.url, href).Some? ==> url == join(page.url, href).value
    ensures (forall href :: !HasHref(page, href)) ==> url == ""
  {
    match page.query(StorefrontSelector)
    case Found(link) =>
      (match link.attribute(HrefAttribute)
       case Found(href) =>
         if href == "" then ""
         else
           (match join(page.url, href)
            case Some(resolved) => resolved
            case None => "")
       case _ => "")
    case _ => ""
  }
}
