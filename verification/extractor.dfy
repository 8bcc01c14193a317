/** The product info extractor: the title from one element, the price from
    an ordered list of selectors where the first element found wins. */
module Extractor {
  import opened PageOracle
  import opened Text

  const TitleSelector := "#productTitle"

  /** The price selectors, most specific first. */
  const PriceSelectors: seq<string> := [
    "#corePrice_feature_div span.a-offscreen",
    "span.a-price span.a-offscreen",
    "#priceblock_ourprice"
  ]

  datatype ProductInfo = ProductInfo(title: string, price: string)

  /** Index i is the first probe that found an element with readable text. */
  predicate FirstFound(probes: seq<Lookup<string>>, i: int) {
    && 0 <= i < |probes|
    && probes[i].Found?
    && forall j :: 0 <= j < i ==> !probes[j].Found?
  }

  predicate NoneFound(probes: seq<Lookup<string>>) {
    forall j :: 0 <= j < |probes| ==> !probes[j].Found?
  }

  /** The price loop: a missing element moves on to the next selector, and so
      does an exception (the bare except continues); the first element found
      ends the loop with its stripped text, even when that text is empty. */
  function PriceFrom(probes: seq<Lookup<string>>): (price: string)
    ensures forall i :: FirstFound(probes, i) ==> price == Strip(probes[i].value)
    ensures NoneFound(probes) ==> price == ""
    ensures Trimmed(price)
  {
    if probes == [] then ""
    else match probes[0]
      case Found(text) => assert FirstFound(probes, 0); Strip(text)
      case _ =>
        var price := PriceFrom(probes[1..]);
        assert forall i :: FirstFound(probes, i) ==> FirstFound(probes[1..], i - 1);
        assert NoneFound(probes) ==> NoneFound(probes[1..]);
        price
  }

  /** What the page answers for each price selector, in selector order. */
  function PriceProbes(page: Page): (probes: seq<Lookup<string>>)
    ensures |probes| == |PriceSelectors|
    ensures forall i :: 0 <= i < |PriceSelectors| ==> probes[i] == TextAt(page, PriceSelectors[i])
  {
    [TextAt(page, PriceSelectors[0]), TextAt(page, PriceSelectors[1]), TextAt(page, PriceSelectors[2])]
  }

  /** The title: the stripped text of the title element, or "" when the
      element is missing or the query or the text read raises. */
  function Title(page: Page): (title: string)
    ensures Trimmed(title)
    ensures TextAt(page, TitleSelector).Found? ==> title == Strip(TextAt(page, TitleSelector).value)
    ensures !TextAt(page, TitleSelector).Found? ==> title == ""
  {
    match TextAt(page, TitleSelector)
    case Found(text) => Strip(text)
    case _ => ""
  }

  /** get_product_info: the title and the price are extracted independently;
      the price is the stripped text of the first price selector whose
      element is found, and "" when none is. */
  function GetProductInfo(page: Page): (info: ProductInfo)
    ensures info.title == Title(page)
    ensures forall i :: FirstFound(PriceProbes(page), i) ==> info.price == Strip(TextAt(page, PriceSelectors[i]).value)
    ensures NoneFound(PriceProbes(page)) ==> info.price == ""
  {
    ProductInfo(Title(page), PriceFrom(PriceProbes(page)))
  }

  /** Probes after the first element found are never consulted: replacing
      them by anything leaves the price that of probe i. */
  lemma {:induction false} LaterSelectorsIgnored(probes: seq<Lookup<string>>, i: int, later: seq<Lookup<string>>)
    requires FirstFound(probes, i)
    ensures PriceFrom(probes[..i + 1] + later) == Strip(probes[i].value)
  {
    var changed := probes[..i + 1] + later;
    assert FirstFound(changed, i) by {
      assert forall j :: 0 <= j <= i ==> changed[j] == probes[j];
    }
  }

  /** A page where only the second selector has an element: its text is the
      price, whether the first selector is missing or raises, and whatever
      the third selector would answer. */
  lemma SecondSelectorAlone(page: Page)
    requires !TextAt(page, PriceSelectors[0]).Found?
    requires TextAt(page, PriceSelectors[1]).Found?
    ensures GetProductInfo(page).price == Strip(TextAt(page, PriceSelectors[1]).value)
  {
  }

  /** The title does not influence the price: two pages that answer the
      price selectors alike get the same price, whatever their title
      elements do, including raising. */
  lemma TitleIsolatedFromPrice(p: Page, q: Page)
    requires forall i :: 0 <= i < |PriceSelectors| ==> TextAt(p, PriceSelectors[i]) == TextAt(q, PriceSelectors[i])
    ensures GetProductInfo(p).price == GetProductInfo(q).price
  {
  }
}
