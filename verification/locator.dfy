/** The product locator: the first element carrying a data-asin attribute
    whose value has exactly ten characters names the product. */
module Locator {
  import opened Wrappers
  import opened PageOracle

  const ListingSelector := "div[data-asin]"
  const AsinAttribute := "data-asin"
  const AsinLength := 10
  const ProductPathPrefix := "/dp/"

  /** A data-asin read the scan accepts. Only the length is checked, not the
      character class; a length of ten already rules out the empty string. */
  predicate Qualifies(read: Lookup<string>) {
    read.Found? && |read.value| == AsinLength
  }

  /** A read the scan passes over and continues after. */
  predicate Skipped(read: Lookup<string>) {
    !Qualifies(read) && !read.Throws?
  }

  /** Index i holds the accepted value: it qualifies, and every read before it
      was passed over (none qualified and none raised). */
  predicate FirstHit(values: seq<Lookup<string>>, i: int) {
    && 0 <= i < |values|
    && Qualifies(values[i])
    && forall j :: 0 <= j < i ==> Skipped(values[j])
  }

  /** The data-asin values of the listing, in document order. */
  function AsinReads(elements: seq<Element>): (values: seq<Lookup<string>>)
  {
    seq(|elements|, i requires 0 <= i < |elements| => elements[i].attribute(AsinAttribute))
  }

  /** The for loop of get_first_product_url over the values: it returns at the
      first qualifying value, and a read that raises leaves the loop for the
      bare except, which yields no product. */
  function ScanAsins(values: seq<Lookup<string>>): (r: Option<string>)
    ensures forall i :: FirstHit(values, i) ==> r == Some(values[i].value)
    ensures r.Some? ==> exists i :: FirstHit(values, i)
  {
    if values == [] then None
    else if Qualifies(values[0]) then assert FirstHit(values, 0); Some(values[0].value)
    else if values[0].Throws? then None
    else
      var r := ScanAsins(values[1..]);
      assert forall i :: FirstHit(values, i) ==> FirstHit(values[1..], i - 1);
      assert forall i :: FirstHit(values[1..], i) ==> FirstHit(values, i + 1);
      r
  }

  /** get_first_product_url: "/dp/" + the first accepted data-asin, or "" when
      the listing query raises or no value is accepted before a read raises. */
  function FirstProductHref(page: Page): (href: string)
    ensures href != "" ==> |href| == 14 && href[..4] == ProductPathPrefix
    ensures page.queryAll(ListingSelector).ListingThrows? ==> href == ""
    ensures page.queryAll(ListingSelector).Listed? ==>
      var values := AsinReads(page.queryAll(ListingSelector).elements);
      && (forall i :: FirstHit(values, i) ==> href == ProductPathPrefix + values[i].value)
      && (href != "" <==> exists i :: FirstHit(values, i))
  {
    match page.queryAll(ListingSelector)
    case ListingThrows => ""
    case Listed(elements) =>
      match ScanAsins(AsinReads(elements))
      case Some(asin) => ProductPathPrefix + asin
      case None => ""
  }

  /** Only the first hit matters: whatever follows it in document order,
      including values that would raise, never changes the result. */
  lemma {:induction false} LaterValuesIgnored(values: seq<Lookup<string>>, i: int, later: seq<Lookup<string>>)
    requires FirstHit(values, i)
    ensures ScanAsins(values[..i + 1] + later) == Some(values[i].value)
  {
    var changed := values[..i + 1] + later;
    assert FirstHit(changed, i) by {
      assert forall j :: 0 <= j <= i ==> changed[j] == values[j];
    }
  }

  /** Only the length is checked: a ten-character value with punctuation is
      accepted, and an eleven-character alphanumeric one is passed over. */
  lemma LengthIsTheOnlyTest()
    ensures FirstProductHref(Page("", _ => Missing, _ => Listed([Element(Missing, _ => Found("B0123-AB!?"))]))) == "/dp/B0123-AB!?"
    ensures FirstProductHref(Page("", _ => Missing, _ => Listed([Element(Missing, _ => Found("B0123ABCDE1"))]))) == ""
  {
  }
}
