/** The run: open the seller page, try to set the location, resolve the
    storefront, locate the first product, extract its fields and append one
    row to out.csv. */
module Pipeline {
  import opened Wrappers
  import opened PageOracle
  import opened Locale
  import opened Storefront
  import opened Locator
  import opened Extractor
  import opened ResultLog

  /** The zip code used for each country the command line accepts. */
  const ZipCodes: map<string, string> := map["us" := "10001", "uk" := "SW1A 1AA", "es" := "28001"]

  /** The browser session. goto(url), together with the wait for
      DOMContentLoaded, yields the loaded page or raises (None); the locale
      steps answer set_location's actions on the seller page. */
  datatype Browser = Browser(goto: string -> Option<Page>, locale: LocaleSteps)

  /** How a run ends: an exception reached the top-level handler, a gate
      stopped it, or the full row was saved. */
  datatype Exit = Crashed | NoStorefront | NoProduct | Saved

  /** located is set_location's result; rows are the rows the run appends. */
  datatype RunResult = RunResult(located: bool, exit: Exit, rows: seq<Row>)

  /** A row of this run: six fields, led by country, zip and seller URL. */
  predicate RowOf(row: Row, country: string, sellerUrl: string)
    requires country in ZipCodes
  {
    |row| == 6 && row[0] == country && row[1] == ZipCodes[country] && row[2] == sellerUrl
  }

  /** The body of main's try block. A failed locale step is soft and its
      result steers nothing; a missing storefront returns without a row; a
      missing product saves a row with empty product fields; any navigation
      or the product urljoin raising ends the run before save_row. */
  function Run(country: string, sellerUrl: string, browser: Browser, join: UrlJoin): (r: RunResult)
    requires country in ZipCodes
    ensures |r.rows| <= 1
    ensures forall k :: 0 <= k < |r.rows| ==> RowOf(r.rows[k], country, sellerUrl)
    ensures r.rows == [] <==> r.exit == Crashed || r.exit == NoStorefront
    ensures r.exit == NoProduct ==> r.rows == [[country, ZipCodes[country], sellerUrl, "", "", ""]]
  {
    var zip := ZipCodes[country];
    match browser.goto(sellerUrl)
    case None => RunResult(false, Crashed, [])
    case Some(sellerPage) =>
      var located := SetLocation(browser.locale);
      var storefrontUrl := StorefrontUrl(sellerPage, join);
      if storefrontUrl == "" then RunResult(located, NoStorefront, [])
      else match browser.goto(storefrontUrl)
        case None => RunResult(located, Crashed, [])
        case Some(storefrontPage) =>
          var productHref := FirstProductHref(storefrontPage);
          if productHref == "" then RunResult(located, NoProduct, [[country, zip, sellerUrl, "", "", ""]])
          else match join(storefrontPage.url, productHref)
            case None => RunResult(located, Crashed, [])
            case Some(productUrl) =>
              match browser.goto(productUrl)
              case None => RunResult(located, Crashed, [])
              case Some(productPage) =>
                var info := GetProductInfo(productPage);
                RunResult(located, Saved, [[country, zip, sellerUrl, productUrl, info.title, info.price]])
  }

  /** The seller page failing to load ends the run before set_location, with
      no row. */
  lemma SellerPageFails(country: string, sellerUrl: string, browser: Browser, join: UrlJoin)
    requires country in ZipCodes
    requires browser.goto(sellerUrl).None?
    ensures Run(country, sellerUrl, browser, join) == RunResult(false, Crashed, [])
  {
  }

  /** First gate: when the seller page yields no storefront URL, the run
      returns without a row and never navigates further. */
  lemma StorefrontGate(country: string, sellerUrl: string, browser: Browser, join: UrlJoin)
    requires country in ZipCodes
    requires browser.goto(sellerUrl).Some?
    requires StorefrontUrl(browser.goto(sellerUrl).value, join) == ""
    ensures Run(country, sellerUrl, browser, join) == RunResult(SetLocation(browser.locale), NoStorefront, [])
  {
  }

  /** Second gate: a storefront that loads but yields no product saves the
      partial row, seller columns filled and product columns empty. */
  lemma ProductGate(country: string, sellerUrl: string, browser: Browser, join: UrlJoin)
    requires country in ZipCodes
    requires browser.goto(sellerUrl).Some?
    requires StorefrontUrl(browser.goto(sellerUrl).value, join) != ""
    requires browser.goto(StorefrontUrl(browser.goto(sellerUrl).value, join)).Some?
    requires FirstProductHref(browser.goto(StorefrontUrl(browser.goto(sellerUrl).value, join)).value) == ""
    ensures Run(country, sellerUrl, browser, join).exit == NoProduct
    ensures Run(country, sellerUrl, browser, join).rows == [[country, ZipCodes[country], sellerUrl, "", "", ""]]
  {
  }

  /** The full path: every navigation loads, so the one saved row carries
      the product URL resolved against the storefront page and the title
      and price extracted from the product page. */
  lemma FullRow(country: string, sellerUrl: string, browser: Browser, join: UrlJoin,
                storefrontPage: Page, productHref: string, productUrl: string, productPage: Page)
    requires country in ZipCodes
    requires browser.goto(sellerUrl).Some?
    requires StorefrontUrl(browser.goto(sellerUrl).value, join) != ""
    requires browser.goto(StorefrontUrl(browser.goto(sellerUrl).value, join)) == Some(storefrontPage)
    requires productHref == FirstProductHref(storefrontPage) && productHref != ""
    requires join(storefrontPage.url, productHref) == Some(productUrl)
    requires browser.goto(productUrl) == Some(productPage)
    ensures Run(country, sellerUrl, browser, join).exit == Saved
    ensures Run(country, sellerUrl, browser, join).rows ==
      [[country, ZipCodes[country], sellerUrl, productUrl, GetProductInfo(productPage).title, GetProductInfo(productPage).price]]
  {
  }

  /** set_location's outcome is soft: given the same page answers, its
      discarded result steers neither the exit nor the rows of the run. */
  lemma LocationIsSoft(country: string, sellerUrl: string, goto: string -> Option<Page>, join: UrlJoin, a: LocaleSteps, b: LocaleSteps)
    requires country in ZipCodes
    ensures Run(country, sellerUrl, Browser(goto, a), join).exit == Run(country, sellerUrl, Browser(goto, b), join).exit
    ensures Run(country, sellerUrl, Browser(goto, a), join).rows == Run(country, sellerUrl, Browser(goto, b), join).rows
  {
  }

  /** A navigation or the product urljoin raising after the seller page
      loaded reaches the top-level handler: the run ends before save_row and
      writes nothing. */
  lemma LaterFailuresWriteNothing(country: string, sellerUrl: string, browser: Browser, join: UrlJoin)
    requires country in ZipCodes
    requires browser.goto(sellerUrl).Some?
    requires StorefrontUrl(browser.goto(sellerUrl).value, join) != ""
    ensures var storefront := browser.goto(StorefrontUrl(browser.goto(sellerUrl).value, join));
      var r := Run(country, sellerUrl, browser, join);
      && (storefront.None? ==> r.exit == Crashed && r.rows == [])
      && (storefront.Some? && FirstProductHref(storefront.value) != "" ==>
            && (join(storefront.value.url, FirstProductHref(storefront.value)).None? ==> r.exit == Crashed && r.rows == [])
            && (join(storefront.value.url, FirstProductHref(storefront.value)).Some? &&
                browser.goto(join(storefront.value.url, FirstProductHref(storefront.value)).value).None? ==>
                  r.exit == Crashed && r.rows == []))
  {
  }

  /** main: init_csv, then the run, then save_row for the row it produced. */
  function Main(country: string, sellerUrl: string, browser: Browser, join: UrlJoin, log: Log): (log': Log)
    requires country in ZipCodes
    ensures log'.Some?
    ensures RowsOf(InitCsv(log)) <= RowsOf(log')
    ensures |RowsOf(log')| <= |RowsOf(InitCsv(log))| + 1
    ensures forall k :: |RowsOf(InitCsv(log))| <= k < |RowsOf(log')| ==> RowOf(RowsOf(log')[k], country, sellerUrl)
    ensures RowsOf(log') == RowsOf(InitCsv(log)) + Run(country, sellerUrl, browser, join).rows
  {
    var rows := Run(country, sellerUrl, browser, join).rows;
    if rows == [] then InitCsv(log) else SaveRow(InitCsv(log), rows[0])
  }

  /** One command-line invocation of the scraper. */
  datatype Invocation = Invocation(country: string, sellerUrl: string, browser: Browser, join: UrlJoin)

  predicate ValidInvocations(runs: seq<Invocation>) {
    forall k :: 0 <= k < |runs| ==> runs[k].country in ZipCodes
  }

  /** Successive invocations against the same out.csv. */
  function MainAll(log: Log, runs: seq<Invocation>): Log
    requires ValidInvocations(runs)
    decreases runs
  {
    if runs == [] then log
    else MainAll(Main(runs[0].country, runs[0].sellerUrl, runs[0].browser, runs[0].join, log), runs[1..])
  }

  /** The shape out.csv keeps: the header first, then six-field data rows
      whose country column is one of the accepted countries. */
  predicate WellFormed(log: Log) {
    && log.Some?
    && |log.value| >= 1
    && log.value[0] == Header
    && forall k :: 1 <= k < |log.value| ==> DataRow(log.value[k])
  }

  /** A data row: six fields, the first an accepted country. */
  predicate DataRow(row: Row) {
    |row| == 6 && row[0] in ZipCodes
  }

  /** In a well-formed log the header occurs once: no data row equals it. */
  lemma HeaderOnlyFirst(log: Log)
    requires WellFormed(log)
    ensures forall k :: 0 <= k < |log.value| ==> (log.value[k] == Header <==> k == 0)
  {
  }

  /** Successive invocations only ever append: the rows already in out.csv
      stay as they are, and each invocation adds at most one row. */
  lemma {:induction false} AppendOnly(log: Log, runs: seq<Invocation>)
    requires ValidInvocations(runs)
    ensures RowsOf(log) <= RowsOf(MainAll(log, runs))
    ensures |RowsOf(MainAll(log, runs))| <= |RowsOf(InitCsv(log))| + |runs|
    decreases runs
  {
    if runs != [] {
      var next := Main(runs[0].country, runs[0].sellerUrl, runs[0].browser, runs[0].join, log);
      AppendOnly(next, runs[1..]);
    }
  }

  /** One or more invocations starting from no file, or any number starting
      from a well-formed file, leave a well-formed log. */
  lemma {:induction false} StaysWellFormed(log: Log, runs: seq<Invocation>)
    requires WellFormed(log) || (log.None? && runs != [])
    requires ValidInvocations(runs)
    ensures WellFormed(MainAll(log, runs))
    decreases runs
  {
    if runs != [] {
      var next := Main(runs[0].country, runs[0].sellerUrl, runs[0].browser, runs[0].join, log);
      assert WellFormed(next);
      StaysWellFormed(next, runs[1..]);
    }
  }

  /** However often the scraper is invoked, out.csv holds exactly one
      header, as its first row. */
  lemma HeaderOnce(log: Log, runs: seq<Invocation>)
    requires WellFormed(log) || (log.None? && runs != [])
    requires ValidInvocations(runs)
    ensures MainAll(log, runs).Some?
    ensures forall k :: 0 <= k < |RowsOf(MainAll(log, runs))| ==> (RowsOf(MainAll(log, runs))[k] == Header <==> k == 0)
  {
    StaysWellFormed(log, runs);
    HeaderOnlyFirst(MainAll(log, runs));
  }
}
