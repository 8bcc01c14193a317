# Seller product scraper: decision layer model

This Dafny project models the decision logic of a marketplace scraper, `src/main.py`. The scraper starts from a seller's profile page. It tries to set a delivery location. It then resolves the seller's storefront link, picks the first product listing on the storefront, and extracts that product's title and price. If a storefront is found and nothing raises, it finally appends one row to `out.csv`.

The browser is replaced by an abstract page oracle. Every DOM query and every text or attribute read answers `Missing`, `Found(value)` or `Throws`. Every navigation either yields a loaded page or raises. With the browser abstracted this way, each stage is a pure function and so is the whole run.

Files, one module each:

- `wrappers.dfy` (`Wrappers`): the `Option` type shared by the other modules.
- `oracle.dfy` (`PageOracle`): the oracle types (`Lookup`, `Element`, `Listing`, `Page`), `urljoin` as a function parameter, and `TextAt`, which reads an element's text.
- `text.dfy` (`Text`): Python's `str.strip()`, over the exact character set that `str.isspace()` accepts.
- `locale.dfy` (`Locale`): `set_location`, reduced to its boolean result.
- `storefront.dfy` (`Storefront`): `get_storefront_url`.
- `locator.dfy` (`Locator`): `get_first_product_url`.
- `extractor.dfy` (`Extractor`): `get_product_info`, the title read plus the ordered price fallback.
- `result_log.dfy` (`ResultLog`): `init_csv` and `save_row`. The log is modelled as `Option<seq<Row>>`, where `None` means the file does not exist.
- `pipeline.dfy` (`Pipeline`): the body of `main`'s try block as `Run`, `main` as `Main`, and repeated invocations as `MainAll`.

Behaviours of `src/main.py` worth noting:

- **No row without a storefront.** When no storefront is found, `main` returns before `save_row` (src/main.py:154-156), so no partial row is written.
- **Product ids are checked by length only.** A `data-asin` value is accepted when it has exactly ten characters, whatever those characters are (src/main.py:77).
- **An empty price still wins.** The price loop breaks at the first selector whose element exists, even when that element's stripped text is empty (src/main.py:105-107).
- **A failed read counts as a throw.** An element whose `text_content()` is `None`, or whose text read raises, is treated like a query that throws: the bare `except` catches the error (src/main.py:92-93, 106-109). For the price, this means the next selector is tried.
- **A header-less file stays header-less.** `init_csv` only checks that out.csv exists (src/main.py:21), so a pre-existing file without a header never gains one. The header-once results therefore start from no file or from a well-formed out.csv.

## Model

| member | source | states |
|---|---|---|
| Text.Strip | src/main.py:106 | `.strip()` yields the contiguous piece of the input left after removing its whitespace margins: everything before and after it is whitespace, and neither of its ends is; it is empty exactly when the input is all whitespace; a string already trimmed is returned unchanged |
| PageOracle.TextAt | src/main.py:104-106 | the text read is Missing exactly when the query finds no element, Found exactly when the element's text_content() is a string (and then that string), and Throws otherwise, including a None text that makes `.strip()` raise |
| Locale.Perform | src/main.py:40-48 | a click guarded by the inner except raises only when both the click and its Enter fallback raise; a plain action raises exactly when it raises |
| Locale.RunBlock | src/main.py:34-53 | a try block of actions succeeds exactly when every action, after its own Enter fallback, succeeds |
| Locale.SetLocation | src/main.py:32-55 | set_location never raises; it is false exactly when the popover click, the zip fill, a click and its Enter fallback together, or the final wait raise |
| Storefront.StorefrontUrl | src/main.py:58-67 | a non-empty result is urljoin of the page URL with the link's own non-empty href; "" whenever there is no such href, including a missing link, a raising query or read, and an empty or absent href |
| Locator.ScanAsins | src/main.py:75-80 | the scan returns the value at the first index that qualifies (length 10) before any read raises, and returns a value only when such an index exists |
| Locator.FirstProductHref | src/main.py:70-81 | over the listing's data-asin values, one read per element in document order, the result is "/dp/" + the first qualifying value, provided no earlier read raised; it is non-empty exactly when such a value exists; a non-empty result has length 14 and prefix "/dp/"; "" when the listing query raises |
| Locator.LaterValuesIgnored | src/main.py:74-78 | values after the first hit, including reads that would raise, never change the result |
| Locator.LengthIsTheOnlyTest | src/main.py:77-78 | a ten-character data-asin with punctuation is accepted, and an eleven-character alphanumeric one is rejected |
| Extractor.PriceFrom | src/main.py:102-109 | the price is the stripped text of the first probe that found an element, even when that text is empty; missing and raising probes are skipped; "" when no probe found one |
| Extractor.Title | src/main.py:86-94 | the title is the stripped title text, or "" when the element is missing or its query or read raises |
| Extractor.GetProductInfo | src/main.py:84-111 | the title is extracted on its own; the price comes from the first of the three fixed selectors (src/main.py:97-99), tried in source order, whose element is found, and is "" when none is |
| Extractor.LaterSelectorsIgnored | src/main.py:102-107 | selectors after the first element found are never consulted: whatever they answer, the price is that element's stripped text |
| Extractor.SecondSelectorAlone | src/main.py:96-107 | when only the second selector finds an element, its text is the price, whether the first selector is missing or raises and whatever the third answers |
| Extractor.TitleIsolatedFromPrice | src/main.py:89-111 | pages that answer the price selectors alike get the same price, whatever their title elements do |
| ResultLog.InitCsv | src/main.py:19-23 | init_csv creates the file with the header row only when the file is absent; an existing file is kept as it is |
| ResultLog.SaveRow | src/main.py:26-29 | save_row adds exactly one row after all existing rows and leaves them unchanged |
| ResultLog.InitCsvIdempotent | src/main.py:19-23 | initialising twice equals initialising once |
| Pipeline.Run | src/main.py:144-182 | a run appends at most one row; every row has 6 fields led by country, zip and seller URL; a run ends without a row exactly when it crashed or found no storefront; with no product found, the row is [country, zip, seller_url, "", "", ""] |
| Pipeline.SellerPageFails | src/main.py:145-147 | a seller page that fails to load ends the run with no row, before set_location runs |
| Pipeline.StorefrontGate | src/main.py:152-156 | with no storefront URL the run stops with no row |
| Pipeline.ProductGate | src/main.py:162-167 | with no product href the run saves [country, zip, seller_url, "", "", ""] |
| Pipeline.FullRow | src/main.py:169-178 | when every navigation loads, the one row saved is [country, zip, seller_url, product_url, title, price], with product_url resolved against the storefront page URL |
| Pipeline.LaterFailuresWriteNothing | src/main.py:158-182 | once the seller page loaded and a storefront URL was found, the storefront navigation raising, the product urljoin raising or the product navigation raising ends the run as a crash with no row |
| Pipeline.LocationIsSoft | src/main.py:149-150 | given the same page answers, set_location's discarded result steers neither the exit nor the rows of the run |
| Pipeline.Main | src/main.py:128-178 | main only appends, through init_csv and at most one save_row: the result is the initialised log followed by exactly the rows the run produced, so at most one row, led by this run's country, zip and seller URL |
| Pipeline.AppendOnly | src/main.py:19-29 | successive invocations only append: the rows already in the log stay unchanged as its prefix, and each invocation adds at most one row |
| Pipeline.HeaderOnlyFirst | src/main.py:10-23 | in a well-formed log no data row equals the header, because a data row's country column is us, uk or es |
| Pipeline.StaysWellFormed | src/main.py:19-29 | any sequence of invocations, started from no file (with at least one invocation) or from a well-formed log, leaves a well-formed log: the header first, then six-field rows whose country is us, uk or es |
| Pipeline.HeaderOnce | src/main.py:19-29 | from no file (with at least one invocation) or from a well-formed out.csv, however many invocations follow, out.csv exists and holds exactly one header, as row 0 |

## Left out

- Browser launch and context setup: the user agent, viewport and `browser.close()` are browser I/O. Each `goto` plus its wait for DOMContentLoaded is one oracle answer: a page or an exception.
- Timeouts and `wait_for_timeout`: a timeout appears only as the action raising.
- The oracle answers each query deterministically within a page. The seller page oracle describes the page as it stands after the locale attempt.
- `urljoin`: its internals belong to a library and are a function parameter here. `None` stands for it raising.
- argparse and logging: both are command-line and process plumbing. The argparse `choices` constraint becomes `requires country in ZipCodes`, and log messages are not modelled.
- File-system errors in `init_csv` and `save_row`, CSV quoting and the UTF-8 encoding: these are I/O. Rows are kept as sequences of strings.
- Exceptions outside `Exception`: `KeyboardInterrupt` and `SystemExit` are caught by the bare `except:` clauses but escape `set_location`'s outer handler and `main`'s handler. The model treats every exception alike.
- Locale.SetLocation: the side effect of setting the location on later pages is not modelled. The oracle's later pages already reflect whatever the session state is.
