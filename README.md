# Site marketplace: a verified model of its business rules

The marketplace is a mobile demo on a single screen. The user imports a CSV
list of sites (URL, price, traffic, domain authority, contact email), searches
and filters it, adds sites to a cart and pays for the cart from a wallet. The
catalog, the cart and the wallet are kept in on-device key-value storage. This
project models the screen's four business rules in Dafny and proves what they
guarantee:

- **CSV import** (`Catalog.ImportRows`). Each row the CSV parser produced
  becomes a `Site` record. The url and email cells are trimmed. A numeric cell
  that is missing or empty reads as 0; any other cell is read by parseFloat.
  Rows whose trimmed url is empty are dropped, and the rest keep their order.
- **Search and filter** (`Catalog.SearchAndFilter`). There is a case-sensitive
  url substring query and three optional thresholds: minimum DA, maximum
  price and minimum traffic.
- **Cart** (`Cart.Add`, `App.Marketplace.AddToCart`). Adding a site is
  refused when an entry with the same url is already in the cart.
- **Checkout and top-up** (`Cart.Checkout`, `App.Marketplace.BuyCart`,
  `App.Marketplace.TopUp`). The total is the sum of the prices, with a NaN
  price counted as 0. The purchase is refused when the total exceeds the
  wallet. Otherwise the wallet is debited and the cart emptied.

Layout, one module per file:

- `js.dfy` (`Js`): the JavaScript primitives the screen uses. These are
  `undefined` (`Option`), numbers that may be NaN (`Num`), `trim`,
  `includes`, `parseFloat` and `String(n)`.
- `seqs.dfy` (`Seqs`): `Array.prototype.filter` and the facts that pin its
  result down.
- `catalog.dfy` (`Catalog`): the `Site` record, the import and the search.
- `cart.dfy` (`Cart`): the url test, adding, the total and the purchase check.
- `app.dfy` (`App`): the screen's state as the class `Marketplace`. It holds
  the fields `sites`, `cart` and `wallet`, plus a `storage` field for the three
  storage keys. Each method changes memory and its storage key in the
  source's order: the import writes its key before it sets the catalog in
  memory, and the other three mutators set memory first. The invariant `Valid()` says that loading the storage gives
  back the state in memory.

Numbers are integers (for instance whole currency units). An unreadable
numeric cell is `NaN`, because that is what the code's parseFloat produces.
The search takes the catalog, the query and the three threshold strings as
parameters. In the source these are component state that `searchAndFilter`
reads.

In these places the code behaves as follows, which may be unexpected:

- A numeric cell that is present but not a number (`abc`, or only white space)
  becomes NaN, not 0. Only a missing or empty cell becomes 0, through
  `r[k] || 0`. A NaN field passes every threshold, because each comparison
  with NaN is false. A NaN price counts as 0 in the total, through
  `b.price || 0`.
- A threshold box holding text that is not a number parses to NaN. Every
  comparison with it is false, so it excludes nothing. This is the same as an
  empty box (`Catalog.SearchDependsOnlyOnBounds`), and does not mean "exclude
  everything".
- The import does not make catalog urls unique. Duplicate rows are all kept,
  in order. Only the cart is kept free of duplicates.

## Model

| member | source | states |
|---|---|---|
| `Js.Trim` | App.js:44 | trim returns the slice left once white space (ECMAScript WhiteSpace and LineTerminator) is cut from both ends; it has no white space at either end; it is empty exactly when the input is all white space |
| `Js.Includes` | App.js:61 | `includes` is true exactly when the query occurs at some position of the url, case-sensitively; the empty query occurs everywhere |
| `Js.ParseFloat` | App.js:45-47 | parseFloat of text with no digit at all is NaN |
| `Js.ShowInt` | App.js:83-92 | String(n) for an integer, the wallet text buyCart and topUp store, is non-empty and does not start with white space; `Js.ParseShowInt` reads it back |
| `Js.ParseShowInt` | App.js:83 | the text String(n) written for the wallet reads back through parseFloat as n |
| `Js.ParseFloatPrefix` | App.js:45-47 | parseFloat skips leading white space and ignores what follows the digits: white space, then String(n), then text not starting with a digit, '.', 'e' or 'E' reads as n (a cell " 10" or "10 USD" reads as 10) |
| `Js.ParseFloatSkipsSpaces` | App.js:45-47 | leading white space does not change what parseFloat reads |
| `Js.ParseShowIntThen` | App.js:45-47 | String(n) followed by text that does not start with a digit, '.', 'e' or 'E' reads as n |
| `Seqs.Filter` | App.js:50-66 | Array.prototype.filter: the elements that pass, in order; pinned down by `Seqs.FilterIsSelection` |
| `Seqs.FilterIsSelection` | App.js:60-66 | filter returns a subsequence of its input (same order) that holds exactly the elements passing the test, each as often as in the input |
| `Seqs.FilterAppend` | App.js:50 | filtering a concatenation is concatenating the filtered parts |
| `Seqs.FilterAllPass` | App.js:60-66 | filtering with a test every element passes returns the input unchanged |
| `Seqs.FilterSameTest` | App.js:60-66 | two tests that agree on every element filter alike |
| `Catalog.TextCell` | App.js:44-48 | `r[k]?.trim()` with a missing cell read as ''; by `Catalog.TextCellOfTrimmed` (used in `Catalog.RowRoundTrip`) a trimmed cell reads as itself |
| `Catalog.NumberCell` | App.js:45-47 | `parseFloat(r[k]\|\|0)`: a missing or empty cell is 0, any other is parsed; by `Catalog.NumberCellOfShown` (used in `Catalog.RowRoundTrip`) a cell holding String(x) reads as x |
| `Catalog.ParseRow` | App.js:43-49 | a row becomes a record whose url and email are trimmed; a missing email is ''; a missing or empty price, traffic or DA cell is 0 |
| `Catalog.Listed` | App.js:50 | the `.filter(x=>x.url)` test: `x.url` is truthy, that is, the url is not empty; `Catalog.ListedIffHasUrl` ties this to the row |
| `Catalog.ListedIffHasUrl` | App.js:44-50 | a parsed row is kept exactly when its first cell exists and holds something other than white space |
| `Catalog.ParseRows` | App.js:42-49 | the map gives one record per row, the i-th record being the i-th row parsed |
| `Catalog.ImportRows` | App.js:42-50 | the import has at most as many records as rows; every record has a non-empty trimmed url and a trimmed email |
| `Catalog.ImportKeepsRowsWithUrl` | App.js:42-50 | the imported catalog is exactly the parsed rows whose trimmed first cell is non-empty, in input order; all other rows are dropped |
| `Catalog.ImportAppend` | App.js:42-50 | rows are imported independently: importing two parts of a file gives their catalogs one after the other |
| `Catalog.ParseShowNum` | App.js:45-47 | String(x) for a number x (including NaN) reads back through parseFloat as x |
| `Catalog.RowRoundTrip` | App.js:43-49 | a record with a non-empty trimmed url and a trimmed email, written as the row URL,Price,Traffic,DA,Email, parses back to itself |
| `Catalog.ParseSiteRows` | App.js:42-49 | parsing the rows written for well-formed records gives those records |
| `Catalog.ImportRoundTrip` | App.js:42-50 | importing the CSV rows of a catalog of well-formed records gives that catalog back, so the import keeps every field |
| `Catalog.BoundOfShownNumber` | App.js:62-64 | a threshold box holding the text of a number n sets the bound n |
| `Catalog.Keep` | App.js:60-65 | the filter callback, clause by clause; `Catalog.KeepIffMeets` states what it means |
| `Catalog.KeepIffMeets` | App.js:60-65 | the filter callback keeps a site exactly when the query occurs in its url, da >= minDa, price <= maxPrice and traffic >= minTraffic for each bound that is set, boundaries included; an empty or non-numeric box sets no bound, and a NaN field passes |
| `Catalog.SearchAndFilter` | App.js:59-66 | the visible sites are a subsequence of the catalog in catalog order; a site is visible exactly when it is in the catalog and meets the query and every set bound, and it appears as often as in the catalog |
| `Catalog.SearchWithoutFilters` | App.js:59-66 | an empty query with all threshold boxes empty shows the whole catalog, unchanged and in order |
| `Catalog.SearchDependsOnlyOnBounds` | App.js:62-64 | thresholds setting the same bounds show the same sites; a non-numeric box acts as an empty one |
| `Cart.FindByUrl` | App.js:70 | find returns undefined exactly when no cart entry has the url; otherwise it returns the first entry with that url |
| `Cart.Add` | App.js:70-72 | when an entry already has the site's url the cart is unchanged; otherwise the site is appended; afterwards the url is in the cart, and distinct cart urls stay distinct |
| `Cart.AddIdempotent` | App.js:70-72 | adding a site a second time changes nothing |
| `Cart.AddAllKeepsUrlsUnique` | App.js:69-76 | across any sequence of adds the cart urls stay pairwise distinct, the cart only grows at the end, and every url asked for ends up in it |
| `Cart.Total` | App.js:79 | `cart.reduce((a,b)=>a + (b.price\|\|0),0)`, summed front to back; `Cart.TotalAppend`, `Cart.TotalAfterAdd` and `Cart.TotalNonNegative` pin it down |
| `Cart.TotalAppend` | App.js:79 | the total of a concatenation of carts is the sum of their totals |
| `Cart.TotalAfterAdd` | App.js:79 | an add raises the total by the new site's price (NaN counted as 0), or by nothing when its url was already in the cart |
| `Cart.TotalNonNegative` | App.js:79 | with no negative price the total is not negative |
| `Cart.Checkout` | App.js:79-86 | the purchase fails exactly when total > wallet, reporting both; otherwise it spends the total and leaves wallet - total, which is never negative; a total equal to the wallet succeeds with balance 0 |
| `App.LoadWallet` | App.js:29 | an unset wallet key or text that is not a number loads as 0 |
| `App.LoadStoredWallet` | App.js:29 | the wallet text a mutation writes loads back as the same balance |
| `App.Rehydrate` | App.js:22-31 | the state loadAll builds: each stored key that is set replaces the initial value, the wallet read by `App.LoadWallet`; `App.Marketplace.Valid` is built on it and `App.Marketplace.Load` establishes it |
| `App.Marketplace.constructor` | App.js:13-18 | the screen starts with no sites, an empty cart, a wallet of 0 and nothing stored, and storage agrees with memory |
| `App.Marketplace.Load` | App.js:22-31 | loading stored state sets memory to what the stored keys hold, with the initial values for unset keys |
| `App.Marketplace.ImportCsv` | App.js:40-53 | the catalog becomes the import of the parser's rows and is stored; the count reported is its length; cart and wallet are unchanged |
| `App.Marketplace.AddToCart` | App.js:69-76 | a site whose url is already in the cart changes neither cart nor storage; otherwise the cart becomes old cart + [site] and is stored; cart urls stay distinct; catalog and wallet are unchanged |
| `App.Marketplace.BuyCart` | App.js:78-87 | when total > wallet the cart, wallet and storage are unchanged; otherwise wallet' = wallet - total >= 0, the cart is emptied, the wallet is stored and the cart key removed |
| `App.Marketplace.TopUp` | App.js:89-93 | wallet' = wallet + amount, stored; catalog and cart are unchanged |
| `App.AddScenario` | App.js:69-76 | two sites with different urls added to a fresh screen give the cart [a, b]; adding the first again leaves it so |
| `App.CheckoutScenario` | App.js:78-93 | with a cart priced 10 + 20 and a wallet of 25 the purchase is refused and nothing changes; after a top-up of 5 it succeeds, leaving an empty cart and a balance of 0 |

## Left out

- Rendering, the modal views, the list, the alerts and their message texts,
  and the `toFixed(2)` wallet display: these are user interface only.
- The document picker and the fetch of the picked file: these are I/O. The
  CSV tokenizer (Papa.parse) is a foreign library. The model takes its row
  array (`results.data`) as input to `App.Marketplace.ImportCsv`.
- Asynchronous storage: the model writes storage as a plain field. The
  `await` points and the interleavings they allow are not modelled. Neither
  are failing writes, or the exception that `loadAll` catches and logs.
- JSON encoding of the stored catalog and cart: they are stored as the record
  sequences themselves. JSON.stringify turns a NaN field into null, and a
  reloaded null compares as 0. So a reloaded NaN field behaves differently
  from the in-memory NaN, which the model does not capture.
- `Js.ParseFloat`: covers only integers, and IEEE rounding is not modelled.
  A decimal point ends the number, so `"1.5"` reads as 1 where parseFloat
  gives 1.5. Text that starts with a decimal point has no leading digit, so
  `".5"` reads as NaN where parseFloat gives 0.5; such a site then passes a
  `maxPrice` of `"0"` and costs 0 in `Cart.Total`. Exponents are not read.
  `"Infinity"` reads as NaN, so an Infinity price counts as 0 in the total,
  where in the source it makes the total Infinity and `buyCart` always
  refuses. `Js.ShowInt` writes plain decimal digits for every integer,
  where String(n) switches to exponent notation from 1e21 on.
- `App.Marketplace.TopUp`: takes an integer amount. The source applies
  parseFloat to its argument, which is the number 50 from the button, and
  parseFloat leaves a number unchanged. A non-numeric amount would make the
  wallet NaN; this is not modelled.
- The setters of the query and threshold boxes are user interface only. The
  search takes their values as parameters.
