/** The site catalog: turning the rows of an imported CSV file into site
    records, and the search box with its three threshold boxes. */
module Catalog {
  import opened Js
  import Seqs

  /** One listed website. Numeric fields hold what parseFloat produced, so an
      unreadable cell is NaN. */
  datatype Site = Site(url: string, price: Num, traffic: Num, da: Num, email: string)

  // ---------------------------------------------------------------------------
  // CSV import

  /** Cell `k` read as `parseFloat(r[k] || 0)`: a missing or empty cell is 0,
      any other cell is parsed. */
  function NumberCell(row: seq<string>, k: nat): Num
  {
    if k < |row| && row[k] != "" then ParseFloat(row[k]) else Finite(0)
  }

  /** Cell `k` read as `r[k]?.trim()`, with a missing cell read as empty. */
  function TextCell(row: seq<string>, k: nat): string
  {
    if k < |row| then Trim(row[k]) else ""
  }

  /** The record built from one row `URL,Price,Traffic,DA,Email`. */
  function ParseRow(row: seq<string>): (site: Site)
    ensures IsTrimmed(site.url) && IsTrimmed(site.email)
    ensures |row| <= 4 ==> site.email == ""
    ensures (|row| <= 1 || row[1] == "") ==> site.price == Finite(0)
    ensures (|row| <= 2 || row[2] == "") ==> site.traffic == Finite(0)
    ensures (|row| <= 3 || row[3] == "") ==> site.da == Finite(0)
  {
    Site(TextCell(row, 0), NumberCell(row, 1), NumberCell(row, 2), NumberCell(row, 3), TextCell(row, 4))
  }

  /** A record the import keeps: its url is not empty. */
  predicate Listed(site: Site)
  {
    site.url != ""
  }

  /** A row whose first cell holds something other than white space. */
  predicate HasUrl(row: seq<string>)
  {
    |row| > 0 && exists i :: 0 <= i < |row[0]| && !IsSpace(row[0][i])
  }

  lemma ListedIffHasUrl(row: seq<string>)
    ensures Listed(ParseRow(row)) <==> HasUrl(row)
  {
    if |row| > 0 {
      var t := Trim(row[0]);
      assert t == [] <==> forall i :: 0 <= i < |row[0]| ==> IsSpace(row[0][i]);
    }
  }

  /** `results.data.map(...)`: one record per row, in order. */
  function ParseRows(data: seq<seq<string>>): (sites: seq<Site>)
    ensures |sites| == |data|
    ensures forall i :: 0 <= i < |data| ==> sites[i] == ParseRow(data[i])
  {
    if data == [] then [] else [ParseRow(data[0])] + ParseRows(data[1..])
  }

  /** The catalog an import produces: the parsed rows whose url is not empty. */
  function ImportRows(data: seq<seq<string>>): (sites: seq<Site>)
    ensures |sites| <= |data|
    ensures forall s :: s in sites ==> Listed(s) && IsTrimmed(s.url) && IsTrimmed(s.email)
  {
    var parsed := ParseRows(data);
    Seqs.FilterIsSelection(parsed, Listed);
    Seqs.Filter(parsed, Listed)
  }

  /** The imported catalog is exactly one record for each row that has a url,
      in the order of the rows; the other rows are dropped. */
  lemma {:induction false} ImportKeepsRowsWithUrl(data: seq<seq<string>>)
    ensures ImportRows(data) == ParseRows(Seqs.Filter(data, HasUrl))
  {
    if data != [] {
      ImportKeepsRowsWithUrl(data[1..]);
      ListedIffHasUrl(data[0]);
      assert ParseRows(data)[1..] == ParseRows(data[1..]);
    }
  }

  /** Rows are imported independently of each other: importing a file made of
      two parts gives the two imported catalogs one after the other. */
  lemma ImportAppend(a: seq<seq<string>>, b: seq<seq<string>>)
    ensures ImportRows(a + b) == ImportRows(a) + ImportRows(b)
  {
    ParseRowsAppend(a, b);
    Seqs.FilterAppend(ParseRows(a), ParseRows(b), Listed);
  }

  lemma {:induction false} ParseRowsAppend(a: seq<seq<string>>, b: seq<seq<string>>)
    ensures ParseRows(a + b) == ParseRows(a) + ParseRows(b)
  {
    if a == [] {
      assert a + b == b;
    } else {
      assert (a + b)[0] == a[0] && (a + b)[1..] == a[1..] + b;
      ParseRowsAppend(a[1..], b);
    }
  }

  // ---------------------------------------------------------------------------
  // A CSV row for a record: the reference the import is checked against

  /** String(n) for a JavaScript number. */
  function ShowNum(n: Num): string
  {
    match n
    case Finite(v) => ShowInt(v)
    case NaN => "NaN"
  }

  lemma ParseShowNum(n: Num)
    ensures ParseFloat(ShowNum(n)) == n
  {
    if n.Finite? {
      ParseShowInt(n.value);
    }
  }

  /** A record an import can produce. */
  predicate WellFormed(site: Site)
  {
    Listed(site) && IsTrimmed(site.url) && IsTrimmed(site.email)
  }

  /** The row `URL,Price,Traffic,DA,Email` that describes `site`. */
  function SiteRow(site: Site): seq<string>
  {
    [site.url, ShowNum(site.price), ShowNum(site.traffic), ShowNum(site.da), site.email]
  }

  lemma RowRoundTrip(site: Site)
    requires WellFormed(site)
    ensures ParseRow(SiteRow(site)) == site
  {
    var row := SiteRow(site);
    TextCellOfTrimmed(row, 0);
    NumberCellOfShown(row, 1, site.price);
    NumberCellOfShown(row, 2, site.traffic);
    NumberCellOfShown(row, 3, site.da);
    TextCellOfTrimmed(row, 4);
  }

  lemma TextCellOfTrimmed(row: seq<string>, k: nat)
    requires k < |row| && IsTrimmed(row[k])
    ensures TextCell(row, k) == row[k]
  {
    TrimOfTrimmed(row[k]);
  }

  lemma NumberCellOfShown(row: seq<string>, k: nat, n: Num)
    requires k < |row| && row[k] == ShowNum(n)
    ensures NumberCell(row, k) == n
  {
    ParseShowNum(n);
  }

  function SiteRows(sites: seq<Site>): (rows: seq<seq<string>>)
    ensures |rows| == |sites|
    ensures forall i :: 0 <= i < |sites| ==> rows[i] == SiteRow(sites[i])
  {
    if sites == [] then [] else [SiteRow(sites[0])] + SiteRows(sites[1..])
  }

  lemma ParseSiteRows(sites: seq<Site>)
    requires forall s :: s in sites ==> WellFormed(s)
    ensures ParseRows(SiteRows(sites)) == sites
  {
    var rows := SiteRows(sites);
    forall i | 0 <= i < |sites| ensures ParseRow(rows[i]) == sites[i] {
      RowRoundTrip(sites[i]);
    }
  }

  /** Writing a catalog out as CSV rows and importing them gives the catalog
      back, so the import loses nothing of a record it can produce. */
  lemma ImportRoundTrip(sites: seq<Site>)
    requires forall s :: s in sites ==> WellFormed(s)
    ensures ImportRows(SiteRows(sites)) == sites
  {
    ParseSiteRows(sites);
    Seqs.FilterAllPass(sites, Listed);
  }

  // ---------------------------------------------------------------------------
  // Search and filter

  /** The three threshold boxes, holding what the user typed. */
  datatype Thresholds = Thresholds(minDa: string, maxPrice: string, minTraffic: string)

  const NoThresholds := Thresholds("", "", "")

  /** The test the search applies to one site, clause by clause: a non-empty
      query must occur in the url, and a non-empty threshold box excludes a
      site whose field compares strictly beyond the parsed threshold. */
  predicate Keep(site: Site, query: string, f: Thresholds)
  {
    !(query != "" && !Includes(site.url, query))
    && !(f.minDa != "" && Less(site.da, ParseFloat(f.minDa)))
    && !(f.maxPrice != "" && Less(ParseFloat(f.maxPrice), site.price))
    && !(f.minTraffic != "" && Less(site.traffic, ParseFloat(f.minTraffic)))
  }

  /** The bound a threshold box sets: none when it is empty or does not hold a
      number (a NaN threshold makes every comparison false). */
  function Bound(t: string): Option<int>
  {
    if t == "" then None
    else match ParseFloat(t)
      case Finite(v) => Some(v)
      case NaN => None
  }

  lemma BoundOfShownNumber(n: int)
    ensures Bound(ShowInt(n)) == Some(n)
  {
    ParseShowInt(n);
  }

  /** `x` is at least the bound, inclusively; no bound and a NaN field hold. */
  predicate AtLeast(x: Num, b: Option<int>)
  {
    b.None? || x.NaN? || x.value >= b.value
  }

  /** `x` is at most the bound, inclusively; no bound and a NaN field hold. */
  predicate AtMost(x: Num, b: Option<int>)
  {
    b.None? || x.NaN? || x.value <= b.value
  }

  /** What a visible site satisfies: the query occurs in its url, and every
      bound that is set holds, boundaries included. */
  ghost predicate Meets(site: Site, query: string, f: Thresholds)
  {
    (exists i :: OccursAt(site.url, query, i))
    && AtLeast(site.da, Bound(f.minDa))
    && AtMost(site.price, Bound(f.maxPrice))
    && AtLeast(site.traffic, Bound(f.minTraffic))
  }

  lemma KeepIffMeets(site: Site, query: string, f: Thresholds)
    ensures Keep(site, query, f) <==> Meets(site, query, f)
  {
    if query == "" {
      assert OccursAt(site.url, query, 0);
    }
  }

  /** The sites shown in the list: the catalog sites that meet the query and
      the thresholds, in catalog order, each as often as in the catalog. */
  function SearchAndFilter(sites: seq<Site>, query: string, f: Thresholds): (r: seq<Site>)
    ensures Seqs.IsSubsequence(r, sites)
    ensures forall s :: s in r <==> s in sites && Meets(s, query, f)
    ensures forall s :: multiset(r)[s] == if Meets(s, query, f) then multiset(sites)[s] else 0
  {
    var keep := (s: Site) => Keep(s, query, f);
    Seqs.FilterIsSelection(sites, keep);
    forall s: Site ensures keep(s) <==> Meets(s, query, f) {
      KeepIffMeets(s, query, f);
    }
    Seqs.Filter(sites, keep)
  }

  /** An empty query and empty threshold boxes show the whole catalog. */
  lemma SearchWithoutFilters(sites: seq<Site>)
    ensures SearchAndFilter(sites, "", NoThresholds) == sites
  {
    Seqs.FilterAllPass(sites, (s: Site) => Keep(s, "", NoThresholds));
  }

  /** Only the bounds matter: thresholds that set the same bounds show the
      same sites; in particular a box holding text that is not a number shows
      what an empty box shows. */
  lemma SearchDependsOnlyOnBounds(sites: seq<Site>, query: string, f: Thresholds, g: Thresholds)
    requires Bound(f.minDa) == Bound(g.minDa)
    requires Bound(f.maxPrice) == Bound(g.maxPrice)
    requires Bound(f.minTraffic) == Bound(g.minTraffic)
    ensures SearchAndFilter(sites, query, f) == SearchAndFilter(sites, query, g)
  {
    forall s: Site ensures Keep(s, query, f) == Keep(s, query, g) {
      KeepIffMeets(s, query, f);
      KeepIffMeets(s, query, g);
    }
    Seqs.FilterSameTest(sites, (s: Site) => Keep(s, query, f), (s: Site) => Keep(s, query, g));
  }
}
