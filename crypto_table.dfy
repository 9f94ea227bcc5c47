/** The derived-view pipeline of the table component (src/Components/CryptoTable.jsx): the
    sort configuration and its toggle rule, the comparator with its null-last rule, sorting a
    copy of the snapshot, the conjunctive filter, and the component's own UI state with its
    handlers. */
module CryptoTable {
  import opened Common
  import Seqs
  import Text
  import opened Assets

  // ---------------------------------------------------------------------------------------
  // Sort configuration

  /** The columns the header lets the user sort by. */
  datatype SortKey =
    | Rank | Name | Price | Change1h | Change24h | Change7d | MarketCap | Volume24h
    | CirculatingSupply

  datatype Direction = Asc | Desc

  /** `sortConfig`; a missing key means "leave the snapshot order". */
  datatype SortConfig = SortConfig(key: Option<SortKey>, direction: Direction)

  const InitialSort: SortConfig := SortConfig(Some(Rank), Asc)

  /** `requestSort`'s choice: descending exactly when the same key is already ascending. */
  function NextSortConfig(config: SortConfig, key: SortKey): (r: SortConfig)
    ensures r.key == Some(key)
    ensures r.direction == Desc <==> config == SortConfig(Some(key), Asc)
  {
    var direction := if config.key == Some(key) && config.direction == Asc then Desc else Asc;
    SortConfig(Some(key), direction)
  }

  /** Clicking the same header three times cycles asc, desc, asc: the third configuration is
      the first one again and differs from the second. */
  lemma RequestSortCycles(config: SortConfig, key: SortKey)
    ensures var c1 := NextSortConfig(config, key);
            var c2 := NextSortConfig(c1, key);
            c2 != c1 && c2.key == c1.key && NextSortConfig(c2, key) == c1
  {
  }

  /** `getSortDirectionIndicator`. */
  function SortIndicator(config: SortConfig, key: SortKey): (r: string)
    ensures config.key != Some(key) ==> r == "↕"
    ensures config.key == Some(key) ==> r == (if config.direction == Asc then "↑" else "↓")
  {
    if config.key != Some(key) then "↕"
    else if config.direction == Asc then "↑" else "↓"
  }

  // ---------------------------------------------------------------------------------------
  // Field values and the comparator

  /** The value of a sort column for one asset: `null`, a string, or a number. */
  datatype FieldValue = Null | Str(text: string) | Num(number: real)

  function KeyValue(a: Asset, key: SortKey): (v: FieldValue)
    ensures key == Name <==> v.Str?
  {
    match key
    case Rank => Num(a.rank as real)
    case Name => Str(a.name)
    case Price => Num(a.price)
    case Change1h => if a.percentChange1h.Some? then Num(a.percentChange1h.value) else Null
    case Change24h => if a.percentChange24h.Some? then Num(a.percentChange24h.value) else Null
    case Change7d => if a.percentChange7d.Some? then Num(a.percentChange7d.value) else Null
    case MarketCap => Num(a.marketCap)
    case Volume24h => Num(a.volume24h)
    case CirculatingSupply => Num(a.circulatingSupply)
  }

  /** The string order standing in for `localeCompare`: code-point lexicographic, giving
      -1, 0 or 1. */
  function LexCompare(a: string, b: string): (r: int)
    ensures -1 <= r <= 1
    ensures r == 0 <==> a == b
  {
    if a == [] then (if b == [] then 0 else -1)
    else if b == [] then 1
    else if a[0] < b[0] then -1
    else if a[0] > b[0] then 1
    else
      var r := LexCompare(a[1..], b[1..]);
      assert a == [a[0]] + a[1..] && b == [b[0]] + b[1..];
      r
  }

  lemma {:induction false} LexAntisymmetric(a: string, b: string)
    ensures LexCompare(b, a) == -LexCompare(a, b)
    decreases |a|
  {
    if a != [] && b != [] && a[0] == b[0] {
      LexAntisymmetric(a[1..], b[1..]);
    }
  }

  lemma {:induction false} LexTransitive(a: string, b: string, c: string)
    requires LexCompare(a, b) <= 0 && LexCompare(b, c) <= 0
    ensures LexCompare(a, c) <= 0
    decreases |a|
  {
    if a != [] && b != [] && c != [] && a[0] == b[0] == c[0] {
      LexTransitive(a[1..], b[1..], c[1..]);
    }
  }

  /** The comparator passed to `sort`: a `null` left value sorts after, then a `null` right
      value sorts before, then strings compare with the string order and numbers by their
      difference, both reversed for `Desc`. Its sign is what the sort uses. */
  function Compare(a: Asset, b: Asset, key: SortKey, direction: Direction): (r: real)
    ensures KeyValue(a, key).Null? ==> r > 0.0
    ensures !KeyValue(a, key).Null? && KeyValue(b, key).Null? ==> r < 0.0
    ensures !KeyValue(a, key).Null? && !KeyValue(b, key).Null? ==>
              (r <= 0.0 <==> ValueLe(KeyValue(a, key), KeyValue(b, key), direction))
  {
    var va, vb := KeyValue(a, key), KeyValue(b, key);
    if va.Null? then 1.0
    else if vb.Null? then -1.0
    else if va.Str? && vb.Str? then
      (if direction == Asc then LexCompare(va.text, vb.text) else LexCompare(vb.text, va.text)) as real
    else if va.Num? && vb.Num? then
      (if direction == Asc then va.number - vb.number else vb.number - va.number)
    else 0.0
  }

  /** The order the table promises, stated on values rather than through the comparator:
      non-null values in ascending or descending order, every `null` after every non-null. */
  predicate InOrder(a: Asset, b: Asset, key: SortKey, direction: Direction) {
    var va, vb := KeyValue(a, key), KeyValue(b, key);
    vb.Null? || (!va.Null? && ValueLe(va, vb, direction))
  }

  predicate ValueLe(x: FieldValue, y: FieldValue, direction: Direction) {
    match (x, y)
    case (Num(p), Num(q)) => if direction == Asc then p <= q else q <= p
    case (Str(s), Str(t)) => if direction == Asc then LexCompare(s, t) <= 0 else LexCompare(t, s) <= 0
    case _ => true
  }

  /** Exactly one null: the comparator puts the null one last, in either direction. */
  lemma CompareNullLast(a: Asset, b: Asset, key: SortKey, direction: Direction)
    requires KeyValue(a, key).Null? && !KeyValue(b, key).Null?
    ensures Compare(a, b, key, direction) > 0.0 && Compare(b, a, key, direction) < 0.0
    ensures InOrder(b, a, key, direction) && !InOrder(a, b, key, direction)
  {
  }

  /** For two non-null values the descending comparator is the ascending one negated. */
  lemma CompareDescNegatesAsc(a: Asset, b: Asset, key: SortKey)
    requires !KeyValue(a, key).Null? && !KeyValue(b, key).Null?
    ensures Compare(a, b, key, Desc) == -Compare(a, b, key, Asc)
  {
    if key == Name {
      LexAntisymmetric(a.name, b.name);
    }
  }

  /** Descending order on a numeric column is ascending order read backwards. */
  lemma AscDescReversed(a: Asset, b: Asset, key: SortKey)
    requires key != Name && !KeyValue(a, key).Null? && !KeyValue(b, key).Null?
    ensures InOrder(a, b, key, Asc) <==> InOrder(b, a, key, Desc)
  {
  }

  /** A non-positive comparison means the pair is in order. */
  lemma CompareNonPositive(a: Asset, b: Asset, key: SortKey, direction: Direction)
    requires Compare(a, b, key, direction) <= 0.0
    ensures InOrder(a, b, key, direction)
  {
  }

  /** A positive comparison means the swapped pair is in order. */
  lemma ComparePositive(a: Asset, b: Asset, key: SortKey, direction: Direction)
    requires Compare(a, b, key, direction) > 0.0
    ensures InOrder(b, a, key, direction)
  {
    var va, vb := KeyValue(a, key), KeyValue(b, key);
    if !va.Null? && !vb.Null? && key == Name {
      LexAntisymmetric(va.text, vb.text);
    }
  }

  lemma InOrderTransitive(a: Asset, b: Asset, c: Asset, key: SortKey, direction: Direction)
    requires InOrder(a, b, key, direction) && InOrder(b, c, key, direction)
    ensures InOrder(a, c, key, direction)
  {
    var va, vb, vc := KeyValue(a, key), KeyValue(b, key), KeyValue(c, key);
    if !vc.Null? && key == Name {
      if direction == Asc {
        LexTransitive(va.text, vb.text, vc.text);
      } else {
        LexTransitive(vc.text, vb.text, va.text);
      }
    }
  }

  ghost predicate SortedBy(s: seq<Asset>, key: SortKey, direction: Direction) {
    forall i, j :: 0 <= i < j < |s| ==> InOrder(s[i], s[j], key, direction)
  }

  // ---------------------------------------------------------------------------------------
  // Sorting a copy

  /** `sortedAssets`: copies the snapshot into a fresh array and sorts the copy with the
      comparator (an insertion sort stands in for the engine's `sort`). The result is a
      permutation of the snapshot, in order by the configured column. */
  method SortedAssets(assets: seq<Asset>, config: SortConfig) returns (sorted: seq<Asset>)
    ensures multiset(sorted) == multiset(assets)
    ensures config.key.Some? ==> SortedBy(sorted, config.key.value, config.direction)
    ensures config.key.None? ==> sorted == assets
  {
    var a := new Asset[|assets|](i requires 0 <= i < |assets| => assets[i]);
    assert a[..] == assets;
    if config.key.Some? {
      var key, direction := config.key.value, config.direction;
      var i := 0;
      while i < a.Length
        invariant 0 <= i <= a.Length
        invariant SortedBy(a[..i], key, direction)
        invariant multiset(a[..]) == multiset(assets)
      {
        InsertLast(a, i, key, direction);
        i := i + 1;
      }
      assert a[..a.Length] == a[..];
    }
    sorted := a[..];
  }

  /** The state of one insertion step on `s`: the element being inserted sits at `j`; the
      part before it and the part after it up to `i` are each in order, everything before
      it precedes everything after it, and it precedes everything after it. */
  ghost predicate InsertionState(s: seq<Asset>, i: int, j: int, key: SortKey, direction: Direction)
    requires 0 <= j <= i < |s|
  {
    && (forall k, m :: 0 <= k < m < j ==> InOrder(s[k], s[m], key, direction))
    && (forall k, m :: j < k < m <= i ==> InOrder(s[k], s[m], key, direction))
    && (forall k, m :: 0 <= k < j < m <= i ==> InOrder(s[k], s[m], key, direction))
    && (forall m :: j < m <= i ==> InOrder(s[j], s[m], key, direction))
  }

  lemma InsertionStart(s: seq<Asset>, i: int, key: SortKey, direction: Direction)
    requires 0 <= i < |s| && SortedBy(s[..i], key, direction)
    ensures InsertionState(s, i, i, key, direction)
  {
    forall k, m | 0 <= k < m < i
      ensures InOrder(s[k], s[m], key, direction)
    {
      assert s[..i][k] == s[k] && s[..i][m] == s[m];
    }
  }

  /** Swapping the inserted element with a predecessor that the comparator puts after it
      moves the step one place down. */
  lemma InsertionSwap(s: seq<Asset>, i: int, j: int, key: SortKey, direction: Direction)
    requires 0 < j <= i < |s| && InsertionState(s, i, j, key, direction)
    requires Compare(s[j - 1], s[j], key, direction) > 0.0
    ensures InsertionState(s[j - 1 := s[j]][j := s[j - 1]], i, j - 1, key, direction)
  {
    ComparePositive(s[j - 1], s[j], key, direction);
  }

  /** Swapping two neighbours permutes the sequence. */
  lemma SwapPermutes(s: seq<Asset>, j: int)
    requires 0 < j < |s|
    ensures multiset(s[j - 1 := s[j]][j := s[j - 1]]) == multiset(s)
  {
  }

  /** When the predecessor is in order with the inserted element, the prefix up to `i` is
      sorted. */
  lemma InsertionDone(s: seq<Asset>, i: int, j: int, key: SortKey, direction: Direction)
    requires 0 <= j <= i < |s| && InsertionState(s, i, j, key, direction)
    requires j == 0 || Compare(s[j - 1], s[j], key, direction) <= 0.0
    ensures SortedBy(s[..i + 1], key, direction)
  {
    if j > 0 {
      CompareNonPositive(s[j - 1], s[j], key, direction);
      forall k | 0 <= k < j - 1
        ensures InOrder(s[k], s[j], key, direction)
      {
        InOrderTransitive(s[k], s[j - 1], s[j], key, direction);
      }
    }
    forall k, m | 0 <= k < m <= i
      ensures InOrder(s[k], s[m], key, direction)
    {
    }
  }

  /** One insertion step: `a[..i]` is sorted; `a[i]` is moved down past every element the
      comparator puts after it, leaving `a[..i + 1]` sorted. */
  method InsertLast(a: array<Asset>, i: int, key: SortKey, direction: Direction)
    requires 0 <= i < a.Length
    requires SortedBy(a[..i], key, direction)
    modifies a
    ensures SortedBy(a[..i + 1], key, direction)
    ensures multiset(a[..]) == old(multiset(a[..]))
  {
    InsertionStart(a[..], i, key, direction);
    var j := i;
    while j > 0 && Compare(a[j - 1], a[j], key, direction) > 0.0
      invariant 0 <= j <= i
      invariant multiset(a[..]) == old(multiset(a[..]))
      invariant InsertionState(a[..], i, j, key, direction)
    {
      ghost var s := a[..];
      InsertionSwap(s, i, j, key, direction);
      SwapPermutes(s, j);
      a[j - 1], a[j] := a[j], a[j - 1];
      assert a[..] == s[j - 1 := s[j]][j := s[j - 1]];
      j := j - 1;
    }
    InsertionDone(a[..], i, j, key, direction);
  }

  // ---------------------------------------------------------------------------------------
  // Filtering

  /** The four text inputs of the filter panel. */
  datatype FilterOptions = FilterOptions(
    priceMin: string, priceMax: string, percentChangeMin: string, searchTerm: string)

  const NoFilters: FilterOptions := FilterOptions("", "", "", "")

  /** `parseFloat` on an input's text; `None` is `NaN`, which compares false with anything. */
  type NumberParser = string -> Option<real>

  /** The search predicate: the lower-cased term occurs in the lower-cased name or symbol.
      The empty term is found everywhere, and a term longer than both texts nowhere. */
  predicate SearchMatches(a: Asset, term: string): (found: bool)
    ensures term == [] ==> found
    ensures found ==> |term| <= |a.name| || |term| <= |a.symbol|
  {
    assert term == [] ==> Text.OccursAt(Text.ToLower(a.name), Text.ToLower(term), 0);
    Text.Contains(Text.ToLower(a.name), Text.ToLower(term))
    || Text.Contains(Text.ToLower(a.symbol), Text.ToLower(term))
  }

  /** The filter predicate: each test is skipped when its input is empty (falsy), and an
      asset is kept when no test rejects it. A `null` 24h change compares as 0. */
  predicate Matches(a: Asset, onlyFavorites: bool, favorites: seq<string>, options: FilterOptions,
                    parse: NumberParser): (keep: bool)
    ensures !onlyFavorites && options == NoFilters ==> keep
    ensures keep && onlyFavorites ==> a.id in favorites
    ensures keep && options.searchTerm != "" ==> SearchMatches(a, options.searchTerm)
  {
    && !(onlyFavorites && a.id !in favorites)
    && !(options.priceMin != "" && parse(options.priceMin).Some? && a.price < parse(options.priceMin).value)
    && !(options.priceMax != "" && parse(options.priceMax).Some? && a.price > parse(options.priceMax).value)
    && !(options.percentChangeMin != "" && parse(options.percentChangeMin).Some?
         && a.percentChange24h.GetOr(0.0) < parse(options.percentChangeMin).value)
    && !(options.searchTerm != "" && !SearchMatches(a, options.searchTerm))
  }

  /** `filteredAssets`: the sorted assets that pass every active test, in sorted order. */
  function FilteredAssets(sorted: seq<Asset>, onlyFavorites: bool, favorites: seq<string>,
                          options: FilterOptions, parse: NumberParser): (r: seq<Asset>)
    ensures |r| <= |sorted|
    ensures onlyFavorites ==> forall a :: a in r ==> a.id in favorites
    ensures options.priceMin != "" && parse(options.priceMin).Some? ==>
              forall a :: a in r ==> a.price >= parse(options.priceMin).value
    ensures options.priceMax != "" && parse(options.priceMax).Some? ==>
              forall a :: a in r ==> a.price <= parse(options.priceMax).value
    ensures options.percentChangeMin != "" && parse(options.percentChangeMin).Some? ==>
              forall a :: a in r ==> a.percentChange24h.GetOr(0.0) >= parse(options.percentChangeMin).value
    ensures options.searchTerm != "" ==> forall a :: a in r ==> SearchMatches(a, options.searchTerm)
  {
    Seqs.Filter(sorted, a => Matches(a, onlyFavorites, favorites, options, parse))
  }

  /** The filter keeps exactly the matching assets, as an order-preserving subsequence. */
  lemma FilteredExactly(sorted: seq<Asset>, onlyFavorites: bool, favorites: seq<string>,
                        options: FilterOptions, parse: NumberParser, a: Asset)
    ensures Seqs.IsSubseq(FilteredAssets(sorted, onlyFavorites, favorites, options, parse), sorted)
    ensures a in FilteredAssets(sorted, onlyFavorites, favorites, options, parse)
            <==> a in sorted && Matches(a, onlyFavorites, favorites, options, parse)
    ensures multiset(FilteredAssets(sorted, onlyFavorites, favorites, options, parse))[a]
            == if Matches(a, onlyFavorites, favorites, options, parse) then multiset(sorted)[a] else 0
  {
    var keep := a => Matches(a, onlyFavorites, favorites, options, parse);
    Seqs.FilterIsSubseq(sorted, keep);
    Seqs.FilterMembership(sorted, keep, a);
    Seqs.FilterCounts(sorted, keep, a);
  }

  /** With every input empty and favorites-only off, nothing is filtered out. */
  lemma NoFiltersKeepAll(sorted: seq<Asset>, favorites: seq<string>, parse: NumberParser)
    ensures FilteredAssets(sorted, false, favorites, NoFilters, parse) == sorted
  {
    Seqs.FilterKeepsAll(sorted, a => Matches(a, false, favorites, NoFilters, parse));
  }

  /** The search ignores case on both sides: an asset whose symbol is "BTC" is found by the
      term "btc". The term is a parameter fixed by the precondition, so that the solver does
      not unfold the literal at every use. */
  lemma SearchExample(a: Asset, btc: string)
    requires btc == "btc"
    requires a.symbol == "BTC"
    ensures SearchMatches(a, btc)
  {
    assert Text.ToLower(a.symbol) == btc;
    assert Text.ToLower(btc) == btc;
    Text.ContainsInfix([], btc, []);
    assert [] + btc + [] == btc;
  }

  /** The search does not depend on the case of the term. */
  lemma SearchIgnoresCase(a: Asset, term: string)
    ensures SearchMatches(a, Text.ToUpper(term)) <==> SearchMatches(a, term)
  {
    Text.LowerOfUpper(term);
  }

  /** The search finds an asset whose name contains the term, in whatever case. */
  lemma SearchFindsName(a: Asset, pre: string, post: string, term: string)
    requires Text.ToLower(a.name) == pre + Text.ToLower(term) + post
    ensures SearchMatches(a, term)
  {
    Text.ContainsInfix(pre, Text.ToLower(term), post);
  }

  /** A subsequence of a sorted sequence is sorted. */
  lemma SubseqSorted(xs: seq<Asset>, ys: seq<Asset>, key: SortKey, direction: Direction)
    requires Seqs.IsSubseq(xs, ys) && SortedBy(ys, key, direction)
    ensures SortedBy(xs, key, direction)
  {
    forall i, j | 0 <= i < j < |xs|
      ensures InOrder(xs[i], xs[j], key, direction)
    {
      Seqs.SubseqOrder(xs, ys, i, j);
    }
  }

  /** The rows the table renders: the sorted snapshot, filtered. Every row matches the
      filters, every matching asset of the snapshot is a row, and the rows are in order. */
  method DerivedView(assets: seq<Asset>, config: SortConfig, onlyFavorites: bool,
                     favorites: seq<string>, options: FilterOptions, parse: NumberParser)
    returns (rows: seq<Asset>)
    ensures forall a :: a in rows <==> a in assets && Matches(a, onlyFavorites, favorites, options, parse)
    ensures forall a :: multiset(rows)[a]
                        == if Matches(a, onlyFavorites, favorites, options, parse) then multiset(assets)[a] else 0
    ensures config.key.Some? ==> SortedBy(rows, config.key.value, config.direction)
    ensures |rows| <= |assets|
  {
    var sorted := SortedAssets(assets, config);
    rows := FilteredAssets(sorted, onlyFavorites, favorites, options, parse);
    assert |sorted| == |assets| by {
      assert |multiset(sorted)| == |multiset(assets)|;
    }
    forall a
      ensures a in rows <==> a in assets && Matches(a, onlyFavorites, favorites, options, parse)
      ensures multiset(rows)[a]
              == if Matches(a, onlyFavorites, favorites, options, parse) then multiset(assets)[a] else 0
    {
      FilteredExactly(sorted, onlyFavorites, favorites, options, parse, a);
      assert a in sorted <==> a in multiset(sorted);
      assert a in assets <==> a in multiset(assets);
    }
    if config.key.Some? {
      Seqs.FilterIsSubseq(sorted, a => Matches(a, onlyFavorites, favorites, options, parse));
      SubseqSorted(rows, sorted, config.key.value, config.direction);
    }
  }

  // ---------------------------------------------------------------------------------------
  // What the component shows

  /** The component's three screens: the spinner, the error panel, or the table. */
  datatype Screen = Spinner | ErrorPanel(message: string) | Table

  /** The spinner only while the first batch loads; otherwise an error replaces the table. */
  function ScreenOf(loading: bool, assets: seq<Asset>, error: Option<string>): (s: Screen)
    ensures s == Spinner <==> loading && assets == []
    ensures s.ErrorPanel? <==> !(loading && assets == []) && error.Some? && error.value != ""
    ensures s.ErrorPanel? ==> s.message == error.value
  {
    if loading && |assets| == 0 then Spinner
    else if error.Some? && error.value != "" then ErrorPanel(error.value)
    else Table
  }

  // ---------------------------------------------------------------------------------------
  // The component's UI state

  /** The names of the filter inputs that `handleFilterChange` updates. */
  datatype FilterField = PriceMin | PriceMax | PercentChangeMin | SearchTerm

  function WithField(options: FilterOptions, field: FilterField, value: string): (r: FilterOptions)
    ensures field == PriceMin ==> r == options.(priceMin := value)
    ensures field == PriceMax ==> r == options.(priceMax := value)
    ensures field == PercentChangeMin ==> r == options.(percentChangeMin := value)
    ensures field == SearchTerm ==> r == options.(searchTerm := value)
  {
    match field
    case PriceMin => options.(priceMin := value)
    case PriceMax => options.(priceMax := value)
    case PercentChangeMin => options.(percentChangeMin := value)
    case SearchTerm => options.(searchTerm := value)
  }

  /** The table component's local state. `requests` records the fetches its pagination
      effect dispatches: one on mount, then one whenever the page or the page size changes. */
  class TableView {
    var showOnlyFavorites: bool
    var sortConfig: SortConfig
    var currentPage: int
    var itemsPerPage: int
    var filterOptions: FilterOptions
    var requests: seq<FetchRequest>

    /** The last dispatched request is the current pagination. */
    ghost predicate Valid()
      reads this
    {
      requests != [] && requests[|requests| - 1] == FetchRequest(currentPage, itemsPerPage)
    }

    constructor ()
      ensures Valid()
      ensures !showOnlyFavorites && sortConfig == InitialSort && filterOptions == NoFilters
      ensures currentPage == 1 && itemsPerPage == 5
      ensures requests == [FetchRequest(1, 5)]
    {
      showOnlyFavorites := false;
      sortConfig := InitialSort;
      currentPage := 1;
      itemsPerPage := 5;
      filterOptions := NoFilters;
      requests := [FetchRequest(1, 5)];
    }

    /** `handlePageChange`, followed by the effect when the page changed. */
    method HandlePageChange(page: int)
      requires Valid()
      modifies this
      ensures Valid()
      ensures currentPage == page && itemsPerPage == old(itemsPerPage)
      ensures requests == old(requests) + (if page != old(currentPage) then [FetchRequest(page, itemsPerPage)] else [])
      ensures showOnlyFavorites == old(showOnlyFavorites) && sortConfig == old(sortConfig)
      ensures filterOptions == old(filterOptions)
    {
      if page != currentPage {
        requests := requests + [FetchRequest(page, itemsPerPage)];
      }
      currentPage := page;
    }

    /** The "Previous" button: disabled on page 1. */
    method PreviousPage()
      requires Valid()
      modifies this
      ensures Valid()
      ensures currentPage == if old(currentPage) == 1 then 1 else old(currentPage) - 1
      ensures requests == old(requests)
                          + (if old(currentPage) != 1 then [FetchRequest(old(currentPage) - 1, itemsPerPage)] else [])
      ensures itemsPerPage == old(itemsPerPage) && filterOptions == old(filterOptions)
      ensures showOnlyFavorites == old(showOnlyFavorites) && sortConfig == old(sortConfig)
    {
      if currentPage != 1 {
        HandlePageChange(currentPage - 1);
      }
    }

    /** The "Next" button: never disabled, whether or not more data exists. */
    method NextPage()
      requires Valid()
      modifies this
      ensures Valid()
      ensures currentPage == old(currentPage) + 1 && itemsPerPage == old(itemsPerPage)
      ensures requests == old(requests) + [FetchRequest(currentPage, itemsPerPage)]
      ensures showOnlyFavorites == old(showOnlyFavorites) && sortConfig == old(sortConfig)
      ensures filterOptions == old(filterOptions)
    {
      HandlePageChange(currentPage + 1);
    }

    /** `handleItemsPerPageChange`: the new size, back to page 1, and one fetch when either
        changed. */
    method HandleItemsPerPageChange(n: int)
      requires Valid()
      modifies this
      ensures Valid()
      ensures itemsPerPage == n && currentPage == 1
      ensures requests == old(requests) +
                (if (1, n) != (old(currentPage), old(itemsPerPage)) then [FetchRequest(1, n)] else [])
      ensures showOnlyFavorites == old(showOnlyFavorites) && sortConfig == old(sortConfig)
      ensures filterOptions == old(filterOptions)
    {
      if (1, n) != (currentPage, itemsPerPage) {
        requests := requests + [FetchRequest(1, n)];
      }
      itemsPerPage := n;
      currentPage := 1;
    }

    /** `requestSort`. */
    method RequestSort(key: SortKey)
      modifies this
      ensures sortConfig == NextSortConfig(old(sortConfig), key)
      ensures showOnlyFavorites == old(showOnlyFavorites) && filterOptions == old(filterOptions)
      ensures currentPage == old(currentPage) && itemsPerPage == old(itemsPerPage)
      ensures requests == old(requests)
    {
      sortConfig := NextSortConfig(sortConfig, key);
    }

    /** `handleFilterChange`: one input's text replaced, the others kept. */
    method HandleFilterChange(field: FilterField, value: string)
      modifies this
      ensures filterOptions == WithField(old(filterOptions), field, value)
      ensures showOnlyFavorites == old(showOnlyFavorites) && sortConfig == old(sortConfig)
      ensures currentPage == old(currentPage) && itemsPerPage == old(itemsPerPage)
      ensures requests == old(requests)
    {
      filterOptions := WithField(filterOptions, field, value);
    }

    /** The favorites-only checkbox. */
    method ToggleShowOnlyFavorites()
      modifies this
      ensures showOnlyFavorites == !old(showOnlyFavorites)
      ensures sortConfig == old(sortConfig) && filterOptions == old(filterOptions)
      ensures currentPage == old(currentPage) && itemsPerPage == old(itemsPerPage)
      ensures requests == old(requests)
    {
      showOnlyFavorites := !showOnlyFavorites;
    }

    /** `resetFilters`: all four inputs cleared and favorites-only off; sorting and
        pagination are untouched. */
    method ResetFilters()
      modifies this
      ensures filterOptions == NoFilters && !showOnlyFavorites
      ensures sortConfig == old(sortConfig)
      ensures currentPage == old(currentPage) && itemsPerPage == old(itemsPerPage)
      ensures requests == old(requests)
    {
      filterOptions := NoFilters;
      showOnlyFavorites := false;
    }

    /** The rows rendered for a snapshot under the current UI state. */
    method Rows(assets: seq<Asset>, favorites: seq<string>, parse: NumberParser)
      returns (rows: seq<Asset>)
      ensures forall a :: a in rows <==> a in assets && Matches(a, showOnlyFavorites, favorites, filterOptions, parse)
      ensures forall a :: multiset(rows)[a]
                          == if Matches(a, showOnlyFavorites, favorites, filterOptions, parse)
                             then multiset(assets)[a] else 0
      ensures sortConfig.key.Some? ==> SortedBy(rows, sortConfig.key.value, sortConfig.direction)
      ensures |rows| <= |assets|
    {
      rows := DerivedView(assets, sortConfig, showOnlyFavorites, favorites, filterOptions, parse);
    }
  }

  /** After a reset the table shows the whole snapshot again. */
  method ResetShowsEverything(view: TableView, assets: seq<Asset>, favorites: seq<string>,
                              parse: NumberParser)
    returns (rows: seq<Asset>)
    modifies view
    ensures forall a :: a in rows <==> a in assets
  {
    view.ResetFilters();
    rows := view.Rows(assets, favorites, parse);
  }
}
