/**
 * The Market Data page: the search filter over the loaded records, the
 * page of the filtered list that the table shows, and the state that the
 * page, rows-per-page and search handlers update.
 */
module MarketData {
  import opened Common
  import opened JsText

  /** The fields of a market-data record that the table shows or searches. */
  datatype MarketRecord = MarketRecord(
    id: int,
    date: string,
    storeId: int,
    productId: int,
    category: string,
    region: string)

  /**
   * The search predicate: the lower-cased term occurs in the lower-cased
   * category or region, or the raw term occurs in the decimal text of the
   * product id.
   */
  predicate Matches(item: MarketRecord, term: string): (b: bool)
    ensures term == "" ==> b
  {
    IncludesEmpty(IntToString(item.productId));
    || Includes(Lower(item.category), Lower(term))
    || Includes(Lower(item.region), Lower(term))
    || Includes(IntToString(item.productId), term)
  }

  /** `data.filter(keep)`: the elements that pass, in their original order. */
  function FilterBy<T>(data: seq<T>, keep: T -> bool): (r: seq<T>)
    ensures |r| <= |data|
  {
    if |data| == 0 then []
    else FilterBy(data[..|data| - 1], keep) + if keep(data[|data| - 1]) then [data[|data| - 1]] else []
  }

  /** Positions of the elements that pass, in increasing order. */
  ghost function Positions<T>(data: seq<T>, keep: T -> bool): seq<nat> {
    if |data| == 0 then []
    else Positions(data[..|data| - 1], keep) + if keep(data[|data| - 1]) then [|data| - 1] else []
  }

  /**
   * The filtered sequence is the subsequence of data at the positions of
   * the elements that pass: it keeps their original order and drops nothing
   * that passes.
   */
  lemma {:induction false} FilterBySubsequence<T>(data: seq<T>, keep: T -> bool)
    ensures var r := FilterBy(data, keep);
      var idx := Positions(data, keep);
      && |idx| == |r|
      && (forall k :: 0 <= k < |idx| ==> idx[k] < |data| && r[k] == data[idx[k]])
      && (forall k, l :: 0 <= k < l < |idx| ==> idx[k] < idx[l])
      && (forall j :: 0 <= j < |data| ==> (j in idx <==> keep(data[j])))
  {
    if |data| > 0 {
      var n := |data| - 1;
      var p := data[..n];
      FilterBySubsequence(p, keep);
      var ip := Positions(p, keep);
      assert n !in ip;
      forall j | 0 <= j < n
        ensures p[j] == data[j]
      {
      }
    }
  }

  /** An element is kept iff it occurs in data and passes. */
  lemma FilterByMembers<T>(data: seq<T>, keep: T -> bool)
    ensures forall x :: x in FilterBy(data, keep) <==> x in data && keep(x)
  {
    var r := FilterBy(data, keep);
    var idx := Positions(data, keep);
    FilterBySubsequence(data, keep);
    forall x | x in data && keep(x)
      ensures x in r
    {
      var j :| 0 <= j < |data| && data[j] == x;
      var k :| 0 <= k < |idx| && idx[k] == j;
      assert r[k] == x;
    }
  }

  /** The search predicate for one term, as the callback passed to `filter`. */
  function Matcher(term: string): MarketRecord -> bool {
    item => Matches(item, term)
  }

  /** `data.filter(item => Matches(item, searchTerm))`. */
  function Filtered(data: seq<MarketRecord>, term: string): (r: seq<MarketRecord>)
    ensures |r| <= |data|
    ensures forall x :: x in r <==> x in data && Matches(x, term)
  {
    FilterByMembers(data, Matcher(term));
    FilterBy(data, Matcher(term))
  }

  /** Positions of the matching records, in increasing order. */
  ghost function KeptPositions(data: seq<MarketRecord>, term: string): seq<nat> {
    Positions(data, Matcher(term))
  }

  /**
   * The filtered list is the subsequence of data at the positions of the
   * matching records: it keeps their original order and drops nothing that
   * matches.
   */
  lemma FilteredIsSubsequence(data: seq<MarketRecord>, term: string)
    ensures var r := Filtered(data, term);
      var idx := KeptPositions(data, term);
      && |idx| == |r|
      && (forall k :: 0 <= k < |idx| ==> idx[k] < |data| && r[k] == data[idx[k]])
      && (forall k, l :: 0 <= k < l < |idx| ==> idx[k] < idx[l])
      && (forall j :: 0 <= j < |data| ==> (j in idx <==> Matches(data[j], term)))
  {
    FilterBySubsequence(data, Matcher(term));
  }

  /** An empty search term keeps every record. */
  lemma FilterEmptyTerm(data: seq<MarketRecord>)
    ensures Filtered(data, "") == data
  {
    forall x | x in data
      ensures Matcher("")(x)
    {
      assert Matches(x, "");
    }
    FilterByAll(data, Matcher(""));
  }

  /** A filter that every element passes keeps the whole list. */
  lemma {:induction false} FilterByAll<T>(data: seq<T>, keep: T -> bool)
    requires forall x :: x in data ==> keep(x)
    ensures FilterBy(data, keep) == data
  {
    if |data| > 0 {
      var p := data[..|data| - 1];
      FilterByAll(p, keep);
      assert p + [data[|data| - 1]] == data;
    }
  }

  /** Every character of an included needle occurs in the haystack. */
  lemma IncludedCharsOccur(hay: string, needle: string, i: nat)
    requires Includes(hay, needle) && i < |needle|
    ensures needle[i] in hay
  {
    var k :| OccursAt(hay, needle, k);
    assert hay[k + i] == hay[k..k + |needle|][i];
  }

  lemma IntToStringChars(n: int, i: nat)
    requires i < |IntToString(n)|
    ensures IsDecimalDigit(IntToString(n)[i]) || IntToString(n)[i] == '-'
  {
    if n < 0 && i > 0 {
      assert IntToString(n)[i] == NatToString(-n)[i - 1];
    }
  }

  /**
   * The product-id test compares the raw term, yet the filter as a whole
   * does not depend on the case of the term: an upper-case letter can never
   * occur in the decimal text of an id, and neither can its lower-case form.
   */
  lemma MatchesIgnoresCase(item: MarketRecord, term: string)
    ensures Matches(item, term) == Matches(item, Lower(term))
  {
    LowerIdempotent(term);
    var id := IntToString(item.productId);
    if exists i :: 0 <= i < |term| && 'A' <= term[i] <= 'Z' {
      var i :| 0 <= i < |term| && 'A' <= term[i] <= 'Z';
      if Includes(id, term) {
        IncludedCharsOccur(id, term, i);
        var j := IndexOf(id, term[i]);
        IntToStringChars(item.productId, j);
      }
      if Includes(id, Lower(term)) {
        IncludedCharsOccur(id, Lower(term), i);
        var j := IndexOf(id, Lower(term)[i]);
        IntToStringChars(item.productId, j);
      }
    } else {
      assert Lower(term) == term;
    }
  }

  /** Searching for a term and for its lower-case form shows the same records. */
  lemma {:induction false} FilterIgnoresCase(data: seq<MarketRecord>, term: string)
    ensures Filtered(data, term) == Filtered(data, Lower(term))
  {
    if |data| > 0 {
      FilterIgnoresCase(data[..|data| - 1], term);
      MatchesIgnoresCase(data[|data| - 1], term);
      assert Matcher(term)(data[|data| - 1]) == Matcher(Lower(term))(data[|data| - 1]);
    }
  }

  /** An index argument of `Array.prototype.slice` resolved against length len. */
  function SliceIndex(i: int, len: nat): (r: nat)
    ensures r <= len
    ensures 0 <= i <= len ==> r == i
    ensures i > len ==> r == len
  {
    if i < 0 then (if len + i < 0 then 0 else len + i)
    else if i > len then len
    else i
  }

  /** `s.slice(start, end)`: negative indices count from the end; never an error. */
  function Slice<T>(s: seq<T>, start: int, end: int): (r: seq<T>)
    ensures |r| <= |s|
    ensures start <= end ==> |r| <= end - start
    ensures forall x :: x in r ==> x in s
    ensures 0 <= start <= end <= |s| ==> r == s[start..end]
  {
    var from := SliceIndex(start, |s|);
    var to := SliceIndex(end, |s|);
    if from < to then s[from..to] else []
  }

  /** The rows the table body shows: `filtered.slice(page * rpp, page * rpp + rpp)`. */
  function PageOf<T>(filtered: seq<T>, page: int, rowsPerPage: int): (r: seq<T>)
    ensures rowsPerPage >= 0 ==> |r| <= rowsPerPage
    ensures forall x :: x in r ==> x in filtered
  {
    Slice(filtered, page * rowsPerPage, page * rowsPerPage + rowsPerPage)
  }

  /** The first index of a page. */
  function PageStart(page: nat, rowsPerPage: nat): nat {
    page * rowsPerPage
  }

  /** The window of n records from start, cut off at the end of the list. */
  lemma SliceWindow<T>(s: seq<T>, start: nat, n: nat)
    ensures var r := Slice(s, start, start + n);
      && |r| <= n
      && (start < |s| ==> r == s[start..if start + n < |s| then start + n else |s|])
      && (start >= |s| ==> r == [])
      && (forall k :: 0 <= k < |r| ==> start + k < |s| && r[k] == s[start + k])
      && (n > 0 ==> (r != [] <==> start < |s|))
  {
  }

  /**
   * A page is the window of rowsPerPage records starting at page *
   * rowsPerPage, cut off at the end of the list: never longer than
   * rowsPerPage, empty exactly when it starts at or past the end.
   */
  lemma PageWindow<T>(filtered: seq<T>, page: nat, rowsPerPage: nat)
    ensures var start := PageStart(page, rowsPerPage);
      var r := PageOf(filtered, page, rowsPerPage);
      && |r| <= rowsPerPage
      && (start < |filtered| ==> r == filtered[start..if start + rowsPerPage < |filtered| then start + rowsPerPage else |filtered|])
      && (start >= |filtered| ==> r == [])
      && (forall k :: 0 <= k < |r| ==> start + k < |filtered| && r[k] == filtered[start + k])
      && (rowsPerPage > 0 ==> (r != [] <==> start < |filtered|))
  {
    SliceWindow(filtered, PageStart(page, rowsPerPage), rowsPerPage);
  }

  /** The Market Data page's state. */
  class MarketDataPage {
    var data: seq<MarketRecord>
    var loading: bool
    var error: Option<string>
    var page: int
    var rowsPerPage: int
    var searchTerm: string

    /** The page as first rendered: loading, no data, page 0, 10 rows, no search. */
    constructor ()
      ensures data == [] && loading && error == None
      ensures page == 0 && rowsPerPage == 10 && searchTerm == ""
    {
      data := [];
      loading := true;
      error := None;
      page := 0;
      rowsPerPage := 10;
      searchTerm := "";
    }

    /** The market-data request settled: its records (Some) or a failure (None). */
    method FinishLoad(response: Option<seq<MarketRecord>>)
      modifies this`data, this`loading, this`error
      ensures !loading
      ensures response.Some? ==> data == response.value && error == old(error)
      ensures response.None? ==> data == old(data) && error == Some("Failed to load market data")
    {
      if response.Some? {
        data := response.value;
      } else {
        error := Some("Failed to load market data");
      }
      loading := false;
    }

    /** `handleChangePage`: only the page changes. */
    method HandleChangePage(newPage: int)
      modifies this`page
      ensures page == newPage
      ensures searchTerm == old(searchTerm) && rowsPerPage == old(rowsPerPage) && data == old(data)
    {
      page := newPage;
    }

    /**
     * `handleChangeRowsPerPage`: the selected option, read with
     * `parseInt(value, 10)`, becomes the page size and the page goes back to 0.
     * The options offered are 5, 10, 25 and 50, so the text always parses.
     */
    method HandleChangeRowsPerPage(value: string)
      requires ParseIntDecimal(value).Some?
      modifies this`rowsPerPage, this`page
      ensures rowsPerPage == ParseIntDecimal(value).value && page == 0
      ensures searchTerm == old(searchTerm) && data == old(data)
    {
      rowsPerPage := ParseIntDecimal(value).value;
      page := 0;
    }

    /** `handleSearch`: the new term is stored and the page goes back to 0. */
    method HandleSearch(value: string)
      modifies this`searchTerm, this`page
      ensures searchTerm == value && page == 0
      ensures rowsPerPage == old(rowsPerPage) && data == old(data)
    {
      searchTerm := value;
      page := 0;
    }

    /** The records that pass the current search. */
    function FilteredData(): (r: seq<MarketRecord>)
      reads this
      ensures |r| <= |data|
      ensures forall x :: x in r <==> x in data && Matches(x, searchTerm)
      ensures searchTerm == "" ==> r == data
    {
      FilterEmptyTerm(data);
      Filtered(data, searchTerm)
    }

    /** The records the table body shows. */
    function VisibleRows(): (r: seq<MarketRecord>)
      reads this
      ensures rowsPerPage >= 0 ==> |r| <= rowsPerPage
      ensures forall x :: x in r ==> x in data && Matches(x, searchTerm)
    {
      PageOf(FilteredData(), page, rowsPerPage)
    }

    /**
     * The count given to the paginator: the number of filtered records, at
     * most the number loaded and all of them when there is no search term.
     */
    function PaginationCount(): (n: nat)
      reads this
      ensures n <= |data|
      ensures searchTerm == "" ==> n == |data|
    {
      |FilteredData()|
    }
  }
}
