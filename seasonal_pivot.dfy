/**
 * The seasonal pivot that the Dashboard and the Goods-vs-Seasons pages run,
 * word for word the same, over the seasonal-analysis response: a `reduce`
 * that keeps one row per season label and, in that row, a running sum per
 * category; and the list of category keys the chart draws one bar for.
 *
 * A JavaScript row object `{seasonality: s, c1: v1, c2: v2, ...}` is a
 * `Row(s, [c1, c2, ...], map[c1 := v1, c2 := v2, ...])`: `cats` keeps the
 * order in which the category keys were added to the object, which is the
 * order `Object.keys` reports them in after `seasonality`.
 */
module SeasonalPivot {
  import opened Common

  /** One record of the seasonal-analysis response. None is null or undefined. */
  datatype SeasonalItem = SeasonalItem(
    category: string,
    seasonality: Option<string>,
    totalPredictedSales: Option<int>,
    avgPredictedSales: Option<int>)

  /** One row of the pivoted chart data. */
  datatype Row = Row(season: string, cats: seq<string>, vals: map<string, int>)

  /** JavaScript truthiness of a number that may be null: present and not 0. */
  predicate Truthy(x: Option<int>) {
    x.Some? && x.value != 0
  }

  /** `item.seasonality || 'Unknown'`: an absent or empty label is "Unknown". */
  function SeasonOf(item: SeasonalItem): (s: string)
    ensures s != ""
    ensures item.seasonality.Some? && item.seasonality.value != "" ==> s == item.seasonality.value
    ensures item.seasonality.None? || item.seasonality.value == "" ==> s == "Unknown"
  {
    if item.seasonality.Some? && item.seasonality.value != "" then item.seasonality.value else "Unknown"
  }

  /**
   * `item.total_predicted_sales || item.avg_predicted_sales || 0`: a total of
   * 0 or null falls through to the average, and an average of 0 or null to 0.
   */
  function ValueOf(item: SeasonalItem): (v: int)
    ensures Truthy(item.totalPredictedSales) ==> v == item.totalPredictedSales.value
    ensures !Truthy(item.totalPredictedSales) && Truthy(item.avgPredictedSales) ==> v == item.avgPredictedSales.value
    ensures !Truthy(item.totalPredictedSales) && !Truthy(item.avgPredictedSales) ==> v == 0
  {
    if Truthy(item.totalPredictedSales) then item.totalPredictedSales.value
    else if Truthy(item.avgPredictedSales) then item.avgPredictedSales.value
    else 0
  }

  /** A category named "seasonality" would overwrite the row's season label. */
  predicate NoSeasonalityCategory(items: seq<SeasonalItem>) {
    forall i :: 0 <= i < |items| ==> items[i].category != "seasonality"
  }

  /** `acc.find(d => d.seasonality === season)`: the first matching row, or -1. */
  function FindSeason(acc: seq<Row>, season: string): (k: int)
    ensures -1 <= k < |acc|
    ensures k >= 0 ==> acc[k].season == season
    ensures forall j :: 0 <= j < |acc| && (k < 0 || j < k) ==> acc[j].season != season
  {
    if |acc| == 0 then -1
    else if acc[0].season == season then 0
    else
      var k := FindSeason(acc[1..], season);
      if k < 0 then -1 else k + 1
  }

  /** `existing[c] = (existing[c] || 0) + v` on a row object. */
  function AddTo(row: Row, c: string, v: int): (r: Row)
    ensures r.season == row.season
    ensures c in r.vals && r.vals[c] == (if c in row.vals then row.vals[c] else 0) + v
    ensures forall d :: d in row.vals && d != c ==> d in r.vals && r.vals[d] == row.vals[d]
  {
    if c in row.vals then Row(row.season, row.cats, row.vals[c := row.vals[c] + v])
    else Row(row.season, row.cats + [c], row.vals[c := v])
  }

  /** The row that `acc.push({seasonality: season, [c]: v})` appends. */
  function NewRow(season: string, c: string, v: int): (r: Row)
    ensures r.season == season && r.cats == [c]
    ensures r.vals.Keys == {c} && r.vals[c] == v
  {
    Row(season, [c], map[c := v])
  }

  /** One step of the reduce: the accumulator after folding in item. */
  function Fold(acc: seq<Row>, item: SeasonalItem): (next: seq<Row>)
    ensures |acc| <= |next| <= |acc| + 1
  {
    var k := FindSeason(acc, SeasonOf(item));
    if k >= 0 then acc[k := AddTo(acc[k], item.category, ValueOf(item))]
    else acc + [NewRow(SeasonOf(item), item.category, ValueOf(item))]
  }

  /** The whole reduce, starting from `[]` and folding items left to right. */
  function PivotOf(items: seq<SeasonalItem>): seq<Row> {
    if |items| == 0 then []
    else Fold(PivotOf(items[..|items| - 1]), items[|items| - 1])
  }

  // ---------------------------------------------------------------------
  // The imperative reduce, proved against PivotOf
  // ---------------------------------------------------------------------

  /** The linear search behind `acc.find`. */
  method FindRow(acc: seq<Row>, season: string) returns (k: int)
    ensures -1 <= k < |acc|
    ensures k >= 0 ==> acc[k].season == season
    ensures forall j :: 0 <= j < |acc| && (k < 0 || j < k) ==> acc[j].season != season
  {
    var i := 0;
    while i < |acc|
      invariant 0 <= i <= |acc|
      invariant forall j :: 0 <= j < i ==> acc[j].season != season
    {
      if acc[i].season == season {
        return i;
      }
      i := i + 1;
    }
    return -1;
  }

  /**
   * The callback of the `reduce`: the accumulator is searched for the
   * item's season row, which is then replaced by the row with the value
   * added, or else grown by a new row. The JavaScript object is mutated in
   * place; here the row is a value.
   */
  method FoldStep(acc: seq<Row>, item: SeasonalItem) returns (next: seq<Row>)
    ensures next == Fold(acc, item)
  {
    var season := SeasonOf(item);
    var v := ValueOf(item);
    var k := FindRow(acc, season);
    assert k == FindSeason(acc, season);
    if k >= 0 {
      var existing := acc[k];
      var updated;
      if item.category in existing.vals {
        updated := Row(existing.season, existing.cats, existing.vals[item.category := existing.vals[item.category] + v]);
      } else {
        updated := Row(existing.season, existing.cats + [item.category], existing.vals[item.category := v]);
      }
      next := acc[k := updated];
    } else {
      next := acc + [Row(season, [item.category], map[item.category := v])];
    }
  }

  /** The `reduce` of Dashboard.js and GoodsVsSeasons.js, starting from `[]`. */
  method Pivot(items: seq<SeasonalItem>) returns (acc: seq<Row>)
    requires NoSeasonalityCategory(items)
    ensures acc == PivotOf(items)
  {
    acc := [];
    var i := 0;
    while i < |items|
      invariant 0 <= i <= |items|
      invariant acc == PivotOf(items[..i])
    {
      acc := FoldStep(acc, items[i]);
      assert items[..i + 1][..i] == items[..i];
      i := i + 1;
    }
    assert items[..|items|] == items;
  }

  // ---------------------------------------------------------------------
  // What the pivot promises
  // ---------------------------------------------------------------------

  /** The season labels of the rows, in row order. */
  function Seasons(rows: seq<Row>): (ss: seq<string>)
    ensures |ss| == |rows|
    ensures forall k :: 0 <= k < |rows| ==> ss[k] == rows[k].season
  {
    seq(|rows|, k requires 0 <= k < |rows| => rows[k].season)
  }

  /** The season label of every input item, in input order. */
  function SeasonList(items: seq<SeasonalItem>): (ss: seq<string>)
    ensures |ss| == |items|
    ensures forall i :: 0 <= i < |items| ==> ss[i] == SeasonOf(items[i])
  {
    seq(|items|, i requires 0 <= i < |items| => SeasonOf(items[i]))
  }

  lemma SeasonListSnoc(items: seq<SeasonalItem>)
    requires |items| > 0
    ensures SeasonList(items) == SeasonList(items[..|items| - 1]) + [SeasonOf(items[|items| - 1])]
  {
  }

  /** A fold step keeps the season labels, adding its item's label when it is new. */
  lemma FoldSeasons(rows: seq<Row>, x: SeasonalItem)
    ensures Seasons(Fold(rows, x)) ==
      if SeasonOf(x) in Seasons(rows) then Seasons(rows) else Seasons(rows) + [SeasonOf(x)]
  {
    var s := SeasonOf(x);
    var k := FindSeason(rows, s);
    if k >= 0 {
      assert s in Seasons(rows);
      assert Seasons(Fold(rows, x)) == Seasons(rows);
    } else {
      assert s !in Seasons(rows);
      assert Seasons(Fold(rows, x)) == Seasons(rows) + [s];
    }
  }

  /**
   * The rows are the distinct season labels of the input, each once, in the
   * order in which each label is first seen.
   */
  lemma {:induction false} PivotSeasons(items: seq<SeasonalItem>)
    ensures Seasons(PivotOf(items)) == Dedup(SeasonList(items))
  {
    if |items| > 0 {
      var p := items[..|items| - 1];
      var x := items[|items| - 1];
      PivotSeasons(p);
      SeasonListSnoc(items);
      FoldSeasons(PivotOf(p), x);
      DedupSnoc(SeasonList(p), SeasonOf(x));
    }
  }

  /** Empty input gives no rows. */
  lemma PivotEmpty()
    ensures PivotOf([]) == []
  {
  }

  /**
   * One row per distinct season label: no label twice, every label of the
   * input present, as many rows as distinct labels, and rows ordered by the
   * position where their label first occurs in the input.
   */
  lemma PivotOneRowPerSeason(items: seq<SeasonalItem>)
    ensures var rows := PivotOf(items);
      && (forall j, k :: 0 <= j < k < |rows| ==> rows[j].season != rows[k].season)
      && (forall s :: s in Seasons(rows) <==> s in SeasonList(items))
      && |rows| == |Elems(SeasonList(items))|
      && (forall j, k :: 0 <= j < k < |rows| ==>
            IndexOf(SeasonList(items), rows[j].season) < IndexOf(SeasonList(items), rows[k].season))
  {
    var rows := PivotOf(items);
    var sl := SeasonList(items);
    PivotSeasons(items);
    assert Seasons(rows) == Dedup(sl);
    DistinctCard(Dedup(sl));
    assert Elems(Dedup(sl)) == Elems(sl);
    forall j, k | 0 <= j < k < |rows|
      ensures IndexOf(sl, rows[j].season) < IndexOf(sl, rows[k].season)
    {
      DedupFirstSeenOrder(sl, j, k);
    }
  }

  /** Categories of the items whose season label is s, in input order. */
  function CatsIn(items: seq<SeasonalItem>, s: string): seq<string> {
    if |items| == 0 then []
    else
      var x := items[|items| - 1];
      CatsIn(items[..|items| - 1], s) + if SeasonOf(x) == s then [x.category] else []
  }

  /** Sum of the values of the items with season label s and category c. */
  function CellSum(items: seq<SeasonalItem>, s: string, c: string): int {
    if |items| == 0 then 0
    else
      var x := items[|items| - 1];
      CellSum(items[..|items| - 1], s, c) + if SeasonOf(x) == s && x.category == c then ValueOf(x) else 0
  }

  /** c is a category of some item with season label s exactly when it is in CatsIn. */
  lemma {:induction false} CatsInMember(items: seq<SeasonalItem>, s: string, c: string)
    ensures c in CatsIn(items, s) <==> exists i :: 0 <= i < |items| && SeasonOf(items[i]) == s && items[i].category == c
  {
    if |items| > 0 {
      var p := items[..|items| - 1];
      CatsInMember(p, s, c);
      assert forall i :: 0 <= i < |p| ==> p[i] == items[i];
    }
  }

  /** A season label that no item carries has no categories and no sums. */
  lemma {:induction false} UnseenSeason(items: seq<SeasonalItem>, s: string)
    requires s !in SeasonList(items)
    ensures CatsIn(items, s) == []
    ensures forall c :: CellSum(items, s, c) == 0
  {
    if |items| > 0 {
      SeasonListSnoc(items);
      UnseenSeason(items[..|items| - 1], s);
    }
  }

  /** A category that never occurs with season s sums to 0 there. */
  lemma {:induction false} AbsentCellIsZero(items: seq<SeasonalItem>, s: string, c: string)
    requires c !in CatsIn(items, s)
    ensures CellSum(items, s, c) == 0
  {
    if |items| > 0 {
      AbsentCellIsZero(items[..|items| - 1], s, c);
    }
  }

  /** Row r holds exactly the (season, category) sums of items for its season. */
  ghost predicate RowMatches(r: Row, items: seq<SeasonalItem>) {
    && r.cats == Dedup(CatsIn(items, r.season))
    && (forall c :: c in r.vals <==> c in r.cats)
    && (forall c :: c in r.vals ==> r.vals[c] == CellSum(items, r.season, c))
  }

  lemma CatsInSnoc(p: seq<SeasonalItem>, x: SeasonalItem, s: string)
    ensures CatsIn(p + [x], s) == CatsIn(p, s) + if SeasonOf(x) == s then [x.category] else []
  {
    assert (p + [x])[..|p|] == p;
  }

  lemma CellSumSnoc(p: seq<SeasonalItem>, x: SeasonalItem, s: string, c: string)
    ensures CellSum(p + [x], s, c) == CellSum(p, s, c) + if SeasonOf(x) == s && x.category == c then ValueOf(x) else 0
  {
    assert (p + [x])[..|p|] == p;
  }

  /** A row of another season is not affected by x. */
  lemma RowMatchesOther(r: Row, p: seq<SeasonalItem>, x: SeasonalItem)
    requires RowMatches(r, p) && r.season != SeasonOf(x)
    ensures RowMatches(r, p + [x])
  {
    CatsInSnoc(p, x, r.season);
    forall c | c in r.vals
      ensures r.vals[c] == CellSum(p + [x], r.season, c)
    {
      CellSumSnoc(p, x, r.season, c);
    }
    assert CatsIn(p + [x], r.season) == CatsIn(p, r.season) + [] == CatsIn(p, r.season);
  }

  lemma RowAddKeys(r: Row, p: seq<SeasonalItem>, x: SeasonalItem)
    requires RowMatches(r, p) && r.season == SeasonOf(x)
    ensures var r' := AddTo(r, x.category, ValueOf(x));
      && r'.cats == Dedup(CatsIn(p + [x], r.season))
      && (forall d :: d in r'.vals <==> d in r'.cats)
  {
    var c := x.category;
    CatsInSnoc(p, x, r.season);
    DedupSnoc(CatsIn(p, r.season), c);
    assert c in r.vals <==> c in Dedup(CatsIn(p, r.season));
  }

  lemma RowAddValue(r: Row, p: seq<SeasonalItem>, x: SeasonalItem, d: string)
    requires RowMatches(r, p) && r.season == SeasonOf(x)
    requires d in AddTo(r, x.category, ValueOf(x)).vals
    ensures AddTo(r, x.category, ValueOf(x)).vals[d] == CellSum(p + [x], r.season, d)
  {
    var c := x.category;
    CellSumSnoc(p, x, r.season, d);
    if d == c && c !in r.vals {
      AbsentCellIsZero(p, r.season, c);
    }
  }

  /** The row of x's season absorbs x's value under x's category. */
  lemma RowMatchesAdd(r: Row, p: seq<SeasonalItem>, x: SeasonalItem)
    requires RowMatches(r, p) && r.season == SeasonOf(x)
    ensures RowMatches(AddTo(r, x.category, ValueOf(x)), p + [x])
  {
    RowAddKeys(r, p, x);
    forall d | d in AddTo(r, x.category, ValueOf(x)).vals
      ensures AddTo(r, x.category, ValueOf(x)).vals[d] == CellSum(p + [x], r.season, d)
    {
      RowAddValue(r, p, x, d);
    }
  }

  /** A season seen for the first time gets a row holding x alone. */
  lemma RowMatchesNew(p: seq<SeasonalItem>, x: SeasonalItem)
    requires SeasonOf(x) !in SeasonList(p)
    ensures RowMatches(NewRow(SeasonOf(x), x.category, ValueOf(x)), p + [x])
  {
    UnseenSeason(p, SeasonOf(x));
    CatsInSnoc(p, x, SeasonOf(x));
    CellSumSnoc(p, x, SeasonOf(x), x.category);
    DedupSnoc([], x.category);
    assert CatsIn(p + [x], SeasonOf(x)) == [] + [x.category];
  }

  /** A fold step keeps every row in agreement with the items folded so far. */
  lemma FoldCells(rows: seq<Row>, p: seq<SeasonalItem>, x: SeasonalItem)
    requires Seasons(rows) == Dedup(SeasonList(p))
    requires forall k :: 0 <= k < |rows| ==> RowMatches(rows[k], p)
    ensures forall k :: 0 <= k < |Fold(rows, x)| ==> RowMatches(Fold(rows, x)[k], p + [x])
  {
    var s := SeasonOf(x);
    var k := FindSeason(rows, s);
    var out := Fold(rows, x);
    forall j | 0 <= j < |out|
      ensures RowMatches(out[j], p + [x])
    {
      if j < |rows| && rows[j].season != s {
        RowMatchesOther(rows[j], p, x);
      } else if j < |rows| {
        assert Seasons(rows)[j] == s && Seasons(rows)[k] == s;
        assert j == k;
        RowMatchesAdd(rows[k], p, x);
      } else {
        assert s !in Seasons(rows);
        RowMatchesNew(p, x);
      }
    }
  }

  /**
   * Every cell of the pivot is the sum of the input values for its season
   * and category; a (season, category) pair that never occurs has no key;
   * the category keys of a row are in the order they first occur for that
   * season.
   */
  lemma {:induction false} PivotCells(items: seq<SeasonalItem>)
    ensures forall k :: 0 <= k < |PivotOf(items)| ==> RowMatches(PivotOf(items)[k], items)
  {
    if |items| > 0 {
      var p := items[..|items| - 1];
      var x := items[|items| - 1];
      PivotCells(p);
      PivotSeasons(p);
      assert p + [x] == items;
      assert PivotOf(items) == Fold(PivotOf(p), x);
      FoldCells(PivotOf(p), p, x);
    }
  }

  /** How much row r holds for category c; an absent key counts as 0. */
  function Amount(r: Row, c: string): int {
    if c in r.vals then r.vals[c] else 0
  }

  /** Sum over the rows of their amount for category c. */
  function RowsTotal(rows: seq<Row>, c: string): int {
    if |rows| == 0 then 0 else RowsTotal(rows[..|rows| - 1], c) + Amount(rows[|rows| - 1], c)
  }

  /** Sum of the values of all items of category c, whatever their season. */
  function CategoryTotal(items: seq<SeasonalItem>, c: string): int {
    if |items| == 0 then 0
    else
      var x := items[|items| - 1];
      CategoryTotal(items[..|items| - 1], c) + if x.category == c then ValueOf(x) else 0
  }

  /** Replacing one row changes the total by the difference of the two rows. */
  lemma {:induction false} RowsTotalUpdate(rows: seq<Row>, k: nat, r: Row, c: string)
    requires k < |rows|
    ensures RowsTotal(rows[k := r], c) == RowsTotal(rows, c) - Amount(rows[k], c) + Amount(r, c)
  {
    var n := |rows|;
    if k < n - 1 {
      assert rows[k := r][..n - 1] == rows[..n - 1][k := r];
      RowsTotalUpdate(rows[..n - 1], k, r, c);
    } else {
      assert rows[k := r][..n - 1] == rows[..n - 1];
    }
  }

  /** Folding one item adds its value to its own category's total and to no other. */
  lemma FoldTotal(acc: seq<Row>, x: SeasonalItem, c: string)
    ensures RowsTotal(Fold(acc, x), c) == RowsTotal(acc, c) + if x.category == c then ValueOf(x) else 0
  {
    var k := FindSeason(acc, SeasonOf(x));
    if k >= 0 {
      RowsTotalUpdate(acc, k, AddTo(acc[k], x.category, ValueOf(x)), c);
    } else {
      var out := Fold(acc, x);
      assert out[..|out| - 1] == acc;
    }
  }

  /**
   * Summation is lossless: for every category, the amounts of all rows add
   * up to the values of all input items of that category.
   */
  lemma {:induction false} PivotPreservesCategoryTotals(items: seq<SeasonalItem>, c: string)
    ensures RowsTotal(PivotOf(items), c) == CategoryTotal(items, c)
  {
    if |items| > 0 {
      PivotPreservesCategoryTotals(items[..|items| - 1], c);
      FoldTotal(PivotOf(items[..|items| - 1]), items[|items| - 1], c);
    }
  }

  /**
   * Folding one item changes at most the row of its season, and in that row
   * only the entry of its category; when no row has its season, one new row
   * is appended and the old ones are kept.
   */
  lemma FoldTouchesOneCell(acc: seq<Row>, x: SeasonalItem)
    ensures var out := Fold(acc, x);
      var k := FindSeason(acc, SeasonOf(x));
      && (k >= 0 ==> |out| == |acc|)
      && (k < 0 ==> |out| == |acc| + 1 && out[..|acc|] == acc
                    && out[|acc|] == NewRow(SeasonOf(x), x.category, ValueOf(x)))
      && (forall j :: 0 <= j < |acc| && j != k ==> out[j] == acc[j])
      && (k >= 0 ==>
            && out[k].season == acc[k].season
            && out[k].vals.Keys == acc[k].vals.Keys + {x.category}
            && out[k].vals[x.category] == Amount(acc[k], x.category) + ValueOf(x)
            && (forall c :: c in acc[k].vals && c != x.category ==> out[k].vals[c] == acc[k].vals[c]))
  {
  }

  /** The example of the seasonal-analysis contract, with a zero total falling back to the average. */
  lemma PivotExample()
    ensures PivotOf([
      SeasonalItem("Toys", Some("Summer"), Some(10), None),
      SeasonalItem("Toys", Some("Summer"), Some(5), None),
      SeasonalItem("Books", Some("Winter"), Some(0), Some(3))])
      == [Row("Summer", ["Toys"], map["Toys" := 15]), Row("Winter", ["Books"], map["Books" := 3])]
  {
    var a := SeasonalItem("Toys", Some("Summer"), Some(10), None);
    var b := SeasonalItem("Toys", Some("Summer"), Some(5), None);
    var c := SeasonalItem("Books", Some("Winter"), Some(0), Some(3));
    var r1 := [Row("Summer", ["Toys"], map["Toys" := 10])];
    var r2 := [Row("Summer", ["Toys"], map["Toys" := 15])];
    assert [a, b, c][..2] == [a, b];
    assert [a, b][..1] == [a];
    assert [a][..0] == [];
    assert PivotOf([a]) == r1 by {
      assert FindSeason([], "Summer") == -1;
    }
    assert PivotOf([a, b]) == r2 by {
      assert FindSeason(r1, "Summer") == 0;
      assert map["Toys" := 10]["Toys" := 15] == map["Toys" := 15];
    }
    assert ValueOf(c) == 3;
    assert FindSeason(r2, "Winter") == -1 by {
      assert r2[1..] == [];
    }
  }

  // ---------------------------------------------------------------------
  // The category keys of the chart
  // ---------------------------------------------------------------------

  /** `Object.keys(row)`: the season label key first, then the categories. */
  function RowKeys(r: Row): (keys: seq<string>)
    ensures forall c :: c in keys <==> c == "seasonality" || c in r.cats
  {
    ["seasonality"] + r.cats
  }

  /** `keys.filter(key => key !== 'seasonality')`. */
  function WithoutSeasonality(keys: seq<string>): (r: seq<string>)
    ensures forall c :: c in r <==> c in keys && c != "seasonality"
  {
    if |keys| == 0 then []
    else
      var last := keys[|keys| - 1];
      WithoutSeasonality(keys[..|keys| - 1]) + if last != "seasonality" then [last] else []
  }

  /** `seasonalData.map(item => Object.keys(item)).flat()`. */
  function AllKeys(rows: seq<Row>): (keys: seq<string>)
    ensures forall c :: c in keys <==> exists k :: 0 <= k < |rows| && c in RowKeys(rows[k])
  {
    var ss := seq(|rows|, k requires 0 <= k < |rows| => RowKeys(rows[k]));
    assert forall c :: c in Flatten(ss) <==> exists k :: 0 <= k < |rows| && c in RowKeys(rows[k]) by {
      forall c
        ensures c in Flatten(ss) <==> exists k :: 0 <= k < |rows| && c in RowKeys(rows[k])
      {
        FlattenMember(ss, c);
        assert forall k :: 0 <= k < |rows| ==> ss[k] == RowKeys(rows[k]);
      }
    }
    Flatten(ss)
  }

  lemma {:induction false} FlattenMember(ss: seq<seq<string>>, c: string)
    ensures c in Flatten(ss) <==> exists k :: 0 <= k < |ss| && c in ss[k]
  {
    if |ss| > 0 {
      var p := ss[..|ss| - 1];
      FlattenMember(p, c);
      assert forall k :: 0 <= k < |p| ==> p[k] == ss[k];
    }
  }

  /**
   * `[...new Set(...filter(key => key !== 'seasonality'))]`: the category
   * keys of all rows, each once, never "seasonality", and each a category key
   * of some row.
   */
  function CategoryKeys(rows: seq<Row>): (cats: seq<string>)
    ensures Distinct(cats)
    ensures "seasonality" !in cats
    ensures forall c :: c in cats <==> c != "seasonality" && exists k :: 0 <= k < |rows| && c in rows[k].cats
  {
    Dedup(WithoutSeasonality(AllKeys(rows)))
  }

  /** The category keys are listed in the order of their first appearance. */
  lemma CategoryKeysFirstSeen(rows: seq<Row>, i: nat, j: nat)
    requires i < j < |CategoryKeys(rows)|
    ensures var keys := WithoutSeasonality(AllKeys(rows));
      IndexOf(keys, CategoryKeys(rows)[i]) < IndexOf(keys, CategoryKeys(rows)[j])
  {
    DedupFirstSeenOrder(WithoutSeasonality(AllKeys(rows)), i, j);
  }

  /** Each category key of a pivot row is the category of some input item. */
  lemma RowCategoryOccurs(items: seq<SeasonalItem>, k: nat, c: string)
    requires k < |PivotOf(items)| && c in PivotOf(items)[k].cats
    ensures exists i :: 0 <= i < |items| && items[i].category == c
  {
    PivotCells(items);
    var r := PivotOf(items)[k];
    assert RowMatches(r, items);
    assert c in CatsIn(items, r.season);
    CatsInMember(items, r.season, c);
  }

  /** The category of each input item is a key of the row of its season. */
  lemma ItemCategoryInRow(items: seq<SeasonalItem>, i: nat)
    requires i < |items|
    ensures exists k :: 0 <= k < |PivotOf(items)| && items[i].category in PivotOf(items)[k].cats
  {
    var rows := PivotOf(items);
    var s := SeasonOf(items[i]);
    var c := items[i].category;
    PivotSeasons(items);
    assert s in SeasonList(items);
    assert s in Seasons(rows);
    var k :| 0 <= k < |rows| && Seasons(rows)[k] == s;
    PivotCells(items);
    assert RowMatches(rows[k], items);
    CatsInMember(items, s, c);
    assert c in CatsIn(items, s);
    assert c in rows[k].cats;
  }

  /**
   * No category is dropped: the chart gets one bar key for exactly the
   * categories that occur in the input.
   */
  lemma PivotCategories(items: seq<SeasonalItem>)
    requires NoSeasonalityCategory(items)
    ensures forall c :: c in CategoryKeys(PivotOf(items)) <==> exists i :: 0 <= i < |items| && items[i].category == c
  {
    var rows := PivotOf(items);
    forall c
      ensures c in CategoryKeys(rows) <==> exists i :: 0 <= i < |items| && items[i].category == c
    {
      if c in CategoryKeys(rows) {
        var k :| 0 <= k < |rows| && c in rows[k].cats;
        RowCategoryOccurs(items, k, c);
      }
      if i :| 0 <= i < |items| && items[i].category == c {
        ItemCategoryInRow(items, i);
      }
    }
  }
}
