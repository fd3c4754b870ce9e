/**
 * The `import_data` management command: the rows of a market-data CSV file
 * become MarketData records, created in batches of 1000 in file order, with
 * a progress count reported after each batch.
 */
module ImportData {
  import opened Common

  /** Rows per `bulk_create` call. */
  const BatchSize: nat := 1000

  /** The CSV columns the command reads, one per record field. */
  const Columns: seq<string> := [
    "Date", "Store ID", "Product ID", "Category", "Region",
    "Inventory Level", "Units Sold", "Units Ordered", "Demand Forecast",
    "Price", "Discount", "Weather Condition", "Holiday/Promotion",
    "Competitor Pricing", "Seasonality"]

  /** A row of the CSV file: each column's cell, as text. */
  type CsvRow = map<string, string>

  /** The fields of a MarketData record, as the command fills them. */
  datatype MarketData = MarketData(
    date: string,
    storeId: string,
    productId: string,
    category: string,
    region: string,
    inventoryLevel: string,
    unitsSold: string,
    unitsOrdered: string,
    demandForecast: string,
    price: string,
    discount: string,
    weatherCondition: string,
    holidayPromotion: string,
    competitorPricing: string,
    seasonality: string)

  /** The row has every column the command reads. */
  predicate HasColumns(columns: set<string>) {
    forall i :: 0 <= i < |Columns| ==> Columns[i] in columns
  }

  /** The cell of column c; a row without that column yields "" here (the command raises before reading it). */
  function Cell(row: CsvRow, c: string): string {
    if c in row then row[c] else ""
  }

  /** The record the command builds from one row. */
  function ToRecord(row: CsvRow): MarketData {
    MarketData(
      date := Cell(row, "Date"),
      storeId := Cell(row, "Store ID"),
      productId := Cell(row, "Product ID"),
      category := Cell(row, "Category"),
      region := Cell(row, "Region"),
      inventoryLevel := Cell(row, "Inventory Level"),
      unitsSold := Cell(row, "Units Sold"),
      unitsOrdered := Cell(row, "Units Ordered"),
      demandForecast := Cell(row, "Demand Forecast"),
      price := Cell(row, "Price"),
      discount := Cell(row, "Discount"),
      weatherCondition := Cell(row, "Weather Condition"),
      holidayPromotion := Cell(row, "Holiday/Promotion"),
      competitorPricing := Cell(row, "Competitor Pricing"),
      seasonality := Cell(row, "Seasonality"))
  }

  /** The record's fields listed in the order of Columns. */
  function FieldValues(r: MarketData): (vs: seq<string>)
    ensures |vs| == |Columns|
  {
    [r.date, r.storeId, r.productId, r.category, r.region,
     r.inventoryLevel, r.unitsSold, r.unitsOrdered, r.demandForecast,
     r.price, r.discount, r.weatherCondition, r.holidayPromotion,
     r.competitorPricing, r.seasonality]
  }

  /** Each field of the record is the cell of the column of the same name. */
  lemma RecordFields(row: CsvRow, i: nat)
    requires HasColumns(row.Keys) && i < |Columns|
    ensures FieldValues(ToRecord(row))[i] == row[Columns[i]]
  {
  }

  /** Nothing but the fifteen columns is read: rows that agree on them give the same record. */
  lemma RecordReadsOnlyColumns(a: CsvRow, b: CsvRow)
    requires forall i :: 0 <= i < |Columns| ==> Cell(a, Columns[i]) == Cell(b, Columns[i])
    ensures ToRecord(a) == ToRecord(b)
  {
    assert Columns[0] == "Date" && Columns[1] == "Store ID" && Columns[2] == "Product ID";
    assert Columns[3] == "Category" && Columns[4] == "Region" && Columns[5] == "Inventory Level";
    assert Columns[6] == "Units Sold" && Columns[7] == "Units Ordered" && Columns[8] == "Demand Forecast";
    assert Columns[9] == "Price" && Columns[10] == "Discount" && Columns[11] == "Weather Condition";
    assert Columns[12] == "Holiday/Promotion" && Columns[13] == "Competitor Pricing" && Columns[14] == "Seasonality";
  }

  /** The records of a sequence of rows, in order: the k-th is built from the k-th row. */
  function Records(rows: seq<CsvRow>): (rs: seq<MarketData>)
    ensures |rs| == |rows|
  {
    seq(|rows|, k requires 0 <= k < |rows| => ToRecord(rows[k]))
  }

  /** The records of a range of rows are that range of the records. */
  lemma RecordsSlice(rows: seq<CsvRow>, lo: nat, hi: nat)
    requires lo <= hi <= |rows|
    ensures Records(rows[lo..hi]) == Records(rows)[lo..hi]
  {
    assert forall k :: 0 <= k < hi - lo ==> Records(rows[lo..hi])[k] == Records(rows)[lo..hi][k];
  }

  function Min(a: int, b: int): int {
    if a < b then a else b
  }

  /** The number of batches for total rows: total / BatchSize rounded up. */
  function NumBatches(total: nat): nat {
    (total + BatchSize - 1) / BatchSize
  }

  /** The first row of the k-th batch. */
  function BatchStart(k: nat): nat {
    k * BatchSize
  }

  /** One past the last row of the k-th batch: `min(start + 1000, total)`. */
  function BatchEnd(total: nat, k: nat): nat {
    Min(BatchStart(k) + BatchSize, total)
  }

  /**
   * The k-th batch starts strictly below the row count, holds between 1 and
   * 1000 rows, and ends where the next begins; the last ends at the total.
   */
  lemma BatchShape(total: nat, k: nat)
    requires k < NumBatches(total)
    ensures BatchStart(k) < BatchEnd(total, k) <= total
    ensures BatchEnd(total, k) - BatchStart(k) <= BatchSize
    ensures BatchStart(k + 1) == BatchStart(k) + BatchSize
    ensures k + 1 < NumBatches(total) ==> BatchEnd(total, k) == BatchStart(k + 1) < total
    ensures k + 1 == NumBatches(total) ==> BatchEnd(total, k) == total <= BatchStart(k + 1)
  {
  }

  /** There are no batches exactly when there are no rows. */
  lemma NoRowsNoBatches(total: nat)
    ensures NumBatches(total) == 0 <==> total == 0
  {
    if total > 0 {
      assert total + BatchSize - 1 >= BatchSize;
    }
  }

  /** The k-th batch of xs: `xs[k * 1000 : min(k * 1000 + 1000, total)]`. */
  function BatchRows<T>(xs: seq<T>, k: nat): (batch: seq<T>)
    requires k < NumBatches(|xs|)
    ensures 1 <= |batch| <= BatchSize
  {
    BatchShape(|xs|, k);
    xs[BatchStart(k)..BatchEnd(|xs|, k)]
  }

  /** The first n batches of xs, in the order they are created. */
  function Batches<T>(xs: seq<T>, n: nat): (bs: seq<seq<T>>)
    requires n <= NumBatches(|xs|)
    ensures |bs| == n
  {
    if n == 0 then [] else Batches(xs, n - 1) + [BatchRows(xs, n - 1)]
  }

  /** The counts reported after each of the first n batches. */
  function ProgressList(total: nat, n: nat): (ps: seq<nat>)
    ensures |ps| == n
    ensures forall j :: 0 <= j < n ==> ps[j] <= total
  {
    if n == 0 then [] else ProgressList(total, n - 1) + [BatchEnd(total, n - 1)]
  }

  /** The k-th of the first n batches is the k-th slice. */
  lemma {:induction false} BatchesAt<T>(xs: seq<T>, n: nat, k: nat)
    requires k < n <= NumBatches(|xs|)
    ensures Batches(xs, n)[k] == BatchRows(xs, k)
  {
    if k < n - 1 {
      BatchesAt(xs, n - 1, k);
    }
  }

  /** The k-th reported count is the end of the k-th batch. */
  lemma {:induction false} ProgressListAt(total: nat, n: nat, k: nat)
    requires k < n
    ensures ProgressList(total, n)[k] == BatchEnd(total, k)
  {
    if k < n - 1 {
      ProgressListAt(total, n - 1, k);
    }
  }

  /** Concatenating a sequence of sequences grown by one. */
  lemma FlattenSnoc<T>(ss: seq<seq<T>>, s: seq<T>)
    ensures Flatten(ss + [s]) == Flatten(ss) + s
  {
    assert (ss + [s])[..|ss|] == ss;
  }

  /** A prefix of xs followed by the next slice is the longer prefix. */
  lemma FlattenPrefixStep<T>(xs: seq<T>, prev: seq<seq<T>>, lo: nat, hi: nat)
    requires lo <= hi <= |xs|
    requires Flatten(prev) == xs[..lo]
    ensures Flatten(prev + [xs[lo..hi]]) == xs[..hi]
  {
    FlattenSnoc(prev, xs[lo..hi]);
    assert xs[..hi] == xs[..lo] + xs[lo..hi];
  }

  /** The first n batches together are the prefix of xs they cover. */
  lemma {:induction false} FlattenBatches<T>(xs: seq<T>, n: nat)
    requires 0 < n <= NumBatches(|xs|)
    ensures Flatten(Batches(xs, n)) == xs[..BatchEnd(|xs|, n - 1)]
  {
    var total := |xs|;
    BatchShape(total, n - 1);
    var lo, hi := BatchStart(n - 1), BatchEnd(total, n - 1);
    if n > 1 {
      FlattenBatches(xs, n - 1);
      BatchShape(total, n - 2);
    }
    assert Batches(xs, n) == Batches(xs, n - 1) + [xs[lo..hi]];
    FlattenPrefixStep(xs, Batches(xs, n - 1), lo, hi);
  }

  /** All batches together are xs itself: every element once, in order. */
  lemma AllBatchesCover<T>(xs: seq<T>)
    ensures Flatten(Batches(xs, NumBatches(|xs|))) == xs
  {
    var n := NumBatches(|xs|);
    NoRowsNoBatches(|xs|);
    if n == 0 {
      assert xs == [];
    } else {
      FlattenBatches(xs, n);
      BatchShape(|xs|, n - 1);
    }
  }

  /** The k-th batch of records is the records of the k-th batch of rows. */
  lemma BatchOfRecords(rows: seq<CsvRow>, k: nat)
    requires k < NumBatches(|rows|)
    ensures BatchRows(Records(rows), k) == Records(BatchRows(rows, k))
  {
    BatchShape(|rows|, k);
    RecordsSlice(rows, BatchStart(k), BatchEnd(|rows|, k));
  }

  /**
   * The records of one batch, `rows[lo:hi]`, built row by row. Reading a
   * cell of a column the file lacks raises KeyError at the first row, so ok
   * is false exactly when the batch is non-empty and a column is missing.
   */
  method BuildBatch(columns: set<string>, rows: seq<CsvRow>, lo: nat, hi: nat)
    returns (objects: seq<MarketData>, ok: bool)
    requires lo <= hi <= |rows|
    ensures ok <==> lo == hi || HasColumns(columns)
    ensures ok ==> objects == Records(rows)[lo..hi]
  {
    objects := [];
    var j := lo;
    while j < hi
      invariant lo <= j <= hi
      invariant j > lo ==> HasColumns(columns)
      invariant objects == Records(rows)[lo..j]
    {
      if !HasColumns(columns) {
        return objects, false;
      }
      objects := objects + [ToRecord(rows[j])];
      assert Records(rows)[lo..j + 1] == Records(rows)[lo..j] + [Records(rows)[j]];
      j := j + 1;
    }
    ok := true;
  }

  /**
   * The command run on a file whose header has the given column names (the
   * keys of every row). It yields the batches passed to `bulk_create`, in
   * call order, the count reported after each, and whether it finished
   * (false when a missing column raised KeyError, which the catch-all
   * handler reports).
   */
  method Import(columns: set<string>, rows: seq<CsvRow>)
    returns (batches: seq<seq<MarketData>>, progress: seq<nat>, ok: bool)
    ensures ok <==> "Date" in columns && (|rows| == 0 || HasColumns(columns))
    ensures !ok ==> batches == [] && progress == []
    ensures ok ==> batches == Batches(Records(rows), NumBatches(|rows|))
    ensures ok ==> progress == ProgressList(|rows|, NumBatches(|rows|))
  {
    batches, progress := [], [];
    if "Date" !in columns {
      return batches, progress, false;
    }
    var total := |rows|;
    var i := 0;
    while i < total
      invariant |batches| <= NumBatches(total)
      invariant i == BatchStart(|batches|)
      invariant i < total <==> |batches| < NumBatches(total)
      invariant batches == Batches(Records(rows), |batches|)
      invariant progress == ProgressList(total, |batches|)
      invariant |batches| > 0 ==> HasColumns(columns)
    {
      BatchShape(total, |batches|);
      var hi := Min(i + BatchSize, total);
      var objects, built := BuildBatch(columns, rows, i, hi);
      if !built {
        // No batch was created before: the first batch already failed.
        return [], [], false;
      }
      assert objects == BatchRows(Records(rows), |batches|);
      batches := batches + [objects];
      progress := progress + [hi];
      i := i + BatchSize;
    }
    ok := true;
  }

  /** After the last batch the reported count is the row count. */
  lemma LastProgressIsTotal(total: nat)
    requires total > 0
    ensures BatchEnd(total, NumBatches(total) - 1) == total
  {
    BatchShape(total, NumBatches(total) - 1);
  }
}
