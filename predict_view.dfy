/**
 * The prediction endpoint's feature-row assembly: a row of zeros over the
 * trained model's columns, the nine numeric request fields written into it
 * (with their defaults), and the one-hot store and product indicators set
 * when the request names a store or product the model knows. The response
 * carries the prediction under a single key.
 */
module PredictView {
  import opened Common
  import opened JsText

  /** The numeric columns in the order the view writes them. */
  const NumericColumns: seq<string> := [
    "Inventory Level", "Units Ordered", "Demand Forecast", "Price",
    "Discount", "Competitor Pricing", "Day", "Month", "Year"]

  /** The value the view uses for the i-th numeric column when the request lacks it. */
  const NumericDefaults: seq<int> := [0, 0, 0, 0, 0, 0, 1, 1, 2025]

  /** The model's one-row input: its column names in order and each column's value. */
  datatype FeatureRow = FeatureRow(cols: seq<string>, vals: map<string, real>)

  /** A row of zeros over the given columns. */
  function Zeros(columns: seq<string>): (row: FeatureRow)
    ensures row.cols == columns
    ensures forall c :: c in row.vals <==> c in columns
    ensures forall c :: c in row.vals ==> row.vals[c] == 0.0
  {
    FeatureRow(columns, map c | c in columns :: 0.0)
  }

  /**
   * Assigning a whole column: the column takes the value, and a name that
   * is not yet a column is appended as a new last column.
   */
  function Assign(row: FeatureRow, name: string, value: real): FeatureRow {
    FeatureRow(if name in row.cols then row.cols else row.cols + [name], row.vals[name := value])
  }

  /** `data.get(key, default)`. */
  function Get(data: map<string, Json>, key: string, default: Json): (v: Json)
    ensures key in data ==> v == data[key]
    ensures key !in data ==> v == default
  {
    if key in data then data[key] else default
  }

  /**
   * Python `float(v)`: an integer converts exactly; text goes through the
   * string parser, which fails (None) on text that is not a number.
   */
  function ToFloat(v: Json, parseFloat: string -> Option<real>): (r: Option<real>)
    ensures v.JNumber? ==> r == Some(v.n as real)
    ensures v.JString? ==> r == parseFloat(v.s)
  {
    match v
    case JNumber(n) => Some(n as real)
    case JString(s) => parseFloat(s)
  }

  /** Python truthiness of a request value. */
  predicate Truthy(v: Json) {
    match v
    case JString(s) => s != ""
    case JNumber(n) => n != 0
  }

  /** The text an f-string gives for a request value. */
  function Format(v: Json): (s: string)
    ensures v.JString? ==> s == v.s
    ensures v.JNumber? ==> ParseIntDecimal(s) == Some(v.n)
  {
    match v
    case JString(s) => s
    case JNumber(n) => IntToString(n)
  }

  /** The value written into the i-th numeric column, or None when float() fails. */
  function NumericValue(data: map<string, Json>, i: nat, parseFloat: string -> Option<real>): Option<real>
    requires i < |NumericColumns|
  {
    ToFloat(Get(data, NumericColumns[i], JNumber(NumericDefaults[i])), parseFloat)
  }

  function StoreId(data: map<string, Json>): Json {
    Get(data, "Store ID", JString(""))
  }

  function ProductId(data: map<string, Json>): Json {
    Get(data, "Product ID", JString(""))
  }

  function StoreColumn(data: map<string, Json>): string {
    "Store ID_" + Format(StoreId(data))
  }

  function ProductColumn(data: map<string, Json>): string {
    "Product ID_" + Format(ProductId(data))
  }

  /** The indicator columns the view sets to 1: at most one store and one product. */
  function Indicators(columns: seq<string>, data: map<string, Json>): (ones: set<string>)
    ensures forall c :: c in ones ==> c in columns
    ensures |ones| <= 2
    ensures !Truthy(StoreId(data)) && !Truthy(ProductId(data)) ==> ones == {}
  {
    (if Truthy(StoreId(data)) && StoreColumn(data) in columns then {StoreColumn(data)} else {})
    + (if Truthy(ProductId(data)) && ProductColumn(data) in columns then {ProductColumn(data)} else {})
  }

  /** The numeric names among names that columns lacks, in order. */
  function MissingFrom(columns: seq<string>, names: seq<string>): seq<string> {
    if |names| == 0 then []
    else
      var last := names[|names| - 1];
      MissingFrom(columns, names[..|names| - 1]) + if last in columns then [] else [last]
  }

  /** The appended columns are exactly the names that columns lacks. */
  lemma {:induction false} MissingFromMembers(columns: seq<string>, names: seq<string>)
    ensures forall x :: x in MissingFrom(columns, names) <==> x in names && x !in columns
  {
    if |names| > 0 {
      var last := names[|names| - 1];
      MissingFromMembers(columns, names[..|names| - 1]);
      assert forall x :: x in names <==> x in names[..|names| - 1] || x == last;
    }
  }

  /**
   * row is a row of zeros over columns on which each of names, in turn, was
   * assigned the matching entry of vals, and then each column in ones was
   * assigned 1.
   */
  ghost predicate Filled(row: FeatureRow, columns: seq<string>, names: seq<string>, vals: seq<real>, ones: set<string>) {
    && |names| == |vals|
    && row.cols == columns + MissingFrom(columns, names)
    && row.vals.Keys == Elems(row.cols)
    && (forall j :: 0 <= j < |names| ==> names[j] in row.vals && row.vals[names[j]] == vals[j])
    && (forall c :: c in ones ==> c in row.vals && row.vals[c] == 1.0)
    && (forall c :: c in columns && c !in names && c !in ones ==> c in row.vals && row.vals[c] == 0.0)
  }

  lemma ZerosFilled(columns: seq<string>)
    ensures Filled(Zeros(columns), columns, [], [], {})
  {
  }

  /** The column list and key set after assigning a column that has not been assigned yet. */
  lemma AssignNextShape(row: FeatureRow, columns: seq<string>, names: seq<string>, name: string, v: real)
    requires row.cols == columns + MissingFrom(columns, names) && row.vals.Keys == Elems(row.cols)
    requires name !in names
    ensures Assign(row, name, v).cols == columns + MissingFrom(columns, names + [name])
    ensures Assign(row, name, v).vals.Keys == Elems(Assign(row, name, v).cols)
  {
    MissingFromMembers(columns, names);
    assert (names + [name])[..|names|] == names;
    assert name in row.cols <==> name in columns;
  }

  /** Assigning one more numeric column that has not been assigned yet. */
  lemma AssignNext(row: FeatureRow, columns: seq<string>, names: seq<string>, vals: seq<real>, name: string, v: real)
    requires Filled(row, columns, names, vals, {}) && name !in names
    ensures Filled(Assign(row, name, v), columns, names + [name], vals + [v], {})
  {
    var r := Assign(row, name, v);
    AssignNextShape(row, columns, names, name, v);
    forall j | 0 <= j < |names| + 1
      ensures (names + [name])[j] in r.vals && r.vals[(names + [name])[j]] == (vals + [v])[j]
    {
      if j < |names| {
        assert names[j] != name;
      }
    }
  }

  /** Assigning 1 to an existing column that is not a numeric one. */
  lemma AssignOne(row: FeatureRow, columns: seq<string>, names: seq<string>, vals: seq<real>, ones: set<string>, name: string)
    requires Filled(row, columns, names, vals, ones) && name in columns && name !in names
    ensures Filled(Assign(row, name, 1.0), columns, names, vals, ones + {name})
  {
  }

  /** The converted value of each numeric column (0 where conversion fails). */
  function NumericValues(data: map<string, Json>, parseFloat: string -> Option<real>): (vs: seq<real>)
    ensures |vs| == |NumericColumns|
  {
    seq(|NumericColumns|, j requires 0 <= j < |NumericColumns| =>
      var v := NumericValue(data, j, parseFloat);
      if v.Some? then v.value else 0.0)
  }

  /** An indicator column name is never a numeric column name, and a store indicator is never a product one. */
  lemma IndicatorNames(x: string, y: string)
    ensures "Store ID_" + x !in NumericColumns
    ensures "Product ID_" + y !in NumericColumns
    ensures "Store ID_" + x != "Product ID_" + y
  {
    assert ("Store ID_" + x)[0] == 'S';
    assert ("Product ID_" + y)[0] == 'P' && ("Product ID_" + y)[2] == 'o';
    assert "Price"[2] == 'i';
  }

  /** Setting the store and then the product indicator, as the view does, on a row of numeric columns. */
  lemma FinishIndicators(row: FeatureRow, columns: seq<string>, names: seq<string>, vals: seq<real>,
                         data: map<string, Json>)
    requires Filled(row, columns, names, vals, {})
    requires StoreColumn(data) !in names && ProductColumn(data) !in names
    requires StoreColumn(data) != ProductColumn(data)
    ensures var r1 := if Truthy(StoreId(data)) && StoreColumn(data) in columns
              then Assign(row, StoreColumn(data), 1.0) else row;
      var r2 := if Truthy(ProductId(data)) && ProductColumn(data) in columns
              then Assign(r1, ProductColumn(data), 1.0) else r1;
      Filled(r2, columns, names, vals, Indicators(columns, data))
  {
    var ones: set<string> := {};
    var r1 := row;
    if Truthy(StoreId(data)) && StoreColumn(data) in columns {
      AssignOne(row, columns, names, vals, ones, StoreColumn(data));
      r1, ones := Assign(row, StoreColumn(data), 1.0), {StoreColumn(data)};
    }
    if Truthy(ProductId(data)) && ProductColumn(data) in columns {
      AssignOne(r1, columns, names, vals, ones, ProductColumn(data));
      ones := ones + {ProductColumn(data)};
    }
    assert ones == Indicators(columns, data);
  }

  lemma WholePrefix(row: FeatureRow, columns: seq<string>, names: seq<string>, vals: seq<real>, n: nat)
    requires n == |names| == |vals| && Filled(row, columns, names[..n], vals[..n], {})
    ensures Filled(row, columns, names, vals, {})
  {
    assert names[..n] == names && vals[..n] == vals;
  }

  /** No numeric column name is repeated. */
  lemma NumericColumnsDistinct()
    ensures Distinct(NumericColumns)
  {
  }

  /** Assigning the i-th of a list of distinct names after the first i. */
  lemma AssignAt(row: FeatureRow, columns: seq<string>, names: seq<string>, vals: seq<real>, i: nat)
    requires i < |names| == |vals| && Distinct(names)
    requires Filled(row, columns, names[..i], vals[..i], {})
    ensures Filled(Assign(row, names[i], vals[i]), columns, names[..i + 1], vals[..i + 1], {})
  {
    assert names[..i + 1] == names[..i] + [names[i]];
    assert vals[..i + 1] == vals[..i] + [vals[i]];
    assert names[i] !in names[..i];
    AssignNext(row, columns, names[..i], vals[..i], names[i], vals[i]);
  }

  /** The row after the first i numeric columns have been written. */
  ghost predicate AfterNumeric(row: FeatureRow, columns: seq<string>, data: map<string, Json>,
                               parseFloat: string -> Option<real>, i: nat)
    requires i <= |NumericColumns|
  {
    && (forall j :: 0 <= j < i ==> NumericValue(data, j, parseFloat).Some?)
    && Filled(row, columns, NumericColumns[..i], NumericValues(data, parseFloat)[..i], {})
  }

  /**
   * One numeric line of the view, `row[name] = float(data.get(name, default))`
   * for the i-th numeric column name and its default: None when float() fails.
   */
  method SetNumeric(row: FeatureRow, data: map<string, Json>, i: nat,
                    parseFloat: string -> Option<real>, ghost columns: seq<string>)
    returns (r: Option<FeatureRow>)
    requires i < |NumericColumns|
    requires AfterNumeric(row, columns, data, parseFloat, i)
    ensures r.None? <==> NumericValue(data, i, parseFloat).None?
    ensures r.Some? ==> AfterNumeric(r.value, columns, data, parseFloat, i + 1)
    ensures r.Some? && i + 1 == |NumericColumns| ==>
      Filled(r.value, columns, NumericColumns, NumericValues(data, parseFloat), {})
  {
    var name := NumericColumns[i];
    var v := NumericValue(data, i, parseFloat);
    if v.None? {
      return None;
    }
    NumericColumnsDistinct();
    AssignAt(row, columns, NumericColumns, NumericValues(data, parseFloat), i);
    r := Some(Assign(row, name, v.value));
    if i + 1 == |NumericColumns| {
      WholePrefix(r.value, columns, NumericColumns, NumericValues(data, parseFloat), i + 1);
    }
  }

  /**
   * The first part of the view: the zero row over columns with the nine
   * numeric columns written in order (appended when columns lacks them),
   * or None when a numeric field does not convert with float().
   */
  method WriteNumericColumns(columns: seq<string>, data: map<string, Json>, parseFloat: string -> Option<real>)
    returns (r: Option<FeatureRow>)
    ensures r.Some? <==> forall j :: 0 <= j < |NumericColumns| ==> NumericValue(data, j, parseFloat).Some?
    ensures r.Some? ==> Filled(r.value, columns, NumericColumns, NumericValues(data, parseFloat), {})
  {
    var row := Zeros(columns);
    ZerosFilled(columns);
    var next := SetNumeric(row, data, 0, parseFloat, columns);  // Inventory Level
    if next.None? { return None; }
    row := next.value;
    next := SetNumeric(row, data, 1, parseFloat, columns);  // Units Ordered
    if next.None? { return None; }
    row := next.value;
    next := SetNumeric(row, data, 2, parseFloat, columns);  // Demand Forecast
    if next.None? { return None; }
    row := next.value;
    next := SetNumeric(row, data, 3, parseFloat, columns);  // Price
    if next.None? { return None; }
    row := next.value;
    next := SetNumeric(row, data, 4, parseFloat, columns);  // Discount
    if next.None? { return None; }
    row := next.value;
    next := SetNumeric(row, data, 5, parseFloat, columns);  // Competitor Pricing
    if next.None? { return None; }
    row := next.value;
    next := SetNumeric(row, data, 6, parseFloat, columns);  // Day
    if next.None? { return None; }
    row := next.value;
    next := SetNumeric(row, data, 7, parseFloat, columns);  // Month
    if next.None? { return None; }
    row := next.value;
    next := SetNumeric(row, data, 8, parseFloat, columns);  // Year
    if next.None? { return None; }
    row := next.value;
    r := Some(row);
  }

  /**
   * The feature row of the prediction endpoint for the request data, or
   * None when a numeric field does not convert with float() (the request
   * then fails). The row is the zero row over columns with the nine
   * numeric columns written (appended when columns lacks them) and the
   * indicator columns set to 1; every other column stays 0.
   */
  method AssembleFeatures(columns: seq<string>, data: map<string, Json>, parseFloat: string -> Option<real>)
    returns (r: Option<FeatureRow>)
    ensures r.Some? <==> forall j :: 0 <= j < |NumericColumns| ==> NumericValue(data, j, parseFloat).Some?
    ensures r.Some? ==> Filled(r.value, columns, NumericColumns, NumericValues(data, parseFloat), Indicators(columns, data))
  {
    var numeric := WriteNumericColumns(columns, data, parseFloat);
    if numeric.None? {
      return None;
    }
    var row := numeric.value;
    var storeId := Get(data, "Store ID", JString(""));
    var productId := Get(data, "Product ID", JString(""));
    IndicatorNames(Format(storeId), Format(productId));
    FinishIndicators(row, columns, NumericColumns, NumericValues(data, parseFloat), data);
    if Truthy(storeId) && "Store ID_" + Format(storeId) in columns {
      row := Assign(row, "Store ID_" + Format(storeId), 1.0);
    }
    if Truthy(productId) && "Product ID_" + Format(productId) in columns {
      row := Assign(row, "Product ID_" + Format(productId), 1.0);
    }
    r := Some(row);
  }

  /** The response body. */
  function Respond(prediction: int): (reply: map<string, int>)
    ensures reply.Keys == {"predicted_units_sold"}
    ensures reply["predicted_units_sold"] == prediction
  {
    map["predicted_units_sold" := prediction]
  }

  /** The response has no `predicted_sales` key. */
  lemma ResponseKey(prediction: int)
    ensures "predicted_sales" !in Respond(prediction)
  {
  }
}
