# market-Pred in Dafny

This project models the parts of market-Pred that carry logic: the React pages of its front end, the Django prediction endpoint and the CSV import command. It proves properties of each part.

- **Seasonal pivot** (`SeasonalPivot`). The Dashboard and Goods-vs-Seasons pages share the same `reduce`. It folds the seasonal-analysis records into one chart row per season label. Each row keeps a running sum per category, and the pages then list the distinct category keys. One definition serves both pages.
  - The spec function `PivotOf` is the fold.
  - The method `Pivot` is the imperative `reduce`, with `acc.find` as the loop `FindRow`.
- **Market-data table** (`MarketData`). The search filter, the page slice, and a `MarketDataPage` class. The class holds the page's state fields and its three handlers.
- **Predict Sales page** (`PredictSales`). The fourteen-field form and the `parseInt(v) || ''` coercion of its ID inputs. Its submit cycle (loading, result, error) is the `PredictSalesPage` class.
- **App page** (`AppForm`). The eleven-field form, the payload with its `||` defaults, and the clear-then-set submit cycle (`AppPage`).
- **Prediction endpoint** (`PredictView`). The feature row: zeros over the model's columns, then the nine numeric columns written one by one, then the store and product indicators. Also the response key.
- **Import command** (`ImportData`). The batching loop over the CSV rows and the row-to-record field mapping.
- **Cross-component facts** (`Interplay`). What the endpoint reads from the body each page posts, and what each page finds in the reply.

`JsText` models the JavaScript string operations the pages rely on: ASCII `toLowerCase`, `includes`, `Number.prototype.toString` for integers and `parseInt`, with numbers as unbounded integers rather than doubles. `Common` holds shared helpers: `Option`, JSON scalars, request outcomes, `[...new Set(xs)]` as `Dedup`, and `flat` as `Flatten`.

The cross-component lemmas show two mismatches between the pages and the endpoint. Both pages post to the same `/api/predict/` route.

- The Predict Sales page posts its form with snake_case keys such as `inventory_level` and `store_id`. The endpoint reads capitalised keys only. For such a body it therefore uses every default and sets no indicator (`Interplay.SnakeCaseBodyReadsDefaults`). That holds for every body the page's submit posts (`Interplay.PredictSalesSubmitReadsDefaults`).
- That page then displays `result.predicted_sales`. The endpoint's reply has no such key; its only key is `predicted_units_sold` (`PredictView.Respond`, `PredictView.ResponseKey`, `Interplay.ReplyOnBothPages`).

The App page's keys and defaults do agree with the endpoint's (`Interplay.AppNumericField`). An empty App field reaches the model exactly as a missing key would.

## Model

| member | source | states |
|---|---|---|
| SeasonalPivot.SeasonOf | backend/frontend/src/pages/Dashboard.js:39 | The season label is the item's label when non-empty, else "Unknown"; never empty |
| SeasonalPivot.ValueOf | backend/frontend/src/pages/Dashboard.js:42 | An item counts its total if truthy, else its average if truthy, else 0 (a total of 0 falls through) |
| SeasonalPivot.FindSeason | backend/frontend/src/pages/Dashboard.js:40 | `acc.find`: the index of the first row with the label, or -1 when no row has it |
| SeasonalPivot.FindRow | backend/frontend/src/pages/Dashboard.js:40 | The search loop returns the first row with the label, or -1 when none has it |
| SeasonalPivot.AddTo | backend/frontend/src/pages/Dashboard.js:42 | Adding to a row keeps its label, makes the category's value its old value (0 when absent) plus the addition, and keeps every other category's value |
| SeasonalPivot.NewRow | backend/frontend/src/pages/Dashboard.js:44-47 | A pushed row carries the season label and exactly one category, holding the value |
| SeasonalPivot.Fold | backend/frontend/src/pages/Dashboard.js:39-49 | One reduce step either keeps the row count (an existing season) or adds exactly one row |
| SeasonalPivot.FoldStep | backend/frontend/src/pages/Dashboard.js:39-49 | The reduce callback replaces the season's row with one holding the added value, or appends a new row, exactly as one step of the fold `Fold` |
| SeasonalPivot.Pivot | backend/frontend/src/pages/Dashboard.js:38-50 | The imperative reduce over the accumulator computes exactly the fold `PivotOf` (categories other than "seasonality") |
| SeasonalPivot.PivotSeasons | backend/frontend/src/pages/Dashboard.js:38-50 | The row labels are the distinct labels of the input in first-seen order (Dedup of the item labels) |
| SeasonalPivot.PivotOneRowPerSeason | backend/frontend/src/pages/GoodsVsSeasons.js:29-41 | No label occurs twice, every input label has a row, the row count is the number of distinct labels, and rows are ordered by first occurrence |
| SeasonalPivot.PivotEmpty | backend/frontend/src/pages/GoodsVsSeasons.js:29-41 | Empty input gives no rows |
| SeasonalPivot.CatsInMember | backend/frontend/src/pages/Dashboard.js:41-47 | A category is listed for a season iff some item of that season has that category |
| SeasonalPivot.UnseenSeason | backend/frontend/src/pages/Dashboard.js:41-47 | A season no item has lists no category and has all sums 0 |
| SeasonalPivot.AbsentCellIsZero | backend/frontend/src/pages/Dashboard.js:41-47 | A (season, category) pair that never occurs sums to 0 |
| SeasonalPivot.PivotCells | backend/frontend/src/pages/Dashboard.js:41-47 | Each row holds exactly the categories seen for its season, in order, each with the sum of its items' values |
| SeasonalPivot.PivotPreservesCategoryTotals | backend/frontend/src/pages/GoodsVsSeasons.js:32-38 | Summed over all rows, a category's amounts equal the input total for that category |
| SeasonalPivot.FoldTouchesOneCell | backend/frontend/src/pages/Dashboard.js:40-47 | One fold step changes only the row of the item's season and, in it, only the item's category (or appends one new row) |
| SeasonalPivot.PivotExample | backend/frontend/src/pages/Dashboard.js:38-50 | A worked input: two Summer toys summed, and a zero total falling back to the average |
| SeasonalPivot.WithoutSeasonality | backend/frontend/src/pages/Dashboard.js:80 | The filter drops exactly the "seasonality" key |
| SeasonalPivot.RowKeys | backend/frontend/src/pages/Dashboard.js:80 | `Object.keys` of a row lists exactly the key "seasonality" and the row's categories |
| SeasonalPivot.AllKeys | backend/frontend/src/pages/Dashboard.js:80 | The flattened key list holds exactly the keys of some row |
| SeasonalPivot.CategoryKeys | backend/frontend/src/pages/Dashboard.js:80 | The category list is duplicate-free, never holds "seasonality", and holds every category key of every row |
| SeasonalPivot.CategoryKeysFirstSeen | backend/frontend/src/pages/GoodsVsSeasons.js:70 | Category keys are listed in order of first appearance across the rows |
| SeasonalPivot.PivotCategories | backend/frontend/src/pages/GoodsVsSeasons.js:70 | After the pivot, the category list holds exactly the categories of the input items |
| SeasonalPivot.RowCategoryOccurs | backend/frontend/src/pages/Dashboard.js:41-47 | Every category key of a row is the category of some input item |
| SeasonalPivot.ItemCategoryInRow | backend/frontend/src/pages/Dashboard.js:41-47 | Every input item's category is a key of some row |
| JsText.Lower | backend/frontend/src/pages/MarketData.js:75-76 | `toLowerCase` keeps the length and maps each ASCII capital to its small letter |
| JsText.LowerIdempotent | backend/frontend/src/pages/MarketData.js:75-76 | Lower-casing twice is lower-casing once |
| JsText.Includes | backend/frontend/src/pages/MarketData.js:75-77 | `includes` holds iff the needle occurs at some position |
| JsText.IncludesEmpty | backend/frontend/src/pages/MarketData.js:74-78 | Every text includes the empty text |
| JsText.NatToString | backend/frontend/src/pages/MarketData.js:77 | The decimal text is non-empty, all digits, with no leading zero |
| JsText.IntToString | backend/frontend/src/pages/MarketData.js:77 | The decimal text is non-empty, starts with '-' exactly for negative numbers, and is digits otherwise |
| JsText.TrimStart | backend/frontend/src/pages/PredictSales.js:93 | parseInt's leading-space skip removes exactly the leading white space |
| JsText.DigitRun | backend/frontend/src/pages/PredictSales.js:93 | parseInt reads the longest prefix of digits valid in the radix |
| JsText.ParseDigits | backend/frontend/src/pages/PredictSales.js:93 | The digits after the sign (base 16 after a "0x" prefix when no radix is given) read as a non-negative number, or NaN |
| JsText.ParseIntWith | backend/frontend/src/pages/PredictSales.js:93 | Blank text is NaN, and a negative result needs a leading minus sign after the white space |
| JsText.ParseInt | backend/frontend/src/pages/PredictSales.js:93 | `parseInt` without radix reads back the decimal text of every integer |
| JsText.ParseIntDecimal | backend/frontend/src/pages/MarketData.js:48 | `parseInt(v, 10)` reads back the decimal text of every integer |
| JsText.ParseIntOfDigits | backend/frontend/src/pages/PredictSales.js:93 | Text starting with a digit is read by parseInt as its unsigned part |
| JsText.ParseIntOfNegated | backend/frontend/src/pages/PredictSales.js:93 | A minus sign before digits negates the value they read |
| JsText.ParseIntOfIntToString | backend/frontend/src/pages/PredictSales.js:93 | parseInt reads back the decimal text of every integer |
| JsText.NoLeadingDigit | backend/frontend/src/pages/PredictSales.js:105 | Unsigned text not starting with a decimal digit reads as NaN |
| JsText.ParseIntNoDigit | backend/frontend/src/pages/PredictSales.js:105 | Text without a decimal digit parses to NaN |
| MarketData.Filtered | backend/frontend/src/pages/MarketData.js:74-78 | An item is kept iff its lower-cased category or region includes the lower-cased term, or its product-id text includes the raw term |
| MarketData.Matches | backend/frontend/src/pages/MarketData.js:75-77 | The empty search term matches every record |
| MarketData.FilterBy | backend/frontend/src/pages/MarketData.js:74 | `filter` never lengthens the list |
| MarketData.FilterBySubsequence | backend/frontend/src/pages/MarketData.js:74 | `filter` keeps the elements at increasing positions, exactly those that pass, in their original order |
| MarketData.FilterByMembers | backend/frontend/src/pages/MarketData.js:74 | An element is in the filtered list iff it is in the data and passes |
| MarketData.FilteredIsSubsequence | backend/frontend/src/pages/MarketData.js:74-78 | The search result is the records at increasing positions, exactly those that match, in their original order |
| MarketData.FilterEmptyTerm | backend/frontend/src/pages/MarketData.js:74-78 | An empty search keeps every item |
| MarketData.MatchesIgnoresCase | backend/frontend/src/pages/MarketData.js:75-77 | Lower-casing the term never changes whether an item matches, since product ids contain no letters |
| MarketData.FilterIgnoresCase | backend/frontend/src/pages/MarketData.js:74-78 | The filter gives the same list for a term and its lower-cased form |
| MarketData.SliceIndex | backend/frontend/src/pages/MarketData.js:126 | `slice` clamps a non-negative bound to the length |
| MarketData.Slice | backend/frontend/src/pages/MarketData.js:126 | `slice` keeps elements of the list only, never more than the list or the span between its bounds, and is the plain window for in-range bounds |
| MarketData.PageOf | backend/frontend/src/pages/MarketData.js:126 | A page holds at most rows-per-page records, all from the filtered list |
| MarketData.SliceWindow | backend/frontend/src/pages/MarketData.js:126 | `slice(start, start + n)` is at most n long, is the window from start cut at the end, and is empty iff start is past the end |
| MarketData.PageWindow | backend/frontend/src/pages/MarketData.js:126 | The visible rows are the filtered rows from page*rpp, at most rpp of them, and none past the end |
| MarketData.MarketDataPage.constructor | backend/frontend/src/pages/MarketData.js:21-26 | Initially no data, loading, no error, page 0, 10 rows per page, empty search |
| MarketData.MarketDataPage.FinishLoad | backend/frontend/src/pages/MarketData.js:28-41 | A response sets the data; a failure sets "Failed to load market data"; loading ends either way |
| MarketData.MarketDataPage.HandleChangePage | backend/frontend/src/pages/MarketData.js:43-45 | Only the page changes |
| MarketData.MarketDataPage.HandleChangeRowsPerPage | backend/frontend/src/pages/MarketData.js:47-50 | Rows per page becomes the parsed value and the page resets to 0; the search is kept |
| MarketData.MarketDataPage.HandleSearch | backend/frontend/src/pages/MarketData.js:52-55 | The search term is set and the page resets to 0; rows per page is kept |
| MarketData.MarketDataPage.FilteredData | backend/frontend/src/pages/MarketData.js:74-78 | The filtered records are exactly the loaded records matching the search term, and all of them for an empty term |
| MarketData.MarketDataPage.VisibleRows | backend/frontend/src/pages/MarketData.js:124-126 | The table body shows at most rows-per-page records, each loaded and matching the search term |
| MarketData.MarketDataPage.PaginationCount | backend/frontend/src/pages/MarketData.js:145 | The count is the filtered length: at most the data length, and equal to it for an empty search |
| PredictSales.InitialForm | backend/frontend/src/pages/PredictSales.js:21-36 | The form has exactly the fourteen named fields, all '' |
| PredictSales.CoerceId | backend/frontend/src/pages/PredictSales.js:93 | An ID input stores '' or a non-zero number that `parseInt` read from the text; NaN always stores '' |
| PredictSales.CoerceIdOfDecimal | backend/frontend/src/pages/PredictSales.js:93 | Typing a non-zero integer stores that integer |
| PredictSales.CoerceIdFalsy | backend/frontend/src/pages/PredictSales.js:105 | Typing "0", or text with no digit, stores '' |
| PredictSales.CoerceIdStable | backend/frontend/src/pages/PredictSales.js:93 | Coercing the stored number's text again gives the same value |
| PredictSales.ErrorMessage | backend/frontend/src/pages/PredictSales.js:60 | The server's error text when it is truthy, else "An error occurred" |
| PredictSales.PredictSalesPage.constructor | backend/frontend/src/pages/PredictSales.js:21-40 | Empty form, not loading, no result, no error |
| PredictSales.PredictSalesPage.HandleChange | backend/frontend/src/pages/PredictSales.js:42-48 | Exactly the named field (one of the fourteen) takes the value; the others are unchanged and the form keeps exactly its fourteen fields |
| PredictSales.PredictSalesPage.HandleIdInput | backend/frontend/src/pages/PredictSales.js:93 | The ID field stores the coerced value |
| PredictSales.PredictSalesPage.Submit | backend/frontend/src/pages/PredictSales.js:50-56 | While loading (the button is disabled) or while some required field is empty nothing happens; when neither holds, the handler posts the form, sets loading, clears the error and keeps the result; a posted body has only the form's field names as keys |
| PredictSales.PredictSalesPage.Settle | backend/frontend/src/pages/PredictSales.js:57-61 | Success stores the body; failure sets the error message and keeps the result; loading ends |
| AppForm.InitialForm | backend/frontend/src/App.js:163-175 | The form has exactly the eleven fields, all '' |
| AppForm.PayloadKeysExact | backend/frontend/src/App.js:189-201 | The payload has exactly the eleven capitalised keys |
| AppForm.PayloadEntry | backend/frontend/src/App.js:190-200 | Each key carries its field's text verbatim when non-empty ("0" included), else its default |
| AppForm.PayloadOfInitialForm | backend/frontend/src/App.js:189-201 | The untouched form sends every default |
| AppForm.AppPage.constructor | backend/frontend/src/App.js:163-177 | Empty form, no prediction, no error |
| AppForm.AppPage.HandleChange | backend/frontend/src/App.js:179-182 | Exactly the named field takes the text |
| AppForm.AppPage.BeginSubmit | backend/frontend/src/App.js:184-201 | Error and prediction are cleared; the payload of the current form is sent |
| AppForm.AppPage.Settle | backend/frontend/src/App.js:204-211 | A reply shows its predicted_units_sold (undefined when absent); a failure shows the fixed message and keeps the prediction |
| AppForm.SubmitThenFail | backend/frontend/src/App.js:184-211 | After a submit whose request fails, no prediction is shown and the fixed message is |
| PredictView.MissingFromMembers | backend/api/views.py:50-58 | The appended columns are exactly the numeric names the model's columns lack |
| PredictView.ZerosFilled | backend/api/views.py:48 | The initial row is all zeros over the model's columns |
| PredictView.Zeros | backend/api/views.py:48 | The initial row has exactly the model's columns, in order, each 0 |
| PredictView.Get | backend/api/views.py:50-62 | `data.get` gives the request's value when the key is present, else the default |
| PredictView.ToFloat | backend/api/views.py:50-58 | `float` of an integer is exact; of a text it is the text's conversion, which may fail |
| PredictView.Format | backend/api/views.py:62-65 | The f-string text of an integer id reads back as that integer; a text id is used as it is |
| PredictView.Indicators | backend/api/views.py:60-65 | At most two indicators are set, each an existing column, and none when neither id is truthy |
| PredictView.AssignNextShape | backend/api/views.py:50-58 | Assigning a column not yet written keeps the column list as the model's columns followed by the missing numeric names |
| PredictView.AssignNext | backend/api/views.py:50-58 | Writing a new numeric column keeps every earlier write and appends the column if missing |
| PredictView.AssignOne | backend/api/views.py:62-65 | Setting an indicator to 1 keeps every other column |
| PredictView.IndicatorNames | backend/api/views.py:62-65 | Indicator column names never clash with numeric names or with each other |
| PredictView.FinishIndicators | backend/api/views.py:60-65 | The two conditional writes set exactly the indicators of a truthy id whose column exists |
| PredictView.NumericValues | backend/api/views.py:50-58 | There is one value per numeric column |
| PredictView.SetNumeric | backend/api/views.py:50-58 | One numeric line fails iff float() fails on the value or its default; otherwise the column holds it |
| PredictView.WriteNumericColumns | backend/api/views.py:48-58 | The nine numeric columns succeed iff every value converts; the row holds each in turn and zeros elsewhere |
| PredictView.AssembleFeatures | backend/api/views.py:47-65 | The feature row is zeros over the columns, with the nine numeric values and 1 at exactly the existing indicators of truthy ids |
| PredictView.Respond | backend/api/views.py:70 | The reply has the single key predicted_units_sold, holding the prediction |
| PredictView.ResponseKey | backend/frontend/src/pages/PredictSales.js:295 | The reply holds no predicted_sales, the key the Predict Sales page displays |
| ImportData.RecordFields | backend/api/management/commands/import_data.py:37-53 | Each record field is the cell of the column of the same name |
| ImportData.RecordReadsOnlyColumns | backend/api/management/commands/import_data.py:37-53 | Rows that agree on the fifteen columns give the same record |
| ImportData.Records | backend/api/management/commands/import_data.py:35-54 | One record per row |
| ImportData.RecordsSlice | backend/api/management/commands/import_data.py:32-54 | The records of a range of rows are that range of the records |
| ImportData.BatchRows | backend/api/management/commands/import_data.py:32 | A batch holds between 1 and 1000 rows |
| ImportData.Batches | backend/api/management/commands/import_data.py:31-57 | One batch is created per loop iteration |
| ImportData.ProgressList | backend/api/management/commands/import_data.py:59 | One count is reported per batch, never above the row count |
| ImportData.BatchShape | backend/api/management/commands/import_data.py:30-32 | Each batch starts below the total, holds 1 to 1000 rows, ends where the next starts; the last ends at the total |
| ImportData.BatchesAt | backend/api/management/commands/import_data.py:31-32 | The k-th created batch is xs[k*1000 : min(k*1000+1000, total)] |
| ImportData.ProgressListAt | backend/api/management/commands/import_data.py:59 | The k-th reported count is min(k*1000+1000, total) |
| ImportData.FlattenBatches | backend/api/management/commands/import_data.py:31-57 | The first n batches together are the prefix they cover, in order |
| ImportData.AllBatchesCover | backend/api/management/commands/import_data.py:31-57 | All batches concatenated are the whole sequence: each row once, in file order |
| ImportData.BatchOfRecords | backend/api/management/commands/import_data.py:32-57 | The k-th batch of records is built from the k-th batch of rows |
| ImportData.NoRowsNoBatches | backend/api/management/commands/import_data.py:30-31 | There are no batches exactly when there are no rows |
| ImportData.LastProgressIsTotal | backend/api/management/commands/import_data.py:59 | The count reported after the last batch is the row count |
| ImportData.BuildBatch | backend/api/management/commands/import_data.py:35-54 | The inner loop builds the records of rows[lo:hi] in order, or stops with KeyError when a column is missing |
| ImportData.Import | backend/api/management/commands/import_data.py:23-59 | The command succeeds iff Date exists and (no rows or every column exists); then the batches are exactly the 1000-record slices of the records, and the counts their ends |
| Interplay.AppKeysAreViewColumns | backend/api/views.py:50-58 | The App payload's numeric keys and defaults are the endpoint's |
| Interplay.AppNumericField | backend/frontend/src/App.js:192-200 | The endpoint reads an App numeric field as its text when non-empty, else as the shared default |
| Interplay.AppIndicators | backend/api/views.py:60-65 | For an App payload, the indicators are those of the non-empty ID fields whose columns exist |
| Interplay.SnakeCaseBodyReadsDefaults | backend/frontend/src/pages/PredictSales.js:56 | The Predict Sales body is read by the endpoint as all defaults, with no indicator |
| Interplay.PredictSalesSubmitReadsDefaults | backend/frontend/src/pages/PredictSales.js:50-56 | Whatever was typed, a body the Predict Sales page posts is read by the endpoint as every numeric default and no indicator |
| Interplay.ReplyOnBothPages | backend/frontend/src/pages/PredictSales.js:295 | The endpoint's reply shows a prediction on the App page but holds no predicted_sales for the Predict Sales page |

## Left out

- HTTP requests, `useEffect`, `Promise.all` and async ordering are not modelled. Each request's outcome is an input (`Reply` or `Option`). Out-of-order and concurrent responses are not modelled.
- JSX rendering, MUI and recharts components, colours, `toFixed` and `toLocaleDateString` are not modelled.
- Sales figures are integers, not IEEE doubles. The pivot's sums are therefore exact.
- JSON values are strings or integers. Fractional numbers and `null` in request bodies are not modelled.
- Python `float()` of a text is a parameter, `parseFloat`. Only integers are converted exactly.
- `pickle` loading, `scaler.transform` and `model.predict` are not modelled. The model's column list is an input, and the prediction is an input to `Respond`.
- In the import command, CSV reading, `pd.to_datetime` and `bulk_create` are not modelled. The Date is kept as its text. A database failure inside `bulk_create` is not modelled. Stdout messages are not modelled.
- ImportData.Import: the rows' keys are taken to be the header's columns, as they are for a DataFrame. The KeyError test is made on the header.
- SeasonalPivot.FoldStep: JavaScript adds to the found row object in place. The model puts a new row value at the same index. No other reference to that object exists during the reduce, so aliasing is not modelled.
- SeasonalPivot.Pivot: requires that no item has category "seasonality". Such an item would overwrite the season label of its row. That behaviour is not modelled.
- `Object.keys` lists integer-like keys first and string keys in insertion order. The model keeps insertion order only. A category named like a built-in property of `Object.prototype` is not modelled either.
- Case mapping is limited to ASCII. Unicode `toLowerCase` is not modelled.
- The pivot's category is a string. The JavaScript coercion of an `undefined` category to the key "undefined" is not modelled.
- JsText.ParseInt: numbers are unbounded integers. Rounding to a double above 2^53 is not modelled (JavaScript reads "9007199254740993" as 9007199254740992). The round trip is therefore stated for every integer, where JavaScript keeps it only below 2^53 in magnitude. The same holds for JsText.ParseIntDecimal and JsText.ParseIntOfIntToString.
- JsText.IntToString: the text is the plain decimal digits for every integer. JavaScript switches to the exponent form from 1e21 ("1e+21"), and that is not modelled.
- JsText.ParseInt: leading sign, white space, the radix-16 "0x" prefix and the digit run follow `parseInt`. Full Unicode white space is not modelled.
- MarketData.MarketDataPage.HandleChangeRowsPerPage: requires a numeric text. The rows-per-page selector only offers 5, 10, 25 and 50.
- PredictSales.PredictSalesPage.Submit: the disabled button and the browser's `required` check are modelled as guards in front of the handler. The `type="number"` inputs' own parsing of typed text is not modelled. Nor is the discount input's min 0 / max 100 / step 0.1 check (PredictSales.js:207), which also keeps the handler from running. So the model posts a form whose discount is out of range or off step.
- AppForm.AppPage.BeginSubmit: the browser's `min`/`max`/`step` validation of the number inputs (Day 1-31, Month 1-12, step 0.01) is not modelled. That validation keeps the submit handler from running. The method is the handler itself, so it builds a payload from any text.
- The commented-out earlier versions at the top of App.js and views.py are not part of this model. Neither are data_pipeline.py, models.py, serializers.py and urls.py, beyond the route they name.
