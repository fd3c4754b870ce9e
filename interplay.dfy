/**
 * How the two prediction pages and the prediction endpoint fit together:
 * what the endpoint reads from the body each page posts, and what each page
 * finds in the endpoint's reply.
 */
module Interplay {
  import opened Common
  import AppForm
  import PredictSales
  import opened PredictView

  /** The App payload's numeric keys are the endpoint's numeric columns, with the same defaults. */
  lemma AppKeysAreViewColumns()
    ensures AppForm.PayloadKeys[2..] == NumericColumns
    ensures forall i :: 0 <= i < |NumericColumns| ==> AppForm.Defaults[i + 2] == JNumber(NumericDefaults[i])
  {
  }

  /**
   * The endpoint reads the i-th numeric column of an App payload as the
   * typed text when the field is non-empty and as its own default
   * otherwise: an empty field is read exactly as a missing key.
   */
  lemma AppNumericField(form: map<string, string>, i: nat, parseFloat: string -> Option<real>)
    requires i < |NumericColumns|
    ensures var field := AppForm.FormFields[i + 2];
      NumericValue(AppForm.BuildPayload(form), i, parseFloat)
        == if field in form && form[field] != "" then parseFloat(form[field])
           else Some(NumericDefaults[i] as real)
  {
    AppKeysAreViewColumns();
    AppForm.PayloadKeysExact(form);
    AppForm.PayloadEntry(form, i + 2);
    assert AppForm.PayloadKeys[i + 2] == NumericColumns[i];
  }

  /**
   * The indicators the endpoint sets for an App payload: the store (product)
   * column named by a non-empty Store ID (Product ID) field, when the model
   * knows it.
   */
  lemma AppIndicators(columns: seq<string>, form: map<string, string>)
    ensures var s := if "storeId" in form then form["storeId"] else "";
      var p := if "productId" in form then form["productId"] else "";
      Indicators(columns, AppForm.BuildPayload(form))
        == (if s != "" && "Store ID_" + s in columns then {"Store ID_" + s} else {})
         + (if p != "" && "Product ID_" + p in columns then {"Product ID_" + p} else {})
  {
    var payload := AppForm.BuildPayload(form);
    assert StoreId(payload) == AppForm.OrElse(form, "storeId", JString(""));
    assert ProductId(payload) == AppForm.OrElse(form, "productId", JString(""));
  }

  /** Every field name of the Predict Sales page starts with a lower-case letter. */
  lemma FieldNamesLowerCase(k: string)
    requires k in PredictSales.FieldNames
    ensures |k| > 0 && 'a' <= k[0] <= 'z'
  {
  }

  /**
   * A body whose keys are Predict Sales field names (as that page posts its
   * form) is read by the endpoint as all defaults with no indicator: none of
   * the keys the endpoint reads is a field name of that page.
   */
  lemma SnakeCaseBodyReadsDefaults(columns: seq<string>, body: map<string, Json>,
                                   i: nat, parseFloat: string -> Option<real>)
    requires forall k :: k in body ==> k in PredictSales.FieldNames
    requires i < |NumericColumns|
    ensures NumericValue(body, i, parseFloat) == Some(NumericDefaults[i] as real)
    ensures Indicators(columns, body) == {}
  {
    var name := NumericColumns[i];
    assert 'A' <= name[0] <= 'Z';
    if name in body {
      FieldNamesLowerCase(name);
    }
    if "Store ID" in body {
      FieldNamesLowerCase("Store ID");
    }
    if "Product ID" in body {
      FieldNamesLowerCase("Product ID");
    }
  }

  /**
   * Pressing submit on the Predict Sales page, whatever was typed: a body
   * that is posted is read by the endpoint as all defaults with no
   * indicator.
   */
  method PredictSalesSubmitReadsDefaults(page: PredictSales.PredictSalesPage, columns: seq<string>,
                                         parseFloat: string -> Option<real>)
    returns (posted: Option<map<string, Json>>)
    requires page.Valid()
    modifies page
    ensures posted.Some? ==> Indicators(columns, posted.value) == {}
    ensures posted.Some? ==> forall i :: 0 <= i < |NumericColumns| ==>
      NumericValue(posted.value, i, parseFloat) == Some(NumericDefaults[i] as real)
  {
    posted := page.Submit();
    if posted.Some? {
      SnakeCaseBodyReadsDefaults(columns, posted.value, 0, parseFloat);
      forall i | 0 <= i < |NumericColumns|
        ensures NumericValue(posted.value, i, parseFloat) == Some(NumericDefaults[i] as real)
      {
        SnakeCaseBodyReadsDefaults(columns, posted.value, i, parseFloat);
      }
    }
  }

  /**
   * A successful reply from the endpoint shows its prediction on the App
   * page; on the Predict Sales page the reply becomes the result, which
   * holds no `predicted_sales` for that page to display.
   */
  method ReplyOnBothPages(app: AppForm.AppPage, page: PredictSales.PredictSalesPage, prediction: int)
    requires page.loading
    modifies app, page
    ensures app.prediction == AppForm.Predicted(prediction)
    ensures page.result.Some? && "predicted_sales" !in page.result.value
  {
    ResponseKey(prediction);
    app.Settle(Ok(Respond(prediction)));
    page.Settle(Ok(Respond(prediction)));
  }
}
