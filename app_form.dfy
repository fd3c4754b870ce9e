/**
 * The single-page prediction form of App.js: eleven text inputs, the payload
 * with capitalised keys and per-field defaults that a submit sends, and the
 * prediction and error state around the request.
 */
module AppForm {
  import opened Common

  /** The form's fields, in the order the form state declares them. */
  const FormFields: seq<string> := [
    "storeId", "productId", "inventoryLevel", "unitsOrdered",
    "demandForecast", "price", "discount", "competitorPricing",
    "day", "month", "year"]

  /** The payload keys; the i-th is read from the i-th form field. */
  const PayloadKeys: seq<string> := [
    "Store ID", "Product ID", "Inventory Level", "Units Ordered",
    "Demand Forecast", "Price", "Discount", "Competitor Pricing",
    "Day", "Month", "Year"]

  /** What the i-th payload key carries when its field is empty. */
  const Defaults: seq<Json> := [
    JString(""), JString(""), JNumber(0), JNumber(0),
    JNumber(0), JNumber(0), JNumber(0), JNumber(0),
    JNumber(1), JNumber(1), JNumber(2025)]

  /** The form as first rendered: all eleven fields hold ''. */
  function InitialForm(): (f: map<string, string>)
    ensures |f| == 11
    ensures forall k :: k in f <==> k in FormFields
    ensures forall k :: k in f ==> f[k] == ""
  {
    assert Distinct(FormFields);
    DistinctCard(FormFields);
    var f := map k | k in FormFields :: "";
    assert f.Keys == Elems(FormFields);
    f
  }

  /** `form[field] || fallback`: a non-empty text is truthy and is sent as it is. */
  function OrElse(form: map<string, string>, field: string, fallback: Json): Json {
    if field in form && form[field] != "" then JString(form[field]) else fallback
  }

  /** The request payload: each capitalised key carries its field or its default. */
  function BuildPayload(form: map<string, string>): map<string, Json> {
    map[
      "Store ID" := OrElse(form, "storeId", JString("")),
      "Product ID" := OrElse(form, "productId", JString("")),
      "Inventory Level" := OrElse(form, "inventoryLevel", JNumber(0)),
      "Units Ordered" := OrElse(form, "unitsOrdered", JNumber(0)),
      "Demand Forecast" := OrElse(form, "demandForecast", JNumber(0)),
      "Price" := OrElse(form, "price", JNumber(0)),
      "Discount" := OrElse(form, "discount", JNumber(0)),
      "Competitor Pricing" := OrElse(form, "competitorPricing", JNumber(0)),
      "Day" := OrElse(form, "day", JNumber(1)),
      "Month" := OrElse(form, "month", JNumber(1)),
      "Year" := OrElse(form, "year", JNumber(2025))]
  }

  /** The payload has exactly the eleven capitalised keys. */
  lemma PayloadKeysExact(form: map<string, string>)
    ensures |BuildPayload(form)| == 11
    ensures forall k :: k in BuildPayload(form) <==> k in PayloadKeys
  {
    assert Distinct(PayloadKeys);
    DistinctCard(PayloadKeys);
    assert BuildPayload(form).Keys == Elems(PayloadKeys);
  }

  /**
   * Each payload key carries the text of its form field when that is
   * non-empty (with no conversion to a number, so "0" is sent as "0") and
   * the field's default otherwise.
   */
  lemma PayloadEntry(form: map<string, string>, i: nat)
    requires i < |PayloadKeys|
    ensures var field := FormFields[i];
      BuildPayload(form)[PayloadKeys[i]]
        == if field in form && form[field] != "" then JString(form[field]) else Defaults[i]
  {
  }

  /** Submitting the untouched form sends every default. */
  lemma PayloadOfInitialForm(i: nat)
    requires i < |PayloadKeys|
    ensures BuildPayload(InitialForm())[PayloadKeys[i]] == Defaults[i]
  {
    PayloadEntry(InitialForm(), i);
  }

  /** What the page shows below the form. */
  datatype PredictionState =
    | Cleared                  // null: nothing shown
    | Missing                  // undefined: the reply had no predicted_units_sold
    | Predicted(units: int)

  /** The page's state. */
  class AppPage {
    var formData: map<string, string>
    var prediction: PredictionState
    var error: Option<string>

    /** The page as first rendered: empty form, no prediction, no error. */
    constructor ()
      ensures formData == InitialForm() && prediction == Cleared && error == None
    {
      formData := InitialForm();
      prediction := Cleared;
      error := None;
    }

    /** `handleChange`: the named field takes the text; no other field changes. */
    method HandleChange(name: string, value: string)
      modifies this`formData
      ensures formData == old(formData)[name := value]
      ensures forall k :: k != name ==> (k in formData <==> k in old(formData))
      ensures forall k :: k in old(formData) && k != name ==> formData[k] == old(formData)[k]
    {
      formData := formData[name := value];
    }

    /**
     * The synchronous part of a submit: the error and the prediction are
     * cleared and the payload built from the current form is sent.
     */
    method BeginSubmit() returns (payload: map<string, Json>)
      modifies this`error, this`prediction
      ensures error == None && prediction == Cleared
      ensures payload == BuildPayload(formData) && formData == old(formData)
    {
      error := None;
      prediction := Cleared;
      payload := BuildPayload(formData);
    }

    /**
     * The request settled. A reply shows its `predicted_units_sold` (which
     * may be absent); a failure shows a fixed message and leaves the
     * prediction as it was.
     */
    method Settle(reply: Reply)
      modifies this`prediction, this`error
      ensures formData == old(formData)
      ensures reply.Ok? && "predicted_units_sold" in reply.body ==>
        prediction == Predicted(reply.body["predicted_units_sold"]) && error == old(error)
      ensures reply.Ok? && "predicted_units_sold" !in reply.body ==>
        prediction == Missing && error == old(error)
      ensures reply.Failed? ==>
        prediction == old(prediction)
        && error == Some("Failed to get prediction. Check the backend connection.")
    {
      if reply.Ok? {
        prediction := if "predicted_units_sold" in reply.body
          then Predicted(reply.body["predicted_units_sold"]) else Missing;
      } else {
        error := Some("Failed to get prediction. Check the backend connection.");
      }
    }
  }

  /**
   * A submit followed by a failed request leaves no prediction on the page,
   * whatever was shown before.
   */
  method SubmitThenFail(page: AppPage, failure: Option<string>) returns (payload: map<string, Json>)
    modifies page
    ensures page.prediction == Cleared
    ensures page.error == Some("Failed to get prediction. Check the backend connection.")
    ensures payload == BuildPayload(page.formData)
  {
    payload := page.BeginSubmit();
    page.Settle(Failed(failure));
  }
}
