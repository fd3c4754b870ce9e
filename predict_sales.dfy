/**
 * The Predict Sales page: a form of fourteen fields, the coercion its two ID
 * inputs apply to what is typed, and the submit cycle (loading, result and
 * error) around the prediction request.
 */
module PredictSales {
  import opened Common
  import opened JsText

  /** The names of the form's fields, in the order the form state declares them. */
  const FieldNames: seq<string> := [
    "store_id", "product_id", "category", "region", "date",
    "inventory_level", "units_ordered", "demand_forecast", "price",
    "discount", "weather_condition", "holiday_promotion",
    "competitor_pricing", "seasonality"]

  /** The form as first rendered: every one of the fourteen fields holds ''. */
  function InitialForm(): (f: map<string, Json>)
    ensures |f| == 14
    ensures forall k :: k in f <==> k in FieldNames
    ensures forall k :: k in f ==> f[k] == JString("")
  {
    assert Distinct(FieldNames);
    DistinctCard(FieldNames);
    var f := map k | k in FieldNames :: JString("");
    assert f.Keys == Elems(FieldNames);
    f
  }

  /**
   * What an ID input stores for the typed text: `parseInt(text) || ''`. A
   * parsed integer is kept unless it is 0, which is falsy; NaN is falsy too.
   */
  function CoerceId(text: string): (v: Json)
    ensures v == JString("") || (v.JNumber? && v.n != 0 && ParseInt(text) == Some(v.n))
    ensures ParseInt(text).None? ==> v == JString("")
  {
    var n := ParseInt(text);
    if n.Some? && n.value != 0 then JNumber(n.value) else JString("")
  }

  /** Typing the decimal text of a non-zero integer stores that integer. */
  lemma CoerceIdOfDecimal(n: int)
    requires n != 0
    ensures CoerceId(IntToString(n)) == JNumber(n)
  {
    ParseIntOfIntToString(n, true);
  }

  /** Typing "0" stores '', as does text without a digit (such as the empty text). */
  lemma CoerceIdFalsy(text: string)
    requires text == "0" || forall i :: 0 <= i < |text| ==> !IsDecimalDigit(text[i])
    ensures CoerceId(text) == JString("")
  {
    if text == "0" {
      ParseIntOfIntToString(0, true);
      assert IntToString(0) == "0";
    } else {
      ParseIntNoDigit(text, true);
    }
  }

  /** Coercing what an ID input shows again leaves it unchanged. */
  lemma CoerceIdStable(text: string)
    ensures var v := CoerceId(text);
      v.JNumber? ==> CoerceId(IntToString(v.n)) == v
  {
    var v := CoerceId(text);
    if v.JNumber? {
      CoerceIdOfDecimal(v.n);
    }
  }

  /** The message shown for a failed request: the server's `error` text if truthy. */
  function ErrorMessage(errorField: Option<string>): (m: string)
    ensures m != ""
    ensures errorField.Some? && errorField.value != "" ==> m == errorField.value
    ensures errorField.None? || errorField.value == "" ==> m == "An error occurred"
  {
    if errorField.Some? && errorField.value != "" then errorField.value else "An error occurred"
  }

  /**
   * The browser's constraint validation: every input of the form is
   * `required`, so the form is submitted only when no field holds ''.
   */
  predicate Complete(form: map<string, Json>) {
    forall i :: 0 <= i < |FieldNames| ==> FieldNames[i] in form && form[FieldNames[i]] != JString("")
  }

  /** The page's state. */
  class PredictSalesPage {
    var formData: map<string, Json>
    var loading: bool
    var result: Option<map<string, int>>
    var error: Option<string>

    /** The form holds exactly the fourteen fields. */
    ghost predicate Valid()
      reads this
    {
      forall k :: k in formData <==> k in FieldNames
    }

    /** The page as first rendered: empty form, not loading, no result, no error. */
    constructor ()
      ensures Valid()
      ensures formData == InitialForm()
      ensures !loading && result == None && error == None
    {
      formData := InitialForm();
      loading := false;
      result := None;
      error := None;
    }

    /** `handleChange`: the named field takes the value; no other field changes. */
    method HandleChange(name: string, value: Json)
      requires Valid() && name in FieldNames
      modifies this`formData
      ensures Valid()
      ensures formData == old(formData)[name := value]
      ensures name in formData && formData[name] == value
      ensures forall k :: k != name ==> (k in formData <==> k in old(formData))
      ensures forall k :: k in old(formData) && k != name ==> formData[k] == old(formData)[k]
    {
      formData := formData[name := value];
    }

    /** The change handler of the Store ID and Product ID inputs. */
    method HandleIdInput(name: string, text: string)
      requires Valid() && (name == "store_id" || name == "product_id")
      modifies this`formData
      ensures Valid()
      ensures formData == old(formData)[name := CoerceId(text)]
    {
      HandleChange(name, CoerceId(text));
    }

    /**
     * Pressing the submit button. While a request is pending the button is
     * disabled, and while a field is empty the browser refuses the form;
     * either way nothing happens (posted is None). Otherwise `handleSubmit`
     * runs (the browser's range check on the discount is not part of the
     * guard): the form is posted, loading is set and the error cleared; a
     * previous result stays. What is posted has only the form's own field
     * names as keys.
     */
    method Submit() returns (posted: Option<map<string, Json>>)
      requires Valid()
      modifies this`loading, this`error
      ensures old(loading) || !Complete(formData) ==>
        posted == None && loading == old(loading) && error == old(error)
      ensures !old(loading) && Complete(formData) ==>
        posted == Some(formData) && loading && error == None
      ensures posted.Some? ==> forall k :: k in posted.value ==> k in FieldNames
      ensures result == old(result) && formData == old(formData)
    {
      if loading || !Complete(formData) {
        posted := None;
        return;
      }
      loading := true;
      error := None;
      posted := Some(formData);
    }

    /**
     * The pending request settled. A reply body becomes the result; a
     * failure sets the error message and keeps the previous result. Either
     * way loading ends.
     */
    method Settle(reply: Reply)
      requires loading
      modifies this`loading, this`result, this`error
      ensures !loading && formData == old(formData)
      ensures reply.Ok? ==> result == Some(reply.body) && error == old(error)
      ensures reply.Failed? ==> result == old(result) && error == Some(ErrorMessage(reply.errorField))
    {
      if reply.Ok? {
        result := Some(reply.body);
      } else {
        error := Some(ErrorMessage(reply.errorField));
      }
      loading := false;
    }
  }
}
