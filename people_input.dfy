/**
 * The input side of PeopleAPI (apiTest.php and api.php, which agree here):
 * sanitizeInput(), the body selection and sanitising loop of getInputData(),
 * and validatePersonData().
 */
module PeopleInput {
  import opened PhpValues
  import opened PhpStrings

  // ---------------------------------------------------------------------
  // sanitizeInput()

  /** Every string anywhere inside `v` is free of markup characters. */
  predicate Escaped(v: Value)
    decreases v
  {
    match v
    case Str(s) => HasNoMarkup(s)
    case Arr(es) => forall i :: 0 <= i < |es| ==> Escaped(es[i].val)
    case _ => true
  }

  /**
   * `r` has the structure of `v`: strings stay strings, other scalars stay
   * exactly as they were, and arrays keep their length and their keys in
   * order, with values of the same shape.
   */
  predicate SameShape(v: Value, r: Value)
    decreases v
  {
    match v
    case Str(_) => r.Str?
    case Arr(es) =>
      && r.Arr? && |r.entries| == |es|
      && forall i :: 0 <= i < |es| ==>
           r.entries[i].key == es[i].key && SameShape(es[i].val, r.entries[i].val)
    case _ => r == v
  }

  /**
   * sanitizeInput(): arrays are sanitised entry by entry, strings become
   * htmlspecialchars(strip_tags(s), ENT_QUOTES), other scalars pass through.
   */
  function Sanitize(v: Value): (r: Value)
    ensures SameShape(v, r)
    ensures Escaped(r)
    decreases v
  {
    match v
    case Str(s) => Str(HtmlSpecialChars(StripTags(s)))
    case Arr(es) => Arr(seq(|es|, i requires 0 <= i < |es| => Entry(es[i].key, Sanitize(es[i].val))))
    case _ => v
  }

  /**
   * A string with no special characters comes out of sanitizeInput()
   * unchanged; in particular a decimal id does.
   */
  lemma SanitizeKeepsPlainText(s: string)
    requires HasNoSpecialChars(s)
    ensures Sanitize(Str(s)) == Str(s)
  {
    StripTagsKeepsTextWithoutLt(s);
    HtmlSpecialCharsKeepsPlainText(s);
  }

  /**
   * Reading a key of a sanitised array gives the sanitised value stored
   * under that key: sanitising keeps every key where it was.
   */
  lemma {:induction false} LookupSanitized(es: seq<Entry>, k: Key)
    ensures Lookup(Sanitize(Arr(es)).entries, k)
         == (match Lookup(es, k) case None => None case Some(v) => Some(Sanitize(v)))
  {
    var r := Sanitize(Arr(es)).entries;
    if es != [] {
      assert r[0] == Entry(es[0].key, Sanitize(es[0].val));
      assert r[1..] == Sanitize(Arr(es[1..])).entries;
      LookupSanitized(es[1..], k);
    }
  }

  /** A numeric id holds only digits and signs, so sanitising leaves it as it is. */
  lemma NumericIdIsPlainText(id: string)
    requires IsNumeric(id)
    ensures HasNoSpecialChars(id)
    ensures Sanitize(Str(id)) == Str(id)
  {
    assert HasNoSpecialChars(id) by {
      forall i | 0 <= i < |id| ensures !IsSpecialChar(id[i]) {
        assert IsDigit(id[i]) || id[i] == '+' || id[i] == '-';
      }
    }
    SanitizeKeepsPlainText(id);
  }

  // ---------------------------------------------------------------------
  // getInputData()

  /**
   * What a request carries: the body as json_decode($body, true) returns it
   * (None when the body is empty, is not JSON, or is the JSON null) and the
   * form fields PHP put in $_POST.
   */
  datatype RequestBody = RequestBody(json: Option<Value>, form: seq<Entry>)

  /**
   * The data getInputData() starts from: the decoded JSON if there is any,
   * replaced by the form fields when that is empty() and there are form
   * fields.
   */
  function ChosenInput(body: RequestBody): (r: Value)
    ensures body.json.Some? && !Empty(body.json.value) ==> r == body.json.value
    ensures (body.json.None? || Empty(body.json.value)) && body.form != [] ==> r == Arr(body.form)
    ensures (body.json.None? || Empty(body.json.value)) && body.form == [] ==> Empty(r)
  {
    var decoded := if body.json.Some? && body.json.value != Null then body.json.value else Arr([]);
    if Empty(decoded) && body.form != [] then Arr(body.form) else decoded
  }

  /**
   * The result of getInputData(): an array has each of its values sanitised;
   * the foreach does not run over a scalar, which is returned as it is.
   */
  function SanitizedInput(body: RequestBody): (r: Value)
    ensures ChosenInput(body).Arr? ==> r == Sanitize(ChosenInput(body))
    ensures !ChosenInput(body).Arr? ==> r == ChosenInput(body)
  {
    var d := ChosenInput(body);
    if d.Arr? then Sanitize(d) else d
  }

  /** getInputData(): choose the input, then overwrite each entry with its sanitised value. */
  method GetInputData(body: RequestBody) returns (data: Value)
    ensures data == SanitizedInput(body)
    ensures data.Arr? ==> Escaped(data)
  {
    data := ChosenInput(body);
    if data.Arr? {
      var original := data.entries;
      var es := original;
      for i := 0 to |es|
        invariant |es| == |original|
        invariant forall j :: 0 <= j < i ==> es[j] == Entry(original[j].key, Sanitize(original[j].val))
        invariant forall j :: i <= j < |es| ==> es[j] == original[j]
      {
        es := es[i := Entry(es[i].key, Sanitize(es[i].val))];
      }
      data := Arr(es);
      assert data == Sanitize(Arr(original));
    }
  }

  // ---------------------------------------------------------------------
  // validatePersonData()

  /** How one field check of validatePersonData() ends. */
  datatype Check =
    | Pass     // the field is present and not blank
    | Fail     // the method returns false
    | Throws   // trim() was handed an array: PHP throws a TypeError

  const RequiredFields: seq<string> := ["firstname", "lastname", "phone"]

  /** `!isset($data[$field]) || trim($data[$field]) === ''` for one field. */
  function FieldCheck(data: Value, field: string): (c: Check)
    ensures c.Pass? ==> IsSetField(data, field)
    ensures c.Throws? ==> IsSetField(data, field) && Lookup(data.entries, StrKey(field)).value.Arr?
  {
    if !IsSetField(data, field) then Fail
    else match ToPhpString(Lookup(data.entries, StrKey(field)).value)
      case None => Throws
      case Some(s) => if Trim(s) == "" then Fail else Pass
  }

  /** The fields' checks in order, stopping at the first that does not pass. */
  function CheckFields(data: Value, fields: seq<string>): (c: Check)
    ensures c.Pass? <==> forall i :: 0 <= i < |fields| ==> FieldCheck(data, fields[i]).Pass?
  {
    if fields == [] then Pass
    else
      var c := FieldCheck(data, fields[0]);
      if !c.Pass? then c else CheckFields(data, fields[1..])
  }

  /**
   * When the fields before index k pass and field k does not, the checks end
   * with field k's outcome: the failures are reported in field order.
   */
  lemma {:induction false} CheckFieldsStopsAtFirstFailure(data: Value, fields: seq<string>, k: nat)
    requires k < |fields|
    requires forall j :: 0 <= j < k ==> FieldCheck(data, fields[j]).Pass?
    requires !FieldCheck(data, fields[k]).Pass?
    ensures CheckFields(data, fields) == FieldCheck(data, fields[k])
  {
    if k > 0 {
      assert FieldCheck(data, fields[0]).Pass?;
      assert forall j :: 0 <= j < k - 1 ==> fields[1..][j] == fields[j + 1];
      CheckFieldsStopsAtFirstFailure(data, fields[1..], k - 1);
    }
  }

  /** validatePersonData() on the outcome of CheckFields. */
  function PersonDataCheck(data: Value): (c: Check)
    ensures c.Pass? ==> IsSetField(data, "firstname") && IsSetField(data, "lastname") && IsSetField(data, "phone")
  {
    var c := CheckFields(data, RequiredFields);
    assert c.Pass? ==> FieldCheck(data, RequiredFields[1]).Pass? && FieldCheck(data, RequiredFields[2]).Pass?;
    c
  }

  /**
   * validatePersonData() accepts exactly the data in which firstname,
   * lastname and phone are all set, none is an array, and none is blank
   * after trim().
   */
  lemma PersonDataCheckPassIff(data: Value)
    ensures PersonDataCheck(data).Pass? <==>
      forall f :: f in RequiredFields ==>
        IsSetField(data, f)
        && !Lookup(data.entries, StrKey(f)).value.Arr?
        && !AllTrimChars(ToPhpString(Lookup(data.entries, StrKey(f)).value).value)
  {
  }

  /** validatePersonData(): the guard loop over the required fields, returning at the first failure. */
  method ValidatePersonData(data: Value) returns (c: Check)
    ensures c == PersonDataCheck(data)
  {
    for i := 0 to |RequiredFields|
      invariant forall j :: 0 <= j < i ==> FieldCheck(data, RequiredFields[j]).Pass?
    {
      var field := RequiredFields[i];
      if !IsSetField(data, field) {
        CheckFieldsStopsAtFirstFailure(data, RequiredFields, i);
        return Fail;
      }
      var text := ToPhpString(Lookup(data.entries, StrKey(field)).value);
      if text.None? {
        CheckFieldsStopsAtFirstFailure(data, RequiredFields, i);
        return Throws;
      }
      if Trim(text.value) == "" {
        CheckFieldsStopsAtFirstFailure(data, RequiredFields, i);
        return Fail;
      }
    }
    return Pass;
  }

  /** The text PDO binds for a validated field (PARAM_STR converts the value to a string). */
  function FieldText(data: Value, field: string): string
    requires FieldCheck(data, field).Pass?
  {
    ToPhpString(Lookup(data.entries, StrKey(field)).value).value
  }
}
