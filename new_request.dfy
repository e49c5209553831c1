/**
 * The request-creation form (src/pages/requests/NewRequestPage.tsx): its state and the
 * handlers that change it, the validator run before submission, the record handed to the
 * data store, and the price recap shown under the form.
 */
module NewRequest {
  import opened Wrappers
  import opened Types
  import opened Documents
  import opened JsText

  /** The form state; the empty `document_type` (`''`) is None. */
  datatype FormData = FormData(
    documentType: Option<DocumentType>,
    city: string,
    copies: int,
    fields: map<string, string>)

  /** What the handlers change: the form and the wizard step (1 = choose, 2 = fill in). */
  datatype PageState = PageState(form: FormData, step: nat)

  const InitialState: PageState := PageState(FormData(None, "", 1, map[]), 1)

  /** The fresh form asks for a document first, has no price yet and shows no recap. */
  lemma InitialStateShowsNothing()
    ensures InitialState.step == 1 && InitialState.form.copies == 1
    ensures Validate(InitialState.form) == Invalid(NoDocument)
    ensures EstimatedPrice(InitialState.form) == 0
    ensures Recap(InitialState.form).None?
    ensures EstimatedTime(InitialState.form, 0).None?
  {
  }

  /** `handleDocumentSelect(docType)`: choose the document, forget the fields typed so far. */
  function SelectDocument(st: PageState, d: DocumentType): (r: PageState)
    ensures r.form.documentType == Some(d) && r.form.fields == map[]
    ensures r.form.city == st.form.city && r.form.copies == st.form.copies
    ensures r.step == 2
  {
    PageState(st.form.(documentType := Some(d), fields := map[]), 2)
  }

  /** `handleFormDataChange(field, value)`: set one field and nothing else. */
  function SetField(form: FormData, field: string, value: string): (r: FormData)
    ensures r.fields.Keys == form.fields.Keys + {field}
    ensures field in r.fields && r.fields[field] == value
    ensures forall k :: k in form.fields && k != field ==> r.fields[k] == form.fields[k]
    ensures r.documentType == form.documentType && r.city == form.city && r.copies == form.copies
  {
    form.(fields := form.fields[field := value])
  }

  /** The city selector's `onChange`. */
  function SetCity(form: FormData, city: string): (r: FormData)
    ensures r.city == city
    ensures r.documentType == form.documentType && r.copies == form.copies && r.fields == form.fields
  {
    form.(city := city)
  }

  /** `parseInt(value) || 1`: a `NaN` or zero parse becomes 1; anything else is kept, sign included. */
  function ParseCopies(input: string): (n: int)
    ensures n != 0
  {
    match ParseInt(input)
    case None => 1
    case Some(v) => if v == 0 then 1 else v
  }

  /** Any non-zero count typed in is read back as itself. */
  lemma ParseCopiesReadsBack(n: int)
    requires n != 0
    ensures ParseCopies(DecimalString(n)) == n
  {
    ParseIntDecimalString(n);
  }

  /** An empty input (`NaN`) and a zero both become 1. */
  lemma ParseCopiesDefaults()
    ensures ParseCopies("") == 1
    ensures ParseCopies("0") == 1
  {
    ParseIntEmpty();
    ParseIntNatString(0);
    assert NatString(0) == "0";
  }

  /** The copies input's `onChange`. */
  function SetCopies(form: FormData, input: string): (r: FormData)
    ensures r.copies == ParseCopies(input) && r.copies != 0
    ensures r.documentType == form.documentType && r.city == form.city && r.fields == form.fields
  {
    form.(copies := ParseCopies(input))
  }

  datatype ValidationError = NoDocument | NoCity | MissingField(field: string)

  datatype Verdict = Valid | Invalid(error: ValidationError)

  /** The text `validateForm` puts in the error banner. */
  function ErrorMessage(e: ValidationError): string {
    match e
    case NoDocument => "Veuillez sélectionner un type de document"
    case NoCity => "Veuillez sélectionner une ville"
    case MissingField(f) => "Le champ \"" + ReplaceFirst(f, '_', ' ') + "\" est requis"
  }

  /** `form_data[field]?.trim()` is truthy: the field is present and not blank. */
  predicate Filled(data: map<string, string>, field: string) {
    field in data && Trim(data[field]) != ""
  }

  /** The first of `fields`, in order, that is not filled in. */
  function FirstMissing(fields: seq<string>, data: map<string, string>): Option<string> {
    if fields == [] then None
    else if !Filled(data, fields[0]) then Some(fields[0])
    else FirstMissing(fields[1..], data)
  }

  /** FirstMissing reports a missing field, and only when every field before it is filled. */
  lemma {:induction false} FirstMissingIsFirst(fields: seq<string>, data: map<string, string>)
    ensures FirstMissing(fields, data).None? <==> forall i :: 0 <= i < |fields| ==> Filled(data, fields[i])
    ensures FirstMissing(fields, data).Some? ==>
              exists k :: 0 <= k < |fields| && fields[k] == FirstMissing(fields, data).value
                          && !Filled(data, fields[k])
                          && forall j :: 0 <= j < k ==> Filled(data, fields[j])
  {
    if fields != [] && Filled(data, fields[0]) {
      FirstMissingIsFirst(fields[1..], data);
      if FirstMissing(fields[1..], data).Some? {
        var k :| 0 <= k < |fields[1..]| && fields[1..][k] == FirstMissing(fields[1..], data).value
                 && !Filled(data, fields[1..][k])
                 && forall j :: 0 <= j < k ==> Filled(data, fields[1..][j]);
        assert fields[k + 1] == fields[1..][k];
        assert forall j :: 0 <= j < k + 1 ==> Filled(data, fields[j]) by {
          forall j | 0 <= j < k + 1 ensures Filled(data, fields[j]) {
            if j > 0 { assert fields[j] == fields[1..][j - 1]; }
          }
        }
      } else {
        assert forall i :: 0 <= i < |fields| ==> Filled(data, fields[i]) by {
          forall i | 0 <= i < |fields| ensures Filled(data, fields[i]) {
            if i > 0 { assert fields[i] == fields[1..][i - 1]; }
          }
        }
      }
    }
  }

  /** Only the listed fields matter: values stored under other keys never change the outcome. */
  lemma {:induction false} FirstMissingIgnoresOtherKeys(fields: seq<string>, a: map<string, string>, b: map<string, string>)
    requires forall i :: 0 <= i < |fields| ==> Filled(a, fields[i]) == Filled(b, fields[i])
    ensures FirstMissing(fields, a) == FirstMissing(fields, b)
  {
    if fields != [] {
      assert forall i :: 0 <= i < |fields[1..]| ==> fields[1..][i] == fields[i + 1];
      FirstMissingIgnoresOtherKeys(fields[1..], a, b);
    }
  }

  /** What `validateForm` decides: document, then city, then the required fields in catalog order. */
  function Validate(form: FormData): Verdict {
    if form.documentType.None? then Invalid(NoDocument)
    else if form.city == "" then Invalid(NoCity)
    else
      match FirstMissing(Config(form.documentType.value).requiredFields, form.fields)
      case Some(f) => Invalid(MissingField(f))
      case None => Valid
  }

  /**
   * `validateForm()`: returns at the first failure with the error the banner shows.
   * The source's `if (!selectedDocConfig) return false` cannot fire: every chosen document
   * type has a catalog entry, so it has no counterpart here.
   */
  method ValidateForm(form: FormData) returns (v: Verdict)
    ensures v == Validate(form)
  {
    if form.documentType.None? {
      return Invalid(NoDocument);
    }
    if form.city == "" {
      return Invalid(NoCity);
    }
    var required := Config(form.documentType.value).requiredFields;
    for i := 0 to |required|
      invariant FirstMissing(required[i..], form.fields) == FirstMissing(required, form.fields)
    {
      var field := required[i];
      assert required[i..][1..] == required[i + 1..];
      if !(field in form.fields && Trim(form.fields[field]) != "") {
        return Invalid(MissingField(field));
      }
    }
    return Valid;
  }

  /** The form passes exactly when a document and a city are chosen and every required field is filled. */
  lemma ValidIff(form: FormData)
    ensures Validate(form) == Valid <==>
              form.documentType.Some? && form.city != ""
              && forall i :: 0 <= i < |Config(form.documentType.value).requiredFields| ==>
                   Filled(form.fields, Config(form.documentType.value).requiredFields[i])
  {
    if form.documentType.Some? {
      FirstMissingIsFirst(Config(form.documentType.value).requiredFields, form.fields);
    }
  }

  /** A missing document is reported before anything else, and a missing city before any field. */
  lemma ValidateOrder(form: FormData)
    ensures form.documentType.None? ==> Validate(form) == Invalid(NoDocument)
    ensures form.documentType.Some? && form.city == "" ==> Validate(form) == Invalid(NoCity)
    ensures Validate(form).Invalid? && Validate(form).error.MissingField? ==>
              form.documentType.Some? && form.city != ""
  {
  }

  /** The field reported is the first required field, in catalog order, that is absent or blank. */
  lemma ValidateReportsFirstMissing(form: FormData, f: string)
    requires Validate(form) == Invalid(MissingField(f))
    ensures form.documentType.Some?
    ensures exists k :: 0 <= k < |Config(form.documentType.value).requiredFields|
                        && Config(form.documentType.value).requiredFields[k] == f
                        && !Filled(form.fields, f)
                        && forall j :: 0 <= j < k ==> Filled(form.fields, Config(form.documentType.value).requiredFields[j])
  {
    FirstMissingIsFirst(Config(form.documentType.value).requiredFields, form.fields);
  }

  /** Setting a key that the chosen document does not require never changes the verdict. */
  lemma ExtraFieldsIgnored(form: FormData, field: string, value: string)
    requires form.documentType.Some? ==> field !in Config(form.documentType.value).requiredFields
    ensures Validate(SetField(form, field, value)) == Validate(form)
  {
    if form.documentType.Some? {
      var required := Config(form.documentType.value).requiredFields;
      FirstMissingIgnoresOtherKeys(required, SetField(form, field, value).fields, form.fields);
    }
  }

  /** Right after choosing a document, with a city chosen, the first required field is reported. */
  lemma SelectDocumentThenValidate(st: PageState, d: DocumentType)
    ensures st.form.city == "" ==> Validate(SelectDocument(st, d).form) == Invalid(NoCity)
    ensures st.form.city != "" ==>
              Validate(SelectDocument(st, d).form) == Invalid(MissingField(Config(d).requiredFields[0]))
  {
  }

  /** The row `handleSubmit` inserts. */
  datatype RequestInsert = RequestInsert(
    userId: string,
    documentType: DocumentType,
    serviceType: ServiceType,
    city: string,
    copies: int,
    totalAmount: int,
    delegateEarnings: int,
    formData: map<string, string>,
    status: RequestStatus)

  /**
   * The record `handleSubmit` builds, or None when it returns early (the form does not
   * validate, or nobody is signed in). The 60% share is computed inline, as the source does,
   * rather than by calling `calculateDelegateEarnings`.
   */
  function Submission(form: FormData, user: Option<string>): (r: Option<RequestInsert>)
    ensures r.Some? <==> Validate(form) == Valid && user.Some?
    ensures r.Some? ==>
              && r.value.userId == user.value
              && Some(r.value.documentType) == form.documentType
              && r.value.serviceType == Config(r.value.documentType).service
              && r.value.city == form.city && r.value.copies == form.copies
              && r.value.formData == form.fields
              && r.value.status == New
              && r.value.totalAmount == CalculatePrice(r.value.documentType, form.city, form.copies)
              && r.value.delegateEarnings == CalculateDelegateEarnings(r.value.totalAmount)
  {
    if Validate(form) != Valid || user.None? then None
    else
      var d := form.documentType.value;
      var totalAmount := CalculatePrice(d, form.city, form.copies);
      var delegateEarnings := RoundTenths(totalAmount * 6);   // Math.round(totalAmount * 0.6)
      Some(RequestInsert(user.value, d, Config(d).service, form.city, form.copies,
                         totalAmount, delegateEarnings, form.fields, New))
  }

  /** A submitted record with at least one copy costs more than shipping, and the delegate gets at most all of it. */
  lemma SubmissionAmounts(form: FormData, user: Option<string>)
    requires Submission(form, user).Some? && form.copies >= 1
    ensures Submission(form, user).value.totalAmount > ShippingCost(form.city)
    ensures 0 <= Submission(form, user).value.delegateEarnings <= Submission(form, user).value.totalAmount
  {
    var r := Submission(form, user).value;
    PriceVersusShipping(r.documentType, form.city, form.copies);
    EarningsWithinTotal(r.totalAmount);
  }

  /** A value whose first character is not white space is filled in. */
  lemma FilledByVisibleValue(data: map<string, string>, field: string)
    requires field in data && data[field] != [] && !IsJsWhitespace(data[field][0])
    ensures Filled(data, field)
  {
    TrimEmptyIffAllWhitespace(data[field]);
  }

  /** The birth-certificate form with every field set to `value`, at Abidjan, for -1 copies. */
  function NegativeCopiesForm(value: string): FormData {
    FormData(Some(ActeNaissance), "Abidjan", -1,
             map["nom" := value, "prenoms" := value, "date_naissance" := value, "lieu_naissance" := value])
  }

  /** Validation does not look at the copy count: a negative count reaches the data store. */
  lemma NegativeCopiesAreSubmitted(value: string)
    requires value != [] && !IsJsWhitespace(value[0])
    ensures Submission(NegativeCopiesForm(value), Some("u")).Some?
    ensures Submission(NegativeCopiesForm(value), Some("u")).value.totalAmount == -1000
  {
    var form := NegativeCopiesForm(value);
    var data := form.fields;
    var required := Config(ActeNaissance).requiredFields;
    FilledByVisibleValue(data, "nom");
    FilledByVisibleValue(data, "prenoms");
    FilledByVisibleValue(data, "date_naissance");
    FilledByVisibleValue(data, "lieu_naissance");
    assert required == ["nom", "prenoms", "date_naissance", "lieu_naissance"];
    FirstMissingIsFirst(required, data);
    assert Validate(form) == Valid;
    var price := CalculatePrice(ActeNaissance, "Abidjan", -1);
    assert 10 * (price - 1000) == 2000 * 10 * -1;
  }

  /** `estimatedPrice`: the live price once both a document and a city are chosen, else 0. */
  function EstimatedPrice(form: FormData): (p: int)
    ensures form.documentType.None? || form.city == "" ==> p == 0
    ensures form.documentType.Some? && form.city != "" ==>
              p == CalculatePrice(form.documentType.value, form.city, form.copies)
  {
    if form.documentType.Some? && form.city != ""
    then CalculatePrice(form.documentType.value, form.city, form.copies)
    else 0
  }

  /** `estimatedTime`, with the current instant passed in. */
  function EstimatedTime(form: FormData, now: int): (t: Option<int>)
    ensures t.Some? <==> form.documentType.Some? && form.city != ""
    ensures t.Some? ==> t.value == EstimateCompletionTime(form.documentType.value, form.city, now)
    ensures t.Some? ==> t.value >= now + Config(form.documentType.value).processingTime * MillisecondsPerHour
  {
    if form.documentType.Some? && form.city != ""
    then Some(EstimateCompletionTime(form.documentType.value, form.city, now))
    else None
  }

  /** The three amounts of the recap block. */
  datatype RecapLines = RecapLines(documentLine: int, shippingLine: int, total: int)

  /**
   * The recap block, shown only while the estimated price is positive: a document line of
   * the total less 1000, a fixed shipping line of 1000, and the total.
   */
  function Recap(form: FormData): (r: Option<RecapLines>)
    ensures r.Some? <==> EstimatedPrice(form) > 0
    ensures r.Some? ==> r.value.documentLine + r.value.shippingLine == r.value.total
                        && r.value.total == EstimatedPrice(form)
                        && r.value.shippingLine == 1000
                        && r.value.documentLine == r.value.total - 1000
  {
    var price := EstimatedPrice(form);
    if price > 0
    then Some(RecapLines(price - (if form.city != "" then 1000 else 0), 1000, price))
    else None
  }

  /** The recap appears as soon as a document, a city and at least one copy are chosen. */
  lemma RecapShown(form: FormData)
    requires form.documentType.Some? && form.city != "" && form.copies >= 1
    ensures Recap(form).Some?
  {
    PriceVersusShipping(form.documentType.value, form.city, form.copies);
  }

  /** The recap's split into document and shipping is the real one only for Abidjan. */
  lemma RecapSplitRightOnlyForAbidjan(form: FormData)
    requires Recap(form).Some?
    ensures Recap(form).value.shippingLine == ShippingCost(form.city) <==> form.city == "Abidjan"
    ensures (Recap(form).value.documentLine == Recap(form).value.total - ShippingCost(form.city))
              <==> form.city == "Abidjan"
  {
  }

  /**
   * The recap as its labels describe it: the shipping line is the city's own shipping fee,
   * so the document line is the price of the copies alone.
   */
  function CorrectedRecap(form: FormData): (r: Option<RecapLines>)
    ensures r.Some? <==> EstimatedPrice(form) > 0
    ensures r.Some? ==> r.value.documentLine + r.value.shippingLine == r.value.total
                        && r.value.total == EstimatedPrice(form)
                        && r.value.shippingLine == ShippingCost(form.city)
                        && 10 * r.value.documentLine
                           == Config(form.documentType.value).basePrice * CityMultiplierTenths(form.city) * form.copies
  {
    var price := EstimatedPrice(form);
    if price > 0
    then Some(RecapLines(price - ShippingCost(form.city), ShippingCost(form.city), price))
    else None
  }

  /** One criminal record to Korhogo: the recap shows 5700 + 1000, the real split is 4200 + 2500. */
  lemma RecapKorhogoExample()
    ensures Recap(FormData(Some(CasierJudiciaire), "Korhogo", 1, map[])) == Some(RecapLines(5700, 1000, 6700))
    ensures CorrectedRecap(FormData(Some(CasierJudiciaire), "Korhogo", 1, map[])) == Some(RecapLines(4200, 2500, 6700))
  {
    var form := FormData(Some(CasierJudiciaire), "Korhogo", 1, map[]);
    assert ShippingCost("Korhogo") == 2500;
    assert CityMultiplierTenths("Korhogo") == 14;
    assert 10 * (EstimatedPrice(form) - 2500) == 3000 * 14 * 1;
  }
}
