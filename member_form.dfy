/** The member form: its values, the empty form, the client-side
    `validate` and the submit gate that calls `onSubmit` only on a form
    with no errors. */
module MemberForm {
  import opened Wrappers
  import opened Text

  /** `MemberFormValues`. The selects hold their option names, or "" when
      nothing is chosen. `profession` is not declared by the interface but
      is set by `memberViewToFormValues`; `None` is a form without it. */
  datatype MemberFormValues = MemberFormValues(
    fullName: string,
    email: string,
    phone: string,
    cpf: string,
    sex: string,
    maritalStatus: string,
    classification: string,
    birthDate: string,
    placeOfBirth: string,
    literacy: bool,
    professionOfFaithDate: string,
    celebrant: string,
    religiousBackground: string,
    receptionDate: string,
    receptionMode: string,
    receptionLocation: string,
    baptizedInInfancy: bool,
    addressStreet: string,
    addressNumber: string,
    addressDistrict: string,
    addressCity: string,
    addressState: string,
    addressZip: string,
    addressComplement: string,
    profession: Option<string>)

  datatype FormMode = Create | Edit

  /** `EMPTY_FORM_VALUES`. */
  const EMPTY_FORM_VALUES := MemberFormValues("", "", "", "", "", "", "communicant", "", "", false, "", "", "", "", "",
                                              "", false, "", "", "", "", "", "", "", None)

  /** `createEmptyMemberFormValues`: every text empty, the classification
      `communicant` and both check boxes cleared. */
  function CreateEmptyMemberFormValues(): (r: MemberFormValues)
    ensures r.classification == "communicant" && !r.literacy && !r.baptizedInInfancy && r.profession.None?
    ensures forall f :: TextOf(r, f) == []
    ensures r.email == [] && r.phone == [] && r.cpf == [] && r.sex == [] && r.maritalStatus == []
    ensures r.birthDate == [] && r.professionOfFaithDate == [] && r.receptionDate == [] && r.receptionMode == []
    ensures r.addressNumber == [] && r.addressDistrict == [] && r.addressState == [] && r.addressZip == []
    ensures r.addressComplement == []
  {
    EMPTY_FORM_VALUES
  }

  /** The text fields `validate` requires after trimming. */
  datatype TextField = FullName | PlaceOfBirth | Celebrant | ReligiousBackground | ReceptionLocation | AddressStreet
                     | AddressCity

  function TextOf(form: MemberFormValues, field: TextField): string
  {
    match field
    case FullName => form.fullName
    case PlaceOfBirth => form.placeOfBirth
    case Celebrant => form.celebrant
    case ReligiousBackground => form.religiousBackground
    case ReceptionLocation => form.receptionLocation
    case AddressStreet => form.addressStreet
    case AddressCity => form.addressCity
  }

  const FULL_NAME_REQUIRED := "Nome completo é obrigatório."
  const PLACE_OF_BIRTH_REQUIRED := "Naturalidade é obrigatória."
  const CELEBRANT_REQUIRED := "Celebrante é obrigatório."
  const BACKGROUND_REQUIRED := "Antecedentes religiosos são obrigatórios."
  const LOCATION_REQUIRED := "Local de recepção é obrigatório."
  const STREET_REQUIRED := "Logradouro é obrigatório."
  const CITY_REQUIRED := "Cidade é obrigatória."
  const BIRTH_DATE_REQUIRED := "Data de nascimento é obrigatória."
  const RECEPTION_DATE_REQUIRED := "Data de recepção é obrigatória."
  const PROFESSION_DATE_REQUIRED := "Data de Profissão de fé é obrigatória."
  const SEX_REQUIRED := "Sexo é obrigatório."
  const MARITAL_STATUS_REQUIRED := "Estado civil é obrigatório."
  const RECEPTION_MODE_REQUIRED := "Modo de recepção é obrigatório."
  const CLASSIFICATION_REQUIRED := "Classificação é obrigatória."

  /** `requiredTextFields`, in the order `validate` checks them. */
  const REQUIRED_TEXT_FIELDS: seq<(TextField, string)> := [
    (FullName, FULL_NAME_REQUIRED),
    (PlaceOfBirth, PLACE_OF_BIRTH_REQUIRED),
    (Celebrant, CELEBRANT_REQUIRED),
    (ReligiousBackground, BACKGROUND_REQUIRED),
    (ReceptionLocation, LOCATION_REQUIRED),
    (AddressStreet, STREET_REQUIRED),
    (AddressCity, CITY_REQUIRED)]

  /** One message per listed field whose trimmed text is empty, in list
      order. */
  function MissingTexts(form: MemberFormValues, fields: seq<(TextField, string)>): (r: seq<string>)
    ensures |r| <= |fields|
    ensures forall m :: m in r ==> exists i :: 0 <= i < |fields| && fields[i].1 == m
    decreases |fields|
  {
    if fields == [] then []
    else
      var last := fields[|fields| - 1];
      MissingTexts(form, fields[..|fields| - 1]) + (if IsBlank(TextOf(form, last.0)) then [last.1] else [])
  }

  /** Exactly the blank fields' messages: each blank field's message is
      there, and each message belongs to a blank field. */
  lemma {:induction false} MissingTextsExact(form: MemberFormValues, fields: seq<(TextField, string)>)
    ensures forall i :: 0 <= i < |fields| && IsBlank(TextOf(form, fields[i].0)) ==> fields[i].1 in MissingTexts(form, fields)
    ensures forall m :: m in MissingTexts(form, fields) ==>
      exists i :: 0 <= i < |fields| && fields[i].1 == m && IsBlank(TextOf(form, fields[i].0))
    decreases |fields|
  {
    if fields != [] {
      var init := fields[..|fields| - 1];
      var last := fields[|fields| - 1];
      MissingTextsExact(form, init);
      var r := MissingTexts(form, fields);
      assert r == MissingTexts(form, init) + (if IsBlank(TextOf(form, last.0)) then [last.1] else []);
      forall i | 0 <= i < |fields| && IsBlank(TextOf(form, fields[i].0))
        ensures fields[i].1 in r
      {
        if i < |init| {
          assert fields[i] == init[i];
        }
      }
      forall m | m in r
        ensures exists i :: 0 <= i < |fields| && fields[i].1 == m && IsBlank(TextOf(form, fields[i].0))
      {
        if m in MissingTexts(form, init) {
          var i :| 0 <= i < |init| && init[i].1 == m && IsBlank(TextOf(form, init[i].0));
          assert fields[i] == init[i];
        } else {
          assert fields[|fields| - 1].1 == m;
        }
      }
    }
  }

  /** A message for a check that fails, or nothing. */
  function MessageIf(fails: bool, message: string): seq<string>
  {
    if fails then [message] else []
  }

  /** The messages after the text fields: the three dates (not trimmed),
      the three selects and, in create mode only, the classification. */
  function OtherErrors(form: MemberFormValues, mode: FormMode): seq<string>
  {
    MessageIf(form.birthDate == [], BIRTH_DATE_REQUIRED)
    + MessageIf(form.receptionDate == [], RECEPTION_DATE_REQUIRED)
    + MessageIf(form.professionOfFaithDate == [], PROFESSION_DATE_REQUIRED)
    + MessageIf(form.sex == [], SEX_REQUIRED)
    + MessageIf(form.maritalStatus == [], MARITAL_STATUS_REQUIRED)
    + MessageIf(form.receptionMode == [], RECEPTION_MODE_REQUIRED)
    + MessageIf(mode == Create && form.classification == [], CLASSIFICATION_REQUIRED)
  }

  /** What `validate` returns. */
  function ValidationErrors(form: MemberFormValues, mode: FormMode): (r: seq<string>)
    ensures |r| <= |REQUIRED_TEXT_FIELDS| + 7
    ensures form.birthDate == [] ==> BIRTH_DATE_REQUIRED in r
    ensures form.sex == [] ==> SEX_REQUIRED in r
    ensures mode == Edit ==> CLASSIFICATION_REQUIRED !in r
  {
    MissingTexts(form, REQUIRED_TEXT_FIELDS) + OtherErrors(form, mode)
  }

  /** `validate`: it walks the required text fields, pushing a message for
      each blank one, then checks the dates and the selects. */
  method Validate(form: MemberFormValues, mode: FormMode) returns (errors: seq<string>)
    ensures errors == ValidationErrors(form, mode)
  {
    errors := [];
    var i := 0;
    while i < |REQUIRED_TEXT_FIELDS|
      invariant 0 <= i <= |REQUIRED_TEXT_FIELDS|
      invariant errors == MissingTexts(form, REQUIRED_TEXT_FIELDS[..i])
    {
      var (field, message) := REQUIRED_TEXT_FIELDS[i];
      assert REQUIRED_TEXT_FIELDS[..i + 1][..i] == REQUIRED_TEXT_FIELDS[..i];
      if IsBlank(TextOf(form, field)) {
        errors := errors + [message];
      }
      i := i + 1;
    }
    assert REQUIRED_TEXT_FIELDS[..i] == REQUIRED_TEXT_FIELDS;
    var others := CheckOthers(form, mode);
    errors := errors + others;
  }

  /** The checks after the text fields, each pushing its message. */
  method CheckOthers(form: MemberFormValues, mode: FormMode) returns (errors: seq<string>)
    ensures errors == OtherErrors(form, mode)
  {
    errors := [];
    if form.birthDate == [] {
      errors := errors + [BIRTH_DATE_REQUIRED];
    }
    ghost var done := MessageIf(form.birthDate == [], BIRTH_DATE_REQUIRED);
    assert errors == done;
    if form.receptionDate == [] {
      errors := errors + [RECEPTION_DATE_REQUIRED];
    }
    done := done + MessageIf(form.receptionDate == [], RECEPTION_DATE_REQUIRED);
    assert errors == done;
    if form.professionOfFaithDate == [] {
      errors := errors + [PROFESSION_DATE_REQUIRED];
    }
    done := done + MessageIf(form.professionOfFaithDate == [], PROFESSION_DATE_REQUIRED);
    assert errors == done;
    if form.sex == [] {
      errors := errors + [SEX_REQUIRED];
    }
    done := done + MessageIf(form.sex == [], SEX_REQUIRED);
    assert errors == done;
    if form.maritalStatus == [] {
      errors := errors + [MARITAL_STATUS_REQUIRED];
    }
    done := done + MessageIf(form.maritalStatus == [], MARITAL_STATUS_REQUIRED);
    assert errors == done;
    if form.receptionMode == [] {
      errors := errors + [RECEPTION_MODE_REQUIRED];
    }
    done := done + MessageIf(form.receptionMode == [], RECEPTION_MODE_REQUIRED);
    assert errors == done;
    if mode == Create && form.classification == [] {
      errors := errors + [CLASSIFICATION_REQUIRED];
    }
  }

  /** A form that passes every check, stated field by field. */
  predicate FormIsComplete(form: MemberFormValues, mode: FormMode)
  {
    && (forall f :: !IsBlank(TextOf(form, f)))
    && form.birthDate != [] && form.receptionDate != [] && form.professionOfFaithDate != []
    && form.sex != [] && form.maritalStatus != [] && form.receptionMode != []
    && (mode == Create ==> form.classification != [])
  }

  /** The listed fields with no message are exactly the non-blank ones. */
  lemma {:induction false} MissingTextsEmpty(form: MemberFormValues, fields: seq<(TextField, string)>)
    ensures MissingTexts(form, fields) == [] <==> forall i :: 0 <= i < |fields| ==> !IsBlank(TextOf(form, fields[i].0))
    decreases |fields|
  {
    if fields != [] {
      var init := fields[..|fields| - 1];
      MissingTextsEmpty(form, init);
      assert forall i :: 0 <= i < |init| ==> init[i] == fields[i];
    }
  }

  /** Every text field is listed. */
  lemma EveryTextFieldListed(f: TextField)
    ensures exists i :: 0 <= i < |REQUIRED_TEXT_FIELDS| && REQUIRED_TEXT_FIELDS[i].0 == f
  {
    match f
    case FullName => assert REQUIRED_TEXT_FIELDS[0].0 == f;
    case PlaceOfBirth => assert REQUIRED_TEXT_FIELDS[1].0 == f;
    case Celebrant => assert REQUIRED_TEXT_FIELDS[2].0 == f;
    case ReligiousBackground => assert REQUIRED_TEXT_FIELDS[3].0 == f;
    case ReceptionLocation => assert REQUIRED_TEXT_FIELDS[4].0 == f;
    case AddressStreet => assert REQUIRED_TEXT_FIELDS[5].0 == f;
    case AddressCity => assert REQUIRED_TEXT_FIELDS[6].0 == f;
  }

  /** `validate` returns no message exactly when the form is complete. */
  lemma NoErrorsIffComplete(form: MemberFormValues, mode: FormMode)
    ensures ValidationErrors(form, mode) == [] <==> FormIsComplete(form, mode)
  {
    MissingTextsEmpty(form, REQUIRED_TEXT_FIELDS);
    forall f | true
      ensures (forall i :: 0 <= i < |REQUIRED_TEXT_FIELDS| ==> !IsBlank(TextOf(form, REQUIRED_TEXT_FIELDS[i].0)))
              ==> !IsBlank(TextOf(form, f))
    {
      EveryTextFieldListed(f);
    }
  }

  /** The classification is not checked when editing, and in create mode
      only its emptiness matters. */
  lemma ClassificationOnlyRequired(form: MemberFormValues, c: string)
    ensures ValidationErrors(form.(classification := c), Edit) == ValidationErrors(form, Edit)
    ensures c != [] && form.classification != [] ==>
      ValidationErrors(form.(classification := c), Create) == ValidationErrors(form, Create)
    ensures c == [] ==> CLASSIFICATION_REQUIRED in ValidationErrors(form.(classification := c), Create)
  {
    MissingTextsOfSameTexts(form, form.(classification := c), REQUIRED_TEXT_FIELDS);
  }

  /** The text messages depend on the listed texts only. */
  lemma {:induction false} MissingTextsOfSameTexts(a: MemberFormValues, b: MemberFormValues,
                                                    fields: seq<(TextField, string)>)
    requires forall f :: TextOf(a, f) == TextOf(b, f)
    ensures MissingTexts(a, fields) == MissingTexts(b, fields)
    decreases |fields|
  {
    if fields != [] {
      MissingTextsOfSameTexts(a, b, fields[..|fields| - 1]);
    }
  }

  /** The messages of a list of fields. */
  function Messages(fields: seq<(TextField, string)>): (r: seq<string>)
    ensures |r| == |fields| && forall i :: 0 <= i < |fields| ==> r[i] == fields[i].1
  {
    seq(|fields|, i requires 0 <= i < |fields| => fields[i].1)
  }

  /** With every listed text blank, each listed field gets its message. */
  lemma {:induction false} AllBlankAllMissing(form: MemberFormValues, fields: seq<(TextField, string)>)
    requires forall f :: IsBlank(TextOf(form, f))
    ensures MissingTexts(form, fields) == Messages(fields)
    decreases |fields|
  {
    if fields != [] {
      AllBlankAllMissing(form, fields[..|fields| - 1]);
    }
  }

  /** The empty form, in create mode, gets every message but the
      classification one, in order. */
  lemma EmptyFormErrors()
    ensures ValidationErrors(EMPTY_FORM_VALUES, Create)
            == [FULL_NAME_REQUIRED, PLACE_OF_BIRTH_REQUIRED, CELEBRANT_REQUIRED, BACKGROUND_REQUIRED,
                LOCATION_REQUIRED, STREET_REQUIRED, CITY_REQUIRED, BIRTH_DATE_REQUIRED, RECEPTION_DATE_REQUIRED,
                PROFESSION_DATE_REQUIRED, SEX_REQUIRED, MARITAL_STATUS_REQUIRED, RECEPTION_MODE_REQUIRED]
  {
    EmptyFormTextsMissing();
    EmptyFormOthersMissing();
  }

  /** Every date and select of the empty form is missing; its
      classification is set. */
  lemma EmptyFormOthersMissing()
    ensures OtherErrors(EMPTY_FORM_VALUES, Create) == [BIRTH_DATE_REQUIRED, RECEPTION_DATE_REQUIRED,
      PROFESSION_DATE_REQUIRED, SEX_REQUIRED, MARITAL_STATUS_REQUIRED, RECEPTION_MODE_REQUIRED]
  {
  }

  /** Every required text of the empty form is missing. */
  lemma EmptyFormTextsMissing()
    ensures MissingTexts(EMPTY_FORM_VALUES, REQUIRED_TEXT_FIELDS)
            == [FULL_NAME_REQUIRED, PLACE_OF_BIRTH_REQUIRED, CELEBRANT_REQUIRED,
                BACKGROUND_REQUIRED, LOCATION_REQUIRED, STREET_REQUIRED, CITY_REQUIRED]
  {
    assert IsBlank([]);
    AllBlankAllMissing(EMPTY_FORM_VALUES, REQUIRED_TEXT_FIELDS);
  }

  /** The form component's state: the values being edited, the errors of
      the last submit and whether a submit happened. */
  class MemberFormState {
    const mode: FormMode
    var values: MemberFormValues
    var clientErrors: seq<string>
    var hasSubmitted: bool

    /** `{ ...EMPTY_FORM_VALUES, ...initialValues }` keeps every field of
        the initial values, which declare them all. */
    constructor(mode: FormMode, initialValues: MemberFormValues)
      ensures this.mode == mode && values == initialValues && clientErrors == [] && !hasSubmitted
    {
      this.mode := mode;
      values := initialValues;
      clientErrors := [];
      hasSubmitted := false;
    }

    /** Error messages show once a submit happened. */
    predicate ShowsErrors()
      reads this
    {
      |clientErrors| > 0 && hasSubmitted
    }

    /** `handleSubmit`: it validates the current values; with errors it
        keeps them and submits nothing, otherwise it clears them and hands
        the values to `onSubmit` (the returned `Some`). */
    method HandleSubmit() returns (submitted: Option<MemberFormValues>)
      modifies this
      ensures hasSubmitted && values == old(values)
      ensures ValidationErrors(values, mode) != [] ==> submitted.None? && clientErrors == ValidationErrors(values, mode)
      ensures ValidationErrors(values, mode) == [] ==> submitted == Some(values) && clientErrors == []
      ensures submitted.Some? <==> FormIsComplete(values, mode)
    {
      hasSubmitted := true;
      var errors := Validate(values, mode);
      NoErrorsIffComplete(values, mode);
      if |errors| > 0 {
        clientErrors := errors;
        return None;
      }
      clientErrors := [];
      return Some(values);
    }
  }
}
