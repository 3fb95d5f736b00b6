/** The input validators the member server actions share: they take the
    `unknown` values of a request and either return a normalised value or
    throw a plain `Error` with the given message. */
module Validators {
  import opened Wrappers
  import opened Text
  import opened Js
  import opened Errors
  import opened MemberEntity

  const ADDRESS_REQUIRED := "Member address is required."
  const STREET_REQUIRED := "Member street is required."
  const CITY_REQUIRED := "Member city is required."
  const RECEPTION_REQUIRED := "Member reception details are required."
  const LOCATION_REQUIRED := "Member reception location is required."
  const MEMBER_ID_REQUIRED := "Member id is required."
  const BOOLEAN_REQUIRED := "Value must be a boolean."

  /** What `assertRecord` lets through: a truthy value of type "object". */
  predicate IsRecord(v: JsValue)
  {
    v.Obj? || v.DateObj?
  }

  /** A string that is its own trim and is not empty. */
  predicate IsNormalText(t: string)
  {
    t != [] && !IsSpace(t[0]) && !IsSpace(t[|t| - 1])
  }

  /** `ensureNonEmptyString`: a string that trims to something, trimmed. */
  function EnsureNonEmptyString(v: JsValue, message: string): (r: Result<string, Exception>)
    ensures r.Success? <==> v.Str? && !IsBlank(v.s)
    ensures r.Success? ==> r.value == Trim(v.s)
    ensures r.Failure? ==> r.error == PlainErr(message)
  {
    if !v.Str? then Failure(PlainErr(message))
    else
      var trimmed := Trim(v.s);
      if trimmed == [] then Failure(PlainErr(message)) else Success(trimmed)
  }

  /** An accepted string is normal text, and validating it again gives it back. */
  lemma NonEmptyStringIsNormal(v: JsValue, message: string, again: string)
    requires EnsureNonEmptyString(v, message).Success?
    ensures IsNormalText(EnsureNonEmptyString(v, message).value)
    ensures var t := EnsureNonEmptyString(v, message).value;
      EnsureNonEmptyString(Str(t), again) == Success(t)
  {
    TrimmedHasNoOuterSpace(v.s);
    TrimIdempotent(v.s);
  }

  /** Normal text passes unchanged. */
  lemma NormalTextAccepted(t: string, message: string)
    requires IsNormalText(t)
    ensures EnsureNonEmptyString(Str(t), message) == Success(t)
  {
    TrimOfTrimmed(t);
  }

  /** `toNullableString`, `toOptionalString`, `sanitizeOptionalString` and
      `sanitizeNullableString`: a string that trims to something, trimmed,
      and otherwise nothing (null or undefined, which the model does not
      tell apart). */
  function TrimmedText(v: JsValue): (r: Option<string>)
    ensures r.Some? <==> v.Str? && !IsBlank(v.s)
    ensures r.Some? ==> r.value == Trim(v.s)
  {
    if !v.Str? then None
    else
      var trimmed := Trim(v.s);
      if trimmed == [] then None else Some(trimmed)
  }

  /** The optional form agrees with the required one: it is absent exactly
      where the required one throws. */
  lemma TrimmedTextIsOptionalNonEmpty(v: JsValue, message: string)
    ensures TrimmedText(v).None? <==> EnsureNonEmptyString(v, message).Failure?
    ensures TrimmedText(v).Some? ==> TrimmedText(v).value == EnsureNonEmptyString(v, message).value
  {
  }

  /** Sanitising twice is sanitising once. */
  lemma TrimmedTextIdempotent(v: JsValue)
    requires TrimmedText(v).Some?
    ensures TrimmedText(Str(TrimmedText(v).value)) == TrimmedText(v)
  {
    TrimIdempotent(v.s);
    TrimmedHasNoOuterSpace(v.s);
  }

  /** The words `parseBoolean` understands, after trimming and lowercasing. */
  function BooleanWord(s: string): Option<bool>
  {
    var normalized := ToLower(Trim(s));
    if normalized == "true" || normalized == "1" then Some(true)
    else if normalized == "false" || normalized == "0" then Some(false)
    else None
  }

  /** `parseBoolean`: a boolean, one of the words true/1/false/0 in any case
      and surrounded by white space, or the number 1 or 0. */
  function ParseBoolean(v: JsValue, message: string): (r: Result<bool, Exception>)
    ensures r.Failure? ==> r.error == PlainErr(message)
    ensures v.Bool? ==> r == Success(v.b)
    ensures v.Num? ==> (r.Success? <==> v.n == Finite(1.0) || v.n == Finite(0.0))
    ensures v.Num? && r.Success? ==> r.value == (v.n == Finite(1.0))
    ensures v.Str? ==> (r.Success? <==> BooleanWord(v.s).Some?)
    ensures !v.Bool? && !v.Num? && !v.Str? ==> r.Failure?
  {
    match v
    case Bool(b) => Success(b)
    case Str(s) =>
      var word := BooleanWord(s);
      if word.Some? then Success(word.value) else Failure(PlainErr(message))
    case Num(n) =>
      if n == Finite(1.0) then Success(true)
      else if n == Finite(0.0) then Success(false)
      else Failure(PlainErr(message))
    case _ => Failure(PlainErr(message))
  }

  /** Lowercasing keeps white space and non-white space apart. */
  lemma LowerCharKeepsSpace(c: char)
    ensures IsSpace(LowerChar(c)) <==> IsSpace(c)
  {
  }

  /** A string in normal form lowercases to one in normal form. */
  lemma LowerKeepsTrim(t: string)
    requires t == [] || IsNormalText(t)
    ensures Trim(ToLower(t)) == ToLower(t)
  {
    if t != [] {
      LowerCharKeepsSpace(t[0]);
      LowerCharKeepsSpace(t[|t| - 1]);
    }
    TrimOfTrimmed(ToLower(t));
  }

  /** Case and surrounding white space do not matter to `parseBoolean`:
      the words are read in their normal form. */
  lemma ParseBooleanNormalises(s: string, message: string)
    ensures ParseBoolean(Str(s), message) == ParseBoolean(Str(ToLower(Trim(s))), message)
  {
    var t := Trim(s);
    TrimmedHasNoOuterSpace(s);
    LowerKeepsTrim(t);
    ToLowerIdempotent(t);
  }

  /** The renderings `String(b)` and `Number(b)` of a boolean parse back. */
  lemma ParseBooleanOfRendering(b: bool, message: string)
    ensures ParseBoolean(Str(if b then "true" else "false"), message) == Success(b)
    ensures ParseBoolean(Str(if b then "1" else "0"), message) == Success(b)
    ensures ParseBoolean(Num(Finite(if b then 1.0 else 0.0)), message) == Success(b)
  {
    var word := if b then "true" else "false";
    var digit := if b then "1" else "0";
    TrimOfTrimmed(word);
    TrimOfTrimmed(digit);
  }

  /** `parseOptionalBoolean`: undefined, null and the empty string are
      absent; anything else must parse as a boolean. */
  function ParseOptionalBoolean(v: JsValue): (r: Result<Option<bool>, Exception>)
    ensures (v.Undef? || v.Null? || v == Str("")) ==> r == Success(None)
    ensures !(v.Undef? || v.Null? || v == Str("")) ==>
      (r.Success? <==> ParseBoolean(v, BOOLEAN_REQUIRED).Success?)
    ensures r.Success? && r.value.Some? ==> ParseBoolean(v, BOOLEAN_REQUIRED) == Success(r.value.value)
    ensures r.Failure? ==> r.error == PlainErr(BOOLEAN_REQUIRED)
  {
    if v.Undef? || v.Null? || v == Str("") then Success(None)
    else
      var b := ParseBoolean(v, BOOLEAN_REQUIRED);
      if b.Failure? then Failure(b.error) else Success(Some(b.value))
  }

  /** Only the empty string counts as absent: a string of spaces is not,
      and no boolean word either, so it is rejected. */
  lemma BlankStringIsNotAbsent(s: string)
    requires s != [] && IsBlank(s)
    ensures ParseOptionalBoolean(Str(s)).Failure?
  {
  }

  /** `parseDate`: a valid `Date` object, or a string that trims to
      something and that `new Date` reads as a valid date. `parse` stands
      for `new Date(string)`. */
  function ParseDate(v: JsValue, message: string, parse: string -> JsDate): (r: Result<JsDate, Exception>)
    ensures r.Success? ==> r.value.ValidDate?
    ensures r.Success? <==>
      (v.DateObj? && v.d.ValidDate?) || (v.Str? && !IsBlank(v.s) && parse(Trim(v.s)).ValidDate?)
    ensures r.Success? && v.DateObj? ==> r.value == v.d
    ensures r.Success? && v.Str? ==> r.value == parse(Trim(v.s))
    ensures r.Failure? ==> r.error == PlainErr(message)
  {
    match v
    case DateObj(d) => if d.InvalidDate? then Failure(PlainErr(message)) else Success(d)
    case Str(s) =>
      var trimmed := Trim(s);
      if trimmed == [] then Failure(PlainErr(message))
      else
        var parsed := parse(trimmed);
        if parsed.InvalidDate? then Failure(PlainErr(message)) else Success(parsed)
    case _ => Failure(PlainErr(message))
  }

  /** `parseOptionalDate`: undefined, null and the empty string are absent. */
  function ParseOptionalDate(v: JsValue, message: string, parse: string -> JsDate): (r: Result<Option<JsDate>, Exception>)
    ensures (v.Undef? || v.Null? || v == Str("")) ==> r == Success(None)
    ensures !(v.Undef? || v.Null? || v == Str("")) ==>
      (r.Success? <==> ParseDate(v, message, parse).Success?)
    ensures r.Success? && r.value.Some? ==> r.value.value.ValidDate?
    ensures r.Failure? ==> r.error == PlainErr(message)
  {
    if v.Undef? || v.Null? || v == Str("") then Success(None)
    else
      var d := ParseDate(v, message, parse);
      if d.Failure? then Failure(d.error) else Success(Some(d.value))
  }

  /** A valid `Date` passes through both date parsers unchanged. */
  lemma ValidDatePassesThrough(d: JsDate, message: string, parse: string -> JsDate)
    requires d.ValidDate?
    ensures ParseDate(DateObj(d), message, parse) == Success(d)
    ensures ParseOptionalDate(DateObj(d), message, parse) == Success(Some(d))
  {
  }

  function SexOfName(name: string): Option<Sex>
  {
    if name == "male" then Some(Male) else if name == "female" then Some(Female) else None
  }

  /** `ensureMemberSex`: a required string whose trim names a sex. */
  function EnsureMemberSex(v: JsValue): (r: Result<Sex, Exception>)
    ensures r.Success? <==> v.Str? && (Trim(v.s) == "male" || Trim(v.s) == "female")
    ensures r.Success? ==> SexName(r.value) == Trim(v.s)
    ensures r.Failure? ==>
      r.error == PlainErr(if v.Str? && !IsBlank(v.s) then "Invalid member sex." else "Member sex is required.")
  {
    var name := EnsureNonEmptyString(v, "Member sex is required.");
    if name.Failure? then Failure(name.error)
    else
      var sex := SexOfName(name.value);
      if sex.None? then Failure(PlainErr("Invalid member sex.")) else Success(sex.value)
  }

  lemma EnsureSexOfName(x: Sex)
    ensures EnsureMemberSex(Str(SexName(x))) == Success(x)
  {
    TrimOfTrimmed(SexName(x));
  }

  function MaritalStatusOfName(name: string): Option<MaritalStatus>
  {
    if name == "single" then Some(Single)
    else if name == "married" then Some(Married)
    else if name == "divorced" then Some(Divorced)
    else if name == "widowed" then Some(Widowed)
    else None
  }

  /** `ensureMemberMaritalStatus`: a required string whose trim names a
      marital status. */
  function EnsureMemberMaritalStatus(v: JsValue): (r: Result<MaritalStatus, Exception>)
    ensures r.Success? <==> v.Str? && Trim(v.s) in {"single", "married", "divorced", "widowed"}
    ensures r.Success? ==> MaritalStatusName(r.value) == Trim(v.s)
    ensures r.Failure? ==>
      r.error == PlainErr(if v.Str? && !IsBlank(v.s) then "Invalid member marital status."
                          else "Member marital status is required.")
  {
    var name := EnsureNonEmptyString(v, "Member marital status is required.");
    if name.Failure? then Failure(name.error)
    else
      var status := MaritalStatusOfName(name.value);
      if status.None? then Failure(PlainErr("Invalid member marital status.")) else Success(status.value)
  }

  lemma EnsureMaritalStatusOfName(x: MaritalStatus)
    ensures EnsureMemberMaritalStatus(Str(MaritalStatusName(x))) == Success(x)
  {
    TrimOfTrimmed(MaritalStatusName(x));
  }

  function ReceptionModeOfName(name: string): Option<ReceptionMode>
  {
    if name == "profession_of_faith" then Some(ProfessionOfFaith)
    else if name == "transfer" then Some(Transfer)
    else if name == "restoration" then Some(Restoration)
    else None
  }

  /** `ensureMemberReceptionMode`: a required string whose trim names a
      reception mode. */
  function EnsureMemberReceptionMode(v: JsValue): (r: Result<ReceptionMode, Exception>)
    ensures r.Success? <==> v.Str? && Trim(v.s) in {"profession_of_faith", "transfer", "restoration"}
    ensures r.Success? ==> ReceptionModeName(r.value) == Trim(v.s)
    ensures r.Failure? ==>
      r.error == PlainErr(if v.Str? && !IsBlank(v.s) then "Invalid member reception mode."
                          else "Member reception mode is required.")
  {
    var name := EnsureNonEmptyString(v, "Member reception mode is required.");
    if name.Failure? then Failure(name.error)
    else
      var mode := ReceptionModeOfName(name.value);
      if mode.None? then Failure(PlainErr("Invalid member reception mode.")) else Success(mode.value)
  }

  lemma EnsureReceptionModeOfName(x: ReceptionMode)
    ensures EnsureMemberReceptionMode(Str(ReceptionModeName(x))) == Success(x)
  {
    TrimOfTrimmed(ReceptionModeName(x));
  }

  /** `ensureMemberClassification`: a required string whose trim names a
      classification; both failures carry the same message. */
  function EnsureMemberClassification(v: JsValue): (r: Result<Classification, Exception>)
    ensures r.Success? <==> v.Str? && (Trim(v.s) == "communicant" || Trim(v.s) == "non-communicant")
    ensures r.Success? ==> ClassificationName(r.value) == Trim(v.s)
    ensures r.Failure? ==> r.error == PlainErr(INVALID_CLASSIFICATION)
  {
    var name := EnsureNonEmptyString(v, INVALID_CLASSIFICATION);
    if name.Failure? then Failure(name.error)
    else if name.value == "communicant" then Success(Communicant)
    else if name.value == "non-communicant" then Success(NonCommunicant)
    else Failure(PlainErr(INVALID_CLASSIFICATION))
  }

  /** The action's classification check and the entity's agree on trimmed
      names; the action throws a plain `Error`, the entity an
      `InvalidOperationException`, with the same message. */
  lemma ClassificationChecksAgree(s: string)
    requires s == Trim(s)
    ensures EnsureMemberClassification(Str(s)).Success? == AssertValidClassification(s).Success?
    ensures EnsureMemberClassification(Str(s)).Success? ==>
      EnsureMemberClassification(Str(s)).value == AssertValidClassification(s).value
    ensures EnsureMemberClassification(Str(s)).Failure? ==>
      EnsureMemberClassification(Str(s)).error.message == AssertValidClassification(s).error.message
  {
  }

  /** `ensureMemberId`. */
  function EnsureMemberId(v: JsValue): (r: Result<string, Exception>)
    ensures r.Success? <==> v.Str? && !IsBlank(v.s)
    ensures r.Success? ==> r.value == Trim(v.s)
    ensures r.Failure? ==> r.error == PlainErr(MEMBER_ID_REQUIRED)
  {
    EnsureNonEmptyString(v, MEMBER_ID_REQUIRED)
  }

  /** An address whose every present text is normal text, which is what
      `buildMemberAddress` produces. */
  predicate NormalAddress(a: MemberAddress)
  {
    IsNormalText(a.street) && IsNormalText(a.city)
    && (a.number.Some? ==> IsNormalText(a.number.value))
    && (a.district.Some? ==> IsNormalText(a.district.value))
    && (a.state.Some? ==> IsNormalText(a.state.value))
    && (a.zip.Some? ==> IsNormalText(a.zip.value))
    && (a.complement.Some? ==> IsNormalText(a.complement.value))
  }

  /** `buildMemberAddress`: a record with a street and a city (checked in
      that order); the other parts are optional. */
  function BuildMemberAddress(v: JsValue): (r: Result<MemberAddress, Exception>)
    ensures r.Success? <==>
      IsRecord(v) && Get(v, "street").Str? && !IsBlank(Get(v, "street").s)
      && Get(v, "city").Str? && !IsBlank(Get(v, "city").s)
    ensures !IsRecord(v) ==> r == Failure(PlainErr(ADDRESS_REQUIRED))
    ensures IsRecord(v) && EnsureNonEmptyString(Get(v, "street"), STREET_REQUIRED).Failure?
      ==> r == Failure(PlainErr(STREET_REQUIRED))
    ensures IsRecord(v) && EnsureNonEmptyString(Get(v, "street"), STREET_REQUIRED).Success?
      && EnsureNonEmptyString(Get(v, "city"), CITY_REQUIRED).Failure?
      ==> r == Failure(PlainErr(CITY_REQUIRED))
    ensures r.Success? ==> NormalAddress(r.value)
    ensures r.Success? ==> r.value.street == Trim(Get(v, "street").s) && r.value.city == Trim(Get(v, "city").s)
    ensures r.Success? ==> r.value.zip == TrimmedText(Get(v, "zip")) && r.value.complement == TrimmedText(Get(v, "complement"))
    ensures r.Success? ==>
      && r.value.number == TrimmedText(Get(v, "number")) && r.value.district == TrimmedText(Get(v, "district"))
      && r.value.state == TrimmedText(Get(v, "state"))
  {
    if !IsRecord(v) then Failure(PlainErr(ADDRESS_REQUIRED))
    else
      var street := EnsureNonEmptyString(Get(v, "street"), STREET_REQUIRED);
      var city := EnsureNonEmptyString(Get(v, "city"), CITY_REQUIRED);
      if street.Failure? then Failure(street.error)
      else if city.Failure? then Failure(city.error)
      else
        var a := MemberAddress(TrimmedText(Get(v, "zip")), city.value, street.value, TrimmedText(Get(v, "state")),
                               TrimmedText(Get(v, "number")), TrimmedText(Get(v, "district")),
                               TrimmedText(Get(v, "complement")));
        NormalAddressBuilt(v, a);
        Success(a)
  }

  lemma NormalAddressBuilt(v: JsValue, a: MemberAddress)
    requires Get(v, "street").Str? && !IsBlank(Get(v, "street").s) && a.street == Trim(Get(v, "street").s)
    requires Get(v, "city").Str? && !IsBlank(Get(v, "city").s) && a.city == Trim(Get(v, "city").s)
    requires a.zip == TrimmedText(Get(v, "zip")) && a.state == TrimmedText(Get(v, "state"))
    requires a.number == TrimmedText(Get(v, "number")) && a.district == TrimmedText(Get(v, "district"))
    requires a.complement == TrimmedText(Get(v, "complement"))
    ensures NormalAddress(a)
  {
    TrimmedHasNoOuterSpace(Get(v, "street").s);
    TrimmedHasNoOuterSpace(Get(v, "city").s);
    if a.zip.Some? { TrimmedHasNoOuterSpace(Get(v, "zip").s); }
    if a.state.Some? { TrimmedHasNoOuterSpace(Get(v, "state").s); }
    if a.number.Some? { TrimmedHasNoOuterSpace(Get(v, "number").s); }
    if a.district.Some? { TrimmedHasNoOuterSpace(Get(v, "district").s); }
    if a.complement.Some? { TrimmedHasNoOuterSpace(Get(v, "complement").s); }
  }

  function OptionalText(t: Option<string>): JsValue
  {
    if t.Some? then Str(t.value) else Null
  }

  /** The plain object an address is sent as, absent parts as null. */
  function AddressObject(a: MemberAddress): JsValue
  {
    Obj(map["street" := Str(a.street), "city" := Str(a.city), "number" := OptionalText(a.number),
            "district" := OptionalText(a.district), "state" := OptionalText(a.state),
            "zip" := OptionalText(a.zip), "complement" := OptionalText(a.complement)])
  }

  lemma OptionalTextReadsBack(t: Option<string>)
    requires t.Some? ==> IsNormalText(t.value)
    ensures TrimmedText(OptionalText(t)) == t
  {
    if t.Some? {
      TrimOfTrimmed(t.value);
    }
  }

  /** A normal address sent as a plain object is rebuilt unchanged. */
  lemma AddressRoundTrip(a: MemberAddress)
    requires NormalAddress(a)
    ensures BuildMemberAddress(AddressObject(a)) == Success(a)
  {
    AddressObjectFields(a);
    AddressOfParts(AddressObject(a), a);
  }

  lemma AddressObjectFields(a: MemberAddress)
    ensures var v := AddressObject(a);
      Get(v, "street") == Str(a.street) && Get(v, "city") == Str(a.city)
      && Get(v, "number") == OptionalText(a.number) && Get(v, "district") == OptionalText(a.district)
      && Get(v, "state") == OptionalText(a.state) && Get(v, "zip") == OptionalText(a.zip)
      && Get(v, "complement") == OptionalText(a.complement)
  {
  }

  /** A record whose parts are those of a normal address builds that address. */
  lemma AddressOfParts(v: JsValue, a: MemberAddress)
    requires IsRecord(v) && NormalAddress(a)
    requires Get(v, "street") == Str(a.street) && Get(v, "city") == Str(a.city)
    requires Get(v, "number") == OptionalText(a.number) && Get(v, "district") == OptionalText(a.district)
    requires Get(v, "state") == OptionalText(a.state) && Get(v, "zip") == OptionalText(a.zip)
    requires Get(v, "complement") == OptionalText(a.complement)
    ensures BuildMemberAddress(v) == Success(a)
  {
    TrimOfTrimmed(a.street);
    TrimOfTrimmed(a.city);
    OptionalTextReadsBack(a.number);
    OptionalTextReadsBack(a.district);
    OptionalTextReadsBack(a.state);
    OptionalTextReadsBack(a.zip);
    OptionalTextReadsBack(a.complement);
  }

  /** `buildMemberReception`: a record whose date, mode and location are
      checked in that order. */
  function BuildMemberReception(v: JsValue, dateMessage: string, parse: string -> JsDate): (r: Result<MemberReception, Exception>)
    ensures r.Success? <==>
      IsRecord(v) && ParseDate(Get(v, "date"), dateMessage, parse).Success?
      && EnsureMemberReceptionMode(Get(v, "mode")).Success? && EnsureNonEmptyString(Get(v, "location"), LOCATION_REQUIRED).Success?
    ensures !IsRecord(v) ==> r == Failure(PlainErr(RECEPTION_REQUIRED))
    ensures IsRecord(v) && ParseDate(Get(v, "date"), dateMessage, parse).Failure? ==> r == Failure(PlainErr(dateMessage))
    ensures (IsRecord(v) && ParseDate(Get(v, "date"), dateMessage, parse).Success?
             && EnsureMemberReceptionMode(Get(v, "mode")).Failure?)
      ==> r == Failure(EnsureMemberReceptionMode(Get(v, "mode")).error)
    ensures r.Success? ==> r.value.date.ValidDate? && IsNormalText(r.value.location)
    ensures (IsRecord(v) && ParseDate(Get(v, "date"), dateMessage, parse).Success?
             && EnsureMemberReceptionMode(Get(v, "mode")).Success?
             && EnsureNonEmptyString(Get(v, "location"), LOCATION_REQUIRED).Failure?)
      ==> r == Failure(PlainErr(LOCATION_REQUIRED))
    ensures r.Success? ==> ReceptionModeName(r.value.mode) == Trim(Get(v, "mode").s)
    ensures r.Success? ==>
      && Success(r.value.date) == ParseDate(Get(v, "date"), dateMessage, parse)
      && Get(v, "location").Str? && r.value.location == Trim(Get(v, "location").s)
  {
    if !IsRecord(v) then Failure(PlainErr(RECEPTION_REQUIRED))
    else
      var date := ParseDate(Get(v, "date"), dateMessage, parse);
      if date.Failure? then Failure(date.error)
      else
        var mode := EnsureMemberReceptionMode(Get(v, "mode"));
        if mode.Failure? then Failure(mode.error)
        else
          var location := EnsureNonEmptyString(Get(v, "location"), LOCATION_REQUIRED);
          if location.Failure? then Failure(location.error)
          else
            NonEmptyStringIsNormal(Get(v, "location"), LOCATION_REQUIRED, LOCATION_REQUIRED);
            Success(MemberReception(date.value, mode.value, location.value))
  }
}
