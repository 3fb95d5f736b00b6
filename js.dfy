/** The JavaScript values the server actions receive as `unknown`, the numbers
    and dates among them, and `Number.parseInt` with radix 10. */
module Js {
  import opened Wrappers
  import opened Text

  /** An IEEE-754 double seen through its value: a finite number (held
      exactly), NaN or an infinity. Rounding is not modelled. */
  datatype JsNumber = Finite(r: real) | NaN | PosInf | NegInf

  /** A point in time, by its milliseconds since the epoch (`getTime()`). */
  datatype Instant = Instant(epochMillis: int)

  /** A `Date` object: either a valid instant or an Invalid Date (NaN time). */
  datatype JsDate = ValidDate(at: Instant) | InvalidDate

  datatype JsValue =
    | Undef
    | Null
    | Bool(b: bool)
    | Num(n: JsNumber)
    | Str(s: string)
    | Obj(fields: map<string, JsValue>)
    | DateObj(d: JsDate)

  /** JavaScript truthiness (`!!v`). */
  predicate Truthy(v: JsValue)
  {
    match v
    case Undef => false
    case Null => false
    case Bool(b) => b
    case Num(n) => n.PosInf? || n.NegInf? || (n.Finite? && n.r != 0.0)
    case Str(s) => s != ""
    case Obj(_) => true
    case DateObj(_) => true
  }

  predicate IsNullish(v: JsValue)
  {
    v.Undef? || v.Null?
  }

  /** `Object.prototype.hasOwnProperty.call(v, key)` for the plain objects the
      actions receive. */
  predicate HasOwn(v: JsValue, key: string)
  {
    v.Obj? && key in v.fields
  }

  /** Property access `v[key]`; an absent property, or a property of a
      non-object, reads as `undefined`. */
  function Get(v: JsValue, key: string): (r: JsValue)
    ensures !HasOwn(v, key) ==> r == Undef
    ensures HasOwn(v, key) ==> r == v.fields[key]
  {
    if v.Obj? && key in v.fields then v.fields[key] else Undef
  }

  /** Setting one property leaves every other property as it was. */
  lemma GetOtherKey(fields: map<string, JsValue>, key: string, value: JsValue, other: string)
    requires other != key
    ensures Get(Obj(fields[key := value]), other) == Get(Obj(fields), other)
    ensures HasOwn(Obj(fields[key := value]), other) == HasOwn(Obj(fields), other)
  {
  }

  /** The longest prefix of decimal digits. */
  function LeadingDigits(s: string): (r: string)
    ensures |r| <= |s| && r == s[..|r|] && AllDigits(r)
    ensures |r| == |s| || !IsDigit(s[|r|])
  {
    if s != [] && IsDigit(s[0]) then [s[0]] + LeadingDigits(s[1..]) else []
  }

  /** `Number.parseInt(s, 10)`: skip leading white space, take an optional
      sign, then the longest run of decimal digits; NaN (`None`) when there is
      no digit. Negative zero is not distinguished from zero. */
  function ParseInt(s: string): (r: Option<int>)
    ensures s == [] ==> r.None?
    ensures s != [] && IsDigit(s[0]) ==> r.Some? && 0 <= r.value
    ensures r.Some? && r.value < 0 ==> TrimStart(s) != [] && TrimStart(s)[0] == '-'
  {
    var t := TrimStart(s);
    var negative := t != [] && t[0] == '-';
    var rest := if t != [] && (t[0] == '-' || t[0] == '+') then t[1..] else t;
    var digits := LeadingDigits(rest);
    if digits == [] then None
    else if negative then Some(0 - DigitsValue(digits) as int)
    else Some(DigitsValue(digits))
  }

  lemma {:induction false} LeadingDigitsOfDigits(s: string)
    requires AllDigits(s)
    ensures LeadingDigits(s) == s
  {
    if s != [] {
      assert AllDigits(s[1..]);
      LeadingDigitsOfDigits(s[1..]);
    }
  }

  /** `parseInt(String(n), 10) == n`: the decimal rendering of a count reads
      back as that count. */
  lemma ParseIntOfDecimal(n: nat)
    ensures ParseInt(NatToString(n)) == Some(n)
  {
    var s := NatToString(n);
    TrimStartOfUnspaced(s);
    LeadingDigitsOfDigits(s);
  }

  /** A string with no leading digit (after white space and sign) parses as NaN. */
  lemma ParseIntNaN(s: string)
    requires s == [] || (!IsSpace(s[0]) && !IsDigit(s[0]) && s[0] != '-' && s[0] != '+')
    ensures ParseInt(s) == None
  {
    TrimStartOfUnspaced(s);
  }
}
