/** The UTC calendar fields of a JavaScript time value and the two renderings
    the core uses: `Date.prototype.toISOString` and the `YYYY-MM-DD` value of
    a date input. Civil dates are computed with the proleptic Gregorian
    days-to-civil conversion. */
module Dates {
  import opened Wrappers
  import opened Text
  import opened Js
  import opened Errors

  const MS_PER_DAY := 86400000
  /** The largest magnitude a JavaScript time value can have (8.64e15 ms). */
  const MAX_TIME := 8640000000000000

  datatype Civil = Civil(year: int, month: nat, day: nat)

  /** The year of a 400-year era that day `doe` of the era falls in
      (the era starting on 0000-03-01). */
  function YearOfEra(doe: int): (r: int)
    requires 0 <= doe < 146097
    ensures 0 <= r <= 399
  {
    (doe - doe / 1460 + doe / 36524 - doe / 146096) / 365
  }

  /** The day of the March-based year that day `doe` of the era is. */
  function DayOfYear(doe: int): (r: int)
    requires 0 <= doe < 146097
    ensures 0 <= r <= 365
  {
    var yoe := YearOfEra(doe);
    DayOfYearBounds(doe);
    doe - (365 * yoe + yoe / 4 - yoe / 100)
  }

  lemma DayOfYearBounds(doe: int)
    requires 0 <= doe < 146097
    ensures var yoe := YearOfEra(doe); 0 <= doe - (365 * yoe + yoe / 4 - yoe / 100) <= 365
  {
    var yoe := YearOfEra(doe);
    EraArithmetic(doe, doe / 1460, doe / 36524, doe / 146096, yoe, yoe / 4, yoe / 100);
  }

  /** The bounds behind `DayOfYear`, with every quotient named: `a`, `b`, `q`
      are the four-year, century and era counts of `doe`, and `y4`, `y100`
      the leap and century counts of the year `yoe`. */
  lemma EraArithmetic(doe: int, a: int, b: int, q: int, yoe: int, y4: int, y100: int)
    requires 0 <= doe < 146097
    requires 1460 * a <= doe < 1460 * a + 1460
    requires 36524 * b <= doe < 36524 * b + 36524
    requires 146096 * q <= doe < 146096 * q + 146096
    requires 365 * yoe <= doe - a + b - q < 365 * yoe + 365
    requires 4 * y4 <= yoe < 4 * y4 + 4
    requires 100 * y100 <= yoe < 100 * y100 + 100
    ensures 0 <= doe - (365 * yoe + y4 - y100) <= 365
  {
    assert 0 <= q <= 1 && 0 <= b <= 4;
    assert y100 == b || y100 == b - 1 || y100 == b + 1;
  }

  /** The month (0 for March) of a day of the March-based year. */
  function MarchMonth(doy: int): (r: int)
    requires 0 <= doy <= 365
    ensures 0 <= r <= 11
    ensures 153 * r <= 5 * doy + 2 < 153 * (r + 1)
  {
    (5 * doy + 2) / 153
  }

  /** The proleptic Gregorian date `days` days after 1970-01-01. */
  function CivilFromDays(days: int): (r: Civil)
    ensures 1 <= r.month <= 12 && 1 <= r.day <= 31
  {
    var z := days + 719468;
    var era := z / 146097;
    var doe := z - era * 146097;
    var doy := DayOfYear(doe);
    var mp := MarchMonth(doy);
    var day := doy - (153 * mp + 2) / 5 + 1;
    var month := if mp < 10 then mp + 3 else mp - 9;
    Civil(YearOfEra(doe) + era * 400 + (if month <= 2 then 1 else 0), month, day)
  }

  /** `String.prototype.padStart(width, fill)`. */
  function PadStart(s: string, width: nat, fill: char): string
    decreases width - |s|
  {
    if |s| >= width then s else PadStart([fill] + s, width, fill)
  }

  /** Padding only prepends: the padded string has at least `width`
      characters, ends with the original and everything before it is the
      fill character. */
  lemma {:induction false} PadStartShape(s: string, width: nat, fill: char)
    ensures var r := PadStart(s, width, fill);
      |r| == (if |s| >= width then |s| else width)
      && r[|r| - |s|..] == s && forall i :: 0 <= i < |r| - |s| ==> r[i] == fill
    decreases width - |s|
  {
    if |s| < width {
      PadStartShape([fill] + s, width, fill);
      var r := PadStart(s, width, fill);
      assert r == PadStart([fill] + s, width, fill);
      assert r[|r| - |s| - 1] == fill;
    }
  }

  function Padded(n: nat, width: nat): string
  {
    PadStart(NatToString(n), width, '0')
  }

  /** `String(n)` for any integer. */
  function IntToString(n: int): string
  {
    if n < 0 then "-" + NatToString(-n) else NatToString(n)
  }

  predicate InTimeRange(t: int)
  {
    -MAX_TIME <= t <= MAX_TIME
  }

  function InvalidTimeValue(): Exception
  {
    Exception(RangeError, "Invalid time value")
  }

  /** The year field of `toISOString`: four digits, or a sign and six. */
  function IsoYear(y: int): string
  {
    if 0 <= y <= 9999 then Padded(y, 4)
    else if y < 0 then "-" + Padded(-y, 6)
    else "+" + Padded(y, 6)
  }

  function IsoDate(c: Civil): string
  {
    IsoYear(c.year) + "-" + Padded(c.month, 2) + "-" + Padded(c.day, 2)
  }

  /** The `THH:mm:ss.sssZ` part, from the milliseconds into the day. */
  function IsoTimeOfDay(ms: nat): string
  {
    "T" + Padded(ms / 3600000, 2) + ":" + Padded(ms / 60000 % 60, 2) + ":" + Padded(ms / 1000 % 60, 2)
    + "." + Padded(ms % 1000, 3) + "Z"
  }

  function IsoOfTime(t: int): (r: string)
    ensures |IsoDate(CivilFromDays(t / MS_PER_DAY))| < |r| && r[|IsoDate(CivilFromDays(t / MS_PER_DAY))|] == 'T'
    ensures r[|r| - 1] == 'Z'
  {
    IsoDate(CivilFromDays(t / MS_PER_DAY)) + IsoTimeOfDay(t % MS_PER_DAY)
  }

  /** Whether `toISOString` renders `d`: a valid date the ISO form reaches. */
  predicate Renders(d: JsDate)
  {
    d.ValidDate? && InTimeRange(d.at.epochMillis)
  }

  /** `Date.prototype.toISOString`, which throws a RangeError for an invalid date. */
  function ToIsoString(d: JsDate): (r: Result<string, Exception>)
    ensures r.Failure? <==> !Renders(d)
    ensures r.Failure? ==> r.error == InvalidTimeValue()
  {
    if !Renders(d) then Failure(InvalidTimeValue())
    else Success(IsoOfTime(d.at.epochMillis))
  }

  /** `${getUTCFullYear()}-${month padded}-${day padded}`: the year is not padded. */
  function DateInputOfTime(t: int): string
  {
    var c := CivilFromDays(t / MS_PER_DAY);
    IntToString(c.year) + "-" + Padded(c.month, 2) + "-" + Padded(c.day, 2)
  }

  lemma {:induction false} NatToStringShort(n: nat, width: nat)
    requires width > 0
    requires n < Power10(width)
    ensures |NatToString(n)| <= width
  {
    if n >= 10 {
      NatToStringShort(n / 10, width - 1);
    }
  }

  lemma {:induction false} NatToStringLong(n: nat, width: nat)
    requires n >= Power10(width)
    ensures |NatToString(n)| > width
  {
    if width > 0 {
      NatToStringLong(n / 10, width - 1);
    }
  }

  function Power10(k: nat): (r: nat)
    ensures r >= 1
  {
    if k == 0 then 1 else 10 * Power10(k - 1)
  }

  /** A number below `10^width` pads to exactly `width` digits. */
  lemma PaddedWidth(n: nat, width: nat)
    requires width > 0 && n < Power10(width)
    ensures |Padded(n, width)| == width
  {
    NatToStringShort(n, width);
    PadStartShape(NatToString(n), width, '0');
  }

  /** A one- or two-digit number pads to exactly two digits. */
  lemma PaddedTwo(n: nat)
    requires n < 100
    ensures |Padded(n, 2)| == 2
  {
    PaddedWidth(n, 2);
  }

  /** In the four-digit years, the date input value is the first ten
      characters of the ISO string; outside them it is not (year 999 renders
      as "999-…" in one and "0999-…" in the other). */
  lemma DateInputIsIsoPrefix(t: int)
    requires 1000 <= CivilFromDays(t / MS_PER_DAY).year <= 9999
    ensures DateInputOfTime(t) == IsoOfTime(t)[..10]
  {
    var c := CivilFromDays(t / MS_PER_DAY);
    FourDigitYear(c.year);
    PaddedTwo(c.month);
    PaddedTwo(c.day);
    var d := IsoDate(c);
    assert d == DateInputOfTime(t);
    assert |d| == 10;
    assert IsoOfTime(t) == d + IsoTimeOfDay(t % MS_PER_DAY);
    assert (d + IsoTimeOfDay(t % MS_PER_DAY))[..|d|] == d;
  }

  /** A four-digit year is written the same way in both renderings. */
  lemma FourDigitYear(y: int)
    requires 1000 <= y <= 9999
    ensures IsoYear(y) == IntToString(y) && |IsoYear(y)| == 4
  {
    NatToStringShort(y, 4);
    NatToStringLong(y, 3);
  }


  /** In the four-digit years, `toISOString` has the fixed 24-character form. */
  lemma IsoLength(t: int)
    requires 0 <= CivilFromDays(t / MS_PER_DAY).year <= 9999
    ensures |IsoOfTime(t)| == 24
  {
    var c := CivilFromDays(t / MS_PER_DAY);
    var ms := t % MS_PER_DAY;
    PaddedWidth(c.year, 4);
    PaddedTwo(c.month);
    PaddedTwo(c.day);
    assert |IsoDate(c)| == 10;
    PaddedTwo(ms / 3600000);
    PaddedTwo(ms / 60000 % 60);
    PaddedTwo(ms / 1000 % 60);
    PaddedWidth(ms % 1000, 3);
  }
}
