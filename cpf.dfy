/** The `Cpf` value object: a Brazilian taxpayer number, accepted when its
    eleven digits carry the two mod-11 check digits of the first nine and
    ten digits. */
module Cpf {
  import opened Wrappers
  import opened Text
  import opened Errors

  /** The default argument of the constructor. */
  const VALID_CPF := "91609085809"
  const FIRST_DIGIT_FACTOR := 10
  const SECOND_DIGIT_FACTOR := 11

  /** An accepted CPF, held as its digits. */
  datatype Cpf = Cpf(value: string)

  /** `cpf.replace(/\D/g, '')`: keeps the decimal digits, in order. */
  function RemoveNonDigits(s: string): (r: string)
    ensures |r| <= |s|
    ensures AllDigits(r)
  {
    if s == [] then []
    else if IsDigit(s[0]) then [s[0]] + RemoveNonDigits(s[1..])
    else RemoveNonDigits(s[1..])
  }

  predicate IsValidLength(s: string)
  {
    |s| == 11
  }

  /** `split('').every((c) => c === givenCpf[0])`. */
  predicate IsHomogeneous(s: string)
  {
    forall i :: 0 <= i < |s| ==> s[i] == s[0]
  }

  /** The sum `calculateDigit` accumulates: each digit times the factor
      while the factor is above 1, the factor counting down from `factor`. */
  function WeightedSum(ds: string, factor: int): int
    requires AllDigits(ds)
    decreases ds
  {
    if ds == [] then 0
    else if factor > 1 then DigitValue(ds[0]) * factor + WeightedSum(ds[1..], factor - 1)
    else WeightedSum(ds[1..], factor)
  }

  /** The check digit of a weighted sum: 0 when the remainder mod 11 is below
      2, otherwise 11 minus the remainder. */
  function CheckDigit(total: int): (d: nat)
    ensures d < 10
    ensures d == 0 <==> total % 11 < 2
    ensures d != 0 ==> d + total % 11 == 11
  {
    var rest := total % 11;
    if rest < 2 then 0 else 11 - rest
  }

  /** `cpf.slice(-2)`. */
  function ExtractCheckDigits(s: string): (r: string)
    ensures |s| >= 2 ==> |r| == 2 && s == s[..|s| - 2] + r
    ensures |s| < 2 ==> r == s
  {
    if |s| >= 2 then s[|s| - 2..] else s
  }

  /** What `validateCpf` decides: after removing the non-digits, eleven
      digits, not all the same, ending in the two digits computed with the
      factors 10 and 11, compared as the string `${digit1}${digit2}`. */
  predicate IsValidCpf(s: string)
  {
    var d := RemoveNonDigits(s);
    IsValidLength(d) && !IsHomogeneous(d)
    && ExtractCheckDigits(d)
       == NatToString(CheckDigit(WeightedSum(d, FIRST_DIGIT_FACTOR)))
          + NatToString(CheckDigit(WeightedSum(d, SECOND_DIGIT_FACTOR)))
  }

  /** `calculateDigit`: the loop over the digits with the post-decremented
      factor, then the remainder rule. */
  method CalculateDigit(cpf: string, factor: int) returns (digit: nat)
    requires AllDigits(cpf)
    ensures digit == CheckDigit(WeightedSum(cpf, factor))
  {
    var total := 0;
    var f := factor;
    var i := 0;
    while i < |cpf|
      invariant 0 <= i <= |cpf|
      invariant AllDigits(cpf[i..])
      invariant total + WeightedSum(cpf[i..], f) == WeightedSum(cpf, factor)
    {
      assert cpf[i..][1..] == cpf[i + 1..];
      if f > 1 {
        total := total + DigitValue(cpf[i]) * f;
        f := f - 1;
      }
      i := i + 1;
    }
    assert cpf[i..] == [];
    var rest := total % 11;
    digit := if rest < 2 then 0 else 11 - rest;
  }

  /** `validateCpf`. */
  method ValidateCpf(cpf: string) returns (ok: bool)
    ensures ok == IsValidCpf(cpf)
  {
    var d := RemoveNonDigits(cpf);
    if !IsValidLength(d) {
      return false;
    }
    if IsHomogeneous(d) {
      return false;
    }
    var digit1 := CalculateDigit(d, FIRST_DIGIT_FACTOR);
    var digit2 := CalculateDigit(d, SECOND_DIGIT_FACTOR);
    var checkDigit := ExtractCheckDigits(d);
    ok := checkDigit == NatToString(digit1) + NatToString(digit2);
  }

  /** `new Cpf(value)`: throws `INVALID_CPF` unless the value validates, and
      keeps the digits only. */
  method NewCpf(value: string) returns (r: Result<Cpf, Exception>)
    ensures r.Success? <==> IsValidCpf(value)
    ensures r.Success? ==> r.value.value == RemoveNonDigits(value)
    ensures r.Failure? ==> r.error == Exception(DomainException, INVALID_CPF)
  {
    var ok := ValidateCpf(value);
    if !ok {
      return Failure(Exception(DomainException, INVALID_CPF));
    }
    return Success(Cpf(RemoveNonDigits(value)));
  }

  // Properties of the check.

  /** Removing the non-digits from digits changes nothing, so the stored
      value validates again and is stored unchanged. */
  lemma {:induction false} RemoveNonDigitsOfDigits(s: string)
    requires AllDigits(s)
    ensures RemoveNonDigits(s) == s
  {
    if s != [] {
      assert AllDigits(s[1..]);
      RemoveNonDigitsOfDigits(s[1..]);
    }
  }

  /** The validation depends on the digits only: an accepted CPF's stored
      value is itself accepted. */
  lemma StoredValueRevalidates(s: string)
    requires IsValidCpf(s)
    ensures IsValidCpf(RemoveNonDigits(s))
    ensures RemoveNonDigits(RemoveNonDigits(s)) == RemoveNonDigits(s)
  {
    RemoveNonDigitsOfDigits(RemoveNonDigits(s));
  }

  /** `WeightedSum` spelled out over the first `k` digits with weights
      `factor`, `factor - 1`, …, when the factor stays above 1 for all of them. */
  function Weighted(ds: string, factor: int, k: nat): int
    requires AllDigits(ds) && k <= |ds|
  {
    if k == 0 then 0 else Weighted(ds, factor, k - 1) + DigitValue(ds[k - 1]) * (factor - (k - 1))
  }

  /** Digits past the point where the factor reaches 1 add nothing: the sum
      with factor `f + 1` is the weighted sum of the first `min(|ds|, f)`
      digits. */
  lemma {:induction false} WeightedSumPrefix(ds: string, f: nat)
    requires AllDigits(ds)
    ensures var k := if |ds| < f then |ds| else f;
      WeightedSum(ds, f + 1) == Weighted(ds, f + 1, k)
    decreases ds
  {
    if ds != [] {
      if f == 0 {
        WeightedSumFlat(ds, 1);
      } else {
        assert AllDigits(ds[1..]);
        WeightedSumPrefix(ds[1..], f - 1);
        var k := if |ds| < f then |ds| else f;
        WeightedShift(ds, f + 1, k);
      }
    }
  }

  /** With the factor at or below 1, nothing is added. */
  lemma {:induction false} WeightedSumFlat(ds: string, factor: int)
    requires AllDigits(ds) && factor <= 1
    ensures WeightedSum(ds, factor) == 0
    decreases ds
  {
    if ds != [] {
      assert AllDigits(ds[1..]);
      WeightedSumFlat(ds[1..], factor);
    }
  }

  /** Peeling the first digit off `Weighted`. */
  lemma {:induction false} WeightedShift(ds: string, factor: int, k: nat)
    requires AllDigits(ds) && 1 <= k <= |ds|
    ensures AllDigits(ds[1..])
    ensures Weighted(ds, factor, k) == DigitValue(ds[0]) * factor + Weighted(ds[1..], factor - 1, k - 1)
  {
    assert AllDigits(ds[1..]);
    if k > 1 {
      WeightedShift(ds, factor, k - 1);
      assert ds[1..][k - 2] == ds[k - 1];
    }
  }

  /** The first check digit weighs the first nine digits by 10 down to 2, the
      second the first ten by 11 down to 2: neither depends on the digits it
      is compared with. */
  lemma CheckDigitsWeights(d: string)
    requires AllDigits(d) && |d| == 11
    ensures WeightedSum(d, FIRST_DIGIT_FACTOR) == Weighted(d, 10, 9)
    ensures WeightedSum(d, SECOND_DIGIT_FACTOR) == Weighted(d, 11, 10)
  {
    WeightedSumPrefix(d, 9);
    WeightedSumPrefix(d, 10);
  }

  /** The string of a single digit is that digit's character. */
  lemma OneDigitString(n: nat)
    requires n < 10
    ensures NatToString(n) == [DigitChar(n)]
  {
  }

  /** An accepted input is exactly one with eleven digits, not all equal,
      whose tenth and eleventh digits are the two check digits. */
  lemma ValidIffCheckDigitsMatch(s: string)
    ensures var d := RemoveNonDigits(s);
      IsValidCpf(s) <==>
        |d| == 11 && !IsHomogeneous(d)
        && DigitValue(d[9]) == CheckDigit(Weighted(d, 10, 9))
        && DigitValue(d[10]) == CheckDigit(Weighted(d, 11, 10))
  {
    var d := RemoveNonDigits(s);
    if |d| == 11 {
      CheckDigitsWeights(d);
      var d1 := CheckDigit(WeightedSum(d, FIRST_DIGIT_FACTOR));
      var d2 := CheckDigit(WeightedSum(d, SECOND_DIGIT_FACTOR));
      OneDigitString(d1);
      OneDigitString(d2);
      assert ExtractCheckDigits(d) == [d[9], d[10]];
      assert NatToString(d1) + NatToString(d2) == [DigitChar(d1), DigitChar(d2)];
      if DigitValue(d[9]) == d1 && DigitValue(d[10]) == d2 {
        assert DigitChar(d1) == d[9] && DigitChar(d2) == d[10];
      }
    }
  }

  /** A CPF needs exactly eleven digits: shorter or longer digit strings,
      the empty string and letters are rejected. */
  lemma WrongLengthRejected(s: string)
    requires |RemoveNonDigits(s)| != 11
    ensures !IsValidCpf(s)
  {
  }

  /** Eleven equal digits are rejected whatever their check digits say. */
  lemma HomogeneousRejected(s: string)
    requires IsHomogeneous(RemoveNonDigits(s))
    ensures !IsValidCpf(s)
  {
  }

  /** Removing the non-digits character by character. */
  lemma RemoveNonDigitsCons(c: char, s: string)
    ensures RemoveNonDigits([c] + s) == (if IsDigit(c) then [c] else []) + RemoveNonDigits(s)
  {
    assert ([c] + s)[1..] == s;
  }

  /** A digit string accepted by its check digits, computed outright. */
  lemma AcceptedDigits(d: string, j: nat, first: int, second: int)
    requires |d| == 11 && AllDigits(d) && j < 11 && d[j] != d[0]
    requires Weighted(d, 10, 9) == first && Weighted(d, 11, 10) == second
    requires DigitValue(d[9]) == CheckDigit(first) && DigitValue(d[10]) == CheckDigit(second)
    ensures IsValidCpf(d)
  {
    RemoveNonDigitsOfDigits(d);
    ValidIffCheckDigitsMatch(d);
  }

  /** A valid number ending in 0. */
  lemma AcceptedEndingInZero()
    ensures IsValidCpf("99048058490")
  {
    assert AllDigits("99048058490");
    assert Weighted("99048058490", 10, 9) == 299;
    assert Weighted("99048058490", 11, 10) == 364;
    AcceptedDigits("99048058490", 2, 299, 364);
  }

  /** The default argument is valid (its first check digit is 0). */
  lemma AcceptedDefault()
    ensures IsValidCpf(VALID_CPF)
  {
    assert AllDigits(VALID_CPF);
    assert Weighted(VALID_CPF, 10, 9) == 264;
    assert Weighted(VALID_CPF, 11, 10) == 310;
    AcceptedDigits(VALID_CPF, 1, 264, 310);
  }

  /** The digits of the formatted number of the tests are accepted. */
  lemma DigitsAccepted()
    ensures IsValidCpf("03377749276")
  {
    assert AllDigits("03377749276");
    assert Weighted("03377749276", 10, 9) == 224;
    assert Weighted("03377749276", 11, 10) == 280;
    AcceptedDigits("03377749276", 1, 224, 280);
  }

  /** The formatted number of the tests, given through `x` and `digits`
      so that the proof works on their pieces. */
  lemma AcceptedFormattedOf(x: string, digits: string)
    requires x == "033.777.492-76" && digits == "03377749276"
    ensures RemoveNonDigits(x) == digits && IsValidCpf(x)
  {
    assert AllDigits(digits);
    FormattingIgnored(x, digits, "033", "777", "492", "76");
    DigitsAccepted();
  }

  /** The formatted number of the tests is accepted, and the value stored
      for it is its eleven digits. */
  lemma FormattedAccepted()
    ensures IsValidCpf("033.777.492-76")
    ensures RemoveNonDigits("033.777.492-76") == "03377749276"
  {
    AcceptedFormattedOf("033.777.492-76", "03377749276");
  }

  /** Eleven digits whose first check digit does not match are rejected. */
  lemma FirstCheckDigitMismatch(d: string, first: int)
    requires |d| == 11 && AllDigits(d) && Weighted(d, 10, 9) == first
    requires DigitValue(d[9]) != CheckDigit(first)
    ensures !IsValidCpf(d)
  {
    RemoveNonDigitsOfDigits(d);
    ValidIffCheckDigitsMatch(d);
  }

  /** The digits `45654378900` are rejected: the first check digit should be 9. */
  lemma DigitsRejected()
    ensures !IsValidCpf("45654378900")
  {
    assert AllDigits("45654378900");
    assert Weighted("45654378900", 10, 9) == 277;
    FirstCheckDigitMismatch("45654378900", 277);
  }

  /** The rejected number of the tests, given through `x` and `digits`. */
  lemma RejectedFormattedOf(x: string, digits: string)
    requires x == "456.543.789-00" && digits == "45654378900"
    ensures !IsValidCpf(x)
  {
    assert AllDigits(digits);
    FormattingIgnored(x, digits, "456", "543", "789", "00");
    DigitsRejected();
  }

  /** The formatted number of the tests with a wrong first check digit is
      rejected. */
  lemma FormattedRejected()
    ensures !IsValidCpf("456.543.789-00")
  {
    RejectedFormattedOf("456.543.789-00", "45654378900");
  }

  /** The dots and the dash of the `000.000.000-00` form are ignored. */
  lemma FormattingIgnored(x: string, digits: string, a: string, b: string, c: string, e: string)
    requires x == a + "." + b + "." + c + "-" + e && digits == a + b + c + e && AllDigits(digits)
    ensures RemoveNonDigits(x) == digits
    ensures IsValidCpf(x) == IsValidCpf(digits)
  {
    SeparatorIgnored(a, '.', b + "." + c + "-" + e);
    assert x == a + ['.'] + (b + "." + c + "-" + e);
    SeparatorIgnored(a + b, '.', c + "-" + e);
    assert a + b + "." + c + "-" + e == (a + b) + ['.'] + (c + "-" + e);
    assert a + (b + "." + c + "-" + e) == a + b + "." + c + "-" + e;
    SeparatorIgnored(a + b + c, '-', e);
    assert a + b + c + "-" + e == (a + b + c) + ['-'] + e;
    assert (a + b) + (c + "-" + e) == a + b + c + "-" + e;
    RemoveNonDigitsOfDigits(digits);
  }

  /** Removing the non-digits works piecewise. */
  lemma {:induction false} RemoveNonDigitsConcat(a: string, b: string)
    ensures RemoveNonDigits(a + b) == RemoveNonDigits(a) + RemoveNonDigits(b)
    decreases a
  {
    if a == [] {
      assert a + b == b;
    } else {
      assert (a + b)[1..] == a[1..] + b && (a + b)[0] == a[0];
      RemoveNonDigitsConcat(a[1..], b);
      if IsDigit(a[0]) {
        assert RemoveNonDigits(a + b) == [a[0]] + (RemoveNonDigits(a[1..]) + RemoveNonDigits(b));
        assert [a[0]] + (RemoveNonDigits(a[1..]) + RemoveNonDigits(b))
               == ([a[0]] + RemoveNonDigits(a[1..])) + RemoveNonDigits(b);
      }
    }
  }

  /** Separators inside a number are ignored: a number with a non-digit
      between two parts validates exactly as the two parts written together,
      and is stored the same. */
  lemma SeparatorIgnored(x: string, sep: char, y: string)
    requires !IsDigit(sep)
    ensures RemoveNonDigits(x + [sep] + y) == RemoveNonDigits(x + y)
    ensures IsValidCpf(x + [sep] + y) == IsValidCpf(x + y)
  {
    RemoveNonDigitsConcat(x + [sep], y);
    RemoveNonDigitsConcat(x, [sep]);
    RemoveNonDigitsConcat(x, y);
    assert RemoveNonDigits([sep]) == [];
  }
}
