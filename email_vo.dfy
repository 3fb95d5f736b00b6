/** The `Email` value object of `value-objects/email.vo`: created through
    `create`, which checks the same pattern as the other `Email`, stores the
    lowercased address, and compares by that stored value. */
module EmailVo {
  import opened Wrappers
  import opened Text
  import opened Errors
  import Email

  datatype EmailVo = EmailVo(value: string)
  {
    /** `toString`: the stored value. */
    function ToString(): string
    {
      value
    }

    /** `equals`: the stored values agree. */
    predicate Equals(other: EmailVo)
    {
      other.value == value
    }
  }

  /** `isValidRawEmail`: the pattern `^[^\s@]+@[^\s@]+\.[^\s@]+$`. */
  predicate IsValidRawEmail(rawEmail: string)
  {
    Email.MatchesPattern(rawEmail)
  }

  /** `Email.create`: throws `InvalidOperationException` on an address the
      pattern rejects, and otherwise keeps it lowercased. */
  function Create(rawEmail: string): (r: Result<EmailVo, Exception>)
    ensures r.Success? <==> IsValidRawEmail(rawEmail)
    ensures r.Failure? ==> r.error == Exception(InvalidOperation, EMAIL_INVALID_RAW)
    ensures r.Success? ==> r.value.ToString() == ToLower(rawEmail)
  {
    if !IsValidRawEmail(rawEmail) then Failure(Exception(InvalidOperation, EMAIL_INVALID_RAW))
    else Success(EmailVo(ToLower(rawEmail)))
  }

  /** Both value objects accept the same addresses and store the same text;
      they differ in the exception they throw. */
  lemma SameAsEmail(rawEmail: string)
    ensures Create(rawEmail).Success? == Email.NewEmail(rawEmail).Success?
    ensures Create(rawEmail).Success? ==> Create(rawEmail).value.value == Email.NewEmail(rawEmail).value.value
    ensures Create(rawEmail).Failure? ==> Create(rawEmail).error.kind != Email.NewEmail(rawEmail).error.kind
  {
  }

  /** Two created addresses are `equals` exactly when they agree up to
      letter case. */
  lemma EqualsIffSameLowercase(a: string, b: string)
    requires Create(a).Success? && Create(b).Success?
    ensures Create(a).value.Equals(Create(b).value) <==> ToLower(a) == ToLower(b)
  {
  }

  /** `equals` is an equivalence. */
  lemma EqualsIsEquivalence(x: EmailVo, y: EmailVo, z: EmailVo)
    ensures x.Equals(x)
    ensures x.Equals(y) ==> y.Equals(x)
    ensures x.Equals(y) && y.Equals(z) ==> x.Equals(z)
  {
  }

  /** Creating from a created address's text gives the same address back. */
  lemma CreateOfToString(rawEmail: string)
    requires Create(rawEmail).Success?
    ensures Create(Create(rawEmail).value.ToString()) == Create(rawEmail)
  {
    Email.LowerKeepsMatch(rawEmail);
    ToLowerIdempotent(rawEmail);
  }
}
