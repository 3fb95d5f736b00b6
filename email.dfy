/** The `Email` value object of `value-objects/email`: an address accepted
    by the pattern `^[^\s@]+@[^\s@]+\.[^\s@]+$`, stored lowercased. */
module Email {
  import opened Wrappers
  import opened Text
  import opened Errors

  datatype Email = Email(value: string)

  /** A run of `[^\s@]+`: non-empty, with no white space and no '@'. */
  predicate IsRun(t: string)
  {
    |t| > 0 && forall k :: 0 <= k < |t| ==> !IsSpace(t[k]) && t[k] != '@'
  }

  /** What the pattern matches: a run, '@', a run, '.', a run, covering the
      whole string; the '.' may be any one inside the domain, as the
      backtracking of the middle run allows. */
  predicate MatchesPattern(s: string)
  {
    exists i, j :: 0 < i < j < |s| && s[i] == '@' && s[j] == '.'
                   && IsRun(s[..i]) && IsRun(s[i + 1..j]) && IsRun(s[j + 1..])
  }

  /** `new Email(email)`: the pattern is matched against the raw input, and the
      lowercased input is stored. */
  function NewEmail(email: string): (r: Result<Email, Exception>)
    ensures r.Success? <==> MatchesPattern(email)
    ensures r.Success? ==> r.value.value == ToLower(email)
    ensures r.Failure? ==> r.error == Exception(DomainException, "Invalid email")
  {
    if !MatchesPattern(email) then Failure(Exception(DomainException, "Invalid email"))
    else Success(Email(ToLower(email)))
  }

  // The pattern, described character by character.

  /** The number of occurrences of `c` in `s`. */
  function Count(s: string, c: char): nat
  {
    if s == [] then 0 else (if s[0] == c then 1 else 0) + Count(s[1..], c)
  }

  predicate NoSpace(s: string)
  {
    forall k :: 0 <= k < |s| ==> !IsSpace(s[k])
  }

  /** Some '.' strictly inside `d`, with characters on both sides. */
  predicate HasInnerDot(d: string)
  {
    exists j :: 0 < j < |d| - 1 && d[j] == '.'
  }

  lemma {:induction false} CountConcat(a: string, b: string, c: char)
    ensures Count(a + b, c) == Count(a, c) + Count(b, c)
    decreases a
  {
    if a == [] {
      assert a + b == b;
    } else {
      assert (a + b)[0] == a[0] && (a + b)[1..] == a[1..] + b;
      CountConcat(a[1..], b, c);
    }
  }

  lemma {:induction false} CountAbsent(s: string, c: char)
    requires forall k :: 0 <= k < |s| ==> s[k] != c
    ensures Count(s, c) == 0
  {
    if s != [] {
      CountAbsent(s[1..], c);
    }
  }

  /** An '@' inside `s` counts. */
  lemma {:induction false} CountPresent(s: string, c: char, i: nat)
    requires i < |s| && s[i] == c
    ensures Count(s, c) >= 1
  {
    if i > 0 {
      CountPresent(s[1..], c, i - 1);
    }
  }

  /** An accepted address has exactly one '@' and no white space. */
  lemma AcceptedShape(s: string)
    requires MatchesPattern(s)
    ensures Count(s, '@') == 1 && NoSpace(s)
  {
    var i, j :| 0 < i < j < |s| && s[i] == '@' && s[j] == '.'
                && IsRun(s[..i]) && IsRun(s[i + 1..j]) && IsRun(s[j + 1..]);
    RunsAt(s, i, j);
  }

  /** Three runs around an '@' at `i` and a '.' at `j`: one '@', no white
      space. */
  lemma RunsAt(s: string, i: nat, j: nat)
    requires 0 < i < j < |s| && s[i] == '@' && s[j] == '.'
    requires IsRun(s[..i]) && IsRun(s[i + 1..j]) && IsRun(s[j + 1..])
    ensures Count(s, '@') == 1 && NoSpace(s)
  {
    RunsAtCount(s, i, j);
    RunsAtNoSpace(s, i, j);
  }

  lemma RunsAtCount(s: string, i: nat, j: nat)
    requires 0 < i < j < |s| && s[i] == '@' && s[j] == '.'
    requires IsRun(s[..i]) && IsRun(s[i + 1..j]) && IsRun(s[j + 1..])
    ensures Count(s, '@') == 1
  {
    var local, host, top := s[..i], s[i + 1..j], s[j + 1..];
    CountAbsent(local, '@');
    CountAbsent(host, '@');
    CountAbsent(top, '@');
    assert s == local + s[i..];
    CountConcat(local, s[i..], '@');
    assert s[i..][0] == '@' && s[i..][1..] == s[i + 1..];
    assert Count(s[i..], '@') == 1 + Count(s[i + 1..], '@');
    assert s[i + 1..] == host + s[j..];
    CountConcat(host, s[j..], '@');
    assert s[j..][0] == '.' && s[j..][1..] == top;
    assert Count(s[j..], '@') == Count(top, '@');
  }

  lemma RunsAtNoSpace(s: string, i: nat, j: nat)
    requires 0 < i < j < |s| && s[i] == '@' && s[j] == '.'
    requires IsRun(s[..i]) && IsRun(s[i + 1..j]) && IsRun(s[j + 1..])
    ensures NoSpace(s)
  {
    var local, host, top := s[..i], s[i + 1..j], s[j + 1..];
    forall k | 0 <= k < |s|
      ensures !IsSpace(s[k])
    {
      if k < i {
        assert s[k] == local[k];
      } else if i < k < j {
        assert s[k] == host[k - i - 1];
      } else if j < k {
        assert s[k] == top[k - j - 1];
      }
    }
  }

  /** The pattern described without the regular expression: no white space,
      exactly one '@' with something before it, and a '.' strictly inside
      the part after it. */
  lemma MatchesIff(s: string, i: nat)
    requires i < |s| && s[i] == '@'
    ensures MatchesPattern(s) <==> NoSpace(s) && Count(s, '@') == 1 && 0 < i && HasInnerDot(s[i + 1..])
  {
    if MatchesPattern(s) {
      MatchedShape(s, i);
    }
    if NoSpace(s) && Count(s, '@') == 1 && 0 < i && HasInnerDot(s[i + 1..]) {
      ShapeMatches(s, i);
    }
  }

  /** A match has its only '@' not first, with an inner '.' after it. */
  lemma MatchedShape(s: string, i: nat)
    requires i < |s| && s[i] == '@' && MatchesPattern(s)
    ensures NoSpace(s) && Count(s, '@') == 1 && 0 < i && HasInnerDot(s[i + 1..])
  {
    AcceptedShape(s);
    var i', j :| 0 < i' < j < |s| && s[i'] == '@' && s[j] == '.'
                 && IsRun(s[..i']) && IsRun(s[i' + 1..j]) && IsRun(s[j + 1..]);
    if i != i' {
      OtherAt(s, i', i);
    }
    assert i == i';
    var d := s[i + 1..];
    assert |s[i + 1..j]| > 0 && |s[j + 1..]| > 0;
    assert d[j - i - 1] == s[j] == '.';
    assert 0 < j - i - 1 < |d| - 1;
  }

  /** Conversely, that shape is a match, split at the '@' and the inner '.'. */
  lemma ShapeMatches(s: string, i: nat)
    requires i < |s| && s[i] == '@'
    requires NoSpace(s) && Count(s, '@') == 1 && 0 < i && HasInnerDot(s[i + 1..])
    ensures MatchesPattern(s)
  {
    var d := s[i + 1..];
    var j' :| 0 < j' < |d| - 1 && d[j'] == '.';
    var j := i + 1 + j';
    assert s[j] == '.';
    OnlyAt(s, i);
    var local := s[..i];
    assert IsRun(local) by {
      forall k | 0 <= k < |local| ensures !IsSpace(local[k]) && local[k] != '@' {
        assert local[k] == s[k];
      }
    }
    var host := s[i + 1..j];
    assert IsRun(host) by {
      forall k | 0 <= k < |host| ensures !IsSpace(host[k]) && host[k] != '@' {
        assert host[k] == s[i + 1 + k];
      }
    }
    var top := s[j + 1..];
    assert IsRun(top) by {
      forall k | 0 <= k < |top| ensures !IsSpace(top[k]) && top[k] != '@' {
        assert top[k] == s[j + 1 + k];
      }
    }
  }

  /** With a single '@', a second position holding '@' is the same one. */
  lemma OtherAt(s: string, i: nat, i': nat)
    requires i < |s| && i' < |s| && s[i] == '@' && s[i'] == '@' && i != i'
    ensures Count(s, '@') >= 2
  {
    var lo := if i < i' then i else i';
    var hi := if i < i' then i' else i;
    assert s == s[..hi] + s[hi..];
    CountConcat(s[..hi], s[hi..], '@');
    CountPresent(s[..hi], '@', lo);
    CountPresent(s[hi..], '@', 0);
  }

  /** With a single '@' at `i`, no other position holds '@'. */
  lemma OnlyAt(s: string, i: nat)
    requires i < |s| && s[i] == '@' && Count(s, '@') == 1
    ensures forall k :: 0 <= k < |s| && k != i ==> s[k] != '@'
  {
    forall k | 0 <= k < |s| && k != i
      ensures s[k] != '@'
    {
      if s[k] == '@' {
        OtherAt(s, i, k);
      }
    }
  }

  /** Three runs joined by '@' and '.' match. */
  lemma RunsMatch(local: string, host: string, top: string)
    requires IsRun(local) && IsRun(host) && IsRun(top)
    ensures MatchesPattern(local + "@" + host + "." + top)
  {
    var s := local + "@" + host + "." + top;
    var i, j := |local|, |local| + 1 + |host|;
    assert s[..i] == local && s[i + 1..j] == host && s[j + 1..] == top;
    assert s[i] == '@' && s[j] == '.';
  }

  /** Without an '@' nothing matches. */
  lemma NoAtRejected(s: string)
    requires forall k :: 0 <= k < |s| ==> s[k] != '@'
    ensures !MatchesPattern(s)
  {
  }

  /** With the only '@' at `i` and no '.' strictly inside the rest, nothing
      matches. */
  lemma NoInnerDotRejected(s: string, i: nat)
    requires i < |s| && s[i] == '@'
    requires forall k :: i + 1 < k < |s| - 1 ==> s[k] != '.'
    ensures !MatchesPattern(s)
  {
    MatchesIff(s, i);
  }

  /** Lowercasing keeps '@', '.' and white space where they are. */
  lemma LowerCharKeeps(c: char)
    ensures (LowerChar(c) == '@') == (c == '@')
    ensures (LowerChar(c) == '.') == (c == '.')
    ensures IsSpace(LowerChar(c)) == IsSpace(c)
  {
  }

  lemma RunLower(t: string)
    ensures IsRun(ToLower(t)) == IsRun(t)
  {
    var u := ToLower(t);
    forall k | 0 <= k < |t|
      ensures (!IsSpace(u[k]) && u[k] != '@') == (!IsSpace(t[k]) && t[k] != '@')
    {
      LowerCharKeeps(t[k]);
    }
  }

  /** Lowercasing a string lowercases its slices. */
  lemma LowerSlice(s: string, a: nat, b: nat)
    requires a <= b <= |s|
    ensures ToLower(s)[a..b] == ToLower(s[a..b])
  {
  }

  /** The pattern does not see letter case. */
  lemma LowerKeepsMatch(s: string)
    ensures MatchesPattern(ToLower(s)) == MatchesPattern(s)
  {
    var u := ToLower(s);
    if MatchesPattern(s) {
      var i, j :| 0 < i < j < |s| && s[i] == '@' && s[j] == '.'
                  && IsRun(s[..i]) && IsRun(s[i + 1..j]) && IsRun(s[j + 1..]);
      LowerWitness(s, i, j);
    }
    if MatchesPattern(u) {
      var i, j :| 0 < i < j < |u| && u[i] == '@' && u[j] == '.'
                  && IsRun(u[..i]) && IsRun(u[i + 1..j]) && IsRun(u[j + 1..]);
      LowerWitness(s, i, j);
    }
  }

  /** Positions `i` and `j` witness the pattern for `s` exactly when they
      witness it for its lowercase. */
  lemma LowerWitness(s: string, i: nat, j: nat)
    requires 0 < i < j < |s|
    ensures var u := ToLower(s);
      (u[i] == '@' && u[j] == '.' && IsRun(u[..i]) && IsRun(u[i + 1..j]) && IsRun(u[j + 1..]))
      == (s[i] == '@' && s[j] == '.' && IsRun(s[..i]) && IsRun(s[i + 1..j]) && IsRun(s[j + 1..]))
  {
    LowerCharKeeps(s[i]);
    LowerCharKeeps(s[j]);
    LowerSlice(s, 0, i);
    LowerSlice(s, i + 1, j);
    LowerSlice(s, j + 1, |s|);
    assert s[0..i] == s[..i] && s[j + 1..|s|] == s[j + 1..];
    var u := ToLower(s);
    assert u[0..i] == u[..i] && u[j + 1..|u|] == u[j + 1..];
    RunLower(s[..i]);
    RunLower(s[i + 1..j]);
    RunLower(s[j + 1..]);
  }

  /** Addresses differing only in letter case make the same `Email`. */
  lemma CaseInsensitive(s: string)
    ensures NewEmail(ToLower(s)) == NewEmail(s)
  {
    LowerKeepsMatch(s);
    ToLowerIdempotent(s);
  }

  // The addresses of the source's tests.

  /** A plain address matches the pattern. */
  lemma PlainAddressMatches()
    ensures MatchesPattern("test@example.com")
  {
    RunsMatch("test", "example", "com");
    assert "test" + "@" + "example" + "." + "com" == "test@example.com";
  }

  /** An address without '@' is rejected. */
  lemma RejectsWithoutAt()
    ensures NewEmail("invalid-email").Failure?
  {
    NoAtRejected("invalid-email");
  }

  /** An address without a '.' after the '@' is rejected. */
  lemma RejectsWithoutDot()
    ensures NewEmail("test@invalid").Failure?
  {
    NoInnerDotRejected("test@invalid", 4);
  }

  /** An address whose domain starts with the '.' is rejected. */
  lemma RejectsEmptyHost()
    ensures NewEmail("test@.com").Failure?
  {
    NoInnerDotRejected("test@.com", 4);
  }
}
