/**
 * The e-mail shape check both auth forms apply, the regular expression
 * `^[^\s@]+@[^\s@]+\.[^\s@]+$`, written as a hand-made string predicate and
 * proved equal to the language the pattern denotes.
 */
module EmailPattern {
  import opened JsStrings

  /** A character of the class `[^\s@]`. */
  predicate IsPlain(c: char) {
    !IsSpace(c) && c != '@'
  }

  /** `s` matches `[^\s@]*`. */
  predicate AllPlain(s: string) {
    forall k :: 0 <= k < |s| ==> IsPlain(s[k])
  }

  /**
   * `s` is `local "@" domain "." tld` with the three parts non-empty runs of
   * `[^\s@]`, where `s[at]` is the `@` and `s[dot]` the `.` that the
   * pattern matches literally.
   */
  predicate SplitsAt(s: string, at: nat, dot: nat) {
    && 0 < at && at + 1 < dot && dot + 1 < |s|
    && s[at] == '@' && s[dot] == '.'
    && AllPlain(s[..at]) && AllPlain(s[at + 1..dot]) && AllPlain(s[dot + 1..])
  }

  /** The language of the pattern: some choice of the literal `@` and `.` fits. */
  ghost predicate MatchesPattern(s: string) {
    exists at: nat, dot: nat :: SplitsAt(s, at, dot)
  }

  /** Index of the first `c` in `s`, or `|s|` when there is none. */
  function IndexOf(s: string, c: char): (i: nat)
    ensures i <= |s|
    ensures i < |s| ==> s[i] == c
    ensures forall k :: 0 <= k < i ==> s[k] != c
  {
    if |s| == 0 then 0
    else if s[0] == c then 0
    else 1 + IndexOf(s[1..], c)
  }

  /** The domain has a `.` that is neither its first nor its last character. */
  predicate HasInnerDot(domain: string) {
    |domain| >= 3 && '.' in domain[1..|domain| - 1]
  }

  /** The message both auth forms report when the address fails the pattern. */
  const InvalidEmail: string := "Invalid email format"

  /**
   * The hand-made matcher: split at the first `@`; the part before it is a
   * non-empty run without white space or `@`; the part after it has no white
   * space, no second `@`, and an inner `.`.
   */
  predicate IsEmailShaped(s: string): (r: bool)
    ensures r ==> 5 <= |s| && '@' in s
    ensures r ==> s[0] != '@' && s[|s| - 1] != '@'
  {
    var at := IndexOf(s, '@');
    && 0 < at < |s|
    && AllPlain(s[..at])
    && AllPlain(s[at + 1..])
    && HasInnerDot(s[at + 1..])
  }

  /** Every string the matcher accepts matches the regular expression. */
  lemma ShapedMatchesPattern(s: string)
    requires IsEmailShaped(s)
    ensures MatchesPattern(s)
  {
    var at := IndexOf(s, '@');
    var domain := s[at + 1..];
    var k :| 1 <= k < |domain| - 1 && domain[k] == '.';
    var dot := at + 1 + k;
    assert s[at + 1..dot] == domain[..k];
    assert s[dot + 1..] == domain[k + 1..];
    assert SplitsAt(s, at, dot);
  }

  /** The first `@` of a match is the one the pattern matched literally. */
  lemma MatchedAtIsFirst(s: string, at: nat)
    requires at < |s| && s[at] == '@' && AllPlain(s[..at])
    ensures IndexOf(s, '@') == at
  {
  }

  lemma AllPlainConcat(a: string, b: string)
    requires AllPlain(a) && AllPlain(b)
    ensures AllPlain(a + b)
  {
  }

  /** Every string the regular expression matches is accepted by the matcher. */
  lemma PatternIsShaped(s: string)
    requires MatchesPattern(s)
    ensures IsEmailShaped(s)
  {
    var at: nat, dot: nat :| SplitsAt(s, at, dot);
    MatchedAtIsFirst(s, at);
    DomainOfSplit(s, at, dot);
  }

  /** After the literal `@` of a match comes a run without white space or `@` that has an inner `.`. */
  lemma DomainOfSplit(s: string, at: nat, dot: nat)
    requires SplitsAt(s, at, dot)
    ensures AllPlain(s[at + 1..]) && HasInnerDot(s[at + 1..])
  {
    var domain := s[at + 1..];
    var tail := [s[dot]] + s[dot + 1..];
    assert domain == s[at + 1..dot] + tail;
    AllPlainConcat([s[dot]], s[dot + 1..]);
    AllPlainConcat(s[at + 1..dot], tail);
    assert domain[1..|domain| - 1][dot - at - 2] == '.';
  }

  /** The matcher accepts exactly the strings the regular expression matches. */
  lemma ShapedIffMatchesPattern(s: string)
    ensures IsEmailShaped(s) <==> MatchesPattern(s)
  {
    if IsEmailShaped(s) {
      ShapedMatchesPattern(s);
    }
    if MatchesPattern(s) {
      PatternIsShaped(s);
    }
  }

  /** The pattern admits no white space anywhere and exactly one `@`. */
  lemma ShapedHasOneAtAndNoSpace(s: string)
    requires IsEmailShaped(s)
    ensures forall k :: 0 <= k < |s| ==> !IsSpace(s[k])
    ensures forall k :: 0 <= k < |s| && s[k] == '@' ==> k == IndexOf(s, '@')
  {
    var at := IndexOf(s, '@');
    forall k | 0 <= k < |s|
      ensures !IsSpace(s[k]) && (s[k] == '@' ==> k == at)
    {
      if k < at {
        assert s[k] == s[..at][k];
        assert IsPlain(s[k]);
      } else if k > at {
        assert s[k] == s[at + 1..][k - at - 1];
        assert IsPlain(s[k]);
      } else {
        assert s[k] == '@';
      }
    }
  }

  /** A shaped e-mail is never blank, so it also passes the forms' "is required" check. */
  lemma ShapedIsNotBlank(s: string)
    requires IsEmailShaped(s)
    ensures !IsBlank(s)
  {
    ShapedHasOneAtAndNoSpace(s);
    assert !IsSpace(s[0]);
  }

  /**
   * The e-mail is tested untrimmed: surrounding white space makes a
   * non-blank address fail the format check.
   */
  lemma PaddedIsNotShaped(s: string)
    requires |s| > 0 && (IsSpace(s[0]) || IsSpace(s[|s| - 1]))
    ensures !IsEmailShaped(s)
  {
    if IsEmailShaped(s) {
      ShapedHasOneAtAndNoSpace(s);
      assert false;
    }
  }

  lemma AcceptsPlainAddress()
    ensures IsEmailShaped("a@b.com")
  {
    var s := "a@b.com";
    assert SplitsAt(s, 1, 3) by {
      assert s[..1] == "a";
      assert s[2..3] == [s[2]] && s[2] == 'b';
      assert s[4..] == "com";
    }
    PatternIsShaped(s);
  }

  lemma RejectsMalformedAddresses()
    ensures !IsEmailShaped("a@.com")
    ensures !IsEmailShaped("a@b.")
    ensures !IsEmailShaped("@b.com")
    ensures !IsEmailShaped("a@b@c.com")
  {
    assert IndexOf("a@.com", '@') == 1;
    assert "a@.com"[2..][1..3] == "co";
    assert IndexOf("a@b.", '@') == 1;
    assert IndexOf("a@b@c.com", '@') == 1;
    assert "a@b@c.com"[2..][1] == '@';
  }
}
