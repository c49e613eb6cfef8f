/**
 * The shared validation rules of backend/pkg/validator: the length bounds used by
 * entities and request payloads, and the e-mail check, a byte-length pre-check
 * followed by the pattern `^[a-zA-Z0-9._%+-]+@[a-zA-Z0-9.-]+\.[a-zA-Z]{2,}$`.
 */
module Validator {
  import opened Text

  const MinNameLength := 5
  const MaxNameLength := 100
  const MinUsernameLength := 5
  const MaxUsernameLength := 50
  const MinProfileNameLength := 4
  const MaxProfileNameLength := 100
  const MinPasswordLength := 6
  const MaxPasswordLength := 128
  const MinEmailLength := 3

  predicate IsLetter(c: char)
  {
    'a' <= c <= 'z' || 'A' <= c <= 'Z'
  }

  /** The class `[a-zA-Z0-9._%+-]` of the local part. */
  predicate LocalChar(c: char)
  {
    IsLetter(c) || IsDigit(c) || c == '.' || c == '_' || c == '%' || c == '+' || c == '-'
  }

  /** The class `[a-zA-Z0-9.-]` of the domain part. */
  predicate DomainChar(c: char)
  {
    IsLetter(c) || IsDigit(c) || c == '.' || c == '-'
  }

  /**
   * The language of the e-mail pattern: a non-empty local part, `@`, a non-empty
   * domain, a dot, and a top-level domain of at least two letters.
   */
  ghost predicate MatchesEmailPattern(s: string)
  {
    exists a, d ::
      0 < a && a + 1 < d && d + 3 <= |s| && s[a] == '@' && s[d] == '.'
      && (forall i :: 0 <= i < a ==> LocalChar(s[i]))
      && (forall i :: a < i < d ==> DomainChar(s[i]))
      && (forall i :: d < i < |s| ==> IsLetter(s[i]))
  }

  /**
   * A matcher for the pattern: the `@` is the only one, and the top-level domain
   * starts after the last dot.
   */
  function MatchEmail(s: string): bool
  {
    var a := IndexOf(s, '@');
    if a <= 0 then false
    else
      var p := LastIndexOf(s, '.');
      a + 1 < p && p + 3 <= |s|
      && (forall i :: 0 <= i < a ==> LocalChar(s[i]))
      && (forall i :: a < i < p ==> DomainChar(s[i]))
      && (forall i :: p < i < |s| ==> IsLetter(s[i]))
  }

  lemma MatchEmailSound(s: string)
    requires MatchEmail(s)
    ensures MatchesEmailPattern(s)
  {
    var a := IndexOf(s, '@');
    var p := LastIndexOf(s, '.');
    assert 0 < a && a + 1 < p && p + 3 <= |s| && s[a] == '@' && s[p] == '.';
  }

  lemma MatchEmailComplete(s: string)
    requires MatchesEmailPattern(s)
    ensures MatchEmail(s)
  {
    var a, d :|
      0 < a && a + 1 < d && d + 3 <= |s| && s[a] == '@' && s[d] == '.'
      && (forall i :: 0 <= i < a ==> LocalChar(s[i]))
      && (forall i :: a < i < d ==> DomainChar(s[i]))
      && (forall i :: d < i < |s| ==> IsLetter(s[i]));
    IndexOfAt(s, '@', a);
    LastIndexOfAt(s, '.', d);
  }

  /** `IsValidEmail`: true exactly for the strings the pattern matches. */
  function IsValidEmail(email: string): (r: bool)
    ensures r <==> MatchesEmailPattern(email)
  {
    if ByteLen(email) < MinEmailLength then
      assert !MatchesEmailPattern(email) by {
        if MatchesEmailPattern(email) {
          MatchEmailComplete(email);
        }
      }
      false
    else
      if MatchEmail(email) then MatchEmailSound(email); true
      else
        assert !MatchesEmailPattern(email) by {
          if MatchesEmailPattern(email) {
            MatchEmailComplete(email);
          }
        }
        false
  }

  lemma PatternWitness(s: string, a: nat, d: nat)
    requires 0 < a && a + 1 < d && d + 3 <= |s| && s[a] == '@' && s[d] == '.'
    requires forall i :: 0 <= i < a ==> LocalChar(s[i])
    requires forall i :: a < i < d ==> DomainChar(s[i])
    requires forall i :: d < i < |s| ==> IsLetter(s[i])
    ensures IsValidEmail(s)
  {
  }

  /** The accepted examples of the validator's tests. */
  lemma EmailAcceptedExamples()
    ensures IsValidEmail("a@b.co")

  {
    PatternWitness("a@b.co", 1, 3);

  }

  /** The rejected examples of the validator's tests. */
  lemma EmailRejectedExamples()
    ensures !IsValidEmail("a@b.c")
    ensures !IsValidEmail("a@b")
    ensures !IsValidEmail("@example.com")
    ensures !IsValidEmail("user@")
    ensures !IsValidEmail("")
  {
    assert !MatchEmail("a@b.c");
    assert !MatchEmail("a@b");
    assert !MatchEmail("@example.com");
    assert !MatchEmail("user@");
  }
}
