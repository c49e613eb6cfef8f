/**
 * UUIDs as the code handles them through github.com/google/uuid: a UUID is kept
 * as its canonical lower-case text `xxxxxxxx-xxxx-xxxx-xxxx-xxxxxxxxxxxx`
 * (what `String()` prints), and `Parse` accepts the library's four spellings.
 */
module Uuid {
  import opened Wrappers
  import opened Text

  predicate IsHex(c: char)
  {
    '0' <= c <= '9' || 'a' <= c <= 'f' || 'A' <= c <= 'F'
  }

  predicate IsDashPos(i: int)
  {
    i == 8 || i == 13 || i == 18 || i == 23
  }

  /** The canonical text of a UUID. */
  predicate IsCanonical(s: string)
  {
    |s| == 36
    && (forall i :: 0 <= i < 36 && IsDashPos(i) ==> s[i] == '-')
    && (forall i :: 0 <= i < 36 && !IsDashPos(i) ==> ('0' <= s[i] <= '9' || 'a' <= s[i] <= 'f'))
  }

  type Uuid = s: string | IsCanonical(s) witness "00000000-0000-0000-0000-000000000000"

  /** `uuid.Nil.String()`. */
  const Nil: Uuid := "00000000-0000-0000-0000-000000000000"

  predicate IsAscii(s: string)
  {
    forall i :: 0 <= i < |s| ==> s[i] as int < 0x80
  }

  /** The hyphenated form: dashes at 8, 13, 18, 23 and hex digits elsewhere. */
  function ParseHyphenated(s: string): (r: Option<Uuid>)
    requires |s| == 36
    ensures r.Some? <==>
      (forall i :: 0 <= i < 36 && IsDashPos(i) ==> s[i] == '-')
      && (forall i :: 0 <= i < 36 && !IsDashPos(i) ==> IsHex(s[i]))
    ensures r.Some? ==> r.value == ToLower(s)
  {
    if (forall i :: 0 <= i < 36 && IsDashPos(i) ==> s[i] == '-')
      && (forall i :: 0 <= i < 36 && !IsDashPos(i) ==> IsHex(s[i]))
    then
      var t := ToLower(s);
      assert IsCanonical(t) by {
        forall i | 0 <= i < 36 && !IsDashPos(i) ensures '0' <= t[i] <= '9' || 'a' <= t[i] <= 'f' {
          assert IsHex(s[i]);
        }
      }
      Some(t)
    else None
  }

  /** Inserts the four dashes into 32 hex digits. */
  function Hyphenate(s: string): (r: string)
    requires |s| == 32
    ensures |r| == 36
    ensures forall i :: 0 <= i < 36 && IsDashPos(i) ==> r[i] == '-'
  {
    s[..8] + "-" + s[8..12] + "-" + s[12..16] + "-" + s[16..20] + "-" + s[20..]
  }

  lemma HyphenateDigits(s: string)
    requires |s| == 32
    ensures forall i :: 0 <= i < 36 && !IsDashPos(i) ==> Hyphenate(s)[i] in s
  {
    var r := Hyphenate(s);
    forall i | 0 <= i < 36 && !IsDashPos(i) ensures r[i] in s {
      if i < 8 { assert r[i] == s[i]; }
      else if i < 13 { assert r[i] == s[i - 1]; }
      else if i < 18 { assert r[i] == s[i - 2]; }
      else if i < 23 { assert r[i] == s[i - 3]; }
      else { assert r[i] == s[i - 4]; }
    }
  }

  /**
   * `uuid.Parse`: 36 characters hyphenated, 38 with any enclosing pair of
   * characters, 45 with a case-insensitive `urn:uuid:` prefix, or 32 bare hex
   * digits. A non-ASCII string never parses (every byte of such a string that
   * the library reads fails its checks), so lengths count characters here.
   */
  function Parse(s: string): (r: Option<Uuid>)
  {
    if !IsAscii(s) then None
    else if |s| == 36 then ParseHyphenated(s)
    else if |s| == 38 then ParseHyphenated(s[1..37])
    else if |s| == 45 then
      if ToLower(s[..9]) == "urn:uuid:" then ParseHyphenated(s[9..]) else None
    else if |s| == 32 then
      if forall i :: 0 <= i < 32 ==> IsHex(s[i]) then
        var t := Hyphenate(ToLower(s));
        HyphenateDigits(ToLower(s));
        assert IsCanonical(t);
        Some(t)
      else None
    else None
  }

  /** `String()` of a parsed UUID parses back to the same UUID. */
  lemma ParseString(u: Uuid)
    ensures Parse(u) == Some(u)
  {
    assert forall i :: 0 <= i < 36 ==> LowerChar(u[i]) == u[i];
    assert ToLower(u) == u;
  }

  /** Parsing is insensitive to the case of the hex digits and ignores the enclosing pair of the braced form. */
  lemma ParseSpellings(u: Uuid, open: char, close: char)
    requires open as int < 0x80 && close as int < 0x80
    ensures Parse([open] + u + [close]) == Some(u)
    ensures Parse("urn:uuid:" + u) == Some(u)
  {
    ParseString(u);
    var b := [open] + u + [close];
    assert b[1..37] == u;
    var n := "urn:uuid:" + u;
    assert n[..9] == "urn:uuid:";
    assert n[9..] == u;
  }

  /** A string that is not 32, 36, 38 or 45 characters long never parses. */
  lemma ParseLength(s: string)
    requires Parse(s).Some?
    ensures |s| in {32, 36, 38, 45}
  {
  }
}
