/**
 * `StringArray`, the Go slice that stores a role's permissions in a
 * PostgreSQL `text[]` column
 * (backend/internal/adapter/driven/persistence/postgres/model/types.go):
 * `Value` writes the array literal, `Scan` reads one back. A nil slice and
 * an empty one are both the empty sequence: `Value` treats them alike and
 * `Scan` never builds an empty non-nil slice. The bytes `Scan` receives are
 * modelled as the text they encode; every character the code tests
 * ('{', '}', ',', '"', '\\') is ASCII.
 */
module StringArrays {
  import opened Wrappers
  import opened Text

  /** `strings.ReplaceAll`: leftmost, non-overlapping occurrences of `pat`, scanning left to right. */
  function ReplaceAll(s: string, pat: string, rep: string): string
    requires pat != []
    decreases |s|
  {
    if |s| < |pat| then s
    else if s[..|pat|] == pat then rep + ReplaceAll(s[|pat|..], pat, rep)
    else [s[0]] + ReplaceAll(s[1..], pat, rep)
  }

  /** Replacing a single character is done character by character, so it splits over a concatenation. */
  lemma {:induction false} ReplaceCharConcat(x: string, y: string, c: char, rep: string)
    ensures ReplaceAll(x + y, [c], rep) == ReplaceAll(x, [c], rep) + ReplaceAll(y, [c], rep)
    decreases |x|
  {
    if x != [] {
      var xy := x + y;
      assert xy[1..] == x[1..] + y;
      assert xy[..1] == [x[0]] && x[..1] == [x[0]];
      ReplaceCharConcat(x[1..], y, c, rep);
      if x[0] == c {
        assert ReplaceAll(xy, [c], rep) == rep + ReplaceAll(x[1..] + y, [c], rep);
        assert ReplaceAll(x, [c], rep) == rep + ReplaceAll(x[1..], [c], rep);
      } else {
        assert ReplaceAll(xy, [c], rep) == [x[0]] + ReplaceAll(x[1..] + y, [c], rep);
        assert ReplaceAll(x, [c], rep) == [x[0]] + ReplaceAll(x[1..], [c], rep);
      }
    } else {
      assert x + y == y;
    }
  }

  /** How `Value` escapes one character. */
  function EscapeChar(c: char): string
  {
    if c == '\\' then "\\\\" else if c == '"' then "\\\"" else [c]
  }

  /** Escaping in a single pass. */
  function EscapeOnePass(s: string): string
    decreases |s|
  {
    if s == [] then [] else EscapeChar(s[0]) + EscapeOnePass(s[1..])
  }

  /** `Value`'s escaping: backslashes doubled first, then quotes preceded by a backslash. */
  function Escape(s: string): string
  {
    ReplaceAll(ReplaceAll(s, "\\", "\\\\"), "\"", "\\\"")
  }

  /** The two passes of `Escape` act as one pass over the characters. */
  lemma {:induction false} EscapeIsOnePass(s: string)
    ensures Escape(s) == EscapeOnePass(s)
    decreases |s|
  {
    if s != [] {
      var head := if s[0] == '\\' then "\\\\" else [s[0]];
      var r1 := ReplaceAll(s[1..], "\\", "\\\\");
      assert ReplaceAll(s, "\\", "\\\\") == head + r1;
      ReplaceCharConcat(head, r1, '"', "\\\"");
      EscapeIsOnePass(s[1..]);
      if s[0] == '\\' {
        assert ReplaceAll(head, "\"", "\\\"") == "\\\\";
      } else {
        assert ReplaceAll(head, "\"", "\\\"") == EscapeChar(s[0]);
      }
    }
  }

  /** An escaped comma-free string is comma-free. */
  lemma {:induction false} EscapeKeepsCommaFree(s: string)
    requires ',' !in s
    ensures ',' !in EscapeOnePass(s)
    decreases |s|
  {
    if s != [] {
      EscapeKeepsCommaFree(s[1..]);
    }
  }

  /** One element of the literal: quoted and escaped. */
  function Quote(s: string): string
  {
    "\"" + Escape(s) + "\""
  }

  function QuoteAll(a: seq<string>): (r: seq<string>)
    ensures |r| == |a| && forall i :: 0 <= i < |a| ==> r[i] == Quote(a[i])
  {
    seq(|a|, i requires 0 <= i < |a| => Quote(a[i]))
  }

  /** The array literal `Value` writes: nothing for an empty array, else every element quoted, comma-separated, in braces. */
  function Literal(a: seq<string>): Option<string>
  {
    if a == [] then None else Some("{" + Join(QuoteAll(a), ',') + "}")
  }

  /** `Value`: the literal built with a `strings.Builder`. */
  method Value(a: seq<string>) returns (r: Option<string>)
    ensures r == Literal(a)
  {
    if |a| == 0 {
      return None;
    }
    var sb := "{";
    var i := 0;
    while i < |a|
      invariant 0 <= i <= |a|
      invariant i == 0 ==> sb == "{"
      invariant i > 0 ==> sb == "{" + Join(QuoteAll(a[..i]), ',')
    {
      if i > 0 {
        sb := sb + ",";
      }
      sb := sb + "\"" + Escape(a[i]) + "\"";
      assert QuoteAll(a[..i + 1]) == QuoteAll(a[..i]) + [Quote(a[i])];
      if i > 0 {
        JoinSnoc(QuoteAll(a[..i]), Quote(a[i]), ',');
      }
      i := i + 1;
    }
    assert a[..i] == a;
    sb := sb + "}";
    return Some(sb);
  }

  /** `scanBytes`' unescaping of one element: only `\"` is undone. */
  function UnescapeQuotes(s: string): string
  {
    ReplaceAll(s, "\\\"", "\"")
  }

  /** One element as `scanBytes` cleans it: surrounding quotes removed and `\"` unescaped, when quoted. */
  function Strip(v: string): string
  {
    if |v| >= 2 && v[0] == '"' && v[|v| - 1] == '"' then UnescapeQuotes(v[1..|v| - 1]) else v
  }

  /** What `scanBytes` reads from a literal: braces trimmed, nothing left gives nil, else the comma-separated elements, each cleaned. */
  function Scanned(text: string): seq<string>
  {
    var elems := TrimChars(text, {'{', '}'});
    if elems == "" then []
    else
      var vals := Split(elems, ',');
      seq(|vals|, i requires 0 <= i < |vals| => Strip(vals[i]))
  }

  /** What `Scan` is handed by the database driver. */
  datatype Source = Bytes(text: string) | Str(text: string) | Nil | Other

  const IncompatibleType: string := "incompatible type for StringArray"

  /** A `*StringArray` that `Scan` fills in place. */
  class StringArray {
    var items: seq<string>

    constructor (items: seq<string>)
      ensures this.items == items
    {
      this.items := items;
    }

    /** `Scan`: text is parsed, nil clears the array, any other source is refused and leaves it as it was. */
    method Scan(src: Source) returns (err: Option<string>)
      modifies this`items
      ensures src.Nil? ==> err == None && items == []
      ensures src.Other? ==> err == Some(IncompatibleType) && items == old(items)
      ensures (src.Bytes? || src.Str?) ==> err == None && items == Scanned(src.text)
    {
      match src
      case Bytes(t) =>
        ScanBytes(t);
        err := None;
      case Str(t) =>
        ScanBytes(t);
        err := None;
      case Nil =>
        items := [];
        err := None;
      case Other =>
        err := Some(IncompatibleType);
    }

    /** `scanBytes`: splits the trimmed text and rewrites each quoted element in place. */
    method ScanBytes(src: string)
      modifies this`items
      ensures items == Scanned(src)
    {
      var elems := TrimChars(src, {'{', '}'});
      if |elems| == 0 {
        items := [];
        return;
      }
      var parts := Split(elems, ',');
      items := StripAll(parts);
    }
  }

  /** The loop of `scanBytes` over the split elements, rewriting each in place. */
  method StripAll(parts: seq<string>) returns (r: seq<string>)
    ensures r == seq(|parts|, i requires 0 <= i < |parts| => Strip(parts[i]))
  {
    var vals := new string[|parts|](i requires 0 <= i < |parts| => parts[i]);
    var i := 0;
    while i < vals.Length
      invariant 0 <= i <= vals.Length == |parts|
      invariant forall j :: 0 <= j < i ==> vals[j] == Strip(parts[j])
      invariant forall j :: i <= j < vals.Length ==> vals[j] == parts[j]
    {
      var v := vals[i];
      if |v| >= 2 && v[0] == '"' && v[|vals[i]| - 1] == '"' {
        vals[i] := v[1..|v| - 1];
        vals[i] := ReplaceAll(vals[i], "\\\"", "\"");
      }
      i := i + 1;
    }
    r := vals[..];
  }

  /** The elements that survive a round trip: no comma and no backslash. */
  predicate Plain(s: string)
  {
    ',' !in s && '\\' !in s
  }

  /** Without backslashes, `scanBytes`' unescaping undoes `Value`'s escaping. */
  lemma {:induction false} UnescapeQuotesUndoesEscape(s: string)
    requires '\\' !in s
    ensures UnescapeQuotes(EscapeOnePass(s)) == s
    decreases |s|
  {
    if s != [] {
      var rest := EscapeOnePass(s[1..]);
      UnescapeQuotesUndoesEscape(s[1..]);
      if s[0] == '"' {
        var e := "\\\"" + rest;
        assert e[..2] == "\\\"" && e[2..] == rest;
      } else {
        var e := [s[0]] + rest;
        assert e[1..] == rest;
        if |e| >= 2 {
          assert e[..2] != "\\\"" by {
            assert e[0] == s[0];
          }
        }
      }
    }
  }

  /** Braces around text that starts and ends with a quote are trimmed exactly. */
  lemma TrimBraces(j: string)
    requires |j| >= 1 && j[0] == '"' && j[|j| - 1] == '"'
    ensures TrimChars("{" + j + "}", {'{', '}'}) == j
  {
    var s := "{" + j + "}";
    var f := InSet({'{', '}'});
    assert s[1..] == j + "}";
    assert TrimLeftBy(s[1..], f) == j + "}";
    assert TrimLeftBy(s, f) == j + "}";
    var t := j + "}";
    assert t[..|t| - 1] == j;
    assert TrimRightBy(j, f) == j;
    assert TrimRightBy(t, f) == j;
  }

  /** A quoted element is cleaned back to its escaped text. */
  lemma StripQuoted(s: string)
    ensures Strip(Quote(s)) == UnescapeQuotes(Escape(s))
  {
    var q := Quote(s);
    assert q[1..|q| - 1] == Escape(s);
  }

  /** The literal of comma-free elements splits back into the quoted elements. */
  lemma LiteralSplits(a: seq<string>)
    requires a != [] && forall i :: 0 <= i < |a| ==> ',' !in a[i]
    ensures TrimChars(Literal(a).value, {'{', '}'}) == Join(QuoteAll(a), ',') != ""
    ensures Split(Join(QuoteAll(a), ','), ',') == QuoteAll(a)
  {
    var qs := QuoteAll(a);
    var j := Join(qs, ',');
    forall i | 0 <= i < |qs|
      ensures ',' !in qs[i] && |qs[i]| >= 2 && qs[i][0] == '"' && qs[i][|qs[i]| - 1] == '"'
    {
      EscapeIsOnePass(a[i]);
      EscapeKeepsCommaFree(a[i]);
    }
    JoinEnds(qs, ',');
    TrimBraces(j);
    SplitJoin(qs, ',');
  }

  /**
   * Reading back what `Value` wrote gives the same elements when none holds
   * a comma or a backslash; the empty array is written as nil and read back
   * empty.
   */
  lemma RoundTrip(a: seq<string>)
    requires forall i :: 0 <= i < |a| ==> Plain(a[i])
    ensures Literal(a).None? <==> a == []
    ensures Literal(a).Some? ==> Scanned(Literal(a).value) == a
  {
    if a != [] {
      var qs := QuoteAll(a);
      LiteralSplits(a);
      forall i | 0 <= i < |a|
        ensures Strip(qs[i]) == a[i]
      {
        StripPlain(a[i]);
      }
    }
  }

  /** An element without a backslash is cleaned back to itself. */
  lemma StripPlain(s: string)
    requires Plain(s)
    ensures Strip(Quote(s)) == s
  {
    StripQuoted(s);
    EscapeIsOnePass(s);
    UnescapeQuotesUndoesEscape(s);
  }

  /** A single backslash is written doubled and read back doubled: the round trip fails. */
  lemma BackslashNotRestored()
    ensures Literal(["\\"]) == Some("{\"\\\\\"}")
    ensures Scanned(Literal(["\\"]).value) == ["\\\\"]
  {
    var q := "\"\\\\\"";
    QuoteBackslash();
    assert Literal(["\\"]) == Some("{" + q + "}") by {
      assert QuoteAll(["\\"]) == [q];
      assert Join([q], ',') == q;
    }
    assert "{" + q + "}" == "{\"\\\\\"}";
    ScannedSingle(q);
    StripDoubled();
  }

  lemma QuoteBackslash()
    ensures Quote("\\") == "\"\\\\\""
  {
    assert ReplaceAll("\\", "\\", "\\\\") == "\\\\";
    assert ReplaceAll("\\\\", "\"", "\\\"") == "\\\\";
  }

  lemma StripDoubled()
    ensures Strip("\"\\\\\"") == "\\\\"
  {
    var q := "\"\\\\\"";
    var d := "\\\\";
    assert q[1..|q| - 1] == d;
    assert d[..2] != "\\\"" by {
      assert d[..2][1] == '\\';
    }
    assert d[1..] == "\\";
    assert ReplaceAll("\\", "\\\"", "\"") == "\\";
  }

  /** A literal of one quoted, comma-free element reads back as that element, cleaned. */
  lemma ScannedSingle(q: string)
    requires |q| >= 1 && q[0] == '"' && q[|q| - 1] == '"' && ',' !in q
    ensures Scanned("{" + q + "}") == [Strip(q)]
  {
    TrimBraces(q);
    assert Split(q, ',') == [q];
  }

  /** The unescaping `Value`'s escaping calls for: a backslash makes the next character literal. */
  function Unescape(s: string): string
    decreases |s|
  {
    if s == [] then []
    else if |s| >= 2 && s[0] == '\\' then [s[1]] + Unescape(s[2..])
    else [s[0]] + Unescape(s[1..])
  }

  /** `Unescape` undoes the escaping of every string. */
  lemma {:induction false} UnescapeUndoesEscape(s: string)
    ensures Unescape(Escape(s)) == s
  {
    EscapeIsOnePass(s);
    UnescapeUndoesOnePass(s);
  }

  lemma {:induction false} UnescapeUndoesOnePass(s: string)
    ensures Unescape(EscapeOnePass(s)) == s
    decreases |s|
  {
    if s != [] {
      var rest := EscapeOnePass(s[1..]);
      UnescapeUndoesOnePass(s[1..]);
      var e := EscapeChar(s[0]) + rest;
      if s[0] == '\\' || s[0] == '"' {
        assert e[2..] == rest;
      } else {
        assert e[1..] == rest;
      }
    }
  }

  /** An element cleaned with `Unescape` in place of `UnescapeQuotes`. */
  function StripFixed(v: string): string
  {
    if |v| >= 2 && v[0] == '"' && v[|v| - 1] == '"' then Unescape(v[1..|v| - 1]) else v
  }

  /** The corrected cleaning gives back every quoted element. */
  lemma StripFixedQuoted(s: string)
    ensures StripFixed(Quote(s)) == s
  {
    var q := Quote(s);
    assert q[1..|q| - 1] == Escape(s);
    UnescapeUndoesEscape(s);
  }

  /** `scanBytes` with the corrected unescaping. */
  function ScannedFixed(text: string): seq<string>
  {
    var elems := TrimChars(text, {'{', '}'});
    if elems == "" then []
    else
      var vals := Split(elems, ',');
      seq(|vals|, i requires 0 <= i < |vals| => StripFixed(vals[i]))
  }

  /** With the corrected unescaping, every comma-free array survives the round trip, backslashes included. */
  lemma RoundTripFixed(a: seq<string>)
    requires forall i :: 0 <= i < |a| ==> ',' !in a[i]
    ensures Literal(a).None? <==> a == []
    ensures Literal(a).Some? ==> ScannedFixed(Literal(a).value) == a
  {
    if a != [] {
      var qs := QuoteAll(a);
      LiteralSplits(a);
      forall i | 0 <= i < |a|
        ensures StripFixed(qs[i]) == a[i]
      {
        StripFixedQuoted(a[i]);
      }
    }
  }
}
