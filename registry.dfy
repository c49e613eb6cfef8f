/**
 * The parser registry of the environment loader
 * (backend/pkg/envx/registry.go): a map from a type's name to the parser
 * that reads a value of that type from text, filled at start-up with the
 * built-in parsers. The string, bool and `[]string` parsers are modelled;
 * a parsed value is boxed in `Value`, as Go boxes it in `any`.
 */
module Registry {
  import opened Wrappers
  import opened Text

  /** The words the bool parser accepts, after lower-casing. */
  const TrueWords: set<string> := {"true", "1", "yes", "on", "y"}
  const FalseWords: set<string> := {"false", "0", "no", "off", "n"}

  /** The bool parser: true and false words in any letter case, an error for anything else. */
  function ParseBool(s: string): (r: Result<bool, string>)
    ensures r.Ok? <==> ToLower(s) in TrueWords + FalseWords
    ensures r.Ok? ==> (r.value <==> ToLower(s) in TrueWords)
    ensures r.Err? ==> r.error == "invalid boolean value: \"" + s + "\""
  {
    var l := ToLower(s);
    if l in TrueWords then Ok(true)
    else if l in FalseWords then Ok(false)
    else Err("invalid boolean value: \"" + s + "\"")
  }

  /** No word is both true and false. */
  lemma BoolWordsDisjoint()
    ensures TrueWords * FalseWords == {}
  {
  }

  /** Letter case does not matter: two spellings that lower-case alike parse alike. */
  lemma ParseBoolIgnoresCase(s: string, t: string)
    requires ToLower(s) == ToLower(t)
    ensures ParseBool(s).Ok? <==> ParseBool(t).Ok?
    ensures ParseBool(s).Ok? ==> ParseBool(s) == ParseBool(t)
  {
  }

  /** What `strconv.FormatBool` writes, the bool parser reads back. */
  lemma ParseBoolFormatted(b: bool)
    ensures ParseBool(if b then "true" else "false") == Ok(b)
  {
    assert ToLower("true") == "true";
    assert ToLower("false") == "false";
  }

  /** Upper-case words are accepted, and an unknown word is refused. */
  lemma ParseBoolExamples()
    ensures ParseBool("YES") == Ok(true) && ParseBool("Off") == Ok(false)
    ensures ParseBool("maybe").Err?
  {
    assert ToLower("YES") == "yes";
    assert ToLower("Off") == "off";
    assert ToLower("maybe") == "maybe";
  }

  /** The trimmed, non-empty parts, in order. */
  function KeepTrimmed(parts: seq<string>): (r: seq<string>)
    ensures |r| <= |parts|
    decreases |parts|
  {
    if parts == [] then []
    else
      var t := TrimSpace(parts[|parts| - 1]);
      KeepTrimmed(parts[..|parts| - 1]) + (if t != "" then [t] else [])
  }

  /** The `[]string` parser: empty text gives no items; otherwise the comma-separated parts, trimmed, empty ones dropped. */
  function StringSlice(s: string): seq<string>
  {
    if s == "" then [] else KeepTrimmed(Split(s, ','))
  }

  /** The `[]string` parser: empty text gives no items, otherwise the parts kept by `TrimParts`. */
  method ParseStringSlice(s: string) returns (result: seq<string>)
    ensures result == StringSlice(s)
  {
    if s == "" {
      return [];
    }
    result := TrimParts(Split(s, ','));
  }

  /** The `[]string` parser's loop over the comma-separated parts. */
  method TrimParts(parts: seq<string>) returns (result: seq<string>)
    ensures result == KeepTrimmed(parts)
  {
    result := [];
    var k := 0;
    while k < |parts|
      invariant 0 <= k <= |parts|
      invariant result == KeepTrimmed(parts[..k])
    {
      var trimmed := TrimSpace(parts[k]);
      if trimmed != "" {
        result := result + [trimmed];
      }
      KeepTrimmedStep(parts, k);
      k := k + 1;
    }
    assert parts[..k] == parts;
  }

  /** The loop's step: one more part adds its trimmed form unless that is empty. */
  lemma KeepTrimmedStep(parts: seq<string>, k: nat)
    requires k < |parts|
    ensures KeepTrimmed(parts[..k + 1]) == KeepTrimmed(parts[..k]) + (if TrimSpace(parts[k]) != "" then [TrimSpace(parts[k])] else [])
  {
    assert parts[..k + 1] == parts[..k] + [parts[k]];
    KeepTrimmedSnoc(parts[..k], parts[k]);
  }

  /** An item as the parser delivers it: not empty, trimmed, without a comma. */
  predicate CleanItem(p: string)
  {
    p != "" && TrimSpace(p) == p && ',' !in p
  }

  /** Every kept part of comma-free parts is a clean item. */
  lemma {:induction false} KeepTrimmedClean(parts: seq<string>)
    requires forall i :: 0 <= i < |parts| ==> ',' !in parts[i]
    ensures forall i :: 0 <= i < |KeepTrimmed(parts)| ==> CleanItem(KeepTrimmed(parts)[i])
    decreases |parts|
  {
    if parts != [] {
      var last := parts[|parts| - 1];
      KeepTrimmedClean(parts[..|parts| - 1]);
      TrimSpaceIdempotent(last);
      TrimSpaceWithin(last);
    }
  }

  /** The parser delivers only clean items. */
  lemma StringSliceClean(s: string)
    ensures forall i :: 0 <= i < |StringSlice(s)| ==> CleanItem(StringSlice(s)[i])
  {
    if s != "" {
      KeepTrimmedClean(Split(s, ','));
    }
  }

  /** Clean items are kept as they are. */
  lemma {:induction false} KeepTrimmedKeepsClean(parts: seq<string>)
    requires forall i :: 0 <= i < |parts| ==> CleanItem(parts[i])
    ensures KeepTrimmed(parts) == parts
    decreases |parts|
  {
    if parts != [] {
      var init, last := parts[..|parts| - 1], parts[|parts| - 1];
      assert parts == init + [last];
      KeepTrimmedKeepsClean(init);
      KeepTrimmedSnoc(init, last);
      assert TrimSpace(last) == last by {
        assert CleanItem(parts[|parts| - 1]);
      }
    }
  }

  /** One more part adds its trimmed form unless that is empty. */
  lemma KeepTrimmedSnoc(init: seq<string>, last: string)
    ensures KeepTrimmed(init + [last]) == KeepTrimmed(init) + (if TrimSpace(last) != "" then [TrimSpace(last)] else [])
  {
    var parts := init + [last];
    assert parts[..|parts| - 1] == init;
  }

  /** Joining clean items with commas and parsing gives the items back. */
  lemma StringSliceRoundTrip(items: seq<string>)
    requires forall i :: 0 <= i < |items| ==> CleanItem(items[i])
    ensures StringSlice(Join(items, ',')) == items
  {
    if items != [] {
      assert Join(items, ',') != "" by {
        if |items| > 1 {
          assert |Join(items, ',')| >= |items[0]|;
        }
      }
      SplitJoin(items, ',');
      KeepTrimmedKeepsClean(items);
    }
  }

  /** Parsing is a normal form: writing the items back and parsing again changes nothing. */
  lemma StringSliceNormalises(s: string)
    ensures StringSlice(Join(StringSlice(s), ',')) == StringSlice(s)
  {
    StringSliceClean(s);
    StringSliceRoundTrip(StringSlice(s));
  }

  /** A parsed value, boxed as Go boxes it in `any`. */
  datatype Value = VString(s: string) | VBool(b: bool) | VStrings(items: seq<string>)

  type Parser = string -> Result<Value, string>

  /** The boxed string parser: the text itself. */
  function StringParser(s: string): (r: Result<Value, string>)
    ensures r.Ok? && r.value.VString? && r.value.s == s
  {
    Ok(VString(s))
  }

  function BoolParser(s: string): Result<Value, string>
  {
    match ParseBool(s)
    case Ok(b) => Ok(VBool(b))
    case Err(e) => Err(e)
  }

  function StringSliceParser(s: string): Result<Value, string>
  {
    Ok(VStrings(StringSlice(s)))
  }

  /** The registry: the parser registered last for each type name. */
  class ParserRegistry {
    var parsers: map<string, Parser>

    /** The start-up registrations of the string, bool and `[]string` parsers. */
    constructor ()
      ensures parsers.Keys == {"string", "bool", "[]string"}
      ensures forall s :: parsers["string"](s) == Ok(VString(s))
      ensures forall s :: parsers["bool"](s).Ok? <==> ParseBool(s).Ok?
      ensures forall s :: ParseBool(s).Ok? ==> parsers["bool"](s) == Ok(VBool(ParseBool(s).value))
      ensures forall s :: parsers["[]string"](s) == Ok(VStrings(StringSlice(s)))
    {
      var m: map<string, Parser> := map[];
      m := m["string" := StringParser];
      m := m["bool" := BoolParser];
      m := m["[]string" := StringSliceParser];
      parsers := m;
    }

    /** `getParser`: the parser registered for the type, if any. */
    function GetParser(t: string): (r: Option<Parser>)
      reads this
      ensures r.Some? <==> t in parsers
      ensures r.Some? ==> r.value == parsers[t]
    {
      if t in parsers then Some(parsers[t]) else None
    }

    /** `RegisterParser`: registering a type again replaces its parser; the other types keep theirs. */
    method RegisterParser(t: string, parser: Parser)
      modifies this`parsers
      ensures parsers == old(parsers)[t := parser]
      ensures GetParser(t) == Some(parser)
      ensures forall u :: u != t ==> GetParser(u) == old(GetParser(u))
    {
      parsers := parsers[t := parser];
    }
  }
}
