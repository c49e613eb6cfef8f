/**
 * Typed environment variables and `.env` loading (backend/pkg/envx/envx.go).
 * The process environment is a map from name to value; `os.Getenv` reads
 * "" for a missing name. `os.ExpandEnv` is a function parameter, and the
 * file `os.ReadFile` reads is a parameter holding its text or its error.
 * Lines are scanned as characters: every character the loader compares
 * with ('#', '=', quotes, space, tab) is ASCII, so a byte scan and a
 * character scan find the same positions.
 */
module Envx {
  import opened Wrappers
  import opened Text

  /** The two errors `GetE` reports. */
  datatype EnvError =
    | RequiredError(key: string)
    | ParseError(key: string, value: string, err: string)

  /** `fullKey`: the prefix and the key joined by '_', or the key alone without a prefix. */
  function FullKey(prefix: string, key: string): (r: string)
    ensures prefix == "" ==> r == key
    ensures prefix != "" ==>
      (|r| == |prefix| + 1 + |key| && r[..|prefix|] == prefix && r[|prefix|] == '_' && r[|prefix| + 1..] == key)
  {
    if prefix != "" then prefix + "_" + key else key
  }

  /** A prefix without '_' can be read back from the full key, and so can the key. */
  lemma FullKeyRecovers(prefix: string, key: string)
    requires prefix != "" && '_' !in prefix
    ensures IndexOf(FullKey(prefix, key), '_') == |prefix|
  {
    IndexOfAfterFree(prefix, key, '_');
  }

  /** With '_' inside a prefix, two different variables can read the same name. */
  lemma FullKeyCollides()
    ensures FullKey("APP_DB", "HOST") == FullKey("APP", "DB_HOST")
  {
  }

  /** What `os.Getenv` reads: the value, or "" for a missing name. */
  function Getenv(env: map<string, string>, key: string): string
  {
    if key in env then env[key] else ""
  }

  /**
   * `Var[T]`: a variable's key, optional default, required flag, parser and
   * prefix. `zero` is Go's zero value of `T`, which `GetE` and `Lookup`
   * return beside an error or a miss.
   */
  class Var<T> {
    var key: string
    var defaultValue: Option<T>
    var required: bool
    var parser: string -> Result<T, string>
    var prefix: string
    const zero: T

    /** `New[T]`: a variable with the parser found for `T`, no default, not required, no prefix. */
    constructor (key: string, parser: string -> Result<T, string>, zero: T)
      ensures this.key == key && this.parser == parser && this.zero == zero
      ensures defaultValue == None && !required && prefix == ""
    {
      this.key := key;
      this.parser := parser;
      this.zero := zero;
      defaultValue := None;
      required := false;
      prefix := "";
    }

    /** `Default`: sets the default and returns the same variable. */
    method Default(value: T) returns (r: Var<T>)
      modifies this`defaultValue
      ensures r == this && defaultValue == Some(value)
    {
      defaultValue := Some(value);
      r := this;
    }

    /** `Required`: marks the variable required and returns the same variable. */
    method Required() returns (r: Var<T>)
      modifies this`required
      ensures r == this && required
    {
      required := true;
      r := this;
    }

    /** `WithPrefix`: sets the prefix and returns the same variable. */
    method WithPrefix(prefix: string) returns (r: Var<T>)
      modifies this`prefix
      ensures r == this && this.prefix == prefix
    {
      this.prefix := prefix;
      r := this;
    }

    /**
     * `GetE`: an empty or missing value is an error when required, else the
     * default, else the zero value; otherwise the expanded value is parsed
     * and a parser failure carries the key and the raw, unexpanded value.
     */
    function GetE(env: map<string, string>, expand: string -> string): (r: Result<T, EnvError>)
      reads this
      ensures Getenv(env, FullKey(prefix, key)) == "" ==>
        (required <==> r.Err?) && (r.Err? ==> r.error == RequiredError(FullKey(prefix, key)))
      ensures Getenv(env, FullKey(prefix, key)) == "" && !required ==>
        r == Ok(if defaultValue.Some? then defaultValue.value else zero)
      ensures Getenv(env, FullKey(prefix, key)) != "" ==>
        (r.Ok? <==> parser(expand(env[FullKey(prefix, key)])).Ok?)
      ensures r.Err? && r.error.ParseError? ==>
        r.error == ParseError(FullKey(prefix, key), env[FullKey(prefix, key)], parser(expand(env[FullKey(prefix, key)])).error)
    {
      var k := FullKey(prefix, key);
      var raw := Getenv(env, k);
      if raw == "" then
        if required then Err(RequiredError(k))
        else if defaultValue.Some? then Ok(defaultValue.value)
        else Ok(zero)
      else
        match parser(expand(raw))
        case Err(e) => Err(ParseError(k, raw, e))
        case Ok(v) => Ok(v)
    }

    /** `Lookup`: like `GetE` without the required check, reporting a miss or a parse failure as `false`. */
    function Lookup(env: map<string, string>, expand: string -> string): (r: (T, bool))
      reads this
      ensures !r.1 ==> r.0 == zero
    {
      var k := FullKey(prefix, key);
      if k !in env || env[k] == "" then
        if defaultValue.Some? then (defaultValue.value, true) else (zero, false)
      else
        match parser(expand(env[k]))
        case Err(_) => (zero, false)
        case Ok(v) => (v, true)
    }

    /** `IsSet`: whether the name is present, even with an empty value. */
    function IsSet(env: map<string, string>): (r: bool)
      reads this
      ensures r <==> FullKey(prefix, key) in env
    {
      FullKey(prefix, key) in env
    }
  }

  /**
   * `Lookup` and `GetE` agree on every value `GetE` returns, except that
   * `Lookup` reports `false` for a missing value without a default where
   * `GetE` gives the zero value; and `Lookup` ignores the required flag,
   * so a required variable with a default still finds it.
   */
  lemma LookupAgreesWithGetE<T>(v: Var<T>, env: map<string, string>, expand: string -> string)
    ensures var g, l := v.GetE(env, expand), v.Lookup(env, expand);
      && (g.Ok? && (Getenv(env, FullKey(v.prefix, v.key)) != "" || v.defaultValue.Some?) ==> l == (g.value, true))
      && (g.Err? && g.error.ParseError? ==> l == (v.zero, false))
      && (g.Err? && g.error.RequiredError? ==> l.1 == v.defaultValue.Some?)
      && (l.1 ==> g.Err? || g.value == l.0)
  {
  }

  /** A `.env` line that assigns a value. */
  datatype Assignment = Assignment(key: string, value: string)

  /** '#' at `i` opens a comment: first in the value, or after a space or tab. */
  predicate CommentAt(v: string, i: int)
    requires 0 <= i < |v|
  {
    v[i] == '#' && (i == 0 || v[i - 1] == ' ' || v[i - 1] == '\t')
  }

  /** The first comment at or after `i`, or -1. */
  function FirstCommentFrom(v: string, i: nat): (r: int)
    requires i <= |v|
    ensures r == -1 || (i <= r < |v| && CommentAt(v, r))
    ensures forall j :: i <= j < |v| && (r == -1 || j < r) ==> !CommentAt(v, j)
    decreases |v| - i
  {
    if i == |v| then -1
    else if CommentAt(v, i) then i
    else FirstCommentFrom(v, i + 1)
  }

  /** An unquoted value: cut at its first comment and trimmed, empty when the comment starts it. */
  function Unquoted(v: string): string
  {
    var c := FirstCommentFrom(v, 0);
    if c == -1 then v else if c == 0 then "" else TrimSpace(v[..c])
  }

  /** The loop of `loadDotEnvWithOverride` that looks for a comment in an unquoted value. */
  method UnquotedValue(valPart: string) returns (value: string)
    ensures value == Unquoted(valPart)
  {
    value := valPart;
    var i := 0;
    while i < |valPart|
      invariant 0 <= i <= |valPart|
      invariant FirstCommentFrom(valPart, 0) == FirstCommentFrom(valPart, i)
    {
      if valPart[i] == '#' {
        if i == 0 {
          value := "";
          return;
        }
        if i > 0 && (valPart[i - 1] == ' ' || valPart[i - 1] == '\t') {
          value := TrimSpace(valPart[..i]);
          return;
        }
      }
      i := i + 1;
    }
  }

  /**
   * The value of a trimmed right-hand side: a value opening with a quote is
   * its text up to the matching quote, or all of it when the quote is not
   * closed; any other value is read unquoted.
   */
  function LineValue(valPart: string): string
  {
    if |valPart| == 0 then ""
    else if valPart[0] == '"' || valPart[0] == '\'' then
      var endIdx := IndexOf(valPart[1..], valPart[0]);
      if endIdx != -1 then valPart[1..endIdx + 1] else valPart
    else Unquoted(valPart)
  }

  /** One line of a `.env` file: blank lines, comments and lines without '=' assign nothing. */
  function ParseLine(line: string): (r: Option<Assignment>)
    ensures var t := TrimSpace(line);
      r.None? <==> t == "" || t[0] == '#' || '=' !in t
    ensures r.Some? ==> '=' !in r.value.key && TrimSpace(r.value.key) == r.value.key
  {
    var t := TrimSpace(line);
    if t == "" || HasPrefix(t, "#") then None
    else
      var idx := IndexOf(t, '=');
      if idx == -1 then None
      else
        TrimSpaceIdempotent(t[..idx]);
        Some(Assignment(TrimSpace(t[..idx]), LineValue(TrimSpace(t[idx + 1..]))))
  }

  /** A quoted value is read back as the text between its quotes, whatever follows the closing quote. */
  lemma QuotedValue(q: char, content: string, rest: string)
    requires q == '"' || q == '\''
    requires q !in content
    ensures LineValue([q] + content + [q] + rest) == content
  {
    var v := [q] + content + [q] + rest;
    assert v[1..] == content + [q] + rest;
    IndexOfAfterFree(content, rest, q);
  }

  /** An opening quote that is never closed keeps the whole text, quote included. */
  lemma UnclosedQuote(v: string)
    requires |v| > 0 && (v[0] == '"' || v[0] == '\'') && v[0] !in v[1..]
    ensures LineValue(v) == v
  {
  }

  /** An unquoted value without '#' is kept whole. */
  lemma UnquotedWithoutComment(v: string)
    requires '#' !in v
    ensures Unquoted(v) == v
  {
  }

  /**
   * A line written as `KEY="value"` loads as that key and value, for a key
   * with no '=' and no white space or '#' at its start, no white space at
   * its end, and a value without '"'.
   */
  lemma WrittenLineLoads(key: string, value: string)
    requires key != [] && '=' !in key
    requires !IsSpace(key[0]) && key[0] != '#' && !IsSpace(key[|key| - 1])
    requires '"' !in value
    ensures ParseLine(key + "=" + "\"" + value + "\"") == Some(Assignment(key, value))
  {
    var quoted := "\"" + value + "\"";
    var line := key + "=" + "\"" + value + "\"";
    assert line == key + ['='] + quoted && line[..|key|] == key && line[|key| + 1..] == quoted;
    assert TrimSpace(line) == line by {
      assert line[0] == key[0] && line[|line| - 1] == '"';
      TrimSpaceKeeps(line);
    }
    assert !HasPrefix(line, "#") by {
      assert line[..1] != "#";
    }
    assert IndexOf(line, '=') == |key| by {
      IndexOfAfterFree(key, quoted, '=');
    }
    ParseLineAt(line, |key|);
    assert TrimSpace(key) == key by {
      TrimSpaceKeeps(key);
    }
    assert LineValue(TrimSpace(quoted)) == value by {
      TrimSpaceKeeps(quoted);
      QuotedValue('"', value, "");
      assert quoted == ['"'] + value + ['"'] + "";
    }
  }

  /** A trimmed line that is not a comment and has its first '=' at `idx` splits there. */
  lemma ParseLineAt(line: string, idx: int)
    requires TrimSpace(line) == line && line != "" && !HasPrefix(line, "#")
    requires 0 <= idx < |line| && IndexOf(line, '=') == idx
    ensures ParseLine(line) == Some(Assignment(TrimSpace(line[..idx]), LineValue(TrimSpace(line[idx + 1..]))))
  {
  }

  /** What `os.Setenv` accepts on Unix: a non-empty name, and no NUL byte in the name or the value. */
  predicate SetenvAccepts(key: string, value: string)
  {
    key != "" && '\0' !in key && '\0' !in value
  }

  /** The effect of one parsed line: set when overriding or when the variable is empty or missing. */
  function Assign(vars: map<string, string>, a: Option<Assignment>, override: bool): map<string, string>
  {
    if a.Some? && (override || Getenv(vars, a.value.key) == "") && SetenvAccepts(a.value.key, a.value.value) then
      vars[a.value.key := a.value.value]
    else vars
  }

  /** The effect of one line. */
  function ApplyLine(vars: map<string, string>, line: string, override: bool): map<string, string>
  {
    Assign(vars, ParseLine(line), override)
  }

  /** The effect of the lines in order. */
  function ApplyLines(vars: map<string, string>, lines: seq<string>, override: bool): map<string, string>
    decreases |lines|
  {
    if lines == [] then vars
    else ApplyLine(ApplyLines(vars, lines[..|lines| - 1], override), lines[|lines| - 1], override)
  }

  /** The process environment. */
  class Environment {
    var vars: map<string, string>

    constructor (vars: map<string, string>)
      ensures this.vars == vars
    {
      this.vars := vars;
    }

    /**
     * `loadDotEnvWithOverride` on the file's text (or the error reading it):
     * each line is applied in order; a read error changes nothing.
     */
    method LoadDotEnvWithOverride(data: Result<string, string>, override: bool) returns (err: Option<string>)
      modifies this
      ensures data.Err? ==> err == Some(data.error) && vars == old(vars)
      ensures data.Ok? ==> err == None && vars == ApplyLines(old(vars), Split(data.value, '\n'), override)
    {
      if data.Err? {
        return Some(data.error);
      }
      var lines := Split(data.value, '\n');
      ghost var start := vars;
      var env := vars;
      var k := 0;
      while k < |lines|
        invariant 0 <= k <= |lines|
        invariant env == ApplyLines(start, lines[..k], override)
      {
        var a := ReadLine(lines[k]);
        env := SetUnlessKept(env, a, override);
        ApplyLinesStep(start, lines, k, override);
        k := k + 1;
      }
      assert lines[..k] == lines;
      vars := env;
      return None;
    }

    /** `LoadDotEnv`: existing non-empty variables win. */
    method LoadDotEnv(data: Result<string, string>) returns (err: Option<string>)
      modifies this
      ensures data.Err? ==> err == Some(data.error) && vars == old(vars)
      ensures data.Ok? ==> err == None && vars == ApplyLines(old(vars), Split(data.value, '\n'), false)
    {
      err := LoadDotEnvWithOverride(data, false);
    }

    /** `LoadDotEnvOverride`: the file wins. */
    method LoadDotEnvOverride(data: Result<string, string>) returns (err: Option<string>)
      modifies this
      ensures data.Err? ==> err == Some(data.error) && vars == old(vars)
      ensures data.Ok? ==> err == None && vars == ApplyLines(old(vars), Split(data.value, '\n'), true)
    {
      err := LoadDotEnvWithOverride(data, true);
    }
  }

  /** The end of the loading loop's body: `os.Setenv` when overriding or when the variable is empty or missing. */
  method SetUnlessKept(env: map<string, string>, a: Option<Assignment>, override: bool) returns (r: map<string, string>)
    ensures r == Assign(env, a, override)
  {
    r := env;
    if a.Some? && (override || Getenv(env, a.value.key) == "") && SetenvAccepts(a.value.key, a.value.value) {
      r := env[a.value.key := a.value.value];
    }
  }

  /** The body of the loading loop for one line, with the comment scan as a loop. */
  method ReadLine(line: string) returns (r: Option<Assignment>)
    ensures r == ParseLine(line)
  {
    var t := TrimSpace(line);
    if t == "" || HasPrefix(t, "#") {
      return None;
    }
    var idx := IndexOf(t, '=');
    if idx == -1 {
      return None;
    }
    var key := TrimSpace(t[..idx]);
    var value := ReadValue(TrimSpace(t[idx + 1..]));
    r := Some(Assignment(key, value));
  }

  /** The value part of the loading loop: quoted, unclosed or unquoted. */
  method ReadValue(valPart: string) returns (value: string)
    ensures value == LineValue(valPart)
  {
    value := "";
    if |valPart| > 0 {
      var quote := valPart[0];
      if quote == '"' || quote == '\'' {
        var endIdx := IndexOf(valPart[1..], quote);
        if endIdx != -1 {
          value := valPart[1..endIdx + 1];
        } else {
          value := valPart;
        }
      } else {
        value := UnquotedValue(valPart);
      }
    }
  }

  lemma ApplyLinesStep(vars: map<string, string>, lines: seq<string>, k: int, override: bool)
    requires 0 <= k < |lines|
    ensures ApplyLines(vars, lines[..k + 1], override) == ApplyLine(ApplyLines(vars, lines[..k], override), lines[k], override)
  {
    var t := lines[..k + 1];
    assert t[..k] == lines[..k] && t[k] == lines[k];
  }

  /** Without override, a variable that already holds a non-empty value keeps it. */
  lemma {:induction false} NoOverrideKeeps(vars: map<string, string>, lines: seq<string>, k: string)
    requires k in vars && vars[k] != ""
    ensures k in ApplyLines(vars, lines, false) && ApplyLines(vars, lines, false)[k] == vars[k]
    decreases |lines|
  {
    if lines != [] {
      NoOverrideKeeps(vars, lines[..|lines| - 1], k);
    }
  }

  /** Loading never removes a variable, and every new name comes from a line of the file. */
  lemma {:induction false} LoadOnlyAdds(vars: map<string, string>, lines: seq<string>, override: bool)
    ensures vars.Keys <= ApplyLines(vars, lines, override).Keys
    ensures forall k :: k in ApplyLines(vars, lines, override) && k !in vars ==>
      exists i :: 0 <= i < |lines| && ParseLine(lines[i]).Some? && ParseLine(lines[i]).value.key == k
    decreases |lines|
  {
    if lines != [] {
      var init := lines[..|lines| - 1];
      LoadOnlyAdds(vars, init, override);
      forall k | k in ApplyLines(vars, lines, override) && k !in vars
        ensures exists i :: 0 <= i < |lines| && ParseLine(lines[i]).Some? && ParseLine(lines[i]).value.key == k
      {
        if k in ApplyLines(vars, init, override) {
          var i :| 0 <= i < |init| && ParseLine(init[i]).Some? && ParseLine(init[i]).value.key == k;
          assert lines[i] == init[i];
        } else {
          assert ParseLine(lines[|lines| - 1]).Some?;
        }
      }
    }
  }

  /** With override, the last line of the file that assigns an acceptable value decides it. */
  lemma OverrideLastWins(vars: map<string, string>, lines: seq<string>, a: Assignment)
    requires lines != [] && ParseLine(lines[|lines| - 1]) == Some(a) && SetenvAccepts(a.key, a.value)
    ensures a.key in ApplyLines(vars, lines, true) && ApplyLines(vars, lines, true)[a.key] == a.value
  {
  }
}
