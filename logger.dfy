/**
 * The structured logger (backend/pkg/loggerx/logger.go): severity levels
 * and their names, the two level parsers, the logger's settings, `With`,
 * which derives a logger with more fields, the level filter and field merge
 * of `log`, and the small helpers `itoa` and the caller's short file name.
 * Sinks are opaque names (what they do with an entry is not modelled), the
 * clock is a function from a time layout to the formatted time, and the
 * caller's file and line are parameters.
 */
module Logger {
  import opened Wrappers
  import opened Text

  /** Go's `Level`, an `int`. */
  const Debug: int := 0
  const Info: int := 1
  const Warn: int := 2
  const Error: int := 3
  const Fatal: int := 4

  /** `Level.String`: the five levels by name, anything else "UNKNOWN". */
  function LevelName(l: int): (r: string)
    ensures Debug <= l <= Fatal ==> r == ["DEBUG", "INFO", "WARN", "ERROR", "FATAL"][l]
    ensures (l < Debug || l > Fatal) ==> r == "UNKNOWN"
  {
    if l == Debug then "DEBUG"
    else if l == Info then "INFO"
    else if l == Warn then "WARN"
    else if l == Error then "ERROR"
    else if l == Fatal then "FATAL"
    else "UNKNOWN"
  }

  /** The spellings `ParseLevel` knows. */
  const LevelSpellings: set<string> :=
    {"debug", "DEBUG", "info", "INFO", "warn", "WARN", "warning", "WARNING", "error", "ERROR", "fatal", "FATAL"}

  /** `ParseLevel`: lower- or upper-case names (and "warning"), anything else Info. */
  function ParseLevel(s: string): (r: int)
    ensures Debug <= r <= Fatal
    ensures s !in LevelSpellings ==> r == Info
  {
    if s == "debug" || s == "DEBUG" then Debug
    else if s == "info" || s == "INFO" then Info
    else if s == "warn" || s == "WARN" || s == "warning" || s == "WARNING" then Warn
    else if s == "error" || s == "ERROR" then Error
    else if s == "fatal" || s == "FATAL" then Fatal
    else Info
  }

  /** Every level's name parses back to the level. */
  lemma ParseLevelName(l: int)
    requires Debug <= l <= Fatal
    ensures ParseLevel(LevelName(l)) == l
  {
  }

  /** `ParseLogLevel`: any letter case; only debug, warn and error are recognised, anything else is Info. */
  function ParseLogLevel(s: string): (r: int)
    ensures r in {Debug, Info, Warn, Error}
  {
    var l := ToLower(s);
    if l == "debug" then Debug
    else if l == "warn" then Warn
    else if l == "error" then Error
    else Info
  }

  /** Letter case does not matter to `ParseLogLevel`. */
  lemma ParseLogLevelIgnoresCase(s: string)
    ensures ParseLogLevel(s) == ParseLogLevel(ToLower(s))
  {
    ToLowerIdempotent(s);
  }

  /** The two parsers agree on the lower-case names of debug, info, warn and error. */
  lemma LevelParsersAgree(s: string)
    requires s == "debug" || s == "info" || s == "warn" || s == "error"
    ensures ParseLogLevel(s) == ParseLevel(s)
    ensures ParseLevel(s) != Fatal
  {
    LowerWordUnchanged(s);
  }

  /** A word of lower-case letters is its own lower-case form. */
  lemma LowerWordUnchanged(s: string)
    requires forall i :: 0 <= i < |s| ==> 'a' <= s[i] <= 'z'
    ensures ToLower(s) == s
  {
    assert forall i :: 0 <= i < |s| ==> ToLower(s)[i] == s[i];
  }

  /** `ParseLogLevel` reads "fatal" and "warning" as Info, where `ParseLevel` reads Fatal and Warn. */
  lemma LevelParsersDiffer(s: string)
    requires s == "fatal" || s == "warning"
    ensures ParseLogLevel(s) == Info
    ensures ParseLevel(s) == if s == "fatal" then Fatal else Warn
  {
    LowerWordUnchanged(s);
  }

  function Pow10(k: nat): nat
  {
    if k == 0 then 1 else 10 * Pow10(k - 1)
  }

  lemma Pow10Nineteen()
    ensures Pow10(19) == 10_000_000_000_000_000_000
  {
    assert Pow10(4) == 10_000;
    assert Pow10(8) == 100_000_000;
    assert Pow10(12) == 1_000_000_000_000;
    assert Pow10(16) == 10_000_000_000_000_000;
  }

  /** A number below 10^k has at most k digits. */
  lemma {:induction false} DecimalLength(n: nat, k: nat)
    requires k >= 1 && n < Pow10(k)
    ensures |Decimal(n)| <= k
  {
    if n >= 10 {
      DecimalLength(n / 10, k - 1);
    }
  }

  /** The largest Go `int`, 2^63 - 1. */
  const MaxInt: int := 0x7FFF_FFFF_FFFF_FFFF

  /** `itoa`: digits written right to left into a 20-byte buffer; a negative number gives "". */
  method Itoa(i: int) returns (r: string)
    requires i <= MaxInt
    ensures i == 0 ==> r == "0"
    ensures i > 0 ==> r == Decimal(i)
    ensures i < 0 ==> r == ""
    ensures i >= 0 ==> DigitsValue(r) == i
  {
    if i == 0 {
      return "0";
    }
    if i > 0 {
      Pow10Nineteen();
      DecimalLength(i, 19);
    }
    var b := new char[20];
    var pos := WriteDigits(b, i);
    r := b[pos..];
    if i > 0 {
      DecimalRoundTrip(i);
    }
  }

  /** The loop of `itoa`: the digits of a positive number end up at the buffer's end; a negative one writes nothing. */
  method WriteDigits(b: array<char>, i: int) returns (pos: int)
    requires b.Length == 20
    requires i > 0 ==> |Decimal(i)| <= 20
    modifies b
    ensures 0 <= pos <= 20
    ensures i > 0 ==> b[pos..] == Decimal(i)
    ensures i <= 0 ==> pos == 20
  {
    pos := b.Length;
    var n := i;
    while n > 0
      invariant 0 <= pos <= 20
      invariant i > 0 ==> n >= 0
      invariant i <= 0 ==> n == i && pos == 20
      invariant n > 0 ==> |Decimal(n)| <= pos
      invariant i > 0 ==> Decimal(i) == (if n > 0 then Decimal(n) else []) + b[pos..]
    {
      pos := pos - 1;
      b[pos] := DigitChar(n % 10);
      assert b[pos..] == [DigitChar(n % 10)] + b[pos + 1..];
      n := n / 10;
    }
  }

  /**
   * The short file name `getCaller` reports: what follows the last '/'
   * after the first character; a path whose only '/' is its first
   * character is kept whole.
   */
  function ShortFile(file: string): (r: string)
  {
    var k := LastIndexOf(file, '/');
    if k > 0 then file[k + 1..] else file
  }

  /** The loop of `getCaller` that looks for the last '/'. */
  method ShortenFile(file: string) returns (short: string)
    ensures short == ShortFile(file)
  {
    short := file;
    var i := |file| - 1;
    while i > 0
      invariant -1 <= i < |file|
      invariant forall j :: i < j < |file| ==> file[j] != '/'
    {
      if file[i] == '/' {
        short := file[i + 1..];
        LastIndexOfAt(file, '/', i);
        return;
      }
      i := i - 1;
    }
    if file != [] && file[0] == '/' {
      LastIndexOfAt(file, '/', 0);
    }
  }

  /** A short file name holds no '/' unless the path's only '/' comes first. */
  lemma ShortFileHasNoSlash(file: string)
    requires file == [] || file[0] != '/' || '/' in file[1..]
    ensures '/' !in ShortFile(file)
  {
  }

  /** The caller text: short file name, ':' and the line. */
  method CallerText(file: string, line: int) returns (r: string)
    requires line <= MaxInt
    ensures line > 0 ==> r == ShortFile(file) + ":" + Decimal(line)
  {
    var short := ShortenFile(file);
    var digits := Itoa(line);
    r := short + ":" + digits;
  }

  /** A sink, by name; what it does with an entry is not modelled. */
  datatype Sink = Sink(name: string)

  /** One of the `Option` functions `New` applies. */
  datatype Setting =
    | WithLevel(level: int)
    | WithSink(sink: Sink)
    | WithFields(fields: map<string, Dynamic>)
    | WithCaller(enabled: bool)
    | WithTimeFormat(format: string)

  /** A logger's state, apart from its lock. */
  datatype Config = Config(level: int, sinks: seq<Sink>, fields: map<string, Dynamic>, addCaller: bool, timeFormat: string)

  /** Go's `time.RFC3339Nano` layout. */
  const RFC3339Nano: string := "2006-01-02T15:04:05.999999999Z07:00"

  /** What `New` starts from: Info, no sinks, no fields, caller on, RFC 3339 time with nanoseconds. */
  const Defaults: Config := Config(Info, [], map[], true, RFC3339Nano)

  function Apply(c: Config, s: Setting): Config
  {
    match s
    case WithLevel(l) => c.(level := l)
    case WithSink(k) => c.(sinks := c.sinks + [k])
    case WithFields(f) => c.(fields := f)
    case WithCaller(e) => c.(addCaller := e)
    case WithTimeFormat(t) => c.(timeFormat := t)
  }

  /** The settings applied in order. */
  function ApplyAll(c: Config, settings: seq<Setting>): Config
    decreases |settings|
  {
    if settings == [] then c
    else Apply(ApplyAll(c, settings[..|settings| - 1]), settings[|settings| - 1])
  }

  /** The sinks the settings add, in order. */
  function SinksOf(settings: seq<Setting>): seq<Sink>
    decreases |settings|
  {
    if settings == [] then []
    else
      var last := settings[|settings| - 1];
      SinksOf(settings[..|settings| - 1]) + (if last.WithSink? then [last.sink] else [])
  }

  /** Sinks accumulate in the order given; every other setting replaces its field. */
  lemma {:induction false} SinksInOrder(c: Config, settings: seq<Setting>)
    ensures ApplyAll(c, settings).sinks == c.sinks + SinksOf(settings)
    decreases |settings|
  {
    if settings != [] {
      SinksInOrder(c, settings[..|settings| - 1]);
    }
  }

  /** The last level setting decides the level; without one the level stays. */
  lemma {:induction false} LastLevelWins(c: Config, settings: seq<Setting>, l: int)
    ensures (forall i :: 0 <= i < |settings| ==> !settings[i].WithLevel?) ==> ApplyAll(c, settings).level == c.level
    ensures ApplyAll(c, settings + [WithLevel(l)]).level == l
    decreases |settings|
  {
    assert (settings + [WithLevel(l)])[..|settings|] == settings;
    if settings != [] {
      var init := settings[..|settings| - 1];
      LastLevelWins(c, init, l);
      if forall i :: 0 <= i < |settings| ==> !settings[i].WithLevel? {
        assert forall i :: 0 <= i < |init| ==> init[i] == settings[i];
      }
    }
  }

  /** The fields `With` adds: each string key with the value after it; other keys and a trailing key are skipped. */
  function AddPairs(fields: map<string, Dynamic>, keyvals: seq<Dynamic>): map<string, Dynamic>
    decreases |keyvals|
  {
    if |keyvals| < 2 then fields
    else
      var f := if keyvals[0].DString? then fields[keyvals[0].s := keyvals[1]] else fields;
      AddPairs(f, keyvals[2..])
  }

  /** A key that no pair names keeps its presence and its value. */
  lemma {:induction false} AddPairsKeepsOthers(fields: map<string, Dynamic>, keyvals: seq<Dynamic>, k: string)
    requires forall i :: 0 <= i < |keyvals| - 1 && i % 2 == 0 ==> keyvals[i] != DString(k)
    ensures k in AddPairs(fields, keyvals) <==> k in fields
    ensures k in fields ==> AddPairs(fields, keyvals)[k] == fields[k]
    decreases |keyvals|
  {
    if |keyvals| >= 2 {
      var f := if keyvals[0].DString? then fields[keyvals[0].s := keyvals[1]] else fields;
      var rest := keyvals[2..];
      forall i | 0 <= i < |rest| - 1 && i % 2 == 0
        ensures rest[i] != DString(k)
      {
        assert rest[i] == keyvals[i + 2];
      }
      AddPairsKeepsOthers(f, rest, k);
    }
  }

  /** A final complete pair with a string key sets that key, whatever came before. */
  lemma {:induction false} AddPairsLastWins(fields: map<string, Dynamic>, keyvals: seq<Dynamic>, k: string, v: Dynamic)
    requires |keyvals| % 2 == 0
    ensures var r := AddPairs(fields, keyvals + [DString(k), v]); k in r && r[k] == v
    decreases |keyvals|
  {
    var all := keyvals + [DString(k), v];
    if |keyvals| >= 2 {
      var f := if keyvals[0].DString? then fields[keyvals[0].s := keyvals[1]] else fields;
      assert all[2..] == keyvals[2..] + [DString(k), v];
      AddPairsLastWins(f, keyvals[2..], k, v);
    } else {
      assert all == [DString(k), v];
      assert all[2..] == [];
    }
  }

  /** A trailing key without a value is ignored. */
  lemma {:induction false} AddPairsIgnoresTrailingKey(fields: map<string, Dynamic>, keyvals: seq<Dynamic>, x: Dynamic)
    requires |keyvals| % 2 == 0
    ensures AddPairs(fields, keyvals + [x]) == AddPairs(fields, keyvals)
    decreases |keyvals|
  {
    var all := keyvals + [x];
    if |keyvals| >= 2 {
      var f := if keyvals[0].DString? then fields[keyvals[0].s := keyvals[1]] else fields;
      assert all[2..] == keyvals[2..] + [x];
      AddPairsIgnoresTrailingKey(f, keyvals[2..], x);
    }
  }

  /** A `slog.Attr`: a key and its value. */
  datatype Attr = Attr(key: string, value: Dynamic)

  /** The fields of an entry: the logger's, then each attribute in order. */
  function MergeAttrs(fields: map<string, Dynamic>, attrs: seq<Attr>): map<string, Dynamic>
    decreases |attrs|
  {
    if attrs == [] then fields
    else
      var last := attrs[|attrs| - 1];
      MergeAttrs(fields, attrs[..|attrs| - 1])[last.key := last.value]
  }

  /** An attribute overrides the logger's field of the same key, and a later attribute an earlier one. */
  lemma {:induction false} MergeAttrsLastWins(fields: map<string, Dynamic>, attrs: seq<Attr>, i: int)
    requires 0 <= i < |attrs|
    requires forall j :: i < j < |attrs| ==> attrs[j].key != attrs[i].key
    ensures attrs[i].key in MergeAttrs(fields, attrs) && MergeAttrs(fields, attrs)[attrs[i].key] == attrs[i].value
    decreases |attrs|
  {
    if i < |attrs| - 1 {
      MergeAttrsLastWins(fields, attrs[..|attrs| - 1], i);
    }
  }

  /** A key no attribute names keeps the logger's field. */
  lemma {:induction false} MergeAttrsKeepsFields(fields: map<string, Dynamic>, attrs: seq<Attr>, k: string)
    requires forall j :: 0 <= j < |attrs| ==> attrs[j].key != k
    ensures k in MergeAttrs(fields, attrs) <==> k in fields
    ensures k in fields ==> MergeAttrs(fields, attrs)[k] == fields[k]
    decreases |attrs|
  {
    if attrs != [] {
      MergeAttrsKeepsFields(fields, attrs[..|attrs| - 1], k);
    }
  }

  /** What a sink receives. */
  datatype Entry = Entry(time: string, level: string, message: string, fields: map<string, Dynamic>, caller: string)

  /**
   * The entry `log` writes to every sink: none below the logger's level;
   * otherwise the level's name, the merged fields, and the caller when the
   * logger reports it.
   */
  function LogEntry(c: Config, level: int, msg: string, attrs: seq<Attr>, clock: string -> string, caller: string): Option<Entry>
  {
    if level < c.level then None
    else Some(Entry(clock(c.timeFormat), LevelName(level), msg, MergeAttrs(c.fields, attrs), if c.addCaller then caller else ""))
  }

  /** The level filter: an entry is written exactly when its level reaches the logger's, and it carries the level's name. */
  lemma LevelFilter(c: Config, level: int, msg: string, attrs: seq<Attr>, clock: string -> string, caller: string)
    ensures LogEntry(c, level, msg, attrs, clock, caller).Some? <==> level >= c.level
    ensures LogEntry(c, level, msg, attrs, clock, caller).Some? ==>
      var e := LogEntry(c, level, msg, attrs, clock, caller).value;
      e.message == msg && e.level == LevelName(level) && (c.addCaller || e.caller == "")
    ensures level >= c.level && attrs == [] ==> LogEntry(c, level, msg, attrs, clock, caller).value.fields == c.fields
  {
  }

  /** A logger: its level, sinks, default fields, caller flag and time layout. */
  class Logger {
    var level: int
    var sinks: seq<Sink>
    var fields: map<string, Dynamic>
    var addCaller: bool
    var timeFormat: string

    function State(): Config
      reads this
    {
      Config(level, sinks, fields, addCaller, timeFormat)
    }

    /** `New`: the defaults, then each setting in order. */
    constructor (settings: seq<Setting>)
      ensures State() == ApplyAll(Defaults, settings)
    {
      level := Info;
      sinks := [];
      fields := map[];
      addCaller := true;
      timeFormat := RFC3339Nano;
      new;
      var k := 0;
      while k < |settings|
        invariant 0 <= k <= |settings|
        invariant State() == ApplyAll(Defaults, settings[..k])
      {
        assert settings[..k + 1][..k] == settings[..k];
        match settings[k] {
          case WithLevel(l) => level := l;
          case WithSink(s) => sinks := sinks + [s];
          case WithFields(f) => fields := f;
          case WithCaller(e) => addCaller := e;
          case WithTimeFormat(t) => timeFormat := t;
        }
        k := k + 1;
      }
      assert settings[..k] == settings;
    }

    /** `With`: a new logger sharing everything but its fields, which gain the pairs. */
    method With(keyvals: seq<Dynamic>) returns (r: Logger)
      ensures fresh(r)
      ensures r.State() == State().(fields := AddPairs(fields, keyvals))
    {
      var f := CopyWithPairs(fields, keyvals);
      r := new Logger([]);
      r.level := level;
      r.sinks := sinks;
      r.fields := f;
      r.addCaller := addCaller;
      r.timeFormat := timeFormat;
    }

    /** `SetLevel`. */
    method SetLevel(l: int)
      modifies this`level
      ensures level == l
    {
      level := l;
    }

    /** `AddSink`: appended after the others. */
    method AddSink(s: Sink)
      modifies this`sinks
      ensures sinks == old(sinks) + [s]
    {
      sinks := sinks + [s];
    }

    /**
     * `log`: the entry written to every sink, or none below the level; a
     * written Fatal entry ends the process.
     */
    method Log(lvl: int, msg: string, attrs: seq<Attr>, clock: string -> string, caller: string)
      returns (entry: Option<Entry>, exits: bool)
      ensures entry == LogEntry(State(), lvl, msg, attrs, clock, caller)
      ensures exits <==> entry.Some? && lvl == Fatal
    {
      if lvl < level {
        return None, false;
      }
      var merged := MergeLoop(fields, attrs);
      var c := if addCaller then caller else "";
      entry := Some(Entry(clock(timeFormat), LevelName(lvl), msg, merged, c));
      exits := lvl == Fatal;
    }
  }

  /** The loop of `With`: the copied fields, then each complete pair with a string key. */
  method CopyWithPairs(fields: map<string, Dynamic>, keyvals: seq<Dynamic>) returns (f: map<string, Dynamic>)
    ensures f == AddPairs(fields, keyvals)
  {
    f := fields;
    var i := 0;
    while i < |keyvals| - 1
      invariant 0 <= i <= |keyvals| || (keyvals == [] && i == 0)
      invariant AddPairs(f, keyvals[i..]) == AddPairs(fields, keyvals)
    {
      var rest := keyvals[i..];
      assert rest[0] == keyvals[i] && rest[1] == keyvals[i + 1] && rest[2..] == keyvals[i + 2..];
      if keyvals[i].DString? {
        f := f[keyvals[i].s := keyvals[i + 1]];
      }
      i := i + 2;
    }
  }

  /** The loop of `log` that merges the attributes into the copied fields. */
  method MergeLoop(fields: map<string, Dynamic>, attrs: seq<Attr>) returns (f: map<string, Dynamic>)
    ensures f == MergeAttrs(fields, attrs)
  {
    f := fields;
    var k := 0;
    while k < |attrs|
      invariant 0 <= k <= |attrs|
      invariant f == MergeAttrs(fields, attrs[..k])
    {
      assert attrs[..k + 1][..k] == attrs[..k];
      f := f[attrs[k].key := attrs[k].value];
      k := k + 1;
    }
    assert attrs[..k] == attrs;
  }
}
