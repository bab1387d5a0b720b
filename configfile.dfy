/** gpttrace/config.py: the `key=value` configuration file, read into an ordered dictionary,
    topped up with defaults and written back, and the environment-first lookup. The file is
    its contents as a string (`None` while it does not exist) and the environment a map. */
module ConfigFile {
  import opened Values
  import opened Text

  /** A dictionary in insertion order, as Python keeps it. */
  type Dict = seq<(string, string)>

  predicate DistinctKeys(d: Dict)
  {
    forall i, j :: 0 <= i < j < |d| ==> d[i].0 != d[j].0
  }

  function Keys(d: Dict): set<string>
  {
    set i | 0 <= i < |d| :: d[i].0
  }

  /** `d.get(key)` */
  function Lookup(d: Dict, key: string): Option<string>
  {
    if d == [] then None
    else if d[0].0 == key then Some(d[0].1)
    else Lookup(d[1..], key)
  }

  /** `d[key] = value`: an existing key keeps its place, a new one goes last. */
  function Assign(d: Dict, key: string, value: string): Dict
  {
    if d == [] then [(key, value)]
    else if d[0].0 == key then [(key, value)] + d[1..]
    else [d[0]] + Assign(d[1..], key, value)
  }

  /** One line of the file as `_write` formats it. */
  function Line(entry: (string, string)): string
  {
    entry.0 + "=" + entry.1 + "\n"
  }

  /** The whole text `_write` puts in the file. */
  function Serialize(d: Dict): string
  {
    if d == [] then "" else Line(d[0]) + Serialize(d[1..])
  }

  /** Text-mode reading: `\r\n` and a lone `\r` both become `\n`. */
  function Universal(s: string): string
  {
    if s == [] then ""
    else if s[0] == '\r' then "\n" + Universal(if |s| > 1 && s[1] == '\n' then s[2..] else s[1..])
    else [s[0]] + Universal(s[1..])
  }

  /** `for line in file`: the lines of the text, each with its `\n`, the last one possibly
      without. */
  function Lines(s: string): seq<string>
    decreases |s|
  {
    if s == [] then []
    else
      match FindFrom(s, "\n", 0)
      case None => [s]
      case Some(i) => [s[..i + 1]] + Lines(s[i + 1..])
  }

  /** `key, value = line.strip().split("=")`, which needs exactly two pieces. */
  function ParseLine(line: string): Result<(string, string)>
  {
    var parts := Split(Strip(line), "=");
    if |parts| == 2 then Ok((parts[0], parts[1])) else Err(MalformedLine(line))
  }

  /** `_read` over the given lines, starting from `d`: comment lines are skipped, every other
      line is assigned, and the first malformed one raises. */
  function ReadLines(d: Dict, lines: seq<string>): Result<Dict>
    decreases |lines|
  {
    if lines == [] then Ok(d)
    else if StartsWith(lines[0], "#") then ReadLines(d, lines[1..])
    else
      match ParseLine(lines[0])
      case Err(e) => Err(e)
      case Ok(kv) => ReadLines(Assign(d, kv.0, kv.1), lines[1..])
  }

  /** The entries `_read` has assigned when it stops, starting from `d`: all of them, or those
      before the first malformed line, since the exception leaves the dictionary as it was. */
  function ReadPrefix(d: Dict, lines: seq<string>): Dict
    decreases |lines|
  {
    if lines == [] then d
    else if StartsWith(lines[0], "#") then ReadPrefix(d, lines[1..])
    else
      match ParseLine(lines[0])
      case Err(_) => d
      case Ok(kv) => ReadPrefix(Assign(d, kv.0, kv.1), lines[1..])
  }

  /** The default entries the file lacks, added in the defaults' order, and whether there
      were any. */
  function Merge(d: Dict, defaults: Dict): (Dict, bool)
    decreases |defaults|
  {
    if defaults == [] then (d, false)
    else if Lookup(d, defaults[0].0).None? then
      var r := Merge(Assign(d, defaults[0].0, defaults[0].1), defaults[1..]);
      (r.0, true)
    else Merge(d, defaults[1..])
  }

  /** A value that is present and not empty (`os.getenv(key)` or `d.get(key)` truthy). */
  predicate EnvSet(env: map<string, string>, key: string)
  {
    key in env && env[key] != ""
  }

  predicate StoredSet(d: Dict, key: string)
  {
    Lookup(d, key).Some? && Lookup(d, key).value != ""
  }

  /** `Config.get(key)`: the environment wins over the file, and an empty or missing value
      in both raises. */
  function Get(d: Dict, env: map<string, string>, key: string): (r: Result<string>)
    ensures r.Ok? <==> EnvSet(env, key) || StoredSet(d, key)
    ensures r.Ok? ==> r.value != ""
    ensures EnvSet(env, key) ==> r == Ok(env[key])
    ensures !EnvSet(env, key) && StoredSet(d, key) ==> r == Ok(Lookup(d, key).value)
    ensures r.Err? ==> r.error == MissingConfigKey(key)
  {
    var value := if key in env && env[key] != "" then env[key]
                 else if Lookup(d, key).Some? then Lookup(d, key).value else "";
    if value == "" then Err(MissingConfigKey(key)) else Ok(value)
  }

  /** The defaults used for a new file: the typed-in API key is added only when neither the
      defaults nor the environment supply one. */
  function NewFileEntries(defaults: Dict, env: map<string, string>, apiKeyInput: string): Dict
  {
    if !StoredSet(defaults, "OPENAI_API_KEY") && !EnvSet(env, "OPENAI_API_KEY")
    then Assign(defaults, "OPENAI_API_KEY", apiKeyInput)
    else defaults
  }

  class Config {
    /** The dictionary itself. */
    var entries: Dict
    /** The configuration file's contents, `None` while it does not exist. */
    var file: Option<string>

    ghost predicate Valid()
      reads this
    {
      DistinctKeys(entries)
    }

    constructor (file: Option<string>)
      ensures entries == [] && this.file == file && Valid()
    {
      entries := [];
      this.file := file;
    }

    /** `_write()` */
    method Write()
      modifies this
      ensures entries == old(entries) && file == Some(Serialize(entries))
    {
      var stringConfig := "";
      for i := 0 to |entries|
        invariant entries == old(entries)
        invariant stringConfig == Serialize(entries[..i])
      {
        SerializeSnoc(entries[..i], entries[i]);
        assert entries[..i + 1] == entries[..i] + [entries[i]];
        stringConfig := stringConfig + Line(entries[i]);
      }
      assert entries[..|entries|] == entries;
      file := Some(stringConfig);
    }

    /** `_read()`: on a malformed line the exception leaves the entries read so far. */
    method Read() returns (err: Option<Error>)
      requires Valid() && file.Some?
      modifies this
      ensures Valid() && file == old(file)
      ensures var r := ReadLines(old(entries), Lines(Universal(file.value)));
        (err.None? <==> r.Ok?) && (r.Ok? ==> entries == r.value) && (r.Err? ==> err == Some(r.error))
      ensures entries == ReadPrefix(old(entries), Lines(Universal(file.value)))
    {
      var lines := Lines(Universal(file.value));
      for i := 0 to |lines|
        invariant Valid() && file == old(file)
        invariant ReadLines(old(entries), lines) == ReadLines(entries, lines[i..])
        invariant ReadPrefix(old(entries), lines) == ReadPrefix(entries, lines[i..])
      {
        assert lines[i..][1..] == lines[i + 1..];
        var line := lines[i];
        if !StartsWith(line, "#") {
          var kv := ParseLine(line);
          if kv.Err? {
            return Some(kv.error);
          }
          AssignDistinct(entries, kv.value.0, kv.value.1);
          entries := Assign(entries, kv.value.0, kv.value.1);
        }
      }
      return None;
    }

    /** `Config.__init__(config_path, **defaults)`. An existing file is read and topped up with
        the missing defaults, and rewritten only if any were missing; otherwise the defaults,
        with the typed-in API key if needed, are written to a new file. A malformed line raises
        out of `_read`, leaving the file untouched and the entries read before it. */
    method Init(defaults: Dict, env: map<string, string>, apiKeyInput: string) returns (err: Option<Error>)
      requires Valid() && entries == [] && DistinctKeys(defaults)
      modifies this
      ensures Valid()
      ensures old(file).None? ==>
        err.None? && entries == NewFileEntries(defaults, env, apiKeyInput) && file == Some(Serialize(entries))
      ensures old(file).Some? ==>
        var r := ReadLines([], Lines(Universal(old(file).value)));
        (err.None? <==> r.Ok?) &&
        (r.Err? ==> err == Some(r.error)) &&
        (r.Ok? ==> entries == Merge(r.value, defaults).0 &&
                   file == if Merge(r.value, defaults).1 then Some(Serialize(entries)) else old(file))
      ensures old(file).Some? && err.Some? ==>
        file == old(file) && entries == ReadPrefix([], Lines(Universal(old(file).value)))
    {
      if file.Some? {
        err := Read();
        if err.Some? {
          return;
        }
        ghost var onFile := entries;
        var hasNewConfig := false;
        for i := 0 to |defaults|
          invariant Valid() && file == old(file)
          invariant Merge(onFile, defaults) == (Merge(entries, defaults[i..]).0, hasNewConfig || Merge(entries, defaults[i..]).1)
        {
          assert defaults[i..][1..] == defaults[i + 1..];
          var key, value := defaults[i].0, defaults[i].1;
          if Lookup(entries, key).None? {
            hasNewConfig := true;
            AssignDistinct(entries, key, value);
            entries := Assign(entries, key, value);
          }
        }
        if hasNewConfig {
          Write();
        }
      } else {
        var initial := defaults;
        if !StoredSet(defaults, "OPENAI_API_KEY") && !EnvSet(env, "OPENAI_API_KEY") {
          AssignDistinct(initial, "OPENAI_API_KEY", apiKeyInput);
          initial := Assign(initial, "OPENAI_API_KEY", apiKeyInput);
        }
        entries := initial;
        Write();
        err := None;
      }
    }

    /** `get(key)` on this dictionary. */
    function Value(env: map<string, string>, key: string): Result<string>
      reads this
    {
      Get(entries, env, key)
    }
  }

  lemma {:induction false} SerializeSnoc(d: Dict, e: (string, string))
    ensures Serialize(d + [e]) == Serialize(d) + Line(e)
    decreases |d|
  {
    if d == [] {
      assert [e][1..] == [];
    } else {
      assert (d + [e])[1..] == d[1..] + [e];
      SerializeSnoc(d[1..], e);
    }
  }

  lemma KeysCons(x: (string, string), rest: Dict)
    ensures Keys([x] + rest) == {x.0} + Keys(rest)
  {
    var d := [x] + rest;
    forall k | k in Keys(d) ensures k in {x.0} + Keys(rest) {
      var i :| 0 <= i < |d| && d[i].0 == k;
      if i > 0 {
        assert d[i] == rest[i - 1];
        assert rest[i - 1].0 in Keys(rest);
      }
    }
    assert d[0].0 in Keys(d);
    forall k | k in Keys(rest) ensures k in Keys(d) {
      var i :| 0 <= i < |rest| && rest[i].0 == k;
      assert d[i + 1] == rest[i];
      assert d[i + 1].0 in Keys(d);
    }
  }

  lemma DistinctCons(x: (string, string), rest: Dict)
    ensures DistinctKeys([x] + rest) <==> x.0 !in Keys(rest) && DistinctKeys(rest)
  {
    var d := [x] + rest;
    if DistinctKeys(d) {
      forall i, j | 0 <= i < j < |rest| ensures rest[i].0 != rest[j].0 {
        assert rest[i] == d[i + 1] && rest[j] == d[j + 1];
      }
      forall i | 0 <= i < |rest| ensures rest[i].0 != x.0 {
        assert d[0] == x && d[i + 1] == rest[i];
        assert d[0].0 != d[i + 1].0;
      }
    }
    if x.0 !in Keys(rest) && DistinctKeys(rest) {
      forall i, j | 0 <= i < j < |d| ensures d[i].0 != d[j].0 {
        assert d[j] == rest[j - 1];
        if i > 0 { assert d[i] == rest[i - 1]; } else { assert rest[j - 1].0 in Keys(rest); }
      }
    }
  }

  lemma {:induction false} LookupIn(d: Dict, key: string)
    ensures Lookup(d, key).Some? <==> key in Keys(d)
    decreases |d|
  {
    if d != [] {
      LookupIn(d[1..], key);
      assert d == [d[0]] + d[1..];
      KeysCons(d[0], d[1..]);
    }
  }

  /** Assignment keeps the keys distinct and adds exactly the assigned key. */
  lemma {:induction false} AssignDistinct(d: Dict, key: string, value: string)
    requires DistinctKeys(d)
    ensures DistinctKeys(Assign(d, key, value))
    ensures Keys(Assign(d, key, value)) == Keys(d) + {key}
    decreases |d|
  {
    if d != [] {
      assert d == [d[0]] + d[1..];
      DistinctCons(d[0], d[1..]);
      KeysCons(d[0], d[1..]);
      KeysCons((key, value), d[1..]);
      if d[0].0 == key {
        DistinctCons((key, value), d[1..]);
        assert Assign(d, key, value) == [(key, value)] + d[1..];
        assert Keys(d) == {key} + Keys(d[1..]);
        assert Keys(Assign(d, key, value)) == {key} + Keys(d[1..]);
      } else {
        AssignDistinct(d[1..], key, value);
        assert Assign(d, key, value) == [d[0]] + Assign(d[1..], key, value);
        KeysCons(d[0], Assign(d[1..], key, value));
        DistinctCons(d[0], Assign(d[1..], key, value));
        assert Keys(Assign(d, key, value)) == {d[0].0} + Keys(d[1..]) + {key};
      }
    } else {
      KeysCons((key, value), d);
      assert [(key, value)] + d == Assign(d, key, value);
    }
  }

  /** Assigning sets the value of that key and leaves every other key's value as it was. */
  lemma {:induction false} AssignLookup(d: Dict, key: string, value: string, other: string)
    ensures Lookup(Assign(d, key, value), other) == if other == key then Some(value) else Lookup(d, other)
    decreases |d|
  {
    if d != [] && d[0].0 != key {
      AssignLookup(d[1..], key, value, other);
      assert Assign(d, key, value)[1..] == Assign(d[1..], key, value);
    }
  }

  /** A key that is not there yet goes at the end. */
  lemma {:induction false} AssignFresh(d: Dict, key: string, value: string)
    requires Lookup(d, key).None?
    ensures Assign(d, key, value) == d + [(key, value)]
    decreases |d|
  {
    if d != [] {
      AssignFresh(d[1..], key, value);
      assert d == [d[0]] + d[1..];
    }
  }

  /** A key that is there keeps its place, and only its value changes. */
  lemma {:induction false} AssignExisting(d: Dict, key: string, value: string)
    requires DistinctKeys(d) && Lookup(d, key).Some?
    ensures |Assign(d, key, value)| == |d|
    ensures forall i :: 0 <= i < |d| ==> Assign(d, key, value)[i] == if d[i].0 == key then (key, value) else d[i]
    decreases |d|
  {
    assert d == [d[0]] + d[1..];
    DistinctCons(d[0], d[1..]);
    if d[0].0 != key {
      AssignExisting(d[1..], key, value);
    } else {
      forall i | 0 < i < |d| ensures d[i].0 != key {
        assert d[0].0 != d[i].0;
      }
    }
  }

  /** In a dictionary with distinct keys, none of the later entries' keys is already there. */
  lemma FreshHead(acc: Dict, e: Dict)
    requires DistinctKeys(acc + e) && e != []
    ensures Lookup(acc, e[0].0).None? && DistinctKeys(acc)
  {
    forall i | 0 <= i < |acc| ensures acc[i].0 != e[0].0 {
      assert (acc + e)[i] == acc[i] && (acc + e)[|acc|] == e[0];
    }
    forall i, j | 0 <= i < j < |acc| ensures acc[i].0 != acc[j].0 {
      assert (acc + e)[i] == acc[i] && (acc + e)[j] == acc[j];
    }
    LookupIn(acc, e[0].0);
  }

  /** A later assignment to the same key overrides an earlier one. */
  lemma {:induction false} AssignTwice(d: Dict, key: string, first: string, second: string)
    ensures Assign(Assign(d, key, first), key, second) == Assign(d, key, second)
    decreases |d|
  {
    if d != [] && d[0].0 != key {
      AssignTwice(d[1..], key, first, second);
    }
  }

  /** Reading lines one after another: the second part starts from what the first left. */
  lemma {:induction false} ReadLinesAppend(d: Dict, a: seq<string>, b: seq<string>)
    ensures ReadLines(d, a + b) == match ReadLines(d, a)
                                   case Ok(d1) => ReadLines(d1, b)
                                   case Err(e) => Err(e)
    decreases |a|
  {
    if a == [] {
      assert a + b == b;
    } else {
      assert (a + b)[0] == a[0] && (a + b)[1..] == a[1..] + b;
      if StartsWith(a[0], "#") {
        ReadLinesAppend(d, a[1..], b);
      } else if ParseLine(a[0]).Ok? {
        var kv := ParseLine(a[0]).value;
        ReadLinesAppend(Assign(d, kv.0, kv.1), a[1..], b);
      }
    }
  }

  /** A comment line, wherever it is, changes nothing. */
  lemma CommentIgnored(d: Dict, a: seq<string>, comment: string, b: seq<string>)
    requires StartsWith(comment, "#")
    ensures ReadLines(d, a + [comment] + b) == ReadLines(d, a + b)
  {
    ReadLinesAppend(d, a, [comment] + b);
    ReadLinesAppend(d, a, b);
    assert a + [comment] + b == a + ([comment] + b);
    assert ([comment] + b)[1..] == b;
  }

  /** When the whole file reads, the entries left are the ones it yields. */
  lemma {:induction false} ReadPrefixOfRead(d: Dict, lines: seq<string>)
    requires ReadLines(d, lines).Ok?
    ensures ReadPrefix(d, lines) == ReadLines(d, lines).value
    decreases |lines|
  {
    if lines != [] {
      if StartsWith(lines[0], "#") {
        ReadPrefixOfRead(d, lines[1..]);
      } else {
        var kv := ParseLine(lines[0]).value;
        ReadPrefixOfRead(Assign(d, kv.0, kv.1), lines[1..]);
      }
    }
  }

  /** A malformed line after lines that read raises, and leaves exactly what those lines
      assigned, whatever follows it. */
  lemma {:induction false} MalformedLineStops(d: Dict, a: seq<string>, bad: string, b: seq<string>)
    requires ReadLines(d, a).Ok? && !StartsWith(bad, "#") && ParseLine(bad).Err?
    ensures ReadLines(d, a + [bad] + b) == Err(MalformedLine(bad))
    ensures ReadPrefix(d, a + [bad] + b) == ReadLines(d, a).value
    decreases |a|
  {
    if a == [] {
      assert a + [bad] + b == [bad] + b;
    } else {
      assert (a + [bad] + b)[0] == a[0] && (a + [bad] + b)[1..] == a[1..] + [bad] + b;
      if StartsWith(a[0], "#") {
        MalformedLineStops(d, a[1..], bad, b);
      } else {
        var kv := ParseLine(a[0]).value;
        MalformedLineStops(Assign(d, kv.0, kv.1), a[1..], bad, b);
      }
    }
  }

  /** A line is malformed exactly when its stripped text has a number of `=` other than one,
      and a well-formed one is its key and value joined by the `=`. */
  lemma ParseLineCases(line: string)
    ensures ParseLine(line).Err? <==> CountChar(Strip(line), '=') != 1
    ensures ParseLine(line).Err? ==> ParseLine(line).error == MalformedLine(line)
    ensures ParseLine(line).Ok? ==>
      var kv := ParseLine(line).value; kv.0 + "=" + kv.1 == Strip(line)
  {
    var parts := Split(Strip(line), "=");
    SplitCharCount(Strip(line), '=');
    SplitJoin(Strip(line), "=");
    if |parts| == 2 {
      assert parts[1..] == [parts[1]];
    }
  }

  /** Characters `_write` and `_read` could not carry through a line: the separator, and line
      breaks. */
  predicate Plain(s: string)
  {
    forall i :: 0 <= i < |s| ==> s[i] != '=' && s[i] != '\n' && s[i] != '\r'
  }

  /** An entry that survives being written and read back: plain key and value, a key not
      taken for a comment, and no whitespace for `strip()` to take from either end. */
  predicate CleanEntry(e: (string, string))
  {
    && Plain(e.0) && Plain(e.1)
    && (e.0 == "" || (!IsSpace(e.0[0]) && e.0[0] != '#'))
    && (e.1 == "" || !IsSpace(e.1[|e.1| - 1]))
  }

  /** The line `_write` produces for a clean entry reads back as that entry. */
  lemma ParseWrittenLine(e: (string, string))
    requires CleanEntry(e)
    ensures !StartsWith(Line(e), "#")
    ensures ParseLine(Line(e)) == Ok(e)
  {
    StripWrittenLine(e);
    SplitWrittenBody(e.0, e.1);
  }

  lemma StripWrittenLine(e: (string, string))
    requires CleanEntry(e)
    ensures !StartsWith(Line(e), "#")
    ensures Strip(Line(e)) == e.0 + "=" + e.1
  {
    var body := e.0 + "=" + e.1;
    assert Line(e) == body + "\n";
    assert body[0] == if e.0 == "" then '=' else e.0[0];
    assert Line(e)[..1] == [body[0]];
    assert TrimStart(Line(e)) == Line(e);
    assert (body + "\n")[..|body|] == body;
    assert body[|body| - 1] == if e.1 == "" then '=' else e.1[|e.1| - 1];
    assert TrimEnd(body) == body;
  }

  lemma SplitWrittenBody(key: string, value: string)
    requires Plain(key) && Plain(value)
    ensures Split(key + "=" + value, "=") == [key, value]
  {
    var body := key + "=" + value;
    FindCharAt(body, '=', |key|);
    assert body[|key| + 1..] == value && body[..|key|] == key;
    FindCharNone(value, '=');
    assert Split(value, "=") == [value];
  }

  /** The lines `_write` produces, one per entry. */
  function LineList(d: Dict): seq<string>
  {
    if d == [] then [] else [Line(d[0])] + LineList(d[1..])
  }

  lemma {:induction false} LinesOfSerialize(d: Dict)
    requires forall i :: 0 <= i < |d| ==> Plain(d[i].0) && Plain(d[i].1)
    ensures Lines(Serialize(d)) == LineList(d)
    decreases |d|
  {
    if d != [] {
      var s := Serialize(d);
      var l := Line(d[0]);
      assert s == l + Serialize(d[1..]);
      forall j | 0 <= j < |l| - 1 ensures s[j] != '\n' {
        assert s[j] == l[j];
        if j > |d[0].0| { assert l[j] == d[0].1[j - |d[0].0| - 1]; }
      }
      FindCharAt(s, '\n', |l| - 1);
      assert s[..|l|] == l && s[|l|..] == Serialize(d[1..]);
      LinesOfSerialize(d[1..]);
    }
  }

  /** Text-mode reading changes nothing before the first `\r`. */
  lemma {:induction false} UniversalPrefix(a: string, b: string)
    requires forall i :: 0 <= i < |a| ==> a[i] != '\r'
    ensures Universal(a + b) == a + Universal(b)
    decreases |a|
  {
    if a == [] {
      assert a + b == b;
    } else {
      assert (a + b)[0] == a[0] && (a + b)[1..] == a[1..] + b;
      UniversalPrefix(a[1..], b);
    }
  }

  lemma {:induction false} UniversalSerialize(d: Dict)
    requires forall i :: 0 <= i < |d| ==> Plain(d[i].0) && Plain(d[i].1)
    ensures Universal(Serialize(d)) == Serialize(d)
    decreases |d|
  {
    if d != [] {
      var l := Line(d[0]);
      forall j | 0 <= j < |l| ensures l[j] != '\r' {
        if j < |d[0].0| { assert l[j] == d[0].0[j]; }
        else if |d[0].0| < j < |l| - 1 { assert l[j] == d[0].1[j - |d[0].0| - 1]; }
      }
      UniversalPrefix(l, Serialize(d[1..]));
      UniversalSerialize(d[1..]);
    }
  }

  lemma {:induction false} ReadWrittenLines(acc: Dict, e: Dict)
    requires DistinctKeys(acc + e)
    requires forall i :: 0 <= i < |e| ==> CleanEntry(e[i])
    ensures ReadLines(acc, LineList(e)) == Ok(acc + e)
    decreases |e|
  {
    if e == [] {
      assert acc + e == acc;
    } else {
      ParseWrittenLine(e[0]);
      var lines := LineList(e);
      assert lines[0] == Line(e[0]) && lines[1..] == LineList(e[1..]);
      FreshHead(acc, e);
      AssignFresh(acc, e[0].0, e[0].1);
      assert ReadLines(acc, lines) == ReadLines(acc + [e[0]], LineList(e[1..]));
      assert acc + e == (acc + [e[0]]) + e[1..];
      assert forall i :: 0 <= i < |e| - 1 ==> e[1..][i] == e[i + 1];
      ReadWrittenLines(acc + [e[0]], e[1..]);
    }
  }

  /** Writing a dictionary of clean entries with distinct keys and reading the file back
      gives the same dictionary, in the same order. */
  lemma WriteThenRead(d: Dict)
    requires DistinctKeys(d)
    requires forall i :: 0 <= i < |d| ==> CleanEntry(d[i])
    ensures ReadLines([], Lines(Universal(Serialize(d)))) == Ok(d)
  {
    UniversalSerialize(d);
    LinesOfSerialize(d);
    assert [] + d == d;
    ReadWrittenLines([], d);
  }

  /** After the merge every key has the file's value when the file has it, and the first
      default's value otherwise. */
  lemma {:induction false} MergeLookup(d: Dict, defaults: Dict, key: string)
    ensures Lookup(Merge(d, defaults).0, key) ==
      if Lookup(d, key).Some? then Lookup(d, key) else Lookup(defaults, key)
    decreases |defaults|
  {
    if defaults != [] {
      var k := defaults[0].0;
      if Lookup(d, k).None? {
        AssignLookup(d, k, defaults[0].1, key);
        MergeLookup(Assign(d, k, defaults[0].1), defaults[1..], key);
      } else {
        MergeLookup(d, defaults[1..], key);
      }
    }
  }

  /** The file's entries stay first and in their order; missing defaults are appended. */
  lemma {:induction false} MergeExtends(d: Dict, defaults: Dict)
    ensures |d| <= |Merge(d, defaults).0| && Merge(d, defaults).0[..|d|] == d
    decreases |defaults|
  {
    if defaults != [] {
      var k := defaults[0].0;
      if Lookup(d, k).None? {
        AssignFresh(d, k, defaults[0].1);
        MergeExtends(d + [defaults[0]], defaults[1..]);
        assert (d + [defaults[0]])[..|d|] == d;
      } else {
        MergeExtends(d, defaults[1..]);
      }
    }
  }

  /** The file is rewritten exactly when some default key is missing from it. */
  lemma {:induction false} MergeFlag(d: Dict, defaults: Dict)
    ensures Merge(d, defaults).1 <==> exists i :: 0 <= i < |defaults| && Lookup(d, defaults[i].0).None?
    decreases |defaults|
  {
    if defaults != [] && Lookup(d, defaults[0].0).Some? {
      MergeFlag(d, defaults[1..]);
      if exists i :: 0 <= i < |defaults| && Lookup(d, defaults[i].0).None? {
        var i :| 0 <= i < |defaults| && Lookup(d, defaults[i].0).None?;
        assert defaults[1..][i - 1] == defaults[i];
      }
      if exists i :: 0 <= i < |defaults| - 1 && Lookup(d, defaults[1..][i].0).None? {
        var i :| 0 <= i < |defaults| - 1 && Lookup(d, defaults[1..][i].0).None?;
        assert defaults[1..][i] == defaults[i + 1];
      }
    }
  }

  /** With no default missing the dictionary is left as read. */
  lemma {:induction false} MergeNothingMissing(d: Dict, defaults: Dict)
    requires forall i :: 0 <= i < |defaults| ==> Lookup(d, defaults[i].0).Some?
    ensures Merge(d, defaults) == (d, false)
    decreases |defaults|
  {
    if defaults != [] {
      assert forall i :: 0 <= i < |defaults| - 1 ==> defaults[1..][i] == defaults[i + 1];
      MergeNothingMissing(d, defaults[1..]);
    }
  }

  /** The file a first start writes reads back as the same dictionary, and a second start
      with the same defaults finds nothing missing, so it does not rewrite the file. */
  lemma FirstStartThenRestart(defaults: Dict, env: map<string, string>, apiKeyInput: string)
    requires DistinctKeys(defaults)
    requires forall i :: 0 <= i < |defaults| ==> CleanEntry(defaults[i])
    requires CleanEntry(("OPENAI_API_KEY", apiKeyInput))
    ensures var d := NewFileEntries(defaults, env, apiKeyInput);
      ReadLines([], Lines(Universal(Serialize(d)))) == Ok(d) && Merge(d, defaults) == (d, false)
  {
    var d := NewFileEntries(defaults, env, apiKeyInput);
    NewFileClean(defaults, env, apiKeyInput);
    NewFileCoversDefaults(defaults, env, apiKeyInput);
    WriteThenRead(d);
    MergeNothingMissing(d, defaults);
  }

  lemma NewFileClean(defaults: Dict, env: map<string, string>, apiKeyInput: string)
    requires DistinctKeys(defaults)
    requires forall i :: 0 <= i < |defaults| ==> CleanEntry(defaults[i])
    requires CleanEntry(("OPENAI_API_KEY", apiKeyInput))
    ensures var d := NewFileEntries(defaults, env, apiKeyInput);
      DistinctKeys(d) && forall i :: 0 <= i < |d| ==> CleanEntry(d[i])
  {
    var d := NewFileEntries(defaults, env, apiKeyInput);
    var key := "OPENAI_API_KEY";
    if d != defaults {
      AssignDistinct(defaults, key, apiKeyInput);
      if Lookup(defaults, key).None? {
        AssignFresh(defaults, key, apiKeyInput);
        assert forall i :: 0 <= i < |d| ==> d[i] == if i < |defaults| then defaults[i] else (key, apiKeyInput);
      } else {
        AssignExisting(defaults, key, apiKeyInput);
      }
    }
  }

  lemma NewFileCoversDefaults(defaults: Dict, env: map<string, string>, apiKeyInput: string)
    ensures var d := NewFileEntries(defaults, env, apiKeyInput);
      forall i :: 0 <= i < |defaults| ==> Lookup(d, defaults[i].0).Some?
  {
    var d := NewFileEntries(defaults, env, apiKeyInput);
    var key := "OPENAI_API_KEY";
    forall i | 0 <= i < |defaults| ensures Lookup(d, defaults[i].0).Some? {
      LookupIn(defaults, defaults[i].0);
      if d != defaults {
        AssignLookup(defaults, key, apiKeyInput, defaults[i].0);
      }
    }
  }
}
