/** gpttrace/bpftrace.py: turning a `bpftrace` function call into a command vector
    (`construct_command`) and wrapping one run of it (`run_bpftrace`). The LLM's reply and the
    runner's result are inputs. */
module Bpftrace {
  import opened Values

  datatype OptionKind = StringOption | FlagOption | IncludeOption

  /** An operation key and the bpftrace flag it turns into. */
  datatype OptionSpec = OptionSpec(key: string, flag: string, kind: OptionKind)

  /** The options `construct_command` knows, in the order it emits them. */
  const Options: seq<OptionSpec> := [
    OptionSpec("bufferingMode", "-B", StringOption),
    OptionSpec("format", "-f", StringOption),
    OptionSpec("outputFile", "-o", StringOption),
    OptionSpec("debugInfo", "-d", FlagOption),
    OptionSpec("verboseDebugInfo", "-dd", FlagOption),
    OptionSpec("program", "-e", StringOption),
    OptionSpec("includeDir", "-I", IncludeOption),
    OptionSpec("usdtFileActivation", "--usdt-file-activation", FlagOption),
    OptionSpec("unsafe", "--unsafe", FlagOption),
    OptionSpec("quiet", "-q", FlagOption),
    OptionSpec("verbose", "-v", FlagOption),
    OptionSpec("noWarnings", "--no-warnings", FlagOption)
  ]

  /** The keys of a list of options. */
  function Keys(opts: seq<OptionSpec>): set<string>
  {
    set i | 0 <= i < |opts| :: opts[i].key
  }

  /** `for dir in v`: a list yields its items, a string its characters, and anything else
      raises TypeError. */
  function Iterate(v: Value): Result<seq<Value>>
  {
    match v
    case Arr(items, _) => Ok(items)
    case Str(s) => Ok(seq(|s|, i requires 0 <= i < |s| => Str([s[i]])))
    case _ => Err(NotIterable)
  }

  /** `cmd += ["-I", dir]` for each `dir`, in list order. */
  function IncludePairs(dirs: seq<Value>): seq<Token>
  {
    if dirs == [] then [] else [Text("-I"), Raw(dirs[0])] + IncludePairs(dirs[1..])
  }

  /** Directory `k` becomes tokens `2k` and `2k+1`, so the list order is kept. */
  lemma {:induction false} IncludePairsAt(dirs: seq<Value>)
    ensures |IncludePairs(dirs)| == 2 * |dirs|
    ensures forall k :: 0 <= k < |dirs| ==>
      IncludePairs(dirs)[2 * k] == Text("-I") && IncludePairs(dirs)[2 * k + 1] == Raw(dirs[k])
    decreases |dirs|
  {
    if dirs != [] {
      var rest := IncludePairs(dirs[1..]);
      var all := IncludePairs(dirs);
      assert all == [Text("-I"), Raw(dirs[0])] + rest;
      IncludePairsAt(dirs[1..]);
      forall k | 1 <= k < |dirs|
        ensures all[2 * k] == Text("-I") && all[2 * k + 1] == Raw(dirs[k])
      {
        assert all[2 * k] == rest[2 * (k - 1)];
        assert all[2 * k + 1] == rest[2 * (k - 1) + 1];
        assert dirs[1..][k - 1] == dirs[k];
      }
    }
  }

  /** What one option contributes. A string option is emitted whenever its key is present,
      with the value inserted raw; a flag only when its value is truthy. */
  function Segment(op: map<string, Value>, o: OptionSpec): (r: Result<seq<Token>>)
    ensures o.key !in op ==> r == Ok([])
    ensures o.kind.StringOption? && o.key in op ==> r == Ok([Text(o.flag), Raw(op[o.key])])
    ensures o.kind.FlagOption? ==> r == Ok(if o.key in op && Truthy(op[o.key]) then [Text(o.flag)] else [])
    ensures o.kind.IncludeOption? && o.key in op && op[o.key].Arr? ==> r == Ok(IncludePairs(op[o.key].items))
  {
    if o.key !in op then Ok([])
    else
      match o.kind
      case StringOption => Ok([Text(o.flag), Raw(op[o.key])])
      case FlagOption => Ok(if Truthy(op[o.key]) then [Text(o.flag)] else [])
      case IncludeOption =>
        match Iterate(op[o.key])
        case Err(e) => Err(e)
        case Ok(dirs) => Ok(IncludePairs(dirs))
  }

  /** The options' contributions concatenated in the order of `opts`, or the first exception. */
  function Emit(op: map<string, Value>, opts: seq<OptionSpec>): Result<seq<Token>>
    decreases |opts|
  {
    if opts == [] then Ok([])
    else
      match Emit(op, opts[..|opts| - 1])
      case Err(e) => Err(e)
      case Ok(s) =>
        match Segment(op, opts[|opts| - 1])
        case Err(e) => Err(e)
        case Ok(t) => Ok(s + t)
  }

  lemma WholeList(op: map<string, Value>, cmd: seq<Token>)
    requires Emit(op, Options[..12]) == Ok(cmd)
    ensures Emit(op, Options) == Ok(cmd)
  {
    assert Options[..12] == Options;
  }

  /** One more option of the fixed list handled. */
  lemma EmitStep(op: map<string, Value>, k: nat, done: seq<Token>, cmd: seq<Token>)
    requires k < |Options| && Emit(op, Options[..k]) == Ok(done)
    requires Segment(op, Options[k]).Ok? && cmd == done + Segment(op, Options[k]).value
    ensures Emit(op, Options[..k + 1]) == Ok(cmd)
  {
    assert Options[..k + 1][..k] == Options[..k];
  }

  /** A string option handled: its flag and raw value when the key is present. */
  lemma StringStep(op: map<string, Value>, k: nat, key: string, flag: string, done: seq<Token>, cmd: seq<Token>)
    requires k < |Options| && Options[k] == OptionSpec(key, flag, StringOption)
    requires Emit(op, Options[..k]) == Ok(done)
    requires cmd == if key in op then done + [Text(flag), Raw(op[key])] else done
    ensures Emit(op, Options[..k + 1]) == Ok(cmd)
  {
    EmitStep(op, k, done, cmd);
  }

  /** A flag option handled: its flag when the value is truthy. */
  lemma FlagStep(op: map<string, Value>, k: nat, key: string, flag: string, done: seq<Token>, cmd: seq<Token>)
    requires k < |Options| && Options[k] == OptionSpec(key, flag, FlagOption)
    requires Emit(op, Options[..k]) == Ok(done)
    requires cmd == if key in op && Truthy(op[key]) then done + [Text(flag)] else done
    ensures Emit(op, Options[..k + 1]) == Ok(cmd)
  {
    EmitStep(op, k, done, cmd);
  }

  /** `construct_command(operation)` */
  method ConstructCommand(operation: map<string, Value>) returns (r: Result<seq<Token>>)
    ensures r == Emit(operation, Options)
  {
    var cmd: seq<Token> := [];
    assert Emit(operation, Options[..0]) == Ok(cmd);
    if "bufferingMode" in operation {
      cmd := cmd + [Text("-B"), Raw(operation["bufferingMode"])];
    }
    StringStep(operation, 0, "bufferingMode", "-B", [], cmd);
    ghost var done := cmd;
    if "format" in operation {
      cmd := cmd + [Text("-f"), Raw(operation["format"])];
    }
    StringStep(operation, 1, "format", "-f", done, cmd);
    done := cmd;
    if "outputFile" in operation {
      cmd := cmd + [Text("-o"), Raw(operation["outputFile"])];
    }
    StringStep(operation, 2, "outputFile", "-o", done, cmd);
    r := ConstructDebug(operation, cmd);
  }

  /** The debug flags of `construct_command`. */
  method ConstructDebug(operation: map<string, Value>, cmd0: seq<Token>) returns (r: Result<seq<Token>>)
    requires Emit(operation, Options[..3]) == Ok(cmd0)
    ensures r == Emit(operation, Options)
  {
    var cmd := cmd0;
    ghost var done := cmd;
    if "debugInfo" in operation && Truthy(operation["debugInfo"]) {
      cmd := cmd + [Text("-d")];
    }
    FlagStep(operation, 3, "debugInfo", "-d", done, cmd);
    done := cmd;
    if "verboseDebugInfo" in operation && Truthy(operation["verboseDebugInfo"]) {
      cmd := cmd + [Text("-dd")];
    }
    FlagStep(operation, 4, "verboseDebugInfo", "-dd", done, cmd);
    r := ConstructRest(operation, cmd);
  }

  /** The middle of `construct_command`: the program and the include directories. */
  method ConstructRest(operation: map<string, Value>, cmd0: seq<Token>) returns (r: Result<seq<Token>>)
    requires Emit(operation, Options[..5]) == Ok(cmd0)
    ensures r == Emit(operation, Options)
  {
    var cmd := cmd0;
    ghost var done := cmd;
    if "program" in operation {
      cmd := cmd + [Text("-e"), Raw(operation["program"])];
    }
    StringStep(operation, 5, "program", "-e", done, cmd);
    done := cmd;
    if "includeDir" in operation {
      var dirs := Iterate(operation["includeDir"]);
      if dirs.Err? {
        IncludeRaises(operation, done);
        return Err(dirs.error);
      }
      for k := 0 to |dirs.value|
        invariant cmd == done + IncludePairs(dirs.value[..k])
      {
        IncludePairsSnoc(dirs.value[..k], dirs.value[k]);
        assert dirs.value[..k + 1] == dirs.value[..k] + [dirs.value[k]];
        cmd := cmd + [Text("-I"), Raw(dirs.value[k])];
      }
      assert dirs.value[..|dirs.value|] == dirs.value;
    }
    assert Options[6] == OptionSpec("includeDir", "-I", IncludeOption);
    EmitStep(operation, 6, done, cmd);
    r := ConstructFlags(operation, cmd);
  }

  /** The last part of `construct_command`: the trailing boolean flags. */
  method ConstructFlags(operation: map<string, Value>, cmd0: seq<Token>) returns (r: Result<seq<Token>>)
    requires Emit(operation, Options[..7]) == Ok(cmd0)
    ensures r == Emit(operation, Options)
  {
    var cmd := cmd0;
    ghost var done := cmd;
    if "usdtFileActivation" in operation && Truthy(operation["usdtFileActivation"]) {
      cmd := cmd + [Text("--usdt-file-activation")];
    }
    FlagStep(operation, 7, "usdtFileActivation", "--usdt-file-activation", done, cmd);
    done := cmd;
    if "unsafe" in operation && Truthy(operation["unsafe"]) {
      cmd := cmd + [Text("--unsafe")];
    }
    FlagStep(operation, 8, "unsafe", "--unsafe", done, cmd);
    done := cmd;
    if "quiet" in operation && Truthy(operation["quiet"]) {
      cmd := cmd + [Text("-q")];
    }
    FlagStep(operation, 9, "quiet", "-q", done, cmd);
    done := cmd;
    if "verbose" in operation && Truthy(operation["verbose"]) {
      cmd := cmd + [Text("-v")];
    }
    FlagStep(operation, 10, "verbose", "-v", done, cmd);
    done := cmd;
    if "noWarnings" in operation && Truthy(operation["noWarnings"]) {
      cmd := cmd + [Text("--no-warnings")];
    }
    FlagStep(operation, 11, "noWarnings", "--no-warnings", done, cmd);
    WholeList(operation, cmd);
    r := Ok(cmd);
  }

  /** An `includeDir` that cannot be iterated raises out of `construct_command`. */
  lemma IncludeRaises(op: map<string, Value>, done: seq<Token>)
    requires Emit(op, Options[..6]) == Ok(done)
    requires "includeDir" in op && Iterate(op["includeDir"]).Err?
    ensures Emit(op, Options) == Err(Iterate(op["includeDir"]).error)
  {
    assert Options[6] == OptionSpec("includeDir", "-I", IncludeOption);
    assert Options[..7][..6] == Options[..6];
    EmitStopsAtError(op, Options, 7);
  }

  /** Once an option raises, the rest of the list is not looked at. */
  lemma {:induction false} EmitStopsAtError(op: map<string, Value>, opts: seq<OptionSpec>, n: nat)
    requires 0 < n <= |opts| && Emit(op, opts[..n]).Err?
    ensures Emit(op, opts) == Emit(op, opts[..n])
    decreases |opts| - n
  {
    if n < |opts| {
      assert opts[..n + 1][..n] == opts[..n];
      EmitStopsAtError(op, opts, n + 1);
    } else {
      assert opts[..n] == opts;
    }
  }

  lemma IncludePairsSnoc(dirs: seq<Value>, d: Value)
    ensures IncludePairs(dirs + [d]) == IncludePairs(dirs) + [Text("-I"), Raw(d)]
  {
    var l := IncludePairs(dirs + [d]);
    var r := IncludePairs(dirs) + [Text("-I"), Raw(d)];
    IncludePairsAt(dirs + [d]);
    IncludePairsAt(dirs);
    assert |l| == |r|;
    forall i | 0 <= i < |l| ensures l[i] == r[i] {
      var k := i / 2;
      assert i == 2 * k || i == 2 * k + 1;
      assert (dirs + [d])[k] == if k < |dirs| then dirs[k] else d;
    }
  }

  /** Splitting the option list splits the command: every earlier option's tokens come before
      every later option's, and an error in either part is the error of the whole. */
  lemma {:induction false} EmitAppend(op: map<string, Value>, a: seq<OptionSpec>, b: seq<OptionSpec>)
    ensures Emit(op, a + b) ==
      match Emit(op, a)
      case Err(e) => Err(e)
      case Ok(x) => (match Emit(op, b) case Err(e) => Err(e) case Ok(y) => Ok(x + y))
    decreases |b|
  {
    if b == [] {
      assert a + b == a;
      match Emit(op, a)
      case Err(_) =>
      case Ok(x) => assert x + [] == x;
    } else {
      var n := |b| - 1;
      assert (a + b)[..|a + b| - 1] == a + b[..n];
      assert (a + b)[|a + b| - 1] == b[n];
      EmitAppend(op, a, b[..n]);
      match Emit(op, a)
      case Err(_) =>
      case Ok(x) =>
        match Emit(op, b[..n])
        case Err(_) =>
        case Ok(y) =>
          match Segment(op, b[n])
          case Err(_) =>
          case Ok(t) => assert x + y + t == x + (y + t);
    }
  }

  /** A construct_command result is `Ok` exactly when every option's contribution is. */
  lemma {:induction false} EmitOkIff(op: map<string, Value>, opts: seq<OptionSpec>)
    ensures Emit(op, opts).Ok? <==> forall i :: 0 <= i < |opts| ==> Segment(op, opts[i]).Ok?
    decreases |opts|
  {
    if opts != [] {
      var n := |opts| - 1;
      EmitOkIff(op, opts[..n]);
      assert forall i :: 0 <= i < n ==> opts[..n][i] == opts[i];
    }
  }

  /** The only way `construct_command` raises: an `includeDir` that is neither a list nor a
      string. */
  lemma ConstructRaisesIff(op: map<string, Value>)
    ensures Emit(op, Options).Err? <==> "includeDir" in op && Iterate(op["includeDir"]).Err?
  {
    EmitOkIff(op, Options);
    assert Options[6] == OptionSpec("includeDir", "-I", IncludeOption);
    assert forall i :: 0 <= i < |Options| && i != 6 ==> !Options[i].kind.IncludeOption?;
  }

  /** A key no option mentions has no effect on the command, whether present or not. */
  lemma {:induction false} EmitIgnoresKey(op: map<string, Value>, opts: seq<OptionSpec>, k: string)
    requires k !in Keys(opts)
    ensures Emit(op - {k}, opts) == Emit(op, opts)
    decreases |opts|
  {
    if opts != [] {
      var n := |opts| - 1;
      assert Keys(opts[..n]) <= Keys(opts) by {
        forall j | 0 <= j < n ensures opts[..n][j].key in Keys(opts) {
          assert opts[..n][j] == opts[j];
        }
      }
      EmitIgnoresKey(op, opts[..n], k);
      assert opts[n].key in Keys(opts);
      assert Segment(op - {k}, opts[n]) == Segment(op, opts[n]);
    }
  }

  /** `timeout` and `continue` are read only by `run_bpftrace`: they add no tokens, and
      neither does any key `construct_command` does not know. */
  lemma UnknownKeysIgnored(op: map<string, Value>, k: string)
    requires k == "timeout" || k == "continue" || k !in Keys(Options)
    ensures Emit(op - {k}, Options) == Emit(op, Options)
  {
    EmitIgnoresKey(op, Options, k);
  }

  /** An empty operation builds an empty option list. */
  lemma {:induction false} EmptyOperation(opts: seq<OptionSpec>)
    ensures Emit(map[], opts) == Ok([])
    decreases |opts|
  {
    if opts != [] {
      EmptyOperation(opts[..|opts| - 1]);
      assert Segment(map[], opts[|opts| - 1]) == Ok([]);
      var none: seq<Token> := [];
      assert none + none == none;
    }
  }

  /** What the process runner reports for one run: the joined command line, both output
      streams and the exit code. */
  datatype ExecResult = ExecResult(command: string, stdout: string, stderr: string, returncode: int)

  /** The model's reply: a function call with its decoded arguments, or a plain message. */
  datatype Reply = FunctionCall(name: string, arguments: map<string, Value>) | Message(content: string)

  /** The outcome of `run_bpftrace`: the vector and timeout handed to the runner together with
      the (possibly overridden) result, the plain reply itself, or an exception. */
  datatype BpfRun =
    | Ran(vector: seq<Token>, timeout: Value, result: ExecResult)
    | NoCall(message: string)
    | Raised(error: Error)

  /** Seconds a run may take when the call does not say. */
  const DefaultTimeout: Value := Num("20", true)

  /** The stderr substituted when the call asks to keep the conversation going. */
  const ContinueMessage: string := "The conversation shall not complete."

  /** The part of `run_bpftrace` after the model has replied. `res` is what the runner returns
      for the vector and timeout this method hands it; the runner's first act, echoing the
      vector with `" ".join`, raises when a token is not a str. */
  method RunBpftrace(reply: Reply, res: ExecResult) returns (r: BpfRun)
    ensures reply.Message? ==> r == NoCall(reply.content)
    ensures reply.FunctionCall? ==>
      var args := reply.arguments;
      match Emit(args, Options)
      case Err(e) => r == Raised(e)
      case Ok(opts) =>
        var vector := [Text("sudo"), Text(reply.name)] + opts;
        if !Joinable(vector) then r == Raised(NotJoinable) else
        && r.Ran?
        && r.vector == vector
        && r.timeout == (if "timeout" in args && Truthy(args["timeout"]) then args["timeout"] else DefaultTimeout)
        && r.result == (if "continue" in args && Truthy(args["continue"]) && res.stderr == ""
                        then res.(stderr := ContinueMessage) else res)
  {
    if reply.Message? {
      return NoCall(reply.content);
    }
    var fullCommand := [Text("sudo")];
    fullCommand := fullCommand + [Text(reply.name)];
    var args := reply.arguments;
    var command := ConstructCommand(args);
    if command.Err? {
      return Raised(command.error);
    }
    fullCommand := fullCommand + command.value;
    var timeout := DefaultTimeout;
    if "timeout" in args && Truthy(args["timeout"]) {
      timeout := args["timeout"];
    }
    var result := res;
    if "continue" in args && Truthy(args["continue"]) && result.stderr == "" {
      result := result.(stderr := ContinueMessage);
    }
    assert fullCommand == [Text("sudo"), Text(reply.name)] + command.value;
    if !Joinable(fullCommand) {
      return Raised(NotJoinable);
    }
    r := Ran(fullCommand, timeout, result);
  }

  /** The program of `test_construct_command`, as `json.loads` decodes it. */
  const ExampleProgram: string := "kprobe:do_nanosleep { printf(\"PID %d sleeping...\n\", pid); }"

  /** The operation of the source's own `test_construct_command`. It is a map, so the order
      in which the test writes its keys is not represented. */
  const ExampleOperation: map<string, Value> :=
    map["includeDir" := Arr([Str("dir1"), Str("dir2")], "['dir1', 'dir2']"),
        "program" := Str(ExampleProgram), "outputFile" := Str("output.txt"),
        "format" := Str("json"), "bufferingMode" := Str("full")]

  const ExampleStrings: seq<Token> :=
    [Text("-B"), Raw(Str("full")), Text("-f"), Raw(Str("json")),
     Text("-o"), Raw(Str("output.txt")), Text("-e"), Raw(Str(ExampleProgram))]

  const ExampleIncludes: seq<Token> := [Text("-I"), Raw(Str("dir1")), Text("-I"), Raw(Str("dir2"))]

  lemma ExampleFirstThree()
    ensures Emit(ExampleOperation, Options[..3]) == Ok(ExampleStrings[..6])
  {
    var op, t := ExampleOperation, ExampleStrings;
    EmitStep(op, 0, [], t[..2]);
    EmitStep(op, 1, t[..2], t[..4]);
    EmitStep(op, 2, t[..4], t[..6]);
  }

  lemma ExampleFirstSix()
    ensures Emit(ExampleOperation, Options[..6]) == Ok(ExampleStrings)
  {
    var op, t := ExampleOperation, ExampleStrings;
    ExampleFirstThree();
    EmitStep(op, 3, t[..6], t[..6]);
    EmitStep(op, 4, t[..6], t[..6]);
    EmitStep(op, 5, t[..6], t);
  }

  lemma ExampleIncludeDirs()
    ensures Emit(ExampleOperation, Options[..7]) == Ok(ExampleStrings + ExampleIncludes)
  {
    ExampleFirstSix();
    var dirs := [Str("dir1"), Str("dir2")];
    assert ExampleOperation["includeDir"].items == dirs;
    assert IncludePairs(dirs[1..]) == [Text("-I"), Raw(Str("dir2"))];
    assert IncludePairs(dirs) == ExampleIncludes;
    EmitStep(ExampleOperation, 6, ExampleStrings, ExampleStrings + ExampleIncludes);
  }

  lemma ExampleFirstNine()
    ensures Emit(ExampleOperation, Options[..9]) == Ok(ExampleStrings + ExampleIncludes)
  {
    var op, t := ExampleOperation, ExampleStrings + ExampleIncludes;
    ExampleIncludeDirs();
    EmitStep(op, 7, t, t);
    EmitStep(op, 8, t, t);
  }

  /** Options come out in the fixed order of `construct_command`. */
  lemma ConstructExample()
    ensures Emit(ExampleOperation, Options) == Ok(ExampleStrings + ExampleIncludes)
  {
    var op, t := ExampleOperation, ExampleStrings + ExampleIncludes;
    ExampleFirstNine();
    EmitStep(op, 9, t, t);
    EmitStep(op, 10, t, t);
    EmitStep(op, 11, t, t);
    assert Options[..12] == Options;
  }

  /** A program that is a JSON number is passed to the vector as it is, and the echo's
      `" ".join` then raises. */
  lemma NumericProgramNotJoinable(name: string)
    ensures var op := map["program" := Num("5", true)];
      var opts := [Text("-e"), Raw(Num("5", true))];
      Emit(op, Options) == Ok(opts) && !Joinable([Text("sudo"), Text(name)] + opts)
  {
    var op: map<string, Value> := map["program" := Num("5", true)];
    var t := [Text("-e"), Raw(Num("5", true))];
    var before, after := Options[..5], Options[6..];
    assert op - {"program"} == map[];
    assert "program" !in Keys(before) && "program" !in Keys(after);
    EmitIgnoresKey(op, before, "program");
    EmitIgnoresKey(op, after, "program");
    EmptyOperation(before);
    EmptyOperation(after);
    EmitStep(op, 5, [], t);
    EmitAppend(op, Options[..6], after);
    assert Options[..6] + after == Options;
    assert t + [] == t;
    assert !IsStr(([Text("sudo"), Text(name)] + t)[3]);
  }
}
