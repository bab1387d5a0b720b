/** The argument-vector construction shared by the three bcc front ends (`exec_cmd` in
    gpttrace/cmd.py and in command.py, and the inline loop of `bcc_tools`). All three walk the
    argument map in order and classify each entry: a JSON boolean becomes a bare `--name`
    (whatever its value), a positional parameter is captured (last capture wins), and any
    other entry becomes `--name` and its value, bare for `integer`/`float` parameters and in
    double quotes otherwise. They differ only in their positional tables and in what they do
    with the result, which the per-file modules add. */
module ArgBuilder {
  import opened Values
  import opened Schema

  /** What a front end's positional table says about one command: not listed, listed with
      these positional parameters, or a lookup that raises. */
  datatype PositionalEntry = NotListed | Listed(params: seq<string>) | LookupRaises(command: string)

  /** `is_positional_arg(cmd, arg)` once the command's table entry is known. */
  function IsPositional(entry: PositionalEntry, name: string): Result<bool>
  {
    match entry
    case NotListed => Ok(false)
    case Listed(ps) => Ok(name in ps)
    case LookupRaises(c) => Err(PositionalLookup(c))
  }

  /** `func_descript["parameters"]["properties"][arg]["type"]` */
  function DeclaredType(schema: Option<FunctionSchema>, name: string): Result<string>
  {
    if schema.None? then Err(SchemaMissing)
    else if name !in schema.value.properties then Err(UnknownParameter(name))
    else if schema.value.properties[name].None? then Err(MissingType(name))
    else Ok(schema.value.properties[name].value)
  }

  /** `arg_type in ["integer", "float"]` */
  predicate IsNumericType(t: string)
  {
    t == "integer" || t == "float"
  }

  /** `f'"{value}"'` once the value is rendered. */
  function Quote(s: string): string
  {
    "\"" + s + "\""
  }

  /** What one `(arg, value)` entry does to the command being built. */
  datatype Effect = Flags(tokens: seq<string>) | Capture(value: Value)

  /** The effect of one loop iteration on the entry `arg`, or the exception it raises. */
  function ArgEffect(entry: PositionalEntry, schema: Option<FunctionSchema>, arg: (string, Value)): Result<Effect>
  {
    var (name, value) := arg;
    if value.Bool? then Ok(Flags(["--" + name]))
    else
      match IsPositional(entry, name)
      case Err(e) => Err(e)
      case Ok(true) => Ok(Capture(value))
      case Ok(false) =>
        match DeclaredType(schema, name)
        case Err(e) => Err(e)
        case Ok(t) => Ok(Flags(["--" + name, if IsNumericType(t) then Render(value) else Quote(Render(value))]))
  }

  /** The loop's state: the flag tokens appended so far and `positional_arg` (None is Null). */
  datatype Built = Built(flags: seq<string>, positional: Value)

  function Apply(b: Built, e: Effect): Built
  {
    match e
    case Flags(ts) => Built(b.flags + ts, b.positional)
    case Capture(v) => Built(b.flags, v)
  }

  /** The state after the loop has gone through every entry of `args` in order, or the first
      exception raised on the way. */
  function Fold(entry: PositionalEntry, schema: Option<FunctionSchema>, args: seq<(string, Value)>): Result<Built>
    decreases |args|
  {
    if args == [] then Ok(Built([], Null))
    else
      match Fold(entry, schema, args[..|args| - 1])
      case Err(e) => Err(e)
      case Ok(b) =>
        match ArgEffect(entry, schema, args[|args| - 1])
        case Err(e) => Err(e)
        case Ok(eff) => Ok(Apply(b, eff))
  }

  /** The `for arg, value in args.items()` loop. */
  method BuildArgs(entry: PositionalEntry, schema: Option<FunctionSchema>, args: seq<(string, Value)>)
    returns (r: Result<Built>)
    ensures r == Fold(entry, schema, args)
  {
    var flags: seq<string> := [];
    var positional := Null;
    for i := 0 to |args|
      invariant Fold(entry, schema, args[..i]) == Ok(Built(flags, positional))
    {
      var (name, value) := args[i];
      assert args[..i + 1][..i] == args[..i];
      if !value.Bool? {
        var isPos := IsPositional(entry, name);
        if isPos.Err? {
          FoldStopsAtError(entry, schema, args, i + 1);
          return Err(isPos.error);
        }
        if !isPos.value {
          var argType := DeclaredType(schema, name);
          if argType.Err? {
            FoldStopsAtError(entry, schema, args, i + 1);
            return Err(argType.error);
          }
          if IsNumericType(argType.value) {
            flags := flags + ["--" + name, Render(value)];
          } else {
            flags := flags + ["--" + name, Quote(Render(value))];
          }
        } else {
          positional := value;
        }
      } else {
        flags := flags + ["--" + name];
      }
    }
    assert args[..|args|] == args;
    r := Ok(Built(flags, positional));
  }

  /** Once an entry raises, the loop ends with that exception. */
  lemma {:induction false} FoldStopsAtError(entry: PositionalEntry, schema: Option<FunctionSchema>, args: seq<(string, Value)>, n: nat)
    requires 0 < n <= |args| && Fold(entry, schema, args[..n]).Err?
    ensures Fold(entry, schema, args) == Fold(entry, schema, args[..n])
    decreases |args| - n
  {
    if n < |args| {
      assert args[..n + 1][..n] == args[..n];
      FoldStopsAtError(entry, schema, args, n + 1);
    } else {
      assert args[..n] == args;
    }
  }

  /** The flag tokens an entry contributes: none when it is captured or raises. */
  function TokensOf(e: Result<Effect>): seq<string>
  {
    if e.Ok? && e.value.Flags? then e.value.tokens else []
  }

  predicate IsCapture(e: Result<Effect>)
  {
    e.Ok? && e.value.Capture?
  }

  /** An independent description of the flags: every entry's tokens, concatenated from the
      front in enumeration order. */
  function FlagsOf(entry: PositionalEntry, schema: Option<FunctionSchema>, args: seq<(string, Value)>): seq<string>
    decreases |args|
  {
    if args == [] then []
    else TokensOf(ArgEffect(entry, schema, args[0])) + FlagsOf(entry, schema, args[1..])
  }

  lemma {:induction false} FlagsOfAppend(entry: PositionalEntry, schema: Option<FunctionSchema>, a: seq<(string, Value)>, b: seq<(string, Value)>)
    ensures FlagsOf(entry, schema, a + b) == FlagsOf(entry, schema, a) + FlagsOf(entry, schema, b)
    decreases |a|
  {
    if a == [] {
      assert a + b == b;
    } else {
      assert (a + b)[0] == a[0];
      assert (a + b)[1..] == a[1..] + b;
      FlagsOfAppend(entry, schema, a[1..], b);
    }
  }

  /** The loop succeeds iff no entry raises, and then its flags are the entries' tokens in
      enumeration order. */
  lemma {:induction false} FoldFlags(entry: PositionalEntry, schema: Option<FunctionSchema>, args: seq<(string, Value)>)
    ensures Fold(entry, schema, args).Ok? <==> forall i :: 0 <= i < |args| ==> ArgEffect(entry, schema, args[i]).Ok?
    ensures Fold(entry, schema, args).Ok? ==> Fold(entry, schema, args).value.flags == FlagsOf(entry, schema, args)
    decreases |args|
  {
    if args != [] {
      var init := args[..|args| - 1];
      var last := args[|args| - 1];
      FoldFlags(entry, schema, init);
      assert forall i :: 0 <= i < |init| ==> init[i] == args[i];
      assert args == init + [last];
      FlagsOfAppend(entry, schema, init, [last]);
      assert FlagsOf(entry, schema, [last]) == TokensOf(ArgEffect(entry, schema, last)) by {
        assert [last][1..] == [];
      }
    }
  }

  /** The exception the loop ends with is that of the first entry that raises. */
  lemma {:induction false} FoldFirstError(entry: PositionalEntry, schema: Option<FunctionSchema>, args: seq<(string, Value)>)
    requires Fold(entry, schema, args).Err?
    ensures exists i :: (0 <= i < |args| && ArgEffect(entry, schema, args[i]) == Err(Fold(entry, schema, args).error)
                         && forall j :: 0 <= j < i ==> ArgEffect(entry, schema, args[j]).Ok?)
    decreases |args|
  {
    var init := args[..|args| - 1];
    assert forall i :: 0 <= i < |init| ==> init[i] == args[i];
    if Fold(entry, schema, init).Err? {
      FoldFirstError(entry, schema, init);
    } else {
      FoldFlags(entry, schema, init);
    }
  }

  /** Positional capture is last-wins: the loop ends holding the value of the last entry
      that was captured. */
  lemma {:induction false} FoldLastCapture(entry: PositionalEntry, schema: Option<FunctionSchema>, args: seq<(string, Value)>, i: nat)
    requires Fold(entry, schema, args).Ok?
    requires i < |args| && IsCapture(ArgEffect(entry, schema, args[i]))
    requires forall j :: i < j < |args| ==> !IsCapture(ArgEffect(entry, schema, args[j]))
    ensures Fold(entry, schema, args).value.positional == args[i].1
    decreases |args|
  {
    var init := args[..|args| - 1];
    assert forall k :: 0 <= k < |init| ==> init[k] == args[k];
    if i < |args| - 1 {
      FoldLastCapture(entry, schema, init, i);
    }
  }

  /** With no entry captured, `positional_arg` stays None. */
  lemma {:induction false} FoldNoCapture(entry: PositionalEntry, schema: Option<FunctionSchema>, args: seq<(string, Value)>)
    requires Fold(entry, schema, args).Ok?
    requires forall j :: 0 <= j < |args| ==> !IsCapture(ArgEffect(entry, schema, args[j]))
    ensures Fold(entry, schema, args).value.positional == Null
    decreases |args|
  {
    if args != [] {
      var init := args[..|args| - 1];
      assert forall k :: 0 <= k < |init| ==> init[k] == args[k];
      FoldNoCapture(entry, schema, init);
    }
  }

  /** The flags of a successful build are those of the entries before `i`, then those of
      entry `i`, then those of the entries after it: tokens follow enumeration order. */
  lemma FlagsAround(entry: PositionalEntry, schema: Option<FunctionSchema>, args: seq<(string, Value)>, i: nat)
    requires Fold(entry, schema, args).Ok? && i < |args|
    ensures Fold(entry, schema, args).value.flags
      == FlagsOf(entry, schema, args[..i]) + TokensOf(ArgEffect(entry, schema, args[i])) + FlagsOf(entry, schema, args[i + 1..])
  {
    FoldFlags(entry, schema, args);
    FlagsSplitAt(entry, schema, args, i);
  }

  /** The flags of a list, split around entry `i`. */
  lemma FlagsSplitAt(entry: PositionalEntry, schema: Option<FunctionSchema>, args: seq<(string, Value)>, i: nat)
    requires i < |args|
    ensures FlagsOf(entry, schema, args)
      == FlagsOf(entry, schema, args[..i]) + TokensOf(ArgEffect(entry, schema, args[i])) + FlagsOf(entry, schema, args[i + 1..])
  {
    var before, rest, after := args[..i], args[i..], args[i + 1..];
    assert args == before + rest;
    FlagsOfAppend(entry, schema, before, rest);
    FlagsOfFront(entry, schema, rest);
    assert rest[0] == args[i] && rest[1..] == after;
  }

  /** The first entry's tokens come first. */
  lemma FlagsOfFront(entry: PositionalEntry, schema: Option<FunctionSchema>, args: seq<(string, Value)>)
    requires args != []
    ensures FlagsOf(entry, schema, args) == TokensOf(ArgEffect(entry, schema, args[0])) + FlagsOf(entry, schema, args[1..])
  {
  }

  /** A boolean entry, true or false, contributes exactly the bare token `--name`. */
  lemma BooleanIsBareFlag(entry: PositionalEntry, schema: Option<FunctionSchema>, name: string, b: bool)
    ensures TokensOf(ArgEffect(entry, schema, (name, Bool(b)))) == ["--" + name]
    ensures !IsCapture(ArgEffect(entry, schema, (name, Bool(b))))
  {
  }

  /** A non-boolean entry that is not positional contributes `--name` and its value: bare
      for a numeric parameter, in double quotes otherwise. */
  lemma ValueFlag(entry: PositionalEntry, schema: Option<FunctionSchema>, name: string, v: Value)
    requires !v.Bool? && IsPositional(entry, name) == Ok(false) && DeclaredType(schema, name).Ok?
    ensures var t := DeclaredType(schema, name).value;
      TokensOf(ArgEffect(entry, schema, (name, v)))
        == ["--" + name, if IsNumericType(t) then Render(v) else Quote(Render(v))]
  {
  }

  /** `full_command` after the loop: `"sudo"`, the command name, the flags, then the captured
      positional value appended as it is (Python's `append(positional_arg)`), unless it is None. */
  function Assemble(command: string, b: Built): (r: seq<Token>)
    ensures |r| == 2 + |b.flags| + (if b.positional.Null? then 0 else 1)
    ensures r[0] == Text("sudo") && r[1] == Text(command)
    ensures forall i :: 0 <= i < |b.flags| ==> r[2 + i] == Text(b.flags[i])
    ensures !b.positional.Null? ==> r[|r| - 1] == Raw(b.positional)
  {
    [Text("sudo"), Text(command)]
      + seq(|b.flags|, i requires 0 <= i < |b.flags| => Text(b.flags[i]))
      + (if b.positional.Null? then [] else [Raw(b.positional)])
  }

  /** `str(item)` of one element. */
  function TokenText(t: Token): string
  {
    match t
    case Text(s) => s
    case Raw(v) => Render(v)
  }

  /** `[str(item) for item in full_command]` */
  function Stringify(ts: seq<Token>): (r: seq<string>)
    ensures |r| == |ts| && forall i :: 0 <= i < |ts| ==> r[i] == TokenText(ts[i])
  {
    seq(|ts|, i requires 0 <= i < |ts| => TokenText(ts[i]))
  }

  /** The layout of a converted vector: `"sudo"`, the command, the flags in order, and the
      rendered positional value last when one was captured. */
  function Vector(command: string, b: Built): seq<string>
  {
    ["sudo", command] + b.flags + (if b.positional.Null? then [] else [Render(b.positional)])
  }

  /** Converting `full_command` with `str()` gives exactly that layout. */
  lemma StringifiedLayout(command: string, b: Built)
    ensures Stringify(Assemble(command, b)) == Vector(command, b)
  {
    var a := Assemble(command, b);
    var lhs := Stringify(a);
    var tail := if b.positional.Null? then [] else [Render(b.positional)];
    var rhs := ["sudo", command] + b.flags + tail;
    assert |lhs| == |rhs|;
    forall i | 0 <= i < |lhs| ensures lhs[i] == rhs[i] {
      assert lhs[i] == TokenText(a[i]);
      if i < 2 {
        assert rhs[i] == ["sudo", command][i];
      } else if i < 2 + |b.flags| {
        assert a[i] == Text(b.flags[i - 2]);
        assert rhs[i] == b.flags[i - 2];
      } else {
        assert a[i] == Raw(b.positional);
        assert rhs[i] == tail[0];
      }
    }
    assert lhs == rhs;
  }
}
