/** bcc_tools.py: the first bcc front end. It builds the vector inline with the shared loop,
    looks the schema up itself, and knows only two positional parameters. It does not
    convert the elements with `str()`, so a captured positional value stays as it was
    decoded, and the `" ".join` that echoes the command raises on a value that is not a str. */
module BccTools {
  import opened Values
  import opened Text
  import opened Schema
  import opened ArgBuilder

  /** The positional table of `is_positional_arg`: one parameter per command. */
  const PositionalTable: map<string, string> := map["profile-bpfcc" := "duration", "stackcount-bpfcc" := "pattern"]

  function Entry(cmd: string): PositionalEntry
  {
    if cmd in PositionalTable then Listed([PositionalTable[cmd]]) else NotListed
  }

  /** `is_positional_arg(cmd, arg)`: `positional_dict[cmd] == arg` for a listed command. */
  function IsPositionalArg(cmd: string, arg: string): (r: bool)
    ensures r <==> (cmd == "profile-bpfcc" && arg == "duration") || (cmd == "stackcount-bpfcc" && arg == "pattern")
  {
    IsPositional(Entry(cmd), arg) == Ok(true)
  }

  /** The inline construction of `full_command` in `bcc_tools`, for the function call named
      `cmd` with arguments `args`, against the loaded schemas `functions`. */
  method BuildCommand(functions: seq<FunctionSchema>, cmd: string, args: seq<(string, Value)>)
    returns (r: Result<seq<Token>>)
    ensures var b := Fold(Entry(cmd), GetSpecifyFunc(functions, cmd), args);
      && (r.Ok? <==> b.Ok?)
      && (r.Ok? ==> r.value == Assemble(cmd, b.value))
      && (r.Err? ==> r.error == b.error)
  {
    var funcDescript := GetSpecifyFunc(functions, cmd);
    var built :- BuildArgs(Entry(cmd), funcDescript, args);
    r := Ok(Assemble(cmd, built));
  }

  /** `" ".join(full_command)`, which raises on an element that is not a str. */
  function Display(tokens: seq<Token>): (r: Result<string>)
    ensures r.Ok? <==> forall i :: 0 <= i < |tokens| ==> IsStr(tokens[i])
  {
    if Joinable(tokens)
    then Ok(Join(Stringify(tokens), " "))
    else Err(NotJoinable)
  }

  /** The echo of a built vector succeeds iff nothing was captured or the captured value is a
      JSON string: a numeric `duration` makes it raise, unlike command.py, which converts. */
  lemma DisplayNeedsStringPositional(cmd: string, b: Built)
    ensures Display(Assemble(cmd, b)).Ok? <==> b.positional.Null? || b.positional.Str?
  {
    var ts := Assemble(cmd, b);
    if !b.positional.Null? && !b.positional.Str? {
      assert !IsStr(ts[|ts| - 1]);
    } else {
      forall i | 0 <= i < |ts| ensures IsStr(ts[i]) {
        if 2 <= i < 2 + |b.flags| {
          assert ts[2 + (i - 2)] == Text(b.flags[i - 2]);
        }
      }
    }
  }

  /** `profile-bpfcc` with `{"duration": 5, "verbose": true}` builds
      `["sudo", "profile-bpfcc", "--verbose", 5]`, whose echo raises. */
  lemma ProfileScenario(functions: seq<FunctionSchema>)
    ensures var args := [("duration", Num("5", true)), ("verbose", Bool(true))];
      var b := Fold(Entry("profile-bpfcc"), GetSpecifyFunc(functions, "profile-bpfcc"), args);
      && b == Ok(Built(["--verbose"], Num("5", true)))
      && Display(Assemble("profile-bpfcc", b.value)) == Err(NotJoinable)
  {
    var args := [("duration", Num("5", true)), ("verbose", Bool(true))];
    var schema := GetSpecifyFunc(functions, "profile-bpfcc");
    assert args[..1] == [("duration", Num("5", true))];
    assert args[..1][..0] == [];
    var e := Entry("profile-bpfcc");
    assert e == Listed(["duration"]);
    assert Fold(e, schema, args[..1]) == Ok(Built([], Num("5", true)));
    assert "--" + "verbose" == "--verbose";
    assert ArgEffect(e, schema, args[1]) == Ok(Flags(["--verbose"]));
    assert [] + ["--verbose"] == ["--verbose"];
    DisplayNeedsStringPositional("profile-bpfcc", Built(["--verbose"], Num("5", true)));
  }
}
