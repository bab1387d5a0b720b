/** gpttrace/cmd.py: the `cmd` front end of the installed package. Its `exec_cmd` builds the
    vector with the shared loop, then converts every element with `str()`. Its
    `is_positional_arg` looks the command up in the table by `cmd_name` but then indexes the
    table with the module function `cmd`, which is never a key: every listed command raises,
    so the positional branch is never reached successfully. The lookup evidently intended
    is kept beside it. */
module GptCmd {
  import opened Values
  import opened Schema
  import opened ArgBuilder

  /** The positional-parameter table of `is_positional_arg`. */
  const PositionalTable: map<string, seq<string>> := map[
      "biolatency-bpfcc" := ["interval", "count"],
      "biotop-bpfcc" := ["interval", "count"],
      "btrfsdist-bpfcc" := ["interval", "count"],
      "btrfsslower-bpfcc" := ["min_ms"],
      "cachestat-bpfcc" := ["interval", "count"],
      "cachetop-bpfcc" := ["interval"],
      "cobjnew-bpfcc" := ["pid", "interval"],
      "cpudist-bpfcc" := ["interval", "count"],
      "cpuunclaimed-bpfcc" := ["interval", "count"],
      "dbslower-bpfcc" := ["engine"],
      "dbstat-bpfcc" := ["engine"],
      "deadlock-bpfcc" := ["pid"],
      "ext4dist-bpfcc" := ["interval", "count"],
      "ext4slower-bpfcc" := ["min_ms"],
      "fileslower-bpfcc" := ["min_ms"],
      "filetop-bpfcc" := ["interval", "count"],
      "funccount-bpfcc" := ["pattern"],
      "funclatency-bpfcc" := ["pattern"],
      "funcslower-bpfcc" := ["function"],
      "hardirqs-bpfcc" := ["interval", "outputs"],
      "inject-bpfcc" := ["base_function", "spec"],
      "javacalls-bpfcc" := ["pid", "interval"],
      "javaflow-bpfcc" := ["pid"],
      "javagc-bpfcc" := ["pid"],
      "javaobjnew-bpfcc" := ["pid", "interval"],
      "javastat-bpfcc" := ["interval", "count"],
      "javathreads-bpfcc" := ["pid"],
      "llcstat-bpfcc" := ["duration"],
      "memleak-bpfcc" := ["interval", "count"],
      "nfsdist-bpfcc" := ["interval", "count"],
      "nfsslower-bpfcc" := ["min_ms"],
      "nodegc-bpfcc" := ["pid"],
      "nodestat-bpfcc" := ["interval", "count"],
      "offcputime-bpfcc" := ["duration"],
      "offwaketime-bpfcc" := ["duration"],
      "perlcalls-bpfcc" := ["pid", "interval"],
      "perlflow-bpfcc" := ["pid"],
      "perlstat-bpfcc" := ["interval", "count"],
      "phpcalls-bpfcc" := ["pid", "interval"],
      "phpflow-bpfcc" := ["pid"],
      "phpstat-bpfcc" := ["interval", "count"],
      "profile-bpfcc" := ["duration"],
      "pythoncalls-bpfcc" := ["pid", "interval"],
      "pythonflow-bpfcc" := ["pid"],
      "pythongc-bpfcc" := ["pid"],
      "pythonstat-bpfcc" := ["interval", "count"],
      "rubycalls-bpfcc" := ["pid", "interval"],
      "rubyflow-bpfcc" := ["pid"],
      "rubygc-bpfcc" := ["pid"],
      "rubyobjnew-bpfcc" := ["pid", "interval"],
      "rubystat-bpfcc" := ["interval", "count"],
      "runqlat-bpfcc" := ["interval", "count"],
      "runqlen-bpfcc" := ["interval", "count"],
      "runqslower-bpfcc" := ["min_us"],
      "slabratetop-bpfcc" := ["interval", "count"],
      "softirqs-bpfcc" := ["interval", "count"],
      "stackcount-bpfcc" := ["pattern"],
      "tclcalls-bpfcc" := ["pid", "interval"],
      "tclflow-bpfcc" := ["pid"],
      "tclobjnew-bpfcc" := ["pid", "interval"],
      "tclstat-bpfcc" := ["interval", "count"],
      "tcpconnlat-bpfcc" := ["duration_ms"],
      "tcpsubnet-bpfcc" := ["subnets"],
      "tcptop-bpfcc" := ["interval", "count"],
      "tplist-bpfcc" := ["filter"],
      "trace-bpfcc" := ["probe"],
      "ttysnoop-bpfcc" := ["device"],
      "ucalls" := ["pid", "interval"],
      "uflow" := ["pid"],
      "ugc" := ["pid"],
      "uobjnew" := ["pid", "interval"],
      "ustat" := ["interval", "count"],
      "uthreads" := ["pid"],
      "wakeuptime-bpfcc" := ["duration"],
      "xfsdist-bpfcc" := ["interval", "count"],
      "xfsslower-bpfcc" := ["min_ms"],
      "zfsdist-bpfcc" := ["interval", "count"],
      "zfsslower-bpfcc" := ["min_ms"]
    ]

  /** The table entry `is_positional_arg` acts on, as written. */
  function Entry(cmdName: string): PositionalEntry
  {
    if cmdName in PositionalTable then LookupRaises(cmdName) else NotListed
  }

  /** `is_positional_arg(cmd_name, arg)` as written: false for an unlisted command, a
      KeyError for a listed one. */
  function IsPositionalArg(cmdName: string, arg: string): (r: Result<bool>)
    ensures cmdName !in PositionalTable ==> r == Ok(false)
    ensures cmdName in PositionalTable ==> r == Err(PositionalLookup(cmdName))
  {
    IsPositional(Entry(cmdName), arg)
  }

  /** The lookup evidently intended: index the table with `cmd_name`. */
  function EntryIntended(cmdName: string): PositionalEntry
  {
    if cmdName in PositionalTable then Listed(PositionalTable[cmdName]) else NotListed
  }

  /** `is_positional_arg` with `positional_dict[cmd_name]`. */
  function IsPositionalArgIntended(cmdName: string, arg: string): (r: bool)
    ensures r <==> cmdName in PositionalTable && arg in PositionalTable[cmdName]
  {
    IsPositional(EntryIntended(cmdName), arg) == Ok(true)
  }

  /** The vector construction of `exec_cmd` (everything before `subprocess.run`), as written. */
  method ExecCmd(cmdName: string, args: seq<(string, Value)>, funcDescript: Option<FunctionSchema>)
    returns (r: Result<seq<string>>)
    ensures r.Ok? <==> Fold(Entry(cmdName), funcDescript, args).Ok?
    ensures r.Ok? ==> r.value == Vector(cmdName, Fold(Entry(cmdName), funcDescript, args).value)
    ensures r.Err? ==> r.error == Fold(Entry(cmdName), funcDescript, args).error
  {
    var built :- BuildArgs(Entry(cmdName), funcDescript, args);
    var fullCommand := Assemble(cmdName, built);
    StringifiedLayout(cmdName, built);
    r := Ok(Stringify(fullCommand));
  }

  /** `exec_cmd` with the intended positional lookup. */
  method ExecCmdIntended(cmdName: string, args: seq<(string, Value)>, funcDescript: Option<FunctionSchema>)
    returns (r: Result<seq<string>>)
    ensures r.Ok? <==> Fold(EntryIntended(cmdName), funcDescript, args).Ok?
    ensures r.Ok? ==> r.value == Vector(cmdName, Fold(EntryIntended(cmdName), funcDescript, args).value)
    ensures r.Err? ==> r.error == Fold(EntryIntended(cmdName), funcDescript, args).error
  {
    var built :- BuildArgs(EntryIntended(cmdName), funcDescript, args);
    var fullCommand := Assemble(cmdName, built);
    StringifiedLayout(cmdName, built);
    r := Ok(Stringify(fullCommand));
  }

  /** As written, nothing is ever captured: a successful build is `"sudo"`, the command and
      the flags of the entries in enumeration order, with no positional token. */
  lemma NoPositionalAsWritten(cmdName: string, args: seq<(string, Value)>, funcDescript: Option<FunctionSchema>)
    requires Fold(Entry(cmdName), funcDescript, args).Ok?
    ensures Fold(Entry(cmdName), funcDescript, args).value == Built(FlagsOf(Entry(cmdName), funcDescript, args), Null)
  {
    FoldFlags(Entry(cmdName), funcDescript, args);
    FoldNoCapture(Entry(cmdName), funcDescript, args);
  }

  /** As written, a listed command raises as soon as the loop meets a non-boolean value;
      with only boolean values it succeeds. */
  lemma ListedCommandRaises(cmdName: string, args: seq<(string, Value)>, funcDescript: Option<FunctionSchema>)
    requires cmdName in PositionalTable
    ensures (exists i :: 0 <= i < |args| && !args[i].1.Bool?)
      ==> Fold(Entry(cmdName), funcDescript, args) == Err(PositionalLookup(cmdName))
    ensures (forall i :: 0 <= i < |args| ==> args[i].1.Bool?)
      ==> Fold(Entry(cmdName), funcDescript, args).Ok?
  {
    var e := Entry(cmdName);
    FoldFlags(e, funcDescript, args);
    if exists i :: 0 <= i < |args| && !args[i].1.Bool? {
      var i :| 0 <= i < |args| && !args[i].1.Bool?;
      assert ArgEffect(e, funcDescript, args[i]).Err?;
      FoldFirstError(e, funcDescript, args);
    }
  }

  /** The scenario `profile-bpfcc` with `{"duration": 5, "verbose": true}`: as written it
      raises; with the intended lookup the vector is
      `["sudo", "profile-bpfcc", "--verbose", "5"]`. */
  lemma ProfileScenario(funcDescript: Option<FunctionSchema>)
    ensures var args := [("duration", Num("5", true)), ("verbose", Bool(true))];
      && Fold(Entry("profile-bpfcc"), funcDescript, args) == Err(PositionalLookup("profile-bpfcc"))
      && Fold(EntryIntended("profile-bpfcc"), funcDescript, args) == Ok(Built(["--verbose"], Num("5", true)))
  {
    var args := [("duration", Num("5", true)), ("verbose", Bool(true))];
    assert args[..1] == [("duration", Num("5", true))];
    assert args[..1][..0] == [];
    assert "profile-bpfcc" in PositionalTable && PositionalTable["profile-bpfcc"] == ["duration"];
    var e := EntryIntended("profile-bpfcc");
    assert e == Listed(["duration"]);
    assert Fold(e, funcDescript, args[..1]) == Ok(Built([], Num("5", true)));
    assert "--" + "verbose" == "--verbose";
    assert ArgEffect(e, funcDescript, args[1]) == Ok(Flags(["--verbose"]));
    assert [] + ["--verbose"] == ["--verbose"];
  }
}
