/** command.py: the stand-alone `cmd_parser` front end. Its `exec_cmd` builds the vector with
    the shared loop and converts every element with `str()`; its positional table is indexed
    correctly. It also parses the LLM's list of suggested commands. */
module Command {
  import opened Values
  import opened Text
  import opened Schema
  import opened ArgBuilder

  /** The positional-parameter table of `is_positional_arg`. */
  const PositionalTable: map<string, seq<string>> := map[
      "biolatency-bpfcc" := ["interval", "count"],
      "biotop-bpfcc" := ["interval", "count"],
      "btrfsdist-bpfcc" := ["interval", "count"],
      "btrfsslower-bpfcc" := ["min_ms"],
      "cachestat-bpfcc" := ["interval", "count"],
      "cachetop-bpfcc" := ["interval"],
      "cpudist-bpfcc" := ["interval", "count"],
      "cpuunclaimed-bpfcc" := ["interval", "count"],
      "dbslower-bpfcc" := ["engine"],
      "dbstat-bpfcc" := ["engine"],
      "deadlock-bpfcc" := ["pid"],
      "ext4dist-bpfcc" := ["interval", "count"],
      "ext4slower-bpfcc" := ["min_ms"],
      "fileslower-bpfcc" := ["min_ms"],
      "filetop-bpfcc" := ["interval", "count"],
      "funccount-bpfcc" := ["pattern"],
      "funclatency-bpfcc" := ["pattern"],
      "funcslower-bpfcc" := ["function"],
      "hardirqs-bpfcc" := ["interval", "outputs"],
      "inject-bpfcc" := ["base_function", "spec"],
      "llcstat-bpfcc" := ["duration"],
      "memleak-bpfcc" := ["interval", "count"],
      "nfsdist-bpfcc" := ["interval", "count"],
      "nfsslower-bpfcc" := ["min_ms"],
      "offcputime-bpfcc" := ["duration"],
      "offwaketime-bpfcc" := ["duration"],
      "profile-bpfcc" := ["duration"],
      "runqlat-bpfcc" := ["interval", "count"],
      "runqlen-bpfcc" := ["interval", "count"],
      "runqslower-bpfcc" := ["min_us"],
      "slabratetop-bpfcc" := ["interval", "count"],
      "softirqs-bpfcc" := ["interval", "count"],
      "stackcount-bpfcc" := ["pattern"],
      "tcpconnlat-bpfcc" := ["duration_ms"],
      "tcpsubnet-bpfcc" := ["subnets"],
      "tcptop-bpfcc" := ["interval", "count"],
      "tplist-bpfcc" := ["filter"],
      "trace-bpfcc" := ["probe"],
      "ttysnoop-bpfcc" := ["device"],
      "ucalls" := ["pid", "interval"],
      "uflow" := ["pid"],
      "ugc" := ["pid"],
      "uobjnew" := ["pid", "interval"],
      "ustat" := ["interval", "count"],
      "uthreads" := ["pid"],
      "wakeuptime-bpfcc" := ["duration"],
      "xfsdist-bpfcc" := ["interval", "count"],
      "xfsslower-bpfcc" := ["min_ms"],
      "zfsdist-bpfcc" := ["interval", "count"],
      "zfsslower-bpfcc" := ["min_ms"],
      "dcstat-bpfcc" := ["interval", "count"]
    ]

  function Entry(cmd: string): PositionalEntry
  {
    if cmd in PositionalTable then Listed(PositionalTable[cmd]) else NotListed
  }

  /** `is_positional_arg(cmd, arg)`: true iff the command is listed and the argument is among
      its positional parameters. */
  function IsPositionalArg(cmd: string, arg: string): (r: bool)
    ensures r <==> cmd in PositionalTable && arg in PositionalTable[cmd]
    ensures cmd !in PositionalTable ==> !r
  {
    IsPositional(Entry(cmd), arg) == Ok(true)
  }

  /** The vector construction of `exec_cmd` (everything before `subprocess.run`). */
  method ExecCmd(cmdName: string, args: seq<(string, Value)>, funcDescript: Option<FunctionSchema>)
    returns (r: Result<seq<string>>)
    ensures r.Ok? <==> Fold(Entry(cmdName), funcDescript, args).Ok?
    ensures r.Ok? ==> r.value == Vector(cmdName, Fold(Entry(cmdName), funcDescript, args).value)
    ensures r.Err? ==> r.error == Fold(Entry(cmdName), funcDescript, args).error
  {
    var built :- BuildArgs(Entry(cmdName), funcDescript, args);
    var fullCommand := Assemble(cmdName, built);
    StringifiedLayout(cmdName, built);
    r := Ok(Stringify(fullCommand));
  }

  /** A positional entry emits no flag of its own, and when it is the last positional entry
      enumerated and not None, its value, unquoted, is the last token of the vector. */
  lemma PositionalIsLast(cmdName: string, args: seq<(string, Value)>, funcDescript: Option<FunctionSchema>, i: nat)
    requires Fold(Entry(cmdName), funcDescript, args).Ok?
    requires i < |args| && !args[i].1.Bool? && IsPositionalArg(cmdName, args[i].0)
    requires forall j :: i < j < |args| ==> args[j].1.Bool? || !IsPositionalArg(cmdName, args[j].0)
    ensures TokensOf(ArgEffect(Entry(cmdName), funcDescript, args[i])) == []
    ensures var v := Vector(cmdName, Fold(Entry(cmdName), funcDescript, args).value);
      !args[i].1.Null? ==> v[|v| - 1] == Render(args[i].1)
  {
    var e := Entry(cmdName);
    forall j | i < j < |args| ensures !IsCapture(ArgEffect(e, funcDescript, args[j])) {
    }
    FoldLastCapture(e, funcDescript, args, i);
  }

  /** The scenario `profile-bpfcc` with `{"duration": 5, "verbose": true}` builds
      `["sudo", "profile-bpfcc", "--verbose", "5"]`. */
  lemma ProfileScenario(funcDescript: Option<FunctionSchema>)
    ensures var args := [("duration", Num("5", true)), ("verbose", Bool(true))];
      && Fold(Entry("profile-bpfcc"), funcDescript, args).Ok?
      && Vector("profile-bpfcc", Fold(Entry("profile-bpfcc"), funcDescript, args).value)
         == ["sudo", "profile-bpfcc", "--verbose", "5"]
  {
    var args := [("duration", Num("5", true)), ("verbose", Bool(true))];
    assert args[..1] == [("duration", Num("5", true))];
    assert args[..1][..0] == [];
    assert "profile-bpfcc" in PositionalTable && PositionalTable["profile-bpfcc"] == ["duration"];
    var e := Entry("profile-bpfcc");
    assert e == Listed(["duration"]);
    assert Fold(e, funcDescript, args[..1]) == Ok(Built([], Num("5", true)));
    assert "--" + "verbose" == "--verbose";
    assert ArgEffect(e, funcDescript, args[1]) == Ok(Flags(["--verbose"]));
    assert [] + ["--verbose"] == ["--verbose"];
  }

  /** `content[1:-1]`: the reply without its first and last character. */
  function Inner(content: string): string
  {
    if |content| >= 2 then content[1..|content| - 1] else ""
  }

  /** `response_message["content"][1:-1].split(", ")` in `query_suggest_command`. */
  function ParseSuggestions(content: string): (r: seq<string>)
    ensures |r| >= 1
    ensures Join(r, ", ") == Inner(content)
    ensures forall k :: 0 <= k < |r| ==> !Contains(r[k], ", ")
  {
    var r := Split(Inner(content), ", ");
    SplitJoin(Inner(content), ", ");
    forall k | 0 <= k < |r| ensures !Contains(r[k], ", ") {
      SplitPiecesAvoidSeparator(Inner(content), ", ", k);
    }
    r
  }

  /** `"[a, b]"` parses to `["a", "b"]`. */
  lemma SuggestionExample()
    ensures ParseSuggestions("[a, b]") == ["a", "b"]
  {
    var s := "a, b";
    assert Inner("[a, b]") == s;
    assert FindFrom(s, ", ", 0) == Some(1) by {
      assert s[0..2][0] == 'a';
      assert s[1..3] == ", ";
    }
    assert s[3..] == "b" && s[..1] == "a";
    assert FindFrom("b", ", ", 0) == None;
    assert Split(s, ", ") == ["a"] + Split("b", ", ");
  }
}
