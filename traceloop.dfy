/** GPTtrace.py `execute`: run the command the model produced, and on failure hand the
    error back to the model and run its corrected command, for at most five attempts. The
    model's replies and the shell's results come from an oracle, one entry per attempt. */
module TraceLoop {
  import opened Text
  import opened ReplyCleanup

  /** What one attempt yields: the shell's return code, what the command wrote to stderr, and
      the model's reply to the fix prompt (used only when the attempt failed). */
  datatype Attempt = Attempt(code: int, stderr: string, reply: string)

  /** Whether a run succeeded, the cleaned commands run, in order, and the stderr of each
      failed attempt, which goes back to the model inside `FixPrompt`. */
  datatype LoopResult = LoopResult(ok: bool, ran: seq<string>, errors: seq<string>)

  const MaxAttempts: nat := 5

  /** The line given to `os.system` for a command, with stderr sent to `stderrPath`. */
  function ShellLine(parsed: string, stderrPath: string): string
  {
    "sudo " + parsed + " 2> " + stderrPath
  }

  const FixPromptHead: string := "bpftrace gives me the following error on command you generated: `"
  const FixPromptTail: string :=
    "`, please fix the command according to this error. Remember, just return the command without another information."

  /** The prompt asking the model to fix the command that wrote `stderr`. */
  function FixPrompt(stderr: string): string
  {
    FixPromptHead + stderr + FixPromptTail
  }

  /** The shell lines for the commands run, in order. */
  function ShellLines(ran: seq<string>, stderrPath: string): seq<string>
  {
    if ran == [] then [] else ShellLines(ran[..|ran| - 1], stderrPath) + [ShellLine(ran[|ran| - 1], stderrPath)]
  }

  /** The fix prompts for the errors sent back, in order. */
  function Prompts(errors: seq<string>): seq<string>
  {
    if errors == [] then [] else Prompts(errors[..|errors| - 1]) + [FixPrompt(errors[|errors| - 1])]
  }

  /** The command each attempt runs: the cleaned first reply, then the cleaned reply to the
      fix prompt of the attempt before. */
  function Commands(response: string, oracle: seq<Attempt>): (cmds: seq<string>)
    requires |oracle| >= MaxAttempts
    ensures |cmds| == MaxAttempts
  {
    [MakeExecutableCommand(response)] +
    seq(MaxAttempts - 1, i requires 0 <= i < MaxAttempts - 1 => MakeExecutableCommand(oracle[i].reply))
  }

  /** Attempts `k` to the last, attempt `j` running `cmds[j]`. */
  function LoopFrom(oracle: seq<Attempt>, cmds: seq<string>, k: nat): LoopResult
    requires |oracle| >= MaxAttempts && |cmds| >= MaxAttempts && k <= MaxAttempts
    decreases MaxAttempts - k
  {
    if k == MaxAttempts then LoopResult(false, [], [])
    else if oracle[k].code != 0 then
      var rest := LoopFrom(oracle, cmds, k + 1);
      LoopResult(rest.ok, [cmds[k]] + rest.ran, [oracle[k].stderr] + rest.errors)
    else LoopResult(true, [cmds[k]], [])
  }

  /** The whole loop, starting from the model's first reply. */
  function Loop(response: string, oracle: seq<Attempt>): LoopResult
    requires |oracle| >= MaxAttempts
  {
    LoopFrom(oracle, Commands(response, oracle), 0)
  }

  /** `rest` with `ran` and `errors` already done in front of it. */
  function After(ran: seq<string>, errors: seq<string>, rest: LoopResult): LoopResult
  {
    LoopResult(rest.ok, ran + rest.ran, errors + rest.errors)
  }

  /** The loop of `execute` after the first reply: the shell lines it runs, the fix prompts
      it sends, and whether `Retry times exceeded...` is printed. */
  method ExecuteLoop(response: string, oracle: seq<Attempt>, stderrPath: string)
    returns (ok: bool, commands: seq<string>, prompts: seq<string>, exceeded: bool)
    requires |oracle| >= MaxAttempts
    ensures var r := Loop(response, oracle);
      ok == r.ok && commands == ShellLines(r.ran, stderrPath) && prompts == Prompts(r.errors)
    ensures exceeded == !ok
  {
    ghost var cmds := Commands(response, oracle);
    ghost var whole := LoopFrom(oracle, cmds, 0);
    CommandsAt(response, oracle, 0);
    var parsed := MakeExecutableCommand(response);
    ok := false;
    commands, prompts := [], [];
    ghost var ran, errors := [], [];
    var i := 0;
    NothingDone(whole);
    while i < MaxAttempts
      invariant 0 <= i <= MaxAttempts && |cmds| == MaxAttempts
      invariant i < MaxAttempts ==> parsed == cmds[i]
      invariant whole == After(ran, errors, LoopFrom(oracle, cmds, i))
      invariant commands == ShellLines(ran, stderrPath) && prompts == Prompts(errors)
    {
      ghost var done, failed := ran, errors;
      commands := commands + [ShellLine(parsed, stderrPath)];
      ran := ran + [parsed];
      assert ran[..|ran| - 1] == done;
      var retVal := oracle[i].code;
      if retVal != 0 {
        var stderrContent := oracle[i].stderr;
        prompts := prompts + [FixPrompt(stderrContent)];
        errors := errors + [stderrContent];
        assert errors[..|errors| - 1] == failed;
        parsed := MakeExecutableCommand(oracle[i].reply);
        if i < MaxAttempts - 1 {
          CommandsAt(response, oracle, i);
        }
        FailedAttempt(oracle, cmds, i, done, failed);
        i := i + 1;
        if !StartsWith(parsed, "bpftrace") || !StartsWith(parsed, "sudo") {
          continue;
        }
      } else {
        ok := true;
        SucceededAttempt(oracle, cmds, i, done, failed);
        break;
      }
    }
    if !ok {
      NoAttemptLeft(oracle, cmds, ran, errors);
    }
    exceeded := !ok;
  }

  lemma SucceededAttempt(oracle: seq<Attempt>, cmds: seq<string>, k: nat, ran: seq<string>, errors: seq<string>)
    requires |oracle| >= MaxAttempts && |cmds| >= MaxAttempts && k < MaxAttempts && oracle[k].code == 0
    ensures After(ran, errors, LoopFrom(oracle, cmds, k)) == LoopResult(true, ran + [cmds[k]], errors)
  {
    assert errors + [] == errors;
  }

  lemma NoAttemptLeft(oracle: seq<Attempt>, cmds: seq<string>, ran: seq<string>, errors: seq<string>)
    requires |oracle| >= MaxAttempts && |cmds| >= MaxAttempts
    ensures After(ran, errors, LoopFrom(oracle, cmds, MaxAttempts)) == LoopResult(false, ran, errors)
  {
    assert ran + [] == ran && errors + [] == errors;
  }

  lemma NothingDone(r: LoopResult)
    ensures After([], [], r) == r
  {
    assert [] + r.ran == r.ran;
    assert [] + r.errors == r.errors;
  }

  lemma FailedAttempt(oracle: seq<Attempt>, cmds: seq<string>, k: nat, ran: seq<string>, errors: seq<string>)
    requires |oracle| >= MaxAttempts && |cmds| >= MaxAttempts && k < MaxAttempts && oracle[k].code != 0
    ensures After(ran, errors, LoopFrom(oracle, cmds, k)) ==
      After(ran + [cmds[k]], errors + [oracle[k].stderr], LoopFrom(oracle, cmds, k + 1))
  {
    var rest := LoopFrom(oracle, cmds, k + 1);
    assert ran + ([cmds[k]] + rest.ran) == ran + [cmds[k]] + rest.ran;
    assert errors + ([oracle[k].stderr] + rest.errors) == errors + [oracle[k].stderr] + rest.errors;
  }

  /** Line `j` is the shell line of command `j`. */
  lemma {:induction false} ShellLinesAt(ran: seq<string>, stderrPath: string)
    ensures |ShellLines(ran, stderrPath)| == |ran|
    ensures forall j :: 0 <= j < |ran| ==> ShellLines(ran, stderrPath)[j] == ShellLine(ran[j], stderrPath)
    decreases |ran|
  {
    if ran != [] {
      var init := ran[..|ran| - 1];
      ShellLinesAt(init, stderrPath);
      forall j | 0 <= j < |init| ensures ShellLines(ran, stderrPath)[j] == ShellLine(ran[j], stderrPath) {
        assert init[j] == ran[j];
      }
    }
  }

  /** Prompt `j` is the fix prompt for error `j`. */
  lemma {:induction false} PromptsAt(errors: seq<string>)
    ensures |Prompts(errors)| == |errors|
    ensures forall j :: 0 <= j < |errors| ==> Prompts(errors)[j] == FixPrompt(errors[j])
    decreases |errors|
  {
    if errors != [] {
      var init := errors[..|errors| - 1];
      PromptsAt(init);
      forall j | 0 <= j < |init| ensures Prompts(errors)[j] == FixPrompt(errors[j]) {
        assert init[j] == errors[j];
      }
    }
  }

  /** Attempt 0 runs the cleaned first reply, attempt `j + 1` the cleaned reply to the fix
      prompt of attempt `j`. */
  lemma CommandsAt(response: string, oracle: seq<Attempt>, j: nat)
    requires |oracle| >= MaxAttempts && j < MaxAttempts - 1
    ensures Commands(response, oracle)[0] == MakeExecutableCommand(response)
    ensures Commands(response, oracle)[j + 1] == MakeExecutableCommand(oracle[j].reply)
  {
  }

  /** How many attempts `k` onwards make: the first zero return code ends the loop, after
      one error sent back per failed attempt before it. */
  lemma {:induction false} LoopFromCounts(oracle: seq<Attempt>, cmds: seq<string>, k: nat)
    requires |oracle| >= MaxAttempts && |cmds| >= MaxAttempts && k <= MaxAttempts
    ensures var r := LoopFrom(oracle, cmds, k);
      && (r.ok ==> 1 <= |r.ran| && k + |r.ran| <= MaxAttempts &&
                   oracle[k + |r.ran| - 1].code == 0 && |r.errors| == |r.ran| - 1)
      && (!r.ok ==> |r.ran| == MaxAttempts - k == |r.errors|)
    decreases MaxAttempts - k
  {
    if k < MaxAttempts && oracle[k].code != 0 {
      LoopFromCounts(oracle, cmds, k + 1);
    }
  }

  /** Every attempt from `k` whose error goes back to the model failed, and it is that
      attempt's stderr that goes back. */
  lemma {:induction false} LoopFromErrors(oracle: seq<Attempt>, cmds: seq<string>, k: nat)
    requires |oracle| >= MaxAttempts && |cmds| >= MaxAttempts && k <= MaxAttempts
    ensures var r := LoopFrom(oracle, cmds, k);
      && k + |r.errors| <= MaxAttempts
      && forall j :: k <= j < k + |r.errors| ==> oracle[j].code != 0 && r.errors[j - k] == oracle[j].stderr
    decreases MaxAttempts - k
  {
    LoopFromCounts(oracle, cmds, k);
    if k < MaxAttempts && oracle[k].code != 0 {
      LoopFromErrors(oracle, cmds, k + 1);
      var rest := LoopFrom(oracle, cmds, k + 1);
      var r := LoopFrom(oracle, cmds, k);
      assert r.errors == [oracle[k].stderr] + rest.errors;
      forall j | k < j < k + |r.errors| ensures r.errors[j - k] == oracle[j].stderr {
        assert r.errors[j - k] == rest.errors[j - (k + 1)];
      }
    }
  }

  /** Attempt `k + j` runs `cmds[k + j]`. */
  lemma {:induction false} LoopFromCommands(oracle: seq<Attempt>, cmds: seq<string>, k: nat)
    requires |oracle| >= MaxAttempts && |cmds| >= MaxAttempts && k <= MaxAttempts
    ensures var r := LoopFrom(oracle, cmds, k);
      && k + |r.ran| <= MaxAttempts
      && forall j :: 0 <= j < |r.ran| ==> r.ran[j] == cmds[k + j]
    decreases MaxAttempts - k
  {
    LoopFromCounts(oracle, cmds, k);
    if k < MaxAttempts && oracle[k].code != 0 {
      LoopFromCommands(oracle, cmds, k + 1);
      var rest := LoopFrom(oracle, cmds, k + 1);
      var r := LoopFrom(oracle, cmds, k);
      assert r.ran == [cmds[k]] + rest.ran;
      forall j | 0 < j < |r.ran| ensures r.ran[j] == cmds[k + j] {
        assert r.ran[j] == rest.ran[j - 1];
        assert k + j == (k + 1) + (j - 1);
      }
    }
  }

  /** The loop over any commands: between one and five commands run; it succeeds exactly
      when one of the first five return codes is zero, and then it stops at the first such
      attempt; every failed attempt, and only those, sends its stderr back. */
  lemma LoopFromStart(oracle: seq<Attempt>, cmds: seq<string>)
    requires |oracle| >= MaxAttempts && |cmds| >= MaxAttempts
    ensures var r := LoopFrom(oracle, cmds, 0);
      && 1 <= |r.ran| <= MaxAttempts
      && (r.ok <==> exists j :: 0 <= j < MaxAttempts && oracle[j].code == 0)
      && (r.ok ==> oracle[|r.ran| - 1].code == 0)
      && (forall j :: 0 <= j < |r.ran| - 1 ==> oracle[j].code != 0)
      && |r.errors| == (if r.ok then |r.ran| - 1 else MaxAttempts)
      && (forall j :: 0 <= j < |r.errors| ==> r.errors[j] == oracle[j].stderr)
      && (forall j :: 0 <= j < |r.ran| ==> r.ran[j] == cmds[j])
  {
    LoopFromCounts(oracle, cmds, 0);
    LoopFromErrors(oracle, cmds, 0);
    LoopFromCommands(oracle, cmds, 0);
    var r := LoopFrom(oracle, cmds, 0);
    forall j | 0 <= j < |r.errors| ensures oracle[j].code != 0 && r.errors[j] == oracle[j].stderr {
      assert r.errors[j - 0] == oracle[j].stderr;
    }
    if !r.ok {
      forall j | 0 <= j < MaxAttempts ensures oracle[j].code != 0 {
        assert 0 + j == j;
      }
    }
  }

  /** The same for `execute`'s loop, whose commands are the cleaned replies. */
  lemma LoopOutcome(response: string, oracle: seq<Attempt>)
    requires |oracle| >= MaxAttempts
    ensures var r := Loop(response, oracle);
      && 1 <= |r.ran| <= MaxAttempts
      && (r.ok <==> exists j :: 0 <= j < MaxAttempts && oracle[j].code == 0)
      && (r.ok ==> oracle[|r.ran| - 1].code == 0)
      && (forall j :: 0 <= j < |r.ran| - 1 ==> oracle[j].code != 0)
      && |r.errors| == (if r.ok then |r.ran| - 1 else MaxAttempts)
      && (forall j :: 0 <= j < |r.errors| ==> r.errors[j] == oracle[j].stderr)
      && (forall j :: 0 <= j < |r.ran| ==>
            r.ran[j] == Commands(response, oracle)[j])
  {
    LoopFromStart(oracle, Commands(response, oracle));
  }

  /** The `continue` guard of the loop is always taken: no command starts with both
      `bpftrace` and `sudo`. Being the last statement of the body, it changes nothing. */
  lemma ContinueGuardAlwaysHolds(parsed: string)
    ensures !StartsWith(parsed, "bpftrace") || !StartsWith(parsed, "sudo")
  {
    if StartsWith(parsed, "sudo") {
      assert parsed[0] == 's';
    }
  }
}
