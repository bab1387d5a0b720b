/** gpttrace/execute.py `execute`: ask for a bpftrace call, run it, and on a non-empty stderr
    ask again with the failure appended to the prompt; on an empty stderr ask for an
    explanation of the output. Each outcome of `run_bpftrace` is taken from an oracle sequence,
    one entry per call; the prompt texts are kept as the values they are built from. */
module Execute {
  import opened Values
  import opened Bpftrace

  /** What a prompt is built from: the first request, a request repeated after a failed run
      (the earlier prompt and the result that failed), and the explanation request. */
  datatype Prompt =
    | RunningPrompt(request: string)
    | ErrorPrompt(previous: Prompt, request: string, output: ExecResult)
    | ExplainPrompt(request: string, stdout: string)

  /** One call of `execute`: its `retry` argument and the prompt it sends. */
  datatype Call = Call(retry: int, prompt: Prompt)

  /** How a chain of calls ends: with the explanation prompt, with an exception (looking up
      `stderr` in a reply that was not a function call, or an error from building the command),
      with the oracle used up, or (only in the corrected version) by giving up. */
  datatype Ending = Explained(prompt: Prompt) | Crashed | Pending | GaveUp

  datatype Trace = Trace(calls: seq<Call>, end: Ending)

  /** A run whose stderr is not empty: `execute` tries again. */
  predicate Failed(o: BpfRun)
  {
    o.Ran? && o.result.stderr != ""
  }

  /** A run whose stderr is empty: `execute` asks for the explanation. */
  predicate Succeeded(o: BpfRun)
  {
    o.Ran? && o.result.stderr == ""
  }

  /** The prompt of a call: the running prompt without a previous prompt, the error prompt
      over the previous prompt and its failed result otherwise. */
  function PromptFor(request: string, previous: Option<(Prompt, ExecResult)>): (p: Prompt)
    ensures previous.None? <==> p.RunningPrompt?
  {
    match previous
    case None => RunningPrompt(request)
    case Some((prompt, output)) => ErrorPrompt(prompt, request, output)
  }

  /** `execute(user_input, verbose, retry, previous_prompt, output)` as written: `retry == 0`
      only prints a message, so the calls go on until a run does not fail. */
  function Execute(request: string, retry: int, previous: Option<(Prompt, ExecResult)>,
                   outcomes: seq<BpfRun>): (t: Trace)
    ensures |t.calls| <= |outcomes|
    ensures t.calls != [] ==> t.calls[0] == Call(retry, PromptFor(request, previous))
    decreases |outcomes|
  {
    if outcomes == [] then Trace([], Pending)
    else
      var prompt := PromptFor(request, previous);
      var here := Call(retry, prompt);
      match outcomes[0]
      case Ran(_, _, res) =>
        if res.stderr != "" then
          var rest := Execute(request, retry - 1, Some((prompt, res)), outcomes[1..]);
          Trace([here] + rest.calls, rest.end)
        else
          Trace([here], Explained(ExplainPrompt(request, res.stdout)))
      case _ => Trace([here], Crashed)
  }

  /** The call that prints that the retries are exceeded. */
  predicate PrintsExceeded(c: Call)
  {
    c.retry == 0
  }

  /** One failed run: its call, followed by the chain the recursive call produces. */
  lemma FailedStep(request: string, retry: int, previous: Option<(Prompt, ExecResult)>,
                   outcomes: seq<BpfRun>)
    requires outcomes != [] && Failed(outcomes[0])
    ensures var prompt := PromptFor(request, previous);
      var rest := Execute(request, retry - 1, Some((prompt, outcomes[0].result)), outcomes[1..]);
      Execute(request, retry, previous, outcomes) == Trace([Call(retry, prompt)] + rest.calls, rest.end)
  {
  }

  /** The k-th call receives `retry - k`. */
  lemma {:induction false} ExecuteRetries(request: string, retry: int,
                                          previous: Option<(Prompt, ExecResult)>,
                                          outcomes: seq<BpfRun>)
    ensures var t := Execute(request, retry, previous, outcomes);
      forall k :: 0 <= k < |t.calls| ==> t.calls[k].retry == retry - k
    decreases |outcomes|
  {
    if outcomes != [] && Failed(outcomes[0]) {
      var prompt := PromptFor(request, previous);
      var rest := Execute(request, retry - 1, Some((prompt, outcomes[0].result)), outcomes[1..]);
      ExecuteRetries(request, retry - 1, Some((prompt, outcomes[0].result)), outcomes[1..]);
      FailedStep(request, retry, previous, outcomes);
      var t := Execute(request, retry, previous, outcomes);
      forall k | 0 < k < |t.calls| ensures t.calls[k].retry == retry - k {
        assert t.calls[k] == rest.calls[k - 1];
      }
    }
  }

  /** Every call but the last saw a failed run. */
  lemma {:induction false} ExecuteFailuresBefore(request: string, retry: int,
                                                 previous: Option<(Prompt, ExecResult)>,
                                                 outcomes: seq<BpfRun>)
    ensures var t := Execute(request, retry, previous, outcomes);
      forall k :: 0 <= k < |t.calls| - 1 ==> Failed(outcomes[k])
    decreases |outcomes|
  {
    if outcomes != [] && Failed(outcomes[0]) {
      var prompt := PromptFor(request, previous);
      var rest := Execute(request, retry - 1, Some((prompt, outcomes[0].result)), outcomes[1..]);
      ExecuteFailuresBefore(request, retry - 1, Some((prompt, outcomes[0].result)), outcomes[1..]);
      FailedStep(request, retry, previous, outcomes);
      var t := Execute(request, retry, previous, outcomes);
      forall k | 0 < k < |t.calls| - 1 ensures Failed(outcomes[k]) {
        assert outcomes[k] == outcomes[1..][k - 1];
      }
    }
  }

  /** Every call after the first sends the error prompt over the prompt of the call before it
      and the result that call's run produced; no call sends the explanation prompt. */
  lemma {:induction false} ExecutePrompts(request: string, retry: int,
                                          previous: Option<(Prompt, ExecResult)>,
                                          outcomes: seq<BpfRun>)
    ensures var t := Execute(request, retry, previous, outcomes);
      && (forall k :: 0 <= k < |t.calls| - 1 ==>
            outcomes[k].Ran? &&
            t.calls[k + 1].prompt == ErrorPrompt(t.calls[k].prompt, request, outcomes[k].result))
      && (forall k :: 0 <= k < |t.calls| ==> !t.calls[k].prompt.ExplainPrompt?)
    decreases |outcomes|
  {
    if outcomes != [] && Failed(outcomes[0]) {
      var prompt := PromptFor(request, previous);
      var res := outcomes[0].result;
      var rest := Execute(request, retry - 1, Some((prompt, res)), outcomes[1..]);
      ExecutePrompts(request, retry - 1, Some((prompt, res)), outcomes[1..]);
      var t := Execute(request, retry, previous, outcomes);
      FailedStep(request, retry, previous, outcomes);
      assert rest.calls != [] ==> rest.calls[0].prompt == ErrorPrompt(prompt, request, res);
      forall k | 0 < k < |t.calls| - 1
        ensures outcomes[k].Ran? &&
          t.calls[k + 1].prompt == ErrorPrompt(t.calls[k].prompt, request, outcomes[k].result)
      {
        assert t.calls[k + 1] == rest.calls[k] && t.calls[k] == rest.calls[k - 1];
        assert outcomes[k] == outcomes[1..][k - 1];
        assert rest.calls[k].prompt
          == ErrorPrompt(rest.calls[k - 1].prompt, request, outcomes[1..][k - 1].result);
      }
      forall k | 0 < k < |t.calls| ensures !t.calls[k].prompt.ExplainPrompt? {
        assert t.calls[k] == rest.calls[k - 1];
        assert !rest.calls[k - 1].prompt.ExplainPrompt?;
      }
    }
  }

  /** How the chain ends is decided by the run after the last call: the explanation prompt,
      built from that run's stdout, exactly when its stderr is empty; an exception exactly when
      there was no run; and the oracle runs out only after failures. */
  lemma {:induction false} ExecuteEnding(request: string, retry: int,
                                         previous: Option<(Prompt, ExecResult)>,
                                         outcomes: seq<BpfRun>)
    ensures var t := Execute(request, retry, previous, outcomes); var n := |t.calls|;
      && (t.end.Explained? <==> n > 0 && Succeeded(outcomes[n - 1]))
      && (t.end.Explained? ==> t.end.prompt == ExplainPrompt(request, outcomes[n - 1].result.stdout))
      && (t.end.Crashed? <==> n > 0 && !outcomes[n - 1].Ran?)
      && (t.end.Pending? <==> n == |outcomes| && (n == 0 || Failed(outcomes[n - 1])))
      && !t.end.GaveUp?
    decreases |outcomes|
  {
    if outcomes != [] && Failed(outcomes[0]) {
      var prompt := PromptFor(request, previous);
      var res := outcomes[0].result;
      var rest := Execute(request, retry - 1, Some((prompt, res)), outcomes[1..]);
      ExecuteEnding(request, retry - 1, Some((prompt, res)), outcomes[1..]);
      var t := Execute(request, retry, previous, outcomes);
      FailedStep(request, retry, previous, outcomes);
      if rest.calls != [] {
        assert outcomes[|t.calls| - 1] == outcomes[1..][|rest.calls| - 1];
      }
    }
  }

  /** A run succeeds exactly when its stderr is empty: a first-call success ends the chain with
      one call and the explanation of that run's stdout, a failure always leads to another call
      when the oracle has one. */
  lemma SuccessIffEmptyStderr(request: string, retry: int, previous: Option<(Prompt, ExecResult)>,
                              outcomes: seq<BpfRun>)
    requires |outcomes| >= 2 && outcomes[0].Ran?
    ensures var t := Execute(request, retry, previous, outcomes);
      t.end == Explained(ExplainPrompt(request, outcomes[0].result.stdout)) && |t.calls| == 1
      <==> outcomes[0].result.stderr == ""
  {
    var t := Execute(request, retry, previous, outcomes);
    if outcomes[0].result.stderr != "" {
      ExecuteEnding(request, retry, previous, outcomes);
      assert |t.calls| >= 2 by {
        var rest := Execute(request, retry - 1, Some((PromptFor(request, previous), outcomes[0].result)), outcomes[1..]);
        assert rest.calls != [];
      }
    }
  }

  /** Finding: with `n` failed runs followed by a successful one there are `n + 1` calls, however
      small `retry` is; the call with `retry == 0` prints its message and the chain goes on. */
  lemma NotBoundedByRetry(request: string, retry: nat, outcomes: seq<BpfRun>)
    requires |outcomes| > retry + 1
    requires forall k :: 0 <= k < |outcomes| - 1 ==> Failed(outcomes[k])
    requires Succeeded(outcomes[|outcomes| - 1])
    ensures var t := Execute(request, retry, None, outcomes);
      && |t.calls| == |outcomes|
      && t.end.Explained?
      && PrintsExceeded(t.calls[retry])
      && t.calls[retry + 1].retry < 0
  {
    var t := Execute(request, retry, None, outcomes);
    ExecuteRetries(request, retry, None, outcomes);
    ExecuteEnding(request, retry, None, outcomes);
  }

  /** The smallest instance: `retry == 0`, one failure, then a success — two calls. */
  lemma RetryZeroStillRetries(request: string, failed: ExecResult, ok: ExecResult)
    requires failed.stderr != "" && ok.stderr == ""
    ensures var t := Execute(request, 0, None, [Ran([], DefaultTimeout, failed), Ran([], DefaultTimeout, ok)]);
      |t.calls| == 2 && PrintsExceeded(t.calls[0]) && t.end == Explained(ExplainPrompt(request, ok.stdout))
  {
    var outcomes := [Ran([], DefaultTimeout, failed), Ran([], DefaultTimeout, ok)];
    assert outcomes[1..] == [Ran([], DefaultTimeout, ok)];
  }

  /** The evidently intended `execute`: once `retry` is used up it gives up instead of calling
      `run_bpftrace` again. */
  function ExecuteIntended(request: string, retry: int, previous: Option<(Prompt, ExecResult)>,
                           outcomes: seq<BpfRun>): (t: Trace)
    ensures |t.calls| <= |outcomes|
    decreases |outcomes|
  {
    if retry <= 0 then Trace([], GaveUp)
    else if outcomes == [] then Trace([], Pending)
    else
      var prompt := PromptFor(request, previous);
      var here := Call(retry, prompt);
      match outcomes[0]
      case Ran(_, _, res) =>
        if res.stderr != "" then
          var rest := ExecuteIntended(request, retry - 1, Some((prompt, res)), outcomes[1..]);
          Trace([here] + rest.calls, rest.end)
        else
          Trace([here], Explained(ExplainPrompt(request, res.stdout)))
      case _ => Trace([here], Crashed)
  }

  /** The corrected version makes at most `retry` calls, each with a positive counter. */
  lemma {:induction false} IntendedBounded(request: string, retry: int,
                                           previous: Option<(Prompt, ExecResult)>,
                                           outcomes: seq<BpfRun>)
    ensures var t := ExecuteIntended(request, retry, previous, outcomes);
      && |t.calls| <= (if retry > 0 then retry else 0)
      && (forall k :: 0 <= k < |t.calls| ==> t.calls[k].retry == retry - k > 0)
    decreases |outcomes|
  {
    if retry > 0 && outcomes != [] && Failed(outcomes[0]) {
      var prompt := PromptFor(request, previous);
      var res := outcomes[0].result;
      var rest := ExecuteIntended(request, retry - 1, Some((prompt, res)), outcomes[1..]);
      IntendedBounded(request, retry - 1, Some((prompt, res)), outcomes[1..]);
      var t := ExecuteIntended(request, retry, previous, outcomes);
      assert t.calls == [Call(retry, prompt)] + rest.calls;
      forall k | 0 < k < |t.calls| ensures t.calls[k].retry == retry - k > 0 {
        assert t.calls[k] == rest.calls[k - 1];
      }
    }
  }

  /** With `retry` failures in a row the corrected version gives up after exactly `retry` calls. */
  lemma {:induction false} IntendedGivesUp(request: string, retry: nat,
                                           previous: Option<(Prompt, ExecResult)>,
                                           outcomes: seq<BpfRun>)
    requires |outcomes| >= retry
    requires forall k :: 0 <= k < retry ==> Failed(outcomes[k])
    ensures var t := ExecuteIntended(request, retry, previous, outcomes);
      t.end == GaveUp && |t.calls| == retry
    decreases retry
  {
    if retry > 0 {
      var prompt := PromptFor(request, previous);
      var res := outcomes[0].result;
      assert Failed(outcomes[0]);
      forall k | 0 <= k < retry - 1 ensures Failed(outcomes[1..][k]) {
        assert outcomes[1..][k] == outcomes[k + 1];
      }
      IntendedGivesUp(request, retry - 1, Some((prompt, res)), outcomes[1..]);
    }
  }

  /** When the as-written chain ends within `retry` calls, the corrected version does the same. */
  lemma {:induction false} IntendedAgreesWithinBudget(request: string, retry: int,
                                                      previous: Option<(Prompt, ExecResult)>,
                                                      outcomes: seq<BpfRun>)
    requires Execute(request, retry, previous, outcomes).end != Pending
    requires |Execute(request, retry, previous, outcomes).calls| <= retry
    ensures ExecuteIntended(request, retry, previous, outcomes) == Execute(request, retry, previous, outcomes)
    decreases |outcomes|
  {
    if outcomes != [] && Failed(outcomes[0]) {
      var prompt := PromptFor(request, previous);
      var res := outcomes[0].result;
      IntendedAgreesWithinBudget(request, retry - 1, Some((prompt, res)), outcomes[1..]);
    }
  }

  /** The `verbose` and `retry` arguments `execute` receives from the command line. */
  datatype ExecuteArgs = ExecuteArgs(verbose: bool, retry: int)

  /** gpttrace/GPTtrace.py calls `execute(args.execute, args.train, args.verbose)`: `--train`
      lands in `verbose` and `--verbose` in `retry`, where a Python bool counts as 0 or 1. */
  function EntryArgs(train: bool, verbose: bool): ExecuteArgs
  {
    ExecuteArgs(train, if verbose then 1 else 0)
  }

  /** Finding: without `-v` the very first call prints that the retries are exceeded. */
  lemma EntryExceedsAtOnce(request: string, train: bool, outcomes: seq<BpfRun>)
    requires outcomes != []
    ensures var t := Execute(request, EntryArgs(train, false).retry, None, outcomes);
      PrintsExceeded(t.calls[0]) && t.calls[0].prompt == RunningPrompt(request)
  {
  }

  /** The evidently intended call: `verbose` from `--verbose` and the default `retry` of 5. */
  function EntryArgsIntended(train: bool, verbose: bool): ExecuteArgs
  {
    ExecuteArgs(verbose, 5)
  }

  /** With the intended arguments and the corrected `execute` there are at most five calls, no
      call has a counter of zero, and five failures end in giving up. */
  lemma EntryIntendedFiveAttempts(request: string, train: bool, verbose: bool, outcomes: seq<BpfRun>)
    ensures var a := EntryArgsIntended(train, verbose);
      var t := ExecuteIntended(request, a.retry, None, outcomes);
      && a.verbose == verbose
      && |t.calls| <= 5
      && (forall k :: 0 <= k < |t.calls| ==> !PrintsExceeded(t.calls[k]))
      && (|outcomes| >= 5 && (forall k :: 0 <= k < 5 ==> Failed(outcomes[k])) ==> t.end == GaveUp)
  {
    IntendedBounded(request, 5, None, outcomes);
    if |outcomes| >= 5 && (forall k :: 0 <= k < 5 ==> Failed(outcomes[k])) {
      IntendedGivesUp(request, 5, None, outcomes);
    }
  }
}
