/** main.py `generate_result`: the chat bot streams cumulative messages, and the function
    keeps only what each message adds to the one before it. */
module StreamChat {
  import opened Text

  /** `message[len(prev):]` with Python's slice clamping: the part of `message` past the
      length of `prev`, or nothing when `message` is not longer. */
  function Delta(prev: string, message: string): (r: string)
    ensures |prev| <= |message| ==> message == message[..|prev|] + r
    ensures |message| <= |prev| ==> r == ""
  {
    if |prev| <= |message| then message[|prev|..] else ""
  }

  /** The message before position `i`, or `""` for the first one. */
  function Previous(stream: seq<string>, i: nat): string
    requires i <= |stream|
  {
    if i == 0 then "" else stream[i - 1]
  }

  /** The deltas of the first `|stream|` messages, concatenated. */
  function Deltas(stream: seq<string>): string
    decreases |stream|
  {
    if stream == [] then ""
    else
      var n := |stream| - 1;
      Deltas(stream[..n]) + Delta(Previous(stream, n), stream[n])
  }

  /** `generate_result(bot, text, session, print_out)` over the messages the bot streams.
      `echoed` is what is printed: the same deltas and a final newline, only with `print_out`. */
  method GenerateResult(stream: seq<string>, printOut: bool) returns (r: string, echoed: string)
    ensures r == Deltas(stream)
    ensures echoed == if printOut then r + "\n" else ""
  {
    var prevText := "";
    var buf := "";
    echoed := "";
    for i := 0 to |stream|
      invariant prevText == Previous(stream, i)
      invariant buf == Deltas(stream[..i])
      invariant echoed == if printOut then buf else ""
    {
      var message := Delta(prevText, stream[i]);
      if printOut {
        echoed := echoed + message;
      }
      assert stream[..i + 1][..i] == stream[..i];
      buf := buf + message;
      prevText := stream[i];
    }
    if printOut {
      echoed := echoed + "\n";
    }
    assert stream[..|stream|] == stream;
    r := buf;
  }

  /** Each message extends the one before it. */
  predicate Growing(stream: seq<string>)
  {
    forall i :: 0 < i < |stream| ==> StartsWith(stream[i], stream[i - 1])
  }

  /** With an ever-growing stream the result is the last message, and `""` with none. */
  lemma {:induction false} GrowingGivesLast(stream: seq<string>)
    requires Growing(stream)
    ensures Deltas(stream) == Previous(stream, |stream|)
    decreases |stream|
  {
    if stream != [] {
      var n := |stream| - 1;
      var init := stream[..n];
      assert Growing(init) by {
        forall i | 0 < i < |init| ensures StartsWith(init[i], init[i - 1]) {
          assert init[i] == stream[i] && init[i - 1] == stream[i - 1];
        }
      }
      GrowingGivesLast(init);
      if n > 0 {
        assert StartsWith(stream[n], stream[n - 1]);
        assert Previous(init, n) == stream[n - 1];
      }
    }
  }

  /** A message no longer than the one before it adds nothing. */
  lemma {:induction false} ShrinkingAddsNothing(stream: seq<string>, n: nat)
    requires 0 < n < |stream| && |stream[n]| <= |stream[n - 1]|
    ensures Deltas(stream[..n + 1]) == Deltas(stream[..n])
  {
    assert stream[..n + 1][..n] == stream[..n];
    assert Previous(stream[..n + 1], n) == stream[n - 1];
  }
}
