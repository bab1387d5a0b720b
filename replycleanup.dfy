/** `make_executable_command`: the clean-up applied to an LLM reply before it is run as a
    shell command. GPTtrace.py and main.py carry the same definition; it is modelled once. */
module ReplyCleanup {
  import opened Text

  /** Drops one leading `p`, if there is one. */
  function DropPrefix(s: string, p: string): string
  {
    if StartsWith(s, p) then s[|p|..] else s
  }

  /** Drops one trailing `p`, if there is one. */
  function DropSuffix(s: string, p: string): string
  {
    if EndsWith(s, p) then s[..|s| - |p|] else s
  }

  /** The piece of the reply between the edge newlines and backticks, before stripping. */
  function Unwrapped(command: string): string
  {
    DropSuffix(DropPrefix(DropSuffix(DropPrefix(command, "\n"), "\n"), "`"), "`")
  }

  /** `make_executable_command(command)`: whatever it returns is one contiguous piece of the
      reply, no longer than it, and never contains the `User: ` marker. */
  function MakeExecutableCommand(command: string): (r: string)
    ensures IsInfix(r, command) && |r| <= |command|
    ensures !Contains(r, "User: ")
  {
    CleanupIsInfix(command);
    BeforeFirst(Strip(Unwrapped(command)), "User: ")
  }

  lemma CleanupIsInfix(command: string)
    ensures var r := BeforeFirst(Strip(Unwrapped(command)), "User: ");
      IsInfix(r, command) && |r| <= |command|
  {
    var u := Unwrapped(command);
    var r := BeforeFirst(Strip(u), "User: ");
    UnwrappedIsInfix(command);
    StripIsInfix(u);
    InfixTransitive(Strip(u), u, command);
    assert IsInfix(r, Strip(u)) by { assert Strip(u)[0..|r|] == r; }
    InfixTransitive(r, Strip(u), command);
  }

  lemma InfixTransitive(a: string, b: string, c: string)
    requires IsInfix(a, b) && IsInfix(b, c)
    ensures IsInfix(a, c)
  {
    var i, j :| 0 <= i <= j <= |b| && b[i..j] == a;
    var k, l :| 0 <= k <= l <= |c| && c[k..l] == b;
    assert |b| == l - k;
    assert 0 <= k + i <= k + j <= |c|;
    forall t | 0 <= t < j - i ensures c[k + i..k + j][t] == a[t] {
      assert a[t] == b[i + t] == c[k + i + t];
    }
    assert c[k + i..k + j] == a;
  }

  lemma DropPrefixIsInfix(s: string, p: string)
    ensures IsInfix(DropPrefix(s, p), s)
  {
    var r := DropPrefix(s, p);
    assert s[|s| - |r|..|s|] == r;
  }

  lemma DropSuffixIsInfix(s: string, p: string)
    ensures IsInfix(DropSuffix(s, p), s)
  {
    var r := DropSuffix(s, p);
    assert s[0..|r|] == r;
  }

  lemma UnwrappedIsInfix(command: string)
    ensures IsInfix(Unwrapped(command), command)
  {
    var a := DropPrefix(command, "\n");
    var b := DropSuffix(a, "\n");
    var c := DropPrefix(b, "`");
    DropPrefixIsInfix(command, "\n");
    DropSuffixIsInfix(a, "\n");
    DropPrefixIsInfix(b, "`");
    DropSuffixIsInfix(c, "`");
    InfixTransitive(b, a, command);
    InfixTransitive(c, b, command);
    InfixTransitive(Unwrapped(command), c, command);
  }

  lemma StripIsInfix(s: string)
    ensures IsInfix(Strip(s), s)
  {
    var t := TrimStart(s);
    TrimStartIsSuffix(s);
    TrimEndIsPrefix(t);
    assert IsInfix(t, s) by { assert s[|s| - |t|..|s|] == t; }
    assert IsInfix(Strip(s), t) by { assert t[0..|Strip(s)|] == Strip(s); }
    InfixTransitive(Strip(s), t, s);
  }

  /** A reply with nothing to clean up is returned as it is. */
  lemma CleanReplyUnchanged(command: string)
    requires !StartsWith(command, "\n") && !EndsWith(command, "\n")
    requires !StartsWith(command, "`") && !EndsWith(command, "`")
    requires command == [] || (!IsSpace(command[0]) && !IsSpace(command[|command| - 1]))
    requires !Contains(command, "User: ")
    ensures MakeExecutableCommand(command) == command
  {
    assert Unwrapped(command) == command;
    assert TrimStart(command) == command;
    assert TrimEnd(command) == command;
  }

  lemma FencedUnwrapped()
    ensures Unwrapped("\n`ls`\n") == "ls"
  {
    var s := "\n`ls`\n";
    var a := "`ls`\n";
    var b := "`ls`";
    var c := "ls`";
    assert DropPrefix(s, "\n") == a by {
      assert s[..1] == "\n" && s[1..] == a;
    }
    assert DropSuffix(a, "\n") == b by {
      assert a[4..] == "\n" && a[..4] == b;
    }
    assert DropPrefix(b, "`") == c by {
      assert b[..1] == "`" && b[1..] == c;
    }
    assert DropSuffix(c, "`") == "ls" by {
      assert c[2..] == "`" && c[..2] == "ls";
    }
  }

  /** One pair of edge newlines and one pair of backticks are removed. */
  lemma FencedCommand()
    ensures MakeExecutableCommand("\n`ls`\n") == "ls"
  {
    FencedUnwrapped();
    assert !IsSpace('l') && !IsSpace('s');
    assert Strip("ls") == "ls";
    assert BeforeFirst("ls", "User: ") == "ls";
  }

  /** Backticks are looked for before whitespace is stripped, so spaces around them keep them. */
  lemma SpacedBackticks()
    ensures MakeExecutableCommand(" `ls` ") == "`ls`"
  {
    var s := " `ls` ";
    assert s[..1] == " " && s[5..] == " ";
    assert Unwrapped(s) == s;
    assert IsSpace(' ') && !IsSpace('`');
    assert s[1..] == "`ls` ";
    assert TrimStart(s) == "`ls` ";
    assert "`ls` "[..4] == "`ls`";
    assert TrimEnd("`ls` ") == "`ls`";
    assert BeforeFirst("`ls`", "User: ") == "`ls`";
  }
}
