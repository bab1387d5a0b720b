/** The Python `str` operations the modelled code relies on: prefix and suffix tests,
    `strip()`, `split(sep)` and `sep.join(parts)`. */
module Text {
  import opened Values

  predicate StartsWith(s: string, p: string)
  {
    |p| <= |s| && s[..|p|] == p
  }

  predicate EndsWith(s: string, p: string)
  {
    |p| <= |s| && s[|s| - |p|..] == p
  }

  /** `p` occurs in `s` starting at index `i`. */
  predicate OccursAt(s: string, p: string, i: int)
  {
    0 <= i && i + |p| <= |s| && s[i..i + |p|] == p
  }

  /** `p in s` */
  predicate Contains(s: string, p: string)
  {
    exists i :: 0 <= i <= |s| && OccursAt(s, p, i)
  }

  /** `r` is a contiguous piece of `s`. */
  predicate IsInfix(r: string, s: string)
  {
    exists i, j :: 0 <= i <= j <= |s| && s[i..j] == r
  }

  /** The characters for which Python's `str.isspace()` holds. */
  predicate IsSpace(c: char)
  {
    || ('\t' <= c <= '\r') || ('\U{1c}' <= c <= '\U{1f}') || c == ' '
    || c == '\U{85}' || c == '\U{a0}' || c == '\U{1680}'
    || ('\U{2000}' <= c <= '\U{200a}') || c == '\U{2028}' || c == '\U{2029}'
    || c == '\U{202f}' || c == '\U{205f}' || c == '\U{3000}'
  }

  /** `s.lstrip()` */
  function TrimStart(s: string): string
  {
    if s != [] && IsSpace(s[0]) then TrimStart(s[1..]) else s
  }

  /** `s.rstrip()` */
  function TrimEnd(s: string): string
  {
    if s != [] && IsSpace(s[|s| - 1]) then TrimEnd(s[..|s| - 1]) else s
  }

  /** `lstrip` removes a run of leading whitespace and nothing else. */
  lemma {:induction false} TrimStartIsSuffix(s: string)
    ensures var r := TrimStart(s); |r| <= |s| && r == s[|s| - |r|..]
    ensures var r := TrimStart(s); r == [] || !IsSpace(r[0])
    ensures forall i :: 0 <= i < |s| - |TrimStart(s)| ==> IsSpace(s[i])
    decreases |s|
  {
    if s != [] && IsSpace(s[0]) {
      TrimStartIsSuffix(s[1..]);
      assert s[1..][|s| - 1 - |TrimStart(s)|..] == s[|s| - |TrimStart(s)|..];
      forall i | 1 <= i < |s| - |TrimStart(s)| ensures IsSpace(s[i]) {
        assert s[1..][i - 1] == s[i];
      }
    }
  }

  /** `rstrip` removes a run of trailing whitespace and nothing else. */
  lemma {:induction false} TrimEndIsPrefix(s: string)
    ensures var r := TrimEnd(s); |r| <= |s| && r == s[..|r|]
    ensures var r := TrimEnd(s); r == [] || !IsSpace(r[|r| - 1])
    ensures forall i :: |TrimEnd(s)| <= i < |s| ==> IsSpace(s[i])
    decreases |s|
  {
    if s != [] && IsSpace(s[|s| - 1]) {
      TrimEndIsPrefix(s[..|s| - 1]);
      assert s[..|s| - 1][..|TrimEnd(s)|] == s[..|TrimEnd(s)|];
      forall i | |TrimEnd(s)| <= i < |s| - 1 ensures IsSpace(s[i]) {
        assert s[..|s| - 1][i] == s[i];
      }
    }
  }

  /** `s.strip()` */
  function Strip(s: string): string
  {
    TrimEnd(TrimStart(s))
  }

  /** The leftmost occurrence of `p` in `s` at or after `from`, as `str.find` searches. */
  function FindFrom(s: string, p: string, from: nat): (r: Option<nat>)
    requires |p| > 0 && from <= |s|
    ensures r.Some? ==> from <= r.value && OccursAt(s, p, r.value)
    ensures r.Some? ==> forall j :: from <= j < r.value ==> !OccursAt(s, p, j)
    ensures r.None? ==> forall j :: from <= j ==> !OccursAt(s, p, j)
    decreases |s| - from
  {
    if from + |p| > |s| then None
    else if s[from..from + |p|] == p then Some(from)
    else FindFrom(s, p, from + 1)
  }

  /** `s.split(p)` for a non-empty separator: the pieces between the leftmost,
      non-overlapping occurrences of `p`. */
  function Split(s: string, p: string): (r: seq<string>)
    requires |p| > 0
    ensures |r| >= 1
    decreases |s|
  {
    match FindFrom(s, p, 0)
    case None => [s]
    case Some(i) => [s[..i]] + Split(s[i + |p|..], p)
  }

  /** `p.join(parts)` */
  function Join(parts: seq<string>, p: string): string
    decreases |parts|
  {
    if parts == [] then ""
    else if |parts| == 1 then parts[0]
    else parts[0] + p + Join(parts[1..], p)
  }

  /** `s.split(p)[0]`: everything before the first occurrence of `p`. */
  function BeforeFirst(s: string, p: string): (r: string)
    requires |p| > 0
    ensures StartsWith(s, r) && !Contains(r, p)
    ensures !Contains(s, p) ==> r == s
  {
    SplitPiecesAvoidSeparator(s, p, 0);
    match FindFrom(s, p, 0)
    case None => s
    case Some(i) => s[..i]
  }

  /** An occurrence inside a prefix is an occurrence in the whole string. */
  lemma OccursInPrefix(s: string, p: string, i: nat, j: int)
    requires i <= |s| && OccursAt(s[..i], p, j)
    ensures OccursAt(s, p, j)
  {
    assert s[..i][j..j + |p|] == s[j..j + |p|];
  }

  /** Splitting undoes joining's inverse: joining the pieces with the separator gives back
      the original string. */
  lemma {:induction false} SplitJoin(s: string, p: string)
    requires |p| > 0
    ensures Join(Split(s, p), p) == s
    decreases |s|
  {
    match FindFrom(s, p, 0)
    case None =>
    case Some(i) =>
      var rest := s[i + |p|..];
      var parts := Split(rest, p);
      SplitJoin(rest, p);
      assert Split(s, p) == [s[..i]] + parts;
      assert ([s[..i]] + parts)[1..] == parts;
      assert Join([s[..i]] + parts, p) == s[..i] + p + Join(parts, p);
      assert s[i..i + |p|] == p;
      assert s == s[..i] + s[i..i + |p|] + rest;
  }

  /** No piece of a split contains the separator. */
  lemma {:induction false} SplitPiecesAvoidSeparator(s: string, p: string, k: nat)
    requires |p| > 0 && k < |Split(s, p)|
    ensures !Contains(Split(s, p)[k], p)
    decreases |s|
  {
    match FindFrom(s, p, 0)
    case None =>
    case Some(i) =>
      if k == 0 {
        if Contains(s[..i], p) {
          var j :| OccursAt(s[..i], p, j);
          OccursInPrefix(s, p, i, j);
        }
      } else {
        SplitPiecesAvoidSeparator(s[i + |p|..], p, k - 1);
      }
  }

  /** Number of occurrences of the character `c` in `s`. */
  function CountChar(s: string, c: char): nat
  {
    if s == [] then 0 else (if s[0] == c then 1 else 0) + CountChar(s[1..], c)
  }

  lemma {:induction false} CountCharAppend(a: string, b: string, c: char)
    ensures CountChar(a + b, c) == CountChar(a, c) + CountChar(b, c)
    decreases |a|
  {
    if a == [] {
      assert a + b == b;
    } else {
      assert (a + b)[1..] == a[1..] + b;
      CountCharAppend(a[1..], b, c);
    }
  }

  lemma {:induction false} CountCharNone(s: string, c: char)
    requires forall j :: 0 <= j < |s| ==> s[j] != c
    ensures CountChar(s, c) == 0
    decreases |s|
  {
    if s != [] {
      CountCharNone(s[1..], c);
    }
  }

  /** Splitting on a one-character separator yields one piece more than the separator
      occurs, so `split("=")` has exactly two pieces iff there is exactly one `=`. */
  lemma {:induction false} SplitCharCount(s: string, c: char)
    ensures |Split(s, [c])| == CountChar(s, c) + 1
    decreases |s|
  {
    match FindFrom(s, [c], 0)
    case None =>
      forall j | 0 <= j < |s| ensures s[j] != c {
        assert !OccursAt(s, [c], j);
        assert s[j..j + 1] == [s[j]];
      }
      CountCharNone(s, c);
    case Some(i) =>
      forall j | 0 <= j < i ensures s[..i][j] != c {
        assert !OccursAt(s, [c], j);
        assert s[j..j + 1] == [s[j]];
      }
      CountCharNone(s[..i], c);
      assert s[i..i + 1] == [c];
      assert s == s[..i] + [c] + s[i + 1..];
      CountCharAppend(s[..i] + [c], s[i + 1..], c);
      CountCharAppend(s[..i], [c], c);
      SplitCharCount(s[i + 1..], c);
  }

  /** `str.find` of a single character finds its first occurrence. */
  lemma FindCharAt(s: string, c: char, i: nat)
    requires i < |s| && s[i] == c
    requires forall j :: 0 <= j < i ==> s[j] != c
    ensures FindFrom(s, [c], 0) == Some(i)
  {
    forall j | 0 <= j < i ensures !OccursAt(s, [c], j) {
      assert s[j..j + 1][0] == s[j];
    }
    assert OccursAt(s, [c], i) by { assert s[i..i + 1] == [c]; }
    var r := FindFrom(s, [c], 0);
    assert r.Some?;
    assert r.value == i;
  }

  /** `str.find` of a character that does not occur finds nothing. */
  lemma FindCharNone(s: string, c: char)
    requires forall j :: 0 <= j < |s| ==> s[j] != c
    ensures FindFrom(s, [c], 0) == None
  {
    forall j | 0 <= j ensures !OccursAt(s, [c], j) {
      if j < |s| { assert s[j..j + 1][0] == s[j]; }
    }
  }
}
