/** The cleanup applied to recognised text before it is stored (line 233):
    `Trim()` and then `ReplaceLineEndings()`. */
module TextCleanup {

  /** The characters Char.IsWhiteSpace accepts, which `Trim()` removes. */
  const WhiteSpace: set<char> := {
    '\t', '\n', '\U{0B}', '\U{0C}', '\r', ' ', '\U{85}', '\U{A0}', '\U{1680}',
    '\U{2000}', '\U{2001}', '\U{2002}', '\U{2003}', '\U{2004}', '\U{2005}', '\U{2006}',
    '\U{2007}', '\U{2008}', '\U{2009}', '\U{200A}', '\U{2028}', '\U{2029}',
    '\U{202F}', '\U{205F}', '\U{3000}'
  }

  predicate IsWhiteSpace(ch: char) {
    ch in WhiteSpace
  }

  /** The single characters `ReplaceLineEndings()` treats as a line break:
      CR, LF, FF, NEL, LS and PS (CR LF together counts as one break). */
  predicate IsLineBreak(ch: char) {
    ch == '\r' || ch == '\n' || ch == '\U{0C}' || ch == '\U{85}' || ch == '\U{2028}' || ch == '\U{2029}'
  }

  /** `TrimStart()`: the suffix left after dropping leading white space. */
  function TrimStart(s: string): (r: string)
    ensures |r| <= |s| && r == s[|s| - |r|..]
    ensures forall k :: 0 <= k < |s| - |r| ==> IsWhiteSpace(s[k])
    ensures r == [] || !IsWhiteSpace(r[0])
    decreases |s|
  {
    if s != [] && IsWhiteSpace(s[0]) then TrimStart(s[1..]) else s
  }

  /** `TrimEnd()`: the prefix left after dropping trailing white space. */
  function TrimEnd(s: string): (r: string)
    ensures |r| <= |s| && r == s[..|r|]
    ensures forall k :: |r| <= k < |s| ==> IsWhiteSpace(s[k])
    ensures r == [] || !IsWhiteSpace(r[|r| - 1])
    decreases |s|
  {
    if s != [] && IsWhiteSpace(s[|s| - 1]) then TrimEnd(s[..|s| - 1]) else s
  }

  function Trim(s: string): (r: string)
    ensures var lead := |s| - |TrimStart(s)|;
      && lead + |r| <= |s| && r == s[lead..lead + |r|]
      && (forall k :: 0 <= k < lead ==> IsWhiteSpace(s[k]))
      && (forall k :: lead + |r| <= k < |s| ==> IsWhiteSpace(s[k]))
    ensures r == [] || (!IsWhiteSpace(r[0]) && !IsWhiteSpace(r[|r| - 1]))
  {
    TrimEnd(TrimStart(s))
  }

  /** `ReplaceLineEndings(newLine)`: every CR LF pair and every single line-break character
      becomes `newLine`; the default overload passes Environment.NewLine. */
  function ReplaceLineEndings(s: string, newLine: string): (r: string)
    ensures NoLineBreaks(s) ==> r == s
    ensures NoLineBreaks(newLine) ==> NoLineBreaks(r)
    decreases |s|
  {
    if s == [] then []
    else if s[0] == '\r' && |s| >= 2 && s[1] == '\n' then newLine + ReplaceLineEndings(s[2..], newLine)
    else if IsLineBreak(s[0]) then newLine + ReplaceLineEndings(s[1..], newLine)
    else [s[0]] + ReplaceLineEndings(s[1..], newLine)
  }

  /** The value stored in the Text column. */
  function CleanText(text: string, newLine: string): (r: string)
    ensures NoLineBreaks(newLine) ==> NoLineBreaks(r)
    ensures NoLineBreaks(Trim(text)) ==> r == Trim(text)
  {
    ReplaceLineEndings(Trim(text), newLine)
  }

  predicate NoLineBreaks(s: string) {
    forall k :: 0 <= k < |s| ==> !IsLineBreak(s[k])
  }

  /** Text that neither starts nor ends with white space is left alone by `Trim()`. */
  lemma TrimKeeps(s: string)
    requires s == [] || (!IsWhiteSpace(s[0]) && !IsWhiteSpace(s[|s| - 1]))
    ensures Trim(s) == s
  {
  }

  /** Trimming twice is trimming once. */
  lemma TrimIdempotent(s: string)
    ensures Trim(Trim(s)) == Trim(s)
  {
    var t := Trim(s);
    if t != [] {
      assert t[0] == TrimStart(s)[0];
      TrimKeeps(t);
    }
  }

  /** With a newline of "\n", the only line break left is "\n" itself, and
      a second replacement changes nothing. */
  lemma {:induction false} ReplaceLineEndingsOnlyLf(s: string)
    ensures forall k :: 0 <= k < |ReplaceLineEndings(s, "\n")| ==>
      IsLineBreak(ReplaceLineEndings(s, "\n")[k]) ==> ReplaceLineEndings(s, "\n")[k] == '\n'
    ensures ReplaceLineEndings(ReplaceLineEndings(s, "\n"), "\n") == ReplaceLineEndings(s, "\n")
    decreases |s|
  {
    if s != [] {
      var rest := if s[0] == '\r' && |s| >= 2 && s[1] == '\n' then s[2..] else s[1..];
      ReplaceLineEndingsOnlyLf(rest);
      var r := ReplaceLineEndings(rest, "\n");
      var head: string := if IsLineBreak(s[0]) then "\n" else [s[0]];
      assert ReplaceLineEndings(s, "\n") == head + r;
      assert (head + r)[1..] == r;
    }
  }

  /** The character at k is no line break, or is the CR or the LF of a CR LF pair. */
  predicate PairedAt(r: string, k: int)
    requires 0 <= k < |r|
  {
    !IsLineBreak(r[k]) ||
    (r[k] == '\r' && k + 1 < |r| && r[k + 1] == '\n') || (r[k] == '\n' && 0 < k && r[k - 1] == '\r')
  }

  /** Every line break is part of a CR LF pair. */
  predicate CrLfOnly(r: string) {
    forall k :: 0 <= k < |r| ==> PairedAt(r, k)
  }

  /** Putting a CR LF pair, or one character that is not a line break, in front keeps
      every line break inside a CR LF pair. */
  lemma CrLfOnlyPrepend(head: string, r: string)
    requires head == "\r\n" || (|head| == 1 && !IsLineBreak(head[0]))
    requires CrLfOnly(r)
    ensures CrLfOnly(head + r)
  {
    var whole := head + r;
    forall k | 0 <= k < |whole|
      ensures PairedAt(whole, k)
    {
      if !IsLineBreak(whole[k]) {
      } else if k < |head| {
        assert whole[0] == '\r' && whole[1] == '\n';
      } else {
        var j := k - |head|;
        assert whole[k] == r[j] && PairedAt(r, j);
        if whole[k] == '\r' {
          assert r[j + 1] == whole[k + 1];
        } else if j == 0 {
          assert false;
        } else {
          assert r[j - 1] == whole[k - 1];
        }
      }
    }
  }

  /** With the Windows newline "\r\n", the only line breaks left are CR LF pairs. */
  lemma {:induction false} ReplaceLineEndingsOnlyCrLf(s: string)
    ensures CrLfOnly(ReplaceLineEndings(s, "\r\n"))
    decreases |s|
  {
    if s != [] {
      var rest := if s[0] == '\r' && |s| >= 2 && s[1] == '\n' then s[2..] else s[1..];
      ReplaceLineEndingsOnlyCrLf(rest);
      var head: string := if IsLineBreak(s[0]) then "\r\n" else [s[0]];
      assert ReplaceLineEndings(s, "\r\n") == head + ReplaceLineEndings(rest, "\r\n");
      CrLfOnlyPrepend(head, ReplaceLineEndings(rest, "\r\n"));
    }
  }

  /** With the Windows newline "\r\n", a second replacement changes nothing. */
  lemma {:induction false} ReplaceLineEndingsCrLfIdempotent(s: string)
    ensures ReplaceLineEndings(ReplaceLineEndings(s, "\r\n"), "\r\n") == ReplaceLineEndings(s, "\r\n")
    decreases |s|
  {
    if s != [] {
      var rest := if s[0] == '\r' && |s| >= 2 && s[1] == '\n' then s[2..] else s[1..];
      ReplaceLineEndingsCrLfIdempotent(rest);
      var r := ReplaceLineEndings(rest, "\r\n");
      var head: string := if IsLineBreak(s[0]) then "\r\n" else [s[0]];
      assert ReplaceLineEndings(s, "\r\n") == head + r;
      assert (head + r)[|head|..] == r;
    }
  }
}
