/** The command list of a row (line 148): the Command string lower-cased and split on every
    comma, with empty and blank-padded entries kept; a keyword is present only when an entry
    equals it exactly (`string[].Contains`). */
module Keywords {

  /** Lower-casing of one character, for the ASCII letters. */
  function LowerChar(ch: char): char {
    if 'A' <= ch <= 'Z' then (ch as int + 32) as char else ch
  }

  function Lower(s: string): (r: string)
    ensures |r| == |s|
    ensures forall k :: 0 <= k < |s| ==> r[k] == LowerChar(s[k])
  {
    seq(|s|, k requires 0 <= k < |s| => LowerChar(s[k]))
  }

  /** `Split(",")`: the pieces between commas, empty pieces included. */
  function Split(s: string): (parts: seq<string>)
    ensures |parts| >= 1
    decreases |s|
  {
    if s == [] then [[]]
    else
      var rest := Split(s[1..]);
      if s[0] == ',' then [[]] + rest else [[s[0]] + rest[0]] + rest[1..]
  }

  /** The pieces put back together with a comma between each two. */
  function Join(parts: seq<string>): string
    requires |parts| >= 1
    decreases |parts|
  {
    if |parts| == 1 then parts[0] else parts[0] + "," + Join(parts[1..])
  }

  /** The command list of a Command string. */
  function Commands(command: string): (entries: seq<string>)
    ensures |entries| == |Split(command)|
    ensures forall k :: 0 <= k < |entries| ==> entries[k] == Lower(Split(command)[k])
  {
    SplitLower(command);
    Split(Lower(command))
  }

  predicate CommaFree(s: string) {
    ',' !in s
  }

  /** No piece holds a comma. */
  lemma {:induction false} SplitCommaFree(s: string)
    ensures forall k :: 0 <= k < |Split(s)| ==> CommaFree(Split(s)[k])
    decreases |s|
  {
    if s != [] {
      SplitCommaFree(s[1..]);
    }
  }

  /** Splitting loses nothing: the pieces join back to the string. */
  lemma {:induction false} JoinSplit(s: string)
    ensures Join(Split(s)) == s
    decreases |s|
  {
    if s != [] {
      var rest := Split(s[1..]);
      JoinSplit(s[1..]);
      if s[0] == ',' {
        assert ([[]] + rest)[1..] == rest;
      } else {
        var parts := [[s[0]] + rest[0]] + rest[1..];
        if |rest| == 1 {
          assert parts == [[s[0]] + rest[0]];
        } else {
          assert parts[1..] == rest[1..];
          assert Join(rest) == rest[0] + "," + Join(rest[1..]);
        }
      }
    }
  }

  /** Pieces without commas come back from splitting their join unchanged. */
  lemma {:induction false} SplitJoin(parts: seq<string>)
    requires |parts| >= 1
    requires forall k :: 0 <= k < |parts| ==> CommaFree(parts[k])
    ensures Split(Join(parts)) == parts
    decreases |parts|
  {
    if |parts| == 1 {
      SplitPiece(parts[0], []);
      assert parts[0] + [] == parts[0];
    } else {
      var tail := "," + Join(parts[1..]);
      SplitJoin(parts[1..]);
      assert tail[1..] == Join(parts[1..]);
      assert Split(tail) == [[]] + parts[1..];
      SplitPiece(parts[0], tail);
      assert parts[0] + "," + Join(parts[1..]) == parts[0] + tail;
      assert parts[0] + [] == parts[0];
      assert [parts[0]] + parts[1..] == parts;
    }
  }

  /** A comma-free prefix joins the first piece of what follows it. */
  lemma {:induction false} SplitPiece(piece: string, tail: string)
    requires CommaFree(piece)
    requires tail == [] || tail[0] == ','
    ensures Split(piece + tail) == [piece + Split(tail)[0]] + Split(tail)[1..]
    decreases |piece|
  {
    if piece == [] {
      assert piece + tail == tail;
      assert [Split(tail)[0]] + Split(tail)[1..] == Split(tail);
    } else {
      assert (piece + tail)[1..] == piece[1..] + tail;
      SplitPiece(piece[1..], tail);
      assert [piece[0]] + (piece[1..] + Split(tail)[0]) == piece + Split(tail)[0];
    }
  }

  /** There is one entry more than there are commas. */
  lemma {:induction false} SplitCount(s: string)
    ensures |Split(s)| == multiset(s)[','] + 1
    decreases |s|
  {
    if s != [] {
      SplitCount(s[1..]);
      assert s == [s[0]] + s[1..];
    }
  }

  /** Lower-casing leaves commas alone, so it splits where the original does. */
  lemma {:induction false} SplitLower(command: string)
    ensures |Split(Lower(command))| == |Split(command)|
    ensures forall k :: 0 <= k < |Split(command)| ==> Split(Lower(command))[k] == Lower(Split(command)[k])
    decreases |command|
  {
    if command != [] {
      SplitLower(command[1..]);
      var lower := Lower(command);
      assert lower[1..] == Lower(command[1..]);
      var rest := Split(command[1..]);
      var lowerRest := Split(Lower(command[1..]));
      if command[0] == ',' {
        assert Split(lower) == [[]] + lowerRest;
      } else {
        assert lower[0] == LowerChar(command[0]) != ',';
        assert Split(lower) == [[lower[0]] + lowerRest[0]] + lowerRest[1..];
        assert Lower([command[0]] + rest[0]) == [LowerChar(command[0])] + Lower(rest[0]);
      }
    }
  }

  /** A keyword padded with a blank is a different entry: in "barcode, text" the second
      entry is " text", so that list names "barcode" but not "text". */
  lemma BlankAfterCommaHidesKeyword()
    ensures Commands("Barcode, Text") == ["barcode", " text"]
    ensures "barcode" in Commands("Barcode, Text") && "text" !in Commands("Barcode, Text")
  {
    assert Lower("Barcode, Text") == "barcode, text";
    SplitJoin(["barcode", " text"]);
    assert Join(["barcode", " text"]) == "barcode, text";
  }
}
