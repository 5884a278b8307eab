/**
  Text helpers: `Join` is the standard join of a vector of strings with a
  separator, and `Lines` splits a text at every newline. `Lines` undoes
  `Join(_, "\n")` for lines that hold no newline, which is how the help
  and version texts are shown to be made of the lines they were built from.
 */
module Text {

  /** The summed length of `lines`. */
  function TotalLength(lines: seq<string>): nat
  {
    if |lines| == 0 then 0 else |lines[0]| + TotalLength(lines[1..])
  }

  /**
    Concatenation of `lines` with `sep` between neighbours, as the standard
    `join` of a vector of strings; the empty vector joins to "". Its length
    is that of the lines plus one separator between each two of them.
   */
  function Join(lines: seq<string>, sep: string): (s: string)
    ensures |lines| > 0 ==> |s| == TotalLength(lines) + (|lines| - 1) * |sep|
  {
    if |lines| == 0 then ""
    else if |lines| == 1 then lines[0]
    else lines[0] + sep + Join(lines[1..], sep)
  }

  /** A non-empty join ends with the last line joined. */
  lemma {:induction false} JoinEndsWithLast(lines: seq<string>, sep: string)
    requires |lines| >= 1
    ensures var s, last := Join(lines, sep), lines[|lines| - 1];
      |s| >= |last| && s[|s| - |last|..] == last
    decreases |lines|
  {
    if |lines| > 1 {
      JoinEndsWithLast(lines[1..], sep);
      var rest := Join(lines[1..], sep);
      assert Join(lines, sep) == (lines[0] + sep) + rest;
    }
  }

  /** The pieces of `s` between newlines, in order; a text without newline is one piece. */
  function Lines(s: string): (ls: seq<string>)
    ensures |ls| >= 1
    decreases |s|
  {
    if |s| == 0 then [""]
    else if s[0] == '\n' then [""] + Lines(s[1..])
    else
      var rest := Lines(s[1..]);
      [[s[0]] + rest[0]] + rest[1..]
  }

  predicate NoNewline(s: string)
  {
    '\n' !in s
  }

  /** A text without newline is a single line. */
  lemma {:induction false} LinesOfOneLine(s: string)
    requires NoNewline(s)
    ensures Lines(s) == [s]
    decreases |s|
  {
    if |s| > 0 {
      assert NoNewline(s[1..]) by { assert forall k :: 0 <= k < |s| - 1 ==> s[1..][k] == s[k + 1]; }
      LinesOfOneLine(s[1..]);
      assert [s[0]] + s[1..] == s;
    }
  }

  /** A newline after a line that holds none splits off exactly that line. */
  lemma {:induction false} LinesOfPrefixLine(a: string, rest: string)
    requires NoNewline(a)
    ensures Lines(a + "\n" + rest) == [a] + Lines(rest)
    decreases |a|
  {
    if |a| == 0 {
      assert a + "\n" + rest == "\n" + rest;
      assert ("\n" + rest)[1..] == rest;
    } else {
      var s := a + "\n" + rest;
      assert s[0] == a[0] && s[0] != '\n';
      assert NoNewline(a[1..]) by { assert forall k :: 0 <= k < |a| - 1 ==> a[1..][k] == a[k + 1]; }
      assert s[1..] == a[1..] + "\n" + rest;
      LinesOfPrefixLine(a[1..], rest);
      assert [a[0]] + a[1..] == a;
    }
  }

  /** Splitting a newline-joined vector of newline-free lines gives the vector back. */
  lemma {:induction false} LinesOfJoin(lines: seq<string>)
    requires |lines| >= 1
    requires forall i :: 0 <= i < |lines| ==> NoNewline(lines[i])
    ensures Lines(Join(lines, "\n")) == lines
    decreases |lines|
  {
    if |lines| == 1 {
      LinesOfOneLine(lines[0]);
    } else {
      LinesOfJoin(lines[1..]);
      LinesOfPrefixLine(lines[0], Join(lines[1..], "\n"));
      assert [lines[0]] + lines[1..] == lines;
    }
  }

  /** Two newline-free lines joined by a newline split back into those two lines. */
  lemma LinesOfTwo(a: string, b: string)
    ensures NoNewline(a) && NoNewline(b) ==> Lines(a + "\n" + b) == [a, b]
  {
    if NoNewline(a) && NoNewline(b) {
      LinesOfPrefixLine(a, b);
      LinesOfOneLine(b);
    }
  }
}
