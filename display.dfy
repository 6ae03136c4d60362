/** Line wrapping and display-line accounting (the pure half of
    internal/session/scroll.go). A content line is cut greedily into chunks of
    `width - 1` columns; a display line is one such chunk. */
module Display {
  import opened Text

  function Concat(parts: seq<string>): string
  {
    if parts == [] then [] else parts[0] + Concat(parts[1..])
  }

  /** The chunks `wrapLine` produces for `line` on a terminal `width` columns wide. */
  function Wrap(line: string, width: int): (r: seq<string>)
    requires width >= 2
    ensures |r| >= 1
    decreases |line|
  {
    if |line| <= width - 1 then [line]
    else [line[..width - 1]] + Wrap(line[width - 1..], width)
  }

  /** Wrapping loses nothing: the chunks put back together are the line. */
  lemma {:induction false} WrapConcat(line: string, width: int)
    requires width >= 2
    ensures Concat(Wrap(line, width)) == line
    decreases |line|
  {
    if |line| > width - 1 {
      var rest := Wrap(line[width - 1..], width);
      WrapConcat(line[width - 1..], width);
      assert ([line[..width - 1]] + rest)[1..] == rest;
      assert line[..width - 1] + line[width - 1..] == line;
    }
  }

  /** The chunks are greedy: every chunk but the last is exactly `width - 1`
      long, the last is at most that long and is empty only for the empty line,
      and there is a single chunk exactly when the line fits. */
  lemma {:induction false} WrapChunks(line: string, width: int)
    requires width >= 2
    ensures var r := Wrap(line, width);
      && (forall i :: 0 <= i < |r| - 1 ==> |r[i]| == width - 1)
      && |r[|r| - 1]| <= width - 1
      && (line != [] ==> r[|r| - 1] != [])
      && (|r| == 1 <==> |line| <= width - 1)
    decreases |line|
  {
    if |line| > width - 1 {
      WrapChunks(line[width - 1..], width);
      var rest := Wrap(line[width - 1..], width);
      var r := [line[..width - 1]] + rest;
      assert Wrap(line, width) == r;
      assert forall i :: 1 <= i < |r| ==> r[i] == rest[i - 1];
    }
  }

  /** `getDisplayLineCount`: the number of display lines of content line `i`,
      zero for an index outside the content. */
  function DisplayLineCount(content: seq<string>, width: int, i: int): (n: nat)
    requires width >= 2
    ensures 0 <= i < |content| <==> n >= 1
  {
    if i < 0 || i >= |content| then 0 else |Wrap(content[i], width)|
  }

  /** `contentLineToDisplayLine`: the display lines taken by the content lines
      before `c` (only the ones that exist). */
  function DisplayOffset(content: seq<string>, width: int, c: int): nat
    requires width >= 2
    decreases c
  {
    if c <= 0 then 0
    else if c > |content| then DisplayOffset(content, width, |content|)
    else DisplayOffset(content, width, c - 1) + DisplayLineCount(content, width, c - 1)
  }

  /** `getTotalDisplayLines`: the sum of the display-line counts of all content lines. */
  function TotalDisplayLines(content: seq<string>, width: int): nat
    requires width >= 2
  {
    if content == [] then 0 else |Wrap(content[0], width)| + TotalDisplayLines(content[1..], width)
  }

  // ---------------------------------------------------------------------
  // The loops of scroll.go, proved against the functions above.

  /** `wrapLine` */
  method WrapLine(line: string, width: int) returns (wrapped: seq<string>)
    requires width >= 2
    ensures wrapped == Wrap(line, width)
  {
    if |line| <= width - 1 {
      return [line];
    }
    wrapped := [];
    var rest := line;
    while |rest| > 0
      invariant rest != []
      invariant wrapped + Wrap(rest, width) == Wrap(line, width)
      decreases |rest|
    {
      if |rest| <= width - 1 {
        assert Wrap(rest, width) == [rest];
        wrapped := wrapped + [rest];
        break;
      }
      assert Wrap(rest, width) == [rest[..width - 1]] + Wrap(rest[width - 1..], width);
      wrapped := wrapped + [rest[..width - 1]];
      rest := rest[width - 1..];
    }
  }

  /** `contentLineToDisplayLine` */
  method ContentLineToDisplayLine(content: seq<string>, width: int, contentLineIdx: int) returns (displayLine: nat)
    requires width >= 2
    ensures displayLine == DisplayOffset(content, width, contentLineIdx)
  {
    displayLine := 0;
    var i := 0;
    while i < contentLineIdx && i < |content|
      invariant 0 <= i <= |content|
      invariant i <= contentLineIdx || i == 0
      invariant displayLine == DisplayOffset(content, width, i)
    {
      var wrapped := WrapLine(content[i], width);
      assert DisplayOffset(content, width, i + 1) == DisplayOffset(content, width, i) + |wrapped|;
      displayLine := displayLine + |wrapped|;
      i := i + 1;
    }
  }

  /** `getTotalDisplayLines` */
  method GetTotalDisplayLines(content: seq<string>, width: int) returns (total: nat)
    requires width >= 2
    ensures total == TotalDisplayLines(content, width)
  {
    total := 0;
    for i := 0 to |content|
      invariant total == TotalDisplayLines(content[..i], width)
    {
      var wrapped := WrapLine(content[i], width);
      TotalAppend(content[..i], content[i], width);
      assert content[..i + 1] == content[..i] + [content[i]];
      total := total + |wrapped|;
    }
    assert content[..|content|] == content;
  }

  // ---------------------------------------------------------------------
  // Properties of the accounting

  lemma {:induction false} TotalAppend(s: seq<string>, x: string, width: int)
    requires width >= 2
    ensures TotalDisplayLines(s + [x], width) == TotalDisplayLines(s, width) + |Wrap(x, width)|
  {
    if s != [] {
      TotalAppend(s[1..], x, width);
      assert (s + [x])[1..] == s[1..] + [x];
    }
  }

  /** The offset of line `c` is the total of the lines before it. */
  lemma {:induction false} DisplayOffsetIsPrefixTotal(content: seq<string>, width: int, c: nat)
    requires width >= 2
    requires c <= |content|
    ensures DisplayOffset(content, width, c) == TotalDisplayLines(content[..c], width)
  {
    if c > 0 {
      DisplayOffsetIsPrefixTotal(content, width, c - 1);
      TotalAppend(content[..c - 1], content[c - 1], width);
      assert content[..c] == content[..c - 1] + [content[c - 1]];
    }
  }

  /** `contentLineToDisplayLine` starts at 0, and every index at or past the
      end of the content gives `getTotalDisplayLines`. */
  lemma DisplayOffsetEnds(content: seq<string>, width: int, c: int)
    requires width >= 2
    ensures DisplayOffset(content, width, 0) == 0
    ensures c >= |content| ==> DisplayOffset(content, width, c) == TotalDisplayLines(content, width)
  {
    DisplayOffsetIsPrefixTotal(content, width, |content|);
    assert content[..|content|] == content;
  }

  /** `contentLineToDisplayLine` is non-decreasing, and strictly increasing
      over the existing lines, since each of them takes at least one display line. */
  lemma {:induction false} DisplayOffsetMonotone(content: seq<string>, width: int, a: int, b: int)
    requires width >= 2
    requires a <= b
    ensures DisplayOffset(content, width, a) <= DisplayOffset(content, width, b)
    ensures 0 <= a < b <= |content| ==> DisplayOffset(content, width, a) < DisplayOffset(content, width, b)
    decreases b - a
  {
    if a < b {
      if b > |content| {
        if a <= |content| {
          DisplayOffsetMonotone(content, width, a, |content|);
        }
      } else if b > 0 {
        DisplayOffsetMonotone(content, width, a, b - 1);
      }
    }
  }

  /** An existing content line starts before the total and ends within it. */
  lemma DisplayOffsetInRange(content: seq<string>, width: int, c: int)
    requires width >= 2
    requires 0 <= c < |content|
    ensures DisplayOffset(content, width, c) + DisplayLineCount(content, width, c) <= TotalDisplayLines(content, width)
    ensures DisplayOffset(content, width, c) < TotalDisplayLines(content, width)
  {
    DisplayOffsetMonotone(content, width, c + 1, |content|);
    DisplayOffsetEnds(content, width, |content|);
  }

  /** A line that fits, the empty line included, is one display line. */
  lemma ShortLineOneChunk(line: string, width: int)
    requires width >= 2
    requires |line| <= width - 1
    ensures Wrap(line, width) == [line]
  {
  }
}
