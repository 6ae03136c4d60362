/** What the renderer of internal/session/render.go puts on the terminal,
    as functions of the session's state: the status line with its progress
    indicator, the window of display rows with their highlighting, and the
    rows a partial redraw repaints. */
module Screen {
  import opened Text
  import opened Display

  /** How a row is drawn: plain, bold (a header) or reverse video (the
      selected link). */
  datatype Style = Plain | Bold | Reverse

  /** One display row: a chunk of a content line and its style. */
  datatype Row = Row(text: string, style: Style)

  /** A row repainted in place: the terminal row (1-based) and what is drawn there. */
  datatype Paint = Paint(row: int, r: Row)

  /** Selection takes precedence over header highlighting. */
  function Highlight(isSelected: bool, isHeader: bool): Style
  {
    if isSelected then Reverse else if isHeader then Bold else Plain
  }

  /** The style of content line `i`. */
  function LineStyle(selectedLine: int, headers: set<int>, i: int): Style
  {
    Highlight(i == selectedLine, i in headers)
  }

  function Styled(chunks: seq<string>, st: Style): (r: seq<Row>)
    ensures |r| == |chunks|
    ensures forall j :: 0 <= j < |r| ==> r[j] == Row(chunks[j], st)
  {
    seq(|chunks|, j requires 0 <= j < |chunks| => Row(chunks[j], st))
  }

  /** The display rows of content lines `0 .. c-1`, in order. */
  function RowsUpTo(content: seq<string>, width: int, headers: set<int>, selectedLine: int, c: nat): seq<Row>
    requires width >= 2 && c <= |content|
  {
    if c == 0 then []
    else RowsUpTo(content, width, headers, selectedLine, c - 1)
         + Styled(Wrap(content[c - 1], width), LineStyle(selectedLine, headers, c - 1))
  }

  /** All display rows of the page. */
  function AllRows(content: seq<string>, width: int, headers: set<int>, selectedLine: int): seq<Row>
    requires width >= 2
  {
    RowsUpTo(content, width, headers, selectedLine, |content|)
  }

  /** At most `n` rows starting at index `scroll`. */
  function Window(rows: seq<Row>, scroll: int, n: int): (w: seq<Row>)
    ensures |w| <= Max(n, 0)
    ensures scroll >= 0 ==> |w| == Max(0, Min(n, |rows| - scroll))
    ensures scroll >= 0 ==> forall k :: 0 <= k < |w| ==> scroll + k < |rows| && w[k] == rows[scroll + k]
  {
    var start := Max(scroll, 0);
    if start >= |rows| || n <= 0 then [] else rows[start..Min(|rows|, start + n)]
  }

  // ---------------------------------------------------------------------
  // What is written for rows

  function StyleOn(st: Style): seq<string>
  {
    match st
    case Plain => []
    case Bold => ["\U{1B}[1m"]
    case Reverse => ["\U{1B}[7m"]
  }

  function StyleOff(st: Style): seq<string>
  {
    if st == Plain then [] else ["\U{1B}[0m"]
  }

  /** One row of a full render: the style, the text, the reset, the line end. */
  function RowWrites(r: Row): seq<string>
  {
    StyleOn(r.style) + [r.text] + StyleOff(r.style) + ["\r\n"]
  }

  function RowsWrites(rows: seq<Row>): seq<string>
  {
    if rows == [] then [] else RowsWrites(rows[..|rows| - 1]) + RowWrites(rows[|rows| - 1])
  }

  /** One repainted row: move the cursor, clear the line, the styled text. */
  function PaintWrites(p: Paint): seq<string>
  {
    ["\U{1B}[" + IntToString(p.row) + ";1H", "\U{1B}[K"] + StyleOn(p.r.style) + [p.r.text] + StyleOff(p.r.style)
  }

  function PaintsWrites(ps: seq<Paint>): seq<string>
  {
    if ps == [] then [] else PaintsWrites(ps[..|ps| - 1]) + PaintWrites(ps[|ps| - 1])
  }

  const Clear: string := "\U{1B}[2J\U{1B}[H"
  const NoPage: string := "No page loaded. Press 'g' to enter a URL.\r\n"

  /** A full render: clear the screen, the status line, a rule of dashes,
      then either the no-page notice or the rows on screen. */
  function Frame(status: string, content: seq<string>, width: int, headers: set<int>, selectedLine: int,
                 scroll: int, rows: int): seq<string>
    requires width >= 2
  {
    [Clear, status, "\r\n", Repeat('-', width), "\r\n"]
    + (if content == [] then [NoPage]
       else RowsWrites(Window(AllRows(content, width, headers, selectedLine), scroll, rows)))
  }

  // ---------------------------------------------------------------------
  // The status line

  /** The progress line number: the last line on screen, capped at the total
      and raised to at least 1. */
  function ProgressLine(scroll: int, rows: int, total: nat): (cur: int)
    ensures cur >= 1
    ensures total > 0 ==> cur <= total
    ensures 1 <= scroll + rows <= total ==> cur == scroll + rows
    ensures scroll + rows >= total >= 1 ==> cur == total
  {
    var c := scroll + rows;
    var c1 := if c > total then total else c;
    if c1 < 1 then 1 else c1
  }

  /** The percentage read so far: 0 for an empty page, else `cur*100/total`
      (a non-negative division) capped at 100. */
  function Percent(cur: int, total: nat): (pct: int)
    requires cur >= 0
    ensures 0 <= pct <= 100
    ensures total == 0 ==> pct == 0
    ensures total > 0 && cur >= total ==> pct == 100
    ensures total > 0 && pct < 100 ==> pct * total <= cur * 100 < (pct + 1) * total
  {
    if total == 0 then 0
    else
      var q := cur * 100 / total;
      if q > 100 then 100 else q
  }

  /** `[cur/total] pct%`, the percentage right-aligned in three columns. */
  function ProgressText(cur: int, total: nat, pct: int): string
  {
    "[" + IntToString(cur) + "/" + IntToString(total) + "] " + PadLeft3(IntToString(pct)) + "%"
  }

  /** The URL, cut to what fits beside the progress text (at least ten
      columns), then at least one space, then the progress text. */
  function UrlAndProgress(url: string, width: int, progress: string): (s: string)
    ensures var k := Min(|url|, Max(10, width - |progress| - 1));
      var pad := Max(1, width - k - |progress|);
      && |s| == k + pad + |progress|
      && s[..k] == url[..k]
      && (forall i :: k <= i < k + pad ==> s[i] == ' ')
      && s[k + pad..] == progress
  {
    var maxLen := Max(10, width - |progress| - 1);
    var u := if |url| > maxLen then url[..maxLen] else url;
    u + Repeat(' ', Max(1, width - |u| - |progress|)) + progress
  }

  /** The status line of `render`: "gemnet" when no page is shown, else the
      URL with the progress indicator. */
  function StatusLine(url: string, scroll: int, rows: int, total: nat, width: int): string
  {
    if url == [] then "gemnet"
    else
      var cur := ProgressLine(scroll, rows, total);
      UrlAndProgress(url, width, ProgressText(cur, total, Percent(cur, total)))
  }

  /** The status line of the older `render` of session.go: the URL cut to
      `width - 1` columns, or "gemnet". */
  function LegacyStatusLine(url: string, width: int): (s: string)
    requires width >= 1
    ensures url == [] ==> s == "gemnet"
    ensures url != [] ==> s == url[..Min(|url|, width - 1)]
  {
    if url == [] then "gemnet"
    else if |url| > width - 1 then url[..width - 1] else url
  }

  // ---------------------------------------------------------------------
  // The partial redraw

  /** What `renderContentLine` repaints for content line `c`: nothing when the
      line is not in the content or its first display line is off screen;
      otherwise its chunks from terminal row `displayLine - scroll + 3` on, as
      many as fit above the bottom of the window. */
  function Repaint(content: seq<string>, width: int, headers: set<int>, selectedLine: int,
                   c: int, scroll: int, rows: int): seq<Paint>
    requires width >= 2
  {
    if c < 0 || c >= |content| then []
    else
      var d := DisplayOffset(content, width, c);
      if d < scroll || d >= scroll + rows then []
      else
        var chunks := Wrap(content[c], width);
        Painted(chunks, d - scroll + 3, Min(|chunks|, scroll + rows - d), LineStyle(selectedLine, headers, c))
  }

  /** The repainted rows of a line whose first display row `d` is on screen. */
  lemma RepaintOnScreen(content: seq<string>, width: int, headers: set<int>, selectedLine: int,
                        c: int, scroll: int, rows: int, d: int, chunks: seq<string>, row0: int, n: nat, st: Style)
    requires width >= 2 && 0 <= c < |content|
    requires d == DisplayOffset(content, width, c) && scroll <= d < scroll + rows
    requires chunks == Wrap(content[c], width) && row0 == d - scroll + 3
    requires n == Min(|chunks|, scroll + rows - d) && st == LineStyle(selectedLine, headers, c)
    ensures Repaint(content, width, headers, selectedLine, c, scroll, rows) == Painted(chunks, row0, n, st)
  {
  }

  /** The first `n` chunks of a line painted in one style on consecutive
      terminal rows from `row0` down. */
  function Painted(chunks: seq<string>, row0: int, n: nat, st: Style): (ps: seq<Paint>)
    requires n <= |chunks|
    ensures |ps| == n
  {
    if n == 0 then [] else Painted(chunks, row0, n - 1, st) + [Paint(row0 + n - 1, Row(chunks[n - 1], st))]
  }

  // ---------------------------------------------------------------------
  // Properties

  /** The rows of lines `0 .. c-1` are the lines' chunks in order: line `i`
      starts at its display offset, with its own style. */
  lemma {:induction false} RowsUpToAt(content: seq<string>, width: int, headers: set<int>, selectedLine: int,
                                      c: nat, i: nat, j: nat)
    requires width >= 2 && c <= |content|
    requires i < c && j < |Wrap(content[i], width)|
    ensures DisplayOffset(content, width, i) + j < DisplayOffset(content, width, c)
    ensures |RowsUpTo(content, width, headers, selectedLine, c)| == DisplayOffset(content, width, c)
    ensures RowsUpTo(content, width, headers, selectedLine, c)[DisplayOffset(content, width, i) + j]
         == Row(Wrap(content[i], width)[j], LineStyle(selectedLine, headers, i))
  {
    var prev := RowsUpTo(content, width, headers, selectedLine, c - 1);
    var last := Styled(Wrap(content[c - 1], width), LineStyle(selectedLine, headers, c - 1));
    var rows := RowsUpTo(content, width, headers, selectedLine, c);
    assert rows == prev + last;
    RowsUpToLength(content, width, headers, selectedLine, c - 1);
    var dPrev := DisplayOffset(content, width, c - 1);
    assert DisplayOffset(content, width, c) == dPrev + |last|;
    if i < c - 1 {
      RowsUpToAt(content, width, headers, selectedLine, c - 1, i, j);
      assert rows[DisplayOffset(content, width, i) + j] == prev[DisplayOffset(content, width, i) + j];
    } else {
      assert rows[dPrev + j] == last[j];
    }
  }

  /** Display row `DisplayOffset(c) + j` of the page is chunk `j` of
      content line `c`, in that line's style. */
  lemma AllRowsAt(content: seq<string>, width: int, headers: set<int>, selectedLine: int,
                  c: nat, j: nat, k: int, text: string, st: Style)
    requires width >= 2 && c < |content| && j < |Wrap(content[c], width)|
    requires k == DisplayOffset(content, width, c) + j
    requires text == Wrap(content[c], width)[j] && st == LineStyle(selectedLine, headers, c)
    ensures 0 <= k < |AllRows(content, width, headers, selectedLine)|
    ensures AllRows(content, width, headers, selectedLine)[k] == Row(text, st)
  {
    RowsUpToAt(content, width, headers, selectedLine, |content|, c, j);
    var all := RowsUpTo(content, width, headers, selectedLine, |content|);
    assert AllRows(content, width, headers, selectedLine) == all;
    assert all[k] == Row(Wrap(content[c], width)[j], LineStyle(selectedLine, headers, c));
  }

  /** The chunks of content line `c` are consecutive rows of the page,
      from the line's display offset on, all in the line's style. */
  lemma LineRows(content: seq<string>, width: int, headers: set<int>, selectedLine: int, c: nat)
    requires width >= 2 && c < |content|
    ensures DisplayOffset(content, width, c) + |Wrap(content[c], width)| <= |AllRows(content, width, headers, selectedLine)|
    ensures forall j :: 0 <= j < |Wrap(content[c], width)| ==>
      AllRows(content, width, headers, selectedLine)[DisplayOffset(content, width, c) + j]
        == Row(Wrap(content[c], width)[j], LineStyle(selectedLine, headers, c))
  {
    LinePrefix(content, width, headers, selectedLine, c);
    StyledInside(AllRows(content, width, headers, selectedLine), DisplayOffset(content, width, c),
                 RowsUpTo(content, width, headers, selectedLine, c), RowsUpTo(content, width, headers, selectedLine, c + 1),
                 Wrap(content[c], width), LineStyle(selectedLine, headers, c));
  }

  /** The rows of the whole page begin with the rows of its first `c + 1`
      lines, which are those of the first `c` lines and then line `c`. */
  lemma LinePrefix(content: seq<string>, width: int, headers: set<int>, selectedLine: int, c: nat)
    requires width >= 2 && c < |content|
    ensures DisplayOffset(content, width, c) == |RowsUpTo(content, width, headers, selectedLine, c)|
    ensures |RowsUpTo(content, width, headers, selectedLine, c + 1)| <= |AllRows(content, width, headers, selectedLine)|
    ensures AllRows(content, width, headers, selectedLine)[..|RowsUpTo(content, width, headers, selectedLine, c + 1)|]
              == RowsUpTo(content, width, headers, selectedLine, c + 1)
    ensures RowsUpTo(content, width, headers, selectedLine, c + 1)
              == RowsUpTo(content, width, headers, selectedLine, c) + Styled(Wrap(content[c], width), LineStyle(selectedLine, headers, c))
  {
    RowsUpToPrefix(content, width, headers, selectedLine, c + 1, |content|);
    RowsUpToLength(content, width, headers, selectedLine, c);
  }

  /** Display row `j` of content line `c` shows chunk `j` of that line, in
      reverse video exactly when `c` is the selected link's line, bold
      exactly when it is a header line that is not selected, and plain
      otherwise. */
  lemma LineRowStyle(content: seq<string>, width: int, headers: set<int>, selectedLine: int, c: nat, j: int)
    requires width >= 2 && c < |content| && 0 <= j < |Wrap(content[c], width)|
    ensures DisplayOffset(content, width, c) + j < |AllRows(content, width, headers, selectedLine)|
    ensures var row := AllRows(content, width, headers, selectedLine)[DisplayOffset(content, width, c) + j];
      && row.text == Wrap(content[c], width)[j]
      && (row.style == Reverse <==> c == selectedLine)
      && (row.style == Bold <==> c != selectedLine && c in headers)
      && (row.style == Plain <==> c != selectedLine && c !in headers)
  {
    LineRows(content, width, headers, selectedLine, c);
  }

  /** Rows that begin with `before` and then a styled run of `chunks` hold
      chunk `j` at index `d + j`, where `d` is the length of `before`. */
  lemma StyledInside(all: seq<Row>, d: int, before: seq<Row>, upTo: seq<Row>, chunks: seq<string>, st: Style)
    requires d == |before| && |upTo| <= |all| && all[..|upTo|] == upTo && upTo == before + Styled(chunks, st)
    ensures d + |chunks| <= |all|
    ensures forall j :: 0 <= j < |chunks| ==> all[d + j] == Row(chunks[j], st)
  {
    forall j | 0 <= j < |chunks|
      ensures all[d + j] == Row(chunks[j], st)
    {
      assert all[d + j] == upTo[d + j];
    }
  }

  /** The rows of the first `c` content lines begin the rows of the first `n`. */
  lemma {:induction false} RowsUpToPrefix(content: seq<string>, width: int, headers: set<int>, selectedLine: int,
                                          c: nat, n: nat)
    requires width >= 2 && c <= n <= |content|
    ensures |RowsUpTo(content, width, headers, selectedLine, c)| <= |RowsUpTo(content, width, headers, selectedLine, n)|
    ensures RowsUpTo(content, width, headers, selectedLine, n)[..|RowsUpTo(content, width, headers, selectedLine, c)|]
         == RowsUpTo(content, width, headers, selectedLine, c)
    decreases n
  {
    if n > c {
      RowsUpToPrefix(content, width, headers, selectedLine, c, n - 1);
      var prev := RowsUpTo(content, width, headers, selectedLine, n - 1);
      var rows := RowsUpTo(content, width, headers, selectedLine, n);
      var m := |RowsUpTo(content, width, headers, selectedLine, c)|;
      assert rows == prev + Styled(Wrap(content[n - 1], width), LineStyle(selectedLine, headers, n - 1));
      assert rows[..m] == prev[..m];
    }
  }

  lemma {:induction false} RowsUpToLength(content: seq<string>, width: int, headers: set<int>, selectedLine: int, c: nat)
    requires width >= 2 && c <= |content|
    ensures |RowsUpTo(content, width, headers, selectedLine, c)| == DisplayOffset(content, width, c)
  {
    if c > 0 {
      RowsUpToLength(content, width, headers, selectedLine, c - 1);
    }
  }

  /** The page has as many rows as `getTotalDisplayLines` counts. */
  lemma AllRowsLength(content: seq<string>, width: int, headers: set<int>, selectedLine: int)
    requires width >= 2
    ensures |AllRows(content, width, headers, selectedLine)| == TotalDisplayLines(content, width)
  {
    RowsUpToLength(content, width, headers, selectedLine, |content|);
    DisplayOffsetEnds(content, width, |content|);
  }

  /** A partial redraw agrees with a full render: every row it repaints lies
      in the content area (terminal rows `3 .. rows+2`) and shows exactly the
      row a full render shows there. */
  lemma RepaintAgrees(content: seq<string>, width: int, headers: set<int>, selectedLine: int,
                      c: int, scroll: int, rows: int)
    requires width >= 2 && scroll >= 0
    ensures var ps := Repaint(content, width, headers, selectedLine, c, scroll, rows);
      var screen := Window(AllRows(content, width, headers, selectedLine), scroll, rows);
      forall k :: 0 <= k < |ps| ==>
        3 <= ps[k].row < 3 + rows && ps[k].row - 3 < |screen| && screen[ps[k].row - 3] == ps[k].r
  {
    var ps := Repaint(content, width, headers, selectedLine, c, scroll, rows);
    forall k | 0 <= k < |ps|
      ensures var screen := Window(AllRows(content, width, headers, selectedLine), scroll, rows);
        3 <= ps[k].row < 3 + rows && ps[k].row - 3 < |screen| && screen[ps[k].row - 3] == ps[k].r
    {
      RepaintRowAgrees(content, width, headers, selectedLine, c, scroll, rows, k);
    }
  }

  lemma RepaintRowAgrees(content: seq<string>, width: int, headers: set<int>, selectedLine: int,
                         c: int, scroll: int, rows: int, k: nat)
    requires width >= 2 && scroll >= 0
    requires k < |Repaint(content, width, headers, selectedLine, c, scroll, rows)|
    ensures var p := Repaint(content, width, headers, selectedLine, c, scroll, rows)[k];
      var screen := Window(AllRows(content, width, headers, selectedLine), scroll, rows);
      3 <= p.row < 3 + rows && p.row - 3 < |screen| && screen[p.row - 3] == p.r
  {
    var d := DisplayOffset(content, width, c);
    var chunks := Wrap(content[c], width);
    var st := LineStyle(selectedLine, headers, c);
    var n := Min(|chunks|, scroll + rows - d);
    RepaintOnScreen(content, width, headers, selectedLine, c, scroll, rows, d, chunks, d - scroll + 3, n, st);
    PaintedRowAgrees(content, width, headers, selectedLine, c, scroll, rows, d, chunks, n, st, k);
  }

  /** The same, for the chunks of a line whose first display row `d` is on
      screen. */
  lemma PaintedRowAgrees(content: seq<string>, width: int, headers: set<int>, selectedLine: int,
                         c: nat, scroll: int, rows: int, d: int, chunks: seq<string>, n: nat, st: Style, k: nat)
    requires width >= 2 && 0 <= scroll && c < |content|
    requires d == DisplayOffset(content, width, c) && scroll <= d < scroll + rows
    requires chunks == Wrap(content[c], width) && n == Min(|chunks|, scroll + rows - d)
    requires st == LineStyle(selectedLine, headers, c) && k < n
    ensures var p := Painted(chunks, d - scroll + 3, n, st)[k];
      var screen := Window(AllRows(content, width, headers, selectedLine), scroll, rows);
      3 <= p.row < 3 + rows && p.row - 3 < |screen| && screen[p.row - 3] == p.r
  {
    PaintedAt(chunks, d - scroll + 3, n, st, k);
    AllRowsAt(content, width, headers, selectedLine, c, k, d + k, chunks[k], st);
    WindowAt(AllRows(content, width, headers, selectedLine), scroll, rows, d - scroll + k);
  }

  /** A full render, split where the header ends. */
  lemma FrameAfter(before: seq<string>, status: string, content: seq<string>, width: int, headers: set<int>,
                   selectedLine: int, scroll: int, rows: int)
    requires width >= 2
    ensures before + Frame(status, content, width, headers, selectedLine, scroll, rows)
         == before + [Clear, status, "\r\n", Repeat('-', width), "\r\n"]
            + (if content == [] then [NoPage]
               else RowsWrites(Window(AllRows(content, width, headers, selectedLine), scroll, rows)))
  {
  }

  /** The output after `before`, once a render has written the first `n`
      rows of the window one at a time, stopping at the end of the page. */
  function WindowWritten(before: seq<string>, rows: seq<Row>, scroll: nat, n: nat): seq<string>
  {
    if n == 0 then before
    else if scroll + n - 1 >= |rows| then WindowWritten(before, rows, scroll, n - 1)
    else WindowWritten(before, rows, scroll, n - 1) + RowWrites(rows[scroll + n - 1])
  }

  /** Writing the next row of the page extends the output by that row. */
  lemma WindowWrittenNext(before: seq<string>, rows: seq<Row>, scroll: nat, n: nat, k: int, text: string, st: Style)
    requires k == scroll + n && k < |rows| && rows[k] == Row(text, st)
    ensures WindowWritten(before, rows, scroll, n + 1) == WindowWritten(before, rows, scroll, n) + RowWrites(Row(text, st))
  {
  }

  /** Writing the window row by row writes exactly the rows of the window. */
  lemma {:induction false} WindowWrittenRows(before: seq<string>, rows: seq<Row>, scroll: nat, n: nat)
    ensures WindowWritten(before, rows, scroll, n) == before + RowsWrites(Window(rows, scroll, n))
    decreases n
  {
    if n == 0 {
      assert Window(rows, scroll, n) == [];
      assert before + [] == before;
    } else {
      WindowWrittenRows(before, rows, scroll, n - 1);
      if scroll + n - 1 >= |rows| {
        WindowWrittenPastEnd(before, rows, scroll, n);
      } else {
        WindowWrittenOneMore(before, rows, scroll, n);
      }
    }
  }

  /** Past the end of the page, a further window row writes nothing. */
  lemma WindowWrittenPastEnd(before: seq<string>, rows: seq<Row>, scroll: nat, n: nat)
    requires 0 < n && scroll + n - 1 >= |rows|
    requires WindowWritten(before, rows, scroll, n - 1) == before + RowsWrites(Window(rows, scroll, n - 1))
    ensures WindowWritten(before, rows, scroll, n) == before + RowsWrites(Window(rows, scroll, n))
  {
    WindowToEnd(rows, scroll, n - 1, n);
  }

  /** Within the page, a further window row writes that row. */
  lemma WindowWrittenOneMore(before: seq<string>, rows: seq<Row>, scroll: nat, n: nat)
    requires 0 < n && scroll + n - 1 < |rows|
    requires WindowWritten(before, rows, scroll, n - 1) == before + RowsWrites(Window(rows, scroll, n - 1))
    ensures WindowWritten(before, rows, scroll, n) == before + RowsWrites(Window(rows, scroll, n))
  {
    WindowExtend(rows, scroll, n - 1);
    RowsWritesExtend(before, Window(rows, scroll, n - 1), rows[scroll + n - 1], Window(rows, scroll, n));
  }

  /** Output followed by the writes of rows `w` and then of row `r` is that
      output followed by the writes of `w + [r]`. */
  lemma RowsWritesExtend(before: seq<string>, w: seq<Row>, r: Row, ext: seq<Row>)
    requires ext == w + [r]
    ensures before + RowsWrites(w) + RowWrites(r) == before + RowsWrites(ext)
  {
    RowsWritesAppend(w, r);
    Regroup(before, RowsWrites(w), RowWrites(r));
  }

  /** One more row of the window, while the page has it. */
  lemma WindowExtend(rows: seq<Row>, scroll: int, n: int)
    requires 0 <= scroll && 0 <= n && scroll + n < |rows|
    ensures Window(rows, scroll, n + 1) == Window(rows, scroll, n) + [rows[scroll + n]]
  {
  }

  /** Row `i` of a window is row `scroll + i` of the page, while both exist. */
  lemma WindowAt(rows: seq<Row>, scroll: int, n: int, i: int)
    requires 0 <= scroll && 0 <= i < n && scroll + i < |rows|
    ensures i < |Window(rows, scroll, n)| && Window(rows, scroll, n)[i] == rows[scroll + i]
  {
  }

  /** A window that stops at the end of the page is the whole window. */
  lemma WindowToEnd(rows: seq<Row>, scroll: int, n: int, m: int)
    requires 0 <= scroll && 0 <= n <= m && (n == m || scroll + n >= |rows|)
    ensures Window(rows, scroll, n) == Window(rows, scroll, m)
  {
  }

  lemma RowsWritesAppend(rows: seq<Row>, r: Row)
    ensures RowsWrites(rows + [r]) == RowsWrites(rows) + RowWrites(r)
  {
    assert (rows + [r])[..|rows|] == rows;
  }

  /** Painting one more chunk writes one more repainted row. */
  lemma PaintedStep(before: seq<string>, chunks: seq<string>, row0: int, n: nat, st: Style)
    requires n < |chunks|
    ensures before + PaintsWrites(Painted(chunks, row0, n + 1, st))
         == before + PaintsWrites(Painted(chunks, row0, n, st)) + PaintWrites(Paint(row0 + n, Row(chunks[n], st)))
  {
    var ps := Painted(chunks, row0, n + 1, st);
    var first := Painted(chunks, row0, n, st);
    var last := Paint(row0 + n, Row(chunks[n], st));
    assert ps == first + [last];
    assert ps[..n] == first;
    assert PaintsWrites(ps) == PaintsWrites(first) + PaintWrites(last);
    Regroup(before, PaintsWrites(first), PaintWrites(last));
  }

  /** Chunk `k` is painted on row `row0 + k`. */
  lemma {:induction false} PaintedAt(chunks: seq<string>, row0: int, n: nat, st: Style, k: nat)
    requires n <= |chunks| && k < n
    ensures Painted(chunks, row0, n, st)[k] == Paint(row0 + k, Row(chunks[k], st))
  {
    if k < n - 1 {
      PaintedAt(chunks, row0, n - 1, st, k);
    }
  }

  /** The status line fills the terminal width exactly whenever the progress
      text leaves at least ten columns for the URL; the URL is cut only when
      it does not fit, and the progress text is right-aligned. */
  lemma StatusLineLayout(url: string, width: int, progress: string)
    requires width >= |progress| + 11
    ensures var s := UrlAndProgress(url, width, progress);
      && |s| == width
      && s[width - |progress|..] == progress
      && (|url| + |progress| + 1 <= width ==> s[..|url|] == url)
      && (|url| + |progress| + 1 > width ==> s[..width - |progress| - 1] == url[..width - |progress| - 1])
  {
    var maxLen := width - |progress| - 1;
    var u := if |url| > maxLen then url[..maxLen] else url;
    var s := UrlAndProgress(url, width, progress);
    assert s == u + Repeat(' ', width - |u| - |progress|) + progress;
    assert s[..|u|] == u;
  }

  /** The percentage agrees with the progress line: 100 once the last line is
      on screen, and below 100 while it is not. */
  lemma PercentAtEnd(scroll: int, rows: int, total: nat)
    requires total >= 1
    ensures var cur := ProgressLine(scroll, rows, total);
      (Percent(cur, total) == 100 <==> cur == total)
  {
    var cur := ProgressLine(scroll, rows, total);
    if cur < total {
      assert cur * 100 < total * 100;
      assert cur * 100 / total < 100;
    }
  }
}
