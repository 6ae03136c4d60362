/** The document model and the specification of `parseContent`
    (internal/session/navigation.go, and its copy in session.go). */
module Document {
  import opened Text

  /** `Link`: its position among the page's links, its target, its label and
      the content line that shows it. */
  datatype Link = Link(index: int, url: string, text: string, line: int)

  /** The three things `parseContent` rebuilds: the content lines, the set of
      header line numbers (the Go map) and the link table. */
  datatype Doc = Doc(content: seq<string>, headers: set<int>, links: seq<Link>)

  datatype LinkParts = LinkParts(url: string, text: string)

  predicate IsHeaderLine(line: string)
  {
    HasPrefix(line, "#")
  }

  /** The tokens after the `=>` marker of a link line. */
  function LinkTokens(line: string): seq<string>
    requires HasPrefix(line, "=>")
  {
    Fields(TrimSpace(line[2..]))
  }

  /** The URL and label of a `=>` line: the first token is the URL, the label
      is the other tokens joined by single spaces, or the URL when there are none. */
  function SplitLink(line: string): Option<LinkParts>
    requires HasPrefix(line, "=>")
  {
    var parts := LinkTokens(line);
    if |parts| == 0 then None
    else Some(LinkParts(parts[0], if |parts| > 1 then JoinSpace(parts[1..]) else parts[0]))
  }

  /** A `=>` line is a link exactly when something other than white space
      follows the marker; its URL is then a non-empty run of non-space
      characters. */
  lemma SplitLinkSpec(line: string)
    requires HasPrefix(line, "=>")
    ensures SplitLink(line).Some? <==> TrimSpace(line[2..]) != []
    ensures SplitLink(line).Some? ==> IsToken(SplitLink(line).value.url)
  {
    var t := TrimSpace(line[2..]);
    FieldsEmpty(t);
    if t != [] {
      assert !IsSpace(t[|t| - 1]);
      FirstFieldIsToken(t);
    }
  }

  /** A line that becomes a link: it starts with `=>` (and not `#`) and has at least one token. */
  predicate IsLinkLine(line: string)
  {
    !IsHeaderLine(line) && HasPrefix(line, "=>") && SplitLink(line).Some?
  }

  /** The text a link line is displayed as: `[k] label`. */
  function LinkDisplay(k: nat, text: string): string
  {
    "[" + NatToString(k) + "] " + text
  }

  /** One iteration of the loop of `parseContent`, on a line whose trailing
      carriage returns are already removed. */
  function AddLine(d: Doc, line: string): Doc
  {
    if IsHeaderLine(line) then
      Doc(d.content + [line], d.headers + {|d.content|}, d.links)
    else if IsLinkLine(line) then
      var parts := SplitLink(line).value;
      var k := |d.links|;
      Doc(d.content + [LinkDisplay(k, parts.text)], d.headers,
          d.links + [Link(k, parts.url, parts.text, |d.content|)])
    else
      Doc(d.content + [line], d.headers, d.links)
  }

  /** The document built from the newline-separated pieces of the body. */
  function ParseLines(lines: seq<string>): Doc
  {
    if lines == [] then Doc([], {}, [])
    else AddLine(ParseLines(lines[..|lines| - 1]), TrimTrailingCR(lines[|lines| - 1]))
  }

  /** The link table agrees with the content: link `k` has index `k`, sits on
      an existing content line that shows `[k] label`, and the link lines
      increase strictly; header numbers are existing lines. */
  ghost predicate WellFormed(d: Doc)
  {
    && (forall k :: 0 <= k < |d.links| ==>
          d.links[k].index == k && 0 <= d.links[k].line < |d.content|
          && d.content[d.links[k].line] == LinkDisplay(k, d.links[k].text))
    && (forall k, j :: 0 <= k < j < |d.links| ==> d.links[k].line < d.links[j].line)
    && (forall i :: i in d.headers ==> 0 <= i < |d.content|)
  }

  /** Every link table produced by the parser sits on lines of its content. */
  predicate LinksInRange(content: seq<string>, links: seq<Link>)
  {
    forall k :: 0 <= k < |links| ==> 0 <= links[k].line < |content|
  }

  lemma {:induction false} AddLineWellFormed(d: Doc, line: string)
    requires WellFormed(d)
    ensures WellFormed(AddLine(d, line))
  {
    var e := AddLine(d, line);
    if IsLinkLine(line) {
      var parts := SplitLink(line).value;
      assert e == Doc(d.content + [LinkDisplay(|d.links|, parts.text)], d.headers,
                      d.links + [Link(|d.links|, parts.url, parts.text, |d.content|)]);
      NewLinkWellFormed(d, e, Link(|d.links|, parts.url, parts.text, |d.content|));
    } else {
      assert e.content == d.content + [line] && e.links == d.links;
      SameLinksWellFormed(d, e);
    }
  }

  /** Appending a line that is not a link keeps the document well formed. */
  lemma SameLinksWellFormed(d: Doc, e: Doc)
    requires WellFormed(d)
    requires e.links == d.links && |e.content| == |d.content| + 1 && e.content[..|d.content|] == d.content
    requires e.headers <= d.headers + {|d.content|}
    ensures WellFormed(e)
  {
    forall k | 0 <= k < |e.links|
      ensures e.content[e.links[k].line] == LinkDisplay(k, e.links[k].text)
    {
      assert e.content[d.links[k].line] == e.content[..|d.content|][d.links[k].line];
    }
  }

  /** Appending a link line, with the next link number and the new line's
      number, keeps the document well formed. */
  lemma NewLinkWellFormed(d: Doc, e: Doc, l: Link)
    requires WellFormed(d)
    requires l.index == |d.links| && l.line == |d.content|
    requires e == Doc(d.content + [LinkDisplay(|d.links|, l.text)], d.headers, d.links + [l])
    ensures WellFormed(e)
  {
    forall k | 0 <= k < |e.links|
      ensures e.links[k].index == k && 0 <= e.links[k].line < |e.content|
      ensures e.content[e.links[k].line] == LinkDisplay(k, e.links[k].text)
    {
      if k < |d.links| {
        assert e.links[k] == d.links[k];
      }
    }
    forall k, j | 0 <= k < j < |e.links|
      ensures e.links[k].line < e.links[j].line
    {
      if j < |d.links| {
        assert e.links[k] == d.links[k] && e.links[j] == d.links[j];
      } else {
        assert e.links[k] == d.links[k];
      }
    }
  }

  /** What one step of the loop adds, and that it keeps what was there. */
  lemma AddLineStep(d: Doc, line: string)
    ensures var e := AddLine(d, line);
      && |e.content| == |d.content| + 1 && e.content[..|d.content|] == d.content
      && e.headers == d.headers + (if IsHeaderLine(line) then {|d.content|} else {})
      && (!IsLinkLine(line) ==> e.content[|d.content|] == line && e.links == d.links)
      && (IsLinkLine(line) ==>
            e.links == d.links + [Link(|d.links|, SplitLink(line).value.url, SplitLink(line).value.text, |d.content|)])
  {
  }

  /** Every line adds one content line after the ones already there. */
  lemma AddLineExtends(d: Doc, line: string)
    ensures var e := AddLine(d, line);
      |e.content| == |d.content| + 1 && e.content[..|d.content|] == d.content
  {
  }

  /** A line that is not a link line is shown as it is. */
  lemma AddLineVerbatim(d: Doc, line: string)
    requires !IsLinkLine(line)
    ensures AddLine(d, line).content == d.content + [line]
  {
  }

  /** A `#` line is a header: appended as it is, its number recorded. */
  lemma AddHeaderLine(d: Doc, line: string)
    requires HasPrefix(line, "#")
    ensures AddLine(d, line) == Doc(d.content + [line], d.headers + {|d.content|}, d.links)
  {
  }

  /** A `=>` line with tokens is a link: the first token is the URL, the
      rest joined by spaces (or the URL again) the label, and `[k] label` is
      what the page shows. */
  lemma AddLinkLine(d: Doc, line: string, parts: seq<string>)
    requires !HasPrefix(line, "#") && HasPrefix(line, "=>")
    requires parts == Fields(TrimSpace(line[2..])) && parts != []
    ensures var text := if |parts| > 1 then JoinSpace(parts[1..]) else parts[0];
      AddLine(d, line) == Doc(d.content + [LinkDisplay(|d.links|, text)], d.headers,
                              d.links + [Link(|d.links|, parts[0], text, |d.content|)])
  {
  }

  /** Any other line, a `=>` line without tokens included, is shown as it is. */
  lemma AddPlainLine(d: Doc, line: string)
    requires !HasPrefix(line, "#") && !(HasPrefix(line, "=>") && Fields(TrimSpace(line[2..])) != [])
    ensures AddLine(d, line) == Doc(d.content + [line], d.headers, d.links)
  {
  }

  /** `ParseLines` of a non-empty list is one step after its prefix. */
  lemma ParseLinesUnfold(lines: seq<string>)
    requires lines != []
    ensures ParseLines(lines) == AddLine(ParseLines(lines[..|lines| - 1]), TrimTrailingCR(lines[|lines| - 1]))
  {
  }

  /** One content line per piece, and the link table is well formed. */
  lemma {:induction false} ParseLinesShape(lines: seq<string>)
    ensures WellFormed(ParseLines(lines))
    ensures |ParseLines(lines).content| == |lines|
  {
    if lines != [] {
      var n := |lines| - 1;
      ParseLinesShape(lines[..n]);
      ParseLinesUnfold(lines);
      AddLineStep(ParseLines(lines[..n]), TrimTrailingCR(lines[n]));
      AddLineWellFormed(ParseLines(lines[..n]), TrimTrailingCR(lines[n]));
    }
  }

  /** The header lines are exactly the pieces starting with `#`. */
  lemma {:induction false} ParseLinesHeaders(lines: seq<string>)
    ensures forall i :: i in ParseLines(lines).headers <==>
      0 <= i < |lines| && IsHeaderLine(TrimTrailingCR(lines[i]))
  {
    if lines != [] {
      var n := |lines| - 1;
      var init := lines[..n];
      ParseLinesHeaders(init);
      ParseLinesShape(init);
      var d0 := ParseLines(init);
      var d := ParseLines(lines);
      ParseLinesUnfold(lines);
      AddLineStep(d0, TrimTrailingCR(lines[n]));
      assert d.headers == d0.headers + (if IsHeaderLine(TrimTrailingCR(lines[n])) then {n} else {});
      forall i
        ensures i in d.headers <==> 0 <= i < |lines| && IsHeaderLine(TrimTrailingCR(lines[i]))
      {
        if 0 <= i < n {
          assert lines[i] == init[i];
        }
      }
    }
  }

  /** One content line per piece. */
  lemma {:induction false} ParseLinesLength(lines: seq<string>)
    ensures |ParseLines(lines).content| == |lines|
  {
    if lines != [] {
      var n := |lines| - 1;
      ParseLinesLength(lines[..n]);
      ParseLinesUnfold(lines);
      AddLineExtends(ParseLines(lines[..n]), TrimTrailingCR(lines[n]));
    }
  }

  /** A piece that is not a link line, a header included, is kept verbatim,
      with its trailing carriage returns removed. */
  lemma {:induction false} ParseLinesVerbatim(lines: seq<string>, i: nat)
    requires i < |lines| && !IsLinkLine(TrimTrailingCR(lines[i]))
    ensures i < |ParseLines(lines).content| && ParseLines(lines).content[i] == TrimTrailingCR(lines[i])
  {
    var n := |lines| - 1;
    if i < n {
      var init := lines[..n];
      ParseLinesKeepsEarlier(lines, i);
      assert lines[i] == init[i];
      ParseLinesVerbatim(init, i);
    } else {
      ParseLinesLastVerbatim(lines);
    }
  }

  /** The last piece does not change the content lines before it. */
  lemma ParseLinesKeepsEarlier(lines: seq<string>, i: nat)
    requires i < |lines| - 1
    ensures i < |ParseLines(lines[..|lines| - 1]).content| && i < |ParseLines(lines).content|
    ensures ParseLines(lines).content[i] == ParseLines(lines[..|lines| - 1]).content[i]
  {
    var n := |lines| - 1;
    var d0 := ParseLines(lines[..n]);
    ParseLinesUnfold(lines);
    ParseLinesLength(lines[..n]);
    AddLineExtends(d0, TrimTrailingCR(lines[n]));
    var d := ParseLines(lines);
    assert d.content[i] == d.content[..|d0.content|][i];
  }

  /** The last piece, when it is not a link line, is the last content line. */
  lemma ParseLinesLastVerbatim(lines: seq<string>)
    requires lines != [] && !IsLinkLine(TrimTrailingCR(lines[|lines| - 1]))
    ensures |lines| - 1 < |ParseLines(lines).content|
    ensures ParseLines(lines).content[|lines| - 1] == TrimTrailingCR(lines[|lines| - 1])
  {
    var n := |lines| - 1;
    ParseLinesUnfold(lines);
    ParseLinesLength(lines[..n]);
    AddLineVerbatim(ParseLines(lines[..n]), TrimTrailingCR(lines[n]));
  }

  /** Every link comes from a link line, with that line's URL and label. */
  lemma {:induction false} ParseLinesLinkSources(lines: seq<string>)
    ensures forall k :: 0 <= k < |ParseLines(lines).links| ==>
      var i := ParseLines(lines).links[k].line;
      0 <= i < |lines| && IsLinkLine(TrimTrailingCR(lines[i]))
      && SplitLink(TrimTrailingCR(lines[i]))
         == Some(LinkParts(ParseLines(lines).links[k].url, ParseLines(lines).links[k].text))
  {
    if lines != [] {
      var n := |lines| - 1;
      var init := lines[..n];
      ParseLinesLinkSources(init);
      ParseLinesShape(init);
      var d0 := ParseLines(init);
      var d := ParseLines(lines);
      ParseLinesUnfold(lines);
      AddLineStep(d0, TrimTrailingCR(lines[n]));
      forall k | 0 <= k < |d.links|
        ensures var i := d.links[k].line;
          0 <= i < |lines| && IsLinkLine(TrimTrailingCR(lines[i]))
          && SplitLink(TrimTrailingCR(lines[i])) == Some(LinkParts(d.links[k].url, d.links[k].text))
      {
        if k < |d0.links| {
          var i := d0.links[k].line;
          assert d.links[k] == d0.links[k];
          assert 0 <= i < |init| && lines[i] == init[i];
        } else {
          var line := TrimTrailingCR(lines[n]);
          assert IsLinkLine(line) && |d0.content| == n;
          assert d.links[k] == Link(|d0.links|, SplitLink(line).value.url, SplitLink(line).value.text, n);
        }
      }
    }
  }

  /** Every link line yields a link. */
  lemma {:induction false} ParseLinesLinkLinesCovered(lines: seq<string>)
    ensures forall i :: 0 <= i < |lines| && IsLinkLine(TrimTrailingCR(lines[i])) ==>
      exists k :: 0 <= k < |ParseLines(lines).links| && ParseLines(lines).links[k].line == i
  {
    if lines != [] {
      var n := |lines| - 1;
      var init := lines[..n];
      ParseLinesLinkLinesCovered(init);
      ParseLinesShape(init);
      var d0 := ParseLines(init);
      var d := ParseLines(lines);
      ParseLinesUnfold(lines);
      AddLineStep(d0, TrimTrailingCR(lines[n]));
      forall i | 0 <= i < |lines| && IsLinkLine(TrimTrailingCR(lines[i]))
        ensures exists k :: 0 <= k < |d.links| && d.links[k].line == i
      {
        if i == n {
          assert d.links[|d0.links|].line == i;
        } else {
          assert lines[i] == init[i];
          var k :| 0 <= k < |d0.links| && d0.links[k].line == i;
          assert d.links[k] == d0.links[k];
        }
      }
    }
  }

  /** A `=>` line without any token is not a link: it stays as it is. */
  lemma EmptyLinkLineStays(line: string)
    requires HasPrefix(line, "=>")
    requires forall i :: 2 <= i < |line| ==> IsSpace(line[i])
    ensures !IsLinkLine(line)
  {
    var u := line[2..];
    assert TrimLeft(u) == [];
    assert TrimSpace(u) == [];
    FieldsEmpty([]);
  }
}
