# gemnet session engine in Dafny

gemnet is a Gemini-over-Telnet gateway. A telnet user gets a text-mode
browser. Each connection has one `Session`, which:

- reads the user's key bytes and decodes them;
- fetches Gemini pages;
- turns `text/gemini` bodies into numbered lines and a table of links;
- keeps a back/forward history;
- scrolls by wrapped display lines with a selected link;
- paints an 80x24 terminal with ANSI escapes.

This project models that engine and proves properties of it. The model
covers the current engine:

- `internal/session/session.go`
- `internal/session/scroll.go`
- `internal/session/navigation.go`
- `internal/session/render.go`
- the key handling of `input.go`
- the ASCII transliteration of `utils.go`

It also covers the older copy of the engine in the root `session.go`. The
older copy is selected by the `legacy` constant of a session: the
`NewSession` constructor sets it, `New` clears it. The older copy differs in
four places:

- its key handling has no CR LF pairing and no last byte;
- its up and down arrows always redraw the whole screen, never only the two
  link lines;
- its page scrolling clamps differently and never beeps;
- its status line is the bare URL, and its `render` keeps no
  previous-selection state.

Its navigation, parsing, history and wrapping are the same code.

The project's modules:

- `Text` (text.dfy): the Go string helpers the engine uses: `strings.Split`
  on newlines, `TrimRight`, `TrimSpace`, `Fields`, `Join`, `Repeat`,
  `fmt`'s `%d` and `%3d`.
- `Ascii` (utils.dfy): `UTF8ToASCII` and its replacement table.
- `Display` (display.dfy): line wrapping and the conversion between content
  lines and display lines.
- `Document` (document.dfy): the specification of `parseContent`.
- `Selection` (selection.dfy): scrolling, link selection and the position
  restored from history, as functions of a page and a position.
- `History` (history.dfy): the history list updates of `navigateTo`,
  `navigateBack` and `navigateForward`.
- `Screen` (screen.dfy): what `render` and `renderContentLine` write.
- `Gemini` (gemini.dfy): a fetch result, and what `navigateTo` and
  `loadFromHistory` fetch and report before they change state.
- `Input` (input.dfy): `handleInput` and `handleGotoInput` as a pure
  decoder from a byte to an input state and an action.
- `Engine` (session.dfy):
  - the `Session` class, with the Go struct's fields and a method for each
    Go method of the struct, proved against the functions above. There are
    three exceptions. The display-line helpers `wrapLine`,
    `contentLineToDisplayLine` and `getTotalDisplayLines` are module methods
    of `Display`, and `getDisplayLineCount` is the function
    `Display.DisplayLineCount`. `handleGotoInput` is `Input.GotoKey`, run by
    `HandleInput`. `write` is an append to `out`;
  - `Respond`, `Answer` and `Feed`, which state what one action, one byte
    and a whole connection do.

The connection is a parameter:

- The bytes the user sends are the `input` of `Run`.
- Everything the session writes is appended to the `out` field, one element
  per `write` call.
- The network fetch is a function `fetch` given to the constructor.
- URL resolution is a function `resolve` given to the constructor.

## Model

| member | source | states |
|---|---|---|
| Text.Repeat | internal/session/render.go:62 | `strings.Repeat` gives exactly `n` copies of the character |
| Text.SplitLines | internal/session/navigation.go:97 | `strings.Split(body, "\n")` gives at least one piece, and no piece holds a newline |
| Text.JoinSplitLines | internal/session/navigation.go:97 | joining the split pieces with newlines gives back the body: the split loses nothing |
| Text.SplitJoinLines | internal/session/navigation.go:97 | splitting a newline-joined list of newline-free lines gives back the list |
| Text.TrimTrailingCR | internal/session/navigation.go:105 | `strings.TrimRight(line, "\r")` is a prefix without a trailing CR, and only CRs were removed |
| Text.TrimLeft | internal/session/navigation.go:113 | the left half of `TrimSpace`: a suffix starting with non-space, and only white space was dropped |
| Text.TrimRight | internal/session/navigation.go:113 | the right half of `TrimSpace`: a prefix ending in non-space, and only white space was dropped |
| Text.Word | internal/session/navigation.go:114 | a field of `strings.Fields` is the longest space-free prefix of what is left |
| Text.FirstFieldIsToken | internal/session/navigation.go:116 | the first field, which becomes the link URL, is a non-empty run of non-space characters |
| Text.FieldsEmpty | internal/session/navigation.go:115 | `strings.Fields` gives no field exactly when the text is all white space |
| Text.NatToString | internal/session/navigation.go:131 | `%d` of a natural number is a non-empty string of decimal digits |
| Text.NatToStringRoundTrip | internal/session/navigation.go:131 | reading the digits of `%d` back gives the number |
| Text.PadLeft3 | internal/session/render.go:38 | `%3d` right-aligns in at least three columns with spaces and keeps the digits as the suffix |
| Ascii.Replacement | utils.go:30-61 | every entry of the replacement table is non-empty ASCII |
| Ascii.UnicodeToAscii | utils.go:28-70 | `unicodeToASCII` returns the table entry, else a space for Unicode white space, else `?`; always non-empty ASCII |
| Ascii.RuneImage | utils.go:13-21 | a rune below 128 is kept unchanged; any other rune is replaced by non-empty ASCII |
| Ascii.UTF8ToASCII | utils.go:9-25 | the builder loop produces the runes' images in input order |
| Ascii.TransliterateAscii | utils.go:9-25 | the result is pure ASCII and never shorter than the input |
| Ascii.TransliterateAsciiIdentity | utils.go:13-16 | ASCII text passes through unchanged |
| Ascii.TransliterateIdempotent | utils.go:9-25 | converting twice gives the same as converting once |
| Ascii.TransliterateAppend | utils.go:13-22 | the conversion works rune by rune: the result for a concatenation is the concatenation of the results |
| Ascii.BacktickKept | utils.go:13-16 | the backtick's table entry `'` is never used, because runes below 128 bypass the table |
| Display.Wrap | internal/session/scroll.go:194-209 | every line, the empty line too, wraps to at least one chunk |
| Display.WrapConcat | internal/session/scroll.go:194-209 | the chunks of a wrapped line concatenate back to the line |
| Display.WrapChunks | internal/session/scroll.go:194-209 | every chunk but the last has exactly `width-1` characters; the last has at most that and is non-empty for a non-empty line; there is one chunk exactly when the line fits |
| Display.ShortLineOneChunk | internal/session/scroll.go:195-197 | a line that fits in `width-1` columns is its own single chunk |
| Display.WrapLine | internal/session/scroll.go:194-209 | the loop of `wrapLine` computes the wrapping |
| Display.DisplayLineCount | internal/session/scroll.go:212-217 | a content line takes at least one display line exactly when its index is in range |
| Display.ContentLineToDisplayLine | internal/session/scroll.go:220-226 | the loop gives the display offset of a content line |
| Display.GetTotalDisplayLines | internal/session/scroll.go:229-235 | the loop gives the total number of display lines |
| Display.TotalAppend | internal/session/scroll.go:229-235 | one more content line adds its number of chunks to the total |
| Display.DisplayOffsetIsPrefixTotal | internal/session/scroll.go:220-226 | the display offset of line `c` is the total of the lines before it |
| Display.DisplayOffsetEnds | internal/session/scroll.go:220-226 | the first line starts at display line 0; an index past the end maps to the total |
| Display.DisplayOffsetMonotone | internal/session/scroll.go:220-226 | display offsets never decrease, and strictly increase between existing lines |
| Display.DisplayOffsetInRange | internal/session/scroll.go:220-235 | an existing line's display rows all lie within the total |
| Document.SplitLinkSpec | internal/session/navigation.go:110-120 | a `=>` line yields a link exactly when non-space text follows the marker, and its URL is a non-empty space-free token |
| Document.EmptyLinkLineStays | internal/session/navigation.go:113-115 | a `=>` line followed only by white space stays a plain content line |
| Document.AddLineStep | internal/session/navigation.go:104-136 | each loop iteration appends exactly one content line, marks it as a header iff it starts with `#`, and appends a link iff it is a link line; other lines are kept verbatim |
| Document.AddLineVerbatim | internal/session/navigation.go:136 | a line that is not a link line appears in the content exactly as given |
| Document.AddLineWellFormed | internal/session/navigation.go:104-136 | one iteration keeps the link table consistent with the content |
| Document.ParseLinesShape | internal/session/navigation.go:97-137 | a parsed page has one content line per newline-separated piece, and link `k` has index `k` and sits, in increasing line order, on a line showing `[k] label` |
| Document.ParseLinesLength | internal/session/navigation.go:104-137 | one content line per piece of the body |
| Document.ParseLinesHeaders | internal/session/navigation.go:104-109 | line `i` is a header exactly when piece `i`, with its trailing CRs removed, starts with `#` |
| Document.ParseLinesVerbatim | internal/session/navigation.go:104-136 | every piece that is not a link line is shown exactly, minus its trailing CRs |
| Document.ParseLinesLinkSources | internal/session/navigation.go:110-128 | every link comes from a link line at its `line`, and its URL and label are what that line splits into |
| Document.ParseLinesLinkLinesCovered | internal/session/navigation.go:110-128 | every link line of the body produces a link |
| Gemini.ErrorReport | internal/session/navigation.go:27-49 | an error report is two writes: `Error: ` with the fetch error, or `Error: Status <code> - <meta>` for a bad status, ended by CR LF, then "Press any key to continue..." |
| Gemini.FollowLoaded | internal/session/navigation.go:24-49 | a navigation always announces the URL; a loaded page is one the fetch answered with a 2x status, with that body; a failed one ends with the key prompt |
| Gemini.FollowMoreFuel | internal/session/navigation.go:36-40 | a redirect chain that ends within the bound ends the same way with any larger bound |
| Gemini.LoadSpec | internal/session/navigation.go:185-204 | a reload succeeds exactly on a 2x answer for the stored URL, with that body; it never follows a redirect; a failure ends with the key prompt |
| History.PushSpec | internal/session/navigation.go:51-87 | after a successful navigation, the forward entries are dropped, the page left is stored with its position, and the new page is the last entry at offset 0 and link 0, with the index on it |
| History.StepBackSpec | internal/session/navigation.go:140-157 | at the first entry nothing changes; otherwise the current entry gets the page's position, the index moves back by one, and no other entry changes |
| History.StepForwardSpec | internal/session/navigation.go:159-176 | at the last entry nothing changes; otherwise the current entry is updated, the index moves forward by one, and no other entry changes |
| History.BackThenForward | internal/session/navigation.go:140-176 | back then forward returns to the same index, with both visited entries updated |
| History.EntriesStayOk | internal/session/navigation.go:51-176 | no history update stores a negative offset or link |
| History.PushBackPush | internal/session/navigation.go:60-63 | visiting a, b, going back and visiting c drops b: the history is [a, c] |
| Input.Submit | input.go:105-118 | the buffer is submitted trimmed: a navigation exactly when something is left, with `gemini://` put in front when missing; otherwise a redraw |
| Input.Consumed | input.go:15-55 | only an ESC in normal mode reads more bytes, and never more than the stream still has |
| Input.GotoOpens | input.go:58-63 | `g` or `G` in normal mode enters goto mode with an empty buffer and writes the prompt |
| Input.GotoEditing | input.go:148-163 | in goto mode a printable byte is appended and echoed; backspace or DEL erases one character when there is one; other bytes leave the buffer alone |
| Input.SubmitLeavesGoto | input.go:103-139 | CR, or an LF that does not end a CR LF pair, leaves goto mode and submits the buffer |
| Input.EscapeCancels | input.go:141-146 | ESC in goto mode clears the buffer, returns to normal mode and redraws |
| Input.CRLFSwallowed | input.go:73-78 | an LF right after a CR only updates the last byte, in both modes |
| Input.LegacyNoPairing | session.go:122-127 | the older version follows the link on CR and on LF alike |
| Input.QuitNeedsQ | input.go:93-94 | only `q` or `Q` in normal mode asks to quit |
| Input.QuitChangesNothing | input.go:93-94 | quitting leaves the input state as it was |
| Input.BufferStaysPrintable | input.go:156-161 | the URL buffer only ever holds printable ASCII |
| Selection.PageTarget | internal/session/scroll.go:135-148 | the page-scroll target always lies in [0, total - page], and is the exact one-page move when that fits |
| Selection.LegacyTarget | session.go:538-552 | the older target is non-negative and below the total (or 0), and is the exact one-page move when that stays inside the page |
| Selection.FirstShownSpec | internal/session/scroll.go:91-98 | the forward search finds the first on-screen link, or reports that none is on screen |
| Selection.LastShownSpec | internal/session/scroll.go:81-89 | the backward search finds the last on-screen link, or reports that none is on screen |
| Selection.ReselectSpec | internal/session/scroll.go:51-103 | no links selects 0; a clamped selection on screen is kept; otherwise the first (forward) or last (backward) link on screen is chosen, and 0 when none is on screen |
| Selection.ScrollBySpec | internal/session/scroll.go:162-192 | the new offset is the clamped target (the older target in the older version), within [0, total - page] in the current one; it beeps exactly when that target equals the current offset (never in the older version), and then nothing moves; otherwise the selection is re-chosen for the new offset in the scroll direction |
| Selection.MoveSelectionSpec | internal/session/scroll.go:105-128 | the selection moves by `delta` clamped to the table, the view scrolls just enough to show it, and it does not scroll when the link is already on screen |
| Selection.ArrowKeySpec | internal/session/scroll.go:3-41 | when the next link is on screen it is selected without scrolling; with no next link the key pages in its direction; the position stays valid |
| Selection.RestoreSpec | internal/session/navigation.go:212-219 | a restored offset past the page becomes 0, a restored link past the table becomes 0, and the others are kept |
| Selection.PageDownUp | internal/session/scroll.go:162-192 | page down then page up returns to the same offset when neither move is clamped |
| Screen.Window | internal/session/render.go:89-99 | the screen shows the display rows from the scroll offset in order, exactly `min(rows, total - offset)` of them (none past the end) |
| Screen.ProgressLine | internal/session/render.go:20-27 | the progress line is the last visible display line, clamped to [1, total] |
| Screen.Percent | internal/session/render.go:29-35 | the percentage lies in [0, 100], is 0 for an empty page and 100 at the end, and is the truncated ratio otherwise |
| Screen.PercentAtEnd | internal/session/render.go:20-35 | the status shows 100% exactly when the last display line is on screen |
| Screen.StatusLineLayout | internal/session/render.go:40-57 | on a wide enough terminal the status line fills the width exactly, the progress is right-aligned, and the URL is shown or cut to the room left |
| Screen.UrlAndProgress | internal/session/render.go:41-57 | at any width: the URL cut to `k = min(len, max(10, width - len(progress) - 1))` characters, then `max(1, width - k - len(progress))` spaces, then the progress text |
| Screen.LegacyStatusLine | session.go:606-612 | the older status line is "gemnet" when no page is loaded, else exactly the first `min(len, width-1)` characters of the URL |
| Screen.Painted | internal/session/render.go:174-200 | a partial repaint of the first `n` chunks paints exactly `n` rows |
| Screen.RepaintAgrees | internal/session/render.go:149-201 | each row `renderContentLine` repaints holds the same text and style, at the same row, as a full `render` would show there |
| Screen.RepaintRowAgrees | internal/session/render.go:162-200 | the same for one repainted row |
| Screen.AllRowsLength | internal/session/render.go:83-117 | the rendered page has one row per display line |
| Screen.LineRowStyle | internal/session/render.go:84-108 | every row of content line `i` holds that line's chunk and is in reverse video exactly when `i` is the selected link's line, bold exactly when it is another header line, plain otherwise |
| Engine.ParsedLinksInRange | internal/session/navigation.go:92-138 | every link of a parsed body points at a line of the page |
| Engine.VisitOk | internal/session/navigation.go:51-89 | a navigation keeps the session consistent: links on the page, a valid history and a valid position |
| Engine.RevisitOk | internal/session/navigation.go:178-220 | a reload from history keeps the session consistent and leaves the history list as it is |
| Engine.NavigateOk | internal/session/navigation.go:12-90 | `navigateTo` with its render keeps the session consistent |
| Engine.RespondOk | input.go:8-101 | whatever action a key asks for, the session stays consistent |
| Engine.BackKey | input.go:41-43 | the left arrow at the first entry leaves the scene as it is and writes only a render; otherwise the index moves back by one, the entry left stores the page's position, and the page pauses exactly when the reload of the previous URL fails, else that URL is shown; the writes always end with a full render |
| Engine.BackStep | internal/session/navigation.go:140-157 | going back from a later entry: the index decreases by one, the entry left stores the scene's position, and the reload of the earlier URL decides the pause |
| Engine.ForwardKey | input.go:38-40 | the right arrow at the last entry leaves the scene as it is and writes only a render; otherwise the index moves forward by one, the entry left (when there is one) stores the page's position, and the page pauses exactly when the reload of the next URL fails; the writes always end with a full render |
| Engine.RevisitedWrites | internal/session/navigation.go:178-220 | a reload from history installs the given history, pauses exactly when the fetch of the entry's URL does not load, shows that URL when it loads, keeps URL, page and position when it fails, and the writes end with a full render |
| Engine.ArrowKeyReply | input.go:22-37 | an up or down arrow changes only the position, never pauses, and writes the optional bell then a repaint of the old and the new link lines exactly when the redraw is partial and the offset did not move, else a full render |
| Engine.RepaintOfAgrees | internal/session/render.go:149-201 | every row a partial repaint writes lies on the content area and holds the row a full render shows there |
| Engine.PageKeyReply | input.go:44-51 | a page key changes only the position: the offset becomes the clamped target (the older target in the older version), at most `total - page` in the current engine; it beeps exactly when the current engine's target equals the offset, never pauses, and writes the optional bell then a full render |
| Engine.Answer | internal/session/session.go:68-72 | one byte reads at most the bytes that follow it; it quits exactly on `q` or `Q` in normal mode, and quitting changes nothing and writes nothing |
| Engine.FeedOk | internal/session/session.go:60-73 | the main loop keeps the session consistent and the URL buffer printable over any input |
| Engine.QuitStops | internal/session/session.go:68-72 | a `q` in normal mode ends the connection at once, with nothing written |
| Engine.NoQuitWithoutQ | internal/session/session.go:62-66 | input without `q` or `Q` never quits: the loop ends only when the input ends |
| Input.Step | input.go:8-166 | definition: one byte in either mode and either version; properties in `Input.Consumed`, `Input.QuitNeedsQ`, `Input.QuitChangesNothing`, `Input.BufferStaysPrintable` |
| Input.NormalKey | input.go:8-101 | definition; properties in `Input.GotoOpens`, `Input.CRLFSwallowed`, `Input.QuitNeedsQ` |
| Input.GotoKey | input.go:103-166 | definition; properties in `Input.GotoEditing`, `Input.SubmitLeavesGoto`, `Input.EscapeCancels`, `Input.Submit` |
| Input.LegacyNormalKey | session.go:76-139 | definition; properties in `Input.LegacyNoPairing`, `Input.QuitNeedsQ` |
| Input.LegacyGotoKey | session.go:141-179 | definition; properties in `Input.GotoEditing`, `Input.EscapeCancels` |
| Input.EscapeAction | input.go:15-55 | definition of the escape-sequence table; properties in `Engine.BackKey`, `Engine.ForwardKey`, `Engine.ArrowKeyReply`, `Engine.PageKeyReply` |
| Gemini.Follow | internal/session/navigation.go:12-49 | definition; properties in `Gemini.FollowLoaded`, `Gemini.FollowMoreFuel` |
| Gemini.Load | internal/session/navigation.go:185-204 | definition; properties in `Gemini.LoadSpec` |
| Document.SplitLink | internal/session/navigation.go:110-120 | definition; properties in `Document.SplitLinkSpec`, `Document.EmptyLinkLineStays` |
| Document.AddLine | internal/session/navigation.go:104-136 | definition; properties in `Document.AddLineStep`, `Document.AddLineVerbatim`, `Document.AddLineWellFormed` |
| Document.ParseLines | internal/session/navigation.go:92-137 | definition; properties in `Document.ParseLinesShape` and the other `ParseLines` lemmas |
| Selection.ScrollBy | internal/session/scroll.go:162-192 | definition; properties in `Selection.ScrollBySpec`, `Selection.PageDownUp` |
| Selection.FirstShown | internal/session/scroll.go:90-98 | definition; properties in `Selection.FirstShownSpec` |
| Selection.LastShown | internal/session/scroll.go:80-89 | definition; properties in `Selection.LastShownSpec` |
| Selection.Reselect | internal/session/scroll.go:51-103 | definition; properties in `Selection.ReselectSpec` |
| Selection.Restore | internal/session/navigation.go:206-219 | definition; properties in `Selection.RestoreSpec` |
| Selection.MoveSelection | internal/session/scroll.go:105-128 | definition; properties in `Selection.MoveSelectionSpec` |
| Selection.ArrowKey | internal/session/scroll.go:3-41 | definition; properties in `Selection.ArrowKeySpec` |
| Screen.Highlight | internal/session/render.go:101-108 | definition of the style rule; properties in `Screen.LineRowStyle` |
| Screen.StatusLine | internal/session/render.go:20-57 | definition; properties in `Screen.StatusLineLayout`, `Screen.UrlAndProgress`, `Screen.PercentAtEnd`, `Screen.LegacyStatusLine` |
| Screen.Frame | internal/session/render.go:10-117 | definition of a full render; properties in `Screen.Window`, `Screen.AllRowsLength`, `Screen.LineRowStyle`, `Screen.WindowWrittenRows` |
| Screen.Repaint | internal/session/render.go:149-201 | definition; properties in `Screen.RepaintAgrees`, `Screen.Painted`, `Engine.RepaintOfAgrees` |
| Engine.Visit | internal/session/navigation.go:51-89 | definition; properties in `Engine.VisitOk`, `History.PushSpec` |
| Engine.Revisit | internal/session/navigation.go:178-220 | definition; properties in `Engine.RevisitOk`, `Engine.RevisitedWrites` |
| Engine.Navigate | internal/session/navigation.go:12-90 | definition; properties in `Engine.NavigateOk`, `Gemini.FollowLoaded` |
| Engine.Respond | input.go:8-101 | definition; properties in `Engine.RespondOk`, `Engine.BackKey`, `Engine.ForwardKey`, `Engine.ArrowKeyReply`, `Engine.PageKeyReply` |
| Engine.Arrowed | input.go:22-37 | definition; properties in `Engine.ArrowKeyReply` |
| Engine.Feed | internal/session/session.go:60-73 | definition; properties in `Engine.FeedOk`, `Engine.QuitStops`, `Engine.NoQuitWithoutQ` |
| Engine.Session.New | internal/session/session.go:39-49 | a new session has an 80x24 terminal, no page, position 0 and an empty history at index -1 |
| Engine.Session.NewSession | session.go:39-49 | the same for the older engine |
| Engine.Session.Run | internal/session/session.go:51-74 | greets, navigates to the start page, then answers the input byte by byte as `Feed` says; after a "Press any key" pause the next byte is consumed |
| Engine.Session.Greet | internal/session/session.go:52-55 | clears the terminal and writes the welcome line |
| Engine.Session.Start | internal/session/session.go:52-58 | the greeting followed by `navigateTo` of the start page |
| Engine.Session.Serve | internal/session/session.go:60-73 | the read loop leaves the session, the output and the exit reason exactly as `Feed` predicts |
| Engine.Session.HandleInput | input.go:8-101 | one byte does what `Answer` says: new state, output, bytes read and whether it quits |
| Engine.Session.Perform | input.go:15-98 | carrying out an action does what `Respond` says, and the session stays consistent |
| Engine.Session.Act | input.go:15-98 | the navigation actions and the display actions, each as `Respond` says |
| Engine.Session.Travel | input.go:65-91 | Enter, backspace and the history arrows as `Respond` says |
| Engine.Session.Show | input.go:20-63 | the prompt, the echo, the redraws, the arrows and the page keys as `Respond` says; none of them pauses |
| Engine.Session.ArrowStep | input.go:22-37 | an up or down arrow moves the selection, then redraws as `Respond` says |
| Engine.Session.PageStep | input.go:44-51 | a page key scrolls, then renders, as `Respond` says |
| Engine.Session.GoTo | internal/session/navigation.go:12-90 | `navigateTo` changes the scene, the output and the previous selection exactly as `Navigate` says |
| Engine.Session.GoBack | input.go:87-91 | going back changes the session exactly as `Respond` says for `Back` |
| Engine.Session.GoForward | input.go:38-40 | going forward changes the session exactly as `Respond` says for `Forward` |
| Engine.Session.NavigateTo | internal/session/navigation.go:12-90 | the scene becomes `Visit` of the outcome of `Follow`: a page is pushed and shown, or nothing changes; the output is the announce, any error report and a render, except when the redirect bound is reached |
| Engine.Session.NavigationFailed | internal/session/navigation.go:27-48 | a fetch error or bad status writes the report, pauses and renders, and changes nothing else |
| Engine.Session.NavigationLoaded | internal/session/navigation.go:51-89 | a 2x answer stores the page left, installs the new page and renders it |
| Engine.Session.FollowRedirect | internal/session/navigation.go:36-40 | a 3x answer navigates to its meta URL from the same page |
| Engine.Session.SaveCurrentEntry | internal/session/navigation.go:51-72 | the forward entries are dropped and the page left is stored with its position |
| Engine.Session.InstallPage | internal/session/navigation.go:51-87 | the page is parsed and shown from the top with link 0, and pushed on the history |
| Engine.Session.ShowLoaded | internal/session/navigation.go:51-89 | the new page is installed, then rendered |
| Engine.Session.ReportFailure | internal/session/navigation.go:28-32 | an error report and the key prompt are written, then the unchanged page is rendered |
| Engine.Session.ParseContent | internal/session/navigation.go:92-138 | the page becomes `Parsed(body)`, the parse of the ASCII body, and link 0 is selected |
| Engine.Session.AddContentLine | internal/session/navigation.go:104-136 | one loop iteration adds a line as `AddLine` says and returns the next link number |
| Engine.Session.LoadFromHistory | internal/session/navigation.go:178-220 | the scene becomes `Revisit` of the history: the entry's page at its restored position, or the old page on an error, which pauses and renders |
| Engine.Session.ReloadFailed | internal/session/navigation.go:188-204 | a failed reload writes the report, pauses and renders, and changes nothing else |
| Engine.Session.RestoreEntry | internal/session/navigation.go:206-219 | a successful reload shows the entry's page at its stored offset and link, each reset to 0 when out of range |
| Engine.Session.NavigateBack | internal/session/navigation.go:140-157 | at the first entry nothing happens; otherwise the position is stored, the index moves back and the page is reloaded |
| Engine.Session.NavigateForward | internal/session/navigation.go:159-176 | at the last entry nothing happens; otherwise the position is stored, the index moves forward and the page is reloaded |
| Engine.Session.UpdateLinkSelectionWithDirection | internal/session/scroll.go:51-103 | the new selection is `Reselect` of the page and the old position |
| Engine.Session.LastLinkShown | internal/session/scroll.go:80-89 | the loop finds the last on-screen link, or 0 |
| Engine.Session.FirstLinkShown | internal/session/scroll.go:90-98 | the loop finds the first on-screen link, or 0 |
| Engine.Session.UpdateLinkSelection | internal/session/scroll.go:44-46 | reselects in the forward direction |
| Engine.Session.MoveLinkSelection | internal/session/scroll.go:105-128 | the position becomes `MoveSelection` of the old one |
| Engine.Session.ScrollPageBy | internal/session/scroll.go:162-192 | the position becomes the one `ScrollBy` gives, and a bell is written exactly when it says so |
| Engine.Session.LegacyScrollPageBy | session.go:538-556 | the older page scroll moves to the clamped target, never beeps, and reselects |
| Engine.Session.ScrollPage | internal/session/scroll.go:130-160 | a page scroll with forward reselection, as `ScrollBy` says |
| Engine.Session.ScrollPageWithDirection | internal/session/scroll.go:162-192 | a page scroll that reselects in its own direction, as `ScrollBy` says |
| Engine.Session.HandleArrowKey | internal/session/scroll.go:3-41 | the position becomes `ArrowKey` of the old one, with a bell when the page scroll beeps |
| Engine.Session.ScrollTowardLink | internal/session/scroll.go:30-39 | an off-screen next link: page in its direction, then select it if it is now on screen |
| Engine.Session.PageScroll | internal/session/scroll.go:162-192 | `scrollPageWithDirection` on the scene: new position and optional bell |
| Engine.Session.ArrowMove | internal/session/scroll.go:3-41 | `handleArrowKey` on the scene: new position and optional bell |
| Engine.Session.Render | internal/session/render.go:8-122 | writes the whole screen of the scene; in the newer engine it also remembers the selection when a page is shown |
| Engine.Session.RememberDrawn | internal/session/render.go:65-121 | after a render of a page, the newer version records the offset and selection it drew; the older version and an empty screen leave them as they were |
| Engine.Session.Redraw | internal/session/render.go:8-122 | a full render, as `Redrawn` says |
| Engine.Session.DrawScreen | internal/session/render.go:10-117 | writes the whole screen of the scene |
| Engine.Session.RenderHeader | internal/session/render.go:10-63 | writes clear, the status line, and a separator as wide as the terminal |
| Engine.Session.RenderRows | internal/session/render.go:71-117 | writes exactly the display rows from the scroll offset that fit on the screen, each in its line's style |
| Engine.Session.RenderWrapped | internal/session/render.go:84-116 | one content line adds its on-screen chunks to the window, and stops when the screen is full |
| Engine.Session.RenderChunks | internal/session/render.go:89-115 | chunks above the scroll offset are only counted; each later chunk is written in its line's style and ended by CR LF, as the next row of the window a full render shows, until the screen is full |
| Screen.WindowWrittenRows | internal/session/render.go:83-117 | writing the window row by row, rows past the end of the page skipped, writes exactly the rows of the window in order |
| Engine.Session.WriteStyled | internal/session/render.go:101-111 | the style code, the text and the reset, the codes only for a selected or header line |
| Engine.Session.WriteRow | internal/session/render.go:101-113 | a styled row followed by CR LF |
| Engine.Session.RenderContentLine | internal/session/render.go:149-201 | writes what `Repaint` says: nothing for an unknown or off-screen line, else its chunks at their screen rows |
| Engine.Session.RenderVisibleLine | internal/session/render.go:162-200 | an on-screen line's chunks, from its first row down to the bottom of the screen |
| Engine.Session.PaintRows | internal/session/render.go:174-200 | paints the chunks on consecutive rows, stopping when the room runs out |
| Engine.Session.PaintRow | internal/session/render.go:183-199 | moves the cursor to the row, clears it and writes the styled chunk |
| Engine.Session.RepaintLinkLine | internal/session/render.go:133-142 | repaints the line of link `k` when `k` is a link of the page, else nothing |
| Engine.Session.RenderPartialLinkUpdate | internal/session/render.go:125-146 | repaints the previously and the newly selected links' lines and remembers the selection; without a page it does nothing |
| Engine.Session.RepaintLinks | internal/session/render.go:125-146 | a partial redraw, as `Repainted` says |

## Left out

- The Gemini client itself is not part of this model: the TLS connection, the request line and reading the response are in internal/gemini/client.go. A fetch is a function from a URL to an error or a response.
- URL resolution (`url.Parse` and `ResolveReference`) is a function given to the session. Its parse-error fallbacks are inside that function.
- Engine.Session.NavigateTo: Go follows redirects without a bound, so a redirect loop recurses until the process fails. The model follows at most `redirectFuel` redirects. When the bound is reached, only the announcements are written and nothing is rendered.
- The input stream is a finite byte sequence. Go's `Read` errors are not modelled. The end of the sequence stands for the read error that ends `Run`, reported as `InputClosed`. A read that returns 0 bytes is not modelled.
- A short read of an escape sequence is modelled as reading what is left, with the missing bytes seen as 0, the zero value of Go's buffer.
- Engine.Session.HandleInput: on quit it reports that no following bytes were read. Go returns the error before any further read.
- The "Press any key" read takes the next byte of the stream, when there is one, and discards it.
- Write errors are ignored by the Go code, and the model has none. Each `write` call is one element of `out`, not a sequence of bytes.
- Strings are sequences of Unicode code points. Invalid UTF-8 in a body, which Go's range loop decodes to U+FFFD, is not modelled. Length checks on the URL in the status line count characters where Go counts bytes. Page content is ASCII after `UTF8ToASCII`, so there the two agree.
- The Go map `headerLines` is a set of line numbers, and `content == nil` is the empty sequence. A parsed body always has at least one line, so the two agree.
- `prevScrollOffset` is written by `render` but never read by the Go code. It is kept, and only `Render` states its value.
- Terminal size: the constructors fix 80x24 as the Go code does. The contracts only assume a width of at least 2 and a height of at least 4.
- The listener, telnet negotiation and process start-up (internal/server/server.go, main.go, cmd/gemnet/main.go) are not part of this model.
- Connections are independent, with no shared state, so the concurrency of the server is not modelled.
