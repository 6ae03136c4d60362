/** The browsing session of internal/session (session.go, scroll.go,
    navigation.go, render.go) with the key handling of input.go, and the
    older single-file version of the same engine in the root session.go.
    One `Session` object is one telnet connection: the page on screen, the
    scroll position, the selected link, the history and the URL prompt.
    What the connection receives is the sequence `out` of writes; what it
    sends is given to `Run` as a sequence of bytes. */
module Engine {
  import opened Text
  import opened Ascii
  import opened Display
  import opened Document
  import opened Selection
  import opened History
  import opened Screen
  import opened Gemini
  import opened Input

  const StartURL: string := "gemini://geminiprotocol.net/"
  const Welcome: string := "Welcome to gemnet - Gemini over Telnet\r\n"
  const Bell: string := "\U{7}"

  /** How `Run` ends: the user pressed `q`, or the connection had no more bytes. */
  datatype Exit = UserQuit | InputClosed

  /** What the user sees and can go back to: the URL, the parsed page, the
      viewing position and the history. */
  datatype Scene = Scene(url: string, doc: Doc, pos: Pos, hist: History)

  function Beep(bell: bool): seq<string>
  {
    if bell then [Bell] else []
  }

  /** The page being left, as a history entry. */
  function EntryOf(s: Scene): HistoryEntry
  {
    HistoryEntry(s.url, s.pos.scroll, s.pos.selected)
  }

  /** The document `parseContent` builds from a body. */
  function Parsed(body: string): Doc
  {
    ParseLines(SplitLines(Transliterate(body)))
  }

  /** The scene after `navigateTo` ends with outcome `o`: a loaded page is
      shown from its top with link 0 selected and pushed on the history
      (the page being left is stored first, when there was one); otherwise
      nothing changes. */
  function Visit(s0: Scene, o: Outcome): Scene
  {
    match o
    case Loaded(u, body) =>
      Scene(u, Parsed(body), Pos(0, 0), Push(s0.hist, if s0.url == [] then None else Some(EntryOf(s0)), u))
    case _ => s0
  }

  /** Whether `loadFromHistory` on history `h` reloads a page. */
  predicate HasEntry(h: History)
  {
    0 <= h.index < |h.entries|
  }

  /** The reload `loadFromHistory` performs on history `h`. */
  function Reload(fetch: string -> FetchResult, h: History): Navigation
  {
    if HasEntry(h) then Load(fetch, h.entries[h.index].url) else Navigation(Failed, [])
  }

  /** The scene after `loadFromHistory` on history `h`: the entry's page with
      its restored position when the reload succeeds; otherwise the same page
      as before, with the history moved. */
  function Revisit(fetch: string -> FetchResult, s0: Scene, h: History, width: int, rows: int): Scene
    requires width >= 2
  {
    if !HasEntry(h) then s0.(hist := h)
    else
      var e := h.entries[h.index];
      match Load(fetch, e.url).outcome
      case Loaded(_, body) =>
        var doc := Parsed(body);
        Scene(e.url, doc, Restore(Page(doc.content, doc.links, width, rows), e.scrollOffset, e.selectedLink), h)
      case _ => s0.(hist := h)
  }

  /** A reload that succeeds shows the entry's page at its stored position. */
  lemma RevisitLoaded(fetch: string -> FetchResult, s0: Scene, h: History, width: int, rows: int, body: string)
    requires width >= 2 && HasEntry(h) && Reload(fetch, h).outcome == Loaded(h.entries[h.index].url, body)
    ensures var e := h.entries[h.index];
      var doc := Parsed(body);
      Revisit(fetch, s0, h, width, rows)
        == Scene(e.url, doc, Restore(Page(doc.content, doc.links, width, rows), e.scrollOffset, e.selectedLink), h)
  {
  }

  /** Whether `loadFromHistory` on `h` stops at "Press any key". */
  predicate Pauses(fetch: string -> FetchResult, h: History)
  {
    HasEntry(h) && !Reload(fetch, h).outcome.Loaded?
  }

  /** The bytes left after a pause: the key read there is taken from the stream. */
  function AfterPause(paused: bool, rest: seq<byte>, used: nat): nat
  {
    if paused && used < |rest| then used + 1 else Min(used, |rest|)
  }

  /** The content line of the selected link, -1 when no link is selected. */
  function SelectedLineOf(links: seq<Link>, selected: int): int
  {
    if 0 <= selected < |links| then links[selected].line else -1
  }

  /** The status line of a full render, in the newer or the older version. */
  function StatusOf(url: string, content: seq<string>, scroll: int, width: int, rows: int, legacy: bool): string
    requires width >= 2
  {
    if legacy then LegacyStatusLine(url, width)
    else StatusLine(url, scroll, rows, TotalDisplayLines(content, width), width)
  }

  /** What a full `render` of scene `s` writes on a terminal `width` columns
      wide with `rows` content rows. */
  function ScreenOf(s: Scene, width: int, rows: int, legacy: bool): seq<string>
    requires width >= 2
  {
    Frame(StatusOf(s.url, s.doc.content, s.pos.scroll, width, rows, legacy), s.doc.content, width, s.doc.headers,
          SelectedLineOf(s.doc.links, s.pos.selected), s.pos.scroll, rows)
  }

  /** An index into the history (or -1) and non-negative stored positions. */
  predicate HistoryOk(h: History)
  {
    IndexOk(h) && EntriesOk(h)
  }

  /** A scene the session can be in: links on lines of the page, a history
      index within the list with non-negative stored positions, and a
      position on the page. */
  ghost predicate SceneOk(s: Scene, width: int, rows: int)
    requires width >= 2
  {
    && LinksInRange(s.doc.content, s.doc.links)
    && HistoryOk(s.hist)
    && PosOk(Page(s.doc.content, s.doc.links, width, rows), s.pos)
  }

  /** Every parsed page keeps its links on its own lines. */
  lemma ParsedLinksInRange(body: string)
    ensures LinksInRange(Parsed(body).content, Parsed(body).links)
  {
    ParseLinesShape(SplitLines(Transliterate(body)));
  }

  /** `navigateTo` keeps the scene valid, whatever the network answers. */
  lemma VisitOk(s0: Scene, o: Outcome, width: int, rows: int)
    requires width >= 2 && SceneOk(s0, width, rows)
    ensures SceneOk(Visit(s0, o), width, rows)
  {
    if o.Loaded? {
      ParsedLinksInRange(o.body);
      var current := if s0.url == [] then None else Some(EntryOf(s0));
      PushSpec(s0.hist, current, o.url);
      EntriesStayOk(s0.hist, EntryOf(s0), o.url);
    }
  }

  /** `loadFromHistory` keeps the scene valid: a restored position is
      checked against the reloaded page. */
  lemma RevisitOk(fetch: string -> FetchResult, s0: Scene, h: History, width: int, rows: int)
    requires width >= 2 && SceneOk(s0, width, rows) && HistoryOk(h)
    ensures SceneOk(Revisit(fetch, s0, h, width, rows), width, rows)
    ensures Revisit(fetch, s0, h, width, rows).hist == h
  {
    if HasEntry(h) {
      var e := h.entries[h.index];
      var n := Load(fetch, e.url);
      if n.outcome.Loaded? {
        var doc := Parsed(n.outcome.body);
        ParsedLinksInRange(n.outcome.body);
        RestoreSpec(Page(doc.content, doc.links, width, rows), e.scrollOffset, e.selectedLink);
      }
    }
  }

  // ---------------------------------------------------------------------
  // What one key does

  /** What a session is given when it is made: the network, URL resolution,
      the redirect bound, the terminal and the version of the engine. */
  datatype Env = Env(fetch: string -> FetchResult, resolve: (string, string) -> string, fuel: nat,
                     width: int, rows: int, legacy: bool)

  /** What an action leaves behind: the scene, the link the next partial
      redraw takes as previously selected, what was written, and whether a
      "Press any key" read a byte. */
  datatype Reply = Reply(scene: Scene, prev: int, writes: seq<string>, paused: bool)

  /** `prevSelectedLink` after a full `render` of scene `s`: the newer
      version remembers the selection when a page is shown. */
  function AfterRender(prev: int, s: Scene, legacy: bool): int
  {
    if !legacy && s.doc.content != [] then s.pos.selected else prev
  }

  /** What `renderContentLine` repaints for link `k` in scene `s`. */
  function RepaintOf(s: Scene, k: int, width: int, rows: int): seq<Paint>
    requires width >= 2
  {
    if 0 <= k < |s.doc.links| then
      Repaint(s.doc.content, width, s.doc.headers, SelectedLineOf(s.doc.links, s.pos.selected),
              s.doc.links[k].line, s.pos.scroll, rows)
    else []
  }

  /** `navigateTo(url)`: the followed navigation, and a render unless the
      redirect bound was reached. */
  function Navigate(env: Env, s: Scene, prev: int, url: string): Reply
    requires env.width >= 2
  {
    var n := Follow(env.fetch, env.resolve, s.url, url, env.fuel);
    var s' := Visit(s, n.outcome);
    if n.outcome.GaveUp? then Reply(s', prev, n.writes, false)
    else Reply(s', AfterRender(prev, s', env.legacy), n.writes + ScreenOf(s', env.width, env.rows, env.legacy),
               n.outcome.Failed?)
  }

  /** A navigation's reply, assembled from its outcome: the scene it
      leaves, what it writes and the highlight it remembers. */
  lemma NavigateReply(env: Env, s0: Scene, prev0: int, url: string, n: Navigation,
                      s1: Scene, prev1: int, screen: seq<string>, writes: seq<string>, paused: bool)
    requires env.width >= 2 && n == Follow(env.fetch, env.resolve, s0.url, url, env.fuel)
    requires s1 == Visit(s0, n.outcome) && screen == ScreenOf(s1, env.width, env.rows, env.legacy)
    requires writes == n.writes + (if n.outcome.GaveUp? then [] else screen)
    requires prev1 == if n.outcome.GaveUp? then prev0 else AfterRender(prev0, s1, env.legacy)
    requires paused == n.outcome.Failed?
    ensures Navigate(env, s0, prev0, url) == Reply(s1, prev1, writes, paused)
  {
  }

  /** `loadFromHistory` on history `h`, then the `render` input.go adds. */
  function Revisited(env: Env, s: Scene, prev: int, h: History): Reply
    requires env.width >= 2
  {
    var s' := Revisit(env.fetch, s, h, env.width, env.rows);
    var p := Pauses(env.fetch, h);
    var screen := ScreenOf(s', env.width, env.rows, env.legacy);
    Reply(s', AfterRender(prev, s', env.legacy), Reload(env.fetch, h).writes + (if p then screen else []) + screen, p)
  }

  /** A reload's reply, assembled from what `loadFromHistory` and the
      following `render` did. */
  lemma RevisitedReply(env: Env, s0: Scene, prev0: int, h: History,
                       s1: Scene, prev1: int, screen: seq<string>, writes: seq<string>, paused: bool)
    requires env.width >= 2 && s1 == Revisit(env.fetch, s0, h, env.width, env.rows)
    requires screen == ScreenOf(s1, env.width, env.rows, env.legacy) && paused == Pauses(env.fetch, h)
    requires writes == Reload(env.fetch, h).writes + (if paused then screen else []) + screen
    requires prev1 == AfterRender(prev0, s1, env.legacy)
    ensures Revisited(env, s0, prev0, h) == Reply(s1, prev1, writes, paused)
  {
  }

  /** A full `render` of scene `s`. */
  function Redrawn(env: Env, s: Scene, prev: int): Reply
    requires env.width >= 2
  {
    Reply(s, AfterRender(prev, s, env.legacy), ScreenOf(s, env.width, env.rows, env.legacy), false)
  }

  /** A partial redraw of scene `s`: the link `prev` the last redraw
      highlighted and the link now selected, each on its own line. */
  function Repainted(env: Env, s: Scene, prev: int): Reply
    requires env.width >= 2
  {
    Reply(s, if s.doc.content != [] then s.pos.selected else prev,
          PaintsWrites(RepaintOf(s, prev, env.width, env.rows))
          + PaintsWrites(RepaintOf(s, s.pos.selected, env.width, env.rows)), false)
  }

  /** What `handleArrowKey` does to the position of scene `s`. */
  function ArrowMoved(env: Env, s: Scene, delta: int): Scrolled
    requires env.width >= 2
  {
    ArrowKey(Page(s.doc.content, s.doc.links, env.width, env.rows), s.pos, delta, env.legacy)
  }

  /** What `scrollPageWithDirection` does to the position of scene `s`. */
  function PageScrolled(env: Env, s: Scene, delta: int): Scrolled
    requires env.width >= 2
  {
    ScrollBy(Page(s.doc.content, s.doc.links, env.width, env.rows), s.pos, delta, delta, env.legacy)
  }

  /** An arrow key: `handleArrowKey`, then a partial redraw of the two links
      when it is allowed and the offset did not move, else a `render`. */
  function Arrowed(env: Env, s: Scene, prev: int, delta: int, partial: bool): Reply
    requires env.width >= 2
  {
    var r := ArrowMoved(env, s, delta);
    var s' := s.(pos := r.pos);
    var d := if partial && r.pos.scroll == s.pos.scroll then Repainted(env, s', prev) else Redrawn(env, s', prev);
    Reply(s', d.prev, Beep(r.bell) + d.writes, false)
  }

  /** Page Up or Page Down: `scrollPageWithDirection`, then a `render`. */
  function Paged(env: Env, s: Scene, prev: int, delta: int): Reply
    requires env.width >= 2
  {
    var r := PageScrolled(env, s, delta);
    var d := Redrawn(env, s.(pos := r.pos), prev);
    Reply(d.scene, d.prev, Beep(r.bell) + d.writes, false)
  }

  /** What the session does for an action of `Step` in scene `s`, with
      `prev` the link the last redraw left highlighted. */
  function Respond(env: Env, s: Scene, prev: int, a: Action): Reply
    requires env.width >= 2
  {
    match a
    case Nothing => Reply(s, prev, [], false)
    case Quit => Reply(s, prev, [], false)
    case Prompt => Reply(s, prev, [PromptText], false)
    case Echo(text) => Reply(s, prev, [text], false)
    case Redraw => Redrawn(env, s, prev)
    case Go(url) => Navigate(env, s, prev, url)
    case FollowLink =>
      if 0 <= s.pos.selected < |s.doc.links| then Navigate(env, s, prev, s.doc.links[s.pos.selected].url)
      else Reply(s, prev, [], false)
    case Back =>
      if s.hist.index <= 0 then Redrawn(env, s, prev)
      else Revisited(env, s, prev, StepBack(s.hist, EntryOf(s)))
    case Forward =>
      if s.hist.index >= |s.hist.entries| - 1 then Redrawn(env, s, prev)
      else Revisited(env, s, prev, StepForward(s.hist, EntryOf(s)))
    case Arrow(delta, partial) => Arrowed(env, s, prev, delta, partial)
    case PageKey(delta) => Paged(env, s, prev, delta)
  }

  /** The back keys: a redraw at the first page, else a reload one entry back. */
  lemma RespondBack(env: Env, s: Scene, prev: int)
    requires env.width >= 2
    ensures Respond(env, s, prev, Back)
         == if s.hist.index <= 0 then Redrawn(env, s, prev) else Revisited(env, s, prev, StepBack(s.hist, EntryOf(s)))
  {
  }

  /** The right arrow: a redraw at the last page, else a reload one entry on. */
  lemma RespondForward(env: Env, s: Scene, prev: int)
    requires env.width >= 2
    ensures Respond(env, s, prev, Forward)
         == if s.hist.index >= |s.hist.entries| - 1 then Redrawn(env, s, prev)
            else Revisited(env, s, prev, StepForward(s.hist, EntryOf(s)))
  {
  }

  /** The arrow keys and the page keys. */
  lemma RespondArrow(env: Env, s: Scene, prev: int, delta: int, partial: bool)
    requires env.width >= 2
    ensures Respond(env, s, prev, Arrow(delta, partial)) == Arrowed(env, s, prev, delta, partial)
  {
  }

  lemma RespondPage(env: Env, s: Scene, prev: int, delta: int)
    requires env.width >= 2
    ensures Respond(env, s, prev, PageKey(delta)) == Paged(env, s, prev, delta)
  {
  }

  /** Back at the first page only redraws the page. Otherwise the page on
      screen is stored in place in the history, the index moves back one,
      and the page there is reloaded: shown when it loads, else the page on
      screen stays and the key prompt pauses. Either way the output ends
      with a full render of the resulting scene. */
  lemma BackKey(env: Env, s: Scene, prev: int)
    requires env.width >= 2 && IndexOk(s.hist)
    ensures var r := Respond(env, s, prev, Back);
      var screen := ScreenOf(r.scene, env.width, env.rows, env.legacy);
      && |screen| <= |r.writes| && r.writes[|r.writes| - |screen|..] == screen
      && (s.hist.index <= 0 ==> r.scene == s && r.writes == screen && !r.paused)
      && (s.hist.index > 0 ==>
            var url := s.hist.entries[s.hist.index - 1].url;
            && r.scene.hist.index == s.hist.index - 1
            && |r.scene.hist.entries| == |s.hist.entries|
            && r.scene.hist.entries[s.hist.index] == EntryOf(s)
            && (r.paused <==> !Load(env.fetch, url).outcome.Loaded?)
            && (!r.paused ==> r.scene.url == url)
            && (r.paused ==> r.scene.url == s.url && r.scene.doc == s.doc && r.scene.pos == s.pos))
  {
    RespondBack(env, s, prev);
    if s.hist.index > 0 {
      BackStep(env, s, prev);
    }
  }

  /** The reload one entry back, when there is one. */
  lemma BackStep(env: Env, s: Scene, prev: int)
    requires env.width >= 2 && IndexOk(s.hist) && s.hist.index > 0
    ensures var r := Revisited(env, s, prev, StepBack(s.hist, EntryOf(s)));
      var screen := ScreenOf(r.scene, env.width, env.rows, env.legacy);
      var url := s.hist.entries[s.hist.index - 1].url;
      && |screen| <= |r.writes| && r.writes[|r.writes| - |screen|..] == screen
      && r.scene.hist.index == s.hist.index - 1
      && |r.scene.hist.entries| == |s.hist.entries|
      && r.scene.hist.entries[s.hist.index] == EntryOf(s)
      && (r.paused <==> !Load(env.fetch, url).outcome.Loaded?)
      && (!r.paused ==> r.scene.url == url)
      && (r.paused ==> r.scene.url == s.url && r.scene.doc == s.doc && r.scene.pos == s.pos)
  {
    var h := StepBack(s.hist, EntryOf(s));
    var i := s.hist.index - 1;
    assert h == History(s.hist.entries[s.hist.index := EntryOf(s)], i);
    assert h.entries[i] == s.hist.entries[i];
    RevisitedWrites(env, s, prev, h, s.hist.entries[i].url);
  }

  /** Forward at the last page only redraws the page. Otherwise the page on
      screen is stored in place (when there is one), the index moves on one,
      and the page there is reloaded as for Back. */
  lemma ForwardKey(env: Env, s: Scene, prev: int)
    requires env.width >= 2 && IndexOk(s.hist)
    ensures var r := Respond(env, s, prev, Forward);
      var screen := ScreenOf(r.scene, env.width, env.rows, env.legacy);
      && |screen| <= |r.writes| && r.writes[|r.writes| - |screen|..] == screen
      && (s.hist.index >= |s.hist.entries| - 1 ==> r.scene == s && r.writes == screen && !r.paused)
      && (s.hist.index < |s.hist.entries| - 1 ==>
            var url := s.hist.entries[s.hist.index + 1].url;
            && r.scene.hist.index == s.hist.index + 1
            && |r.scene.hist.entries| == |s.hist.entries|
            && (s.hist.index >= 0 ==> r.scene.hist.entries[s.hist.index] == EntryOf(s))
            && (r.paused <==> !Load(env.fetch, url).outcome.Loaded?)
            && (!r.paused ==> r.scene.url == url)
            && (r.paused ==> r.scene.url == s.url && r.scene.doc == s.doc && r.scene.pos == s.pos))
  {
    RespondForward(env, s, prev);
    if s.hist.index < |s.hist.entries| - 1 {
      var h := StepForward(s.hist, EntryOf(s));
      StepForwardSpec(s.hist, EntryOf(s));
      assert h.entries[h.index] == s.hist.entries[s.hist.index + 1];
      RevisitedWrites(env, s, prev, h, s.hist.entries[s.hist.index + 1].url);
    }
  }

  /** A reload from history index `h.index`, which holds an entry: paused
      exactly when the entry's page does not load, the entry's page shown
      when it does, and a full render of the result at the end. */
  lemma RevisitedWrites(env: Env, s: Scene, prev: int, h: History, url: string)
    requires env.width >= 2 && HasEntry(h) && url == h.entries[h.index].url
    ensures var r := Revisited(env, s, prev, h);
      var screen := ScreenOf(r.scene, env.width, env.rows, env.legacy);
      && |screen| <= |r.writes| && r.writes[|r.writes| - |screen|..] == screen
      && r.scene.hist == h
      && (r.paused <==> !Load(env.fetch, url).outcome.Loaded?)
      && (!r.paused ==> r.scene.url == url)
      && (r.paused ==> r.scene.url == s.url && r.scene.doc == s.doc && r.scene.pos == s.pos)
  {
    var r := Revisited(env, s, prev, h);
    var screen := ScreenOf(r.scene, env.width, env.rows, env.legacy);
    var front := Reload(env.fetch, h).writes + (if r.paused then screen else []);
    assert r.writes == front + screen;
    assert r.writes[|front|..] == screen;
  }

  /** An arrow key changes only the position, to the one `handleArrowKey`
      picks, and never pauses. The bell, when it rings, comes first; the
      rest is a repaint of the two link lines when a partial redraw is
      allowed and the offset did not move, and a full render otherwise. */
  lemma ArrowKeyReply(env: Env, s: Scene, prev: int, delta: int, partial: bool)
    requires env.width >= 2
    ensures var r := Respond(env, s, prev, Arrow(delta, partial));
      var m := ArrowMoved(env, s, delta);
      && r.scene == s.(pos := m.pos) && !r.paused
      && (partial && m.pos.scroll == s.pos.scroll ==>
            r.writes == Beep(m.bell) + PaintsWrites(RepaintOf(r.scene, prev, env.width, env.rows))
                        + PaintsWrites(RepaintOf(r.scene, r.scene.pos.selected, env.width, env.rows)))
      && (!(partial && m.pos.scroll == s.pos.scroll) ==>
            r.writes == Beep(m.bell) + ScreenOf(r.scene, env.width, env.rows, env.legacy))
  {
    RespondArrow(env, s, prev, delta, partial);
    var m := ArrowMoved(env, s, delta);
    var s' := s.(pos := m.pos);
    if partial && m.pos.scroll == s.pos.scroll {
      var d := Repainted(env, s', prev);
      assert Arrowed(env, s, prev, delta, partial) == Reply(s', d.prev, Beep(m.bell) + d.writes, false);
      Regroup(Beep(m.bell), PaintsWrites(RepaintOf(s', prev, env.width, env.rows)),
              PaintsWrites(RepaintOf(s', s'.pos.selected, env.width, env.rows)));
    } else {
      var d := Redrawn(env, s', prev);
      assert Arrowed(env, s, prev, delta, partial) == Reply(s', d.prev, Beep(m.bell) + d.writes, false);
    }
  }

  /** A partial redraw of link `k` paints only rows of the content window,
      and each painted row is the one a full render of the scene shows
      there. */
  lemma RepaintOfAgrees(s: Scene, k: int, width: int, rows: int)
    requires width >= 2 && s.pos.scroll >= 0
    ensures var ps := RepaintOf(s, k, width, rows);
      var screen := Window(AllRows(s.doc.content, width, s.doc.headers, SelectedLineOf(s.doc.links, s.pos.selected)),
                           s.pos.scroll, rows);
      forall i :: 0 <= i < |ps| ==>
        3 <= ps[i].row < 3 + rows && ps[i].row - 3 < |screen| && screen[ps[i].row - 3] == ps[i].r
  {
    if 0 <= k < |s.doc.links| {
      RepaintAgrees(s.doc.content, width, s.doc.headers, SelectedLineOf(s.doc.links, s.pos.selected),
                    s.doc.links[k].line, s.pos.scroll, rows);
    }
  }

  /** Page Up and Page Down move the offset to the page target (within
      `[0, MaxScroll]` in the newer version), change nothing else but the
      selection, never pause, and write the bell, if it rings, then a full
      render; the bell rings exactly when the target is where the page
      already is. */
  lemma PageKeyReply(env: Env, s: Scene, prev: int, delta: int)
    requires env.width >= 2 && env.rows >= 1 && SceneOk(s, env.width, env.rows)
    ensures var r := Respond(env, s, prev, PageKey(delta));
      var p := Page(s.doc.content, s.doc.links, env.width, env.rows);
      var m := PageScrolled(env, s, delta);
      && r.scene == s.(pos := m.pos) && !r.paused
      && r.writes == Beep(m.bell) + ScreenOf(r.scene, env.width, env.rows, env.legacy)
      && r.scene.pos.scroll == (if env.legacy then LegacyTarget(p, s.pos.scroll, delta)
                                else PageTarget(p, s.pos.scroll, delta))
      && (!env.legacy ==> r.scene.pos.scroll <= MaxScroll(p))
      && (m.bell <==> !env.legacy && PageTarget(p, s.pos.scroll, delta) == s.pos.scroll)
  {
    ScrollBySpec(Page(s.doc.content, s.doc.links, env.width, env.rows), s.pos, delta, delta, env.legacy);
  }

  /** A navigation leaves a valid scene, whatever the network answers. */
  lemma NavigateOk(env: Env, s: Scene, prev: int, url: string)
    requires env.width >= 2 && env.rows >= 1 && SceneOk(s, env.width, env.rows)
    ensures SceneOk(Navigate(env, s, prev, url).scene, env.width, env.rows)
  {
    VisitOk(s, Follow(env.fetch, env.resolve, s.url, url, env.fuel).outcome, env.width, env.rows);
  }

  /** Every key keeps the scene valid, whatever the network answers. */
  lemma RespondOk(env: Env, s: Scene, prev: int, a: Action)
    requires env.width >= 2 && env.rows >= 1 && SceneOk(s, env.width, env.rows)
    ensures SceneOk(Respond(env, s, prev, a).scene, env.width, env.rows)
  {
    var p := Page(s.doc.content, s.doc.links, env.width, env.rows);
    match a
    case Go(url) =>
      VisitOk(s, Follow(env.fetch, env.resolve, s.url, url, env.fuel).outcome, env.width, env.rows);
    case FollowLink =>
      if 0 <= s.pos.selected < |s.doc.links| {
        var url := s.doc.links[s.pos.selected].url;
        VisitOk(s, Follow(env.fetch, env.resolve, s.url, url, env.fuel).outcome, env.width, env.rows);
      }
    case Back =>
      if s.hist.index > 0 {
        StepBackSpec(s.hist, EntryOf(s));
        EntriesStayOk(s.hist, EntryOf(s), s.url);
        RevisitOk(env.fetch, s, StepBack(s.hist, EntryOf(s)), env.width, env.rows);
      }
    case Forward =>
      if s.hist.index < |s.hist.entries| - 1 {
        StepForwardSpec(s.hist, EntryOf(s));
        EntriesStayOk(s.hist, EntryOf(s), s.url);
        RevisitOk(env.fetch, s, StepForward(s.hist, EntryOf(s)), env.width, env.rows);
      }
    case Arrow(delta, _) => ArrowKeySpec(p, s.pos, delta, env.legacy);
    case PageKey(delta) => ScrollBySpec(p, s.pos, delta, delta, env.legacy);
    case _ =>
  }

  // ---------------------------------------------------------------------
  // A whole connection

  /** What carries over from one byte to the next: the scene, the input
      state and the link the last redraw left highlighted. */
  datatype World = World(scene: Scene, keys: Keys, prev: int)

  /** What the rest of a connection does: where it leaves the session, what
      it writes and how it ends. */
  datatype Trace = Trace(world: World, writes: seq<string>, exit: Exit)

  /** What one byte does: where it leaves the session, what it writes,
      how many of the following bytes it reads, and whether it quits. */
  datatype Turn = Turn(world: World, writes: seq<string>, used: nat, quit: bool)

  /** `handleInput` for byte `b` in world `w`, with `rest` the bytes after
      it: `Step` decodes the byte, `Respond` answers the action, and the
      bytes of an escape sequence and of a "Press any key" pause are read.
      Only `q` or `Q` in normal mode quits, and quitting changes nothing. */
  function Answer(env: Env, w: World, b: byte, rest: seq<byte>): (u: Turn)
    requires env.width >= 2
    ensures u.used <= |rest|
    ensures u.quit <==> w.keys.mode == Normal && (b == 'q' as byte || b == 'Q' as byte)
    ensures u.quit ==> u.world == w && u.writes == []
  {
    var (k, a) := Step(w.keys, b, ByteAt(rest, 0), ByteAt(rest, 1), env.legacy);
    var r := Respond(env, w.scene, w.prev, a);
    QuitNeedsQ(w.keys, b, ByteAt(rest, 0), ByteAt(rest, 1), env.legacy);
    if a.Quit? then
      QuitChangesNothing(w.keys, b, ByteAt(rest, 0), ByteAt(rest, 1), env.legacy);
      Turn(World(r.scene, k, r.prev), r.writes, 0, true)
    else
      Turn(World(r.scene, k, r.prev), r.writes, AfterPause(r.paused, rest, Consumed(w.keys, b, rest)), false)
  }

  /** Trace `t` after the writes `before`. */
  function Prepend(before: seq<string>, t: Trace): Trace
  {
    Trace(t.world, before + t.writes, t.exit)
  }

  lemma PrependTwice(a: seq<string>, b: seq<string>, t: Trace)
    ensures Prepend(a, Prepend(b, t)) == Prepend(a + b, t)
  {
    Regroup(a, b, t.writes);
  }

  /** The main loop of `Run` from world `w` on the bytes `input`: each byte
      is answered by `Answer`, the bytes it reads are skipped, `q` ends the
      loop and so does the end of the input. */
  function Feed(env: Env, w: World, input: seq<byte>): Trace
    requires env.width >= 2
    decreases |input|
  {
    if input == [] then Trace(w, [], InputClosed)
    else
      var u := Answer(env, w, input[0], input[1..]);
      if u.quit then Trace(u.world, u.writes, UserQuit)
      else Prepend(u.writes, Feed(env, u.world, input[1..][u.used..]))
  }

  /** One byte of a connection. */
  lemma FeedStep(env: Env, w: World, input: seq<byte>, b: byte, rest: seq<byte>)
    requires env.width >= 2 && input != [] && b == input[0] && rest == input[1..]
    ensures var u := Answer(env, w, b, rest);
      Feed(env, w, input) == if u.quit then Trace(u.world, u.writes, UserQuit)
                             else Prepend(u.writes, Feed(env, u.world, rest[u.used..]))
  {
  }

  /** A connection that has written `done` and still has `input[i..]` to
      read: a byte that does not quit adds its writes to `done` and leaves
      the bytes after the ones it read. */
  lemma FeedAdvance(env: Env, w: World, input: seq<byte>, i: nat, done: seq<string>, goal: Trace,
                     w': World, i': nat, done': seq<string>)
    requires env.width >= 2 && i < |input|
    requires Prepend(done, Feed(env, w, input[i..])) == goal
    requires var u := Answer(env, w, input[i], input[i + 1..]);
      !u.quit && w' == u.world && i' == i + 1 + u.used && done' == done + u.writes
    ensures i' <= |input| && Prepend(done', Feed(env, w', input[i'..])) == goal
  {
    var u := Answer(env, w, input[i], input[i + 1..]);
    FeedAt(env, w, input, i);
    PrependTwice(done, u.writes, Feed(env, u.world, input[i + 1 + u.used..]));
  }

  /** The bytes from `i` on, when the byte at `i` does not quit. */
  lemma FeedAt(env: Env, w: World, input: seq<byte>, i: nat)
    requires env.width >= 2 && i < |input|
    requires !Answer(env, w, input[i], input[i + 1..]).quit
    ensures var u := Answer(env, w, input[i], input[i + 1..]);
      i + 1 + u.used <= |input| &&
      Feed(env, w, input[i..]) == Prepend(u.writes, Feed(env, u.world, input[i + 1 + u.used..]))
  {
    var u := Answer(env, w, input[i], input[i + 1..]);
    SliceAfter(input, i, u.used);
    FeedStep(env, w, input[i..], input[i], input[i + 1..]);
  }

  lemma SliceAfter(s: seq<byte>, i: nat, n: nat)
    requires i < |s| && n <= |s| - i - 1
    ensures s[i..] != [] && s[i..][0] == s[i] && s[i..][1..] == s[i + 1..]
    ensures s[i + 1..][n..] == s[i + 1 + n..]
  {
  }

  /** A byte that quits ends the connection with the writes so far. */
  lemma FeedQuit(env: Env, w: World, input: seq<byte>, i: nat, done: seq<string>, goal: Trace)
    requires env.width >= 2 && i < |input|
    requires Prepend(done, Feed(env, w, input[i..])) == goal
    requires Answer(env, w, input[i], input[i + 1..]).quit
    ensures var u := Answer(env, w, input[i], input[i + 1..]);
      goal == Trace(u.world, done + u.writes, UserQuit)
  {
    FeedStep(env, w, input[i..], input[i], input[i + 1..]);
  }

  /** The session stays valid for a whole connection, whatever the user
      types and the network answers. */
  lemma {:induction false} FeedOk(env: Env, w: World, input: seq<byte>)
    requires env.width >= 2 && env.rows >= 1
    requires SceneOk(w.scene, env.width, env.rows) && PrintableText(w.keys.buffer)
    ensures var t := Feed(env, w, input);
      SceneOk(t.world.scene, env.width, env.rows) && PrintableText(t.world.keys.buffer)
    decreases |input|
  {
    if input != [] {
      var b := input[0];
      var rest := input[1..];
      var (k, a) := Step(w.keys, b, ByteAt(rest, 0), ByteAt(rest, 1), env.legacy);
      RespondOk(env, w.scene, w.prev, a);
      BufferStaysPrintable(w.keys, b, ByteAt(rest, 0), ByteAt(rest, 1), env.legacy);
      var u := Answer(env, w, b, rest);
      if !u.quit {
        FeedOk(env, u.world, rest[u.used..]);
      }
    }
  }

  /** `q` in normal mode ends the connection at once: nothing is written and
      nothing changes. */
  lemma QuitStops(env: Env, w: World, input: seq<byte>)
    requires env.width >= 2
    requires input != [] && w.keys.mode == Normal && (input[0] == 'q' as byte || input[0] == 'Q' as byte)
    ensures Feed(env, w, input) == Trace(w, [], UserQuit)
  {
    var u := Answer(env, w, input[0], input[1..]);
  }

  /** The session only ends with "user quit" on a byte that `Step` reads as
      `q`: a connection whose input holds no `q` or `Q` byte runs to the end
      of its input. */
  lemma {:induction false} NoQuitWithoutQ(env: Env, w: World, input: seq<byte>)
    requires env.width >= 2
    requires forall i :: 0 <= i < |input| ==> input[i] != 'q' as byte && input[i] != 'Q' as byte
    ensures Feed(env, w, input).exit == InputClosed
    decreases |input|
  {
    if input != [] {
      var rest := input[1..];
      var u := Answer(env, w, input[0], rest);
      assert forall i :: 0 <= i < |rest[u.used..]| ==> rest[u.used..][i] == input[1 + u.used + i];
      NoQuitWithoutQ(env, u.world, rest[u.used..]);
    }
  }

  class Session {
    var currentURL: string
    var content: seq<string>
    var links: seq<Link>
    var headerLines: set<int>
    var selectedLink: int
    var scrollOffset: int
    var prevSelectedLink: int
    var prevScrollOffset: int
    var lastByte: byte
    var history: seq<HistoryEntry>
    var historyIndex: int
    var inputMode: Mode
    var inputBuffer: string
    /** Everything written to the connection, one element per write. */
    var out: seq<string>

    const terminalHeight: int
    const terminalWidth: int
    /** `gemini.Fetch`: the answer of the network to a request for a URL. */
    const fetch: string -> FetchResult
    /** `url.Parse` and `ResolveReference`: a reference resolved against a base. */
    const resolve: (string, string) -> string
    /** How many redirects one navigation follows. */
    const redirectFuel: nat
    /** The older engine of the root session.go. */
    const legacy: bool

    /** The invariant of a session: a terminal of at least two columns and
        one content row, a valid position on a well-formed page, and the
        parts the position does not touch. */
    ghost predicate Valid()
      reads this`content, this`links, this`headerLines, this`scrollOffset, this`selectedLink,
            this`history, this`historyIndex, this`inputBuffer
    {
      && terminalWidth >= 2 && terminalHeight >= 4
      && Settled()
      && PosOk(View(), Here())
    }

    /** A well-formed page, an index into the history with non-negative
        stored positions, and a URL buffer of printable characters. */
    ghost predicate Settled()
      reads this`content, this`links, this`headerLines, this`history, this`historyIndex, this`inputBuffer
    {
      && LinksInRange(content, links)
      && HistoryOk(Hist())
      && PrintableText(inputBuffer)
    }

    function View(): Page
      reads this`content, this`links
    {
      Page(content, links, terminalWidth, terminalHeight - 3)
    }

    function ViewOf(d: Doc): Page
    {
      Page(d.content, d.links, terminalWidth, terminalHeight - 3)
    }

    function Here(): Pos
      reads this`scrollOffset, this`selectedLink
    {
      Pos(scrollOffset, selectedLink)
    }

    function Hist(): History
      reads this`history, this`historyIndex
    {
      History(history, historyIndex)
    }

    function Shown(): Doc
      reads this`content, this`headerLines, this`links
    {
      Doc(content, headerLines, links)
    }

    function Snapshot(): Scene
      reads this`currentURL, this`content, this`headerLines, this`links, this`scrollOffset,
            this`selectedLink, this`history, this`historyIndex
    {
      Scene(currentURL, Shown(), Here(), Hist())
    }

    function KeysNow(): Keys
      reads this`inputMode, this`inputBuffer, this`lastByte
    {
      Keys(inputMode, inputBuffer, lastByte)
    }

    /** The content line of the selected link, -1 when no link is selected. */
    function SelectedLine(): int
      reads this`links, this`selectedLink
    {
      SelectedLineOf(links, selectedLink)
    }

    /** What a full `render` writes in the current state. */
    function Screenful(): seq<string>
      reads this`currentURL, this`content, this`headerLines, this`links, this`scrollOffset,
            this`selectedLink, this`history, this`historyIndex
      requires terminalWidth >= 2
    {
      ScreenOf(Snapshot(), terminalWidth, terminalHeight - 3, legacy)
    }

    /** The status line of a full render. */
    function Status(): string
      reads this`currentURL, this`content, this`scrollOffset
      requires terminalWidth >= 2
    {
      StatusOf(currentURL, content, scrollOffset, terminalWidth, terminalHeight - 3, legacy)
    }

    /** What `renderContentLine` repaints for link `k`, nothing for a link not in the table. */
    function RepaintLink(k: int): seq<Paint>
      reads this`currentURL, this`content, this`headerLines, this`links, this`scrollOffset,
            this`selectedLink, this`history, this`historyIndex
      requires terminalWidth >= 2
    {
      RepaintOf(Snapshot(), k, terminalWidth, terminalHeight - 3)
    }

    /** `New` of internal/session/session.go: a 24 by 80 terminal, no page,
        an empty history at index -1, normal input mode. */
    constructor New(fetch: string -> FetchResult, resolve: (string, string) -> string, redirectFuel: nat)
      ensures Valid() && !legacy
      ensures terminalHeight == 24 && terminalWidth == 80
      ensures Snapshot() == Scene([], Doc([], {}, []), Pos(0, 0), History([], -1))
      ensures KeysNow() == Keys(Normal, [], 0) && out == []
      ensures this.fetch == fetch && this.resolve == resolve && this.redirectFuel == redirectFuel
    {
      this.fetch := fetch;
      this.resolve := resolve;
      this.redirectFuel := redirectFuel;
      legacy := false;
      terminalHeight := 24;
      terminalWidth := 80;
      currentURL := [];
      content := [];
      links := [];
      headerLines := {};
      selectedLink := 0;
      scrollOffset := 0;
      prevSelectedLink := 0;
      prevScrollOffset := 0;
      lastByte := 0;
      history := [];
      historyIndex := -1;
      inputMode := Normal;
      inputBuffer := [];
      out := [];
    }

    /** `NewSession` of the root session.go: the same starting state for the
        older engine. */
    constructor NewSession(fetch: string -> FetchResult, resolve: (string, string) -> string, redirectFuel: nat)
      ensures Valid() && legacy
      ensures terminalHeight == 24 && terminalWidth == 80
      ensures Snapshot() == Scene([], Doc([], {}, []), Pos(0, 0), History([], -1))
      ensures KeysNow() == Keys(Normal, [], 0) && out == []
      ensures this.fetch == fetch && this.resolve == resolve && this.redirectFuel == redirectFuel
    {
      this.fetch := fetch;
      this.resolve := resolve;
      this.redirectFuel := redirectFuel;
      legacy := true;
      terminalHeight := 24;
      terminalWidth := 80;
      currentURL := [];
      content := [];
      links := [];
      headerLines := {};
      selectedLink := 0;
      scrollOffset := 0;
      prevSelectedLink := 0;
      prevScrollOffset := 0;
      lastByte := 0;
      history := [];
      historyIndex := -1;
      inputMode := Normal;
      inputBuffer := [];
      out := [];
    }

    // -------------------------------------------------------------------
    // scroll.go

    /** `updateLinkSelectionWithDirection` */
    method UpdateLinkSelectionWithDirection(delta: int)
      requires terminalWidth >= 2
      modifies this`selectedLink
      ensures selectedLink == Reselect(View(), old(Here()), delta)
    {
      ghost var p := View();
      ghost var pos := Here();
      if |links| == 0 {
        selectedLink := 0;
        return;
      }
      var visibleLines := terminalHeight - 3;
      if selectedLink < 0 {
        selectedLink := 0;
      }
      if selectedLink >= |links| {
        selectedLink := |links| - 1;
      }
      if selectedLink >= 0 && selectedLink < |links| {
        var currentLinkDisplayLine := ContentLineToDisplayLine(content, terminalWidth, links[selectedLink].line);
        if currentLinkDisplayLine >= scrollOffset && currentLinkDisplayLine < scrollOffset + visibleLines {
          return;
        }
      }
      if delta < 0 {
        selectedLink := LastLinkShown();
      } else {
        selectedLink := FirstLinkShown();
      }
    }

    /** The backward search of `updateLinkSelectionWithDirection`: the last
        link whose line is on screen, and 0 when none is. */
    method LastLinkShown() returns (k: int)
      requires terminalWidth >= 2
      ensures k == match LastShown(View(), scrollOffset, |links|) case Some(j) => j case None => 0
    {
      ghost var p := View();
      var visibleLines := terminalHeight - 3;
      var i := |links| - 1;
      while i >= 0
        invariant -1 <= i < |links|
        invariant LastShown(p, scrollOffset, |links|) == LastShown(p, scrollOffset, i + 1)
      {
        var linkDisplayLine := ContentLineToDisplayLine(content, terminalWidth, links[i].line);
        if linkDisplayLine >= scrollOffset && linkDisplayLine < scrollOffset + visibleLines {
          return i;
        }
        i := i - 1;
      }
      return 0;
    }

    /** The forward search of `updateLinkSelectionWithDirection`: the first
        link whose line is on screen, and 0 when none is. */
    method FirstLinkShown() returns (k: int)
      requires terminalWidth >= 2
      ensures k == match FirstShown(View(), scrollOffset, 0) case Some(j) => j case None => 0
    {
      ghost var p := View();
      var visibleLines := terminalHeight - 3;
      for i := 0 to |links|
        invariant FirstShown(p, scrollOffset, 0) == FirstShown(p, scrollOffset, i)
      {
        var linkDisplayLine := ContentLineToDisplayLine(content, terminalWidth, links[i].line);
        if linkDisplayLine >= scrollOffset && linkDisplayLine < scrollOffset + visibleLines {
          return i;
        }
      }
      return 0;
    }

    /** `updateLinkSelection`: the forward direction. */
    method UpdateLinkSelection()
      requires terminalWidth >= 2
      modifies this`selectedLink
      ensures selectedLink == Reselect(View(), old(Here()), 1)
    {
      UpdateLinkSelectionWithDirection(1);
    }

    /** `moveLinkSelection` */
    method MoveLinkSelection(delta: int)
      requires terminalWidth >= 2
      modifies this`selectedLink, this`scrollOffset
      ensures Here() == MoveSelection(View(), old(Here()), delta)
    {
      if |links| == 0 {
        return;
      }
      selectedLink := selectedLink + delta;
      if selectedLink < 0 {
        selectedLink := 0;
      }
      if selectedLink >= |links| {
        selectedLink := |links| - 1;
      }
      var linkDisplayLine := ContentLineToDisplayLine(content, terminalWidth, links[selectedLink].line);
      var visibleLines := terminalHeight - 3;
      if linkDisplayLine < scrollOffset {
        scrollOffset := linkDisplayLine;
      } else if linkDisplayLine >= scrollOffset + visibleLines {
        scrollOffset := linkDisplayLine - visibleLines + 1;
      }
    }

    /** The page scroll of the root session.go: no bell, and the offset
        is only kept inside the display rows, not a page from the end. */
    method LegacyScrollPageBy(delta: int, dir: int)
      requires Valid() && legacy
      modifies this`scrollOffset, this`selectedLink
      ensures Valid()
      ensures Here() == ScrollBy(old(View()), old(Here()), delta, dir, legacy).pos
    {
      ghost var p := View();
      ghost var pos := Here();
      ScrollBySpec(p, pos, delta, dir, legacy);
      var linesPerPage := terminalHeight - 3;
      var totalDisplayLines: int := GetTotalDisplayLines(content, terminalWidth);
      scrollOffset := scrollOffset + delta * linesPerPage;
      if scrollOffset < 0 {
        scrollOffset := 0;
      }
      if scrollOffset >= totalDisplayLines {
        scrollOffset := totalDisplayLines - 1;
      }
      if scrollOffset < 0 {
        scrollOffset := 0;
      }
      assert scrollOffset == LegacyTarget(p, pos.scroll, delta);
      UpdateLinkSelectionWithDirection(dir);
    }

    /** The page scroll shared by `scrollPage` (selection direction 1) and
        `scrollPageWithDirection` (selection direction `delta`), in the newer
        version or, for the older engine, in the root session.go. */
    method ScrollPageBy(delta: int, dir: int)
      requires Valid()
      modifies this`scrollOffset, this`selectedLink, this`out
      ensures Valid()
      ensures var r := ScrollBy(old(View()), old(Here()), delta, dir, legacy);
        Here() == r.pos && out == old(out) + Beep(r.bell)
    {
      if legacy {
        LegacyScrollPageBy(delta, dir);
        return;
      }
      ghost var p := View();
      ghost var pos := Here();
      ScrollBySpec(p, pos, delta, dir, legacy);
      var linesPerPage := terminalHeight - 3;
      var totalDisplayLines := GetTotalDisplayLines(content, terminalWidth);
      var oldScrollOffset := scrollOffset;
      var newScrollOffset := scrollOffset + delta * linesPerPage;
      if newScrollOffset < 0 {
        newScrollOffset := 0;
      }
      var maxScroll := totalDisplayLines - linesPerPage;
      if maxScroll < 0 {
        maxScroll := 0;
      }
      if newScrollOffset > maxScroll {
        newScrollOffset := maxScroll;
      }
      assert newScrollOffset == PageTarget(p, pos.scroll, delta);
      if newScrollOffset == oldScrollOffset {
        out := out + [Bell];
        return;
      }
      scrollOffset := newScrollOffset;
      UpdateLinkSelectionWithDirection(dir);
    }

    /** `scrollPage` */
    method ScrollPage(delta: int)
      requires Valid()
      modifies this`scrollOffset, this`selectedLink, this`out
      ensures Valid()
      ensures var r := ScrollBy(old(View()), old(Here()), delta, 1, legacy);
        Here() == r.pos && out == old(out) + Beep(r.bell)
    {
      ScrollPageBy(delta, 1);
    }

    /** `scrollPageWithDirection` */
    method ScrollPageWithDirection(delta: int)
      requires Valid()
      modifies this`scrollOffset, this`selectedLink, this`out
      ensures Valid()
      ensures var r := ScrollBy(old(View()), old(Here()), delta, delta, legacy);
        Here() == r.pos && out == old(out) + Beep(r.bell)
    {
      ScrollPageBy(delta, delta);
    }

    /** `handleArrowKey` */
    method HandleArrowKey(delta: int)
      requires Valid()
      modifies this`scrollOffset, this`selectedLink, this`out
      ensures Valid()
      ensures var r := ArrowKey(old(View()), old(Here()), delta, legacy);
        Here() == r.pos && out == old(out) + Beep(r.bell)
    {
      ghost var p := View();
      ghost var pos := Here();
      var visibleLines := terminalHeight - 3;
      // No links, or no link in this direction: a page scroll.
      var nextLinkIdx := selectedLink + delta;
      if |links| == 0 || nextLinkIdx < 0 || nextLinkIdx >= |links| {
        assert ArrowKey(p, pos, delta, legacy) == ScrollBy(p, pos, delta, delta, legacy);
        ScrollPageWithDirection(delta);
        return;
      }
      var nextLinkContentLine := links[nextLinkIdx].line;
      var nextLinkDisplayLine := ContentLineToDisplayLine(content, terminalWidth, nextLinkContentLine);
      if nextLinkDisplayLine >= scrollOffset && nextLinkDisplayLine < scrollOffset + visibleLines {
        assert ArrowKey(p, pos, delta, legacy) == Scrolled(MoveSelection(p, pos, delta), false);
        MoveSelectionSpec(p, pos, delta);
        MoveLinkSelection(delta);
      } else {
        assert !LinkOnScreen(p, pos.scroll, nextLinkIdx);
        ScrollTowardLink(delta, nextLinkIdx);
      }
    }

    /** The off-screen case of `handleArrowKey`: a page scroll, after which
        link `next` is selected if the scroll brought it on screen. */
    method ScrollTowardLink(delta: int, next: int)
      requires Valid() && 0 <= next < |links|
      modifies this`scrollOffset, this`selectedLink, this`out
      ensures Valid()
      ensures var r := ScrollBy(old(View()), old(Here()), delta, delta, legacy);
        && Here() == (if LinkOnScreen(old(View()), r.pos.scroll, next) then Pos(r.pos.scroll, next) else r.pos)
        && out == old(out) + Beep(r.bell)
    {
      ScrollPageWithDirection(delta);
      var nextLinkDisplayLine := ContentLineToDisplayLine(content, terminalWidth, links[next].line);
      if nextLinkDisplayLine >= scrollOffset && nextLinkDisplayLine < scrollOffset + terminalHeight - 3 {
        selectedLink := next;
      }
    }

    // -------------------------------------------------------------------
    // navigation.go: parseContent

    /** `parseContent`: the body transliterated to ASCII, split at newlines,
        each piece stripped of trailing carriage returns and added to the
        page; the selection is reset. */
    method ParseContent(body: string)
      modifies this`content, this`links, this`headerLines, this`selectedLink
      ensures Shown() == Parsed(body)
      ensures selectedLink == 0
    {
      var asciiBody := UTF8ToASCII(body);
      var lines := SplitLines(asciiBody);
      content := [];
      links := [];
      headerLines := {};
      selectedLink := 0;
      var linkIndex: nat := 0;
      for i := 0 to |lines|
        invariant Shown() == ParseLines(lines[..i])
        invariant linkIndex == |links| && selectedLink == 0
      {
        var line := TrimTrailingCR(lines[i]);
        assert lines[..i + 1][..i] == lines[..i];
        ParseLinesUnfold(lines[..i + 1]);
        linkIndex := AddContentLine(line, linkIndex);
      }
      assert lines[..|lines|] == lines;
    }

    /** The body of the loop of `parseContent`: a header line is recorded
        in the header set, a `=>` line with at least one token becomes link
        number `linkIndex` and is shown as `[k] label`, and the line (or its
        display text) is appended to the content. */
    method AddContentLine(line: string, linkIndex: nat) returns (next: nat)
      requires linkIndex == |links|
      modifies this`content, this`links, this`headerLines
      ensures Shown() == AddLine(old(Shown()), line)
      ensures next == |links|
    {
      ghost var d := Shown();
      assert d == Doc(content, headerLines, links);
      next := linkIndex;
      var text := line;
      if HasPrefix(line, "#") {
        AddHeaderLine(d, line);
        headerLines := headerLines + {|content|};
      } else if HasPrefix(line, "=>") {
        var linkText := TrimSpace(line[2..]);
        var parts := Fields(linkText);
        if |parts| > 0 {
          AddLinkLine(d, line, parts);
          var linkURL := parts[0];
          var linkLabel := linkURL;
          if |parts| > 1 {
            linkLabel := JoinSpace(parts[1..]);
          }
          links := links + [Link(linkIndex, linkURL, linkLabel, |content|)];
          text := LinkDisplay(linkIndex, linkLabel);
          next := linkIndex + 1;
        } else {
          AddPlainLine(d, line);
        }
      } else {
        AddPlainLine(d, line);
      }
      content := content + [text];
    }

    // -------------------------------------------------------------------
    // navigation.go: navigateTo and the history

    /** The invariant, read off the scene. */
    lemma ValidOfScene()
      requires terminalWidth >= 2 && terminalHeight >= 4
      ensures Valid() <==> SceneOk(Snapshot(), terminalWidth, terminalHeight - 3) && PrintableText(inputBuffer)
    {
    }

    /** The first half of the history update of a successful `navigateTo`:
        drop the forward pages and store the page being left. */
    method SaveCurrentEntry()
      modifies this`history, this`historyIndex
      ensures Hist() == Saved(old(Hist()), if currentURL == [] then None
                                           else Some(HistoryEntry(currentURL, scrollOffset, selectedLink)))
    {
      if currentURL != [] {
        var currentEntry := HistoryEntry(currentURL, scrollOffset, selectedLink);
        if historyIndex >= 0 && historyIndex < |history| - 1 {
          history := history[..historyIndex + 1];
        }
        if historyIndex >= 0 && historyIndex < |history| {
          history := history[historyIndex := currentEntry];
        } else if |history| == 0 {
          history := history + [currentEntry];
          historyIndex := 0;
        }
      }
    }

    /** The error path of a fetch: the error or the status and meta, the key
        prompt, and a full render of the unchanged page. */
    method ReportFailure(r: FetchResult)
      requires terminalWidth >= 2 && terminalHeight >= 4 && scrollOffset >= 0
      modifies this`out, this`prevScrollOffset, this`prevSelectedLink
      ensures out == old(out) + ErrorReport(r) + Screenful()
      ensures prevSelectedLink == AfterRender(old(prevSelectedLink), Snapshot(), legacy)
    {
      ghost var report := ErrorReport(r);
      if r.FetchError? {
        out := out + ["Error: " + r.message + "\r\n"];
      } else {
        out := out + ["Error: Status " + IntToString(r.resp.statusCode) + " - " + r.resp.meta + "\r\n"];
      }
      out := out + [AnyKey];
      assert out == old(out) + report;
      Render();
    }

    /** The success path of `navigateTo`: store the page being left, show the
        new page from its top with link 0 selected, push it on the history
        and render it. */
    method ShowLoaded(target: string, body: string)
      requires terminalWidth >= 2 && terminalHeight >= 4 && SceneOk(Snapshot(), terminalWidth, terminalHeight - 3)
      modifies this`currentURL, this`content, this`links, this`headerLines, this`selectedLink,
               this`scrollOffset, this`history, this`historyIndex, this`out,
               this`prevScrollOffset, this`prevSelectedLink
      ensures SceneOk(Snapshot(), terminalWidth, terminalHeight - 3)
      ensures Snapshot() == Visit(old(Snapshot()), Loaded(target, body))
      ensures out == old(out) + Screenful()
      ensures prevSelectedLink == AfterRender(old(prevSelectedLink), Snapshot(), legacy)
    {
      ghost var out0 := out;
      InstallPage(target, body);
      assert out == out0;
      Render();
    }

    /** The state change of a successful `navigateTo`, before the render. */
    method InstallPage(target: string, body: string)
      requires terminalWidth >= 2 && SceneOk(Snapshot(), terminalWidth, terminalHeight - 3)
      modifies this`currentURL, this`content, this`links, this`headerLines, this`selectedLink,
               this`scrollOffset, this`history, this`historyIndex
      ensures Snapshot() == Visit(old(Snapshot()), Loaded(target, body))
      ensures SceneOk(Snapshot(), terminalWidth, terminalHeight - 3)
    {
      ghost var s0 := Snapshot();
      ghost var current := if s0.url == [] then None else Some(EntryOf(s0));
      SaveCurrentEntry();
      ghost var saved := Hist();
      assert saved == Saved(s0.hist, current);
      currentURL := target;
      ParseContent(body);
      scrollOffset := 0;
      selectedLink := 0;
      var newEntry := HistoryEntry(target, 0, 0);
      history := history + [newEntry];
      historyIndex := |history| - 1;
      assert Hist() == Push(s0.hist, current, target);
      assert Snapshot() == Scene(target, Parsed(body), Pos(0, 0), Push(s0.hist, current, target));
      VisitOk(s0, Loaded(target, body), terminalWidth, terminalHeight - 3);
    }

    /** `navigateTo`: resolve the URL against the page on screen, fetch it,
        follow a redirect (at most `fuel` of them), report an error and wait
        for a key, or show the page. `paused` tells the caller that a key is
        to be read. */
    method NavigateTo(urlStr: string, fuel: nat) returns (paused: bool)
      requires terminalWidth >= 2 && terminalHeight >= 4 && SceneOk(Snapshot(), terminalWidth, terminalHeight - 3)
      modifies this`currentURL, this`content, this`links, this`headerLines, this`selectedLink,
               this`scrollOffset, this`history, this`historyIndex, this`out,
               this`prevScrollOffset, this`prevSelectedLink
      ensures SceneOk(Snapshot(), terminalWidth, terminalHeight - 3)
      ensures var n := Follow(fetch, resolve, old(currentURL), urlStr, fuel);
        && Snapshot() == Visit(old(Snapshot()), n.outcome)
        && out == old(out) + n.writes + (if n.outcome.GaveUp? then [] else Screenful())
        && prevSelectedLink == (if n.outcome.GaveUp? then old(prevSelectedLink)
                                else AfterRender(old(prevSelectedLink), Snapshot(), legacy))
        && paused == n.outcome.Failed?
      decreases fuel, 1
    {
      ghost var out0 := out;
      ghost var n := Follow(fetch, resolve, currentURL, urlStr, fuel);
      var target := urlStr;
      if currentURL != [] {
        target := resolve(currentURL, urlStr);
      }
      var announce := "\r\n\U{1B}[KFetching " + target + "...\r\n";
      out := out + [announce];
      var r := fetch(target);
      if r.FetchError? {
        paused := NavigationFailed(urlStr, fuel, announce, r, out0);
        return;
      }
      var resp := r.resp;
      if resp.statusCode >= 30 && resp.statusCode < 40 {
        if fuel == 0 {
          assert n == Navigation(GaveUp, [announce]);
          return false;
        }
        paused := FollowRedirect(n, announce, resp.meta, fuel, out0);
        return;
      }
      if resp.statusCode < 20 || resp.statusCode >= 30 {
        paused := NavigationFailed(urlStr, fuel, announce, r, out0);
        return;
      }
      NavigationLoaded(urlStr, fuel, announce, target, resp.body, out0);
      paused := false;
    }

    /** The error cases of `navigateTo`: after the announcement, the report,
        the key prompt and a render of the page that stays. */
    method NavigationFailed(urlStr: string, fuel: nat, ghost announce: string, r: FetchResult, ghost out0: seq<string>)
      returns (paused: bool)
      requires terminalWidth >= 2 && terminalHeight >= 4 && SceneOk(Snapshot(), terminalWidth, terminalHeight - 3)
      requires out == out0 + [announce]
      requires Follow(fetch, resolve, currentURL, urlStr, fuel) == Navigation(Failed, [announce] + ErrorReport(r))
      modifies this`out, this`prevScrollOffset, this`prevSelectedLink
      ensures SceneOk(Snapshot(), terminalWidth, terminalHeight - 3)
      ensures var n := Follow(fetch, resolve, old(currentURL), urlStr, fuel);
        && Snapshot() == Visit(old(Snapshot()), n.outcome)
        && out == out0 + n.writes + (if n.outcome.GaveUp? then [] else Screenful())
        && prevSelectedLink == AfterRender(old(prevSelectedLink), Snapshot(), legacy)
        && paused == n.outcome.Failed?
    {
      ReportFailure(r);
      Regroup(out0, [announce], ErrorReport(r));
      paused := true;
    }

    /** The success case of `navigateTo`: after the announcement, the new page. */
    method NavigationLoaded(urlStr: string, fuel: nat, ghost announce: string, target: string, body: string,
                            ghost out0: seq<string>)
      requires terminalWidth >= 2 && terminalHeight >= 4 && SceneOk(Snapshot(), terminalWidth, terminalHeight - 3)
      requires out == out0 + [announce]
      requires Follow(fetch, resolve, currentURL, urlStr, fuel) == Navigation(Loaded(target, body), [announce])
      modifies this`currentURL, this`content, this`links, this`headerLines, this`selectedLink,
               this`scrollOffset, this`history, this`historyIndex, this`out,
               this`prevScrollOffset, this`prevSelectedLink
      ensures SceneOk(Snapshot(), terminalWidth, terminalHeight - 3)
      ensures var n := Follow(fetch, resolve, old(currentURL), urlStr, fuel);
        && Snapshot() == Visit(old(Snapshot()), n.outcome)
        && out == out0 + n.writes + (if n.outcome.GaveUp? then [] else Screenful())
        && prevSelectedLink == AfterRender(old(prevSelectedLink), Snapshot(), legacy)
    {
      ShowLoaded(target, body);
    }

    /** The redirect case of `navigateTo`: after the announcement of the
        first URL, a navigation to the meta URL, still relative to the page
        on screen. */
    method FollowRedirect(ghost n: Navigation, ghost announce: string, meta: string, fuel: nat, ghost out0: seq<string>)
      returns (paused: bool)
      requires terminalWidth >= 2 && terminalHeight >= 4 && SceneOk(Snapshot(), terminalWidth, terminalHeight - 3)
      requires fuel > 0 && out == out0 + [announce]
      requires n.outcome == Follow(fetch, resolve, currentURL, meta, fuel - 1).outcome
      requires n.writes == [announce] + Follow(fetch, resolve, currentURL, meta, fuel - 1).writes
      modifies this`currentURL, this`content, this`links, this`headerLines, this`selectedLink,
               this`scrollOffset, this`history, this`historyIndex, this`out,
               this`prevScrollOffset, this`prevSelectedLink
      ensures SceneOk(Snapshot(), terminalWidth, terminalHeight - 3)
      ensures Snapshot() == Visit(old(Snapshot()), n.outcome)
      ensures out == out0 + n.writes + (if n.outcome.GaveUp? then [] else Screenful())
      ensures paused == n.outcome.Failed?
      ensures prevSelectedLink == (if n.outcome.GaveUp? then old(prevSelectedLink)
                                   else AfterRender(old(prevSelectedLink), Snapshot(), legacy))
      decreases fuel, 0
    {
      ghost var m := Follow(fetch, resolve, currentURL, meta, fuel - 1);
      paused := NavigateTo(meta, fuel - 1);
      RegroupMiddle(out0, [announce], m.writes, if n.outcome.GaveUp? then [] else Screenful(), n.writes);
    }

    /** `loadFromHistory`: reload the page at the history index and restore
        its stored position, checked against the new page; on an error,
        report it, wait for a key and redraw the page that is still shown. */
    method LoadFromHistory() returns (paused: bool)
      requires terminalWidth >= 2 && terminalHeight >= 4 && SceneOk(Snapshot(), terminalWidth, terminalHeight - 3)
      modifies this`currentURL, this`content, this`links, this`headerLines, this`selectedLink,
               this`scrollOffset, this`out, this`prevScrollOffset, this`prevSelectedLink
      ensures SceneOk(Snapshot(), terminalWidth, terminalHeight - 3)
      ensures Snapshot() == Revisit(fetch, old(Snapshot()), old(Hist()), terminalWidth, terminalHeight - 3)
      ensures paused == Pauses(fetch, old(Hist()))
      ensures out == old(out) + Reload(fetch, old(Hist())).writes + (if paused then Screenful() else [])
      ensures prevSelectedLink == if paused then AfterRender(old(prevSelectedLink), Snapshot(), legacy) else old(prevSelectedLink)
    {
      ghost var s0 := Snapshot();
      RevisitOk(fetch, s0, Hist(), terminalWidth, terminalHeight - 3);
      if historyIndex < 0 || historyIndex >= |history| {
        assert s0.(hist := s0.hist) == s0;
        return false;
      }
      ghost var out0 := out;
      var entry := history[historyIndex];
      var announce := "\r\n\U{1B}[KLoading " + entry.url + "...\r\n";
      out := out + [announce];
      var r := fetch(entry.url);
      if r.FetchError? {
        paused := ReloadFailed(r, announce, out0);
        return;
      }
      if r.resp.statusCode < 20 || r.resp.statusCode >= 30 {
        paused := ReloadFailed(r, announce, out0);
        return;
      }
      RestoreEntry(entry, r.resp.body);
      paused := false;
    }

    /** The error cases of `loadFromHistory`: the report, the key prompt and
        a render of the page that is still shown. */
    method ReloadFailed(r: FetchResult, ghost announce: string, ghost out0: seq<string>) returns (paused: bool)
      requires terminalWidth >= 2 && terminalHeight >= 4 && SceneOk(Snapshot(), terminalWidth, terminalHeight - 3)
      requires out == out0 + [announce]
      requires HasEntry(Hist()) && Reload(fetch, Hist()) == Navigation(Failed, [announce] + ErrorReport(r))
      modifies this`out, this`prevScrollOffset, this`prevSelectedLink
      ensures Snapshot() == old(Snapshot())
      ensures paused == Pauses(fetch, Hist())
      ensures out == out0 + Reload(fetch, Hist()).writes + (if paused then Screenful() else [])
      ensures prevSelectedLink == AfterRender(old(prevSelectedLink), Snapshot(), legacy)
    {
      ReportFailure(r);
      Regroup(out0, [announce], ErrorReport(r));
      paused := true;
    }

    /** The success case of `loadFromHistory`: the reloaded page at the
        entry's stored position, clamped to the new page. */
    method RestoreEntry(entry: HistoryEntry, body: string)
      requires terminalWidth >= 2 && terminalHeight >= 4
      requires HasEntry(Hist()) && entry == history[historyIndex]
      requires Reload(fetch, Hist()).outcome == Loaded(entry.url, body)
      modifies this`currentURL, this`content, this`links, this`headerLines, this`selectedLink, this`scrollOffset
      ensures Snapshot() == Revisit(fetch, old(Snapshot()), Hist(), terminalWidth, terminalHeight - 3)
    {
      ghost var h := Hist();
      RevisitLoaded(fetch, Snapshot(), h, terminalWidth, terminalHeight - 3, body);
      currentURL := entry.url;
      ParseContent(body);
      ghost var doc := Parsed(body);
      ghost var p := Page(doc.content, doc.links, terminalWidth, terminalHeight - 3);
      scrollOffset := entry.scrollOffset;
      selectedLink := entry.selectedLink;
      if selectedLink >= |links| {
        selectedLink := 0;
      }
      var totalDisplayLines := GetTotalDisplayLines(content, terminalWidth);
      if scrollOffset >= totalDisplayLines {
        scrollOffset := 0;
      }
      assert Here() == Restore(p, entry.scrollOffset, entry.selectedLink);
      assert Snapshot() == Scene(entry.url, doc, Restore(p, entry.scrollOffset, entry.selectedLink), h);
    }

    /** `navigateBack`: nothing at the first page; otherwise store the page
        being left, move the index back and reload. */
    method NavigateBack() returns (paused: bool)
      requires terminalWidth >= 2 && terminalHeight >= 4 && SceneOk(Snapshot(), terminalWidth, terminalHeight - 3)
      modifies this`currentURL, this`content, this`links, this`headerLines, this`selectedLink,
               this`scrollOffset, this`history, this`historyIndex, this`out,
               this`prevScrollOffset, this`prevSelectedLink
      ensures SceneOk(Snapshot(), terminalWidth, terminalHeight - 3)
      ensures old(historyIndex) <= 0 ==> Snapshot() == old(Snapshot()) && out == old(out) && !paused && prevSelectedLink == old(prevSelectedLink)
      ensures old(historyIndex) > 0 ==>
        var h := StepBack(old(Hist()), EntryOf(old(Snapshot())));
        && Snapshot() == Revisit(fetch, old(Snapshot()), h, terminalWidth, terminalHeight - 3)
        && paused == Pauses(fetch, h)
        && out == old(out) + Reload(fetch, h).writes + (if paused then Screenful() else [])
        && prevSelectedLink == if paused then AfterRender(old(prevSelectedLink), Snapshot(), legacy) else old(prevSelectedLink)
    {
      if historyIndex <= 0 {
        return false;
      }
      ghost var s0 := Snapshot();
      ghost var h := StepBack(Hist(), EntryOf(s0));
      StepBackSpec(Hist(), EntryOf(s0));
      EntriesStayOk(Hist(), EntryOf(s0), currentURL);
      if historyIndex < |history| {
        history := history[historyIndex := HistoryEntry(currentURL, scrollOffset, selectedLink)];
      }
      historyIndex := historyIndex - 1;
      assert Hist() == h;
      assert Snapshot() == s0.(hist := h);
      paused := LoadFromHistory();
    }

    /** `navigateForward`: nothing at the last page; otherwise store the page
        being left, move the index forward and reload. */
    method NavigateForward() returns (paused: bool)
      requires terminalWidth >= 2 && terminalHeight >= 4 && SceneOk(Snapshot(), terminalWidth, terminalHeight - 3)
      modifies this`currentURL, this`content, this`links, this`headerLines, this`selectedLink,
               this`scrollOffset, this`history, this`historyIndex, this`out,
               this`prevScrollOffset, this`prevSelectedLink
      ensures SceneOk(Snapshot(), terminalWidth, terminalHeight - 3)
      ensures old(historyIndex) >= |old(history)| - 1 ==> Snapshot() == old(Snapshot()) && out == old(out) && !paused && prevSelectedLink == old(prevSelectedLink)
      ensures old(historyIndex) < |old(history)| - 1 ==>
        var h := StepForward(old(Hist()), EntryOf(old(Snapshot())));
        && Snapshot() == Revisit(fetch, old(Snapshot()), h, terminalWidth, terminalHeight - 3)
        && paused == Pauses(fetch, h)
        && out == old(out) + Reload(fetch, h).writes + (if paused then Screenful() else [])
        && prevSelectedLink == if paused then AfterRender(old(prevSelectedLink), Snapshot(), legacy) else old(prevSelectedLink)
    {
      if historyIndex >= |history| - 1 {
        return false;
      }
      ghost var s0 := Snapshot();
      ghost var h := StepForward(Hist(), EntryOf(s0));
      StepForwardSpec(Hist(), EntryOf(s0));
      EntriesStayOk(Hist(), EntryOf(s0), currentURL);
      if historyIndex >= 0 && historyIndex < |history| {
        history := history[historyIndex := HistoryEntry(currentURL, scrollOffset, selectedLink)];
      }
      historyIndex := historyIndex + 1;
      assert Hist() == h;
      assert Snapshot() == s0.(hist := h);
      paused := LoadFromHistory();
    }

    // -------------------------------------------------------------------
    // render.go

    /** One row's text between its highlighting: reverse video for the
        selected link, else bold for a header, and the reset after either. */
    method WriteStyled(text: string, isSelected: bool, isHeader: bool)
      modifies this`out
      ensures var st := Highlight(isSelected, isHeader);
        out == old(out) + StyleOn(st) + [text] + StyleOff(st)
    {
      if isSelected {
        out := out + ["\U{1B}[7m"];
      } else if isHeader {
        out := out + ["\U{1B}[1m"];
      }
      out := out + [text];
      if isSelected || isHeader {
        out := out + ["\U{1B}[0m"];
      }
    }

    /** One row of a full render: the styled chunk and the line end. */
    method WriteRow(text: string, isSelected: bool, isHeader: bool)
      modifies this`out
      ensures out == old(out) + RowWrites(Row(text, Highlight(isSelected, isHeader)))
    {
      WriteStyled(text, isSelected, isHeader);
      out := out + ["\r\n"];
    }

    /** `render`: the whole screen. The newer version also remembers the
        offset and selection it drew, for a later partial redraw. */
    method Render()
      requires terminalWidth >= 2 && terminalHeight >= 4 && scrollOffset >= 0
      modifies this`out, this`prevScrollOffset, this`prevSelectedLink
      ensures out == old(out) + Screenful()
      ensures prevSelectedLink == AfterRender(old(prevSelectedLink), Snapshot(), legacy)
      ensures prevScrollOffset == if !legacy && content != [] then scrollOffset else old(prevScrollOffset)
    {
      DrawScreen();
      RememberDrawn();
    }

    /** The end of `render`: the newer version records what it drew. */
    method RememberDrawn()
      modifies this`prevScrollOffset, this`prevSelectedLink
      ensures prevSelectedLink == AfterRender(old(prevSelectedLink), Snapshot(), legacy)
      ensures prevScrollOffset == if !legacy && content != [] then scrollOffset else old(prevScrollOffset)
    {
      if content != [] && !legacy {
        prevScrollOffset := scrollOffset;
        prevSelectedLink := selectedLink;
      }
    }

    /** What `render` writes: the header, then the window of display rows,
        or the no-page line when nothing is loaded. */
    method DrawScreen()
      requires terminalWidth >= 2 && terminalHeight >= 4 && scrollOffset >= 0
      modifies this`out
      ensures out == old(out) + Screenful()
    {
      var visibleLines := terminalHeight - 3;
      ghost var out0 := out;
      ghost var scene := Snapshot();
      ghost var sel := SelectedLine();
      ghost var status := Status();
      ghost var header := [Clear, status, "\r\n", Repeat('-', terminalWidth), "\r\n"];
      ghost var body := if content == [] then [NoPage]
                        else RowsWrites(Window(AllRows(content, terminalWidth, headerLines, sel), scrollOffset, visibleLines));
      ghost var screen := ScreenOf(scene, terminalWidth, visibleLines, legacy);
      assert screen == Frame(status, content, terminalWidth, headerLines, sel, scrollOffset, visibleLines);
      FrameAfter(out0, status, content, terminalWidth, headerLines, sel, scrollOffset, visibleLines);
      assert out0 + screen == out0 + header + body;
      RenderHeader();
      assert out == out0 + header;
      if content == [] {
        out := out + [NoPage];
      } else {
        var selectedContentLine := -1;
        if selectedLink >= 0 && selectedLink < |links| {
          selectedContentLine := links[selectedLink].line;
        }
        assert selectedContentLine == sel;
        RenderRows(selectedContentLine, visibleLines);
      }
      assert out == out0 + header + body;
      assert Snapshot() == scene;
    }

    /** The top of `render`: clear the screen, the status line, a rule of dashes. */
    method RenderHeader()
      requires terminalWidth >= 2
      modifies this`out
      ensures out == old(out) + [Clear, Status(), "\r\n", Repeat('-', terminalWidth), "\r\n"]
    {
      out := out + [Clear];
      var statusLine;
      if legacy {
        statusLine := LegacyStatusLine(currentURL, terminalWidth);
      } else {
        var visibleLines := terminalHeight - 3;
        var totalDisplayLines := GetTotalDisplayLines(content, terminalWidth);
        statusLine := StatusLine(currentURL, scrollOffset, visibleLines, totalDisplayLines, terminalWidth);
      }
      out := out + [statusLine];
      out := out + ["\r\n"];
      out := out + [Repeat('-', terminalWidth)];
      out := out + ["\r\n"];
    }

    /** The content area of `render`: the display rows of the page from the
        scroll offset on, as many as the window holds. */
    method RenderRows(selectedContentLine: int, visibleLines: int)
      requires terminalWidth >= 2 && scrollOffset >= 0 && visibleLines >= 1
      modifies this`out
      ensures out == old(out) + RowsWrites(Window(AllRows(content, terminalWidth, headerLines, selectedContentLine),
                                                  scrollOffset, visibleLines))
    {
      ghost var all := AllRows(content, terminalWidth, headerLines, selectedContentLine);
      AllRowsLength(content, terminalWidth, headerLines, selectedContentLine);
      DisplayOffsetEnds(content, terminalWidth, |content|);
      ghost var out0 := out;
      var currentDisplayLine := 0;
      var linesDisplayed := 0;
      var contentLineIdx := 0;
      while contentLineIdx < |content| && linesDisplayed < visibleLines
        invariant 0 <= contentLineIdx <= |content|
        invariant 0 <= linesDisplayed <= visibleLines
        invariant linesDisplayed < visibleLines ==>
          && currentDisplayLine == DisplayOffset(content, terminalWidth, contentLineIdx)
          && linesDisplayed == Max(0, currentDisplayLine - scrollOffset)
        invariant out == WindowWritten(out0, all, scrollOffset, linesDisplayed)
      {
        currentDisplayLine, linesDisplayed :=
          RenderWrapped(contentLineIdx, selectedContentLine, visibleLines, currentDisplayLine, linesDisplayed, all, out0);
        contentLineIdx := contentLineIdx + 1;
      }
      WindowWrittenRows(out0, all, scrollOffset, linesDisplayed);
      WindowToEnd(all, scrollOffset, linesDisplayed, visibleLines);
    }

    /** The inner loop of `render`: the chunks of content line `c`, skipping
        the display rows above the scroll offset and stopping when the window
        is full. */
    method RenderWrapped(c: nat, selectedContentLine: int, visibleLines: int, displayLine: int, shown: int,
                         ghost all: seq<Row>, ghost out0: seq<string>)
      returns (displayLine': int, shown': int)
      requires terminalWidth >= 2 && scrollOffset >= 0 && c < |content|
      requires all == AllRows(content, terminalWidth, headerLines, selectedContentLine)
      requires 0 <= shown < visibleLines
      requires displayLine == DisplayOffset(content, terminalWidth, c) && shown == Max(0, displayLine - scrollOffset)
      requires out == WindowWritten(out0, all, scrollOffset, shown)
      modifies this`out
      ensures 0 <= shown' <= visibleLines
      ensures shown' < visibleLines ==>
        displayLine' == DisplayOffset(content, terminalWidth, c + 1) && shown' == Max(0, displayLine' - scrollOffset)
      ensures out == WindowWritten(out0, all, scrollOffset, shown')
    {
      var wrappedLines := WrapLine(content[c], terminalWidth);
      var isSelected := c == selectedContentLine;
      var isHeader := c in headerLines;
      LineRows(content, terminalWidth, headerLines, selectedContentLine, c);
      assert DisplayOffset(content, terminalWidth, c + 1) == displayLine + |wrappedLines|;
      displayLine', shown' := RenderChunks(wrappedLines, isSelected, isHeader, visibleLines, displayLine, shown,
                                           Highlight(isSelected, isHeader), all, out0);
    }

    /** The loop over the chunks of one content line, which are the page's
        rows from `base` on: rows above the offset are only counted, the
        others are written in the line's style, each followed by CR LF, until
        the window is full. */
    method RenderChunks(wrappedLines: seq<string>, isSelected: bool, isHeader: bool, visibleLines: int,
                        base: int, shown: int, ghost st: Style, ghost all: seq<Row>, ghost out0: seq<string>)
      returns (displayLine': int, shown': int)
      requires 0 <= scrollOffset && 0 <= base && base + |wrappedLines| <= |all| && st == Highlight(isSelected, isHeader)
      requires forall j :: 0 <= j < |wrappedLines| ==> all[base + j] == Row(wrappedLines[j], st)
      requires 0 <= shown < visibleLines && shown == Max(0, base - scrollOffset)
      requires out == WindowWritten(out0, all, scrollOffset, shown)
      modifies this`out
      ensures 0 <= shown' <= visibleLines
      ensures shown' < visibleLines ==> displayLine' == base + |wrappedLines| && shown' == Max(0, displayLine' - scrollOffset)
      ensures out == WindowWritten(out0, all, scrollOffset, shown')
    {
      displayLine', shown' := base, shown;
      var j := 0;
      while j < |wrappedLines|
        invariant 0 <= j <= |wrappedLines|
        invariant 0 <= shown' <= visibleLines
        invariant displayLine' == base + j && shown' == Max(0, displayLine' - scrollOffset)
        invariant out == WindowWritten(out0, all, scrollOffset, shown')
      {
        if displayLine' >= scrollOffset && shown' >= visibleLines {
          break;
        }
        if displayLine' < scrollOffset {
          displayLine' := displayLine' + 1;
        } else {
          assert shown' == base + j - scrollOffset;
          WindowWrittenNext(out0, all, scrollOffset, shown', base + j, wrappedLines[j], st);
          WriteRow(wrappedLines[j], isSelected, isHeader);
          displayLine', shown' := displayLine' + 1, shown' + 1;
        }
        j := j + 1;
      }
    }

    /** `renderContentLine`: repaint the rows of one content line in place,
        from its first display row down to the bottom of the window, when
        its first display row is on screen. (The link index it is given is
        not used.) */
    method RenderContentLine(contentLineIdx: int, selectedLinkIdx: int, visibleLines: int)
      requires terminalWidth >= 2
      modifies this`out
      ensures out == old(out) + PaintsWrites(Repaint(content, terminalWidth, headerLines, SelectedLine(),
                                                     contentLineIdx, scrollOffset, visibleLines))
    {
      if contentLineIdx < 0 || contentLineIdx >= |content| {
        return;
      }
      var displayLine := ContentLineToDisplayLine(content, terminalWidth, contentLineIdx);
      if displayLine < scrollOffset || displayLine >= scrollOffset + visibleLines {
        return;
      }
      RenderVisibleLine(contentLineIdx, displayLine, visibleLines);
    }

    /** The rest of `renderContentLine`, once the line's first display row
        is known to be on screen: its chunks in the line's style. */
    method RenderVisibleLine(contentLineIdx: int, displayLine: int, visibleLines: int)
      requires terminalWidth >= 2 && 0 <= contentLineIdx < |content|
      requires displayLine == DisplayOffset(content, terminalWidth, contentLineIdx)
      requires scrollOffset <= displayLine < scrollOffset + visibleLines
      modifies this`out
      ensures out == old(out) + PaintsWrites(Repaint(content, terminalWidth, headerLines, SelectedLine(),
                                                     contentLineIdx, scrollOffset, visibleLines))
    {
      var screenRow := displayLine - scrollOffset;
      var absoluteRow := screenRow + 3;
      var wrappedLines := WrapLine(content[contentLineIdx], terminalWidth);
      var isSelected := selectedLink >= 0 && selectedLink < |links| && links[selectedLink].line == contentLineIdx;
      var isHeader := contentLineIdx in headerLines;
      ghost var sel := SelectedLine();
      assert isSelected == (contentLineIdx == sel);
      RepaintOnScreen(content, terminalWidth, headerLines, sel, contentLineIdx, scrollOffset, visibleLines,
                      displayLine, wrappedLines, absoluteRow, Min(|wrappedLines|, visibleLines - screenRow),
                      Highlight(isSelected, isHeader));
      PaintRows(wrappedLines, absoluteRow, visibleLines - screenRow, isSelected, isHeader);
    }

    /** The loop of `renderContentLine`: the chunks in one style on
        consecutive rows from `row0`, stopping after `room` rows. */
    method PaintRows(wrappedLines: seq<string>, absoluteRow: int, room: int, isSelected: bool, isHeader: bool)
      requires room >= 1
      modifies this`out
      ensures out == old(out) + PaintsWrites(Painted(wrappedLines, absoluteRow, Min(|wrappedLines|, room),
                                                     Highlight(isSelected, isHeader)))
    {
      ghost var st := Highlight(isSelected, isHeader);
      ghost var n := Min(|wrappedLines|, room);
      ghost var out0 := out;
      var i := 0;
      while i < |wrappedLines|
        invariant 0 <= i <= n
        invariant out == out0 + PaintsWrites(Painted(wrappedLines, absoluteRow, i, st))
      {
        var currentRow := absoluteRow + i;
        if i >= room {
          break;
        }
        PaintedStep(out0, wrappedLines, absoluteRow, i, st);
        PaintRow(currentRow, wrappedLines[i], isSelected, isHeader);
        i := i + 1;
      }
      assert i == n;
    }

    /** The five writes of `PaintRow`, appended one by one, append the row's run. */
    static lemma RowRun(b: seq<string>, x: seq<string>, y: seq<string>, s: seq<string>, t: seq<string>, u: seq<string>)
      ensures b + (x + y + s + t + u) == b + x + y + s + t + u
    {
    }

    /** One row of `renderContentLine`: move the cursor to the row, clear
        it, and write the styled chunk. */
    method PaintRow(row: int, text: string, isSelected: bool, isHeader: bool)
      modifies this`out
      ensures out == old(out) + PaintWrites(Paint(row, Row(text, Highlight(isSelected, isHeader))))
    {
      out := out + ["\U{1B}[" + IntToString(row) + ";1H"];
      out := out + ["\U{1B}[K"];
      WriteStyled(text, isSelected, isHeader);
      RowRun(old(out), ["\U{1B}[" + IntToString(row) + ";1H"], ["\U{1B}[K"],
             StyleOn(Highlight(isSelected, isHeader)), [text], StyleOff(Highlight(isSelected, isHeader)));
    }

    /** The content line of link `k` repainted in place, when `k` is a link
        of the page. */
    method RepaintLinkLine(k: int, visibleLines: int)
      requires terminalWidth >= 2 && visibleLines == terminalHeight - 3
      modifies this`out
      ensures out == old(out) + PaintsWrites(RepaintLink(k))
    {
      if k >= 0 && k < |links| {
        var linkContentLine := links[k].line;
        RenderContentLine(linkContentLine, k, visibleLines);
      }
    }

    /** `renderPartialLinkUpdate`: repaint the previously selected link and
        the selected one, and remember the selection. Nothing happens when
        no page is loaded. */
    method RenderPartialLinkUpdate()
      requires terminalWidth >= 2
      modifies this`out, this`prevSelectedLink
      ensures out == old(out) + PaintsWrites(RepaintLink(old(prevSelectedLink))) + PaintsWrites(RepaintLink(selectedLink))
      ensures content != [] ==> prevSelectedLink == selectedLink
      ensures content == [] ==> prevSelectedLink == old(prevSelectedLink)
    {
      if content == [] {
        assert RepaintLink(prevSelectedLink) == [] && RepaintLink(selectedLink) == [];
        return;
      }
      var visibleLines := terminalHeight - 3;
      RepaintLinkLine(prevSelectedLink, visibleLines);
      RepaintLinkLine(selectedLink, visibleLines);
      prevSelectedLink := selectedLink;
    }

    // -------------------------------------------------------------------
    // input.go: the actions of the keys

    /** This session's parameters, as `Respond` takes them. */
    function EnvOf(): Env
    {
      Env(fetch, resolve, redirectFuel, terminalWidth, terminalHeight - 3, legacy)
    }

    /** `navigateTo(url)` on behalf of a key: a submitted URL or the selected link. */
    method GoTo(url: string) returns (paused: bool)
      requires terminalWidth >= 2 && terminalHeight >= 4 && SceneOk(Snapshot(), terminalWidth, terminalHeight - 3)
      modifies this`currentURL, this`content, this`links, this`headerLines, this`selectedLink,
               this`scrollOffset, this`history, this`historyIndex, this`out,
               this`prevScrollOffset, this`prevSelectedLink
      ensures var r := Navigate(EnvOf(), old(Snapshot()), old(prevSelectedLink), url);
        Snapshot() == r.scene && prevSelectedLink == r.prev && out == old(out) + r.writes && paused == r.paused
    {
      ghost var s0 := Snapshot();
      ghost var p0 := prevSelectedLink;
      ghost var o0 := out;
      ghost var n := Follow(fetch, resolve, currentURL, url, redirectFuel);
      paused := NavigateTo(url, redirectFuel);
      ghost var screen := Screenful();
      ghost var writes := n.writes + (if n.outcome.GaveUp? then [] else screen);
      Regroup(o0, n.writes, if n.outcome.GaveUp? then [] else screen);
      NavigateReply(EnvOf(), s0, p0, url, n, Snapshot(), prevSelectedLink, screen, writes, paused);
    }

    /** Backspace, DEL or left arrow: `navigateBack`, then `render`. */
    method GoBack() returns (paused: bool)
      requires terminalWidth >= 2 && terminalHeight >= 4 && SceneOk(Snapshot(), terminalWidth, terminalHeight - 3)
      modifies this`currentURL, this`content, this`links, this`headerLines, this`selectedLink,
               this`scrollOffset, this`history, this`historyIndex, this`out,
               this`prevScrollOffset, this`prevSelectedLink
      ensures var r := Respond(EnvOf(), old(Snapshot()), old(prevSelectedLink), Back);
        Snapshot() == r.scene && prevSelectedLink == r.prev && out == old(out) + r.writes && paused == r.paused
    {
      ghost var s0 := Snapshot();
      ghost var p0 := prevSelectedLink;
      ghost var o0 := out;
      RespondBack(EnvOf(), s0, p0);
      paused := NavigateBack();
      ghost var s1 := Snapshot();
      ghost var p1 := prevSelectedLink;
      ghost var o1 := out;
      ghost var screen := ScreenOf(s1, terminalWidth, terminalHeight - 3, legacy);
      Render();
      assert Snapshot() == s1;
      assert out == o1 + screen;
      if s0.hist.index <= 0 {
        assert o1 == o0 && s1 == s0 && p1 == p0;
      } else {
        ghost var h := StepBack(s0.hist, EntryOf(s0));
        ghost var reload := Reload(fetch, h).writes;
        ghost var pause := if paused then screen else [];
        assert o1 == o0 + reload + pause;
        Regroup(o0, reload, pause);
        Regroup(o0, reload + pause, screen);
        RevisitedReply(EnvOf(), s0, p0, h, s1, prevSelectedLink, screen, reload + pause + screen, paused);
      }
    }

    /** Right arrow: `navigateForward`, then `render`. */
    method GoForward() returns (paused: bool)
      requires terminalWidth >= 2 && terminalHeight >= 4 && SceneOk(Snapshot(), terminalWidth, terminalHeight - 3)
      modifies this`currentURL, this`content, this`links, this`headerLines, this`selectedLink,
               this`scrollOffset, this`history, this`historyIndex, this`out,
               this`prevScrollOffset, this`prevSelectedLink
      ensures var r := Respond(EnvOf(), old(Snapshot()), old(prevSelectedLink), Forward);
        Snapshot() == r.scene && prevSelectedLink == r.prev && out == old(out) + r.writes && paused == r.paused
    {
      ghost var s0 := Snapshot();
      ghost var p0 := prevSelectedLink;
      ghost var o0 := out;
      RespondForward(EnvOf(), s0, p0);
      paused := NavigateForward();
      ghost var s1 := Snapshot();
      ghost var p1 := prevSelectedLink;
      ghost var o1 := out;
      ghost var screen := ScreenOf(s1, terminalWidth, terminalHeight - 3, legacy);
      Render();
      assert Snapshot() == s1;
      assert out == o1 + screen;
      if s0.hist.index >= |s0.hist.entries| - 1 {
        assert o1 == o0 && s1 == s0 && p1 == p0;
      } else {
        ghost var h := StepForward(s0.hist, EntryOf(s0));
        ghost var reload := Reload(fetch, h).writes;
        ghost var pause := if paused then screen else [];
        assert o1 == o0 + reload + pause;
        Regroup(o0, reload, pause);
        Regroup(o0, reload + pause, screen);
        RevisitedReply(EnvOf(), s0, p0, h, s1, prevSelectedLink, screen, reload + pause + screen, paused);
      }
    }

    /** `scrollPageWithDirection`, read off the scene. */
    method PageScroll(delta: int)
      requires Valid()
      modifies this`scrollOffset, this`selectedLink, this`out
      ensures Valid()
      ensures var s := old(Snapshot()); var r := PageScrolled(EnvOf(), s, delta);
        Snapshot() == s.(pos := r.pos) && out == old(out) + Beep(r.bell)
    {
      ScrollPageWithDirection(delta);
    }

    /** `handleArrowKey`, read off the scene. */
    method ArrowMove(delta: int)
      requires Valid()
      modifies this`scrollOffset, this`selectedLink, this`out
      ensures Valid()
      ensures var s := old(Snapshot()); var r := ArrowMoved(EnvOf(), s, delta);
        Snapshot() == s.(pos := r.pos) && out == old(out) + Beep(r.bell)
    {
      HandleArrowKey(delta);
    }

    /** `render`, read off the scene. */
    method Redraw()
      requires terminalWidth >= 2 && terminalHeight >= 4 && scrollOffset >= 0
      modifies this`out, this`prevScrollOffset, this`prevSelectedLink
      ensures var d := Redrawn(EnvOf(), Snapshot(), old(prevSelectedLink));
        out == old(out) + d.writes && prevSelectedLink == d.prev
    {
      Render();
    }

    /** `renderPartialLinkUpdate`, read off the scene. */
    method RepaintLinks()
      requires terminalWidth >= 2
      modifies this`out, this`prevSelectedLink
      ensures var d := Repainted(EnvOf(), Snapshot(), old(prevSelectedLink));
        out == old(out) + d.writes && prevSelectedLink == d.prev
    {
      ghost var s := Snapshot();
      ghost var d := Repainted(EnvOf(), s, prevSelectedLink);
      ghost var first := PaintsWrites(RepaintLink(prevSelectedLink));
      ghost var second := PaintsWrites(RepaintLink(selectedLink));
      assert d.writes == first + second;
      RenderPartialLinkUpdate();
      Regroup(old(out), first, second);
      assert Snapshot() == s;
    }

    /** An arrow key: `handleArrowKey`, then the partial redraw when the
        offset stayed, or a full `render`. */
    method ArrowStep(delta: int, partial: bool)
      requires Valid()
      modifies this`scrollOffset, this`selectedLink, this`out, this`prevScrollOffset, this`prevSelectedLink
      ensures var r := Respond(EnvOf(), old(Snapshot()), old(prevSelectedLink), Arrow(delta, partial));
        Snapshot() == r.scene && prevSelectedLink == r.prev && out == old(out) + r.writes
    {
      ghost var s0 := Snapshot();
      ghost var p0 := prevSelectedLink;
      RespondArrow(EnvOf(), s0, p0, delta, partial);
      ghost var r := ArrowMoved(EnvOf(), s0, delta);
      var oldScroll := scrollOffset;
      ArrowMove(delta);
      ghost var s1 := Snapshot();
      ghost var d;
      if partial && scrollOffset == oldScroll {
        d := Repainted(EnvOf(), s1, p0);
        RepaintLinks();
      } else {
        d := Redrawn(EnvOf(), s1, p0);
        Redraw();
      }
      assert Snapshot() == s1;
      Regroup(old(out), Beep(r.bell), d.writes);
    }

    /** Page Up or Page Down: `scrollPageWithDirection`, then `render`. */
    method PageStep(delta: int)
      requires Valid()
      modifies this`scrollOffset, this`selectedLink, this`out, this`prevScrollOffset, this`prevSelectedLink
      ensures var r := Respond(EnvOf(), old(Snapshot()), old(prevSelectedLink), PageKey(delta));
        Snapshot() == r.scene && prevSelectedLink == r.prev && out == old(out) + r.writes
    {
      ghost var s0 := Snapshot();
      ghost var p0 := prevSelectedLink;
      RespondPage(EnvOf(), s0, p0, delta);
      ghost var r := PageScrolled(EnvOf(), s0, delta);
      PageScroll(delta);
      ghost var s1 := Snapshot();
      ghost var d := Redrawn(EnvOf(), s1, p0);
      Redraw();
      assert Snapshot() == s1;
      Regroup(old(out), Beep(r.bell), d.writes);
    }

    /** What `handleInput` does for action `a` once the byte is decoded. */
    method Perform(a: Action) returns (paused: bool)
      requires Valid()
      modifies this`currentURL, this`content, this`links, this`headerLines, this`selectedLink,
               this`scrollOffset, this`history, this`historyIndex, this`out,
               this`prevScrollOffset, this`prevSelectedLink
      ensures Valid()
      ensures var r := Respond(EnvOf(), old(Snapshot()), old(prevSelectedLink), a);
        Snapshot() == r.scene && prevSelectedLink == r.prev && out == old(out) + r.writes && paused == r.paused
    {
      ValidOfScene();
      RespondOk(EnvOf(), Snapshot(), prevSelectedLink, a);
      paused := Act(a);
      ValidOfScene();
    }

    /** The session's answer to action `a`, key by key. */
    method Act(a: Action) returns (paused: bool)
      requires Valid()
      modifies this`currentURL, this`content, this`links, this`headerLines, this`selectedLink,
               this`scrollOffset, this`history, this`historyIndex, this`out,
               this`prevScrollOffset, this`prevSelectedLink
      ensures var r := Respond(EnvOf(), old(Snapshot()), old(prevSelectedLink), a);
        Snapshot() == r.scene && prevSelectedLink == r.prev && out == old(out) + r.writes && paused == r.paused
    {
      if a.Go? || a.FollowLink? || a.Back? || a.Forward? {
        paused := Travel(a);
      } else {
        Show(a);
        paused := false;
      }
    }

    /** The keys that load a page: a submitted URL, the selected link, and
        the history keys. */
    method Travel(a: Action) returns (paused: bool)
      requires Valid() && (a.Go? || a.FollowLink? || a.Back? || a.Forward?)
      modifies this`currentURL, this`content, this`links, this`headerLines, this`selectedLink,
               this`scrollOffset, this`history, this`historyIndex, this`out,
               this`prevScrollOffset, this`prevSelectedLink
      ensures var r := Respond(EnvOf(), old(Snapshot()), old(prevSelectedLink), a);
        Snapshot() == r.scene && prevSelectedLink == r.prev && out == old(out) + r.writes && paused == r.paused
    {
      ValidOfScene();
      paused := false;
      match a {
        case Go(url) =>
          paused := GoTo(url);
        case FollowLink =>
          if selectedLink >= 0 && selectedLink < |links| {
            paused := GoTo(links[selectedLink].url);
          }
        case Back =>
          paused := GoBack();
        case Forward =>
          paused := GoForward();
      }
    }

    /** The keys that stay on the page: the prompt and its echo, a redraw,
        the arrows and the page keys. */
    method Show(a: Action)
      requires Valid() && !(a.Go? || a.FollowLink? || a.Back? || a.Forward?)
      modifies this`scrollOffset, this`selectedLink, this`out, this`prevScrollOffset, this`prevSelectedLink
      ensures var r := Respond(EnvOf(), old(Snapshot()), old(prevSelectedLink), a);
        Snapshot() == r.scene && prevSelectedLink == r.prev && out == old(out) + r.writes && !r.paused
    {
      match a {
        case Nothing =>
        case Quit =>
        case Prompt =>
          out := out + [PromptText];
        case Echo(text) =>
          out := out + [text];
        case Redraw =>
          Redraw();
        case Arrow(delta, partial) =>
          ArrowStep(delta, partial);
        case PageKey(delta) =>
          PageStep(delta);
      }
    }

    /** `handleInput` (with `handleGotoInput`) for byte `b`, followed in the
        stream by `rest`: the input state moves as `Step` says, the session
        answers the action as `Respond` says, `quit` reports the "user quit"
        error, and `used` counts the bytes of `rest` read on the way. */
    method HandleInput(b: byte, rest: seq<byte>) returns (used: nat, quit: bool)
      requires Valid()
      modifies this`currentURL, this`content, this`links, this`headerLines, this`selectedLink,
               this`scrollOffset, this`history, this`historyIndex, this`out,
               this`prevScrollOffset, this`prevSelectedLink, this`inputMode, this`inputBuffer, this`lastByte
      ensures Valid()
      ensures var u := Answer(EnvOf(), old(WorldNow()), b, rest);
        WorldNow() == u.world && out == old(out) + u.writes && used == u.used && quit == u.quit
    {
      ghost var w := WorldNow();
      var s0 := ByteAt(rest, 0);
      var s1 := ByteAt(rest, 1);
      var (k, a) := Step(KeysNow(), b, s0, s1, legacy);
      var read := Consumed(KeysNow(), b, rest);
      BufferStaysPrintable(KeysNow(), b, s0, s1, legacy);
      inputMode := k.mode;
      inputBuffer := k.buffer;
      lastByte := k.lastByte;
      var paused := Perform(a);
      used := if a.Quit? then 0 else AfterPause(paused, rest, read);
      quit := a.Quit?;
    }

    // -------------------------------------------------------------------
    // session.go: Run

    /** The session as `Feed` sees it: the scene, the input state and the
        link the last redraw highlighted. */
    function WorldNow(): World
      reads this`currentURL, this`content, this`headerLines, this`links, this`scrollOffset,
            this`selectedLink, this`history, this`historyIndex, this`inputMode, this`inputBuffer,
            this`lastByte, this`prevSelectedLink
    {
      World(Snapshot(), KeysNow(), prevSelectedLink)
    }

    /** `Run`: clear the terminal, greet, load the start page, then answer
        the bytes of `input` one by one until `q` or the end of the input.
        A byte typed during the pause after a failed start page is read
        and dropped. */
    method Run(input: seq<byte>) returns (exit: Exit)
      requires Valid()
      modifies this`currentURL, this`content, this`links, this`headerLines, this`selectedLink,
               this`scrollOffset, this`history, this`historyIndex, this`out,
               this`prevScrollOffset, this`prevSelectedLink, this`inputMode, this`inputBuffer, this`lastByte
      ensures Valid()
      ensures var start := Navigate(EnvOf(), old(Snapshot()), old(prevSelectedLink), StartURL);
        var skip := if start.paused && input != [] then 1 else 0;
        var t := Feed(EnvOf(), World(start.scene, old(KeysNow()), start.prev), input[skip..]);
        && out == old(out) + [Clear, Welcome, "\r\n"] + start.writes + t.writes
        && exit == t.exit
        && WorldNow() == t.world
    {
      ghost var start := Navigate(EnvOf(), Snapshot(), prevSelectedLink, StartURL);
      ghost var w := World(start.scene, KeysNow(), start.prev);
      var paused := Start();
      assert WorldNow() == w;
      var skip := if paused && input != [] then 1 else 0;
      ghost var out1 := out;
      exit := Serve(input[skip..]);
      assert out == out1 + Feed(EnvOf(), w, input[skip..]).writes;
    }

    /** The greeting of `Run`: clear the terminal, then the welcome line. */
    method Greet()
      modifies this`out
      ensures out == old(out) + [Clear, Welcome, "\r\n"]
    {
      out := out + [Clear];
      out := out + [Welcome];
      out := out + ["\r\n"];
    }

    /** The greeting and the start page of `Run`. */
    method Start() returns (paused: bool)
      requires Valid()
      modifies this`currentURL, this`content, this`links, this`headerLines, this`selectedLink,
               this`scrollOffset, this`history, this`historyIndex, this`out,
               this`prevScrollOffset, this`prevSelectedLink
      ensures Valid()
      ensures var start := Navigate(EnvOf(), old(Snapshot()), old(prevSelectedLink), StartURL);
        && out == old(out) + [Clear, Welcome, "\r\n"] + start.writes
        && Snapshot() == start.scene && prevSelectedLink == start.prev && paused == start.paused
    {
      Greet();
      ValidOfScene();
      NavigateOk(EnvOf(), Snapshot(), prevSelectedLink, StartURL);
      paused := GoTo(StartURL);
      ValidOfScene();
    }

    /** The input loop of `Run`: each byte through `handleInput` until the
        user quits or the input ends. */
    method Serve(input: seq<byte>) returns (exit: Exit)
      requires Valid()
      modifies this`currentURL, this`content, this`links, this`headerLines, this`selectedLink,
               this`scrollOffset, this`history, this`historyIndex, this`out,
               this`prevScrollOffset, this`prevSelectedLink, this`inputMode, this`inputBuffer, this`lastByte
      ensures Valid()
      ensures var t := Feed(EnvOf(), old(WorldNow()), input);
        out == old(out) + t.writes && exit == t.exit && WorldNow() == t.world
    {
      ghost var env := EnvOf();
      ghost var goal := Feed(env, WorldNow(), input);
      ghost var done: seq<string> := [];
      var i: nat := 0;
      while i < |input|
        invariant i <= |input| && Valid()
        invariant out == old(out) + done
        invariant Prepend(done, Feed(env, WorldNow(), input[i..])) == goal
        decreases |input| - i
      {
        ghost var w := WorldNow();
        ghost var u := Answer(env, w, input[i], input[i + 1..]);
        ghost var i0, done0 := i, done;
        var used, quit := HandleInput(input[i], input[i + 1..]);
        Regroup(old(out), done, u.writes);
        if quit {
          FeedQuit(env, w, input, i, done, goal);
          return UserQuit;
        }
        done := done + u.writes;
        i := i + 1 + used;
        FeedAdvance(env, w, input, i0, done0, goal, WorldNow(), i, done);
      }
      assert input[i..] == [];
      exit := InputClosed;
    }
  }
}
