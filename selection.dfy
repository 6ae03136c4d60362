/** The scroll and link-selection arithmetic of internal/session/scroll.go
    (and of its older copy in session.go), as functions of the page and of the
    current position. The `Session` class runs the same steps on its fields and
    is proved equal to these functions. */
module Selection {
  import opened Text
  import opened Display
  import opened Document

  /** What scrolling looks at: the content lines, the link table, the terminal
      width, and the number of content rows on screen (`terminalHeight - 3`). */
  datatype Page = Page(content: seq<string>, links: seq<Link>, width: int, rows: int)

  /** The viewing position: the first display line on screen and the selected link. */
  datatype Pos = Pos(scroll: int, selected: int)

  /** A position after a scroll, and whether the scroll rang the bell. */
  datatype Scrolled = Scrolled(pos: Pos, bell: bool)

  predicate PageOk(p: Page)
  {
    p.width >= 2 && p.rows >= 1 && LinksInRange(p.content, p.links)
  }

  /** The display lines of the whole page (`getTotalDisplayLines`). */
  function Total(p: Page): nat
    requires p.width >= 2
  {
    TotalDisplayLines(p.content, p.width)
  }

  /** The first display line of link `k`. */
  function LinkRow(p: Page, k: int): nat
    requires p.width >= 2 && 0 <= k < |p.links|
  {
    DisplayOffset(p.content, p.width, p.links[k].line)
  }

  /** Display line `d` is on screen when the window starts at `scroll`. */
  predicate OnScreen(p: Page, scroll: int, d: int)
  {
    scroll <= d < scroll + p.rows
  }

  predicate LinkOnScreen(p: Page, scroll: int, k: int)
    requires p.width >= 2 && 0 <= k < |p.links|
  {
    OnScreen(p, scroll, LinkRow(p, k))
  }

  /** What the session keeps true of its position: the scroll offset is 0 or
      inside the page, and the selection is 0 or a link of the page. */
  predicate PosOk(p: Page, pos: Pos)
    requires p.width >= 2
  {
    && 0 <= pos.scroll && (pos.scroll == 0 || pos.scroll < Total(p))
    && 0 <= pos.selected && (pos.selected == 0 || pos.selected < |p.links|)
  }

  function Clamp(x: int, lo: int, hi: int): int
  {
    if x < lo then lo else if x > hi then hi else x
  }

  // ---------------------------------------------------------------------
  // Page scrolling

  /** The largest scroll offset a page scroll moves to: the last screenful. */
  function MaxScroll(p: Page): nat
    requires p.width >= 2
  {
    Max(0, Total(p) - p.rows)
  }

  /** The offset `scrollPageWithDirection` moves to: one screenful per step,
      clamped to `[0, MaxScroll]`. */
  function PageTarget(p: Page, scroll: int, delta: int): (t: int)
    requires p.width >= 2
    ensures 0 <= t <= MaxScroll(p)
    ensures 0 <= scroll + delta * p.rows <= MaxScroll(p) ==> t == scroll + delta * p.rows
  {
    var n := scroll + delta * p.rows;
    var n1 := if n < 0 then 0 else n;
    if n1 > MaxScroll(p) then MaxScroll(p) else n1
  }

  /** The offset the older `scrollPageWithDirection` of session.go moves to:
      clamped to the last display line rather than the last screenful. */
  function LegacyTarget(p: Page, scroll: int, delta: int): (t: int)
    requires p.width >= 2
    ensures 0 <= t && (t == 0 || t < Total(p))
    ensures 0 <= scroll + delta * p.rows < Total(p) ==> t == scroll + delta * p.rows
  {
    var n := scroll + delta * p.rows;
    var n1 := if n < 0 then 0 else n;
    var n2 := if n1 >= Total(p) then Total(p) - 1 else n1;
    if n2 < 0 then 0 else n2
  }

  /** A page scroll (`scrollPageWithDirection` when `dir == delta`, `scrollPage`
      when `dir == 1`): when the offset would not move the bell rings and
      nothing changes; otherwise the offset moves and the selection is redone
      in direction `dir`. The older version never rings and always redoes the
      selection. */
  function ScrollBy(p: Page, pos: Pos, delta: int, dir: int, legacy: bool): Scrolled
    requires p.width >= 2
  {
    if legacy then
      var t := LegacyTarget(p, pos.scroll, delta);
      Scrolled(Pos(t, Reselect(p, Pos(t, pos.selected), dir)), false)
    else
      var t := PageTarget(p, pos.scroll, delta);
      if t == pos.scroll then Scrolled(pos, true)
      else Scrolled(Pos(t, Reselect(p, Pos(t, pos.selected), dir)), false)
  }

  // ---------------------------------------------------------------------
  // Selection after a scroll

  /** The first link at or after `from` that is on screen. */
  function FirstShown(p: Page, scroll: int, from: nat): Option<nat>
    requires p.width >= 2
    decreases |p.links| - from
  {
    if from >= |p.links| then None
    else if LinkOnScreen(p, scroll, from) then Some(from)
    else FirstShown(p, scroll, from + 1)
  }

  /** The last link before `upto` that is on screen. */
  function LastShown(p: Page, scroll: int, upto: nat): Option<nat>
    requires p.width >= 2 && upto <= |p.links|
  {
    if upto == 0 then None
    else if LinkOnScreen(p, scroll, upto - 1) then Some(upto - 1)
    else LastShown(p, scroll, upto - 1)
  }

  /** `updateLinkSelectionWithDirection`: no links gives 0; otherwise the
      selection is clamped into the table and kept when its link is on screen;
      else the first link on screen (`dir >= 0`) or the last one (`dir < 0`)
      is taken, and 0 when no link is on screen. */
  function Reselect(p: Page, pos: Pos, dir: int): int
    requires p.width >= 2
  {
    if p.links == [] then 0
    else
      var s := Clamp(pos.selected, 0, |p.links| - 1);
      if LinkOnScreen(p, pos.scroll, s) then s
      else if dir < 0 then
        (match LastShown(p, pos.scroll, |p.links|) case Some(k) => k case None => 0)
      else
        (match FirstShown(p, pos.scroll, 0) case Some(k) => k case None => 0)
  }

  /** The position `loadFromHistory` restores from a stored entry: a stored
      selection past the link table becomes 0, and so does a stored offset
      at or past the end of the page. */
  function Restore(p: Page, scroll: int, selected: int): Pos
    requires p.width >= 2
  {
    Pos(if scroll >= Total(p) then 0 else scroll, if selected >= |p.links| then 0 else selected)
  }

  // ---------------------------------------------------------------------
  // Arrow keys

  /** `moveLinkSelection`: step the selection by `delta`, clamp it into the
      table, and scroll just far enough to bring its link on screen. */
  function MoveSelection(p: Page, pos: Pos, delta: int): Pos
    requires p.width >= 2
  {
    if p.links == [] then pos
    else
      var s := Clamp(pos.selected + delta, 0, |p.links| - 1);
      var d := LinkRow(p, s);
      if d < pos.scroll then Pos(d, s)
      else if d >= pos.scroll + p.rows then Pos(d - p.rows + 1, s)
      else Pos(pos.scroll, s)
  }

  /** `handleArrowKey`: move to the neighbouring link when it is on screen;
      when there is none in that direction, page-scroll; when it is off
      screen, page-scroll and then select it if the scroll brought it on screen. */
  function ArrowKey(p: Page, pos: Pos, delta: int, legacy: bool): Scrolled
    requires p.width >= 2
  {
    var next := pos.selected + delta;
    if p.links == [] || next < 0 || next >= |p.links| then ScrollBy(p, pos, delta, delta, legacy)
    else if LinkOnScreen(p, pos.scroll, next) then Scrolled(MoveSelection(p, pos, delta), false)
    else
      var r := ScrollBy(p, pos, delta, delta, legacy);
      if LinkOnScreen(p, r.pos.scroll, next) then Scrolled(Pos(r.pos.scroll, next), r.bell) else r
  }

  // ---------------------------------------------------------------------
  // Properties

  /** `FirstShown` finds the first link on screen at or after `from`, or
      reports that there is none. */
  lemma {:induction false} FirstShownSpec(p: Page, scroll: int, from: nat)
    requires p.width >= 2
    ensures match FirstShown(p, scroll, from)
      case Some(k) =>
        from <= k < |p.links| && LinkOnScreen(p, scroll, k)
        && forall j :: from <= j < k ==> !LinkOnScreen(p, scroll, j)
      case None => forall j :: from <= j < |p.links| ==> !LinkOnScreen(p, scroll, j)
    decreases |p.links| - from
  {
    if from < |p.links| && !LinkOnScreen(p, scroll, from) {
      FirstShownSpec(p, scroll, from + 1);
    }
  }

  /** `LastShown` finds the last link on screen before `upto`, or reports
      that there is none. */
  lemma {:induction false} LastShownSpec(p: Page, scroll: int, upto: nat)
    requires p.width >= 2 && upto <= |p.links|
    ensures match LastShown(p, scroll, upto)
      case Some(k) =>
        k < upto && LinkOnScreen(p, scroll, k)
        && forall j :: k < j < upto ==> !LinkOnScreen(p, scroll, j)
      case None => forall j :: 0 <= j < upto ==> !LinkOnScreen(p, scroll, j)
  {
    if upto > 0 && !LinkOnScreen(p, scroll, upto - 1) {
      LastShownSpec(p, scroll, upto - 1);
    }
  }

  /** What `updateLinkSelectionWithDirection` guarantees: the selection is a
      link of the table (0 without links); a selection on screen is kept;
      otherwise the first (forward) or last (backward) link on screen is
      chosen, and 0 when none is on screen. */
  lemma ReselectSpec(p: Page, pos: Pos, dir: int)
    requires p.width >= 2
    ensures var s := Reselect(p, pos, dir);
      && (p.links == [] ==> s == 0)
      && (p.links != [] ==> 0 <= s < |p.links|)
      && ((p.links != [] && LinkOnScreen(p, pos.scroll, Clamp(pos.selected, 0, |p.links| - 1)))
            ==> s == Clamp(pos.selected, 0, |p.links| - 1))
      && (p.links != [] && !LinkOnScreen(p, pos.scroll, Clamp(pos.selected, 0, |p.links| - 1)) ==>
            if exists j :: 0 <= j < |p.links| && LinkOnScreen(p, pos.scroll, j) then
              LinkOnScreen(p, pos.scroll, s)
              && (dir >= 0 ==> forall j :: 0 <= j < s ==> !LinkOnScreen(p, pos.scroll, j))
              && (dir < 0 ==> forall j :: s < j < |p.links| ==> !LinkOnScreen(p, pos.scroll, j))
            else s == 0)
  {
    if p.links != [] {
      FirstShownSpec(p, pos.scroll, 0);
      LastShownSpec(p, pos.scroll, |p.links|);
    }
  }

  /** Every page scroll moves the offset to its target, which lies within
      `[0, MaxScroll]` (the older version: 0 or before the total), and keeps
      the selection a link of the table; the bell rings exactly when the
      newer version's target is where the page already is, and then nothing
      moved. */
  lemma ScrollBySpec(p: Page, pos: Pos, delta: int, dir: int, legacy: bool)
    requires p.width >= 2 && p.rows >= 1
    requires PosOk(p, pos)
    ensures var r := ScrollBy(p, pos, delta, dir, legacy);
      && PosOk(p, r.pos)
      && (!legacy ==> 0 <= r.pos.scroll <= MaxScroll(p))
      && r.pos.scroll == (if legacy then LegacyTarget(p, pos.scroll, delta) else PageTarget(p, pos.scroll, delta))
      && (r.bell <==> !legacy && PageTarget(p, pos.scroll, delta) == pos.scroll)
      && (r.bell ==> r.pos == pos)
      && (!r.bell ==> r.pos.selected == Reselect(p, Pos(r.pos.scroll, pos.selected), dir))
  {
    var r := ScrollBy(p, pos, delta, dir, legacy);
    ReselectSpec(p, Pos(r.pos.scroll, pos.selected), dir);
    if !legacy && !r.bell {
      assert r.pos.scroll <= MaxScroll(p);
      if Total(p) > 0 {
        assert MaxScroll(p) < Total(p);
      }
    }
  }

  /** After `moveLinkSelection` the selection is the clamped step and its link
      is on screen; the offset only moves when the link was off screen, and it
      stays inside the page. */
  lemma MoveSelectionSpec(p: Page, pos: Pos, delta: int)
    requires PageOk(p)
    requires PosOk(p, pos)
    ensures var r := MoveSelection(p, pos, delta);
      && PosOk(p, r)
      && (p.links == [] ==> r == pos)
      && (p.links != [] ==>
            && r.selected == Clamp(pos.selected + delta, 0, |p.links| - 1)
            && LinkOnScreen(p, r.scroll, r.selected)
            && (LinkOnScreen(p, pos.scroll, r.selected) ==> r.scroll == pos.scroll))
  {
    if p.links != [] {
      var s := Clamp(pos.selected + delta, 0, |p.links| - 1);
      DisplayOffsetInRange(p.content, p.width, p.links[s].line);
    }
  }

  /** `handleArrowKey`: when the neighbouring link exists and is on screen it
      becomes the selection and the offset stays; when there is no
      neighbouring link the key is exactly a page scroll; in every case the
      position stays valid. */
  lemma ArrowKeySpec(p: Page, pos: Pos, delta: int, legacy: bool)
    requires PageOk(p)
    requires PosOk(p, pos)
    ensures var r := ArrowKey(p, pos, delta, legacy);
      && PosOk(p, r.pos)
      && ((0 <= pos.selected + delta < |p.links| && LinkOnScreen(p, pos.scroll, pos.selected + delta))
            ==> r == Scrolled(Pos(pos.scroll, pos.selected + delta), false))
      && (!(0 <= pos.selected + delta < |p.links|) ==> r == ScrollBy(p, pos, delta, delta, legacy))
  {
    ScrollBySpec(p, pos, delta, delta, legacy);
    MoveSelectionSpec(p, pos, delta);
  }

  /** A restored position is a valid position of the reloaded page, and it
      is the stored one whenever that still fits the page. */
  lemma RestoreSpec(p: Page, scroll: int, selected: int)
    requires p.width >= 2 && scroll >= 0 && selected >= 0
    ensures var r := Restore(p, scroll, selected);
      && PosOk(p, r)
      && (scroll < Total(p) ==> r.scroll == scroll)
      && (scroll >= Total(p) ==> r.scroll == 0)
      && (selected < |p.links| ==> r.selected == selected)
      && (selected >= |p.links| ==> r.selected == 0)
  {
  }

  /** Scrolling down one page and then up one page returns to the same
      offset whenever both steps stay inside `[0, MaxScroll]`. */
  lemma PageDownUp(p: Page, scroll: int)
    requires p.width >= 2
    requires p.rows >= 1
    requires 0 <= scroll && scroll + p.rows <= MaxScroll(p)
    ensures PageTarget(p, PageTarget(p, scroll, 1), -1) == scroll
  {
    assert PageTarget(p, scroll, 1) == scroll + p.rows;
    assert (scroll + p.rows) + -1 * p.rows == scroll;
  }
}
