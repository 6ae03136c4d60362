/** The back/forward history of internal/session/navigation.go (and of its
    copy in session.go): a list of visited pages and the position of the
    page on screen in it, `-1` when nothing was visited yet. */
module History {
  import opened Text

  /** `HistoryEntry`: a visited URL with the scroll offset and the selected
      link it was left at. */
  datatype HistoryEntry = HistoryEntry(url: string, scrollOffset: int, selectedLink: int)

  /** The `history` slice and `historyIndex` of the session. */
  datatype History = History(entries: seq<HistoryEntry>, index: int)

  predicate IndexOk(h: History)
  {
    -1 <= h.index < |h.entries|
  }

  /** Every stored position is non-negative, as the session's own position is. */
  predicate EntriesOk(h: History)
  {
    forall i :: 0 <= i < |h.entries| ==> h.entries[i].scrollOffset >= 0 && h.entries[i].selectedLink >= 0
  }

  predicate EntryOk(e: HistoryEntry)
  {
    e.scrollOffset >= 0 && e.selectedLink >= 0
  }

  /** The first half of the history update of a successful `navigateTo`:
      `current` is the page being left, `None` when no page was shown yet.
      The pages after the current one are dropped and the current one is
      stored with its position (as the only entry when the list is empty). */
  function Saved(h: History, current: Option<HistoryEntry>): History
  {
    match current
    case None => h
    case Some(e) =>
      var kept := if 0 <= h.index < |h.entries| - 1 then h.entries[..h.index + 1] else h.entries;
      if 0 <= h.index < |kept| then History(kept[h.index := e], h.index)
      else if |kept| == 0 then History([e], 0)
      else History(kept, h.index)
  }

  /** The whole history update of a successful `navigateTo`: after saving,
      the new page is appended at offset 0, link 0, and becomes current. */
  function Push(h: History, current: Option<HistoryEntry>, url: string): History
  {
    var saved := Saved(h, current);
    History(saved.entries + [HistoryEntry(url, 0, 0)], |saved.entries|)
  }

  /** The history update of `navigateBack` before the page is reloaded:
      nothing at the first page; otherwise the current page's position is
      stored and the index moves back. */
  function StepBack(h: History, current: HistoryEntry): History
  {
    if h.index <= 0 then h
    else History(if h.index < |h.entries| then h.entries[h.index := current] else h.entries, h.index - 1)
  }

  /** The history update of `navigateForward` before the page is reloaded:
      nothing at the last page; otherwise the current page's position is
      stored and the index moves forward. */
  function StepForward(h: History, current: HistoryEntry): History
  {
    if h.index >= |h.entries| - 1 then h
    else History(if 0 <= h.index < |h.entries| then h.entries[h.index := current] else h.entries, h.index + 1)
  }

  // ---------------------------------------------------------------------
  // Properties

  /** A successful navigation discards the forward history, stores the page
      being left at the current index, appends the new page and makes it
      current; the index stays within the list. */
  lemma PushSpec(h: History, current: Option<HistoryEntry>, url: string)
    requires IndexOk(h)
    ensures var r := Push(h, current, url);
      && IndexOk(r) && r.index == |r.entries| - 1 && r.index >= 0
      && r.entries[r.index] == HistoryEntry(url, 0, 0)
      && (current.None? ==> r.entries == h.entries + [HistoryEntry(url, 0, 0)])
      && (current.Some? && h.index >= 0 ==>
            r.entries == h.entries[..h.index] + [current.value, HistoryEntry(url, 0, 0)])
      && (current.Some? && h.index == -1 && h.entries == [] ==>
            r.entries == [current.value, HistoryEntry(url, 0, 0)])
      && (current.Some? && h.index == -1 && h.entries != [] ==>
            r.entries == h.entries + [HistoryEntry(url, 0, 0)])
  {
    if current.Some? && h.index >= 0 {
      var kept := if h.index < |h.entries| - 1 then h.entries[..h.index + 1] else h.entries;
      assert kept == h.entries[..h.index + 1];
      assert kept[h.index := current.value] == h.entries[..h.index] + [current.value];
    }
  }

  /** Going back is a no-op at the first page; otherwise the current page is
      stored in place, the other entries are kept, and the index moves back
      by one, staying within the list. */
  lemma StepBackSpec(h: History, current: HistoryEntry)
    requires IndexOk(h)
    ensures var r := StepBack(h, current);
      && IndexOk(r) && |r.entries| == |h.entries|
      && (h.index <= 0 ==> r == h)
      && (h.index > 0 ==>
            && r.index == h.index - 1 && r.entries[h.index] == current
            && forall i :: 0 <= i < |h.entries| && i != h.index ==> r.entries[i] == h.entries[i])
  {
  }

  /** Going forward is a no-op at the last page; otherwise the current page is
      stored in place, the other entries are kept, and the index moves
      forward by one, staying within the list. */
  lemma StepForwardSpec(h: History, current: HistoryEntry)
    requires IndexOk(h)
    ensures var r := StepForward(h, current);
      && IndexOk(r) && |r.entries| == |h.entries|
      && (h.index >= |h.entries| - 1 ==> r == h)
      && (h.index < |h.entries| - 1 ==>
            && r.index == h.index + 1
            && (h.index >= 0 ==> r.entries[h.index] == current)
            && forall i :: 0 <= i < |h.entries| && i != h.index ==> r.entries[i] == h.entries[i])
  {
  }

  /** Back then forward returns to the same index, with both pages' positions
      stored. */
  lemma BackThenForward(h: History, here: HistoryEntry, there: HistoryEntry)
    requires IndexOk(h) && h.index > 0
    ensures StepForward(StepBack(h, here), there)
         == History(h.entries[h.index := here][h.index - 1 := there], h.index)
  {
  }

  /** The history operations only ever store non-negative positions. */
  lemma EntriesStayOk(h: History, e: HistoryEntry, url: string)
    requires EntriesOk(h) && EntryOk(e)
    ensures EntriesOk(Push(h, Some(e), url)) && EntriesOk(Push(h, None, url))
    ensures EntriesOk(StepBack(h, e)) && EntriesOk(StepForward(h, e))
  {
    var r := Push(h, Some(e), url);
    if 0 <= h.index < |h.entries| - 1 {
      var kept := h.entries[..h.index + 1];
      assert forall i :: 0 <= i < |kept| ==> kept[i] == h.entries[i];
    }
  }

  /** Visiting A, then B, going back, then visiting C leaves the history
      `[A, C]` with C current: B, the forward page, is gone. */
  lemma PushBackPush(a: string, b: string, c: string)
    ensures var h1 := Push(History([], -1), None, a);
      var h2 := Push(h1, Some(HistoryEntry(a, 0, 0)), b);
      var h3 := StepBack(h2, HistoryEntry(b, 0, 0));
      var h4 := Push(h3, Some(HistoryEntry(a, 0, 0)), c);
      && h4.entries == [HistoryEntry(a, 0, 0), HistoryEntry(c, 0, 0)]
      && h4.index == 1
  {
    var h1 := Push(History([], -1), None, a);
    assert h1 == History([HistoryEntry(a, 0, 0)], 0);
    var h2 := Push(h1, Some(HistoryEntry(a, 0, 0)), b);
    assert h2 == History([HistoryEntry(a, 0, 0), HistoryEntry(b, 0, 0)], 1);
    var h3 := StepBack(h2, HistoryEntry(b, 0, 0));
    assert h3 == History([HistoryEntry(a, 0, 0), HistoryEntry(b, 0, 0)], 0);
  }
}
