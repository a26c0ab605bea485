/**
 * What `AppState::reduce` guarantees, stated about `Reducer.Step`: each
 * action's effect on the state, what it leaves alone, and the invariants the
 * transitions keep or break.
 */
module ReducerProperties {
  import opened Options
  import opened Paths
  import opened Listing
  import opened Preview
  import ChmodPopup
  import opened Reducer

  // ---------------------------------------------------------------------------
  // Cursor movement

  /** Up moves the cursor one place towards 0, only with the file list focused and only above 0; nothing else changes. */
  lemma CursorMoveUpMoves(s: State, fs: FileSystem, order: seq<Path>)
    ensures var t := Step(s, CursorMoveUp, fs, order).next;
      t == s.(cursor := t.cursor) &&
      (t.cursor == s.cursor - 1 || t.cursor == s.cursor) &&
      (t.cursor == s.cursor <==> s.focus != FileList || s.cursor == 0)
    ensures Step(s, CursorMoveUp, fs, order).effects == []
  {
  }

  /** Down moves the cursor one place, only with the file list focused and never onto or past `entries.len()`; nothing else changes. */
  lemma CursorMoveDownMoves(s: State, fs: FileSystem, order: seq<Path>)
    ensures var t := Step(s, CursorMoveDown, fs, order).next;
      t == s.(cursor := t.cursor) &&
      (t.cursor == s.cursor + 1 || t.cursor == s.cursor) &&
      (t.cursor != s.cursor ==> t.cursor < |s.entries|) &&
      (t.cursor == s.cursor <==> s.focus != FileList || s.cursor + 1 >= |s.entries|)
    ensures Step(s, CursorMoveDown, fs, order).effects == []
  {
  }

  /** n presses of Down from a cursor inside the list reach min(cursor + n, len - 1). */
  lemma {:induction false} MoveDownRepeated(s: State, fs: FileSystem, order: seq<Path>, n: nat)
    requires s.focus == FileList && s.cursor < |s.entries|
    ensures Repeat(s, CursorMoveDown, fs, order, n) ==
      s.(cursor := if s.cursor + n < |s.entries| then s.cursor + n else |s.entries| - 1)
    decreases n
  {
    if n > 0 {
      MoveDownRepeated(Step(s, CursorMoveDown, fs, order).next, fs, order, n - 1);
    }
  }

  /** n presses of Up reach max(cursor - n, 0). */
  lemma {:induction false} MoveUpRepeated(s: State, fs: FileSystem, order: seq<Path>, n: nat)
    requires s.focus == FileList
    ensures Repeat(s, CursorMoveUp, fs, order, n) == s.(cursor := if s.cursor >= n then s.cursor - n else 0)
    decreases n
  {
    if n > 0 {
      MoveUpRepeated(Step(s, CursorMoveUp, fs, order).next, fs, order, n - 1);
    }
  }

  // ---------------------------------------------------------------------------
  // Directory changes

  /** EnterDir does nothing without a cursor entry, on a file, on the current directory itself, or when the directory cannot be read. */
  lemma EnterDirNoOp(s: State, fs: FileSystem, order: seq<Path>)
    requires CursorEntry(s).None? || !CursorEntry(s).value.isDir || CursorEntry(s).value.path == s.cwd ||
             CursorEntry(s).value.path !in fs.dirs
    ensures Step(s, EnterDir, fs, order) == Outcome(s, [])
  {
  }

  /**
   * Otherwise EnterDir replaces the whole listing: cwd is the entry's path,
   * the entries are that directory's sorted listing, cursor and scroll are 0
   * and the preview is cleared; the selection, clipboard, focus and popup are
   * kept.
   */
  lemma EnterDirReplacesListing(s: State, fs: FileSystem, order: seq<Path>)
    requires CursorEntry(s).Some? && CursorEntry(s).value.isDir && CursorEntry(s).value.path != s.cwd
    requires CursorEntry(s).value.path in fs.dirs
    ensures var t := Step(s, EnterDir, fs, order).next;
      var dir := s.entries[s.cursor].path;
      t.cwd == dir && t.cursor == 0 && t.scroll == 0 && t.preview == NoPreview &&
      Sorted(t.entries) && multiset(t.entries) == multiset(MakeEntries(dir, fs.dirs[dir])) &&
      t.selected == s.selected && t.clipboard == s.clipboard && t.focus == s.focus && t.popup == s.popup
  {
    var dir := s.entries[s.cursor].path;
    var es := SortEntries(MakeEntries(dir, fs.dirs[dir]));
    assert Step(s, EnterDir, fs, order).next == EnterDirStep(s, fs);
    assert EnterDirStep(s, fs) == s.(cwd := dir, entries := es, cursor := 0, preview := NoPreview, scroll := 0);
    SortEntriesSorted(MakeEntries(dir, fs.dirs[dir]));
    SortEntriesPermutes(MakeEntries(dir, fs.dirs[dir]));
  }

  /** GoBack does nothing at the root or when the parent cannot be read. */
  lemma GoBackNoOp(s: State, fs: FileSystem, order: seq<Path>)
    requires s.cwd == [] || s.cwd[..|s.cwd| - 1] !in fs.dirs
    ensures Step(s, GoBack, fs, order) == Outcome(s, [])
  {
  }

  /** Otherwise GoBack moves to the parent with its sorted listing, cursor and scroll 0 and no preview, keeping the rest. */
  lemma GoBackReplacesListing(s: State, fs: FileSystem, order: seq<Path>)
    requires s.cwd != [] && s.cwd[..|s.cwd| - 1] in fs.dirs
    ensures var t := Step(s, GoBack, fs, order).next;
      Parent(s.cwd) == Some(t.cwd) && t.cursor == 0 && t.scroll == 0 && t.preview == NoPreview &&
      Sorted(t.entries) && multiset(t.entries) == multiset(MakeEntries(t.cwd, fs.dirs[t.cwd])) &&
      t.selected == s.selected && t.clipboard == s.clipboard && t.focus == s.focus && t.popup == s.popup
  {
    var dir := s.cwd[..|s.cwd| - 1];
    SortEntriesSorted(MakeEntries(dir, fs.dirs[dir]));
    SortEntriesPermutes(MakeEntries(dir, fs.dirs[dir]));
  }

  // ---------------------------------------------------------------------------
  // Selection and clipboard

  /** ToggleSelect flips the cursor entry's membership in the selection and touches nothing else. */
  lemma ToggleSelectFlips(s: State, fs: FileSystem, order: seq<Path>)
    ensures var t := Step(s, ToggleSelect, fs, order).next;
      t == s.(selected := t.selected) &&
      (CursorEntry(s).None? ==> t == s) &&
      (CursorEntry(s).Some? ==> forall p :: p in t.selected <==> (p in s.selected <==> p != s.entries[s.cursor].path))
  {
  }

  /** ToggleSelect twice in a row restores the state exactly. */
  lemma ToggleSelectInvolutive(s: State, fs: FileSystem, order: seq<Path>, order': seq<Path>)
    ensures Step(Step(s, ToggleSelect, fs, order).next, ToggleSelect, fs, order').next == s
  {
    var t := Step(s, ToggleSelect, fs, order).next;
    if CursorEntry(s).Some? {
      var p := s.entries[s.cursor].path;
      if p in s.selected {
        assert t.selected + {p} == s.selected;
      } else {
        assert t.selected - {p} == s.selected;
      }
    }
  }

  /**
   * Yank writes the clipboard exactly when there is something to yank: the
   * selected paths, each once, or else the cursor entry's path; it then
   * clears the selection. With nothing to yank the state is unchanged.
   */
  lemma YankTargets(s: State, fs: FileSystem, order: seq<Path>)
    requires Enumerates(order, s.selected)
    ensures var t := Step(s, Yank, fs, order).next;
      t == s.(clipboard := t.clipboard, selected := t.selected) &&
      (s.selected == {} && CursorEntry(s).None? ==> t == s) &&
      (s.selected != {} || CursorEntry(s).Some? ==> t.selected == {} && t.clipboard.Some? && t.clipboard.value.op == Copy) &&
      (s.selected != {} ==> Enumerates(t.clipboard.value.paths, s.selected)) &&
      (s.selected == {} && CursorEntry(s).Some? ==> t.clipboard.value.paths == [s.entries[s.cursor].path])
    ensures Step(s, Yank, fs, order).effects == []
  {
    if s.selected != {} {
      var p :| p in s.selected;
      assert p in order;
    }
  }

  /** A second Yank sees the empty selection and falls back to the cursor entry. */
  lemma YankTwiceYanksCursorEntry(s: State, fs: FileSystem, order: seq<Path>, order': seq<Path>)
    requires Enumerates(order, s.selected) && CursorEntry(s).Some?
    ensures Step(Step(s, Yank, fs, order).next, Yank, fs, order').next.clipboard == Some(Clipboard(Copy, [s.entries[s.cursor].path]))
  {
    YankTargets(s, fs, order);
  }

  /**
   * Paste copies every clipboard path into the current directory under its
   * own file name, in clipboard order, then reloads the listing; it keeps the
   * clipboard and does not move the cursor. Without a clipboard it does
   * nothing.
   */
  lemma PasteCopiesIntoCwd(s: State, fs: FileSystem, order: seq<Path>)
    ensures s.clipboard.None? ==> Step(s, Paste, fs, order) == Outcome(s, [])
    ensures s.clipboard.Some? ==>
      var o := Step(s, Paste, fs, order);
      var paths := s.clipboard.value.paths;
      |o.effects| == |paths| &&
      (forall i :: 0 <= i < |paths| ==>
         o.effects[i].CopyRecursive? && o.effects[i].src == paths[i] &&
         (FileName(paths[i]) != "" ==> Parent(o.effects[i].dest) == Some(s.cwd) && FileName(o.effects[i].dest) == FileName(paths[i]))) &&
      o.next == s.(entries := o.next.entries) &&
      (s.cwd in fs.dirs ==> Some(o.next.entries) == ReadEntriesSpec(fs, s.cwd)) &&
      (s.cwd !in fs.dirs ==> o.next == s)
  {
  }

  /**
   * After Delete the selection is empty; the deletions requested are the
   * targets Yank would take; a successful reload to a non-empty list moves
   * the cursor to min(cursor, len - 1), a reload to an empty list leaves
   * the cursor alone, and a failed reload keeps the old listing.
   */
  lemma DeleteClearsAndClamps(s: State, fs: FileSystem, order: seq<Path>)
    requires Enumerates(order, s.selected)
    ensures var o := Step(s, Delete, fs, order);
      var t := o.next;
      t.selected == {} &&
      t == s.(selected := {}, entries := t.entries, cursor := t.cursor) &&
      (forall e :: e in o.effects ==> e.DeletePath?) &&
      (s.selected != {} ==> |o.effects| == |s.selected| && forall p :: DeletePath(p) in o.effects <==> p in s.selected) &&
      (s.selected == {} && CursorEntry(s).Some? ==> o.effects == [DeletePath(s.entries[s.cursor].path)]) &&
      (s.selected == {} && CursorEntry(s).None? ==> o.effects == []) &&
      (s.cwd !in fs.dirs ==> t.entries == s.entries && t.cursor == s.cursor) &&
      (s.cwd in fs.dirs ==> Some(t.entries) == ReadEntriesSpec(fs, s.cwd)) &&
      (t.entries != [] && s.cwd in fs.dirs ==> t.cursor == (if s.cursor < |t.entries| then s.cursor else |t.entries| - 1)) &&
      (t.entries == [] ==> t.cursor == s.cursor)
  {
    var o := Step(s, Delete, fs, order);
    if s.selected != {} {
      DistinctCardinality(order, s.selected);
      forall p
        ensures DeletePath(p) in o.effects <==> p in s.selected
      {
        if p in order {
          var i :| 0 <= i < |order| && order[i] == p;
          assert o.effects[i] == DeletePath(p);
        }
      }
    }
  }

  /** A sequence that enumerates a set is as long as the set is large. */
  lemma {:induction false} DistinctCardinality(order: seq<Path>, paths: set<Path>)
    requires Enumerates(order, paths)
    ensures |order| == |paths|
    decreases |order|
  {
    if order != [] {
      var last := order[|order| - 1];
      var init := order[..|order| - 1];
      assert forall i :: 0 <= i < |init| ==> init[i] != last by {
        assert forall i :: 0 <= i < |init| ==> init[i] == order[i];
      }
      assert forall p :: p in init <==> p in paths - {last} by {
        assert order == init + [last];
      }
      DistinctCardinality(init, paths - {last});
    } else {
      assert forall p :: p !in paths;
    }
  }

  // ---------------------------------------------------------------------------
  // Permission editor, open, preview

  /** Chmod opens the editor on the cursor entry with the mode `metadata` reports; without an entry or metadata it does nothing. */
  lemma ChmodOpensEditor(s: State, fs: FileSystem, order: seq<Path>)
    ensures var t := Step(s, Chmod, fs, order).next;
      t == s.(popup := t.popup) &&
      (CursorEntry(s).Some? && s.entries[s.cursor].path in fs.modes ==>
         t.popup == ChmodPopup.PopupState.Chmod(s.entries[s.cursor].path, fs.modes[s.entries[s.cursor].path], 0)) &&
      (CursorEntry(s).None? || s.entries[s.cursor].path !in fs.modes ==> t == s)
  {
  }

  /** Every action keeps the editor's selected cell inside the 3 x 3 grid. */
  lemma StepKeepsPopupInGrid(s: State, a: Action, fs: FileSystem, order: seq<Path>)
    requires ChmodPopup.InGrid(s.popup)
    ensures ChmodPopup.InGrid(Step(s, a, fs, order).next.popup)
  {
    ChmodPopup.ActionsStayInGrid(s.popup);
  }

  /** The popup is changed only by Chmod and the seven popup actions. */
  lemma PopupChangedOnlyByPopupActions(s: State, a: Action, fs: FileSystem, order: seq<Path>)
    requires !a.Chmod? && !a.PopupUp? && !a.PopupDown? && !a.PopupLeft? && !a.PopupRight? &&
             !a.PopupToggle? && !a.PopupSubmit? && !a.PopupCancel?
    ensures Step(s, a, fs, order).next.popup == s.popup
  {
  }

  /**
   * Submit asks for exactly one permission change, to the pending mode, reloads
   * the listing and closes the editor; with no editor open it only closes.
   * Cancel closes without asking for anything.
   */
  lemma SubmitAndCancelClose(s: State, fs: FileSystem, order: seq<Path>)
    ensures Step(s, PopupSubmit, fs, order).next.popup == ChmodPopup.NoPopup
    ensures Step(s, PopupCancel, fs, order) == Outcome(s.(popup := ChmodPopup.NoPopup), [])
    ensures s.popup.NoPopup? ==> Step(s, PopupSubmit, fs, order) == Outcome(s, [])
    ensures s.popup.Chmod? ==>
      var o := Step(s, PopupSubmit, fs, order);
      o.effects == [SetPermissions(s.popup.path, s.popup.mode)] &&
      o.next == s.(entries := o.next.entries, popup := ChmodPopup.NoPopup) &&
      (s.cwd in fs.dirs ==> Some(o.next.entries) == ReadEntriesSpec(fs, s.cwd))
  {
  }

  /** Through the editor, the mode Submit writes differs from the mode it was opened with only in the bits 0o777. */
  lemma {:induction false} EditorKeepsHighBits(s: State, fs: FileSystem, order: seq<Path>, moves: seq<Action>)
    requires s.popup.Chmod?
    requires forall i :: 0 <= i < |moves| ==> moves[i] in {PopupUp, PopupDown, PopupLeft, PopupRight, PopupToggle}
    ensures Run(s, moves, fs, order).popup.Chmod?
    ensures Run(s, moves, fs, order).popup.path == s.popup.path
    ensures Run(s, moves, fs, order).popup.mode & !0x1FF == s.popup.mode & !0x1FF
    decreases |moves|
  {
    if moves != [] {
      var t := Step(s, moves[0], fs, order).next;
      EditorStepKeepsHighBits(s, moves[0], fs, order);
      EditorKeepsHighBits(t, fs, order, moves[1..]);
    }
  }

  /** One editor move or toggle keeps the editor open on the same path and keeps the bits outside 0o777. */
  lemma EditorStepKeepsHighBits(s: State, a: Action, fs: FileSystem, order: seq<Path>)
    requires s.popup.Chmod?
    requires a in {PopupUp, PopupDown, PopupLeft, PopupRight, PopupToggle}
    ensures var p := Step(s, a, fs, order).next.popup;
      p.Chmod? && p.path == s.popup.path && p.mode & !0x1FF == s.popup.mode & !0x1FF
  {
    var p := Step(s, a, fs, order).next.popup;
    ChmodPopup.ActionsKeepTarget(s.popup);
    if a == PopupToggle {
      assert p == ChmodPopup.Toggle(s.popup);
      ChmodPopup.ToggleKeepsHighBits(s.popup);
    } else {
      assert p.mode == s.popup.mode by { EditorMoveKeepsMode(s, a, fs, order); }
    }
  }

  lemma EditorMoveKeepsMode(s: State, a: Action, fs: FileSystem, order: seq<Path>)
    requires s.popup.Chmod?
    requires a in {PopupUp, PopupDown, PopupLeft, PopupRight}
    ensures var p := Step(s, a, fs, order).next.popup;
      p.Chmod? && p.path == s.popup.path && p.mode == s.popup.mode
  {
  }

  /** The state after a sequence of actions, each seeing the same filesystem and order. */
  function Run(s: State, actions: seq<Action>, fs: FileSystem, order: seq<Path>): State
    decreases |actions|
  {
    if actions == [] then s else Run(Step(s, actions[0], fs, order).next, actions[1..], fs, order)
  }

  /** Open changes nothing in the state and asks to open the cursor entry, if there is one. */
  lemma OpenSpawnsOnly(s: State, fs: FileSystem, order: seq<Path>)
    ensures Step(s, Open, fs, order).next == s
    ensures CursorEntry(s).Some? ==> Step(s, Open, fs, order).effects == [SpawnOpen(s.entries[s.cursor].path)]
    ensures CursorEntry(s).None? ==> Step(s, Open, fs, order).effects == []
  {
  }

  /** Only Paste, Delete, Open and Submit ask for anything outside the state. */
  lemma OnlyFourActionsHaveEffects(s: State, a: Action, fs: FileSystem, order: seq<Path>)
    requires !a.Paste? && !a.Delete? && !a.Open? && !a.PopupSubmit?
    ensures Step(s, a, fs, order).effects == []
  {
  }

  /**
   * A preview request shows the loading state for that path and scrolls back
   * to the top; the loader's answer that follows replaces the loading state,
   * so the pair leaves the content or the error on show at scroll 0 and
   * changes nothing else.
   */
  lemma PreviewRequestThenResult(s: State, fs: FileSystem, order: seq<Path>, path: Path, c: PreviewContent, msg: string)
    ensures Step(s, RequestPreview(path), fs, order).next.preview == Loading(path)
    ensures Step(Step(s, RequestPreview(path), fs, order).next, PreviewReady(c), fs, order).next ==
      s.(preview := Ready(c), scroll := 0)
    ensures Step(Step(s, RequestPreview(path), fs, order).next, PreviewError(path, msg), fs, order).next ==
      s.(preview := Error(path, msg), scroll := 0)
  {
  }

  /** The loader's answer, content or error message, becomes the preview; the scroll position is kept. */
  lemma PreviewResultShown(s: State, fs: FileSystem, order: seq<Path>, path: Path, c: PreviewContent, msg: string)
    ensures Step(s, PreviewReady(c), fs, order) == Outcome(s.(preview := Ready(c)), [])
    ensures Step(s, PreviewError(path, msg), fs, order) == Outcome(s.(preview := Error(path, msg)), [])
  {
  }

  // ---------------------------------------------------------------------------
  // Focus and scrolling

  /** SwitchFocus flips the focus, changes nothing else, and twice is no change at all. */
  lemma SwitchFocusFlips(s: State, fs: FileSystem, order: seq<Path>, order': seq<Path>)
    ensures var t := Step(s, SwitchFocus, fs, order).next;
      t == s.(focus := t.focus) && t.focus != s.focus
    ensures Step(Step(s, SwitchFocus, fs, order).next, SwitchFocus, fs, order').next == s
  {
  }

  /** Scrolling acts only with the preview focused, saturates at 0 going up, and changes nothing else. */
  lemma ScrollMoves(s: State, fs: FileSystem, order: seq<Path>)
    ensures var u := Step(s, ScrollPreviewUp, fs, order).next;
      var d := Step(s, ScrollPreviewDown, fs, order).next;
      var pu := Step(s, ScrollPreviewPageUp, fs, order).next;
      var pd := Step(s, ScrollPreviewPageDown, fs, order).next;
      u == s.(scroll := u.scroll) && d == s.(scroll := d.scroll) && pu == s.(scroll := pu.scroll) && pd == s.(scroll := pd.scroll) &&
      (s.focus == FileList ==> u == d == pu == pd == s) &&
      (s.focus == PreviewPane ==>
         u.scroll == (if s.scroll == 0 then 0 else s.scroll - 1) && d.scroll == s.scroll + 1 &&
         pu.scroll == (if s.scroll < 10 then 0 else s.scroll - 10) && pd.scroll == s.scroll + 10)
  {
  }

  /** Scrolling down and then up, by a line or by a page, returns to the same place. */
  lemma ScrollDownThenUp(s: State, fs: FileSystem, order: seq<Path>)
    ensures Step(Step(s, ScrollPreviewDown, fs, order).next, ScrollPreviewUp, fs, order).next == s
    ensures Step(Step(s, ScrollPreviewPageDown, fs, order).next, ScrollPreviewPageUp, fs, order).next == s
  {
  }

  /** n lines up from scroll position k reach max(k - n, 0). */
  lemma {:induction false} ScrollUpRepeated(s: State, fs: FileSystem, order: seq<Path>, n: nat)
    requires s.focus == PreviewPane
    ensures Repeat(s, ScrollPreviewUp, fs, order, n) == s.(scroll := if s.scroll >= n then s.scroll - n else 0)
    decreases n
  {
    if n > 0 {
      ScrollUpRepeated(Step(s, ScrollPreviewUp, fs, order).next, fs, order, n - 1);
    }
  }

  /** A page up is exactly ten line-ups, in either focus. */
  lemma PageUpIsTenLines(s: State, fs: FileSystem, order: seq<Path>)
    ensures Step(s, ScrollPreviewPageUp, fs, order).next == Repeat(s, ScrollPreviewUp, fs, order, 10)
  {
    if s.focus == PreviewPane {
      ScrollUpRepeated(s, fs, order, 10);
    } else {
      RepeatNoOp(s, ScrollPreviewUp, fs, order, 10);
    }
  }

  lemma {:induction false} RepeatNoOp(s: State, a: Action, fs: FileSystem, order: seq<Path>, n: nat)
    requires Step(s, a, fs, order).next == s
    ensures Repeat(s, a, fs, order, n) == s
    decreases n
  {
    if n > 0 {
      RepeatNoOp(s, a, fs, order, n - 1);
    }
  }

  // ---------------------------------------------------------------------------
  // The cursor invariant

  /** The cursor designates an entry, unless the list is empty. */
  predicate CursorInRange(s: State)
  {
    s.entries == [] || s.cursor < |s.entries|
  }

  /** Every action except Paste and Submit keeps the cursor inside a non-empty list. */
  lemma StepKeepsCursorInRange(s: State, a: Action, fs: FileSystem, order: seq<Path>)
    requires CursorInRange(s) && !a.Paste? && !a.PopupSubmit?
    ensures CursorInRange(Step(s, a, fs, order).next)
  {
  }

  /** A listing for the directory ["d"] holding the given file names. */
  function FilesIn(names: seq<string>): seq<RawEntry>
  {
    seq(|names|, i requires 0 <= i < |names| => RawEntry(names[i], false, 0x1A4, 0))
  }

  /**
   * Paste reloads without clamping the cursor: after deleting the last of
   * three files with the cursor on it, the list is empty and the cursor
   * stays at 2; pasting one file then leaves the cursor past the end.
   */
  lemma PasteLeavesCursorPastEnd()
    ensures var s := State(["d"], [], 2, {}, NoPreview, Some(Clipboard(Copy, [["e", "a"]])), FileList, 0, ChmodPopup.NoPopup);
      var fs := FileSystem(map[["d"] := FilesIn(["a"])], map[]);
      CursorInRange(s) && !CursorInRange(Step(s, Paste, fs, []).next)
  {
    var fs := FileSystem(map[["d"] := FilesIn(["a"])], map[]);
    var x := MakeEntry(["d"], RawEntry("a", false, 0x1A4, 0));
    assert MakeEntries(["d"], fs.dirs[["d"]]) == [x];
    assert SortEntries([x]) == [x] by {
      assert [x][..0] == [];
    }
  }

  /** Deleting every entry leaves the cursor where it was, not at 0. */
  lemma DeleteAllKeepsCursor()
    ensures var e := FsEntry(["d", "c"], "c", false, 0, "-rw-r--r--");
      var s := State(["d"], [e, e, e], 2, {}, NoPreview, None, FileList, 0, ChmodPopup.NoPopup);
      var fs := FileSystem(map[["d"] := []], map[]);
      var t := Step(s, Delete, fs, []).next;
      t.entries == [] && t.cursor == 2
  {
  }

  /** Submit also reloads without clamping. */
  lemma SubmitLeavesCursorPastEnd()
    ensures var s := State(["d"], [], 2, {}, NoPreview, None, FileList, 0, ChmodPopup.Open(["d", "a"], 0x1A4));
      var fs := FileSystem(map[["d"] := FilesIn(["a"])], map[]);
      CursorInRange(s) && !CursorInRange(Step(s, PopupSubmit, fs, []).next)
  {
    var fs := FileSystem(map[["d"] := FilesIn(["a"])], map[]);
    var x := MakeEntry(["d"], RawEntry("a", false, 0x1A4, 0));
    assert MakeEntries(["d"], fs.dirs[["d"]]) == [x];
    assert SortEntries([x]) == [x] by {
      assert [x][..0] == [];
    }
  }
}
