/**
 * `AppState` as the object the event loop owns and `reduce` updates in place,
 * field by field. Each step is proved to leave the object in the state
 * `Reducer.Step` prescribes and to ask for exactly the effects it lists, so
 * every property proved about `Step` holds of the object.
 */
module App {
  import opened Options
  import opened Paths
  import opened Listing
  import opened Preview
  import ChmodPopup
  import opened Reducer
  import ReducerProperties

  class AppState {
    var cwd: Path
    var entries: seq<FsEntry>
    var cursor: nat
    var selected: set<Path>
    var preview: PreviewState
    var clipboard: Option<Clipboard>
    var activeFocus: Focus
    var previewScroll: nat
    var popup: ChmodPopup.PopupState

    /** The object's fields as a `Reducer.State` value. */
    function Snapshot(): State
      reads this
    {
      State(cwd, entries, cursor, selected, preview, clipboard, activeFocus, previewScroll, popup)
    }

    /**
     * The object invariant: the editor, when open, has its cell inside the
     * grid. The constructor establishes it and every `Reduce` keeps it, so
     * the toggle's fallback arm for an index outside 0..8 is never taken.
     */
    ghost predicate Valid()
      reads this
    {
      ChmodPopup.InGrid(popup)
    }

    /** The initial state the program starts from: the working directory and its listing, nothing else set. */
    constructor (cwd: Path, entries: seq<FsEntry>)
      ensures Valid()
      ensures Snapshot() == State(cwd, entries, 0, {}, NoPreview, None, FileList, 0, ChmodPopup.NoPopup)
    {
      this.cwd := cwd;
      this.entries := entries;
      this.cursor := 0;
      this.selected := {};
      this.preview := NoPreview;
      this.clipboard := None;
      this.activeFocus := FileList;
      this.previewScroll := 0;
      this.popup := ChmodPopup.NoPopup;
    }

    /** `self.selected.iter().cloned().collect()`: the selection, each path once, in some order. */
    method CollectSelection() returns (paths: seq<Path>)
      ensures Enumerates(paths, selected)
    {
      var rest := selected;
      paths := [];
      while rest != {}
        invariant rest <= selected
        invariant forall p :: p in paths <==> p in selected && p !in rest
        invariant forall i, j :: 0 <= i < j < |paths| ==> paths[i] != paths[j]
        decreases |rest|
      {
        var p :| p in rest;
        paths := paths + [p];
        rest := rest - {p};
      }
    }

    /** The targets of Yank and Delete, and the order in which the selection was enumerated. */
    method CollectTargets() returns (paths: seq<Path>, ghost order: seq<Path>)
      ensures Enumerates(order, selected)
      ensures paths == Targets(Snapshot(), order)
    {
      if selected == {} {
        order := [];
        if cursor < |entries| {
          paths := [entries[cursor].path];
        } else {
          paths := [];
        }
      } else {
        paths := CollectSelection();
        order := paths;
      }
    }

    /** The `read_entries` calls that replace the listing only on success. */
    method ReloadEntries(fs: FileSystem)
      modifies this
      ensures Snapshot() == Reload(old(Snapshot()), fs)
    {
      var r := ReadEntries(fs, cwd);
      if r.Some? {
        entries := r.value;
      }
    }

    /** The directory change shared by EnterDir and GoBack. */
    method ChangeDir(dir: Path, fs: FileSystem)
      modifies this
      ensures Snapshot() == Navigate(old(Snapshot()), dir, fs)
    {
      var r := ReadEntries(fs, dir);
      if r.Some? {
        cwd := dir;
        entries := r.value;
        cursor := 0;
        preview := NoPreview;
        previewScroll := 0;
      }
    }

    method DoEnterDir(fs: FileSystem)
      modifies this
      ensures Snapshot() == EnterDirStep(old(Snapshot()), fs)
    {
      var newCwd := cwd;
      if cursor < |entries| {
        var entry := entries[cursor];
        if entry.isDir {
          newCwd := entry.path;
        }
      }
      if newCwd != cwd {
        ChangeDir(newCwd, fs);
      }
    }

    method DoGoBack(fs: FileSystem)
      modifies this
      ensures Snapshot() == GoBackStep(old(Snapshot()), fs)
    {
      var parent := Parent(cwd);
      if parent.Some? {
        ChangeDir(parent.value, fs);
      }
    }

    method DoToggleSelect()
      modifies this
      ensures Snapshot() == ToggleSelectStep(old(Snapshot()))
    {
      if cursor < |entries| {
        var path := entries[cursor].path;
        if path !in selected {
          selected := selected + {path};
        } else {
          selected := selected - {path};
        }
      }
    }

    method DoYank() returns (ghost order: seq<Path>)
      modifies this
      ensures Enumerates(order, old(selected))
      ensures Snapshot() == YankStep(old(Snapshot()), order)
    {
      var paths;
      paths, order := CollectTargets();
      if paths != [] {
        clipboard := Some(Clipboard(Copy, paths));
        selected := {};
      }
    }

    /** Paste: one copy per clipboard path, then a reload. */
    method DoPaste(fs: FileSystem) returns (effects: seq<Effect>)
      modifies this
      ensures Outcome(Snapshot(), effects) == PasteStep(old(Snapshot()), fs)
    {
      effects := [];
      if clipboard.Some? {
        var srcs := clipboard.value.paths;
        var i := 0;
        while i < |srcs|
          invariant 0 <= i <= |srcs|
          invariant |effects| == i
          invariant forall k :: 0 <= k < i ==> effects[k] == CopyRecursive(srcs[k], Join(cwd, FileName(srcs[k])))
        {
          var src := srcs[i];
          var dest := Join(cwd, FileName(src));
          effects := effects + [CopyRecursive(src, dest)];
          i := i + 1;
        }
        assert effects == PasteEffects(cwd, srcs);
        ReloadEntries(fs);
      }
    }

    /** Delete: one deletion per target, clear the selection, reload and clamp the cursor. */
    method DoDelete(fs: FileSystem) returns (effects: seq<Effect>, ghost order: seq<Path>)
      modifies this
      ensures Enumerates(order, old(selected))
      ensures Outcome(Snapshot(), effects) == DeleteStep(old(Snapshot()), fs, order)
    {
      var paths;
      paths, order := CollectTargets();
      effects := [];
      var i := 0;
      while i < |paths|
        invariant 0 <= i <= |paths|
        invariant |effects| == i
        invariant forall k :: 0 <= k < i ==> effects[k] == DeletePath(paths[k])
      {
        effects := effects + [DeletePath(paths[i])];
        i := i + 1;
      }
      assert effects == DeleteEffects(paths);
      selected := {};
      var r := ReadEntries(fs, cwd);
      if r.Some? {
        entries := r.value;
        if cursor >= |entries| && entries != [] {
          cursor := |entries| - 1;
        }
      }
    }

    method DoChmod(fs: FileSystem)
      modifies this
      ensures Snapshot() == ChmodStep(old(Snapshot()), fs)
    {
      if cursor < |entries| {
        var entry := entries[cursor];
        if entry.path in fs.modes {
          popup := ChmodPopup.Chmod(entry.path, fs.modes[entry.path], 0);
        }
      }
    }

    method DoPopupToggle()
      modifies this
      ensures Snapshot() == old(Snapshot()).(popup := ChmodPopup.Toggle(old(popup)))
    {
      if popup.Chmod? {
        var bit := ChmodPopup.CellBit(popup.cursorIdx);
        if bit != 0 {
          popup := popup.(mode := popup.mode ^ bit);
        }
      }
    }

    method DoPopupSubmit(fs: FileSystem) returns (effects: seq<Effect>)
      modifies this
      ensures Outcome(Snapshot(), effects) == SubmitStep(old(Snapshot()), fs)
    {
      effects := [];
      if popup.Chmod? {
        effects := [SetPermissions(popup.path, popup.mode)];
        ReloadEntries(fs);
      }
      popup := ChmodPopup.NoPopup;
    }

    /** The two arms that move the list cursor. */
    method DoCursorMove(action: Action)
      requires action.CursorMoveUp? || action.CursorMoveDown?
      modifies this
      ensures action.CursorMoveUp? ==> Snapshot() == MoveUp(old(Snapshot()))
      ensures action.CursorMoveDown? ==> Snapshot() == MoveDown(old(Snapshot()))
    {
      if activeFocus == FileList {
        if action.CursorMoveUp? {
          if cursor > 0 {
            cursor := cursor - 1;
          }
        } else if cursor + 1 < |entries| {
          cursor := cursor + 1;
        }
      }
    }

    /** The four preview-scrolling arms. */
    method DoScroll(action: Action)
      requires action.ScrollPreviewUp? || action.ScrollPreviewDown? || action.ScrollPreviewPageUp? || action.ScrollPreviewPageDown?
      modifies this
      ensures action.ScrollPreviewUp? ==> Snapshot() == ScrollUp(old(Snapshot()))
      ensures action.ScrollPreviewDown? ==> Snapshot() == ScrollDown(old(Snapshot()))
      ensures action.ScrollPreviewPageUp? ==> Snapshot() == PageUp(old(Snapshot()))
      ensures action.ScrollPreviewPageDown? ==> Snapshot() == PageDown(old(Snapshot()))
    {
      if activeFocus == PreviewPane {
        match action {
          case ScrollPreviewUp =>
            if previewScroll > 0 {
              previewScroll := previewScroll - 1;
            }
          case ScrollPreviewDown =>
            previewScroll := previewScroll + 1;
          case ScrollPreviewPageUp =>
            previewScroll := if previewScroll >= 10 then previewScroll - 10 else 0;
          case ScrollPreviewPageDown =>
            previewScroll := previewScroll + 10;
        }
      }
    }

    /** The four arms that move the editor's selected cell. */
    method DoPopupMove(action: Action)
      requires action.PopupUp? || action.PopupDown? || action.PopupLeft? || action.PopupRight?
      modifies this
      ensures action.PopupUp? ==> Snapshot() == old(Snapshot()).(popup := ChmodPopup.Up(old(popup)))
      ensures action.PopupDown? ==> Snapshot() == old(Snapshot()).(popup := ChmodPopup.Down(old(popup)))
      ensures action.PopupLeft? ==> Snapshot() == old(Snapshot()).(popup := ChmodPopup.Left(old(popup)))
      ensures action.PopupRight? ==> Snapshot() == old(Snapshot()).(popup := ChmodPopup.Right(old(popup)))
    {
      if popup.Chmod? {
        match action {
          case PopupUp =>
            if popup.cursorIdx >= 3 {
              popup := popup.(cursorIdx := popup.cursorIdx - 3);
            }
          case PopupDown =>
            if popup.cursorIdx < 6 {
              popup := popup.(cursorIdx := popup.cursorIdx + 3);
            }
          case PopupLeft =>
            if popup.cursorIdx % 3 > 0 {
              popup := popup.(cursorIdx := popup.cursorIdx - 1);
            }
          case PopupRight =>
            if popup.cursorIdx % 3 < 2 {
              popup := popup.(cursorIdx := popup.cursorIdx + 1);
            }
        }
      }
    }

    /**
     * `AppState::reduce`: handles one action in place. The object ends in the
     * state `Step` gives and the effects are the ones it lists; `order` is the
     * order in which the selection was enumerated, when it was.
     */
    method Reduce(action: Action, fs: FileSystem) returns (effects: seq<Effect>, ghost order: seq<Path>)
      requires Valid()
      modifies this
      ensures action.Yank? || action.Delete? ==> Enumerates(order, old(selected))
      ensures Snapshot() == Step(old(Snapshot()), action, fs, order).next
      ensures effects == Step(old(Snapshot()), action, fs, order).effects
      ensures Valid()
    {
      ghost var s := Snapshot();
      effects := [];
      order := [];
      match action {
        case CursorMoveUp => DoCursorMove(action);
        case CursorMoveDown => DoCursorMove(action);
        case EnterDir => DoEnterDir(fs);
        case GoBack => DoGoBack(fs);
        case RequestPreview(path) =>
          preview := Loading(path);
          previewScroll := 0;
        case ToggleSelect => DoToggleSelect();
        case Yank =>
          order := DoYank();
        case Paste => effects := DoPaste(fs);
        case Delete =>
          effects, order := DoDelete(fs);
        case Chmod => DoChmod(fs);
        case Open =>
          if cursor < |entries| {
            effects := [SpawnOpen(entries[cursor].path)];
          }
        case PreviewReady(content) => preview := Ready(content);
        case PreviewError(path, error) => preview := Error(path, error);
        case SwitchFocus =>
          activeFocus := match activeFocus case FileList => PreviewPane case PreviewPane => FileList;
        case ScrollPreviewUp => DoScroll(action);
        case ScrollPreviewDown => DoScroll(action);
        case ScrollPreviewPageUp => DoScroll(action);
        case ScrollPreviewPageDown => DoScroll(action);
        case PopupUp => DoPopupMove(action);
        case PopupDown => DoPopupMove(action);
        case PopupLeft => DoPopupMove(action);
        case PopupRight => DoPopupMove(action);
        case PopupToggle => DoPopupToggle();
        case PopupSubmit => effects := DoPopupSubmit(fs);
        case PopupCancel => popup := ChmodPopup.NoPopup;
      }
      ReducerProperties.StepKeepsPopupInGrid(s, action, fs, order);
    }
  }
}
