/**
 * The application state and `AppState::reduce` as a pure transition function:
 * `Step(s, a, fs, order)` is the state after handling action `a` in state `s`,
 * together with the filesystem mutations the step asks for, in order.
 *
 * The filesystem the step reads is the oracle `fs`: what `read_entries` and
 * `metadata` return during this step, after the step's own mutations. The
 * iteration order of the selection `HashSet` is the parameter `order`; every
 * property that depends on it assumes that `order` enumerates the selection.
 */
module Reducer {
  import opened Options
  import opened Paths
  import opened Listing
  import opened Preview
  import ChmodPopup

  /** `ActiveFocus`: which pane the scroll and cursor keys act on. */
  datatype Focus = FileList | PreviewPane

  datatype ClipboardOp = Copy

  /** The clipboard: the operation and the paths it holds, in the order they were yanked. */
  datatype Clipboard = Clipboard(op: ClipboardOp, paths: seq<Path>)

  /** The fields of `AppState` that the reducer reads or writes. */
  datatype State = State(
    cwd: Path,
    entries: seq<FsEntry>,
    cursor: nat,
    selected: set<Path>,
    preview: PreviewState,
    clipboard: Option<Clipboard>,
    focus: Focus,
    scroll: nat,
    popup: ChmodPopup.PopupState)

  /** `Action`. */
  datatype Action =
    | CursorMoveUp
    | CursorMoveDown
    | RequestPreview(path: Path)
    | ToggleSelect
    | EnterDir
    | GoBack
    | PreviewReady(content: PreviewContent)
    | PreviewError(path: Path, error: string)
    | Yank
    | Paste
    | Delete
    | Chmod
    | Open
    | SwitchFocus
    | ScrollPreviewUp
    | ScrollPreviewDown
    | ScrollPreviewPageUp
    | ScrollPreviewPageDown
    | PopupUp
    | PopupDown
    | PopupLeft
    | PopupRight
    | PopupToggle
    | PopupSubmit
    | PopupCancel

  /** A filesystem mutation or process spawn requested by a step; its outcome is ignored. */
  datatype Effect =
    | CopyRecursive(src: Path, dest: Path)
    | DeletePath(path: Path)
    | SetPermissions(path: Path, mode: Mode)
    | SpawnOpen(path: Path)

  datatype Outcome = Outcome(next: State, effects: seq<Effect>)

  /** `order` lists every path of `set` exactly once. */
  ghost predicate Enumerates(order: seq<Path>, paths: set<Path>)
  {
    (forall i, j :: 0 <= i < j < |order| ==> order[i] != order[j]) &&
    (forall p :: p in order <==> p in paths)
  }

  // ---------------------------------------------------------------------------
  // Helpers shared by several arms

  /** `entries.get(cursor)`. */
  function CursorEntry(s: State): Option<FsEntry>
  {
    if s.cursor < |s.entries| then Some(s.entries[s.cursor]) else None
  }

  /** The paths Yank and Delete act on: the selection in `order`, or else the cursor entry's path, or nothing. */
  function Targets(s: State, order: seq<Path>): seq<Path>
  {
    if s.selected != {} then order
    else match CursorEntry(s)
      case None => []
      case Some(e) => [e.path]
  }

  /** A successful directory change: new listing, cursor and scroll at 0, no preview. */
  function Navigate(s: State, dir: Path, fs: FileSystem): (t: State)
  {
    match ReadEntriesSpec(fs, dir)
    case None => s
    case Some(es) => s.(cwd := dir, entries := es, cursor := 0, preview := NoPreview, scroll := 0)
  }

  /** `if let Ok(entries) = read_entries(&self.cwd) { self.entries = entries; }`. */
  function Reload(s: State, fs: FileSystem): State
  {
    match ReadEntriesSpec(fs, s.cwd)
    case None => s
    case Some(es) => s.(entries := es)
  }

  // ---------------------------------------------------------------------------
  // The arms of `reduce`

  function MoveUp(s: State): State
  {
    if s.focus == FileList && s.cursor > 0 then s.(cursor := s.cursor - 1) else s
  }

  function MoveDown(s: State): State
  {
    if s.focus == FileList && s.cursor + 1 < |s.entries| then s.(cursor := s.cursor + 1) else s
  }

  function EnterDirStep(s: State, fs: FileSystem): State
  {
    var newCwd := match CursorEntry(s)
      case Some(e) => if e.isDir then e.path else s.cwd
      case None => s.cwd;
    if newCwd != s.cwd then Navigate(s, newCwd, fs) else s
  }

  function GoBackStep(s: State, fs: FileSystem): State
  {
    match Parent(s.cwd)
    case None => s
    case Some(p) => Navigate(s, p, fs)
  }

  function ToggleSelectStep(s: State): State
  {
    match CursorEntry(s)
    case None => s
    case Some(e) =>
      if e.path !in s.selected then s.(selected := s.selected + {e.path})
      else s.(selected := s.selected - {e.path})
  }

  function YankStep(s: State, order: seq<Path>): State
  {
    var paths := Targets(s, order);
    if paths != [] then s.(clipboard := Some(Clipboard(Copy, paths)), selected := {}) else s
  }

  /**
   * The copy requested for each clipboard path, in clipboard order: the
   * copy lands directly inside the current directory under the source's own
   * name; a source with no name (the root) is copied onto the directory itself.
   */
  function PasteEffects(cwd: Path, paths: seq<Path>): (r: seq<Effect>)
    ensures |r| == |paths|
    ensures forall i :: 0 <= i < |r| ==> r[i].CopyRecursive? && r[i].src == paths[i]
    ensures forall i :: 0 <= i < |r| && FileName(paths[i]) != "" ==>
      Parent(r[i].dest) == Some(cwd) && FileName(r[i].dest) == FileName(paths[i])
    ensures forall i :: 0 <= i < |r| && FileName(paths[i]) == "" ==> r[i].dest == cwd
  {
    seq(|paths|, i requires 0 <= i < |paths| => CopyRecursive(paths[i], Join(cwd, FileName(paths[i]))))
  }

  function PasteStep(s: State, fs: FileSystem): Outcome
  {
    match s.clipboard
    case None => Outcome(s, [])
    case Some(c) => Outcome(Reload(s, fs), PasteEffects(s.cwd, c.paths))
  }

  /** One deletion per target, in order. */
  function DeleteEffects(paths: seq<Path>): seq<Effect>
  {
    seq(|paths|, i requires 0 <= i < |paths| => DeletePath(paths[i]))
  }

  function DeleteStep(s: State, fs: FileSystem, order: seq<Path>): Outcome
  {
    var paths := Targets(s, order);
    var cleared := s.(selected := {});
    var next := match ReadEntriesSpec(fs, s.cwd)
      case None => cleared
      case Some(es) =>
        if s.cursor >= |es| && es != [] then cleared.(entries := es, cursor := |es| - 1)
        else cleared.(entries := es);
    Outcome(next, DeleteEffects(paths))
  }

  function ChmodStep(s: State, fs: FileSystem): State
  {
    match CursorEntry(s)
    case None => s
    case Some(e) =>
      if e.path in fs.modes then s.(popup := ChmodPopup.Open(e.path, fs.modes[e.path])) else s
  }

  function OpenEffects(s: State): seq<Effect>
  {
    match CursorEntry(s)
    case None => []
    case Some(e) => [SpawnOpen(e.path)]
  }

  function SwitchFocusStep(s: State): State
  {
    s.(focus := match s.focus case FileList => PreviewPane case PreviewPane => FileList)
  }

  function ScrollUp(s: State): State
  {
    if s.focus == PreviewPane && s.scroll > 0 then s.(scroll := s.scroll - 1) else s
  }

  function ScrollDown(s: State): State
  {
    if s.focus == PreviewPane then s.(scroll := s.scroll + 1) else s
  }

  /** `saturating_sub(10)`. */
  function PageUp(s: State): State
  {
    if s.focus == PreviewPane then s.(scroll := if s.scroll >= 10 then s.scroll - 10 else 0) else s
  }

  function PageDown(s: State): State
  {
    if s.focus == PreviewPane then s.(scroll := s.scroll + 10) else s
  }

  function SubmitStep(s: State, fs: FileSystem): Outcome
  {
    match s.popup
    case NoPopup => Outcome(s, [])
    case Chmod(path, mode, _) => Outcome(Reload(s, fs).(popup := ChmodPopup.NoPopup), [SetPermissions(path, mode)])
  }

  /** `AppState::reduce`: one action, one step. */
  function Step(s: State, a: Action, fs: FileSystem, order: seq<Path>): Outcome
  {
    match a
    case CursorMoveUp => Outcome(MoveUp(s), [])
    case CursorMoveDown => Outcome(MoveDown(s), [])
    case EnterDir => Outcome(EnterDirStep(s, fs), [])
    case GoBack => Outcome(GoBackStep(s, fs), [])
    case RequestPreview(path) => Outcome(s.(preview := Loading(path), scroll := 0), [])
    case ToggleSelect => Outcome(ToggleSelectStep(s), [])
    case Yank => Outcome(YankStep(s, order), [])
    case Paste => PasteStep(s, fs)
    case Delete => DeleteStep(s, fs, order)
    case Chmod => Outcome(ChmodStep(s, fs), [])
    case Open => Outcome(s, OpenEffects(s))
    case PreviewReady(content) => Outcome(s.(preview := Ready(content)), [])
    case PreviewError(path, error) => Outcome(s.(preview := Error(path, error)), [])
    case SwitchFocus => Outcome(SwitchFocusStep(s), [])
    case ScrollPreviewUp => Outcome(ScrollUp(s), [])
    case ScrollPreviewDown => Outcome(ScrollDown(s), [])
    case ScrollPreviewPageUp => Outcome(PageUp(s), [])
    case ScrollPreviewPageDown => Outcome(PageDown(s), [])
    case PopupUp => Outcome(s.(popup := ChmodPopup.Up(s.popup)), [])
    case PopupDown => Outcome(s.(popup := ChmodPopup.Down(s.popup)), [])
    case PopupLeft => Outcome(s.(popup := ChmodPopup.Left(s.popup)), [])
    case PopupRight => Outcome(s.(popup := ChmodPopup.Right(s.popup)), [])
    case PopupToggle => Outcome(s.(popup := ChmodPopup.Toggle(s.popup)), [])
    case PopupSubmit => SubmitStep(s, fs)
    case PopupCancel => Outcome(s.(popup := ChmodPopup.NoPopup), [])
  }

  /** The state after `n` copies of action `a`, each seeing the same filesystem and order. */
  function Repeat(s: State, a: Action, fs: FileSystem, order: seq<Path>, n: nat): State
    decreases n
  {
    if n == 0 then s else Repeat(Step(s, a, fs, order).next, a, fs, order, n - 1)
  }
}
