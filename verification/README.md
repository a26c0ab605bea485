# A verified model of a terminal file browser's state core

The browser shows one directory as a sorted list of entries, with a cursor, a
selection and a clipboard. A preview pane shows the entry under the cursor as a
directory tree, an image summary, text or a binary size. A permission editor
toggles the nine POSIX permission bits of an entry. Every key press becomes one
`Action`, and `AppState::reduce` handles it by updating the state in place.

This project models that core (`src/app.rs`) in Dafny:

- `listing.dfy`, module `Listing`: `read_entries`. A directory's raw children
  become entries. Each entry gets a 10-character permission string. The list
  is sorted in place by the directories-first, then-by-name comparator, using
  an insertion sort on an array. That sort is proved equal to a stable
  insertion-sort specification, and the specification is proved sorted and a
  permutation.
- `popup.dfy`, module `ChmodPopup`: the permission editor. It is a 3 x 3 grid
  of cells over a `bv32` mode word. The model covers moving the cell and the
  XOR of one bit.
- `preview.dfy`, module `Preview`:
  - `DefaultPreviewLoader::load` as a decision function over observations;
  - the tree text it builds for a directory, which can be parsed back into the
    walk;
  - the renderer's pure line handling: `lines()`, the visible window, and the
    control-character filter.
- `reducer.dfy`, module `Reducer`: the state as a value. `Step(s, a, fs,
  order)` is the reducer as a pure function returning the next state and the
  filesystem mutations the step asks for.
- `reducer_props.dfy`, module `ReducerProperties`: what each action does and
  what it leaves alone, and the invariants that the transitions keep or break.
- `app.dfy`, module `App`: `AppState` as a class whose `Reduce` method updates
  its fields step by step, as the Rust code does. The method is proved to end
  in the state `Step` prescribes and to return the effects `Step` lists. Every
  lemma about `Step` therefore holds of the object.
- `paths.dfy`: paths as component sequences, with `parent`, `file_name` and
  `join`.
- `options.dfy`: `Option` and `Result`.

## The outside world, as parameters

- **Filesystem reads.** These are the oracle `FileSystem(dirs, modes)`.
  - `dirs` maps each readable directory to its raw children: name, whether it
    is a directory, mode and size, in the order `read_dir` yields them.
  - `modes` maps each path whose `metadata` succeeds to its mode.
  - A step reads the filesystem as it stands after the step's own mutations.
- **Filesystem mutations and process spawns.** These are the `Effect` values a
  step returns, in order: `CopyRecursive(src, dest)`, `DeletePath(path)`,
  `SetPermissions(path, mode)` and `SpawnOpen(path)`. The reducer ignores
  their results, and so does the model.
- **The preview loader's queries.** They form an `Observation`:
  - whether the path is a directory;
  - the successful entries of the directory walk;
  - whether the image decoder produced dimensions;
  - whether the file read as UTF-8 text, and with what content;
  - whether `metadata` gave a length or an error message.
- **Selection order.** The iteration order of the selection `HashSet` is the
  parameter `order`. The properties that depend on it assume that `order`
  lists the selection, each path once (`Enumerates`). The class enumerates
  its `set` field with a loop and returns the order it used.

## Behaviour worth noting

The model follows the code, including these behaviours of it.

- **Empty files.** An empty regular file previews as empty `Text`, because
  `read_to_string` succeeds on empty input (src/app.rs:446-452,
  `Preview.EmptyFileIsText`). The `Binary` branch is reached only when the
  read fails.
- **The cursor is not always inside the list.**
  - Delete clamps the cursor to the last entry after its reload, but only when
    the new list is non-empty (src/app.rs:244-251). Delete down to an empty
    list leaves the cursor where it was
    (`ReducerProperties.DeleteAllKeepsCursor`).
  - Paste (src/app.rs:224-227) and PopupSubmit (src/app.rs:362-365) reload the
    listing without any clamp, so the cursor can end up past the end of a
    non-empty list (`ReducerProperties.PasteLeavesCursorPastEnd`,
    `ReducerProperties.SubmitLeavesCursorPastEnd`).
  - Every other action keeps "cursor < len, or the list is empty"
    (`ReducerProperties.StepKeepsCursorInRange`).
- **Delete clears the selection too** (src/app.rs:244), as Yank does
  (src/app.rs:208).
- **Chmod opens the editor even when one is already open.** The Chmod arm
  (src/app.rs:253-265) overwrites `popup` without looking at it.
- **Metadata failures on entries.** A listing entry whose metadata cannot be
  read makes `read_entries` panic (`unwrap`, src/app.rs:471). The model does
  not pretend that such entries are skipped (see Left out).

## Model

| member | source | states |
|---|---|---|
| `Paths.Parent` | src/app.rs:172 | `parent()`: none exactly at the root, otherwise the path minus its last component |
| `Paths.Join` | src/app.rs:216-217 | joining a non-empty name gives a path whose parent is the directory and whose file name is the name |
| `Listing.PermString` | src/app.rs:483-492 | the permission string has 10 characters, the first `d` exactly for a directory and `-` otherwise |
| `Listing.PermStringChars` | src/app.rs:484-492 | character k (1..9) shows the letter of `rwx` for its column exactly when bit 0o400 >> (k - 1) is set, else `-` |
| `Listing.PermStringAt` | src/app.rs:484-492 | the same, for one position k |
| `Listing.PermBitIsShift` | src/app.rs:484-492 | the bit shown at position k + 1 is `1 << (8 - k)` |
| `Listing.PermStringRoundTrip` | src/app.rs:483-492 | the string determines the directory flag and the low nine mode bits: reading the bits back gives `mode & 0o777` |
| `Listing.CmpBool` | src/app.rs:506 | `bool::cmp`: equal exactly on equal values, false before true |
| `Listing.CmpStr` | src/app.rs:508 | `String::cmp` is Equal exactly on equal strings |
| `Listing.CmpStrReverse` | src/app.rs:508 | swapping the arguments reverses the string order |
| `Listing.CmpStrLeTrans` | src/app.rs:508 | "not after" on strings is transitive |
| `Listing.CompareEntriesReverse` | src/app.rs:504-510 | the comparator is antisymmetric and ties exactly the entries of the same kind and name |
| `Listing.CompareEntriesLeTrans` | src/app.rs:504-510 | the comparator's "not after" is transitive, so it is a total preorder |
| `Listing.InsertPermutes` | src/app.rs:504 | inserting one entry into the sorted prefix adds exactly that entry |
| `Listing.InsertKeepsSorted` | src/app.rs:504-510 | inserting into a sorted list keeps it sorted |
| `Listing.SortEntriesPermutes` | src/app.rs:504 | the sort is a permutation of its input |
| `Listing.SortEntriesSorted` | src/app.rs:504-510 | the sort's output is ordered by the comparator |
| `Listing.SortedListingOrder` | src/app.rs:505-509 | in a sorted listing every directory precedes every file, and names ascend within each group |
| `Listing.InsertInPlace` | src/app.rs:504 | shifting one element left in the array performs the insertion step of the sort, leaving the rest of the array alone |
| `Listing.SortInPlace` | src/app.rs:504-510 | `sort_by` in place: the array ends as the specification sort of its old contents |
| `Listing.ReadEntries` | src/app.rs:465-513 | `read_entries` fails exactly on an unreadable directory; otherwise its result is sorted, is a permutation of one entry per child, and equals `ReadEntriesSpec` |
| `Listing.ListingExample` | src/app.rs:465-513 | a directory with file `b.txt` and directory `A` lists as `[A, b.txt]` with strings `drwxr-xr-x` and `-rw-r--r--` |
| `ChmodPopup.Open` | src/app.rs:258-262 | the editor opens on the first cell, inside the grid |
| `ChmodPopup.CellBitIsPermBit` | src/app.rs:347-352 | cell i edits exactly the bit character i + 1 of the permission string shows; an index outside the grid edits nothing |
| `ChmodPopup.ActionsStayInGrid` | src/app.rs:311-358 | every editor action keeps the cell index in 0..8 |
| `ChmodPopup.ActionsKeepTarget` | src/app.rs:311-358 | moves change only the cell and toggling changes only the mode; none changes the path or closes the editor |
| `ChmodPopup.UpDownByRow` | src/app.rs:311-324 | Up and Down move by exactly 3 or not at all, keep the column, and do nothing exactly on the top or the bottom row |
| `ChmodPopup.LeftRightInRow` | src/app.rs:325-338 | Left and Right keep the row, move by exactly 1 or not at all, and do nothing exactly on the first or the last column |
| `ChmodPopup.ClosedIgnoresActions` | src/app.rs:311-358 | with no editor open, every editor action does nothing |
| `ChmodPopup.ToggleXorsCellBit` | src/app.rs:339-358 | Toggle XORs exactly bit `1 << (8 - i)` into the mode for the selected cell i |
| `ChmodPopup.ToggleInvolutive` | src/app.rs:339-358 | toggling twice restores the editor exactly |
| `ChmodPopup.ToggleKeepsHighBits` | src/app.rs:339-358 | no bit outside 0o777 ever changes |
| `ChmodPopup.ToggleFlipsOneBit` | src/app.rs:339-358 | of the nine permission bits, Toggle changes exactly the selected cell's |
| `ChmodPopup.ToggleFlipsOneChar` | src/app.rs:339-358 | in the listing's permission string of the new mode, exactly the selected cell's character differs |
| `ChmodPopup.XorFlipsOneChar` | src/app.rs:339-358 | XORing the bit of cell i into a mode changes exactly character i + 1 of the permission string, whichever the mode |
| `ChmodPopup.ToggleExample` | src/app.rs:339-358 | toggling owner-write on 0o644 gives 0o444, and toggling again gives 0o644 |
| `Preview.Indent` | src/app.rs:399 | `"  ".repeat(n)` is 2n spaces |
| `Preview.BuildTree` | src/app.rs:391-402 | the tree loop produces the tree text of the walk: one line per entry, in walk order, indented two spaces per level below the first |
| `Preview.TreeTextCons` | src/app.rs:391-402 | the first entry's line starts the tree text |
| `Preview.ParseTreeLine` | src/app.rs:398-401 | one tree line reads back as its depth and name |
| `Preview.TreeTextRoundTrip` | src/app.rs:391-402 | when no name holds a newline, the tree text parses back into exactly the walk it was built from |
| `Preview.AsciiLower` | src/app.rs:427 | lower-casing keeps the length and maps exactly `A`..`Z` to `a`..`z` |
| `Preview.Extension` | src/app.rs:424-426 | `Path::extension`: the text after the last dot; none for `..`, for a name without a dot, or for a name whose only dot leads it |
| `Preview.Load` | src/app.rs:383-462 | `load`, including its tree loop, returns what the decision function `Classify` gives |
| `Preview.ClassifyTitle` | src/app.rs:384-388 | every successful preview carries the path's file name as its title |
| `Preview.ClassifyDirectory` | src/app.rs:390-407 | a directory always previews as its tree text, whatever the other observations are |
| `Preview.ClassifyDecodedImage` | src/app.rs:409-421 | a decoded image wins over extension, text and metadata, and keeps its dimensions |
| `Preview.ImageExtensionNeverText` | src/app.rs:423-440 | a file with an image extension is never shown as text or binary; undecoded, it is an image of 0 x 0 marked as a metadata failure |
| `Preview.ClassifyTextOrBinary` | src/app.rs:446-460 | after the image checks, UTF-8 content is shown as text, and binary appears exactly when the file is not text and its metadata is readable |
| `Preview.ClassifyError` | src/app.rs:446-460 | the only error is the metadata read's message, and it appears exactly when every earlier branch declined |
| `Preview.EmptyFileIsText` | src/app.rs:446-452 | an empty regular file with no image extension previews as empty text |
| `Preview.ClassifyShortCircuits` | src/app.rs:383-462 | the observations after the deciding branch never change the result |
| `Preview.UpperCaseExtensionIsImage` | src/app.rs:424-430 | the extension match ignores ASCII case: `photo.PNG` counts as an image |
| `Preview.LastDotExtension` | src/app.rs:424-430 | only the part after the last dot is the extension: `x.tar.Jpeg` counts as an image |
| `Preview.InnerExtensionIgnored` | src/app.rs:424-430 | `x.png.txt` does not count as an image |
| `Preview.NoExtensionExamples` | src/app.rs:424-430 | `.png`, `png` and the root have no extension |
| `Preview.LinesHaveNoNewline` | src/app.rs:731 | no line produced by `lines()` contains a newline |
| `Preview.LinesUnlines` | src/app.rs:731 | `lines()` inverts joining lines with `\n` terminators, for lines without newlines or a trailing `\r` |
| `Preview.Viewport` | src/app.rs:731 | `skip(scroll).take(height)`: at most `height` lines, the ones from index `scroll` on, in order |
| `Preview.Sanitize` | src/app.rs:733-737 | the filtered line is no longer than the input and has no control character except tabs |
| `Preview.SanitizeAppend` | src/app.rs:733-737 | the filter works character by character: it distributes over concatenation |
| `Preview.SanitizeKeeps` | src/app.rs:733-737 | a character survives exactly when it occurs in the line and is not a control character, or is a tab |
| `Preview.SanitizeIdempotent` | src/app.rs:733-737 | filtering twice is filtering once |
| `Preview.VisibleLines` | src/app.rs:731-737 | the drawn lines are the sanitized lines of the window, never more than the pane height |
| `Reducer.PasteEffects` | src/app.rs:215-221 | one copy per clipboard path, in clipboard order, with that path as source; a named source lands directly inside the current directory under its own name, and a nameless one (the root) onto the directory itself |
| `ReducerProperties.CursorMoveUpMoves` | src/app.rs:138-144 | Up acts only when the file list has focus, moves by one towards 0, stops at 0, and changes nothing else |
| `ReducerProperties.CursorMoveDownMoves` | src/app.rs:145-151 | Down acts only when the file list has focus, moves by one, never reaches `entries.len()`, and changes nothing else |
| `ReducerProperties.MoveDownRepeated` | src/app.rs:145-151 | n presses of Down from index c in a list of length L reach min(c + n, L - 1) |
| `ReducerProperties.MoveUpRepeated` | src/app.rs:138-144 | n presses of Up from index c reach max(c - n, 0) |
| `ReducerProperties.EnterDirNoOp` | src/app.rs:152-170 | EnterDir does nothing in these cases: no cursor entry, a file, the current directory itself, or an unreadable directory |
| `ReducerProperties.EnterDirReplacesListing` | src/app.rs:152-170 | otherwise it moves into the entry: sorted listing, cursor, scroll and preview reset, and selection, clipboard, focus and popup kept |
| `ReducerProperties.GoBackNoOp` | src/app.rs:171-182 | GoBack does nothing at the root or when the parent is unreadable |
| `ReducerProperties.GoBackReplacesListing` | src/app.rs:171-182 | otherwise it moves to the parent with its sorted listing and the same resets |
| `ReducerProperties.ToggleSelectFlips` | src/app.rs:187-194 | ToggleSelect flips exactly the cursor entry's membership in the selection; with no cursor entry it does nothing |
| `ReducerProperties.ToggleSelectInvolutive` | src/app.rs:187-194 | ToggleSelect twice restores the state exactly |
| `ReducerProperties.YankTargets` | src/app.rs:195-210 | Yank takes the selection (each path once) or else the cursor entry, writes it to the clipboard as Copy, and clears the selection; with nothing to take it changes nothing |
| `ReducerProperties.YankTwiceYanksCursorEntry` | src/app.rs:195-210 | a second Yank sees an empty selection and takes the cursor entry |
| `ReducerProperties.PasteCopiesIntoCwd` | src/app.rs:211-229 | Paste copies each clipboard path into the current directory under its name, reloads the listing, and keeps the clipboard and the cursor; with no clipboard it does nothing |
| `ReducerProperties.DeleteClearsAndClamps` | src/app.rs:230-252 | Delete deletes the Yank targets and empties the selection; a successful reload to a non-empty list moves the cursor to min(cursor, len - 1); an empty list or a failed reload leaves the cursor alone |
| `ReducerProperties.DistinctCardinality` | src/app.rs:238 | collecting the selection gives as many paths as it has members |
| `ReducerProperties.ChmodOpensEditor` | src/app.rs:253-265 | Chmod opens the editor on the cursor entry with its current mode at cell 0; with no entry or no metadata it does nothing |
| `ReducerProperties.StepKeepsPopupInGrid` | src/app.rs:311-358 | no action moves the editor's cell outside the grid |
| `ReducerProperties.PopupChangedOnlyByPopupActions` | src/app.rs:137-372 | only Chmod and the seven popup actions change the popup |
| `ReducerProperties.SubmitAndCancelClose` | src/app.rs:359-371 | Submit asks for exactly one permission change, to the pending mode, reloads and closes; Cancel closes and asks for nothing |
| `ReducerProperties.EditorKeepsHighBits` | src/app.rs:311-358 | any run of editor moves and toggles keeps the editor open on the same path, and keeps every mode bit outside 0o777 |
| `ReducerProperties.OpenSpawnsOnly` | src/app.rs:266-273 | Open leaves the state unchanged and asks to open the cursor entry, if there is one |
| `ReducerProperties.OnlyFourActionsHaveEffects` | src/app.rs:137-372 | only Paste, Delete, Open and PopupSubmit touch the filesystem or spawn a process |
| `ReducerProperties.PreviewRequestThenResult` | src/app.rs:183-186 | a request shows Loading at scroll 0; the loader's answer after it leaves the content or error on show at scroll 0 |
| `ReducerProperties.PreviewResultShown` | src/app.rs:274-282 | PreviewReady and PreviewError put the content or error in the preview and change nothing else |
| `ReducerProperties.SwitchFocusFlips` | src/app.rs:283-288 | SwitchFocus flips the focus, changes nothing else, and undoes itself |
| `ReducerProperties.ScrollMoves` | src/app.rs:289-310 | scrolling acts only with the preview focused: down by 1 or 10, up by 1 or 10 saturating at 0 |
| `ReducerProperties.ScrollDownThenUp` | src/app.rs:289-310 | a line or page down followed by the same distance up returns to the same state |
| `ReducerProperties.ScrollUpRepeated` | src/app.rs:289-295 | n lines up from k reach max(k - n, 0) |
| `ReducerProperties.PageUpIsTenLines` | src/app.rs:289-305 | a page up is exactly ten line-ups, in either focus |
| `ReducerProperties.StepKeepsCursorInRange` | src/app.rs:137-372 | every action except Paste and PopupSubmit keeps "cursor < len, or the list is empty" |
| `ReducerProperties.PasteLeavesCursorPastEnd` | src/app.rs:224-227 | Paste's reload can leave the cursor past the end of a non-empty list |
| `ReducerProperties.DeleteAllKeepsCursor` | src/app.rs:244-251 | Delete to an empty list leaves the cursor where it was, not at 0 |
| `ReducerProperties.SubmitLeavesCursorPastEnd` | src/app.rs:363-365 | Submit's reload can leave the cursor past the end of a non-empty list |
| `App.AppState.constructor` | src/main.rs:34-46 | the initial state: working directory and its listing, cursor 0, nothing selected, no preview, no clipboard, file list focused, no editor |
| `App.AppState.CollectSelection` | src/app.rs:203 | collecting the selection lists each selected path exactly once |
| `App.AppState.CollectTargets` | src/app.rs:196-204 | the targets of Yank and Delete: the selection, in the order it was enumerated, or else the cursor entry's path, or nothing |
| `App.AppState.ReloadEntries` | src/app.rs:225-227 | a reload replaces the entries only when the directory can be read |
| `App.AppState.ChangeDir` | src/app.rs:160-168 | a successful read replaces cwd, entries, cursor, preview and scroll; a failed one changes nothing |
| `App.AppState.DoEnterDir` | src/app.rs:152-170 | the EnterDir arm, in place, as `EnterDirStep` |
| `App.AppState.DoGoBack` | src/app.rs:171-182 | the GoBack arm, in place, as `GoBackStep` |
| `App.AppState.DoToggleSelect` | src/app.rs:187-194 | the ToggleSelect arm, in place, as `ToggleSelectStep` |
| `App.AppState.DoYank` | src/app.rs:195-210 | the Yank arm, in place, as `YankStep` with the order used |
| `App.AppState.DoPaste` | src/app.rs:211-229 | the Paste arm: its copy loop yields `PasteEffects`, then the reload |
| `App.AppState.DoDelete` | src/app.rs:230-252 | the Delete arm: its deletion loop yields `DeleteEffects`, then clear, reload and clamp |
| `App.AppState.DoCursorMove` | src/app.rs:138-151 | the two cursor arms in place: the object ends in `MoveUp`'s or `MoveDown`'s state, which `CursorMoveUpMoves` and `CursorMoveDownMoves` pin down |
| `App.AppState.DoScroll` | src/app.rs:289-310 | the four scroll arms in place: the object ends in `ScrollUp`'s, `ScrollDown`'s, `PageUp`'s or `PageDown`'s state, which `ScrollMoves` pins down |
| `App.AppState.DoPopupMove` | src/app.rs:311-338 | the four editor moves in place: only the popup changes, as `ChmodPopup.Up`, `Down`, `Left` and `Right` give it |
| `App.AppState.DoChmod` | src/app.rs:253-265 | the Chmod arm, in place |
| `App.AppState.DoPopupToggle` | src/app.rs:339-358 | the toggle through `*mode ^= bit`, as `ChmodPopup.Toggle` |
| `App.AppState.DoPopupSubmit` | src/app.rs:359-368 | the Submit arm: one permission change, a reload, then close |
| `App.AppState.Reduce` | src/app.rs:136-373 | `reduce` in place: the object ends in `Step`'s next state and returns `Step`'s effects; it keeps the object invariant `Valid` (the editor's cell is in the grid), which the constructor establishes |

## Left out

- `src/main.rs` is not part of this model, except for the initial state. That
  excludes terminal setup and teardown, the event loop and the key-to-action
  table. Because the key table is left out, "an open editor receives every
  key" is not modelled; the reducer itself handles every action in every
  state.
- `src/ops.rs` (`copy_recursive`, `delete_path`, `set_permissions`) is not
  part of this model. Its calls are the effects a step returns, and their
  results are ignored, as in the code.
- The contents of the filesystem oracle are not modelled: reading directories
  and metadata, `is_dir` (which follows symbolic links), WalkDir's traversal
  order, image decoding, and reading UTF-8.
- Listing.ReadEntries: the panic of `entry.metadata().unwrap()` is not
  modelled. Every child in the oracle has metadata.
- The unused first permission buffer in `read_entries` is not modelled; it is
  dead code.
- The spawn of `xdg-open` becomes the effect `SpawnOpen`; the process is not
  modelled.
- Rendering is not modelled: `ui`, `centered_rect`, `draw_file_list`, and
  `draw_preview` beyond its line window and filter. Syntax highlighting and
  the `syntax_set`/`theme_set` fields are not modelled either, nor is the
  `Debug` impl.
- Preview.AsciiLower lower-cases ASCII letters only, where `to_lowercase` is
  Unicode-aware. The image-extension decision is the same either way: no
  non-ASCII character lower-cases to a string made only of the letters of the
  eight extensions.
- Paths.FileName: paths are assumed to have no `..` component, because
  `read_dir` never yields one and the browser builds paths only from listing
  entries and `parent()`. `Path = seq<string>` does admit `".."`. For such a
  path Rust's `file_name()` is `None`, so Paste would copy onto the current
  directory and the preview title would be empty, while the model's
  `FileName` returns `".."`. (`Preview.Extension` already gives `..` no
  extension, as `Path::extension` does.)
- Integer widths:
  - `usize` overflow of the cursor and scroll counters is not modelled; they
    are unbounded `nat`s.
  - Sizes are unbounded `nat`s rather than `u64`.
  - Image dimensions are bounded to `u32`.
  - The mode is a `bv32` word.
- Invalid UTF-8 in names (`to_string_lossy`) is not modelled; names are
  strings.
