/**
 * The permission editor: a 3 x 3 grid of cells (rows owner, group, other;
 * columns read, write, execute) over a pending mode word. Cell i is row
 * i / 3, column i % 3.
 */
module ChmodPopup {
  import opened Paths
  import opened Listing

  /** `PopupState`: no popup, or the editor for `path` with its pending mode and selected cell. */
  datatype PopupState = NoPopup | Chmod(path: Path, mode: Mode, cursorIdx: nat)

  /** The selected cell is one of the nine grid cells. */
  predicate InGrid(p: PopupState)
  {
    p.Chmod? ==> p.cursorIdx <= 8
  }

  /** The editor as `Action::Chmod` opens it: the entry's path, its current mode, the first cell. */
  function Open(path: Path, mode: Mode): (p: PopupState)
    ensures InGrid(p) && p.Chmod? && p.cursorIdx == 0
  {
    Chmod(path, mode, 0)
  }

  /** The `match` in `PopupToggle`: the bit a cell edits, and 0 for an index outside the grid. */
  function CellBit(idx: nat): Mode
  {
    match idx
    case 0 => 0x100 case 1 => 0x80 case 2 => 0x40
    case 3 => 0x20 case 4 => 0x10 case 5 => 0x8
    case 6 => 0x4 case 7 => 0x2 case 8 => 0x1
    case _ => 0
  }

  /**
   * Cell i edits PermBit(i), the single bit 1 << (8 - i) that character
   * i + 1 of the listing's permission string shows; no index outside the
   * grid edits anything.
   */
  lemma CellBitIsPermBit(idx: nat)
    ensures idx <= 8 ==> CellBit(idx) == PermBit(idx)
    ensures idx > 8 ==> CellBit(idx) == 0
  {
  }

  function Up(p: PopupState): PopupState
  {
    if p.Chmod? && p.cursorIdx >= 3 then p.(cursorIdx := p.cursorIdx - 3) else p
  }

  function Down(p: PopupState): PopupState
  {
    if p.Chmod? && p.cursorIdx < 6 then p.(cursorIdx := p.cursorIdx + 3) else p
  }

  function Left(p: PopupState): PopupState
  {
    if p.Chmod? && p.cursorIdx % 3 > 0 then p.(cursorIdx := p.cursorIdx - 1) else p
  }

  function Right(p: PopupState): PopupState
  {
    if p.Chmod? && p.cursorIdx % 3 < 2 then p.(cursorIdx := p.cursorIdx + 1) else p
  }

  /** `PopupToggle`: XORs the selected cell's bit into the pending mode. */
  function Toggle(p: PopupState): PopupState
  {
    if p.Chmod? && CellBit(p.cursorIdx) != 0 then p.(mode := p.mode ^ CellBit(p.cursorIdx)) else p
  }

  /** Every editor action keeps the selected cell inside the grid. */
  lemma ActionsStayInGrid(p: PopupState)
    requires InGrid(p)
    ensures InGrid(Up(p)) && InGrid(Down(p)) && InGrid(Left(p)) && InGrid(Right(p)) && InGrid(Toggle(p))
  {
  }

  /** Moving changes only the selected cell; toggling changes only the mode; neither changes the path or opens or closes the popup. */
  lemma ActionsKeepTarget(p: PopupState)
    ensures Up(p).Chmod? == Down(p).Chmod? == Left(p).Chmod? == Right(p).Chmod? == Toggle(p).Chmod? == p.Chmod?
    ensures p.Chmod? ==> Up(p).path == Down(p).path == Left(p).path == Right(p).path == Toggle(p).path == p.path
    ensures p.Chmod? ==> Up(p).mode == Down(p).mode == Left(p).mode == Right(p).mode == p.mode
    ensures p.Chmod? ==> Toggle(p).cursorIdx == p.cursorIdx
  {
  }

  /** Up and Down move by exactly one row (three cells) or not at all, and move exactly when a row lies that way. */
  lemma UpDownByRow(p: PopupState)
    requires p.Chmod? && InGrid(p)
    ensures Up(p).cursorIdx == p.cursorIdx - 3 || Up(p) == p
    ensures Down(p).cursorIdx == p.cursorIdx + 3 || Down(p) == p
    ensures Up(p) == p <==> p.cursorIdx / 3 == 0
    ensures Down(p) == p <==> p.cursorIdx / 3 == 2
    ensures Up(p).cursorIdx % 3 == Down(p).cursorIdx % 3 == p.cursorIdx % 3
  {
  }

  /** Left and Right stay in the row, move by one cell or not at all, and stop at the row's edges without wrapping. */
  lemma LeftRightInRow(p: PopupState)
    requires p.Chmod? && InGrid(p)
    ensures Left(p).cursorIdx / 3 == Right(p).cursorIdx / 3 == p.cursorIdx / 3
    ensures Left(p).cursorIdx == p.cursorIdx - 1 || Left(p) == p
    ensures Right(p).cursorIdx == p.cursorIdx + 1 || Right(p) == p
    ensures Left(p) == p <==> p.cursorIdx % 3 == 0
    ensures Right(p) == p <==> p.cursorIdx % 3 == 2
  {
  }

  /** Without a popup every editor action does nothing. */
  lemma ClosedIgnoresActions(p: PopupState)
    requires p == NoPopup
    ensures Up(p) == Down(p) == Left(p) == Right(p) == Toggle(p) == p
  {
  }

  /** Toggle flips exactly bit PermBit(i) = 1 << (8 - i) of the mode, for the selected cell i. */
  lemma ToggleXorsCellBit(p: PopupState)
    requires p.Chmod? && InGrid(p)
    ensures Toggle(p).mode == p.mode ^ PermBit(p.cursorIdx)
  {
    CellBitIsPermBit(p.cursorIdx);
    assert CellBit(p.cursorIdx) != 0 by { PermBitSingle(p.cursorIdx); }
  }

  /** Toggling twice restores the pending mode. */
  lemma ToggleInvolutive(p: PopupState)
    ensures Toggle(Toggle(p)) == p
  {
    if p.Chmod? && CellBit(p.cursorIdx) != 0 {
      var b := CellBit(p.cursorIdx);
      assert (p.mode ^ b) ^ b == p.mode;
    }
  }

  /** No bit outside 0o777 (file type, setuid, setgid, sticky) is ever changed by Toggle. */
  lemma ToggleKeepsHighBits(p: PopupState)
    requires p.Chmod?
    ensures Toggle(p).mode & !0x1FF == p.mode & !0x1FF
  {
    var b := CellBit(p.cursorIdx);
    assert b & !0x1FF == 0;
  }

  /** Toggle changes exactly one permission bit: the selected cell's. */
  lemma ToggleFlipsOneBit(p: PopupState, j: nat)
    requires p.Chmod? && InGrid(p) && j < 9
    ensures (Toggle(p).mode & PermBit(j) == p.mode & PermBit(j)) <==> j != p.cursorIdx
  {
    ToggleXorsCellBit(p);
    if j == p.cursorIdx {
      XorFlipsOwnBit(p.mode, j);
    } else {
      XorKeepsOtherBit(p.mode, p.cursorIdx, j);
    }
  }

  lemma XorFlipsOwnBit(m: Mode, i: nat)
    requires i < 9
    ensures (m ^ PermBit(i)) & PermBit(i) != m & PermBit(i)
  {
    PermBitSingle(i);
    XorSameBit(m, PermBit(i));
  }

  lemma XorKeepsOtherBit(m: Mode, i: nat, j: nat)
    requires i < 9 && j < 9 && i != j
    ensures (m ^ PermBit(i)) & PermBit(j) == m & PermBit(j)
  {
    PermBitsDisjoint(i, j);
    XorOtherBit(m, PermBit(i), PermBit(j));
  }

  /** In the listing's permission string, Toggle flips exactly the character of the selected cell. */
  lemma ToggleFlipsOneChar(p: PopupState, isDir: bool, k: nat)
    requires p.Chmod? && InGrid(p) && 1 <= k < 10
    ensures PermString(isDir, Toggle(p).mode)[k] == PermString(isDir, p.mode)[k] <==> k != p.cursorIdx + 1
  {
    ToggleXorsCellBit(p);
    XorFlipsOneChar(isDir, p.mode, Toggle(p).mode, p.cursorIdx, k);
  }

  /** XORing the bit of cell i into a mode changes exactly character i + 1 of its permission string. */
  lemma XorFlipsOneChar(isDir: bool, m: Mode, m': Mode, i: nat, k: nat)
    requires i < 9 && 1 <= k < 10 && m' == m ^ PermBit(i)
    ensures PermString(isDir, m')[k] == PermString(isDir, m)[k] <==> k != i + 1
  {
    if k == i + 1 {
      XorFlipsOwnBit(m, i);
    } else {
      XorKeepsOtherBit(m, i, k - 1);
    }
    CharsAgreeIffBitsAgree(isDir, m', m, k);
  }

  /** Two modes give the same character at position k of the permission string exactly when they agree on its bit. */
  lemma CharsAgreeIffBitsAgree(isDir: bool, m: Mode, m': Mode, k: nat)
    requires 1 <= k < 10
    ensures PermString(isDir, m)[k] == PermString(isDir, m')[k] <==> m & PermBit(k - 1) == m' & PermBit(k - 1)
  {
    PermStringAt(isDir, m, k);
    PermStringAt(isDir, m', k);
    PermBitSingle(k - 1);
    BitShown(m, m', k - 1);
  }

  lemma PermBitsDisjoint(i: nat, j: nat)
    requires i < 9 && j < 9 && i != j
    ensures PermBit(i) & PermBit(j) == 0
  {
  }

  lemma PermBitSingle(i: nat)
    requires i < 9
    ensures PermBit(i) != 0 && PermBit(i) & (PermBit(i) - 1) == 0
  {
  }

  lemma XorOtherBit(m: Mode, b: Mode, c: Mode)
    requires b & c == 0
    ensures (m ^ b) & c == m & c
  {
  }

  /** Two modes show a permission bit alike exactly when they agree on it. */
  lemma BitShown(m: Mode, m': Mode, j: nat)
    requires j < 9 && PermBit(j) != 0 && PermBit(j) & (PermBit(j) - 1) == 0
    ensures ShownAs(m, j) == ShownAs(m', j) <==> m & PermBit(j) == m' & PermBit(j)
  {
    var c := PermBit(j);
    assert "rwx"[j % 3] != '-';
    SingleBitMask(m, c);
    SingleBitMask(m', c);
  }

  lemma SingleBitMask(m: Mode, b: Mode)
    requires b != 0 && b & (b - 1) == 0
    ensures m & b == 0 || m & b == b
  {
  }

  lemma XorSameBit(m: Mode, b: Mode)
    requires b != 0 && b & (b - 1) == 0
    ensures (m ^ b) & b != m & b
  {
  }

  /** The worked example: owner-write on mode 0o644 gives 0o444, and toggling again gives 0o644 back. */
  lemma ToggleExample(path: Path)
    ensures Toggle(Chmod(path, 0x1A4, 1)) == Chmod(path, 0x124, 1)
    ensures Toggle(Toggle(Chmod(path, 0x1A4, 1))) == Chmod(path, 0x1A4, 1)
  {
  }
}
