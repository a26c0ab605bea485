/**
 * The directory reader `read_entries`: every child of a directory becomes an
 * entry carrying a ten-character permission string, and the list is sorted
 * with directories first, then by name in `String` order.
 *
 * The filesystem itself is an input: `FileSystem` says what `read_dir` and
 * `metadata` report while one reducer step runs.
 */
module Listing {
  import opened Options
  import opened Paths

  /** The `u32` mode word of `PermissionsExt::mode`. */
  type Mode = bv32

  /** What `read_dir` reports of one child: its name, whether it is a directory, its mode and its length. */
  datatype RawEntry = RawEntry(name: string, isDir: bool, mode: Mode, size: nat)

  /** `FsEntry`: one line of the file list. */
  datatype FsEntry = FsEntry(path: Path, name: string, isDir: bool, size: nat, permissions: string)

  /**
   * The filesystem as the reads of one step see it: `dirs` maps every
   * directory that `read_dir` can open to its children, `modes` maps every
   * path whose `metadata` can be read to its mode word. A path missing from
   * a map is a read that fails.
   */
  datatype FileSystem = FileSystem(dirs: map<Path, seq<RawEntry>>, modes: map<Path, Mode>)

  // ---------------------------------------------------------------------------
  // Permission string
  // ---------------------------------------------------------------------------

  /** The POSIX bit shown by character k + 1 of the permission string (k = 0 is owner read, k = 8 other execute). */
  function PermBit(k: nat): (bit: Mode)
    requires k < 9
  {
    match k
    case 0 => 0x100 case 1 => 0x80 case 2 => 0x40
    case 3 => 0x20 case 4 => 0x10 case 5 => 0x8
    case 6 => 0x4 case 7 => 0x2 case _ => 0x1
  }

  /** The table above is the single bit 1 << (8 - k). */
  lemma PermBitIsShift(k: nat)
    requires k < 9
    ensures PermBit(k) == (1 as bv32) << (8 - k)
  {
    if k == 0 {} else if k == 1 {} else if k == 2 {} else if k == 3 {} else if k == 4 {}
    else if k == 5 {} else if k == 6 {} else if k == 7 {} else {}
  }

  function PermChar(mode: Mode, bit: Mode, c: char): char
  {
    if mode & bit != 0 then c else '-'
  }

  /**
   * The string built in `read_entries`: 'd' or '-', then r, w, x for owner,
   * group and other, each replaced by '-' when its bit is clear.
   */
  function PermString(isDir: bool, mode: Mode): (s: string)
    ensures |s| == 10
    ensures s[0] == 'd' <==> isDir
    ensures s[0] == '-' <==> !isDir
  {
    [if isDir then 'd' else '-',
     PermChar(mode, 0x100, 'r'), PermChar(mode, 0x80, 'w'), PermChar(mode, 0x40, 'x'),
     PermChar(mode, 0x20, 'r'), PermChar(mode, 0x10, 'w'), PermChar(mode, 0x8, 'x'),
     PermChar(mode, 0x4, 'r'), PermChar(mode, 0x2, 'w'), PermChar(mode, 0x1, 'x')]
  }

  /** The character a permission bit is shown as: r, w or x by its column, '-' when clear. */
  function ShownAs(mode: Mode, k: nat): char
    requires k < 9
  {
    if mode & PermBit(k) != 0 then "rwx"[k % 3] else '-'
  }

  lemma PermStringOwner(isDir: bool, mode: Mode, k: nat)
    requires 1 <= k < 4
    ensures PermString(isDir, mode)[k] == ShownAs(mode, k - 1)
  {
  }

  lemma PermStringGroup(isDir: bool, mode: Mode, k: nat)
    requires 4 <= k < 7
    ensures PermString(isDir, mode)[k] == ShownAs(mode, k - 1)
  {
  }

  lemma PermStringOther(isDir: bool, mode: Mode, k: nat)
    requires 7 <= k < 10
    ensures PermString(isDir, mode)[k] == ShownAs(mode, k - 1)
  {
  }

  /** Character k of the permission string (1 <= k <= 9) is r, w or x exactly when PermBit(k - 1) is set. */
  lemma PermStringChars(isDir: bool, mode: Mode)
    ensures forall k :: 1 <= k < 10 ==> PermString(isDir, mode)[k] == ShownAs(mode, k - 1)
  {
    forall k | 1 <= k < 10
      ensures PermString(isDir, mode)[k] == ShownAs(mode, k - 1)
    {
      PermStringAt(isDir, mode, k);
    }
  }

  lemma PermStringAt(isDir: bool, mode: Mode, k: nat)
    requires 1 <= k < 10
    ensures PermString(isDir, mode)[k] == ShownAs(mode, k - 1)
  {
    if k < 4 {
      PermStringOwner(isDir, mode, k);
    } else if k < 7 {
      PermStringGroup(isDir, mode, k);
    } else {
      PermStringOther(isDir, mode, k);
    }
  }

  /** Reads the nine permission bits back from a permission string. */
  function PermissionBits(s: string): Mode
    requires |s| == 10
  {
    (if s[1] != '-' then 0x100 else 0) | (if s[2] != '-' then 0x80 else 0) | (if s[3] != '-' then 0x40 else 0) |
    (if s[4] != '-' then 0x20 else 0) | (if s[5] != '-' then 0x10 else 0) | (if s[6] != '-' then 0x8 else 0) |
    (if s[7] != '-' then 0x4 else 0) | (if s[8] != '-' then 0x2 else 0) | (if s[9] != '-' then 0x1 else 0)
  }

  /** The mode word's nine permission bits, one by one. */
  function LowBits(mode: Mode): Mode
  {
    (mode & 0x100) | (mode & 0x80) | (mode & 0x40) | (mode & 0x20) | (mode & 0x10) |
    (mode & 0x8) | (mode & 0x4) | (mode & 0x2) | (mode & 0x1)
  }

  lemma LowBitsMask(mode: Mode)
    ensures LowBits(mode) == mode & 0x1FF
  {
  }

  /** The permission string loses exactly the bits above 0o777 and nothing else. */
  lemma PermStringRoundTrip(isDir: bool, mode: Mode)
    ensures var s := PermString(isDir, mode); PermissionBits(s) == mode & 0x1FF && (s[0] == 'd') == isDir
  {
    var s := PermString(isDir, mode);
    assert (if s[1] != '-' then 0x100 else 0) == mode & 0x100 by { assert s[1] == PermChar(mode, 0x100, 'r'); }
    assert (if s[2] != '-' then 0x80 else 0) == mode & 0x80 by { assert s[2] == PermChar(mode, 0x80, 'w'); }
    assert (if s[3] != '-' then 0x40 else 0) == mode & 0x40 by { assert s[3] == PermChar(mode, 0x40, 'x'); }
    assert (if s[4] != '-' then 0x20 else 0) == mode & 0x20 by { assert s[4] == PermChar(mode, 0x20, 'r'); }
    assert (if s[5] != '-' then 0x10 else 0) == mode & 0x10 by { assert s[5] == PermChar(mode, 0x10, 'w'); }
    assert (if s[6] != '-' then 0x8 else 0) == mode & 0x8 by { assert s[6] == PermChar(mode, 0x8, 'x'); }
    assert (if s[7] != '-' then 0x4 else 0) == mode & 0x4 by { assert s[7] == PermChar(mode, 0x4, 'r'); }
    assert (if s[8] != '-' then 0x2 else 0) == mode & 0x2 by { assert s[8] == PermChar(mode, 0x2, 'w'); }
    assert (if s[9] != '-' then 0x1 else 0) == mode & 0x1 by { assert s[9] == PermChar(mode, 0x1, 'x'); }
    LowBitsMask(mode);
  }

  // ---------------------------------------------------------------------------
  // The sort comparator
  // ---------------------------------------------------------------------------

  datatype Ordering = Less | Equal | Greater {
    function Reverse(): Ordering
    {
      match this
      case Less => Greater
      case Equal => Equal
      case Greater => Less
    }
  }

  /** `Ord for bool`: false before true. */
  function CmpBool(a: bool, b: bool): (r: Ordering)
    ensures r == Equal <==> a == b
    ensures r == Less <==> !a && b
  {
    if a == b then Equal else if b then Less else Greater
  }

  /**
   * `Ord for String`: lexicographic on the UTF-8 bytes, which orders strings
   * the same way as comparing their characters' code points lexicographically.
   */
  function CmpStr(a: string, b: string): (r: Ordering)
    ensures r == Equal <==> a == b
  {
    if a == [] then (if b == [] then Equal else Less)
    else if b == [] then Greater
    else if a[0] < b[0] then Less
    else if a[0] > b[0] then Greater
    else CmpStr(a[1..], b[1..])
  }

  lemma {:induction false} CmpStrReverse(a: string, b: string)
    ensures CmpStr(b, a) == CmpStr(a, b).Reverse()
  {
    if a != [] && b != [] && a[0] == b[0] {
      CmpStrReverse(a[1..], b[1..]);
    }
  }

  lemma {:induction false} CmpStrLeTrans(a: string, b: string, c: string)
    requires CmpStr(a, b) != Greater && CmpStr(b, c) != Greater
    ensures CmpStr(a, c) != Greater
  {
    if a != [] && b != [] && c != [] && a[0] == b[0] == c[0] {
      CmpStrLeTrans(a[1..], b[1..], c[1..]);
    }
  }

  /** The closure given to `sort_by`: directories first, then names in ascending order. */
  function CompareEntries(x: FsEntry, y: FsEntry): Ordering
  {
    if x.isDir != y.isDir then CmpBool(y.isDir, x.isDir) else CmpStr(x.name, y.name)
  }

  /** The comparator is antisymmetric, and it ties exactly the entries with the same kind and name. */
  lemma CompareEntriesReverse(x: FsEntry, y: FsEntry)
    ensures CompareEntries(y, x) == CompareEntries(x, y).Reverse()
    ensures CompareEntries(x, y) == Equal <==> x.isDir == y.isDir && x.name == y.name
  {
    CmpStrReverse(x.name, y.name);
  }

  /** "Not after" is transitive, so the comparator is a total preorder. */
  lemma CompareEntriesLeTrans(x: FsEntry, y: FsEntry, z: FsEntry)
    requires CompareEntries(x, y) != Greater && CompareEntries(y, z) != Greater
    ensures CompareEntries(x, z) != Greater
  {
    if x.isDir == y.isDir == z.isDir {
      CmpStrLeTrans(x.name, y.name, z.name);
    }
  }

  // ---------------------------------------------------------------------------
  // The sort
  // ---------------------------------------------------------------------------

  /** No entry is placed after one the comparator puts before it. */
  ghost predicate Sorted(s: seq<FsEntry>)
  {
    forall i, j :: 0 <= i < j < |s| ==> CompareEntries(s[i], s[j]) != Greater
  }

  /** Inserts x behind every entry that is not after it (so equal entries keep their order). */
  function Insert(t: seq<FsEntry>, x: FsEntry): seq<FsEntry>
  {
    if t == [] then [x]
    else if CompareEntries(x, t[|t| - 1]) == Less then Insert(t[..|t| - 1], x) + [t[|t| - 1]]
    else t + [x]
  }

  lemma {:induction false} InsertPermutes(t: seq<FsEntry>, x: FsEntry)
    ensures multiset(Insert(t, x)) == multiset(t) + multiset{x}
  {
    if t != [] {
      assert t == t[..|t| - 1] + [t[|t| - 1]];
      if CompareEntries(x, t[|t| - 1]) == Less {
        InsertPermutes(t[..|t| - 1], x);
      }
    }
  }

  /**
   * `sort_by` is a stable sort; a stable insertion sort yields the same
   * order for the same comparator.
   */
  function SortEntries(s: seq<FsEntry>): seq<FsEntry>
  {
    if s == [] then [] else Insert(SortEntries(s[..|s| - 1]), s[|s| - 1])
  }

  /** The sort neither loses nor duplicates an entry. */
  lemma {:induction false} SortEntriesPermutes(s: seq<FsEntry>)
    ensures multiset(SortEntries(s)) == multiset(s)
  {
    if s != [] {
      assert s == s[..|s| - 1] + [s[|s| - 1]];
      SortEntriesPermutes(s[..|s| - 1]);
      InsertPermutes(SortEntries(s[..|s| - 1]), s[|s| - 1]);
    }
  }

  lemma {:induction false} InsertKeepsSorted(t: seq<FsEntry>, x: FsEntry)
    requires Sorted(t)
    ensures Sorted(Insert(t, x))
  {
    if t == [] {
    } else {
      var init, last := t[..|t| - 1], t[|t| - 1];
      if CompareEntries(x, last) == Less {
        InsertKeepsSorted(init, x);
        InsertPermutes(init, x);
        var rec := Insert(init, x);
        forall e | e in rec
          ensures CompareEntries(e, last) != Greater
        {
          assert e in multiset(rec);
          if e == x {
            CompareEntriesReverse(x, last);
          } else {
            assert e in multiset(init);
            var i :| 0 <= i < |init| && init[i] == e;
            assert t[i] == e;
          }
        }
        var r := rec + [last];
        forall i, j | 0 <= i < j < |r|
          ensures CompareEntries(r[i], r[j]) != Greater
        {
          if j < |rec| {
            assert r[i] == rec[i] && r[j] == rec[j];
          } else {
            assert r[i] in rec;
          }
        }
      } else {
        CompareEntriesReverse(x, last);
        CompareEntriesReverse(last, last);
        var r := t + [x];
        forall i, j | 0 <= i < j < |r|
          ensures CompareEntries(r[i], r[j]) != Greater
        {
          if j == |t| {
            if i < |t| - 1 {
              CompareEntriesLeTrans(t[i], last, x);
            }
          }
        }
      }
    }
  }

  /** The result of the sort is ordered by the comparator. */
  lemma {:induction false} SortEntriesSorted(s: seq<FsEntry>)
    ensures Sorted(SortEntries(s))
  {
    if s != [] {
      SortEntriesSorted(s[..|s| - 1]);
      InsertKeepsSorted(SortEntries(s[..|s| - 1]), s[|s| - 1]);
    }
  }

  /** A sorted list holds every directory before every file, and each group in ascending name order. */
  lemma SortedListingOrder(s: seq<FsEntry>, i: nat, j: nat)
    requires Sorted(s) && i < j < |s|
    ensures s[j].isDir ==> s[i].isDir
    ensures s[i].isDir == s[j].isDir ==> CmpStr(s[i].name, s[j].name) != Greater
  {
    assert CompareEntries(s[i], s[j]) != Greater;
  }

  // ---------------------------------------------------------------------------
  // read_entries
  // ---------------------------------------------------------------------------

  /** The entry built for one child of `dir`. */
  function MakeEntry(dir: Path, e: RawEntry): FsEntry
  {
    FsEntry(Join(dir, e.name), e.name, e.isDir, e.size, PermString(e.isDir, e.mode))
  }

  function MakeEntries(dir: Path, raw: seq<RawEntry>): (r: seq<FsEntry>)
  {
    seq(|raw|, i requires 0 <= i < |raw| => MakeEntry(dir, raw[i]))
  }

  /** What `read_entries(dir)` returns: None when the directory cannot be read. */
  function ReadEntriesSpec(fs: FileSystem, dir: Path): Option<seq<FsEntry>>
  {
    if dir in fs.dirs then Some(SortEntries(MakeEntries(dir, fs.dirs[dir]))) else None
  }

  /**
   * Where Insert puts x: behind t[..j] when x goes before every entry of
   * t[j..] and not before t[j - 1].
   */
  lemma {:induction false} InsertAt(t: seq<FsEntry>, x: FsEntry, j: nat)
    requires j <= |t|
    requires forall k :: j <= k < |t| ==> CompareEntries(x, t[k]) == Less
    requires j == 0 || CompareEntries(x, t[j - 1]) != Less
    ensures Insert(t, x) == t[..j] + [x] + t[j..]
  {
    if j < |t| {
      var init := t[..|t| - 1];
      InsertAt(init, x, j);
      assert init[..j] == t[..j];
      assert init[j..] + [t[|t| - 1]] == t[j..];
    } else if t != [] {
      assert t[..j] == t;
    }
  }

  /** The sort of a prefix one longer inserts the new last entry into the sort of the shorter one. */
  lemma SortEntriesSnoc(s: seq<FsEntry>, i: nat)
    requires i < |s|
    ensures SortEntries(s[..i + 1]) == Insert(SortEntries(s[..i]), s[i])
  {
    assert s[..i + 1][..i] == s[..i];
  }

  /** Moves a[i] left past every entry of the prefix a[..i] that it goes before. */
  method InsertInPlace(a: array<FsEntry>, i: nat)
    requires i < a.Length
    modifies a
    ensures a[..i + 1] == Insert(old(a[..i]), old(a[i]))
    ensures forall k :: i < k < a.Length ==> a[k] == old(a[k])
  {
    var x := a[i];
    ghost var t := a[..i];
    var j := i;
    while j > 0 && CompareEntries(x, a[j - 1]) == Less
      invariant 0 <= j <= i
      invariant forall k :: 0 <= k < j ==> a[k] == t[k]
      invariant forall k :: j < k <= i ==> a[k] == t[k - 1]
      invariant forall k :: i < k < a.Length ==> a[k] == old(a[k])
      invariant forall k :: j <= k < i ==> CompareEntries(x, t[k]) == Less
    {
      a[j] := a[j - 1];
      j := j - 1;
    }
    a[j] := x;
    InsertAt(t, x, j);
    ghost var r := t[..j] + [x] + t[j..];
    assert forall k :: 0 <= k <= i ==> a[k] == r[k];
    assert a[..i + 1] == r;
  }

  /** `sort_by` on the vector: an insertion sort over the array, in place. */
  method SortInPlace(a: array<FsEntry>)
    modifies a
    ensures a[..] == SortEntries(old(a[..]))
  {
    ghost var s := a[..];
    var i := 0;
    while i < a.Length
      invariant 0 <= i <= a.Length
      invariant a[..i] == SortEntries(s[..i])
      invariant forall k :: i <= k < a.Length ==> a[k] == s[k]
    {
      InsertInPlace(a, i);
      SortEntriesSnoc(s, i);
      i := i + 1;
    }
    assert a[..] == a[..a.Length];
    assert s[..a.Length] == s;
  }

  /**
   * `read_entries`: collects one entry per child of `dir` into a vector and
   * sorts it in place; a directory that cannot be opened is an error.
   */
  method ReadEntries(fs: FileSystem, dir: Path) returns (r: Option<seq<FsEntry>>)
    ensures r.Some? <==> dir in fs.dirs
    ensures r.Some? ==> Sorted(r.value)
    ensures r.Some? ==> multiset(r.value) == multiset(MakeEntries(dir, fs.dirs[dir]))
    ensures r == ReadEntriesSpec(fs, dir)
  {
    if dir !in fs.dirs {
      return None;
    }
    var raw := fs.dirs[dir];
    var a := new FsEntry[|raw|](i requires 0 <= i < |raw| => MakeEntry(dir, raw[i]));
    assert a[..] == MakeEntries(dir, raw);
    SortInPlace(a);
    SortEntriesSorted(MakeEntries(dir, raw));
    SortEntriesPermutes(MakeEntries(dir, raw));
    r := Some(a[..]);
  }

  /** A directory holding the file "b.txt" and the directory "A" lists as [A, b.txt], whatever order the directory yields them in. */
  lemma ListingExample(dir: Path)
    ensures var b := RawEntry("b.txt", false, 0x1A4, 3);
      var a := RawEntry("A", true, 0x1ED, 0);
      var r := ReadEntriesSpec(FileSystem(map[dir := [b, a]], map[]), dir);
      r.Some? && |r.value| == 2 && r.value[0].name == "A" && r.value[0].permissions == "drwxr-xr-x" &&
      r.value[1].name == "b.txt" && r.value[1].permissions == "-rw-r--r--"
  {
    var b := MakeEntry(dir, RawEntry("b.txt", false, 0x1A4, 3));
    var a := MakeEntry(dir, RawEntry("A", true, 0x1ED, 0));
    assert MakeEntries(dir, [RawEntry("b.txt", false, 0x1A4, 3), RawEntry("A", true, 0x1ED, 0)]) == [b, a];
    assert [b, a][..1] == [b];
    assert [b][..0] == [];
    assert SortEntries([b]) == [b];
    assert CompareEntries(a, b) == Less;
    assert Insert([b], a) == [a, b];
  }
}
