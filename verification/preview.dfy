/**
 * The preview pane's content pipeline: the classifier `DefaultPreviewLoader::load`
 * as a decision function over what the filesystem and the decoders report, the
 * directory-tree text it builds for a directory, and the renderer's pure line
 * handling (`lines().skip(scroll).take(height)` and the control-character filter).
 */
module Preview {
  import opened Options
  import opened Paths

  /** An unsigned 32-bit integer (`u32`): image dimensions. */
  type U32 = n: nat | n < 0x1_0000_0000

  /** `PreviewContent`. */
  datatype PreviewContent =
    | Text(title: string, content: string)
    | Binary(title: string, size: nat)
    | Image(title: string, width: U32, height: U32, colorType: string)

  /** `PreviewState`: what the preview pane shows. */
  datatype PreviewState =
    | NoPreview
    | Ready(content: PreviewContent)
    | Loading(path: Path)
    | Error(path: Path, message: string)

  /** WalkDir runs with `min_depth(1)` and `max_depth(3)`: every entry it yields is 1 to 3 levels below the root. */
  type Depth = d: nat | 1 <= d <= 3 witness 1

  /** One entry of the directory walk that `load` keeps (`filter_map(|e| e.ok())`), in walk order. */
  datatype WalkEntry = WalkEntry(depth: Depth, name: string)

  /**
   * What `load` learns from the outside world about `path`, one field per query
   * in the order the code asks them:
   *   isDir        `path.is_dir()`
   *   walk         the successful WalkDir entries (consulted only for a directory)
   *   imageDims    the image reader opened the file, guessed a format and read dimensions
   *   text         `read_to_string` succeeded (the file is valid UTF-8) with this content
   *   metadataLen  `metadata(path)` gave this length, or failed with this message
   */
  datatype Observation = Observation(
    isDir: bool,
    walk: seq<WalkEntry>,
    imageDims: Option<(U32, U32)>,
    text: Option<string>,
    metadataLen: Result<nat, string>)

  // ---------------------------------------------------------------------------
  // Directory tree text

  /** `"  ".repeat(n)`. */
  function Indent(n: nat): (s: string)
    ensures |s| == 2 * n
    ensures forall i :: 0 <= i < |s| ==> s[i] == ' '
  {
    if n == 0 then "" else "  " + Indent(n - 1)
  }

  /** The line pushed for one walk entry: depth d gives d - 1 indents, then `|-- name` and a newline. */
  function TreeLine(e: WalkEntry): string
  {
    Indent(e.depth - 1) + "|-- " + e.name + "\n"
  }

  /** The whole tree text: the entries' lines in walk order. */
  function TreeText(walk: seq<WalkEntry>): string
  {
    if walk == [] then "" else TreeText(walk[..|walk| - 1]) + TreeLine(walk[|walk| - 1])
  }

  /** The tree-building loop of `load`: one `push_str` per walk entry. */
  method BuildTree(walk: seq<WalkEntry>) returns (tree: string)
    ensures tree == TreeText(walk)
  {
    tree := "";
    var i := 0;
    while i < |walk|
      invariant 0 <= i <= |walk|
      invariant tree == TreeText(walk[..i])
    {
      assert walk[..i + 1][..i] == walk[..i];
      tree := tree + TreeLine(walk[i]);
      i := i + 1;
    }
    assert walk[..i] == walk;
  }

  /** The tree text can be read front to back: the first entry's line comes first. */
  lemma {:induction false} TreeTextCons(e: WalkEntry, walk: seq<WalkEntry>)
    ensures TreeText([e] + walk) == TreeLine(e) + TreeText(walk)
    decreases |walk|
  {
    var w := [e] + walk;
    if walk == [] {
      assert w[..0] == [];
      assert TreeText(w) == TreeText([]) + TreeLine(e);
    } else {
      var init, last := walk[..|walk| - 1], walk[|walk| - 1];
      assert w[..|w| - 1] == [e] + init;
      assert w[|w| - 1] == last;
      assert TreeText(w) == TreeText([e] + init) + TreeLine(last);
      TreeTextCons(e, init);
      assert TreeText(walk) == TreeText(init) + TreeLine(last);
    }
  }

  /** The index of the first newline of `s`, if any. */
  function LineEnd(s: string): (r: Option<nat>)
    ensures r.Some? ==> r.value < |s| && s[r.value] == '\n' && NoNewline(s[..r.value])
    ensures r.None? ==> NoNewline(s)
  {
    if s == [] then None
    else if s[0] == '\n' then Some(0)
    else match LineEnd(s[1..])
      case None => None
      case Some(n) => assert s[1..][..n] == s[1..n + 1]; Some(n + 1)
  }

  predicate NoNewline(s: string)
  {
    forall i :: 0 <= i < |s| ==> s[i] != '\n'
  }

  /** The first newline of a newline-free text followed by a newline is the one after it. */
  lemma {:induction false} LineEndAfter(a: string, b: string)
    requires NoNewline(a)
    ensures LineEnd(a + "\n" + b) == Some(|a|)
    decreases |a|
  {
    if a == [] {
      assert (a + "\n" + b)[0] == '\n';
    } else {
      assert (a + "\n" + b)[1..] == a[1..] + "\n" + b;
      LineEndAfter(a[1..], b);
    }
  }

  /** How many two-space indents `s` starts with. */
  function CountIndent(s: string): nat
    decreases |s|
  {
    if |s| >= 2 && s[0] == ' ' && s[1] == ' ' then 1 + CountIndent(s[2..]) else 0
  }

  /** Reads one tree line back (without its newline): indents, `|-- `, then the name. */
  function ParseLine(line: string): Option<WalkEntry>
  {
    var k := CountIndent(line);
    if 2 * k + 4 <= |line| && line[2 * k..2 * k + 4] == "|-- " && k + 1 <= 3 then
      Some(WalkEntry(k + 1, line[2 * k + 4..]))
    else
      None
  }

  /** Reads a whole tree text back into its walk entries, or None when it is not one. */
  function ParseTree(s: string): Option<seq<WalkEntry>>
    decreases |s|
  {
    if s == [] then Some([])
    else match LineEnd(s)
      case None => None
      case Some(n) =>
        match ParseLine(s[..n])
        case None => None
        case Some(e) =>
          match ParseTree(s[n + 1..])
          case None => None
          case Some(rest) => Some([e] + rest)
  }

  lemma {:induction false} CountIndentOf(n: nat, rest: string)
    requires rest != [] && rest[0] == '|'
    ensures CountIndent(Indent(n) + rest) == n
    decreases n
  {
    if n == 0 {
      assert Indent(n) + rest == rest;
    } else {
      var s := Indent(n) + rest;
      assert s[0] == ' ' && s[1] == ' ';
      assert s[2..] == Indent(n - 1) + rest;
      CountIndentOf(n - 1, rest);
    }
  }

  /** A tree line, without its newline, reads back as its entry. */
  lemma ParseTreeLine(e: WalkEntry)
    ensures ParseLine(Indent(e.depth - 1) + "|-- " + e.name) == Some(e)
  {
    var line := Indent(e.depth - 1) + "|-- " + e.name;
    var k := e.depth - 1;
    assert line == Indent(k) + ("|-- " + e.name);
    CountIndentOf(k, "|-- " + e.name);
    assert line[2 * k..2 * k + 4] == "|-- ";
    assert line[2 * k + 4..] == e.name;
  }

  /** Reading a tree text that starts with one entry's line gives that entry, then what the rest reads as. */
  lemma ParseTreeStep(e: WalkEntry, r: string)
    requires NoNewline(e.name)
    ensures ParseTree(TreeLine(e) + r) == match ParseTree(r) case None => None case Some(rest) => Some([e] + rest)
  {
    var a := Indent(e.depth - 1) + "|-- " + e.name;
    var k := 2 * (e.depth - 1) + 4;
    assert NoNewline(a) by {
      assert forall i :: 0 <= i < |a| ==> a[i] == if i < k then (Indent(e.depth - 1) + "|-- ")[i] else e.name[i - k];
    }
    var s := TreeLine(e) + r;
    assert s == a + "\n" + r;
    LineEndAfter(a, r);
    assert s[..|a|] == a;
    assert s[|a| + 1..] == r;
    ParseTreeLine(e);
  }

  /** The tree text holds exactly the walk: when no name has a newline, it reads back as the walk. */
  lemma {:induction false} TreeTextRoundTrip(walk: seq<WalkEntry>)
    requires forall i :: 0 <= i < |walk| ==> NoNewline(walk[i].name)
    ensures ParseTree(TreeText(walk)) == Some(walk)
    decreases |walk|
  {
    if walk != [] {
      var e, rest := walk[0], walk[1..];
      assert walk == [e] + rest;
      TreeTextCons(e, rest);
      ParseTreeStep(e, TreeText(rest));
      TreeTextRoundTrip(rest);
    }
  }

  // ---------------------------------------------------------------------------
  // Classification

  /** `str::to_lowercase` on the ASCII letters; every other character is kept. */
  function AsciiLower(s: string): (r: string)
    ensures |r| == |s|
    ensures forall i :: 0 <= i < |s| ==> r[i] == (if 'A' <= s[i] <= 'Z' then (s[i] as int + 32) as char else s[i])
  {
    if s == [] then [] else AsciiLower(s[..|s| - 1]) + [if 'A' <= s[|s| - 1] <= 'Z' then (s[|s| - 1] as int + 32) as char else s[|s| - 1]]
  }

  /** The index of the last '.' of `s`, if any. */
  function LastDot(s: string): (r: Option<nat>)
    ensures r.Some? ==> r.value < |s| && s[r.value] == '.' && forall i :: r.value < i < |s| ==> s[i] != '.'
    ensures r.None? ==> forall i :: 0 <= i < |s| ==> s[i] != '.'
  {
    if s == [] then None
    else if s[|s| - 1] == '.' then Some(|s| - 1)
    else LastDot(s[..|s| - 1])
  }

  /**
   * `Path::extension` of a file name: what follows its last '.', except that
   * "..", a name without a dot and a name whose only dot leads it (".bashrc")
   * have none.
   */
  function Extension(name: string): (r: Option<string>)
    ensures r.Some? ==> exists d :: 0 < d < |name| && name[d] == '.' && r.value == name[d + 1..] && NoDot(r.value)
    ensures r.None? <==> name == ".." || NoDot(name) || (name[0] == '.' && NoDot(name[1..]))
  {
    if name == ".." then None
    else match LastDot(name)
      case None => None
      case Some(d) =>
        if d == 0 then assert name[1..] == name[d + 1..]; None
        else
          assert !NoDot(name) by { assert name[d] == '.'; }
          assert name[0] == '.' ==> !NoDot(name[1..]) by {
            assert name[1..][d - 1] == '.';
          }
          Some(name[d + 1..])
  }

  predicate NoDot(s: string)
  {
    forall i :: 0 <= i < |s| ==> s[i] != '.'
  }

  /** The extensions the fallback treats as images. */
  const ImageExtensions: set<string> := {"png", "jpg", "jpeg", "gif", "bmp", "webp", "ico", "tiff"}

  /** The extension fallback fires: the path's extension, lower-cased, is one of the image extensions. */
  predicate HasImageExtension(path: Path)
  {
    match Extension(FileName(path))
    case None => false
    case Some(ext) => AsciiLower(ext) in ImageExtensions
  }

  const UnknownColor: string := "Unknown"
  const MetadataFailed: string := "Unknown (Metadata Load Failed)"

  /**
   * `DefaultPreviewLoader::load` as a decision on the observations, in the
   * code's order: directory tree, decoded image, image extension, UTF-8 text,
   * byte size, and otherwise the metadata error.
   */
  function Classify(path: Path, obs: Observation): Result<PreviewContent, string>
  {
    var title := FileName(path);
    if obs.isDir then Ok(Text(title, TreeText(obs.walk)))
    else if obs.imageDims.Some? then Ok(Image(title, obs.imageDims.value.0, obs.imageDims.value.1, UnknownColor))
    else if HasImageExtension(path) then Ok(Image(title, 0, 0, MetadataFailed))
    else if obs.text.Some? then Ok(Text(title, obs.text.value))
    else match obs.metadataLen
      case Ok(len) => Ok(Binary(title, len))
      case Err(msg) => Err(msg)
  }

  /** `load`, building the tree text with its loop. */
  method Load(path: Path, obs: Observation) returns (r: Result<PreviewContent, string>)
    ensures r == Classify(path, obs)
  {
    var title := FileName(path);
    if obs.isDir {
      var tree := BuildTree(obs.walk);
      return Ok(Text(title, tree));
    }
    if obs.imageDims.Some? {
      return Ok(Image(title, obs.imageDims.value.0, obs.imageDims.value.1, UnknownColor));
    }
    if HasImageExtension(path) {
      return Ok(Image(title, 0, 0, MetadataFailed));
    }
    if obs.text.Some? {
      return Ok(Text(title, obs.text.value));
    }
    match obs.metadataLen {
      case Ok(len) => r := Ok(Binary(title, len));
      case Err(msg) => r := Err(msg);
    }
  }

  function Title(c: PreviewContent): string
  {
    match c
    case Text(t, _) => t
    case Binary(t, _) => t
    case Image(t, _, _, _) => t
  }

  /** Every successful preview is titled with the path's file name. */
  lemma ClassifyTitle(path: Path, obs: Observation)
    ensures Classify(path, obs).Ok? ==> Title(Classify(path, obs).value) == FileName(path)
  {
  }

  /** A directory always previews as its tree, whatever the other observations say. */
  lemma ClassifyDirectory(path: Path, obs: Observation)
    requires obs.isDir
    ensures Classify(path, obs) == Ok(Text(FileName(path), TreeText(obs.walk)))
  {
  }

  /** The only error is the metadata read's, and it surfaces exactly when every earlier branch declined. */
  lemma ClassifyError(path: Path, obs: Observation)
    ensures Classify(path, obs).Err? <==>
      !obs.isDir && obs.imageDims.None? && !HasImageExtension(path) && obs.text.None? && obs.metadataLen.Err?
    ensures Classify(path, obs).Err? ==> Classify(path, obs).error == obs.metadataLen.error
  {
  }

  /** A decoded image wins over the extension, the text and the metadata; its dimensions are kept. */
  lemma ClassifyDecodedImage(path: Path, obs: Observation, w: U32, h: U32)
    requires !obs.isDir && obs.imageDims == Some((w, h))
    ensures Classify(path, obs) == Ok(Image(FileName(path), w, h, UnknownColor))
  {
  }

  /** A file with an image extension is never shown as text or as binary, whatever its bytes. */
  lemma ImageExtensionNeverText(path: Path, obs: Observation)
    requires !obs.isDir && HasImageExtension(path)
    ensures Classify(path, obs).Ok? && Classify(path, obs).value.Image?
    ensures obs.imageDims.None? ==> Classify(path, obs).value == Image(FileName(path), 0, 0, MetadataFailed)
  {
  }

  /** Text is the content read, and binary only when the file is not UTF-8 text. */
  lemma ClassifyTextOrBinary(path: Path, obs: Observation)
    requires !obs.isDir && obs.imageDims.None? && !HasImageExtension(path)
    ensures obs.text.Some? ==> Classify(path, obs) == Ok(Text(FileName(path), obs.text.value))
    ensures Classify(path, obs).Ok? && Classify(path, obs).value.Binary? <==> obs.text.None? && obs.metadataLen.Ok?
  {
  }

  /** An empty regular file reads as the empty string, so it previews as empty text, not as binary. */
  lemma EmptyFileIsText(path: Path, obs: Observation)
    requires !obs.isDir && obs.imageDims.None? && !HasImageExtension(path) && obs.text == Some("")
    ensures Classify(path, obs) == Ok(Text(FileName(path), ""))
  {
  }

  /** Later queries never matter once an earlier branch has decided. */
  lemma ClassifyShortCircuits(path: Path, obs: Observation, obs': Observation)
    requires obs.isDir == obs'.isDir
    ensures obs.isDir && obs.walk == obs'.walk ==> Classify(path, obs) == Classify(path, obs')
    ensures !obs.isDir && obs.imageDims.Some? && obs.imageDims == obs'.imageDims ==> Classify(path, obs) == Classify(path, obs')
    ensures !obs.isDir && obs.imageDims.None? && obs'.imageDims.None? && HasImageExtension(path) ==> Classify(path, obs) == Classify(path, obs')
  {
  }

  /** The fallback's match ignores ASCII case: "photo.PNG" counts as an image. */
  lemma UpperCaseExtensionIsImage()
    ensures HasImageExtension(["home", "photo.PNG"])
  {
    assert "photo.PNG"[5] == '.';
    assert LastDot("photo.PNG") == Some(5);
    assert Extension("photo.PNG") == Some("PNG");
    assert AsciiLower("PNG") == "png";
  }

  /** Only the part after the last dot is the extension. */
  lemma LastDotExtension()
    ensures HasImageExtension(["a.b", "x.tar.Jpeg"])
  {
    assert "x.tar.Jpeg"[5] == '.';
    assert LastDot("x.tar.Jpeg") == Some(5);
    assert "x.tar.Jpeg"[6..] == "Jpeg";
    assert AsciiLower("Jpeg") == "jpeg";
  }

  /** An image extension in the middle of the name does not count. */
  lemma InnerExtensionIgnored()
    ensures !HasImageExtension(["img", "x.png.txt"])
  {
    assert "x.png.txt"[5] == '.';
    assert LastDot("x.png.txt") == Some(5);
    assert "x.png.txt"[6..] == "txt";
    assert Extension("x.png.txt") == Some("txt");
    assert AsciiLower("txt") == "txt";
    assert "txt" !in ImageExtensions by {
      assert forall x :: x in ImageExtensions ==> x[0] != 't' || |x| == 4;
    }
  }

  /** A hidden file named ".png", a name without a dot and the root have no extension. */
  lemma NoExtensionExamples()
    ensures !HasImageExtension(["home", ".png"])
    ensures !HasImageExtension(["home", "png"])
    ensures !HasImageExtension([])
  {
    assert Extension(".png") == None;
    assert Extension("png") == None;
  }

  // ---------------------------------------------------------------------------
  // The text viewport of the renderer

  /** Drops one trailing '\r'. */
  function StripCR(l: string): string
  {
    if |l| > 0 && l[|l| - 1] == '\r' then l[..|l| - 1] else l
  }

  /**
   * `str::lines`: split after each '\n'; a line that ended in '\n' loses it and
   * then one '\r' before it; a last piece without '\n' is kept as it is; the
   * empty text has no lines.
   */
  function Lines(s: string): seq<string>
    decreases |s|
  {
    if s == [] then []
    else match LineEnd(s)
      case None => [s]
      case Some(n) => [StripCR(s[..n])] + Lines(s[n + 1..])
  }

  /** Text made of the given lines, each followed by '\n'. */
  function Unlines(ls: seq<string>): string
  {
    if ls == [] then "" else ls[0] + "\n" + Unlines(ls[1..])
  }

  /** No line returned by `Lines` holds a newline. */
  lemma {:induction false} LinesHaveNoNewline(s: string)
    ensures forall i :: 0 <= i < |Lines(s)| ==> NoNewline(Lines(s)[i])
    decreases |s|
  {
    if s != [] {
      match LineEnd(s)
      case None =>
      case Some(n) =>
        LinesHaveNoNewline(s[n + 1..]);
        assert NoNewline(StripCR(s[..n]));
    }
  }

  /** Lines and Unlines are inverse: lines without newlines and without a trailing '\r' come back unchanged. */
  lemma {:induction false} LinesUnlines(ls: seq<string>)
    requires forall i :: 0 <= i < |ls| ==> NoNewline(ls[i]) && StripCR(ls[i]) == ls[i]
    ensures Lines(Unlines(ls)) == ls
    decreases |ls|
  {
    if ls != [] {
      var s := Unlines(ls);
      assert s == ls[0] + "\n" + Unlines(ls[1..]);
      LineEndAfter(ls[0], Unlines(ls[1..]));
      assert s[..|ls[0]|] == ls[0];
      assert s[|ls[0]| + 1..] == Unlines(ls[1..]);
      LinesUnlines(ls[1..]);
      assert ls == [ls[0]] + ls[1..];
    }
  }

  /** `skip(scroll).take(height)`: the lines that fit the pane. */
  function Viewport(lines: seq<string>, scroll: nat, height: nat): (r: seq<string>)
    ensures |r| == (if scroll >= |lines| then 0 else if |lines| - scroll < height then |lines| - scroll else height)
    ensures forall i :: 0 <= i < |r| ==> r[i] == lines[scroll + i]
  {
    if scroll >= |lines| then []
    else if |lines| - scroll < height then lines[scroll..]
    else lines[scroll..scroll + height]
  }

  /** `char::is_control`: the C0 and C1 control characters and DEL. */
  predicate IsControl(c: char)
  {
    c <= '\U{1F}' || ('\U{7F}' <= c <= '\U{9F}')
  }

  /** The renderer's filter: drop control characters except the tab. */
  function Sanitize(line: string): (r: string)
    ensures |r| <= |line|
    ensures forall i :: 0 <= i < |r| ==> !IsControl(r[i]) || r[i] == '\t'
  {
    if line == [] then []
    else
      var c := line[|line| - 1];
      Sanitize(line[..|line| - 1]) + (if !IsControl(c) || c == '\t' then [c] else [])
  }

  /** Sanitizing works character by character: it distributes over concatenation. */
  lemma {:induction false} SanitizeAppend(a: string, b: string)
    ensures Sanitize(a + b) == Sanitize(a) + Sanitize(b)
    decreases |b|
  {
    if b == [] {
      assert a + b == a;
    } else {
      var init := b[..|b| - 1];
      assert (a + b)[..|a + b| - 1] == a + init;
      SanitizeAppend(a, init);
    }
  }

  /** Sanitizing keeps exactly the characters that are not control characters, plus tabs. */
  lemma {:induction false} SanitizeKeeps(line: string)
    ensures forall c :: c in Sanitize(line) <==> c in line && (!IsControl(c) || c == '\t')
    decreases |line|
  {
    if line != [] {
      SanitizeKeeps(line[..|line| - 1]);
      assert line == line[..|line| - 1] + [line[|line| - 1]];
    }
  }

  /** A sanitized line has nothing left to remove. */
  lemma {:induction false} SanitizeIdempotent(line: string)
    ensures Sanitize(Sanitize(line)) == Sanitize(line)
  {
    SanitizeClean(Sanitize(line));
  }

  lemma {:induction false} SanitizeClean(line: string)
    requires forall i :: 0 <= i < |line| ==> !IsControl(line[i]) || line[i] == '\t'
    ensures Sanitize(line) == line
    decreases |line|
  {
    if line != [] {
      SanitizeClean(line[..|line| - 1]);
    }
  }

  /** What the text preview draws: the viewport's lines, each sanitized; never more lines than the pane is high. */
  function VisibleLines(content: string, scroll: nat, height: nat): (r: seq<string>)
    ensures |r| <= height
    ensures |r| == |Viewport(Lines(content), scroll, height)|
    ensures forall i :: 0 <= i < |r| ==> r[i] == Sanitize(Lines(content)[scroll + i])
  {
    var v := Viewport(Lines(content), scroll, height);
    seq(|v|, i requires 0 <= i < |v| => Sanitize(v[i]))
  }
}
