/**
 * Paths as the browser uses them: an absolute path is the sequence of its
 * components, the root being the empty sequence. Only the three `PathBuf`
 * operations the core calls are modelled: `parent`, `file_name` and `join`.
 */
module Paths {
  import opened Options

  type Path = seq<string>

  /** `Path::parent`: the root has none, every other path drops its last component. */
  function Parent(p: Path): (r: Option<Path>)
    ensures r.None? <==> p == []
    ensures r.Some? ==> |r.value| == |p| - 1 && r.value + [p[|p| - 1]] == p
  {
    if p == [] then None else Some(p[..|p| - 1])
  }

  /** `file_name().unwrap_or_default()`: the last component, or "" for the root. */
  function FileName(p: Path): string
  {
    if p == [] then "" else p[|p| - 1]
  }

  /** `Path::join` with one component; joining "" leaves the path as it is. */
  function Join(dir: Path, name: string): (r: Path)
    ensures name != "" ==> FileName(r) == name && Parent(r) == Some(dir)
    ensures name == "" ==> r == dir
  {
    if name == "" then dir else dir + [name]
  }
}
