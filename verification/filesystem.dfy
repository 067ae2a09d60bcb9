/**
 The filesystem as the client sees it: which paths are directories, which
 are regular files, and what listing each readable directory returns.
 Paths are absolute and already normalised, written as their components
 (`[]` is the root), so `os.path.join` appends a component and
 `os.path.dirname` drops the last one.
 */
module FileSystems {

  type Path = seq<string>

  /**
   `listings` holds the names `os.listdir` returns for a path; a path that is
   missing from it makes `os.listdir` raise `OSError`.
   */
  datatype FileSystem = FileSystem(dirs: set<Path>, files: set<Path>, listings: map<Path, seq<string>>)

  /** `os.path.exists`. */
  predicate Exists(fs: FileSystem, p: Path) {
    p in fs.dirs || p in fs.files
  }

  /** `os.path.join(p, name)` for a plain name. */
  function Join(p: Path, name: string): (r: Path)
    ensures |r| == |p| + 1 && r[..|p|] == p && r[|p|] == name
  {
    p + [name]
  }

  /** `os.path.dirname`: the root is its own parent. */
  function Parent(p: Path): (r: Path)
    ensures r == p <==> |p| == 0
    ensures |p| > 0 ==> Join(r, p[|p| - 1]) == p
  {
    if |p| == 0 then p else p[..|p| - 1]
  }
}
