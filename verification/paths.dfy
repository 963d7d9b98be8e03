/**
 The few path and formatting services data.py relies on: `path.join_path`,
 the `is_file` / `is_dir` tests against a filesystem, and `'{}'.format` of a
 value that may be None.
 */
module Paths {
  import opened Wrappers

  /** `path.join_path(a, b)`, modelled as joining with one forward slash. */
  function JoinPath(a: string, b: string): (r: string)
    ensures |r| == |a| + 1 + |b|
    ensures r[..|a|] == a && r[|a|] == '/' && r[|a| + 1..] == b
  {
    a + "/" + b
  }

  /** The filesystem, as the paths that name files and the paths that name directories. */
  datatype FileSystem = FileSystem(files: set<string>, dirs: set<string>)

  predicate IsFile(fs: FileSystem, p: string) {
    p in fs.files
  }

  predicate IsDir(fs: FileSystem, p: string) {
    p in fs.dirs
  }

  /** Python truthiness of a string that may be None. */
  predicate Truthy(s: Option<string>) {
    s.Some? && s.value != ""
  }

  /** `'{}'.format(s)` for a string that may be None. */
  function Format(s: Option<string>): string {
    match s
    case Some(v) => v
    case None => "None"
  }
}
