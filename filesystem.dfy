/** The file tree both servers publish into, reduced to what they do with it:
    regular files by full path with their bytes, and the set of directory paths
    that exist. `os.path.join`, `os.makedirs`, `open`, `os.unlink` and
    `os.rename` become updates of these two collections. */
module FileSystem {
  import opened Text

  newtype byte = x: int | 0 <= x < 256

  /** `os.path.join(a, b)` of posixpath: an absolute `b` replaces `a`; otherwise
      `b` is appended, with a `/` in between unless `a` is empty or ends in one. */
  function PathJoin(a: string, b: string): (r: string)
    ensures b != [] && b[0] == '/' ==> r == b
    ensures (b == [] || b[0] != '/') ==> a <= r && EndsWith(r, b)
  {
    if b != [] && b[0] == '/' then b
    else if a == [] || a[|a| - 1] == '/' then a + b
    else a + "/" + b
  }

  /** Joining a relative name onto a directory path that does not end in `/`
      puts exactly one `/` between them. */
  lemma PathJoinNames(a: string, b: string)
    requires a != [] && a[|a| - 1] != '/'
    requires b == [] || b[0] != '/'
    ensures PathJoin(a, b) == a + "/" + b
  {
  }

  /** The directories `os.makedirs(path)` leaves behind: `path` itself and every
      proper prefix of it that ends just before a `/`. */
  function Ancestry(path: string): (dirs: set<string>)
    ensures path != [] ==> path in dirs
    ensures forall d :: d in dirs ==> d != [] && d <= path
  {
    var dirs := set i | 0 < i <= |path| && (i == |path| || path[i] == '/') :: path[..i];
    assert path[..|path|] == path;
    dirs
  }

  class FileTree {
    var files: map<string, seq<byte>>
    var dirs: set<string>

    constructor (files: map<string, seq<byte>>, dirs: set<string>)
      ensures this.files == files && this.dirs == dirs
    {
      this.files := files;
      this.dirs := dirs;
    }

    /** `os.path.exists(path)`: a file or a directory is there. */
    predicate Exists(path: string)
      reads this
    {
      path in files || path in dirs
    }

    /** `os.makedirs(path)`: creating a directory that is already there is no error
        in the model (the callers either test first or pass `exist_ok=True`). */
    method MakeDirs(path: string)
      modifies this
      ensures files == old(files)
      ensures dirs == old(dirs) + Ancestry(path)
    {
      dirs := dirs + Ancestry(path);
    }

    /** `open(path, 'w')`: creates the file, or truncates the one that is there. */
    method Create(path: string)
      modifies this
      ensures files == old(files)[path := []]
      ensures dirs == old(dirs)
    {
      files := files[path := []];
    }

    /** `f.write(data)` on a file opened for writing: appends at the end. */
    method Append(path: string, data: seq<byte>)
      requires path in files
      modifies this
      ensures files == old(files)[path := old(files)[path] + data]
      ensures dirs == old(dirs)
    {
      files := files[path := files[path] + data];
    }

    /** `os.unlink(path)`. */
    method Unlink(path: string)
      requires path in files
      modifies this
      ensures files == old(files) - {path}
      ensures dirs == old(dirs)
    {
      files := files - {path};
    }

    /** `os.rename(source, target)`: the bytes move to `target`, replacing what was
        there, and `source` is gone. */
    method Rename(source: string, target: string)
      requires source in files
      modifies this
      ensures files == (old(files) - {source})[target := old(files)[source]]
      ensures dirs == old(dirs)
    {
      files := (files - {source})[target := files[source]];
    }
  }
}
