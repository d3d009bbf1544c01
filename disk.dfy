/** The file system as the pipeline sees it through Node's `fs` module:
    a map from file paths to contents and a set of directory paths. */
module Storage {
  import opened Paths

  /** What is left of a file map after `rm -r dir`. */
  function PruneFiles(files: map<Path, string>, dir: Path): (m: map<Path, string>)
    ensures forall p :: p in m <==> p in files && !Within(p, dir)
    ensures forall p :: p in m ==> m[p] == files[p]
  {
    map p | p in files && !Within(p, dir) :: files[p]
  }

  /** What is left of a directory set after `rm -r dir`. */
  function PruneDirs(dirs: set<Path>, dir: Path): (s: set<Path>)
    ensures forall p :: p in s <==> p in dirs && !Within(p, dir)
  {
    set p | p in dirs && !Within(p, dir)
  }

  class Disk {
    var files: map<Path, string>
    var dirs: set<Path>

    constructor (files0: map<Path, string>, dirs0: set<Path>)
      ensures files == files0 && dirs == dirs0
    {
      files, dirs := files0, dirs0;
    }

    /** `fs.existsSync(p)`: true for a file or a directory. */
    function Exists(p: Path): bool
      reads this
    {
      p in files || p in dirs
    }

    /** `fs.mkdirSync(p, { recursive: true })`. */
    method MakeDirectory(p: Path)
      modifies this
      ensures dirs == old(dirs) + {p} && files == old(files)
    {
      dirs := dirs + {p};
    }

    /** `fs.writeFileSync(p, content)`: creates or replaces the file. */
    method WriteFile(p: Path, content: string)
      modifies this
      ensures files == old(files)[p := content] && dirs == old(dirs)
    {
      files := files[p := content];
    }

    /** `fs.unlinkSync(p)` on an existing file. */
    method Unlink(p: Path)
      requires p in files
      modifies this
      ensures files == old(files) - {p} && dirs == old(dirs)
      ensures !Exists(p) || p in dirs
    {
      files := files - {p};
    }

    /** `fs.rmSync(p, { recursive: true, force: true })`: `p` and everything
        below it disappear; a missing `p` is no error. */
    method RemoveTree(p: Path)
      modifies this
      ensures files == PruneFiles(old(files), p) && dirs == PruneDirs(old(dirs), p)
      ensures !Exists(p)
    {
      files := PruneFiles(files, p);
      dirs := PruneDirs(dirs, p);
    }
  }
}
