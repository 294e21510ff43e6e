/**
 * The file system the orchestrator reads and writes, as a value: the
 * directories that exist, each with its creation time in .NET ticks, and the
 * files, each addressed by its directory and file name (Path.Combine).
 * Sub-directories are not modelled: the rules directory is flat.
 */
module FileSystem {
  import opened Strings

  /** `Path.Combine(dir, name)`. */
  datatype Path = Path(dir: string, name: string)

  datatype Disk = Disk(dirs: map<string, int>, files: map<Path, string>)

  /** Every file lies in a directory that exists. */
  ghost predicate Valid(d: Disk) {
    forall p :: p in d.files ==> p.dir in d.dirs
  }

  /** The `*.json` files directly inside `dir` (`Directory.EnumerateFiles(dir, "*.json")`). */
  function JsonNames(d: Disk, dir: string): set<string> {
    set p | p in d.files && p.dir == dir && EndsWith(p.name, ".json") :: p.name
  }

  /** A name is enumerated exactly when a file of that name lies directly in `dir` and ends in ".json". */
  lemma JsonNamesHas(d: Disk, dir: string, n: string)
    ensures n in JsonNames(d, dir) <==> Path(dir, n) in d.files && EndsWith(n, ".json")
  {
    if Path(dir, n) in d.files && EndsWith(n, ".json") {
      assert Path(dir, n).name == n;
    }
  }

  /** `Directory.Delete(dir, true)` when it succeeds: the directory and its files are gone. */
  function RemoveDirectory(d: Disk, dir: string): (r: Disk)
    ensures dir !in r.dirs && forall p :: p in r.files ==> p.dir != dir
    ensures forall x :: x != dir ==> (x in r.dirs <==> x in d.dirs) && (x in d.dirs ==> r.dirs[x] == d.dirs[x])
    ensures forall p: Path :: p.dir != dir ==> (p in r.files <==> p in d.files) && (p in d.files ==> r.files[p] == d.files[p])
  {
    Disk(d.dirs - {dir}, map p | p in d.files && p.dir != dir :: d.files[p])
  }

  /** `Directory.CreateDirectory(dir)` at time `now`: a no-op when the directory exists. */
  function CreateDirectory(d: Disk, dir: string, now: int): (r: Disk)
    ensures r.files == d.files
    ensures dir in r.dirs && r.dirs[dir] == (if dir in d.dirs then d.dirs[dir] else now)
    ensures forall x :: x != dir ==> (x in r.dirs <==> x in d.dirs) && (x in d.dirs ==> r.dirs[x] == d.dirs[x])
  {
    if dir in d.dirs then d else Disk(d.dirs[dir := now], d.files)
  }
}
