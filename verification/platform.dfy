/**
 * The host the video pipeline runs on, as far as the pipeline can observe
 * it: a file system seen as a map from paths to entries, the two pathlib
 * operations it calls (`mkdir(parents=True, exist_ok=True)` and
 * `write_text`), and child processes started through an abstract runner.
 */
module Platform {
  import opened Strings
  import opened Wrappers

  /**
   * A relative path as its list of components; `[]` is "." (the working
   * directory), which always exists and is a directory.
   */
  type Path = seq<string>

  /** `dir / name` */
  function Child(dir: Path, name: string): (p: Path)
    ensures |p| == |dir| + 1 && Parent(p) == dir && Name(p) == name
  {
    dir + [name]
  }

  /** `Path.name`: the last component, "" for ".". */
  function Name(p: Path): string {
    if p == [] then "" else p[|p| - 1]
  }

  /** `Path.parent` of a path other than ".". */
  function Parent(p: Path): (q: Path)
    requires p != []
    ensures |q| == |p| - 1 && q <= p
  {
    p[..|p| - 1]
  }

  /** `str(path)`: the components joined with "/", or "." for the working directory. */
  function PathText(p: Path): string {
    if p == [] then "." else Join(p, "/")
  }

  datatype Entry = File(contents: string) | Directory

  /** Every path that is present, with what it holds. */
  type Files = map<Path, Entry>

  /** `Path.exists()`: true for files and directories alike. */
  predicate Exists(fs: Files, p: Path) {
    p == [] || p in fs
  }

  predicate IsDir(fs: Files, p: Path) {
    p == [] || (p in fs && fs[p].Directory?)
  }

  /** What `fs` holds at `p`, if anything. */
  function Lookup(fs: Files, p: Path): Option<Entry> {
    if p in fs then Some(fs[p]) else None
  }

  /**
   * The exceptions the pipeline can raise. `FileNotFound` and
   * `ProgramNotFound` are both Python's `FileNotFoundError` (a missing file
   * or a missing executable); `CalledProcessError` is what `check=True`
   * raises for a non-zero exit status.
   */
  datatype Error =
    | FileNotFound(path: Path)
    | FileExists(path: Path)
    | NotADirectory(path: Path)
    | IsADirectory(path: Path)
    | ProgramNotFound(program: string)
    | CalledProcessError(returncode: int, cmd: seq<string>)

  datatype Result<T> = Ok(value: T) | Err(error: Error)

  /**
   * How resolving `dir` component by component from "." ends, as the
   * kernel does it: every component is a directory, or the first one that
   * is not is missing, or is a file.
   */
  datatype Walk = Reached | Missing | Blocked

  function Resolve(fs: Files, dir: Path): Walk
    decreases |dir|
  {
    if dir == [] then Reached
    else match Resolve(fs, Parent(dir))
      case Reached => if dir !in fs then Missing else if fs[dir].File? then Blocked else Reached
      case w => w
  }

  /** `dir` resolves if and only if every non-empty prefix of it is a directory entry. */
  lemma {:induction false} ResolveReached(fs: Files, dir: Path)
    ensures Resolve(fs, dir) == Reached <==>
      forall k :: 0 < k <= |dir| ==> dir[..k] in fs && fs[dir[..k]].Directory?
    decreases |dir|
  {
    if dir != [] {
      var q := Parent(dir);
      ResolveReached(fs, q);
      assert dir[..|dir|] == dir;
      assert forall k :: 0 < k <= |q| ==> q[..k] == dir[..k];
    }
  }

  /** Changing an entry that is not on the way to `dir` does not change how `dir` resolves. */
  lemma {:induction false} ResolveUpdate(fs: Files, dir: Path, q: Path, e: Entry)
    requires !(q <= dir)
    ensures Resolve(fs[q := e], dir) == Resolve(fs, dir)
    decreases |dir|
  {
    if dir != [] {
      ResolveUpdate(fs, Parent(dir), q, e);
    }
  }

  /**
   * `os.mkdir(p)` on POSIX: ENOENT when the way to `p` is missing a
   * directory, ENOTDIR when it runs into a file, EEXIST when `p` is there.
   */
  function OsMkdir(fs: Files, p: Path): Result<Files>
    requires p != []
  {
    match Resolve(fs, Parent(p))
    case Missing => Err(FileNotFound(p))
    case Blocked => Err(NotADirectory(p))
    case Reached => if p in fs then Err(FileExists(p)) else Ok(fs[p := Directory])
  }

  /**
   * `Path.mkdir(parents=parents, exist_ok=True)`: `os.mkdir`; on
   * FileNotFoundError with `parents`, create the parent the same way and
   * try once more without `parents`; on any other error, succeed if `p` is
   * a directory after all.
   */
  function Mkdir(fs: Files, p: Path, parents: bool): Result<Files>
    decreases |p|, if parents then 1 else 0
  {
    if p == [] then Ok(fs)
    else match OsMkdir(fs, p)
      case Ok(made) => Ok(made)
      case Err(e) =>
        if e.FileNotFound? then
          if !parents then Err(e)
          else match Mkdir(fs, Parent(p), true)
            case Err(e') => Err(e')
            case Ok(made) => Mkdir(made, p, false)
        else if Resolve(fs, p) == Reached then Ok(fs)
        else Err(e)
  }

  /** `Path.mkdir(parents=True, exist_ok=True)` */
  function CreateDirs(fs: Files, p: Path): Result<Files> {
    Mkdir(fs, p, true)
  }

  lemma {:induction false} MkdirOk(fs: Files, p: Path, parents: bool, made: Files)
    requires Mkdir(fs, p, parents) == Ok(made)
    ensures Resolve(made, p) == Reached
    ensures forall q :: q in fs ==> q in made && made[q] == fs[q]
    ensures forall q :: q in made && q !in fs ==> q <= p && made[q] == Directory
    decreases |p|, if parents then 1 else 0
  {
    if p != [] {
      match OsMkdir(fs, p)
      case Ok(_) =>
        ResolveUpdate(fs, Parent(p), p, Directory);
      case Err(e) =>
        if e.FileNotFound? {
          var mid :| Mkdir(fs, Parent(p), true) == Ok(mid);
          MkdirOk(fs, Parent(p), true, mid);
          MkdirOk(mid, p, false, made);
        }
    }
  }

  /** With exist_ok, a path that already resolves to a directory is left as it is. */
  lemma CreateDirsExisting(fs: Files, p: Path)
    requires Resolve(fs, p) == Reached
    ensures CreateDirs(fs, p) == Ok(fs)
  {
  }

  /**
   * A successful `CreateDirs` leaves every component of `p` a directory,
   * keeps every entry that was there, and adds only directories on the way
   * to `p`; calling it again changes nothing.
   */
  lemma CreateDirsOk(fs: Files, p: Path, made: Files)
    requires CreateDirs(fs, p) == Ok(made)
    ensures Resolve(made, p) == Reached && IsDir(made, p)
    ensures forall q :: q in fs ==> q in made && made[q] == fs[q]
    ensures forall q :: q in made && q !in fs ==> q <= p && made[q] == Directory
    ensures CreateDirs(made, p) == Ok(made)
  {
    MkdirOk(fs, p, true, made);
    CreateDirsExisting(made, p);
  }

  /** `CreateDirs` succeeds if and only if no prefix of `p` is a file. */
  lemma CreateDirsSucceeds(fs: Files, p: Path)
    ensures CreateDirs(fs, p).Ok? <==>
      forall k :: 0 < k <= |p| && p[..k] in fs ==> fs[p[..k]].Directory?
  {
    if CreateDirs(fs, p).Ok? {
      var made := CreateDirs(fs, p).value;
      CreateDirsOk(fs, p, made);
      ResolveReached(made, p);
    }
    if forall k :: 0 < k <= |p| && p[..k] in fs ==> fs[p[..k]].Directory? {
      NoFileCreateDirs(fs, p);
    }
  }

  /** A walk that ends in `Blocked` ran into a file. */
  lemma {:induction false} ResolveBlocked(fs: Files, dir: Path)
    requires Resolve(fs, dir) == Blocked
    ensures exists k :: 0 < k <= |dir| && dir[..k] in fs && fs[dir[..k]].File?
    decreases |dir|
  {
    var q := Parent(dir);
    if Resolve(fs, q) == Blocked {
      ResolveBlocked(fs, q);
      var k :| 0 < k <= |q| && q[..k] in fs && fs[q[..k]].File?;
      assert q[..k] == dir[..k];
    } else {
      assert dir[..|dir|] == dir;
    }
  }

  /** Once a walk stops, it stops at the same place for every longer path. */
  lemma {:induction false} ResolveStops(fs: Files, dir: Path, longer: Path)
    requires dir <= longer && Resolve(fs, dir) != Reached
    ensures Resolve(fs, longer) == Resolve(fs, dir)
    decreases |longer|
  {
    if longer != dir {
      assert dir <= Parent(longer);
      ResolveStops(fs, dir, Parent(longer));
    }
  }

  lemma {:induction false} NoFileCreateDirs(fs: Files, p: Path)
    requires forall k :: 0 < k <= |p| && p[..k] in fs ==> fs[p[..k]].Directory?
    ensures CreateDirs(fs, p).Ok?
    decreases |p|
  {
    if p != [] {
      var q := Parent(p);
      assert p[..|p|] == p;
      assert forall k :: 0 < k <= |q| ==> q[..k] == p[..k];
      if Resolve(fs, q) == Blocked {
        ResolveBlocked(fs, q);
        assert false;
      } else if Resolve(fs, q) == Missing {
        NoFileCreateDirs(fs, q);
        var mid := CreateDirs(fs, q).value;
        MkdirOk(fs, q, true, mid);
        assert Resolve(mid, q) == Reached;
        assert Mkdir(fs, p, true) == Mkdir(mid, p, false);
        if p in mid {
          assert p in fs && mid[p] == fs[p];
          assert Resolve(mid, p) == Reached;
        } else {
          assert OsMkdir(mid, p).Ok?;
        }
      }
    }
  }

  /** Every entry can be reached from ".", as in a real file system. */
  predicate Reachable(fs: Files) {
    forall q :: q in fs && q != [] ==> Resolve(fs, Parent(q)) == Reached
  }

  lemma {:induction false} MkdirErr(fs: Files, p: Path, parents: bool, e: Error)
    requires Mkdir(fs, p, parents) == Err(e)
    ensures e.FileExists? || e.NotADirectory? || e.FileNotFound?
    ensures e.path != [] && e.path <= p
    ensures e.FileExists? ==> e.path in fs && fs[e.path].File?
    ensures e.NotADirectory? ==> e.path == p && Resolve(fs, Parent(p)) == Blocked
    ensures e.FileNotFound? ==> !parents && e.path == p && Resolve(fs, Parent(p)) == Missing
    decreases |p|, if parents then 1 else 0
  {
    var e0 := OsMkdir(fs, p).error;
    if e0.FileNotFound? && parents {
      match Mkdir(fs, Parent(p), true)
      case Err(e') =>
        MkdirErr(fs, Parent(p), true, e');
      case Ok(made) =>
        MkdirOk(fs, Parent(p), true, made);
        MkdirErr(made, p, false, e);
    }
  }

  /**
   * A failing `CreateDirs` raises FileExistsError for a path on the way
   * that is a file, or NotADirectoryError for `p` when resolving its
   * parent runs into a file. On a reachable file system the error always
   * names `p` itself.
   */
  lemma CreateDirsErr(fs: Files, p: Path, e: Error)
    requires CreateDirs(fs, p) == Err(e)
    ensures e.FileExists? || e.NotADirectory?
    ensures e.path != [] && e.path <= p
    ensures e.FileExists? ==> e.path in fs && fs[e.path].File?
    ensures e.NotADirectory? ==> e.path == p && Resolve(fs, Parent(p)) == Blocked
    ensures Reachable(fs) ==> e.path == p
  {
    MkdirErr(fs, p, true, e);
    if Reachable(fs) && e.FileExists? && e.path != p {
      var q := e.path;
      assert Resolve(fs, q) == Blocked;
      assert q <= Parent(p);
      ResolveStops(fs, q, Parent(p));
      assert false;
    }
  }
  /**
   * `Path.write_text`, which opens `p` for writing: resolving the parent
   * fails with ENOENT or ENOTDIR as for `os.mkdir`; a directory at `p`
   * gives EISDIR; otherwise `p` is created or replaced by the text.
   */
  function WriteFile(fs: Files, p: Path, contents: string): (r: Result<Files>)
    ensures r.Ok? <==> p != [] && Resolve(fs, Parent(p)) == Reached && !IsDir(fs, p)
    ensures r.Ok? ==> r.value == fs[p := File(contents)]
    ensures p != [] && Resolve(fs, Parent(p)) == Missing ==> r == Err(FileNotFound(p))
    ensures p != [] && Resolve(fs, Parent(p)) == Blocked ==> r == Err(NotADirectory(p))
    ensures IsDir(fs, p) ==> r.Err?
  {
    if p == [] then Err(IsADirectory(p))
    else match Resolve(fs, Parent(p))
      case Missing => Err(FileNotFound(p))
      case Blocked => Err(NotADirectory(p))
      case Reached =>
        if p in fs && fs[p].Directory? then Err(IsADirectory(p)) else Ok(fs[p := File(contents)])
  }

  /**
   * What the runner reports for one child process: the executable could not
   * be found, or it exited with `returncode`, having written `output` to
   * its declared output path if that code is 0.
   */
  datatype RunOutcome = NotInstalled | Exited(returncode: int, output: string) {
    /** Exit status 0, the only one `check=True` accepts. */
    predicate Succeeded() {
      Exited? && returncode == 0
    }
  }

  /** The files after a process with declared output path `target` ends with `outcome`. */
  function AfterRun(fs: Files, target: Path, outcome: RunOutcome): Files {
    if outcome.Succeeded() then fs[target := File(outcome.output)] else fs
  }

  /** The effects the pipeline attempts on the host, in order. */
  datatype Effect = MadeDirs(path: Path) | Invoked(argv: seq<string>) | Wrote(path: Path)

  /** The host's file system and the log of attempted effects. */
  class Host {
    var files: Files
    var log: seq<Effect>

    constructor (initial: Files)
      ensures files == initial && log == []
    {
      files := initial;
      log := [];
    }

    /** `p.mkdir(parents=True, exist_ok=True)` */
    method Mkdir(p: Path) returns (err: Option<Error>)
      modifies this
      ensures log == old(log) + [MadeDirs(p)]
      ensures match CreateDirs(old(files), p)
        case Ok(made) => err == None && files == made
        case Err(e) => err == Some(e) && files == old(files)
    {
      log := log + [MadeDirs(p)];
      match CreateDirs(files, p)
      case Ok(made) =>
        files := made;
        err := None;
      case Err(e) =>
        err := Some(e);
    }

    /** `p.write_text(contents)` */
    method WriteText(p: Path, contents: string) returns (err: Option<Error>)
      modifies this
      ensures log == old(log) + [Wrote(p)]
      ensures match WriteFile(old(files), p, contents)
        case Ok(written) => err == None && files == written
        case Err(e) => err == Some(e) && files == old(files)
    {
      log := log + [Wrote(p)];
      match WriteFile(files, p, contents)
      case Ok(written) =>
        files := written;
        err := None;
      case Err(e) =>
        err := Some(e);
    }

    /** `subprocess.run(argv)`, whose output, if any, goes to `target`. */
    method Run(argv: seq<string>, target: Path, runner: seq<string> -> RunOutcome)
      returns (outcome: RunOutcome)
      modifies this
      ensures outcome == runner(argv)
      ensures log == old(log) + [Invoked(argv)]
      ensures files == AfterRun(old(files), target, outcome)
    {
      log := log + [Invoked(argv)];
      outcome := runner(argv);
      if outcome.Succeeded() {
        files := files[target := File(outcome.output)];
      }
    }
  }
}
