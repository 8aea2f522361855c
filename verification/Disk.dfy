/** The part of a file system that the cache uses. Paths are relative to the storage directory: `[]` is the storage
    directory itself, and a path outside it begins with "..". Every operation takes a flag that says whether the
    operating system lets it succeed where it can. */
module Disks {
  import opened Wrappers

  newtype byte = x: int | 0 <= x < 256

  type Bytes = seq<byte>

  type Path = seq<string>

  datatype Disk = Disk(files: map<Path, Bytes>, dirs: set<Path>)

  datatype IOError = NotExist | NotDir | IsDir | NotEmpty | Fault

  predicate Inside(p: Path)
  {
    p == [] || p[0] != ".."
  }

  /** The place of a temporary file, outside the storage directory. */
  function TempPath(id: string): Path
  {
    ["..", id]
  }

  /** What can name an entry of a directory. */
  predicate Component(s: string)
  {
    s != "" && s != "." && s != ".." && '/' !in s
  }

  /** Files are no directories, and what is inside the storage directory lies in a directory and has a proper name. */
  ghost predicate WellFormed(d: Disk)
  {
    && [] in d.dirs
    && (forall p :: p in d.files ==> p !in d.dirs)
    && (forall p :: Exists(d, p) && p != [] && Inside(p) ==> p[..|p| - 1] in d.dirs)
    && (forall p :: Exists(d, p) && Inside(p) ==> Proper(p))
  }

  predicate Proper(p: Path)
  {
    forall i :: 0 <= i < |p| ==> Component(p[i])
  }

  predicate Exists(d: Disk, p: Path)
  {
    p in d.files || p in d.dirs
  }

  /** A file stands where the path needs a directory. */
  predicate Blocked(d: Disk, p: Path)
  {
    exists k | 0 <= k < |p| :: p[..k] in d.files
  }

  function Stat(d: Disk, p: Path, ok: bool): Result<(), IOError>
  {
    if !ok then Err(Fault) else if Exists(d, p) then Ok(()) else if Blocked(d, p) then Err(NotDir) else Err(NotExist)
  }

  function ChildrenIn(paths: set<Path>, dir: Path): set<string>
  {
    set p | p in paths && |p| == |dir| + 1 && p[..|dir|] == dir :: p[|dir|]
  }

  /** The names in a directory; the parent of the storage directory is none of them. */
  function Children(d: Disk, dir: Path): set<string>
  {
    ChildrenIn(d.files.Keys + d.dirs, dir) - {".."}
  }

  lemma ChildIn(d: Disk, dir: Path, name: string)
    ensures name in Children(d, dir) <==> name != ".." && Exists(d, dir + [name])
  {
    var p := dir + [name];
    assert p[..|dir|] == dir && p[|dir|] == name;
    if name in ChildrenIn(d.files.Keys + d.dirs, dir) {
      var q :| q in d.files.Keys + d.dirs && |q| == |dir| + 1 && q[..|dir|] == dir && q[|dir|] == name;
      assert q == p;
    }
  }

  /** `os.Remove`: a file, or an empty directory. */
  function Remove(d: Disk, p: Path, ok: bool): Result<Disk, IOError>
  {
    if !ok then Err(Fault)
    else if p in d.files then Ok(d.(files := d.files - {p}))
    else if p in d.dirs then if Children(d, p) == {} then Ok(d.(dirs := d.dirs - {p})) else Err(NotEmpty)
    else if Blocked(d, p) then Err(NotDir)
    else Err(NotExist)
  }

  /** `os.MkdirAll`. */
  function MkdirAll(d: Disk, p: Path, ok: bool): Result<Disk, IOError>
  {
    if !ok then Err(Fault)
    else if p in d.files || Blocked(d, p) then Err(NotDir)
    else Ok(d.(dirs := d.dirs + set k | 0 <= k <= |p| :: p[..k]))
  }

  /** `os.Rename` of a file. */
  function Rename(d: Disk, src: Path, dst: Path, ok: bool): Result<Disk, IOError>
    requires dst != []
  {
    if !ok then Err(Fault)
    else if src !in d.files then Err(NotExist)
    else if dst in d.dirs then Err(IsDir)
    else if dst[..|dst| - 1] !in d.dirs then Err(NotExist)
    else Ok(d.(files := (d.files - {src})[dst := d.files[src]]))
  }

  // ---------- what the operations keep ----------

  lemma MkdirAllKeeps(d: Disk, p: Path, ok: bool)
    requires WellFormed(d) && Proper(p) && MkdirAll(d, p, ok).Ok?
    ensures WellFormed(MkdirAll(d, p, ok).value)
  {
    var d' := MkdirAll(d, p, ok).value;
    forall k | 0 <= k <= |p| ensures p[..k] !in d.files {
      if k == |p| {
        assert p[..k] == p;
      }
    }
    forall k | 0 < k <= |p| ensures p[..k][..k - 1] in d'.dirs {
      assert p[..k][..k - 1] == p[..k - 1];
    }
  }
}
