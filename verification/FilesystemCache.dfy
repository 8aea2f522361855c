/** The package layout of the file-system cache (internal/cache/filesystem_cache.go): `name/name-version.pkg`. */
module FilesystemCaches {
  import opened Disks
  import opened Text
  import opened Versions
  import opened Wrappers

  const SUFFIX := ".pkg"

  function FileName(name: string, version: string): string
  {
    name + "-" + version + SUFFIX
  }

  /** The file name of a version of a package, spelled out. */
  lemma FileNameExample()
    ensures FileName("a", "1.0") == "a-1.0.pkg"
  {
  }

  function PkgPath(name: string, version: string): Path
  {
    [name, FileName(name, version)]
  }

  /** A file that is listed as a version of `name`. */
  predicate IsVersionFile(name: string, file: string)
  {
    HasSuffix(file, SUFFIX) && HasPrefix(file, name + "-")
  }

  /** Prefix and suffix cannot overlap: the prefix ends in a dash and the suffix has none. */
  lemma NoOverlap(name: string, file: string)
    requires IsVersionFile(name, file)
    ensures |name| + 1 <= |file| - |SUFFIX|
  {
    assert file[|name|] == '-';
    var cut := |file| - |SUFFIX|;
    forall i | cut <= i < |file| ensures file[i] != '-' {
      assert file[i] == SUFFIX[i - cut];
    }
  }

  function VersionIn(name: string, file: string): (version: string)
    requires IsVersionFile(name, file)
    ensures FileName(name, version) == file
  {
    NoOverlap(name, file);
    file[|name| + 1..|file| - |SUFFIX|]
  }

  lemma VersionOfFileName(name: string, version: string)
    ensures IsVersionFile(name, FileName(name, version))
    ensures VersionIn(name, FileName(name, version)) == version
  {
  }

  lemma FileNameInjective(name: string, v: string, w: string)
    requires FileName(name, v) == FileName(name, w)
    ensures v == w
  {
    VersionOfFileName(name, v);
    VersionOfFileName(name, w);
  }

  predicate IsVersionPath(name: string, p: Path)
  {
    |p| == 2 && p[0] == name && IsVersionFile(name, p[1])
  }

  /** The versions of `name` that are on disk. */
  function Listed(d: Disk, name: string): set<string>
  {
    set p | p in d.files && IsVersionPath(name, p) :: VersionIn(name, p[1])
  }

  lemma ListedIff(d: Disk, name: string, v: string)
    ensures v in Listed(d, name) <==> PkgPath(name, v) in d.files
  {
    VersionOfFileName(name, v);
    if v in Listed(d, name) {
      var p :| p in d.files && IsVersionPath(name, p) && VersionIn(name, p[1]) == v;
      assert p == PkgPath(name, v);
    }
  }

  // ---------- what the operations do to the disk ----------

  datatype CacheError = MissingArgument | NegativeKeep | IO(error: IOError)

  /** `Has`: a package directory that is missing means no; a file in its place is an error. */
  function Looked(d: Disk, name: string, version: string, dirOk: bool, fileOk: bool): Result<bool, CacheError>
  {
    if !dirOk then Err(IO(Fault))
    else if !Exists(d, [name]) then Ok(false)
    else if !fileOk then Err(IO(Fault))
    else if [name] in d.files then Err(IO(NotDir))
    else Ok(Exists(d, PkgPath(name, version)))
  }

  /** Which system calls of an `Add` go through. */
  datatype AddFaults = AddFaults(mkdir: bool, stat: bool, rename: bool)

  /** `Add`: the disk afterwards, and whether it reports success. */
  function Added(d: Disk, name: string, version: string, src: Path, f: AddFaults): (Disk, bool)
  {
    if name == "" || version == "" then (d, false)
    else
      match MkdirAll(d, [name], f.mkdir)
      case Err(_) => (d, false)
      case Ok(made) => Moved(made, src, PkgPath(name, version), f.stat, f.rename)
  }

  /** A file that is elsewhere, and can be seen there, is moved to its place. */
  function Moved(d: Disk, src: Path, dst: Path, statOk: bool, renameOk: bool): (Disk, bool)
    requires dst != []
  {
    if src == dst || !statOk || !Exists(d, src) then (d, true)
    else
      match Rename(d, src, dst, renameOk)
      case Err(_) => (d, false)
      case Ok(moved) => (moved, true)
  }

  /** `Remove`: a missing file counts as removed. */
  function Removed(d: Disk, name: string, version: string, ok: bool): (Disk, bool)
  {
    match Disks.Remove(d, PkgPath(name, version), ok)
    case Ok(d') => (d', true)
    case Err(e) => (d, e == NotExist)
  }

  /** `PutRepoFile`: the disk afterwards, and whether it reports success. */
  function Stored(d: Disk, repo: string, arch: string, filename: string, src: Path, mkdirOk: bool, renameOk: bool)
    : (Disk, bool)
  {
    if repo == "" || filename == "" then (d, false)
    else
      match MkdirAll(d, [repo, "os", arch], mkdirOk)
      case Err(_) => (d, false)
      case Ok(made) =>
        if src == [repo, "os", arch, filename] then (made, true)
        else
          match Rename(made, src, [repo, "os", arch, filename], renameOk)
          case Err(_) => (made, false)
          case Ok(moved) => (moved, true)
  }

  /** The files that retention deletes: versions of `name` that are not kept and whose removal goes through. */
  ghost function Evicted(d: Disk, name: string, keep: nat, removeOk: string -> bool): set<Path>
  {
    set p | p in d.files && IsVersionPath(name, p) && Evictable(d, name, keep, removeOk, VersionIn(name, p[1]))
  }

  ghost predicate Evictable(d: Disk, name: string, keep: nat, removeOk: string -> bool, version: string)
  {
    version in Listed(d, name) - Kept(Listed(d, name), keep) && removeOk(version)
  }

  ghost function Without(d: Disk, paths: set<Path>): Disk
  {
    d.(files := d.files - paths)
  }

  ghost function Retained(d: Disk, name: string, keep: nat, removeOk: string -> bool): Disk
  {
    Without(d, Evicted(d, name, keep, removeOk))
  }

  /** What `GetLatest` finds among the versions on disk. */
  ghost predicate Latest(all: set<string>, latest: Option<string>)
  {
    match latest
    case None => all == {}
    case Some(v) => v in all && forall u :: u in all && u != v ==> Before(u, v)
  }

  // ---------- the class ----------

  class FilesystemCache {
    var disk: Disk

    method Has(name: string, version: string, dirOk: bool, fileOk: bool) returns (r: Result<bool, CacheError>)
      requires WellFormed(disk) && Component(name) && '/' !in version
      ensures r == Looked(disk, name, version, dirOk, fileOk)
      ensures !dirOk ==> r == Err(IO(Fault))
      ensures dirOk && !Exists(disk, [name]) ==> r == Ok(false)
      ensures dirOk && Exists(disk, [name]) && !fileOk ==> r == Err(IO(Fault))
    {
      var dir := Stat(disk, [name], dirOk);
      if dir.Err? {
        if dir.error == NotExist {
          return Ok(false);
        }
        return Err(IO(dir.error));
      }
      var file := Stat(disk, PkgPath(name, version), fileOk);
      assert PkgPath(name, version)[..1] == [name] && PkgPath(name, version)[..0] == [];
      if file.Err? {
        if file.error == NotExist {
          return Ok(false);
        }
        return Err(IO(file.error));
      }
      return Ok(true);
    }

    method Add(name: string, version: string, src: Path, f: AddFaults) returns (r: Result<(), CacheError>)
      requires name == "" || Component(name)
      requires '/' !in version && src !in disk.dirs
      modifies this
      ensures (disk, r.Ok?) == Added(old(disk), name, version, src, f)
      ensures r == Err(MissingArgument) <==> name == "" || version == ""
    {
      if name == "" || version == "" {
        return Err(MissingArgument);
      }
      var made := MkdirAll(disk, [name], f.mkdir);
      if made.Err? {
        return Err(IO(made.error));
      }
      disk := made.value;
      var expectedPath := PkgPath(name, version);
      if src != expectedPath {
        if Stat(disk, src, f.stat).Ok? {
          var moved := Rename(disk, src, expectedPath, f.rename);
          if moved.Err? {
            return Err(IO(moved.error));
          }
          disk := moved.value;
        }
      }
      return Ok(());
    }

    /** `os.ReadDir`: the names in a directory, each once. */
    method ReadDir(dir: Path, ok: bool) returns (r: Result<seq<string>, IOError>)
      ensures r.Ok? <==> ok && dir in disk.dirs
      ensures r.Ok? ==> Distinct(r.value) && Elements(r.value) == Children(disk, dir)
      ensures r.Err? ==>
        r.error == if !ok then Fault else if dir in disk.files || Blocked(disk, dir) then NotDir else NotExist
    {
      if !ok {
        return Err(Fault);
      }
      if dir !in disk.dirs {
        return Err(if dir in disk.files || Blocked(disk, dir) then NotDir else NotExist);
      }
      var entries: seq<string> := [];
      var rest := Children(disk, dir);
      while rest != {}
        invariant Distinct(entries)
        invariant rest !! Elements(entries) && rest + Elements(entries) == Children(disk, dir)
      {
        var e :| e in rest;
        ghost var before := entries;
        entries := entries + [e];
        rest := rest - {e};
        assert Elements(entries) == Elements(before) + {e};
      }
      return Ok(entries);
    }

    /** The versions on disk, newest first. The path of each is its `PkgPath`. A missing package directory holds
        none. */
    method ListVersions(name: string, readOk: bool) returns (r: Result<seq<string>, CacheError>)
      requires WellFormed(disk) && Component(name)
      ensures r.Ok? <==> readOk && [name] !in disk.files
      ensures r.Ok? ==> Descending(r.value) && Elements(r.value) == Listed(disk, name)
      ensures r.Err? ==> r.error == IO(if readOk then NotDir else Fault)
    {
      var read := ReadDir([name], readOk);
      if read.Err? {
        if read.error == NotExist {
          NoneListed(disk, name);
          return Ok([]);
        }
        return Err(IO(read.error));
      }
      var entries := read.value;
      var versions: seq<string> := [];
      var i := 0;
      while i < |entries|
        invariant 0 <= i <= |entries|
        invariant Distinct(versions)
        invariant Elements(versions) == ListedAmong(disk, name, entries[..i])
      {
        ListedAppends(disk, name, entries, i, versions);
        if [name, entries[i]] !in disk.dirs && HasSuffix(entries[i], SUFFIX) && HasPrefix(entries[i], name + "-") {
          NoOverlap(name, entries[i]);
          versions := versions + [entries[i][|name| + 1..|entries[i]| - |SUFFIX|]];
        }
        i := i + 1;
      }
      assert entries[..i] == entries;
      AllListed(disk, name, entries);
      SortDescends(versions);
      return Ok(SortDescending(versions));
    }

    method GetLatest(name: string, readOk: bool) returns (r: Result<Option<string>, CacheError>)
      requires WellFormed(disk) && Component(name)
      ensures r.Ok? <==> readOk && [name] !in disk.files
      ensures r.Ok? ==> Latest(Listed(disk, name), r.value)
    {
      var listed := ListVersions(name, readOk);
      if listed.Err? {
        return Err(listed.error);
      }
      var versions := listed.value;
      if |versions| == 0 {
        return Ok(None);
      }
      assert versions[0] in Elements(versions);
      return Ok(Some(versions[0]));
    }

    method Remove(name: string, version: string, ok: bool) returns (r: Result<(), CacheError>)
      requires Component(name) && '/' !in version
      modifies this
      ensures (disk, r.Ok?) == Removed(old(disk), name, version, ok)
    {
      var removed := Disks.Remove(disk, PkgPath(name, version), ok);
      if removed.Err? {
        if removed.error == NotExist {
          return Ok(());
        }
        return Err(IO(removed.error));
      }
      disk := removed.value;
      return Ok(());
    }

    /** Removals that fail are passed over. */
    method RetainMostRecent(name: string, keep: int, readOk: bool, removeOk: string -> bool)
      returns (r: Result<(), CacheError>)
      requires WellFormed(disk) && Component(name)
      modifies this
      ensures r.Ok? <==> keep >= 0 && readOk && [name] !in disk.files
      ensures disk == if r.Ok? then Retained(old(disk), name, keep, removeOk) else old(disk)
    {
      if keep < 0 {
        return Err(NegativeKeep);
      }
      var listed := ListVersions(name, readOk);
      if listed.Err? {
        return Err(listed.error);
      }
      var versions := listed.value;
      EvictedIsTail(disk, name, versions, keep, removeOk);
      if |versions| <= keep {
        return Ok(());
      }
      var i := keep;
      while i < |versions|
        invariant keep <= i <= |versions|
        invariant disk == Without(old(disk), Tail(name, versions, keep, i, removeOk))
      {
        TailGrows(old(disk), name, versions, keep, i, removeOk);
        ListedProper(old(disk), name, versions, i);
        var _ := Remove(name, versions[i], removeOk(versions[i]));
        i := i + 1;
      }
      return Ok(());
    }

    /** Puts a fetched file into the repository layout. */
    method PutRepoFile(repo: string, arch: string, filename: string, src: Path, mkdirOk: bool, renameOk: bool)
      returns (r: Result<Path, CacheError>)
      requires (repo == "" || Component(repo)) && Component(arch) && (filename == "" || Component(filename))
      requires src !in disk.dirs
      modifies this
      ensures (disk, r.Ok?) == Stored(old(disk), repo, arch, filename, src, mkdirOk, renameOk)
      ensures r.Ok? ==> r.value == [repo, "os", arch, filename]
      ensures r == Err(MissingArgument) <==> repo == "" || filename == ""
    {
      if repo == "" || filename == "" {
        return Err(MissingArgument);
      }
      var destDir := [repo, "os", arch];
      var made := MkdirAll(disk, destDir, mkdirOk);
      if made.Err? {
        return Err(IO(made.error));
      }
      disk := made.value;
      var dest := destDir + [filename];
      assert dest == [repo, "os", arch, filename];
      if src == dest {
        return Ok(dest);
      }
      var moved := Rename(disk, src, dest, renameOk);
      if moved.Err? {
        return Err(IO(moved.error));
      }
      disk := moved.value;
      return Ok(dest);
    }
  }

  // ---------- the listing loop ----------

  lemma NoneListed(d: Disk, name: string)
    requires WellFormed(d) && Component(name) && [name] !in d.dirs
    ensures Listed(d, name) == {}
  {
    forall v ensures v !in Listed(d, name) {
      ListedIff(d, name, v);
      assert PkgPath(name, v)[..1] == [name];
    }
  }

  ghost function ListedAmong(d: Disk, name: string, entries: seq<string>): set<string>
  {
    set e | e in entries && IsVersionFile(name, e) && [name, e] in d.files :: VersionIn(name, e)
  }

  lemma ListedGrows(d: Disk, name: string, entries: seq<string>, i: nat)
    requires WellFormed(d) && i < |entries| && Distinct(entries) && Elements(entries) == Children(d, [name])
    ensures var e, among := entries[i], ListedAmong(d, name, entries[..i]);
      if [name, e] !in d.dirs && IsVersionFile(name, e)
      then VersionIn(name, e) !in among && ListedAmong(d, name, entries[..i + 1]) == among + {VersionIn(name, e)}
      else ListedAmong(d, name, entries[..i + 1]) == among
  {
    var e := entries[i];
    assert e in Elements(entries);
    ChildIn(d, [name], e);
    assert [name] + [e] == [name, e];
    assert entries[..i + 1] == entries[..i] + [e];
  }

  lemma ListedAppends(d: Disk, name: string, entries: seq<string>, i: nat, versions: seq<string>)
    requires WellFormed(d) && i < |entries| && Distinct(entries) && Elements(entries) == Children(d, [name])
    requires Distinct(versions) && Elements(versions) == ListedAmong(d, name, entries[..i])
    ensures if [name, entries[i]] !in d.dirs && IsVersionFile(name, entries[i])
      then var longer := versions + [VersionIn(name, entries[i])];
        Distinct(longer) && Elements(longer) == ListedAmong(d, name, entries[..i + 1])
      else Elements(versions) == ListedAmong(d, name, entries[..i + 1])
  {
    ListedGrows(d, name, entries, i);
    if [name, entries[i]] !in d.dirs && IsVersionFile(name, entries[i]) {
      var v := VersionIn(name, entries[i]);
      assert v !in Elements(versions);
      assert Elements(versions + [v]) == Elements(versions) + {v};
    }
  }

  lemma AllListed(d: Disk, name: string, entries: seq<string>)
    requires Elements(entries) == Children(d, [name])
    ensures ListedAmong(d, name, entries) == Listed(d, name)
  {
    forall v ensures v in ListedAmong(d, name, entries) <==> v in Listed(d, name) {
      ListedIff(d, name, v);
      VersionOfFileName(name, v);
      var e := FileName(name, v);
      ChildIn(d, [name], e);
      assert [name] + [e] == PkgPath(name, v);
      assert e in Elements(entries) <==> e in entries;
    }
  }

  // ---------- the retention loop ----------

  /** The files of the versions `keep` to `end` of a list whose removal goes through. */
  ghost function Tail(name: string, versions: seq<string>, keep: nat, end: nat, removeOk: string -> bool): set<Path>
    requires end <= |versions|
  {
    set j | keep <= j < end && removeOk(versions[j]) :: PkgPath(name, versions[j])
  }

  lemma ListedProper(d: Disk, name: string, versions: seq<string>, i: nat)
    requires WellFormed(d) && Component(name) && Elements(versions) == Listed(d, name) && i < |versions|
    ensures '/' !in versions[i]
  {
    assert versions[i] in Elements(versions);
    ListedIff(d, name, versions[i]);
    var p := PkgPath(name, versions[i]);
    assert Exists(d, p) && Inside(p);
    assert Component(p[1]);
    assert FileName(name, versions[i])[|name| + 1..][..|versions[i]|] == versions[i];
  }

  /** One more removal takes one more file off the disk. */
  lemma TailGrows(d: Disk, name: string, versions: seq<string>, keep: nat, i: nat, removeOk: string -> bool)
    requires Descending(versions) && Elements(versions) == Listed(d, name) && keep <= i < |versions|
    ensures Removed(Without(d, Tail(name, versions, keep, i, removeOk)), name, versions[i], removeOk(versions[i])).0
         == Without(d, Tail(name, versions, keep, i + 1, removeOk))
  {
    var before, after := Tail(name, versions, keep, i, removeOk), Tail(name, versions, keep, i + 1, removeOk);
    var p := PkgPath(name, versions[i]);
    assert versions[i] in Elements(versions);
    ListedIff(d, name, versions[i]);
    forall j | keep <= j < i ensures PkgPath(name, versions[j]) != p {
      if PkgPath(name, versions[j]) == p {
        FileNameInjective(name, versions[i], versions[j]);
      }
      BeforeIrreflexive(versions[i]);
    }
    assert after == if removeOk(versions[i]) then before + {p} else before;
  }

  /** What retention deletes are the files of the newest-first list from `keep` on. */
  lemma EvictedIsTail(d: Disk, name: string, versions: seq<string>, keep: nat, removeOk: string -> bool)
    requires Descending(versions) && Elements(versions) == Listed(d, name)
    ensures Evicted(d, name, keep, removeOk) == Tail(name, versions, keep, |versions|, removeOk)
  {
    KeptIsPrefix(versions, keep);
    forall p | p in Evicted(d, name, keep, removeOk) ensures p in Tail(name, versions, keep, |versions|, removeOk) {
      var v := VersionIn(name, p[1]);
      assert p == PkgPath(name, v);
      var j :| 0 <= j < |versions| && versions[j] == v;
    }
    forall j | keep <= j < |versions| && removeOk(versions[j])
      ensures PkgPath(name, versions[j]) in Evicted(d, name, keep, removeOk)
    {
      var v := versions[j];
      assert v in Elements(versions);
      ListedIff(d, name, v);
      VersionOfFileName(name, v);
      NewerAt(versions, j);
    }
  }
}
