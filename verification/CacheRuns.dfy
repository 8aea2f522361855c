/** What retention leaves, and what runs of cache operations keep (internal/cache). */
module CacheRuns {
  import opened Disks
  import opened FilesystemCaches
  import opened RetentionManagers
  import opened Text
  import opened Versions
  import opened Wrappers

  // ---------- exact retention ----------

  /** An enforcement does to each package it reaches what a retention of that package does, and to others nothing. */
  lemma EnforcementIsRetention(d: Disk, keep: nat, f: EnforceFaults, names: set<string>, name: string)
    requires WellFormed(d)
    ensures Listed(Enforced(d, keep, f, names), name)
         == if name in names && Reached(f, name) then Listed(Retained(d, name, keep, f.remove(name)), name)
            else Listed(d, name)
  {
  }

  /** The removals that a retention of the package asks for go through. */
  ghost predicate RemovalsWork(d: Disk, name: string, keep: nat, removeOk: string -> bool)
  {
    forall v :: v in Listed(d, name) - Kept(Listed(d, name), keep) ==> removeOk(v)
  }

  /** The enforcement can read the package's directory, and the removals that it asks for go through. */
  ghost predicate Works(d: Disk, name: string, keep: nat, f: EnforceFaults)
  {
    f.count(name) && f.list(name) && RemovalsWork(d, name, keep, f.remove(name))
  }

  lemma KeptLeft(d: Disk, name: string, keep: nat, removeOk: string -> bool)
    ensures Listed(Retained(d, name, keep, removeOk), name) == Kept(Listed(d, name), keep)
      <==> RemovalsWork(d, name, keep, removeOk)
  {
  }

  lemma NameIffDir(d: Disk, name: string)
    requires Component(name)
    ensures name in PackageNames(d) <==> [name] in d.dirs
  {
  }

  /** An enforcement leaves a package with exactly the kept versions, whatever fails for other packages. */
  lemma KeptAfterEnforcement(d: Disk, keep: nat, f: EnforceFaults, name: string)
    requires WellFormed(d) && Component(name) && Works(d, name, keep, f)
    ensures Listed(Enforced(d, keep, f, PackageNames(d)), name) == Kept(Listed(d, name), keep)
  {
    EnforcementIsRetention(d, keep, f, PackageNames(d), name);
    NameIffDir(d, name);
    if [name] in d.dirs {
      KeptLeft(d, name, keep, f.remove(name));
    } else {
      NoneListed(d, name);
    }
  }

  /** The `keep` greatest versions of the package stay, or all of them if there are fewer; each is above each version
      removed; and the newest version is the same as before. */
  lemma ExactRetention(d: Disk, keep: nat, f: EnforceFaults, name: string)
    requires WellFormed(d) && Component(name) && Works(d, name, keep, f) && keep >= 1
    ensures var before, left := Listed(d, name), Listed(Enforced(d, keep, f, PackageNames(d)), name);
      && left <= before
      && |left| == (if keep < |before| then keep else |before|)
      && (forall k, r :: k in left && r in before - left ==> Before(r, k))
      && forall latest :: Latest(before, latest) <==> Latest(left, latest)
  {
    KeptAfterEnforcement(d, keep, f, name);
    KeptProperties(Listed(d, name), keep);
    LatestKept(Listed(d, name), keep);
  }

  lemma LatestKept(all: set<string>, keep: nat)
    requires keep >= 1
    ensures forall latest :: Latest(all, latest) <==> Latest(Kept(all, keep), latest)
  {
    KeptProperties(all, keep);
    var kept := Kept(all, keep);
    assert kept <= all;
    forall latest: Option<string> ensures Latest(all, latest) <==> Latest(kept, latest) {
      match latest
      case None => assert all != {} ==> |all| > 0;
      case Some(v) =>
        if Latest(all, latest) {
          NewestKept(all, keep, v);
        }
    }
  }

  /** Of a package that an enforcement has been through, nothing more is deleted. */
  lemma NothingMore(d: Disk, keep: nat, f: EnforceFaults, name: string, removeOk: string -> bool)
    requires WellFormed(d) && Component(name) && Works(d, name, keep, f)
    ensures Evicted(Enforced(d, keep, f, PackageNames(d)), name, keep, removeOk) == {}
  {
    KeptAfterEnforcement(d, keep, f, name);
    KeptProperties(Listed(d, name), keep);
  }

  lemma NameIsComponent(d: Disk, name: string)
    requires WellFormed(d) && name in PackageNames(d)
    ensures Component(name)
  {
    assert name != ".." by {
      ChildIn(d, [], name);
    }
    assert Exists(d, [name]) && Inside([name]);
    assert Component([name][0]);
  }

  /** An enforcement that worked for every package leaves nothing for a second one to delete. */
  lemma EnforcementIsIdempotent(d: Disk, keep: nat, f: EnforceFaults, again: EnforceFaults)
    requires WellFormed(d) && forall name :: name in PackageNames(d) ==> Works(d, name, keep, f)
    ensures var d' := Enforced(d, keep, f, PackageNames(d)); Enforced(d', keep, again, PackageNames(d')) == d'
  {
    var d' := Enforced(d, keep, f, PackageNames(d));
    EnforcedWellFormed(d, keep, f, PackageNames(d));
    forall name | name in PackageNames(d') ensures Evicted(d', name, keep, again.remove(name)) == {} {
      NameIsComponent(d', name);
      NameIffDir(d, name);
      NameIffDir(d', name);
      NothingMore(d, keep, f, name, again.remove(name));
    }
    assert Expired(d', keep, again, PackageNames(d')) == {};
  }

  // ---------- runs of operations ----------

  /** The operations of the cache and of its retention manager, with the system calls that go through, and the
      arrival of a fetched file outside the storage directory. */
  datatype Op =
    | Arrival(id: string, content: Bytes)
    | AddVersion(name: string, version: string, src: Path, addFaults: AddFaults)
    | RemoveVersion(name: string, version: string, ok: bool)
    | RetainNewest(name: string, keep: nat, listOk: bool, removeOk: string -> bool)
    | EnforceAll(keep: nat, faults: EnforceFaults)
    | StoreFile(repo: string, arch: string, filename: string, src: Path, mkdirOk: bool, renameOk: bool)

  /** What the operations ask of their arguments; see the class methods. */
  predicate Legal(d: Disk, op: Op)
  {
    match op
    case Arrival(id, _) => TempPath(id) !in d.dirs
    case AddVersion(name, version, src, _) => (name == "" || Component(name)) && '/' !in version && src !in d.dirs
    case RemoveVersion(name, version, _) => Component(name) && '/' !in version
    case RetainNewest(name, _, _, _) => Component(name)
    case EnforceAll(keep, _) => keep >= 1
    case StoreFile(repo, arch, filename, src, _, _) =>
      (repo == "" || Component(repo)) && Component(arch) && (filename == "" || Component(filename)) && src !in d.dirs
  }

  ghost function Apply(d: Disk, op: Op): Disk
  {
    if !Legal(d, op) then d
    else
      match op
      case Arrival(id, content) => d.(files := d.files[TempPath(id) := content])
      case AddVersion(name, version, src, f) => Added(d, name, version, src, f).0
      case RemoveVersion(name, version, ok) => Removed(d, name, version, ok).0
      case RetainNewest(name, keep, listOk, removeOk) =>
        if listOk && [name] !in d.files then Retained(d, name, keep, removeOk) else d
      case EnforceAll(keep, f) => if f.readRoot then Enforced(d, keep, f, PackageNames(d)) else d
      case StoreFile(repo, arch, filename, src, mkdirOk, renameOk) =>
        Stored(d, repo, arch, filename, src, mkdirOk, renameOk).0
  }

  /** One operation of a run is a call of the class it belongs to. */
  method Perform(cache: FilesystemCache, op: Op)
    requires WellFormed(cache.disk) && Legal(cache.disk, op)
    modifies cache
    ensures cache.disk == Apply(old(cache.disk), op)
  {
    match op
    case Arrival(id, content) =>
      cache.disk := cache.disk.(files := cache.disk.files[TempPath(id) := content]);
    case AddVersion(name, version, src, addFaults) =>
      var _ := cache.Add(name, version, src, addFaults);
    case RemoveVersion(name, version, ok) =>
      var _ := cache.Remove(name, version, ok);
    case RetainNewest(name, keep, listOk, removeOk) =>
      var _ := cache.RetainMostRecent(name, keep, listOk, removeOk);
    case EnforceAll(keep, faults) =>
      var manager := new RetentionManager(cache);
      var _ := manager.SetRetentionCount(keep);
      var _, _ := manager.EnforceNow(faults);
    case StoreFile(repo, arch, filename, src, mkdirOk, renameOk) =>
      var _ := cache.PutRepoFile(repo, arch, filename, src, mkdirOk, renameOk);
  }

  ghost function After(d: Disk, ops: seq<Op>): Disk
  {
    if ops == [] then d else Apply(After(d, ops[..|ops| - 1]), ops[|ops| - 1])
  }

  /** No directory stands where a version file belongs. */
  ghost predicate Regular(d: Disk)
  {
    WellFormed(d) && forall name, version :: PkgPath(name, version) !in d.dirs
  }

  lemma MkdirKeepsRegular(d: Disk, p: Path, ok: bool)
    requires Regular(d) && Proper(p) && MkdirAll(d, p, ok).Ok? && (|p| >= 2 ==> p[1] == "os")
    ensures Regular(MkdirAll(d, p, ok).value)
  {
    MkdirAllKeeps(d, p, ok);
    forall name, version ensures PkgPath(name, version) !in MkdirAll(d, p, ok).value.dirs {
      var q := PkgPath(name, version);
      assert |q[1]| > 2;
      forall k | 0 <= k <= |p| ensures p[..k] != q {
        assert k == 2 ==> p[..k][1] == p[1];
      }
    }
  }

  lemma RenameKeepsRegular(d: Disk, src: Path, dst: Path, ok: bool)
    requires Regular(d) && dst != [] && Proper(dst) && Rename(d, src, dst, ok).Ok?
    ensures Regular(Rename(d, src, dst, ok).value)
  {
  }

  lemma PkgPathProper(name: string, version: string)
    requires Component(name) && '/' !in version
    ensures Proper(PkgPath(name, version))
  {
  }

  lemma AddKeepsRegular(d: Disk, name: string, version: string, src: Path, f: AddFaults)
    requires Regular(d) && (name == "" || Component(name)) && '/' !in version
    ensures Regular(Added(d, name, version, src, f).0)
  {
    if name != "" && version != "" && MkdirAll(d, [name], f.mkdir).Ok? {
      var made := MkdirAll(d, [name], f.mkdir).value;
      MkdirKeepsRegular(d, [name], f.mkdir);
      PkgPathProper(name, version);
      if Rename(made, src, PkgPath(name, version), f.rename).Ok? {
        RenameKeepsRegular(made, src, PkgPath(name, version), f.rename);
      }
    }
  }

  lemma StoreKeepsRegular(d: Disk, repo: string, arch: string, filename: string, src: Path,
                          mkdirOk: bool, renameOk: bool)
    requires Regular(d) && (repo == "" || Component(repo)) && Component(arch) && (filename == "" || Component(filename))
    ensures Regular(Stored(d, repo, arch, filename, src, mkdirOk, renameOk).0)
  {
    if repo != "" && filename != "" && MkdirAll(d, [repo, "os", arch], mkdirOk).Ok? {
      var made, dst := MkdirAll(d, [repo, "os", arch], mkdirOk).value, [repo, "os", arch, filename];
      MkdirKeepsRegular(d, [repo, "os", arch], mkdirOk);
      if Rename(made, src, dst, renameOk).Ok? {
        RenameKeepsRegular(made, src, dst, renameOk);
      }
    }
  }

  lemma RemoveKeepsRegular(d: Disk, name: string, version: string, ok: bool)
    requires Regular(d)
    ensures Regular(Removed(d, name, version, ok).0)
  {
  }

  lemma WithoutKeepsRegular(d: Disk, gone: set<Path>)
    requires Regular(d)
    ensures Regular(Without(d, gone))
  {
  }

  lemma StepKeepsRegular(d: Disk, op: Op)
    requires Regular(d)
    ensures Regular(Apply(d, op))
  {
    if Legal(d, op) {
      match op
      case Arrival(_, _) =>
      case AddVersion(name, version, src, f) => AddKeepsRegular(d, name, version, src, f);
      case RemoveVersion(name, version, ok) => RemoveKeepsRegular(d, name, version, ok);
      case RetainNewest(name, keep, _, removeOk) => WithoutKeepsRegular(d, Evicted(d, name, keep, removeOk));
      case EnforceAll(keep, f) => WithoutKeepsRegular(d, Expired(d, keep, f, PackageNames(d)));
      case StoreFile(repo, arch, filename, src, mkdirOk, renameOk) =>
        StoreKeepsRegular(d, repo, arch, filename, src, mkdirOk, renameOk);
    }
  }

  lemma {:induction false} RegularAlways(d: Disk, ops: seq<Op>)
    requires Regular(d)
    ensures Regular(After(d, ops))
  {
    if ops == [] {
    } else {
      RegularAlways(d, ops[..|ops| - 1]);
      StepKeepsRegular(After(d, ops[..|ops| - 1]), ops[|ops| - 1]);
    }
  }

  /** Listing agrees with lookup: after any run, `Has` says yes exactly for the versions that `ListVersions` lists, and
      where a file stands in place of the package directory both report it. */
  lemma ListingAgrees(d: Disk, ops: seq<Op>, name: string, version: string)
    requires Regular(d) && Component(name)
    ensures var d' := After(d, ops);
      Looked(d', name, version, true, true)
        == if [name] in d'.files then Err(IO(NotDir)) else Ok(version in Listed(d', name))
  {
    var d' := After(d, ops);
    RegularAlways(d, ops);
    ListedIff(d', name, version);
    if [name] !in d'.dirs {
      NoneListed(d', name);
    }
  }

  // ---------- the frame of removal ----------

  predicate Deletes(op: Op)
  {
    op.RemoveVersion? || op.RetainNewest? || op.EnforceAll?
  }

  /** The packages whose files a removal may delete. */
  predicate Touches(op: Op, name: string)
  {
    match op
    case RemoveVersion(n, _, _) => n == name
    case RetainNewest(n, _, _, _) => n == name
    case EnforceAll(_, _) => true
    case _ => false
  }

  /** `d'` is `d` without some version files of packages that one of the operations touches. */
  ghost predicate OnlyPkgGone(d: Disk, d': Disk, ops: seq<Op>)
  {
    && d'.dirs == d.dirs
    && (forall p :: p in d'.files ==> p in d.files && d'.files[p] == d.files[p])
    && (forall p :: p in d.files && p !in d'.files ==> PkgOf(p, ops))
  }

  ghost predicate PkgOf(p: Path, ops: seq<Op>)
  {
    |p| == 2 && Inside(p) && IsVersionFile(p[0], p[1]) && exists i :: 0 <= i < |ops| && Touches(ops[i], p[0])
  }

  lemma TouchedPkg(op: Op, name: string, p: Path)
    requires Touches(op, name) && IsVersionPath(name, p) && name != ".."
    ensures PkgOf(p, [op])
  {
    assert Touches([op][0], p[0]);
  }

  lemma WithoutFrame(d: Disk, gone: set<Path>, ops: seq<Op>)
    requires forall p :: p in gone ==> PkgOf(p, ops)
    ensures OnlyPkgGone(d, Without(d, gone), ops)
  {
  }

  lemma RemovedIsWithout(d: Disk, name: string, version: string, ok: bool)
    requires Regular(d)
    ensures Removed(d, name, version, ok).0 in {d, Without(d, {PkgPath(name, version)})}
  {
  }

  lemma StepFrame(d: Disk, op: Op)
    requires Regular(d) && Deletes(op)
    ensures OnlyPkgGone(d, Apply(d, op), [op])
  {
    WithoutFrame(d, {}, [op]);
    assert Without(d, {}) == d;
    if Legal(d, op) {
      match op
      case RemoveVersion(name, version, ok) =>
        VersionOfFileName(name, version);
        TouchedPkg(op, name, PkgPath(name, version));
        RemovedIsWithout(d, name, version, ok);
        WithoutFrame(d, {PkgPath(name, version)}, [op]);
      case RetainNewest(name, keep, _, removeOk) => RetainFrame(d, name, keep, removeOk, op);
      case EnforceAll(keep, f) => EnforceFrame(d, keep, f, op);
    }
  }

  lemma RetainFrame(d: Disk, name: string, keep: nat, removeOk: string -> bool, op: Op)
    requires Component(name) && Touches(op, name)
    ensures OnlyPkgGone(d, Retained(d, name, keep, removeOk), [op])
  {
    forall p | p in Evicted(d, name, keep, removeOk) ensures PkgOf(p, [op]) {
      TouchedPkg(op, name, p);
    }
    WithoutFrame(d, Evicted(d, name, keep, removeOk), [op]);
  }

  lemma EnforceFrame(d: Disk, keep: nat, f: EnforceFaults, op: Op)
    requires op.EnforceAll?
    ensures OnlyPkgGone(d, Enforced(d, keep, f, PackageNames(d)), [op])
  {
    forall p | p in Expired(d, keep, f, PackageNames(d)) ensures PkgOf(p, [op]) {
      ChildIn(d, [], p[0]);
      TouchedPkg(op, p[0], p);
    }
    WithoutFrame(d, Expired(d, keep, f, PackageNames(d)), [op]);
  }

  /** Any run of removals, retentions and enforcements deletes only files `name/name-version.pkg` of packages it
      names, or of any package if it enforces; every other file keeps its content, and the directories stay. In
      particular no file `repo/os/arch/filename` is touched. */
  lemma {:induction false} RemovalFrame(d: Disk, ops: seq<Op>)
    requires Regular(d) && forall i :: 0 <= i < |ops| ==> Deletes(ops[i])
    ensures OnlyPkgGone(d, After(d, ops), ops)
  {
    if ops == [] {
    } else {
      var front, last := ops[..|ops| - 1], ops[|ops| - 1];
      var mid := After(d, front);
      RemovalFrame(d, front);
      RegularAlways(d, front);
      StepFrame(mid, last);
      forall p | PkgOf(p, front) || PkgOf(p, [last]) ensures PkgOf(p, ops) {
        if PkgOf(p, front) {
          var i :| 0 <= i < |front| && Touches(front[i], p[0]);
          assert Touches(ops[i], p[0]);
        } else {
          assert Touches(ops[|ops| - 1], p[0]);
        }
      }
    }
  }

  // ---------- what a removal does ----------

  /** A removal succeeds exactly when the system call goes through and no file stands in place of the package
      directory, so also for a version that is not there; then that version, and no other, is gone from the listing. */
  lemma RemoveIsExact(d: Disk, name: string, version: string, ok: bool)
    requires Regular(d) && Component(name)
    ensures var (d', done) := Removed(d, name, version, ok);
      && (done <==> ok && [name] !in d.files)
      && Listed(d', name) == if done then Listed(d, name) - {version} else Listed(d, name)
  {
    var d', p := Removed(d, name, version, ok).0, PkgPath(name, version);
    assert p[..1] == [name] && p[..0] == [];
    RemovedIsWithout(d, name, version, ok);
    forall v ensures v in Listed(d', name) <==> v in Listed(d, name) && PkgPath(name, v) in d'.files {
      ListedIff(d, name, v);
      ListedIff(d', name, v);
    }
    forall v | v != version ensures PkgPath(name, v) != p {
      if PkgPath(name, v) == p {
        FileNameInjective(name, v, version);
      }
    }
    ListedIff(d, name, version);
    ListedIff(d', name, version);
  }

  // ---------- what an addition does ----------

  /** Whether it succeeds or not, `Add` changes no file but the one it moves and the one it moves it to, and makes no
      directory but that of the package. */
  lemma AddFrame(d: Disk, name: string, version: string, src: Path, f: AddFaults)
    requires name == "" || Component(name)
    ensures var d', dst := Added(d, name, version, src, f).0, PkgPath(name, version);
      && (forall p :: p != src && p != dst ==> (p in d'.files <==> p in d.files))
      && (forall p :: p != src && p != dst && p in d.files ==> d'.files[p] == d.files[p])
      && (src != dst && src in d'.files ==> src in d.files && d'.files[src] == d.files[src])
      && (name != "" ==> dst !in d.files || dst in d'.files)
      && (forall p :: p in d'.dirs && p !in d.dirs ==> |p| <= 1)
  {
  }

  /** An addition succeeds exactly when the package directory can be made, and the file given is in its place already,
      cannot be seen, or can be moved. */
  lemma AddSucceeds(d: Disk, name: string, version: string, src: Path, f: AddFaults)
    requires Regular(d) && (name == "" || Component(name)) && '/' !in version && src !in d.dirs && src != [name]
    ensures Added(d, name, version, src, f).1 <==>
      && name != "" && version != "" && f.mkdir && [name] !in d.files
      && (src == PkgPath(name, version) || !f.stat || src !in d.files || f.rename)
  {
    if name != "" && version != "" && MkdirAll(d, [name], f.mkdir).Ok? {
      var made := MkdirAll(d, [name], f.mkdir).value;
      assert [name][..0] == [] && [name][..1] == [name];
      assert PkgPath(name, version)[..1] == [name];
      assert src !in made.dirs;
    }
  }

  /** A successful `Add` makes the version present exactly when it already was, or when the file given could be seen
      where it was said to be; then the file is moved there with its content. Otherwise it reports success and
      stores nothing. */
  lemma AddStores(d: Disk, name: string, version: string, src: Path, f: AddFaults)
    requires Added(d, name, version, src, f).1 && src !in d.dirs
    ensures var d', dst := Added(d, name, version, src, f).0, PkgPath(name, version);
      && (version in Listed(d', name) <==> version in Listed(d, name) || (src in d.files && f.stat))
      && (src in d.files && f.stat ==> dst in d'.files && d'.files[dst] == d.files[src])
  {
  }

  /** Storing succeeds exactly when the directory can be made and the file can be moved there; then the file has
      left its old place for its new one, with its content, and every other file is as it was. */
  lemma StoreIsExact(d: Disk, repo: string, arch: string, filename: string, src: Path, mkdirOk: bool, renameOk: bool)
    requires WellFormed(d) && repo != "" && filename != ""
    ensures var (d', ok) := Stored(d, repo, arch, filename, src, mkdirOk, renameOk);
      var dir, dst := [repo, "os", arch], [repo, "os", arch, filename];
      && (ok <==> mkdirOk && dir !in d.files && !Blocked(d, dir)
                  && (src == dst || (renameOk && src in d.files && dst !in d.dirs)))
      && (!ok ==> d'.files == d.files)
      && (ok && src == dst ==> d'.files == d.files)
      && (ok && src != dst ==> d'.files == (d.files - {src})[dst := d.files[src]])
  {
    var dir, dst := [repo, "os", arch], [repo, "os", arch, filename];
    assert dst[..3] == dir && dir[..3] == dir;
    forall k | 0 <= k <= 3 ensures dir[..k] != dst {
      assert |dir[..k]| != |dst|;
    }
  }

  /** On an empty storage directory an addition reports success for a file that is not there, and stores nothing. */
  lemma AddExample()
    ensures var d := Disk(map[], {[]});
      var (d', ok) := Added(d, "a", "1", TempPath("t"), AddFaults(true, true, true));
      WellFormed(d) && ok && Listed(d', "a") == {}
  {
    var d := Disk(map[], {[]});
    var made := MkdirAll(d, ["a"], true);
    assert made.Ok? && made.value.files == map[];
    assert !Exists(made.value, TempPath("t")) by {
      assert TempPath("t")[0] == "..";
    }
  }
}
