/** Retention over all packages (internal/cache/retention_manager.go). */
module RetentionManagers {
  import opened Disks
  import opened FilesystemCaches
  import opened Text
  import opened Versions
  import opened Wrappers

  /** Which system calls of an enforcement go through: reading the storage directory, reading each package directory
      for the count and again for the listing, and each removal. */
  datatype EnforceFaults = EnforceFaults(readRoot: bool, count: string -> bool, list: string -> bool,
                                         remove: string -> string -> bool)

  ghost predicate NoFaults(f: EnforceFaults)
  {
    f.readRoot && (forall n :: f.count(n) && f.list(n)) && RemovalsSucceed(f)
  }

  ghost predicate RemovalsSucceed(f: EnforceFaults)
  {
    forall n, v :: f.remove(n)(v)
  }

  predicate Reached(f: EnforceFaults, name: string)
  {
    f.count(name) && f.list(name)
  }

  /** The package directories: every directory directly in the storage directory. */
  function PackageNames(d: Disk): set<string>
  {
    set n | n in Children(d, []) && [n] in d.dirs
  }

  /** What is deleted below the packages `names`. */
  ghost function Expired(d: Disk, keep: nat, f: EnforceFaults, names: set<string>): set<Path>
  {
    set p | p in d.files && |p| == 2 && p[0] in names && Reached(f, p[0]) && p in Evicted(d, p[0], keep, f.remove(p[0]))
  }

  ghost function Enforced(d: Disk, keep: nat, f: EnforceFaults, names: set<string>): Disk
  {
    Without(d, Expired(d, keep, f, names))
  }

  /** The `.pkg` files directly below the packages `names`. */
  function PkgFiles(d: Disk, names: set<string>): set<Path>
  {
    set p | p in d.files && |p| == 2 && p[0] in names && HasSuffix(p[1], SUFFIX)
  }

  /** The `.pkg` files that lack the prefix of their package and so are no version of it. */
  function Strays(d: Disk, names: set<string>): set<Path>
  {
    set p | p in PkgFiles(d, names) && !IsVersionFile(p[0], p[1])
  }

  /** What an enforcement adds to its count of removed versions for one package. */
  function Reported(d: Disk, keep: nat, f: EnforceFaults, name: string): nat
  {
    if Reached(f, name) && |PkgFiles(d, {name})| > keep then |PkgFiles(d, {name})| - keep else 0
  }

  /** When the count for a package is right: nothing was counted, or there are no strays and every removal goes
      through. */
  ghost predicate CountedRight(d: Disk, keep: nat, f: EnforceFaults, name: string)
  {
    || !f.count(name) || !f.list(name)
    || |PkgFiles(d, {name})| <= keep
    || (Strays(d, {name}) == {} && forall v :: v in Listed(d, name) - Kept(Listed(d, name), keep) ==> f.remove(name)(v))
  }

  ghost function Miscounted(d: Disk, keep: nat, f: EnforceFaults, names: set<string>): set<string>
  {
    set name | name in names && !CountedRight(d, keep, f, name)
  }

  /** The count reported is never below the number of files gone, and is that number if and only if no package is
      miscounted. When removals succeed it is too high by at most the number of stray files. */
  ghost predicate Accounted(d: Disk, d': Disk, keep: nat, f: EnforceFaults, names: set<string>, reported: nat)
  {
    && |d.files| - |d'.files| <= reported
    && (|d.files| - |d'.files| == reported <==> Miscounted(d, keep, f, names) == {})
    && (RemovalsSucceed(f) ==> reported <= |d.files| - |d'.files| + |Strays(d, names)|)
  }

  class RetentionManager {
    const cache: FilesystemCache
    var retentionCount: int

    constructor (cache: FilesystemCache)
      ensures this.cache == cache && retentionCount == 2
    {
      this.cache := cache;
      retentionCount := 2;
    }

    method SetRetentionCount(count: int) returns (ok: bool)
      modifies this
      ensures ok <==> count >= 1
      ensures retentionCount == if ok then count else old(retentionCount)
    {
      if count < 1 {
        return false;
      }
      retentionCount := count;
      return true;
    }

    /** The number of `.pkg` files among the entries of a package directory. */
    method CountPackages(name: string, entries: seq<string>) returns (pkgCount: nat)
      requires WellFormed(cache.disk) && Versions.Distinct(entries) && Elements(entries) == Children(cache.disk, [name])
      ensures pkgCount == |PkgFiles(cache.disk, {name})|
      ensures forall p :: p in PkgFiles(cache.disk, {name})
                <==> p in cache.disk.files && |p| == 2 && p[0] == name && HasSuffix(p[1], ".pkg")
    {
      pkgCount := 0;
      var i := 0;
      while i < |entries|
        invariant 0 <= i <= |entries|
        invariant pkgCount == |PkgAmong(cache.disk, name, entries[..i])|
      {
        PkgGrows(cache.disk, name, entries, i);
        if [name, entries[i]] !in cache.disk.dirs && HasSuffix(entries[i], SUFFIX) {
          pkgCount := pkgCount + 1;
        }
        i := i + 1;
      }
      assert entries[..i] == entries;
      AllPkg(cache.disk, name, entries);
    }

    /** One package of an enforcement: skipped when its directory has no more than `retentionCount` files. */
    method EnforcePackage(name: string, f: EnforceFaults) returns (removed: nat)
      requires WellFormed(cache.disk) && retentionCount >= 1 && Component(name) && [name] in cache.disk.dirs
      modifies cache
      ensures cache.disk == Enforced(old(cache.disk), retentionCount, f, {name})
      ensures removed == Reported(old(cache.disk), retentionCount, f, name)
    {
      removed := 0;
      EnforcedOne(cache.disk, retentionCount, f, name);
      var read := cache.ReadDir([name], f.count(name));
      if read.Err? {
        return;
      }
      var pkgCount := CountPackages(name, read.value);
      if pkgCount > retentionCount {
        var retained := cache.RetainMostRecent(name, retentionCount, f.list(name), f.remove(name));
        if retained.Ok? {
          removed := pkgCount - retentionCount;
        }
      }
    }

    /** One package after another, and the sum of what they report. */
    method EnforceEntries(entries: seq<string>, f: EnforceFaults) returns (removedCount: nat)
      requires WellFormed(cache.disk) && retentionCount >= 1
      requires Versions.Distinct(entries) && Elements(entries) == Children(cache.disk, [])
      modifies cache
      ensures Progress(old(cache.disk), retentionCount, f, entries, cache.disk, removedCount)
    {
      removedCount := 0;
      ghost var was := cache.disk;
      ProgressStarts(was, retentionCount, f);
      var i := 0;
      while i < |entries|
        invariant 0 <= i <= |entries|
        invariant Progress(was, retentionCount, f, entries[..i], cache.disk, removedCount)
      {
        ProgressNext(was, retentionCount, f, entries, i, cache.disk, removedCount);
        if [entries[i]] in cache.disk.dirs {
          var removed := EnforcePackage(entries[i], f);
          removedCount := removedCount + removed;
        }
        i := i + 1;
      }
      assert entries[..i] == entries;
    }

    method EnforceNow(f: EnforceFaults) returns (r: Result<(), CacheError>, removedCount: nat)
      requires WellFormed(cache.disk) && retentionCount >= 1
      modifies cache
      ensures r.Ok? <==> f.readRoot
      ensures cache.disk == if r.Ok? then Enforced(old(cache.disk), retentionCount, f, PackageNames(old(cache.disk)))
                            else old(cache.disk)
      ensures r.Ok? ==>
        Accounted(old(cache.disk), cache.disk, retentionCount, f, PackageNames(old(cache.disk)), removedCount)
    {
      var read := cache.ReadDir([], f.readRoot);
      if read.Err? {
        return Err(IO(read.error)), 0;
      }
      removedCount := EnforceEntries(read.value, f);
      ProgressEnds(old(cache.disk), retentionCount, f, read.value, cache.disk, removedCount);
      return Ok(()), removedCount;
    }
  }

  // ---------- loops over directory entries ----------

  predicate IsPkg(d: Disk, name: string, e: string)
  {
    [name, e] in d.files && HasSuffix(e, SUFFIX)
  }

  ghost function PkgAmong(d: Disk, name: string, entries: seq<string>): set<Path>
  {
    set e | e in entries && IsPkg(d, name, e) :: [name, e]
  }

  lemma PkgAmongNext(d: Disk, name: string, entries: seq<string>, e: string)
    requires e !in entries
    ensures [name, e] !in PkgAmong(d, name, entries)
    ensures PkgAmong(d, name, entries + [e])
         == PkgAmong(d, name, entries) + if IsPkg(d, name, e) then {[name, e]} else {}
  {
  }

  lemma PkgGrows(d: Disk, name: string, entries: seq<string>, i: nat)
    requires WellFormed(d) && i < |entries| && Versions.Distinct(entries) && Elements(entries) == Children(d, [name])
    ensures IsPkg(d, name, entries[i]) <==> [name, entries[i]] !in d.dirs && HasSuffix(entries[i], SUFFIX)
    ensures |PkgAmong(d, name, entries[..i + 1])|
      == |PkgAmong(d, name, entries[..i])| + if IsPkg(d, name, entries[i]) then 1 else 0
  {
    var e := entries[i];
    assert e in Elements(entries);
    ChildIn(d, [name], e);
    assert [name] + [e] == [name, e];
    assert entries[..i + 1] == entries[..i] + [e];
    PkgAmongNext(d, name, entries[..i], e);
  }

  lemma AllPkg(d: Disk, name: string, entries: seq<string>)
    requires Elements(entries) == Children(d, [name])
    ensures PkgAmong(d, name, entries) == PkgFiles(d, {name})
  {
    forall p | p in PkgFiles(d, {name}) ensures p in PkgAmong(d, name, entries) {
      ChildIn(d, [name], p[1]);
      assert |p[1]| >= |SUFFIX| && p == [name] + [p[1]] == [name, p[1]];
      assert p[1] in Elements(entries);
    }
  }

  ghost function DirsAmong(d: Disk, entries: seq<string>): set<string>
  {
    set e | e in entries && [e] in d.dirs
  }

  lemma NamesGrow(d: Disk, entries: seq<string>, i: nat)
    requires WellFormed(d) && i < |entries| && Versions.Distinct(entries) && Elements(entries) == Children(d, [])
    ensures Component(entries[i]) && entries[i] !in DirsAmong(d, entries[..i])
    ensures DirsAmong(d, entries[..i + 1])
         == if [entries[i]] in d.dirs then DirsAmong(d, entries[..i]) + {entries[i]} else DirsAmong(d, entries[..i])
  {
    var e := entries[i];
    assert e in Elements(entries);
    ChildIn(d, [], e);
    assert [] + [e] == [e];
    assert Exists(d, [e]) && Inside([e]);
    assert Component([e][0]);
    assert entries[..i + 1] == entries[..i] + [e];
  }

  lemma AllNames(d: Disk, entries: seq<string>)
    requires Elements(entries) == Children(d, [])
    ensures DirsAmong(d, entries) == PackageNames(d)
  {
  }

  // ---------- one package after another ----------

  /** Deleting files of other packages changes nothing for a package. */
  lemma OthersUnaffected(d: Disk, gone: set<Path>, name: string, keep: nat, removeOk: string -> bool)
    requires forall p :: p in gone ==> |p| == 2 && p[0] != name
    ensures Listed(Without(d, gone), name) == Listed(d, name)
    ensures Evicted(Without(d, gone), name, keep, removeOk) == Evicted(d, name, keep, removeOk)
    ensures PkgFiles(Without(d, gone), {name}) == PkgFiles(d, {name})
  {
  }

  lemma ExpiredOf(d: Disk, keep: nat, f: EnforceFaults, name: string)
    ensures Expired(d, keep, f, {name}) == if Reached(f, name) then Evicted(d, name, keep, f.remove(name)) else {}
  {
  }

  /** A package with no more than `keep` files has no more than `keep` versions, so skipping it is retaining it. */
  lemma EnforcedOne(d: Disk, keep: nat, f: EnforceFaults, name: string)
    requires WellFormed(d) && [name] in d.dirs
    ensures Enforced(d, keep, f, {name}) == if Reached(f, name) then Retained(d, name, keep, f.remove(name)) else d
    ensures |PkgFiles(d, {name})| <= keep ==> Enforced(d, keep, f, {name}) == d
  {
    ExpiredOf(d, keep, f, name);
    PkgCount(d, name);
    EvictedCount(d, name, keep, f.remove(name));
  }

  lemma ExpiredSum(d: Disk, keep: nat, f: EnforceFaults, names: set<string>, name: string)
    requires name !in names
    ensures Expired(d, keep, f, names + {name}) == Expired(d, keep, f, names) + Expired(d, keep, f, {name})
    ensures Expired(d, keep, f, names) !! Expired(d, keep, f, {name})
  {
  }

  lemma WithoutTwice(d: Disk, a: set<Path>, b: set<Path>)
    ensures Without(Without(d, a), b) == Without(d, a + b)
  {
  }

  lemma EnforcedNext(d: Disk, keep: nat, f: EnforceFaults, names: set<string>, name: string)
    requires name !in names
    ensures var d' := Enforced(d, keep, f, names);
      && Enforced(d', keep, f, {name}) == Enforced(d, keep, f, names + {name})
      && Reported(d', keep, f, name) == Reported(d, keep, f, name)
  {
    var gone := Expired(d, keep, f, names);
    OthersUnaffected(d, gone, name, keep, f.remove(name));
    ExpiredOf(d, keep, f, name);
    ExpiredOf(Without(d, gone), keep, f, name);
    ExpiredSum(d, keep, f, names, name);
    WithoutTwice(d, gone, Expired(d, keep, f, {name}));
  }

  // ---------- counting ----------

  lemma WithoutCount(d: Disk, gone: set<Path>)
    requires gone <= d.files.Keys
    ensures |Without(d, gone).files| == |d.files| - |gone|
  {
  }

  function VersionsOf(name: string, ps: set<Path>): set<string>
  {
    set p | p in ps && IsVersionPath(name, p) :: VersionIn(name, p[1])
  }

  lemma VersionsOfRest(name: string, ps: set<Path>, p: Path)
    requires p in ps && IsVersionPath(name, p) && forall q :: q in ps ==> IsVersionPath(name, q)
    ensures VersionIn(name, p[1]) !in VersionsOf(name, ps - {p})
    ensures VersionsOf(name, ps) == VersionsOf(name, ps - {p}) + {VersionIn(name, p[1])}
  {
    forall q | q in ps && VersionIn(name, q[1]) == VersionIn(name, p[1]) ensures q == p {
      assert q == PkgPath(name, VersionIn(name, q[1])) && p == PkgPath(name, VersionIn(name, p[1]));
    }
  }

  /** Distinct version files have distinct versions. */
  lemma {:induction false} VersionCount(name: string, ps: set<Path>)
    requires forall p :: p in ps ==> IsVersionPath(name, p)
    ensures |VersionsOf(name, ps)| == |ps|
  {
    if ps == {} {
    } else {
      var p :| p in ps;
      VersionCount(name, ps - {p});
      VersionsOfRest(name, ps, p);
    }
  }

  ghost function VersionFiles(d: Disk, name: string): set<Path>
  {
    set p | p in d.files && IsVersionPath(name, p)
  }

  lemma PkgParts(d: Disk, name: string)
    ensures PkgFiles(d, {name}) == VersionFiles(d, name) + Strays(d, {name})
    ensures VersionFiles(d, name) !! Strays(d, {name})
    ensures VersionsOf(name, VersionFiles(d, name)) == Listed(d, name)
  {
  }

  /** Versions and strays make up the files of a package. */
  lemma PkgCount(d: Disk, name: string)
    ensures |PkgFiles(d, {name})| == |Listed(d, name)| + |Strays(d, {name})|
  {
    VersionCount(name, VersionFiles(d, name));
    PkgParts(d, name);
  }

  function Beyond(keep: nat, count: nat): nat
  {
    if count > keep then count - keep else 0
  }

  /** Retention deletes the versions beyond `keep`, or fewer when removals fail. */
  lemma EvictedCount(d: Disk, name: string, keep: nat, removeOk: string -> bool)
    ensures |Evicted(d, name, keep, removeOk)| <= Beyond(keep, |Listed(d, name)|)
    ensures |Evicted(d, name, keep, removeOk)| == Beyond(keep, |Listed(d, name)|)
      <==> forall v :: v in Listed(d, name) - Kept(Listed(d, name), keep) ==> removeOk(v)
  {
    var evicted := Evicted(d, name, keep, removeOk);
    VersionCount(name, evicted);
    EvictedVersions(d, name, keep, removeOk);
    NotKeptCount(Listed(d, name), keep);
    Smaller(VersionsOf(name, evicted), Listed(d, name) - Kept(Listed(d, name), keep));
  }

  lemma NotKeptCount(all: set<string>, keep: nat)
    ensures |all - Kept(all, keep)| == Beyond(keep, |all|)
  {
    KeptProperties(all, keep);
    assert Kept(all, keep) <= all;
    assert |all - Kept(all, keep)| == |all| - |Kept(all, keep)|;
  }

  lemma EvictedVersions(d: Disk, name: string, keep: nat, removeOk: string -> bool)
    ensures VersionsOf(name, Evicted(d, name, keep, removeOk))
         == set v | v in Listed(d, name) - Kept(Listed(d, name), keep) && removeOk(v)
  {
  }

  /** A part of a set is no larger, and as large only if it is the whole. */
  lemma Smaller(a: set<string>, b: set<string>)
    requires a <= b
    ensures |a| <= |b| && (|a| == |b| <==> a == b)
  {
    assert |b - a| == |b| - |a|;
  }

  lemma MiscountedOne(d: Disk, keep: nat, f: EnforceFaults, name: string)
    ensures Miscounted(d, keep, f, {name}) == {} <==> CountedRight(d, keep, f, name)
  {
    assert CountedRight(d, keep, f, name) <==> name !in Miscounted(d, keep, f, {name});
  }

  lemma MiscountedSum(d: Disk, keep: nat, f: EnforceFaults, names: set<string>, name: string)
    ensures Miscounted(d, keep, f, names + {name}) == Miscounted(d, keep, f, names) + Miscounted(d, keep, f, {name})
  {
  }

  /** For one package the count reported is at least the number of files deleted, and too high by at most its
      strays. It is right if and only if nothing was counted, or there are no strays and every removal goes through. */
  lemma ReportedOne(d: Disk, keep: nat, f: EnforceFaults, name: string)
    ensures |Expired(d, keep, f, {name})| <= Reported(d, keep, f, name)
    ensures |Expired(d, keep, f, {name})| == Reported(d, keep, f, name) <==> CountedRight(d, keep, f, name)
    ensures RemovalsSucceed(f) ==> Reported(d, keep, f, name) <= |Expired(d, keep, f, {name})| + |Strays(d, {name})|
  {
    ExpiredOf(d, keep, f, name);
    PkgCount(d, name);
    EvictedCount(d, name, keep, f.remove(name));
  }

  lemma GoneNext(d: Disk, keep: nat, f: EnforceFaults, names: set<string>, name: string)
    requires name !in names
    ensures |Enforced(d, keep, f, names + {name}).files|
         == |Enforced(d, keep, f, names).files| - |Expired(d, keep, f, {name})|
  {
    ExpiredSum(d, keep, f, names, name);
    WithoutCount(d, Expired(d, keep, f, names));
    WithoutCount(d, Expired(d, keep, f, names + {name}));
  }

  /** The account of one package, in the terms of the account of all. */
  lemma ReportedTogether(d: Disk, keep: nat, f: EnforceFaults, names: set<string>, name: string)
    ensures |Expired(d, keep, f, {name})| <= Reported(d, keep, f, name)
    ensures RemovalsSucceed(f) ==> Reported(d, keep, f, name) <= |Expired(d, keep, f, {name})| + |Strays(d, {name})|
    ensures Miscounted(d, keep, f, names + {name}) == {}
      <==> Miscounted(d, keep, f, names) == {} && |Expired(d, keep, f, {name})| == Reported(d, keep, f, name)
  {
    ReportedOne(d, keep, f, name);
    MiscountedOne(d, keep, f, name);
    MiscountedSum(d, keep, f, names, name);
  }

  /** One more package keeps the account. */
  lemma AccountNext(d: Disk, keep: nat, f: EnforceFaults, names: set<string>, name: string, reported: nat)
    requires name !in names && Accounted(d, Enforced(d, keep, f, names), keep, f, names, reported)
    ensures Accounted(d, Enforced(d, keep, f, names + {name}), keep, f, names + {name},
                      reported + Reported(d, keep, f, name))
  {
    GoneNext(d, keep, f, names, name);
    ReportedTogether(d, keep, f, names, name);
    StraysSum(d, names, name);
  }

  lemma StraysSum(d: Disk, names: set<string>, name: string)
    requires name !in names
    ensures |Strays(d, names + {name})| == |Strays(d, names)| + |Strays(d, {name})|
  {
    assert Strays(d, names + {name}) == Strays(d, names) + Strays(d, {name});
    assert Strays(d, names) !! Strays(d, {name});
  }

  /** What an enforcement reports for the directories among the entries that it has been through. */
  function TotalReported(was: Disk, keep: nat, f: EnforceFaults, done: seq<string>): nat
  {
    if done == [] then 0
    else TotalReported(was, keep, f, done[..|done| - 1])
         + if [done[|done| - 1]] in was.dirs then Reported(was, keep, f, done[|done| - 1]) else 0
  }

  /** How far an enforcement has come when it has been through the entries `done`. */
  ghost predicate Progress(was: Disk, keep: nat, f: EnforceFaults, done: seq<string>, d: Disk, reported: nat)
  {
    && WellFormed(d) && d.dirs == was.dirs
    && d == Enforced(was, keep, f, DirsAmong(was, done))
    && reported == TotalReported(was, keep, f, done)
  }

  lemma ProgressStarts(was: Disk, keep: nat, f: EnforceFaults)
    requires WellFormed(was)
    ensures Progress(was, keep, f, [], was, 0)
  {
  }

  lemma ProgressNext(was: Disk, keep: nat, f: EnforceFaults, entries: seq<string>, i: nat, d: Disk, reported: nat)
    requires WellFormed(was) && i < |entries| && Versions.Distinct(entries) && Elements(entries) == Children(was, [])
    requires Progress(was, keep, f, entries[..i], d, reported)
    ensures Component(entries[i])
    ensures if [entries[i]] in d.dirs
      then Progress(was, keep, f, entries[..i + 1], Enforced(d, keep, f, {entries[i]}),
                    reported + Reported(d, keep, f, entries[i]))
      else Progress(was, keep, f, entries[..i + 1], d, reported)
  {
    var names, name := DirsAmong(was, entries[..i]), entries[i];
    NamesGrow(was, entries, i);
    assert entries[..i + 1][..i] == entries[..i];
    if [name] in d.dirs {
      EnforcedNext(was, keep, f, names, name);
      EnforcedWellFormed(was, keep, f, names + {name});
    }
  }

  /** One more entry keeps the account. */
  lemma AccountEntry(was: Disk, keep: nat, f: EnforceFaults, entries: seq<string>, i: nat)
    requires WellFormed(was) && i < |entries| && Versions.Distinct(entries) && Elements(entries) == Children(was, [])
    requires AccountedUpTo(was, keep, f, entries[..i])
    ensures AccountedUpTo(was, keep, f, entries[..i + 1])
  {
    NamesGrow(was, entries, i);
    assert entries[..i + 1][..i] == entries[..i];
    if [entries[i]] in was.dirs {
      AccountNext(was, keep, f, DirsAmong(was, entries[..i]), entries[i], TotalReported(was, keep, f, entries[..i]));
    }
  }

  ghost predicate AccountedUpTo(was: Disk, keep: nat, f: EnforceFaults, done: seq<string>)
  {
    var names := DirsAmong(was, done);
    Accounted(was, Enforced(was, keep, f, names), keep, f, names, TotalReported(was, keep, f, done))
  }

  lemma AccountStarts(was: Disk, keep: nat, f: EnforceFaults)
    ensures AccountedUpTo(was, keep, f, [])
  {
    assert Expired(was, keep, f, {}) == {};
    WithoutCount(was, {});
  }

  lemma {:induction false} AccountOf(was: Disk, keep: nat, f: EnforceFaults, entries: seq<string>, i: nat)
    requires WellFormed(was) && i <= |entries| && Versions.Distinct(entries) && Elements(entries) == Children(was, [])
    ensures AccountedUpTo(was, keep, f, entries[..i])
  {
    if i == 0 {
      AccountStarts(was, keep, f);
    } else {
      var j := i - 1;
      AccountOf(was, keep, f, entries, j);
      AccountEntry(was, keep, f, entries, j);
      assert j + 1 == i;
    }
  }

  lemma ProgressEnds(was: Disk, keep: nat, f: EnforceFaults, entries: seq<string>, d: Disk, reported: nat)
    requires WellFormed(was) && Versions.Distinct(entries) && Elements(entries) == Children(was, [])
    requires Progress(was, keep, f, entries, d, reported)
    ensures d == Enforced(was, keep, f, PackageNames(was)) && Accounted(was, d, keep, f, PackageNames(was), reported)
  {
    AllNames(was, entries);
    AccountOf(was, keep, f, entries, |entries|);
    assert entries[..|entries|] == entries;
  }

  lemma EnforcedWellFormed(d: Disk, keep: nat, f: EnforceFaults, names: set<string>)
    requires WellFormed(d)
    ensures WellFormed(Enforced(d, keep, f, names))
  {
  }

  // ---------- an example ----------

  const STRAY: Path := ["a", "b" + SUFFIX]

  /** A package directory `a` with one version and one stray file. */
  const ONE_STRAY := Disk(map[PkgPath("a", "1") := [], STRAY := []], {[], ["a"]})

  lemma ExampleListed()
    ensures Listed(ONE_STRAY, "a") == {"1"}
  {
    forall v ensures v in Listed(ONE_STRAY, "a") <==> v == "1" {
      ListedIff(ONE_STRAY, "a", v);
      assert FileName("a", v)[0] == 'a' && STRAY[1][0] == 'b';
      assert PkgPath("a", v) != STRAY;
      if PkgPath("a", v) == PkgPath("a", "1") {
        FileNameInjective("a", v, "1");
      }
    }
  }

  lemma ExampleStrays()
    ensures Strays(ONE_STRAY, {"a"}) == {STRAY}
  {
    VersionOfFileName("a", "1");
    TrimSuffixOfSum("b", SUFFIX);
    assert STRAY[1][0] == 'b' && ("a" + "-")[0] == 'a';
    assert STRAY[1][..2][0] == 'b';
    assert !HasPrefix(STRAY[1], "a" + "-");
  }

  /** Files in the only directory below the storage directory are well formed. */
  lemma OneDirectory(name: string, files: map<Path, Bytes>)
    requires Component(name) && forall p :: p in files ==> |p| == 2 && p[0] == name && Component(p[1])
    ensures WellFormed(Disk(files, {[], [name]})) && name in PackageNames(Disk(files, {[], [name]}))
  {
    var d := Disk(files, {[], [name]});
    forall p | p in files ensures p[..1] == [name] && Proper(p) {
    }
    assert [name][..0] == [];
    ChildIn(d, [], name);
    assert [] + [name] == [name];
  }

  lemma ExampleWellFormed()
    ensures WellFormed(ONE_STRAY) && "a" in PackageNames(ONE_STRAY)
  {
    assert Component("a") && Component("b" + SUFFIX) && Component(FileName("a", "1"));
    OneDirectory("a", ONE_STRAY.files);
  }

  lemma ExampleKept(f: EnforceFaults)
    ensures Enforced(ONE_STRAY, 1, f, {"a"}) == ONE_STRAY
  {
    ExampleListed();
    EvictedCount(ONE_STRAY, "a", 1, f.remove("a"));
    ExpiredOf(ONE_STRAY, 1, f, "a");
    assert Expired(ONE_STRAY, 1, f, {"a"}) == {};
  }

  /** The count can be too high though nothing fails: with one version to keep, nothing is deleted from this
      directory, and one removal is reported. */
  lemma StrayExample(f: EnforceFaults)
    requires NoFaults(f)
    ensures WellFormed(ONE_STRAY) && "a" in PackageNames(ONE_STRAY)
    ensures Enforced(ONE_STRAY, 1, f, {"a"}) == ONE_STRAY && Reported(ONE_STRAY, 1, f, "a") == 1
  {
    ExampleWellFormed();
    ExampleKept(f);
    ExampleListed();
    ExampleStrays();
    PkgCount(ONE_STRAY, "a");
  }
}
