/** The in-memory version index (internal/versiontracker/immemory_tracker.go). */
module VersionTracker {
  import opened Text
  import opened Versions
  import opened Wrappers

  datatype TrackerError = EmptyArgument | Unknown

  type Index = map<string, seq<string>>

  /** Every recorded package has a newest-first list. */
  ghost predicate Ordered(index: Index)
  {
    forall name :: name in index ==> Descending(index[name]) && index[name] != []
  }

  function ListOf(index: Index, name: string): seq<string>
  {
    if name in index then index[name] else []
  }

  /** The index after one update. */
  function Updated(index: Index, name: string, version: string): Index
  {
    if name == "" || version == "" || version in ListOf(index, name) then index
    else index[name := SortDescending(ListOf(index, name) + [version])]
  }

  class InMemoryTracker {
    var versions: Index

    constructor ()
      ensures versions == map[]
    {
      versions := map[];
    }

    method Update(name: string, version: string) returns (r: Result<(), TrackerError>)
      modifies this
      ensures versions == Updated(old(versions), name, version)
      ensures r.Err? <==> name == "" || version == ""
    {
      if name == "" || version == "" {
        return Err(EmptyArgument);
      }
      var known := ListOf(versions, name);
      var i := 0;
      while i < |known|
        invariant 0 <= i <= |known|
        invariant version !in known[..i]
      {
        if known[i] == version {
          return Ok(());
        }
        i := i + 1;
      }
      known := SortDescending(known + [version]);
      versions := versions[name := known];
      return Ok(());
    }

    method ClearAll()
      modifies this
      ensures versions == map[]
    {
      versions := map[];
    }

    method LatestVersion(name: string) returns (r: Result<string, TrackerError>)
      ensures r == if ListOf(versions, name) == [] then Err(Unknown) else Ok(ListOf(versions, name)[0])
    {
      if name !in versions || versions[name] == [] {
        return Err(Unknown);
      }
      return Ok(versions[name][0]);
    }

    method ListVersions(name: string) returns (result: seq<string>)
      ensures result == ListOf(versions, name)
    {
      if name !in versions {
        return [];
      }
      return versions[name];
    }

    method HasVersion(name: string, version: string) returns (found: bool)
      ensures found <==> (name, version) in Pairs(versions)
    {
      PairIn(versions, name, version);
      if name !in versions {
        return false;
      }
      var known := versions[name];
      var i := 0;
      while i < |known|
        invariant 0 <= i <= |known|
        invariant version !in known[..i]
      {
        if known[i] == version {
          return true;
        }
        i := i + 1;
      }
      return false;
    }

    /** The totals are the numbers of distinct packages and of distinct pairs of package and version. */
    method Stats() returns (packages: nat, totalVersions: nat)
      requires Ordered(versions)
      ensures packages == |set p | p in Pairs(versions) :: p.0|
      ensures totalVersions == |Pairs(versions)|
    {
      NamesOfPairs(versions);
      packages := |versions|;
      totalVersions := 0;
      var rest := versions.Keys;
      ghost var counted: set<string> := {};
      while rest != {}
        invariant rest <= versions.Keys && counted == versions.Keys - rest
        invariant totalVersions == |Pairs(Only(versions, counted))|
      {
        var name :| name in rest;
        PairsGrow(versions, counted, name);
        totalVersions := totalVersions + |versions[name]|;
        rest := rest - {name};
        counted := counted + {name};
      }
      assert Only(versions, counted) == versions;
    }
  }

  // ---------- the set that the index stands for ----------

  ghost function Pairs(index: Index): set<(string, string)>
  {
    set name, version | name in index && version in index[name] :: (name, version)
  }

  ghost function Only(index: Index, names: set<string>): Index
  {
    map name | name in index && name in names :: index[name]
  }

  lemma PairIn(index: Index, name: string, version: string)
    ensures (name, version) in Pairs(index) <==> version in ListOf(index, name)
  {
  }

  ghost function Own(name: string, vs: seq<string>): set<(string, string)>
  {
    set version | version in vs :: (name, version)
  }

  lemma PairsGrow(index: Index, names: set<string>, name: string)
    requires Ordered(index) && name in index && name !in names
    ensures |Pairs(Only(index, names + {name}))| == |Pairs(Only(index, names))| + |index[name]|
  {
    var front, own := Pairs(Only(index, names)), Own(name, index[name]);
    PairsSplit(index, names, name);
    OwnPairs(name, index[name]);
    assert front !! own;
    assert |front + own| == |front| + |own|;
  }

  lemma PairsSplit(index: Index, names: set<string>, name: string)
    requires name in index && name !in names
    ensures Pairs(Only(index, names + {name})) == Pairs(Only(index, names)) + Own(name, index[name])
  {
  }

  lemma {:induction false} OwnPairs(name: string, vs: seq<string>)
    requires Descending(vs)
    ensures |Own(name, vs)| == |vs|
  {
    if vs == [] {
    } else {
      OwnPairs(name, vs[1..]);
      DescendingDistinct(vs);
      assert Own(name, vs) == {(name, vs[0])} + Own(name, vs[1..]);
    }
  }

  lemma NamesOfPairs(index: Index)
    requires Ordered(index)
    ensures (set p | p in Pairs(index) :: p.0) == index.Keys
  {
    forall name | name in index ensures name in set p | p in Pairs(index) :: p.0 {
      assert (name, index[name][0]) in Pairs(index);
    }
  }

  /** An ordered index is determined by its pairs. */
  lemma IndexUnique(a: Index, b: Index)
    requires Ordered(a) && Ordered(b) && Pairs(a) == Pairs(b)
    ensures a == b
  {
    NamesOfPairs(a);
    NamesOfPairs(b);
    forall name | name in a ensures a[name] == b[name] {
      forall version ensures version in a[name] <==> version in b[name] {
        PairIn(a, name, version);
        PairIn(b, name, version);
      }
      DescendingUnique(a[name], b[name]);
    }
  }

  /** An update keeps the lists ordered and adds exactly the pair it is given. */
  lemma UpdateRefinesSet(index: Index, name: string, version: string)
    requires Ordered(index)
    ensures Ordered(Updated(index, name, version))
    ensures Pairs(Updated(index, name, version))
         == if name == "" || version == "" then Pairs(index) else Pairs(index) + {(name, version)}
  {
    if name != "" && version != "" {
      PairIn(index, name, version);
      if version !in ListOf(index, name) {
        NewSorted(ListOf(index, name), version);
        ListGrows(index, name, version);
      }
    }
  }

  lemma NewSorted(vs: seq<string>, version: string)
    requires Descending(vs) && version !in vs
    ensures var sorted := SortDescending(vs + [version]);
      Descending(sorted) && sorted != [] && Elements(sorted) == Elements(vs + [version])
  {
    DescendingDistinct(vs);
    SortDescends(vs + [version]);
  }

  lemma ListGrows(index: Index, name: string, version: string)
    requires Elements(SortDescending(ListOf(index, name) + [version])) == Elements(ListOf(index, name) + [version])
    ensures Pairs(index[name := SortDescending(ListOf(index, name) + [version])]) == Pairs(index) + {(name, version)}
  {
    var sorted := SortDescending(ListOf(index, name) + [version]);
    var index' := index[name := sorted];
    forall n, v ensures (n, v) in Pairs(index') <==> (n, v) in Pairs(index) + {(name, version)} {
      PairIn(index, n, v);
      PairIn(index', n, v);
      assert v in Elements(sorted) <==> v in Elements(ListOf(index, name) + [version]);
    }
  }

  // ---------- runs ----------

  datatype Event = Record(name: string, version: string) | Clear

  function After(events: seq<Event>): Index
  {
    if events == [] then map[]
    else
      match events[|events| - 1]
      case Record(name, version) => Updated(After(events[..|events| - 1]), name, version)
      case Clear => map[]
  }

  /** What was recorded since the last clear. */
  function Recorded(events: seq<Event>): set<(string, string)>
  {
    if events == [] then {}
    else
      match events[|events| - 1]
      case Record(name, version) =>
        Recorded(events[..|events| - 1]) + if name == "" || version == "" then {} else {(name, version)}
      case Clear => {}
  }

  /** The tracker refines a set: after any events each list is newest-first without repetition, and the pairs listed
      are exactly those recorded since the last clear. */
  lemma {:induction false} TrackerRefinesSet(events: seq<Event>)
    ensures Ordered(After(events)) && Pairs(After(events)) == Recorded(events)
  {
    if events == [] {
    } else {
      var e := events[|events| - 1];
      TrackerRefinesSet(events[..|events| - 1]);
      if e.Record? {
        UpdateRefinesSet(After(events[..|events| - 1]), e.name, e.version);
      }
    }
  }

  /** So the order of updates does not matter, nor how often each is repeated: two histories that recorded the same
      pairs since their last clear leave the same index. */
  lemma OrderDoesNotMatter(a: seq<Event>, b: seq<Event>)
    requires Recorded(a) == Recorded(b)
    ensures After(a) == After(b)
  {
    TrackerRefinesSet(a);
    TrackerRefinesSet(b);
    IndexUnique(After(a), After(b));
  }

  lemma {:induction false} RecordedOf(events: seq<Event>)
    requires forall i :: 0 <= i < |events| ==> events[i].Record?
    ensures Recorded(events) == set i | 0 <= i < |events| && events[i].name != "" && events[i].version != ""
                                    :: (events[i].name, events[i].version)
  {
    if events == [] {
    } else {
      RecordedOf(events[..|events| - 1]);
    }
  }

  /** In particular any permutation of the same updates gives the same index. */
  lemma PermutationsAgree(a: seq<Event>, b: seq<Event>)
    requires multiset(a) == multiset(b)
    requires forall i :: 0 <= i < |a| ==> a[i].Record?
    ensures After(a) == After(b)
  {
    forall e ensures e in a <==> e in b {
      assert e in a <==> e in multiset(a);
      assert e in b <==> e in multiset(b);
    }
    forall i | 0 <= i < |b| ensures b[i].Record? {
      assert b[i] in a;
    }
    RecordedOf(a);
    RecordedOf(b);
    forall p ensures p in Recorded(a) <==> p in Recorded(b) {
      if p in Recorded(a) {
        var i :| 0 <= i < |a| && a[i].name != "" && a[i].version != "" && p == (a[i].name, a[i].version);
        assert a[i] in b;
      }
      if p in Recorded(b) {
        var i :| 0 <= i < |b| && b[i].name != "" && b[i].version != "" && p == (b[i].name, b[i].version);
        assert b[i] in a;
      }
    }
    OrderDoesNotMatter(a, b);
  }

  /** The latest version is the greatest one recorded since the last clear, and there is none exactly when nothing was
      recorded. */
  lemma LatestIsGreatest(events: seq<Event>, name: string)
    ensures var vs := ListOf(After(events), name);
            && (vs == [] <==> forall v :: (name, v) !in Recorded(events))
            && (vs != [] ==>
                  && (name, vs[0]) in Recorded(events)
                  && forall v :: (name, v) in Recorded(events) && v != vs[0] ==> Before(v, vs[0]))
  {
    var vs := ListOf(After(events), name);
    TrackerRefinesSet(events);
    forall v ensures (name, v) in Recorded(events) <==> v in vs {
      PairIn(After(events), name, v);
    }
    if vs != [] {
      assert vs[0] in vs;
    }
  }
}
