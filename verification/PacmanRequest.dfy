/** Reading a pacman request path and a package file name (internal/server/http_server.go). */
module PacmanRequest {
  import opened Text
  import opened Wrappers

  const EXTENSION := ".pkg.tar.zst"

  datatype ParseError = EmptyPath | InvalidRepoPath | InvalidPackagePath | NoArchSuffix | InvalidFormat | NoVersion

  /** `pkgName` and `version` are empty for repository files. */
  datatype Request = Request(repo: string, arch: string, filename: string, isRepoFile: bool,
                             pkgName: string, version: string)

  // ---------- package file names ----------

  predicate DigitLed(s: string)
  {
    |s| > 0 && '0' <= s[0] <= '9'
  }

  /** A version can start at a digit-led segment that has a nonempty name before it. */
  predicate Leads(parts: seq<string>, i: nat)
    requires i < |parts|
  {
    DigitLed(parts[i]) && (i > 1 || parts[0] != "")
  }

  /** The largest index in 1..i at which a version can start. */
  function VersionStart(parts: seq<string>, i: nat): (start: Option<nat>)
    requires i < |parts|
    ensures start.Some? ==> 1 <= start.value <= i
  {
    if i == 0 then None else if Leads(parts, i) then Some(i) else VersionStart(parts, i - 1)
  }

  function CutParts(parts: seq<string>): Result<(string, string), ParseError>
    requires |parts| >= 1
  {
    if |parts| < 2 then Err(InvalidFormat)
    else
      match VersionStart(parts, |parts| - 1)
      case None => Err(NoVersion)
      case Some(i) => Ok((Join(parts[..i], '-'), Join(parts[i..], '-')))
  }

  /** Cuts a base name, already without its architecture, into name and version. */
  function CutName(baseName: string): Result<(string, string), ParseError>
  {
    CutParts(Split(baseName, '-'))
  }

  function PackageName(filename: string, arch: string): Result<(string, string), ParseError>
  {
    var baseName := TrimSuffix(filename, EXTENSION);
    if !HasSuffix(baseName, "-" + arch) then Err(NoArchSuffix)
    else CutName(TrimSuffix(baseName, "-" + arch))
  }

  /** The backward search of the source. */
  method ParsePackageName(filename: string, arch: string) returns (r: Result<(string, string), ParseError>)
    ensures r == PackageName(filename, arch)
  {
    var baseName := TrimSuffix(filename, EXTENSION);
    var archSuffix := "-" + arch;
    if !HasSuffix(baseName, archSuffix) {
      return Err(NoArchSuffix);
    }
    baseName := TrimSuffix(baseName, archSuffix);
    var parts := Split(baseName, '-');
    if |parts| < 2 {
      return Err(InvalidFormat);
    }
    var i := |parts| - 1;
    while i > 0
      invariant 0 <= i < |parts|
      invariant VersionStart(parts, |parts| - 1) == VersionStart(parts, i)
    {
      if DigitLed(parts[i]) {
        var pkgName, version := Join(parts[..i], '-'), Join(parts[i..], '-');
        SidesOfCut(parts, i);
        if pkgName != "" && version != "" {
          return Ok((pkgName, version));
        }
      }
      i := i - 1;
    }
    return Err(NoVersion);
  }

  /** Led by a digit, with no later dash-separated segment that is. */
  ghost predicate IsVersion(version: string)
  {
    DigitLed(version) && forall j :: 1 <= j < |Split(version, '-')| ==> !DigitLed(Split(version, '-')[j])
  }

  /** A name and a version that a file name can be read as. */
  ghost predicate Pair(name: string, version: string)
  {
    name != "" && IsVersion(version)
  }

  function PrintName(name: string, version: string, arch: string): string
  {
    name + "-" + version + "-" + arch
  }

  lemma JoinEmpty(parts: seq<string>, c: char)
    requires parts != []
    ensures Join(parts, c) == "" <==> parts == [""]
  {
  }

  /** What is joined before and after a digit-led segment. */
  lemma SidesOfCut(parts: seq<string>, i: nat)
    requires 1 <= i < |parts| && DigitLed(parts[i])
    ensures Join(parts[i..], '-') != ""
    ensures Join(parts[..i], '-') != "" <==> Leads(parts, i)
  {
  }

  lemma {:induction false} VersionStartFinds(parts: seq<string>, i: nat)
    requires i < |parts|
    ensures match VersionStart(parts, i)
            case None => forall j :: 1 <= j <= i ==> !Leads(parts, j)
            case Some(k) => Leads(parts, k) && forall j :: k < j <= i ==> !Leads(parts, j)
  {
    if i == 0 {
    } else {
      VersionStartFinds(parts, i - 1);
    }
  }

  /** The first dash segment of a version leads with the same character as the version. */
  lemma SplitHead(v: string)
    ensures DigitLed(Split(v, '-')[0]) <==> DigitLed(v)
  {
  }

  /** Joined segments are a version exactly when the first leads with a digit and no other does. */
  lemma SegmentsOfVersion(segments: seq<string>)
    requires |segments| >= 1 && Free(segments, '-') && DigitLed(segments[0])
    requires forall j :: 1 <= j < |segments| ==> !DigitLed(segments[j])
    ensures IsVersion(Join(segments, '-'))
  {
    SplitJoin(segments, '-');
    SplitHead(Join(segments, '-'));
  }

  lemma NoLaterDigit(parts: seq<string>, k: nat)
    requires |parts| >= 1 && VersionStart(parts, |parts| - 1) == Some(k)
    ensures Leads(parts, k)
    ensures forall j :: 1 <= j < |parts[k..]| ==> !DigitLed(parts[k..][j])
  {
    VersionStartFinds(parts, |parts| - 1);
    forall j | 1 <= j < |parts[k..]| ensures !DigitLed(parts[k..][j]) {
      assert !Leads(parts, k + j);
    }
  }

  /** What is found splits the parts into a pair. */
  lemma FoundIsPair(parts: seq<string>, k: nat)
    requires |parts| >= 1 && Free(parts, '-') && VersionStart(parts, |parts| - 1) == Some(k)
    ensures Pair(Join(parts[..k], '-'), Join(parts[k..], '-'))
  {
    NoLaterDigit(parts, k);
    SidesOfCut(parts, k);
    SegmentsOfVersion(parts[k..]);
  }

  lemma CutJoins(parts: seq<string>, k: nat)
    requires 0 < k < |parts|
    ensures Join(parts, '-') == Join(parts[..k], '-') + "-" + Join(parts[k..], '-')
  {
    var front, back := parts[..k], parts[k..];
    assert front + back == parts;
    JoinSum(front, back, '-');
  }

  /** The search finds a last digit-led segment after a nonempty front. */
  lemma LastStarts(front: seq<string>, back: seq<string>)
    requires |front| >= 1 && front != [""] && |back| >= 1 && DigitLed(back[0])
    requires forall j :: 1 <= j < |back| ==> !DigitLed(back[j])
    ensures VersionStart(front + back, |front + back| - 1) == Some(|front|)
  {
    var parts := front + back;
    VersionStartFinds(parts, |parts| - 1);
    assert front[0] == "" && |front| == 1 ==> front == [""];
    assert parts[0] == front[0] && parts[|front|] == back[0];
    assert Leads(parts, |front|);
    forall j | |front| < j < |parts| ensures !Leads(parts, j) {
      assert parts[j] == back[j - |front|];
    }
  }

  lemma LastIsFound(front: seq<string>, back: seq<string>)
    requires |front| >= 1 && Join(front, '-') != "" && |back| >= 1 && DigitLed(back[0])
    requires forall j :: 1 <= j < |back| ==> !DigitLed(back[j])
    ensures CutParts(front + back) == Ok((Join(front, '-'), Join(back, '-')))
  {
    JoinEmpty(front, '-');
    LastStarts(front, back);
    assert (front + back)[..|front|] == front && (front + back)[|front|..] == back;
  }

  /** Every way to see the base name as a pair is what the search finds. */
  lemma PairIsFound(name: string, version: string)
    requires Pair(name, version)
    ensures CutName(name + "-" + version) == Ok((name, version))
  {
    SplitSum(name, version, '-');
    JoinSplit(name, '-');
    JoinSplit(version, '-');
    SplitHead(version);
    LastIsFound(Split(name, '-'), Split(version, '-'));
  }

  lemma CutNameExact(base: string, name: string, version: string)
    ensures CutName(base) == Ok((name, version)) <==> Pair(name, version) && base == name + "-" + version
  {
    var parts := Split(base, '-');
    if CutName(base).Ok? {
      JoinSplit(base, '-');
      FoundIsPair(parts, VersionStart(parts, |parts| - 1).value);
      CutJoins(parts, VersionStart(parts, |parts| - 1).value);
    }
    if Pair(name, version) && base == name + "-" + version {
      PairIsFound(name, version);
    }
  }

  lemma TwoSuffixes(base: string, arch: string, name: string, version: string)
    ensures base == PrintName(name, version, arch)
      <==> HasSuffix(base, "-" + arch) && TrimSuffix(base, "-" + arch) == name + "-" + version
  {
  }

  /** The parser is exact: it answers with a pair if and only if the name without its extension prints as that
      pair followed by the architecture. */
  lemma PackageNameExact(filename: string, arch: string, name: string, version: string)
    ensures PackageName(filename, arch) == Ok((name, version))
      <==> Pair(name, version) && TrimSuffix(filename, EXTENSION) == PrintName(name, version, arch)
  {
    var base := TrimSuffix(filename, EXTENSION);
    TwoSuffixes(base, arch, name, version);
    CutNameExact(TrimSuffix(base, "-" + arch), name, version);
  }

  /** The parser fails exactly on the names that are no pair followed by the architecture. */
  lemma PackageNameFails(filename: string, arch: string)
    ensures PackageName(filename, arch).Err?
      <==> forall name, version ::
             Pair(name, version) ==> TrimSuffix(filename, EXTENSION) != PrintName(name, version, arch)
  {
    forall name, version
      ensures PackageName(filename, arch) == Ok((name, version))
        <==> Pair(name, version) && TrimSuffix(filename, EXTENSION) == PrintName(name, version, arch)
    {
      PackageNameExact(filename, arch, name, version);
    }
    if PackageName(filename, arch).Ok? {
      var (name, version) := PackageName(filename, arch).value;
      assert Pair(name, version);
    }
  }

  /** Printing a pair as a package file name and parsing it gives the pair back. */
  lemma PackageNameRoundTrip(name: string, version: string, arch: string)
    requires Pair(name, version)
    ensures PackageName(PrintName(name, version, arch) + EXTENSION, arch) == Ok((name, version))
  {
    var filename := PrintName(name, version, arch) + EXTENSION;
    TrimSuffixOfSum(PrintName(name, version, arch), EXTENSION);
    PackageNameExact(filename, arch, name, version);
  }

  /** A file name `name-v-release-arch.pkg.tar.zst` is read as `(name, v-release)`, which the comment above the
      source's function promises for `linux-6.7.1-1`, if and only if the release is not led by a digit. When it
      is, as in that example, the release alone is taken for the version. */
  lemma ReleaseDecides(name: string, v: string, release: string, arch: string)
    requires Pair(name, v) && '-' !in release
    ensures var parsed := PackageName(PrintName(name, v + "-" + release, arch) + EXTENSION, arch);
            && (parsed == Ok((name, v + "-" + release)) <==> !DigitLed(release))
            && (DigitLed(release) ==> parsed == Ok((name + "-" + v, release)))
  {
    var version := v + "-" + release;
    SplitSum(v, release, '-');
    SplitFree(release, '-');
    var segments := Split(version, '-');
    assert segments == Split(v, '-') + [release];
    assert segments[|Split(v, '-')|] == release;
    if DigitLed(release) {
      assert PrintName(name, version, arch) == PrintName(name + "-" + v, release, arch);
      PackageNameRoundTrip(name + "-" + v, release, arch);
      assert |release| < |version|;
    } else {
      PackageNameRoundTrip(name, version, arch);
    }
  }

  lemma ExampleParts()
    ensures Pair("linux", "6.7.1") && DigitLed("1") && '-' !in "1"
    ensures "6.7.1" + "-" + "1" == "6.7.1-1" && "linux" + "-" + "6.7.1" == "linux-6.7.1"
  {
  }

  /** The file name in that comment is not read as `linux` and `6.7.1-1`. */
  lemma CommentExample()
    ensures PackageName(PrintName("linux", "6.7.1-1", "x86_64") + EXTENSION, "x86_64") == Ok(("linux-6.7.1", "1"))
  {
    ExampleParts();
    ReleaseDecides("linux", "6.7.1", "1", "x86_64");
  }

  /** The extension spelled out. */
  lemma ExtensionExample()
    ensures PackageName(PrintName("a", "1", "any") + ".pkg.tar.zst", "any") == Ok(("a", "1"))
  {
    SplitFree("1", '-');
    PackageNameRoundTrip("a", "1", "any");
  }

  // ---------- request paths ----------

  function Components(path: string): (parts: seq<string>)
    ensures |parts| >= 1
  {
    Split(Trim(path, '/'), '/')
  }

  function Parse(path: string): Result<Request, ParseError>
  {
    if path == "/" then Err(EmptyPath)
    else
      var parts := Components(path);
      var repo, filename := parts[0], parts[|parts| - 1];
      if !HasSuffix(filename, EXTENSION) then
        if |parts| < 3 || parts[1] != "os" then Err(InvalidRepoPath)
        else Ok(Request(repo, parts[2], filename, true, "", ""))
      else if |parts| < 4 || parts[1] != "os" then Err(InvalidPackagePath)
      else
        match PackageName(filename, parts[2])
        case Err(e) => Err(e)
        case Ok((pkgName, version)) => Ok(Request(repo, parts[2], filename, false, pkgName, version))
  }

  /** What the fields of a record say about one another: the file name of a package prints its name and version. */
  ghost predicate Coherent(r: Request)
  {
    if r.isRepoFile then !HasSuffix(r.filename, EXTENSION) && r.pkgName == "" && r.version == ""
    else Pair(r.pkgName, r.version) && r.filename == PrintName(r.pkgName, r.version, r.arch) + EXTENSION
  }

  lemma PackageFileExact(filename: string, arch: string, name: string, version: string)
    requires HasSuffix(filename, EXTENSION)
    ensures PackageName(filename, arch) == Ok((name, version))
      <==> Pair(name, version) && filename == PrintName(name, version, arch) + EXTENSION
  {
    PackageNameExact(filename, arch, name, version);
    TrimSuffixOfSum(PrintName(name, version, arch), EXTENSION);
    assert TrimSuffix(filename, EXTENSION) + EXTENSION == filename;
  }

  /** The reader is exact: it accepts a path with a record if and only if the record is coherent, the second component
      is `os`, the first, third and last are repository, architecture and file name, and a package has at least four. */
  lemma ParseExact(path: string, r: Request)
    ensures var parts := Components(path);
      Parse(path) == Ok(r) <==>
        && Coherent(r) && path != "/"
        && |parts| >= (if r.isRepoFile then 3 else 4)
        && parts[0] == r.repo && parts[1] == "os" && parts[2] == r.arch && parts[|parts| - 1] == r.filename
  {
    var parts := Components(path);
    var filename := parts[|parts| - 1];
    if HasSuffix(filename, EXTENSION) && |parts| >= 4 {
      PackageFileExact(filename, parts[2], r.pkgName, r.version);
      if PackageName(filename, parts[2]).Ok? {
        var (name, version) := PackageName(filename, parts[2]).value;
        PackageFileExact(filename, parts[2], name, version);
      }
    }
    if !r.isRepoFile {
      TrimSuffixOfSum(PrintName(r.pkgName, r.version, r.arch), EXTENSION);
    }
  }

  /** Where the file lives in the repository layout below the storage directory. */
  function LocalPath(r: Request): seq<string>
  {
    [r.repo, "os", r.arch, r.filename]
  }

  /** The path asked of a mirror. */
  function UpstreamPath(r: Request): string
  {
    r.repo + "/os/" + r.arch + "/" + r.filename
  }

  function Print(r: Request): string
  {
    "/" + UpstreamPath(r)
  }

  lemma UpstreamPathJoins(r: Request)
    ensures UpstreamPath(r) == Join(LocalPath(r), '/')
  {
    var p := LocalPath(r);
    assert p[3..] == [r.filename] && p[2..] == [r.arch] + p[3..] && p[1..] == ["os"] + p[2..] && p == [r.repo] + p[1..];
    JoinSum([r.arch], p[3..], '/');
    JoinSum(["os"], p[2..], '/');
    JoinSum([r.repo], p[1..], '/');
    assert UpstreamPath(r) == r.repo + ['/'] + ("os" + ['/'] + (r.arch + ['/'] + r.filename));
  }

  /** A string without slashes at its ends has no empty component at its ends. */
  lemma OuterComponents(t: string)
    requires t == [] || (t[0] != '/' && t[|t| - 1] != '/')
    requires |Split(t, '/')| >= 2
    ensures var parts := Split(t, '/'); parts[0] != "" && parts[|parts| - 1] != ""
  {
    var parts := Split(t, '/');
    var n := |parts|;
    JoinSplit(t, '/');
    JoinSum(parts[..1], parts[1..], '/');
    assert parts[..1] + parts[1..] == parts;
    JoinSum(parts[..n - 1], parts[n - 1..], '/');
    assert parts[..n - 1] + parts[n - 1..] == parts;
    assert t == parts[0] + ['/'] + Join(parts[1..], '/');
    assert t == Join(parts[..n - 1], '/') + ['/'] + parts[n - 1];
  }

  lemma CleanComponents(path: string)
    requires |Components(path)| >= 2
    ensures Free(Components(path), '/') && Components(path)[0] != "" && Components(path)[|Components(path)| - 1] != ""
  {
    var t := Trim(path, '/');
    JoinSplit(t, '/');
    TrimEnds(path, '/');
    OuterComponents(t);
  }

  /** The components of an accepted path hold no slash, and the first and the last are not empty. */
  lemma AcceptedComponents(path: string)
    requires Parse(path).Ok?
    ensures var r := Parse(path).value;
            && Free(LocalPath(r), '/')
            && r.repo != "" && r.filename != ""
  {
    CleanComponents(path);
    assert '/' !in "os";
  }

  /** Splitting the printed path gives back the four components. */
  lemma PrintedComponents(r: Request)
    requires Free(LocalPath(r), '/') && r.repo != "" && r.filename != ""
    ensures Components(Print(r)) == LocalPath(r)
  {
    var u := UpstreamPath(r);
    assert u[0] == r.repo[0] && u[|u| - 1] == r.filename[|r.filename| - 1];
    assert r.repo[0] != '/' by {
      assert '/' !in LocalPath(r)[0];
    }
    assert r.filename[|r.filename| - 1] != '/' by {
      assert '/' !in LocalPath(r)[3];
    }
    TrimFixed(u, '/');
    UpstreamPathJoins(r);
    SplitJoin(LocalPath(r), '/');
  }

  /** Every accepted path has a normal form that is read as the same request. A repository path of three
      components, whose architecture and file name coincide, and a path deeper than four components both
      reach it. */
  lemma Normalization(path: string)
    requires Parse(path).Ok?
    ensures Parse(Print(Parse(path).value)) == Parse(path)
  {
    var r := Parse(path).value;
    AcceptedComponents(path);
    PrintedComponents(r);
    assert |Print(r)| > 1;
  }

  /** Every coherent record can be asked for: printing it and reading the path gives it back. */
  lemma PrintedIsRead(r: Request)
    requires Coherent(r) && Free(LocalPath(r), '/') && r.repo != "" && r.filename != ""
    ensures Parse(Print(r)) == Ok(r)
  {
    PrintedComponents(r);
    ParseExact(Print(r), r);
    assert |Print(r)| > 1;
  }

  /** A path of four components is its own normal form, up to slashes at its ends. */
  lemma FourComponentsAreNormal(path: string)
    requires Parse(path).Ok? && |Components(path)| == 4
    ensures Print(Parse(path).value) == "/" + Trim(path, '/')
  {
    var r := Parse(path).value;
    var parts := Components(path);
    JoinSplit(Trim(path, '/'), '/');
    UpstreamPathJoins(r);
    assert parts == LocalPath(r);
  }

  /** The file looked up, the file stored and the file fetched are named alike: for accepted requests the mirror
      path, the disk path and the request itself determine one another. */
  lemma PathsAgree(path: string, path': string)
    requires Parse(path).Ok? && Parse(path').Ok?
    ensures var r, r' := Parse(path).value, Parse(path').value;
            && (UpstreamPath(r) == UpstreamPath(r') <==> LocalPath(r) == LocalPath(r'))
            && (UpstreamPath(r) == UpstreamPath(r') <==> r == r')
  {
    var r, r' := Parse(path).value, Parse(path').value;
    Normalization(path);
    Normalization(path');
    UpstreamPathJoins(r);
    UpstreamPathJoins(r');
    if LocalPath(r) == LocalPath(r') {
      assert Print(r) == Print(r');
    }
  }
}
