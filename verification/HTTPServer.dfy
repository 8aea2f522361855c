/** The handler of pacman requests as the source runs it when nothing else runs, its agreement with the concurrent state
    machine, and what it answers when nothing fails (internal/server/http_server.go). */
module HTTPServers {
  import opened Disks
  import opened FilesystemCaches
  import opened Gateway
  import opened PacmanRequest
  import opened Wrappers

  // ---------- one request, alone ----------

  /** The storage directory after a request that nothing interrupts, and its response. */
  function Handled(cfg: Config, d: Disk, path: string, allowed: bool, env: Env): (Disk, Response)
  {
    if !allowed then (d, Status(405))
    else
      match Parse(path)
      case Err(_) => (d, Status(404))
      case Ok(r) => Answered(cfg, d, r, env)
  }

  /** What is answered to a request that was read: a hit is served, a miss is fetched first. */
  function Answered(cfg: Config, d: Disk, r: Request, env: Env): (Disk, Response)
  {
    if Stat(d, LocalPath(r), env.statOk).Ok? then (d, Serve(d, LocalPath(r), env)) else Missing(cfg, d, r, env)
  }

  function Missing(cfg: Config, d: Disk, r: Request, env: Env): (Disk, Response)
  {
    match Fetching(cfg, d, r, env)
    case (fetched, Done(response)) => (fetched, response)
    case (fetched, _) => Storing(fetched, r, env)
  }

  function Storing(d: Disk, r: Request, env: Env): (Disk, Response)
  {
    var (stored, ok) := Stored(d, r.repo, r.arch, r.filename, TempPath(env.id), env.mkdirOk, env.renameOk);
    (stored, if ok then Serve(stored, LocalPath(r), env) else Status(500))
  }

  class HTTPServer {
    const cache: FilesystemCache
    const canFetch: bool
    const upstream: string -> Option<Bytes>

    constructor (cache: FilesystemCache, canFetch: bool, upstream: string -> Option<Bytes>)
      ensures this.cache == cache && this.canFetch == canFetch && this.upstream == upstream
    {
      this.cache := cache;
      this.canFetch := canFetch;
      this.upstream := upstream;
    }

    ghost function Settings(): Config
    {
      Config(canFetch, upstream)
    }

    method HandlePacmanRequest(path: string, allowed: bool, env: Env) returns (response: Response)
      requires WellFormed(cache.disk)
      requires Parse(path).Ok? ==> Proper(LocalPath(Parse(path).value))
      modifies cache
      ensures (cache.disk, response) == Handled(Settings(), old(cache.disk), path, allowed, env)
      ensures !allowed ==> response == Status(405)
      ensures allowed && Parse(path).Err? ==> response == Status(404)
    {
      if !allowed {
        return Status(405);
      }
      var parsed := Parse(path);
      if parsed.Err? {
        return Status(404);
      }
      var request := parsed.value;
      var hit := TryServeFromCache(LocalPath(request), env);
      if hit.Some? {
        return hit.value;
      }
      response := FetchAndServeFile(request, env);
    }

    method TryServeFromCache(localPath: Path, env: Env) returns (response: Option<Response>)
      ensures response == if Stat(cache.disk, localPath, env.statOk).Ok?
                          then Some(Serve(cache.disk, localPath, env)) else None
    {
      if Stat(cache.disk, localPath, env.statOk).Err? {
        return None;
      }
      var served := ServePackage(localPath, env);
      return Some(served);
    }

    method ServePackage(pkgPath: Path, env: Env) returns (response: Response)
      ensures response == Serve(cache.disk, pkgPath, env)
      ensures !env.openOk ==> response == Status(500)
      ensures env.openOk && pkgPath in cache.disk.files ==>
        var content := cache.disk.files[pkgPath];
        response == Served(|content|, content[..if env.sent < |content| then env.sent else |content|])
      ensures env.openOk && pkgPath !in cache.disk.files && pkgPath in cache.disk.dirs ==> response == Status(200)
      ensures env.openOk && !Exists(cache.disk, pkgPath) ==>
        response == Status(if Blocked(cache.disk, pkgPath) then 500 else 404)
    {
      if !env.openOk {
        return Status(500);
      }
      if pkgPath in cache.disk.dirs && pkgPath !in cache.disk.files {
        return Status(200);
      }
      if pkgPath !in cache.disk.files {
        return Status(if Blocked(cache.disk, pkgPath) then 500 else 404);
      }
      var content := cache.disk.files[pkgPath];
      var body: Bytes := [];
      while |body| < |content| && |body| < env.sent
        invariant |body| <= |content| && |body| <= env.sent && body == content[..|body|]
      {
        body := body + [content[|body|]];
      }
      assert |body| == |content| ==> body == content;
      return Served(|content|, body);
    }

    method FetchAndServeFile(request: Request, env: Env) returns (response: Response)
      requires WellFormed(cache.disk) && Proper(LocalPath(request))
      modifies cache
      ensures (cache.disk, response) == Missing(Settings(), old(cache.disk), request, env)
    {
      if !canFetch {
        return Status(if request.isRepoFile then 404 else 503);
      }
      var content := upstream(UpstreamPath(request));
      if !env.fetchOk || content.None? || Exists(cache.disk, TempPath(env.id)) {
        return Status(500);
      }
      cache.disk := cache.disk.(files := cache.disk.files[TempPath(env.id) := content.value]);
      NamesProper(request);
      var stored := cache.PutRepoFile(request.repo, request.arch, request.filename, TempPath(env.id),
                                      env.mkdirOk, env.renameOk);
      if stored.Err? {
        return Status(500);
      }
      response := ServePackage(stored.value, env);
    }
  }

  /** A path that is read is answered by what was read, and any other is not found. */
  lemma ReadIsAnswered(cfg: Config, d: Disk, path: string, env: Env)
    ensures Handled(cfg, d, path, false, env) == (d, Status(405))
    ensures Parse(path).Err? ==> Handled(cfg, d, path, true, env) == (d, Status(404))
    ensures forall r :: Parse(path) == Ok(r) ==> Handled(cfg, d, path, true, env) == Answered(cfg, d, r, env)
  {
  }

  /** What a miss comes to when something fails: without a fetch manager a repository file is not found and a package
      unavailable; a fetch that fails, and a file that cannot be stored, are errors of the server. */
  lemma MissStatuses(cfg: Config, d: Disk, r: Request, env: Env)
    requires WellFormed(d) && Proper(LocalPath(r)) && (!env.statOk || !Exists(d, LocalPath(r)))
    ensures var (d', response) := Answered(cfg, d, r, env);
      && (!cfg.canFetch ==> (d', response) == (d, Status(if r.isRepoFile then 404 else 503)))
      && (cfg.canFetch && (!env.fetchOk || cfg.upstream(UpstreamPath(r)).None?) ==> (d', response) == (d, Status(500)))
      && (cfg.canFetch && (!env.mkdirOk || !env.renameOk) ==> response == Status(500))
  {
  }

  lemma NamesProper(r: Request)
    requires Proper(LocalPath(r))
    ensures Component(r.repo) && Component(r.arch) && Component(r.filename)
  {
    assert LocalPath(r)[0] == r.repo && LocalPath(r)[2] == r.arch && LocalPath(r)[3] == r.filename;
  }

  // ---------- the sequential handler is a run of the machine ----------

  /** `n` actions of one handler in the same environment. */
  function Steps(cfg: Config, d: Disk, h: Handler, env: Env, n: nat): (Disk, Handler)
    decreases n
  {
    if n == 0 then (d, h)
    else
      var (d', pc) := Step(cfg, d, h, env);
      Steps(cfg, d', h.(pc := pc), env, n - 1)
  }

  lemma {:induction false} StepsStop(cfg: Config, d: Disk, h: Handler, env: Env, n: nat)
    requires h.pc.Done?
    ensures Steps(cfg, d, h, env, n) == (d, h)
    decreases n
  {
    if n == 0 {
    } else {
      StepsStop(cfg, d, h, env, n - 1);
    }
  }

  lemma StepsServe(cfg: Config, d: Disk, h: Handler, r: Request, env: Env, n: nat)
    requires h.pc == Serving(r) && n > 0
    ensures Steps(cfg, d, h, env, n) == (d, h.(pc := Done(Serve(d, LocalPath(r), env))))
  {
    StepsStop(cfg, d, h.(pc := Done(Serve(d, LocalPath(r), env))), env, n - 1);
  }

  lemma StepsStore(cfg: Config, d: Disk, h: Handler, r: Request, env: Env, n: nat)
    requires h.pc == Fetched(r, env.id) && n >= 3
    ensures var (d', response) := Storing(d, r, env); Steps(cfg, d, h, env, n) == (d', h.(pc := Done(response)))
  {
    var (made, pc) := MakingRoom(d, r, env.id, env);
    var h1 := h.(pc := pc);
    if pc.Done? {
      StepsStop(cfg, made, h1, env, n - 1);
    } else {
      var (moved, pc') := Moving(made, r, env.id, env);
      var h2 := h1.(pc := pc');
      assert Steps(cfg, made, h1, env, n - 1) == Steps(cfg, moved, h2, env, n - 2);
      if pc'.Done? {
        StepsStop(cfg, moved, h2, env, n - 2);
      } else {
        StepsServe(cfg, moved, h2, r, env, n - 2);
      }
    }
  }

  lemma StepsMiss(cfg: Config, d: Disk, h: Handler, r: Request, env: Env, n: nat)
    requires h.pc == Missed(r) && n >= 4
    ensures var (d', response) := Missing(cfg, d, r, env); Steps(cfg, d, h, env, n) == (d', h.(pc := Done(response)))
  {
    var (d', pc) := Fetching(cfg, d, r, env);
    if pc.Done? {
      StepsStop(cfg, d', h.(pc := pc), env, n - 1);
    } else {
      StepsStore(cfg, d', h.(pc := pc), r, env, n - 1);
    }
  }

  /** A handler that nobody interrupts is done after five actions, with the response of the sequential code. */
  lemma StepsHandle(cfg: Config, d: Disk, h: Handler, env: Env)
    requires h.pc == Arrived
    ensures var (d', response) := Handled(cfg, d, h.path, h.allowed, env);
      Steps(cfg, d, h, env, 5) == (d', h.(pc := Done(response)))
  {
    var pc := Looking(d, h, env);
    var h' := h.(pc := pc);
    assert Steps(cfg, d, h, env, 5) == Steps(cfg, d, h', env, 4);
    match pc
    case Missed(r) => StepsMiss(cfg, d, h', r, env, 4);
    case Serving(r) => StepsServe(cfg, d, h', r, env, 4);
    case Done(_) => StepsStop(cfg, d, h', env, 4);
  }

  lemma AfterOne(cfg: Config, s: State, events: seq<Event>, e: Event)
    ensures After(cfg, s, [e] + events) == After(cfg, Apply(cfg, s, e), events)
    decreases |events|
  {
    if events == [] {
      assert [e] + events == [e] && [e][..0] == [];
      assert After(cfg, s, [e]) == Apply(cfg, After(cfg, s, []), e);
    } else {
      AfterOne(cfg, s, events[..|events| - 1], e);
      assert ([e] + events)[..|events|] == [e] + events[..|events| - 1];
    }
  }

  lemma {:induction false} RunOfSteps(cfg: Config, s: State, i: nat, env: Env, n: nat)
    requires i < |s.handlers|
    ensures var (d, h) := Steps(cfg, s.disk, s.handlers[i], env, n);
      After(cfg, s, seq(n, _ => Handle(i, env))) == State(d, s.handlers[i := h])
    decreases n
  {
    var events := seq(n, _ => Handle(i, env));
    if n == 0 {
    } else {
      var s' := Apply(cfg, s, Handle(i, env));
      RunOfSteps(cfg, s', i, env, n - 1);
      assert events == [Handle(i, env)] + seq(n - 1, _ => Handle(i, env));
      AfterOne(cfg, s, seq(n - 1, _ => Handle(i, env)), Handle(i, env));
    }
  }

  /** The sequential code is a run of the machine. */
  lemma HandlerIsRun(cfg: Config, s: State, i: nat, env: Env)
    requires i < |s.handlers| && s.handlers[i].pc == Arrived
    ensures var (d, response) := Handled(cfg, s.disk, s.handlers[i].path, s.handlers[i].allowed, env);
      After(cfg, s, seq(5, _ => Handle(i, env))) == State(d, s.handlers[i := s.handlers[i].(pc := Done(response))])
  {
    RunOfSteps(cfg, s, i, env, 5);
    StepsHandle(cfg, s.disk, s.handlers[i], env);
  }

  // ---------- without faults the cache is invisible ----------

  /** Every system call goes through, the temporary file is new, and the client takes the whole response. */
  predicate Smooth(d: Disk, content: Option<Bytes>, env: Env)
  {
    && env.statOk && env.fetchOk && env.mkdirOk && env.renameOk && env.openOk
    && !Exists(d, TempPath(env.id))
    && (content.Some? ==> |content.value| <= env.sent)
  }

  /** What a server without a cache answers: the content upstream, or that the fetch failed. */
  function Direct(cfg: Config, r: Request): Response
  {
    match cfg.upstream(UpstreamPath(r))
    case None => Status(500)
    case Some(content) => Served(|content|, content)
  }

  /** Where no file blocks the way, a fetched file is stored and served whole. */
  lemma StoringServes(d: Disk, r: Request, env: Env)
    requires env.mkdirOk && env.renameOk && env.openOk && r.repo != "" && r.filename != ""
    requires TempPath(env.id) in d.files && |d.files[TempPath(env.id)]| <= env.sent && LocalPath(r) !in d.dirs
    ensures var content := d.files[TempPath(env.id)];
      Storing(d, r, env).1 == if Blocked(d, LocalPath(r)) then Status(500) else Served(|content|, content)
  {
    var dir, p := [r.repo, "os", r.arch], LocalPath(r);
    assert forall k | 0 <= k <= 3 :: p[..k] == dir[..k];
    assert dir[..3] == dir && p[..3] == dir;
    assert Blocked(d, p) <==> dir in d.files || Blocked(d, dir);
  }

  lemma {:induction false} PrefixIsDir(d: Disk, p: Path, k: nat)
    requires WellFormed(d) && Exists(d, p) && Inside(p) && k < |p|
    ensures p[..k] in d.dirs
    decreases |p|
  {
    if k == |p| - 1 {
    } else {
      PrefixIsDir(d, p[..|p| - 1], k);
      assert p[..|p| - 1][..k] == p[..k];
    }
  }

  lemma HitIsDirect(cfg: Config, d: Disk, r: Request, env: Env)
    requires Faithful(cfg, d) && Proper(LocalPath(r)) && Exists(d, LocalPath(r))
    requires Smooth(d, cfg.upstream(UpstreamPath(r)), env)
    ensures Serve(d, LocalPath(r), env) == Direct(cfg, r) && !Blocked(d, LocalPath(r))
  {
    UpstreamPathJoins(r);
    assert InLayout(LocalPath(r));
    NamesProper(r);
    forall k | 0 <= k < 4 ensures LocalPath(r)[..k] !in d.files {
      PrefixIsDir(d, LocalPath(r), k);
    }
  }

  /** The temporary file blocks no path. */
  lemma TempBlocksNothing(d: Disk, id: string, content: Bytes, p: Path)
    requires Inside(p) && [] !in d.files
    ensures Blocked(d.(files := d.files[TempPath(id) := content]), p) <==> Blocked(d, p)
  {
  }

  lemma MissIsDirect(cfg: Config, d: Disk, r: Request, env: Env)
    requires Faithful(cfg, d) && Proper(LocalPath(r)) && cfg.canFetch && !Exists(d, LocalPath(r))
    requires Smooth(d, cfg.upstream(UpstreamPath(r)), env)
    ensures var content := cfg.upstream(UpstreamPath(r));
      Missing(cfg, d, r, env).1
        == if content.None? || Blocked(d, LocalPath(r)) then Status(500) else Served(|content.value|, content.value)
  {
    NamesProper(r);
    var content := cfg.upstream(UpstreamPath(r));
    if content.Some? {
      TempBlocksNothing(d, env.id, content.value, LocalPath(r));
      StoringServes(d.(files := d.files[TempPath(env.id) := content.value]), r, env);
    }
  }

  /** Serving through the cache refines fetching directly: where nothing fails, the response does not depend on what
      the cache holds, unless a file stands where the layout needs a directory; then a file that is upstream is not
      served. */
  lemma CacheIsInvisible(cfg: Config, d: Disk, r: Request, env: Env)
    requires Faithful(cfg, d) && cfg.canFetch && Proper(LocalPath(r))
    requires Smooth(d, cfg.upstream(UpstreamPath(r)), env)
    ensures Answered(cfg, d, r, env).1 == Direct(cfg, r)
      <==> !Blocked(d, LocalPath(r)) || cfg.upstream(UpstreamPath(r)) == None
  {
    if Exists(d, LocalPath(r)) {
      HitIsDirect(cfg, d, r, env);
    } else {
      MissIsDirect(cfg, d, r, env);
    }
  }

  // ---------- nothing is ever blocked ----------

  /** No file inside the storage directory stands where the repository layout needs a directory. */
  ghost predicate Clear(d: Disk)
  {
    forall p :: p in d.files && Inside(p) ==> !InTheWay(p)
  }

  predicate InTheWay(p: Path)
  {
    |p| == 1 || (2 <= |p| <= 3 && p[1] == "os")
  }

  lemma ClearBlocksNothing(d: Disk, r: Request)
    requires WellFormed(d) && Clear(d) && Proper(LocalPath(r))
    ensures !Blocked(d, LocalPath(r))
  {
    NamesProper(r);
    forall k | 0 < k < 4 ensures LocalPath(r)[..k] !in d.files {
      assert InTheWay(LocalPath(r)[..k]);
    }
  }

  lemma HandlerKeepsClear(cfg: Config, d: Disk, h: Handler, env: Env)
    requires Clear(d)
    ensures Clear(Step(cfg, d, h, env).0)
  {
    var d' := Step(cfg, d, h, env).0;
    forall p | p in d'.files && p !in d.files ensures |p| == 4 || !Inside(p) {
    }
  }

  lemma OtherKeepsClear(d: Disk, op: CacheRuns.Op)
    requires CacheRuns.Regular(d) && Clear(d) && Meanwhile(op)
    ensures Clear(CacheRuns.Apply(d, op))
  {
    if CacheRuns.Deletes(op) {
      CacheRuns.StepFrame(d, op);
    } else if CacheRuns.Legal(d, op) {
      CacheRuns.AddFrame(d, op.name, op.version, op.src, op.addFaults);
      assert |FileName(op.name, op.version)| > 2;
    }
  }

  lemma StepKeepsClear(cfg: Config, s: State, e: Event)
    requires Sound(cfg, s) && Clear(s.disk)
    ensures Clear(Apply(cfg, s, e).disk)
  {
    match e
    case Handle(i, env) =>
      if i < |s.handlers| {
        HandlerKeepsClear(cfg, s.disk, s.handlers[i], env);
      }
    case Other(op) =>
      if Meanwhile(op) {
        OtherKeepsClear(s.disk, op);
      }
  }

  lemma {:induction false} ClearAlways(cfg: Config, s: State, events: seq<Event>)
    requires Initial(cfg, s) && Clear(s.disk)
    ensures Clear(After(cfg, s, events).disk)
  {
    if events == [] {
    } else {
      SoundAlways(cfg, s, events[..|events| - 1]);
      ClearAlways(cfg, s, events[..|events| - 1]);
      StepKeepsClear(cfg, After(cfg, s, events[..|events| - 1]), events[|events| - 1]);
    }
  }

  /** So the exception never comes about by itself: after any run from a storage directory without such files, a request
      that meets no failure is answered as a server without a cache answers it. */
  lemma InvisibleAlways(cfg: Config, s: State, events: seq<Event>, r: Request, env: Env)
    requires Initial(cfg, s) && Clear(s.disk) && cfg.canFetch && Proper(LocalPath(r))
    requires Smooth(After(cfg, s, events).disk, cfg.upstream(UpstreamPath(r)), env)
    ensures Answered(cfg, After(cfg, s, events).disk, r, env).1 == Direct(cfg, r)
  {
    SoundAlways(cfg, s, events);
    ClearAlways(cfg, s, events);
    ClearBlocksNothing(After(cfg, s, events).disk, r);
    CacheIsInvisible(cfg, After(cfg, s, events).disk, r, env);
  }

  lemma OneFile(cfg: Config, name: string)
    requires Component(name)
    ensures Faithful(cfg, Disk(map[[name] := []], {[]}))
  {
    assert [name][..0] == [];
  }

  /** A storage directory with a single file that is named as a repository: nothing of that repository is served,
      whatever is upstream. */
  lemma BlockedExample(cfg: Config, r: Request, env: Env)
    requires cfg.canFetch && Proper(LocalPath(r)) && cfg.upstream(UpstreamPath(r)).Some?
    requires Smooth(Disk(map[[r.repo] := []], {[]}), cfg.upstream(UpstreamPath(r)), env)
    ensures var d := Disk(map[[r.repo] := []], {[]});
      Faithful(cfg, d) && Answered(cfg, d, r, env).1 == Status(500) != Direct(cfg, r)
  {
    var d := Disk(map[[r.repo] := []], {[]});
    NamesProper(r);
    OneFile(cfg, r.repo);
    assert LocalPath(r)[..1] == [r.repo];
    MissIsDirect(cfg, d, r, env);
  }

  // ---------- what is cached stays cached ----------

  predicate AddsNothing(e: Event)
  {
    e.Handle? || CacheRuns.Deletes(e.op)
  }

  lemma HandlerKeepsLayout(cfg: Config, d: Disk, h: Handler, env: Env, p: Path)
    requires InLayout(p) && p in d.files
    ensures p in Step(cfg, d, h, env).0.files
  {
  }

  lemma OtherKeepsLayout(d: Disk, op: CacheRuns.Op, p: Path)
    requires CacheRuns.Regular(d) && CacheRuns.Deletes(op) && InLayout(p) && p in d.files
    ensures p in CacheRuns.Apply(d, op).files
  {
  }

  lemma StepKeepsLayout(cfg: Config, s: State, e: Event, p: Path)
    requires Sound(cfg, s) && AddsNothing(e) && InLayout(p) && p in s.disk.files
    ensures p in Apply(cfg, s, e).disk.files
  {
    match e
    case Handle(i, env) =>
      if i < |s.handlers| {
        HandlerKeepsLayout(cfg, s.disk, s.handlers[i], env, p);
      }
    case Other(op) => OtherKeepsLayout(s.disk, op, p);
  }

  lemma {:induction false} LayoutStays(cfg: Config, s: State, events: seq<Event>, p: Path)
    requires Sound(cfg, s) && InLayout(p) && p in s.disk.files
    requires forall i :: 0 <= i < |events| ==> AddsNothing(events[i])
    ensures Sound(cfg, After(cfg, s, events)) && p in After(cfg, s, events).disk.files
  {
    if events == [] {
    } else {
      var before := After(cfg, s, events[..|events| - 1]);
      LayoutStays(cfg, s, events[..|events| - 1], p);
      StepKeepsSound(cfg, before, events[|events| - 1]);
      StepKeepsLayout(cfg, before, events[|events| - 1], p);
    }
  }

  /** What the repository layout holds is served from then on without asking a mirror, whatever requests, fetches and
      retention passes come in between. */
  lemma ServedAgain(cfg: Config, s: State, events: seq<Event>, r: Request, offline: Config, env: Env)
    requires Sound(cfg, s) && LocalPath(r) in s.disk.files
    requires forall i :: 0 <= i < |events| ==> AddsNothing(events[i])
    requires env.statOk && env.openOk && |s.disk.files[LocalPath(r)]| <= env.sent
    ensures Answered(offline, After(cfg, s, events).disk, r, env) == (After(cfg, s, events).disk, Direct(cfg, r))
  {
    LayoutStays(cfg, s, events, LocalPath(r));
    UpstreamPathJoins(r);
  }
}
