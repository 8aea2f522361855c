/** Request handlers as a state machine (internal/server/http_server.go): any number of requests, each looking for a
    file, fetching it on a miss, storing it in the repository layout and serving it, interleaved with one another
    and with additions, removals and retention passes on the same storage directory. */
module Gateway {
  import opened CacheRuns
  import opened Disks
  import opened PacmanRequest
  import opened Text
  import opened Wrappers

  /** `Served` is a response with status 200 that announces `length` bytes and transmits `body`. */
  datatype Response = Status(code: nat) | Served(length: nat, body: Bytes)

  datatype Pc =
    | Arrived
    | Missed(request: Request)
    | Fetched(request: Request, id: string)
    | Placing(request: Request, id: string)
    | Serving(request: Request)
    | Done(response: Response)

  /** `allowed` says whether the method is GET or HEAD. */
  datatype Handler = Handler(path: string, allowed: bool, pc: Pc)

  /** `canFetch` says whether there is a fetch manager; `upstream` is what every mirror holds. */
  datatype Config = Config(canFetch: bool, upstream: string -> Option<Bytes>)

  /** What one action meets: the system calls that go through, whether `FetchVersion` succeeds, the name of its
      temporary file, and how many bytes the client takes. */
  datatype Env = Env(statOk: bool, fetchOk: bool, id: string, mkdirOk: bool, renameOk: bool, openOk: bool, sent: nat)

  // ---------- one action of one handler ----------

  function Serve(d: Disk, p: Path, env: Env): Response
  {
    if !env.openOk then Status(500)
    else if p in d.files then
      var content := d.files[p];
      Served(|content|, if env.sent < |content| then content[..env.sent] else content)
    else if p in d.dirs then Status(200)
    else if Blocked(d, p) then Status(500)
    else Status(404)
  }

  function Looking(d: Disk, h: Handler, env: Env): Pc
  {
    if !h.allowed then Done(Status(405))
    else
      match Parse(h.path)
      case Err(_) => Done(Status(404))
      case Ok(r) => if Stat(d, LocalPath(r), env.statOk).Ok? then Serving(r) else Missed(r)
  }

  /** `FetchVersion` leaves a new temporary file with the content upstream. */
  function Fetching(cfg: Config, d: Disk, r: Request, env: Env): (Disk, Pc)
  {
    if !cfg.canFetch then (d, Done(Status(if r.isRepoFile then 404 else 503)))
    else
      var content := cfg.upstream(UpstreamPath(r));
      if env.fetchOk && content.Some? && !Exists(d, TempPath(env.id))
      then (d.(files := d.files[TempPath(env.id) := content.value]), Fetched(r, env.id))
      else (d, Done(Status(500)))
  }

  /** The two halves of `PutRepoFile`. */
  function MakingRoom(d: Disk, r: Request, id: string, env: Env): (Disk, Pc)
  {
    if r.repo == "" || r.filename == "" then (d, Done(Status(500)))
    else
      match MkdirAll(d, [r.repo, "os", r.arch], env.mkdirOk)
      case Err(_) => (d, Done(Status(500)))
      case Ok(made) => (made, Placing(r, id))
  }

  function Moving(d: Disk, r: Request, id: string, env: Env): (Disk, Pc)
  {
    match Rename(d, TempPath(id), LocalPath(r), env.renameOk)
    case Err(_) => (d, Done(Status(500)))
    case Ok(moved) => (moved, Serving(r))
  }

  function Step(cfg: Config, d: Disk, h: Handler, env: Env): (Disk, Pc)
  {
    match h.pc
    case Arrived => (d, Looking(d, h, env))
    case Missed(r) => Fetching(cfg, d, r, env)
    case Fetched(r, id) => MakingRoom(d, r, id, env)
    case Placing(r, id) => Moving(d, r, id, env)
    case Serving(r) => (d, Done(Serve(d, LocalPath(r), env)))
    case Done(_) => (d, h.pc)
  }

  // ---------- runs ----------

  datatype State = State(disk: Disk, handlers: seq<Handler>)

  datatype Event = Handle(i: nat, env: Env) | Other(op: Op)

  /** What else happens to the storage directory: additions of files inside it, and deletions. */
  predicate Meanwhile(op: Op)
  {
    Deletes(op) || (op.AddVersion? && Inside(op.src))
  }

  ghost function Apply(cfg: Config, s: State, e: Event): (s': State)
    ensures |s'.handlers| == |s.handlers|
  {
    match e
    case Handle(i, env) =>
      if i >= |s.handlers| then s
      else
        var (d, pc) := Step(cfg, s.disk, s.handlers[i], env);
        State(d, s.handlers[i := s.handlers[i].(pc := pc)])
    case Other(op) => if Meanwhile(op) then s.(disk := CacheRuns.Apply(s.disk, op)) else s
  }

  /** Deletions, and additions of files from inside the storage directory, happen in between, and touch no handler. */
  lemma OthersAct(cfg: Config, s: State, op: Op)
    requires Deletes(op) || (op.AddVersion? && Inside(op.src))
    ensures Apply(cfg, s, Other(op)) == s.(disk := CacheRuns.Apply(s.disk, op))
  {
  }

  ghost function After(cfg: Config, s: State, events: seq<Event>): (s': State)
    ensures |s'.handlers| == |s.handlers|
  {
    if events == [] then s else Apply(cfg, After(cfg, s, events[..|events| - 1]), events[|events| - 1])
  }

  // ---------- what the storage directory holds ----------

  /** The place of a file in the repository layout. */
  predicate InLayout(p: Path)
  {
    |p| == 4 && p[1] == "os"
  }

  /** Every file in the repository layout has the content that is upstream at its path. */
  ghost predicate Faithful(cfg: Config, d: Disk)
  {
    && Regular(d)
    && (forall p :: p in d.files && InLayout(p) ==> cfg.upstream(Join(p, '/')) == Some(d.files[p]))
    && (forall p :: p in d.dirs ==> !InLayout(p))
  }

  /** Every component of the request can name a directory entry. */
  predicate Accepted(path: string, r: Request)
  {
    Parse(path) == Ok(r) && Proper(LocalPath(r))
  }

  ghost predicate HoldsUpstream(cfg: Config, d: Disk, r: Request, id: string)
  {
    TempPath(id) in d.files && cfg.upstream(UpstreamPath(r)) == Some(d.files[TempPath(id)])
  }

  /** What was sent is the content upstream, or a beginning of it that is shorter than announced. */
  predicate Matches(content: Option<Bytes>, length: nat, body: Bytes)
  {
    content.Some? && length == |content.value| && body <= content.value
  }

  predicate Transparent(cfg: Config, path: string, length: nat, body: Bytes)
  {
    Parse(path).Ok? && Matches(cfg.upstream(UpstreamPath(Parse(path).value)), length, body)
  }

  ghost predicate HandlerSound(cfg: Config, d: Disk, h: Handler)
  {
    match h.pc
    case Arrived => Parse(h.path).Ok? ==> Proper(LocalPath(Parse(h.path).value))
    case Missed(r) => Accepted(h.path, r)
    case Fetched(r, id) => Accepted(h.path, r) && HoldsUpstream(cfg, d, r, id)
    case Placing(r, id) => Accepted(h.path, r) && HoldsUpstream(cfg, d, r, id)
    case Serving(r) => Accepted(h.path, r)
    case Done(Served(length, body)) => Transparent(cfg, h.path, length, body)
    case Done(Status(_)) => true
  }

  function Temp(pc: Pc): Option<string>
  {
    match pc
    case Fetched(_, id) => Some(id)
    case Placing(_, id) => Some(id)
    case _ => None
  }

  ghost predicate DistinctTemps(hs: seq<Handler>)
  {
    forall i, j :: 0 <= i < j < |hs| && Temp(hs[i].pc).Some? ==> Temp(hs[i].pc) != Temp(hs[j].pc)
  }

  ghost predicate Sound(cfg: Config, s: State)
  {
    && Faithful(cfg, s.disk)
    && (forall i :: 0 <= i < |s.handlers| ==> HandlerSound(cfg, s.disk, s.handlers[i]))
    && DistinctTemps(s.handlers)
  }

  // ---------- one action keeps it ----------

  lemma ServeMatches(cfg: Config, d: Disk, r: Request, env: Env)
    requires Faithful(cfg, d)
    ensures match Serve(d, LocalPath(r), env)
            case Served(length, body) => Matches(cfg.upstream(UpstreamPath(r)), length, body)
            case Status(code) => code != 200
  {
    UpstreamPathJoins(r);
    assert InLayout(LocalPath(r));
  }

  lemma MakingRoomFaithful(cfg: Config, d: Disk, r: Request, id: string, env: Env)
    requires Faithful(cfg, d) && Proper(LocalPath(r))
    ensures Faithful(cfg, MakingRoom(d, r, id, env).0)
    ensures MakingRoom(d, r, id, env).0.files == d.files
  {
    var dir := [r.repo, "os", r.arch];
    assert Proper(dir) by {
      forall k | 0 <= k < 3 ensures Component(dir[k]) {
        assert dir[k] == LocalPath(r)[k];
      }
    }
    if MkdirAll(d, dir, env.mkdirOk).Ok? {
      MkdirKeepsRegular(d, dir, env.mkdirOk);
    }
  }

  lemma MovingFaithful(cfg: Config, d: Disk, r: Request, id: string, env: Env)
    requires Faithful(cfg, d) && Proper(LocalPath(r)) && HoldsUpstream(cfg, d, r, id)
    ensures Faithful(cfg, Moving(d, r, id, env).0)
  {
    UpstreamPathJoins(r);
    if Rename(d, TempPath(id), LocalPath(r), env.renameOk).Ok? {
      RenameKeepsRegular(d, TempPath(id), LocalPath(r), env.renameOk);
    }
  }

  lemma FetchingFaithful(cfg: Config, d: Disk, r: Request, env: Env)
    requires Faithful(cfg, d)
    ensures Faithful(cfg, Fetching(cfg, d, r, env).0)
  {
  }

  lemma StepFaithful(cfg: Config, d: Disk, h: Handler, env: Env)
    requires Faithful(cfg, d) && HandlerSound(cfg, d, h)
    ensures Faithful(cfg, Step(cfg, d, h, env).0)
  {
    match h.pc
    case Missed(r) => FetchingFaithful(cfg, d, r, env);
    case Fetched(r, id) => MakingRoomFaithful(cfg, d, r, id, env);
    case Placing(r, id) => MovingFaithful(cfg, d, r, id, env);
    case _ =>
  }

  lemma LookingSound(cfg: Config, d: Disk, h: Handler, env: Env)
    requires h.pc == Arrived && HandlerSound(cfg, d, h)
    ensures HandlerSound(cfg, d, h.(pc := Looking(d, h, env)))
  {
  }

  lemma FetchingSound(cfg: Config, d: Disk, h: Handler, r: Request, env: Env)
    requires Accepted(h.path, r)
    ensures var (d', pc) := Fetching(cfg, d, r, env); HandlerSound(cfg, d', h.(pc := pc))
  {
  }

  lemma MakingRoomSound(cfg: Config, d: Disk, h: Handler, r: Request, id: string, env: Env)
    requires Accepted(h.path, r) && HoldsUpstream(cfg, d, r, id)
    ensures var (d', pc) := MakingRoom(d, r, id, env); HandlerSound(cfg, d', h.(pc := pc))
  {
  }

  lemma MovingSound(cfg: Config, d: Disk, h: Handler, r: Request, id: string, env: Env)
    requires Accepted(h.path, r)
    ensures var (d', pc) := Moving(d, r, id, env); HandlerSound(cfg, d', h.(pc := pc))
  {
  }

  /** The handler that acts stays sound. */
  lemma StepSound(cfg: Config, d: Disk, h: Handler, env: Env)
    requires Faithful(cfg, d) && HandlerSound(cfg, d, h)
    ensures var (d', pc) := Step(cfg, d, h, env); HandlerSound(cfg, d', h.(pc := pc))
  {
    match h.pc
    case Arrived => LookingSound(cfg, d, h, env);
    case Missed(r) => FetchingSound(cfg, d, h, r, env);
    case Fetched(r, id) => MakingRoomSound(cfg, d, h, r, id, env);
    case Placing(r, id) => MovingSound(cfg, d, h, r, id, env);
    case Serving(r) => ServeMatches(cfg, d, r, env);
    case Done(_) =>
  }

  /** A handler touches no temporary file but its own, and a new one is nobody's. */
  lemma StepTemps(cfg: Config, d: Disk, h: Handler, env: Env, id: string)
    requires Temp(h.pc) != Some(id) && TempPath(id) in d.files
    ensures var (d', pc) := Step(cfg, d, h, env);
      && TempPath(id) in d'.files && d'.files[TempPath(id)] == d.files[TempPath(id)]
      && Temp(pc) != Some(id)
  {
  }

  lemma OthersSound(cfg: Config, d: Disk, d': Disk, h: Handler)
    requires HandlerSound(cfg, d, h)
    requires Temp(h.pc).Some? ==>
      var p := TempPath(Temp(h.pc).value); p in d.files ==> p in d'.files && d'.files[p] == d.files[p]
    ensures HandlerSound(cfg, d', h)
  {
  }

  lemma HandleKeepsSound(cfg: Config, s: State, i: nat, env: Env)
    requires Sound(cfg, s) && i < |s.handlers|
    ensures Sound(cfg, Apply(cfg, s, Handle(i, env)))
  {
    var s' := Apply(cfg, s, Handle(i, env));
    StepFaithful(cfg, s.disk, s.handlers[i], env);
    StepSound(cfg, s.disk, s.handlers[i], env);
    forall j | 0 <= j < |s.handlers| && j != i
      ensures HandlerSound(cfg, s'.disk, s'.handlers[j])
      ensures Temp(s.handlers[j].pc).Some? ==> Temp(s'.handlers[i].pc) != Temp(s.handlers[j].pc)
    {
      if Temp(s.handlers[j].pc).Some? {
        StepTemps(cfg, s.disk, s.handlers[i], env, Temp(s.handlers[j].pc).value);
      }
      OthersSound(cfg, s.disk, s'.disk, s.handlers[j]);
    }
  }

  // ---------- other operations keep it ----------

  /** The temporary files of `d` are in `d'` with the same content. */
  ghost predicate KeepsTemps(d: Disk, d': Disk)
  {
    forall id :: TempPath(id) in d.files ==> TempPath(id) in d'.files && d'.files[TempPath(id)] == d.files[TempPath(id)]
  }

  lemma AddKeepsTemps(d: Disk, op: Op)
    requires op.AddVersion? && Inside(op.src)
    ensures KeepsTemps(d, CacheRuns.Apply(d, op))
  {
    if Legal(d, op) {
      AddFrame(d, op.name, op.version, op.src, op.addFaults);
    }
  }

  lemma AddFaithful(cfg: Config, d: Disk, op: Op)
    requires Faithful(cfg, d) && op.AddVersion? && Inside(op.src)
    ensures Faithful(cfg, CacheRuns.Apply(d, op))
  {
    StepKeepsRegular(d, op);
    if Legal(d, op) {
      AddFrame(d, op.name, op.version, op.src, op.addFaults);
    }
  }

  lemma DeleteFaithful(cfg: Config, d: Disk, op: Op)
    requires Faithful(cfg, d) && Deletes(op)
    ensures Faithful(cfg, CacheRuns.Apply(d, op)) && KeepsTemps(d, CacheRuns.Apply(d, op))
  {
    StepKeepsRegular(d, op);
    StepFrame(d, op);
  }

  lemma StepKeepsSound(cfg: Config, s: State, e: Event)
    requires Sound(cfg, s)
    ensures Sound(cfg, Apply(cfg, s, e))
  {
    match e
    case Handle(i, env) =>
      if i < |s.handlers| {
        HandleKeepsSound(cfg, s, i, env);
      }
    case Other(op) =>
      if Meanwhile(op) {
        if Deletes(op) {
          DeleteFaithful(cfg, s.disk, op);
        } else {
          AddFaithful(cfg, s.disk, op);
          AddKeepsTemps(s.disk, op);
        }
        forall j | 0 <= j < |s.handlers| ensures HandlerSound(cfg, Apply(cfg, s, e).disk, s.handlers[j]) {
          OthersSound(cfg, s.disk, Apply(cfg, s, e).disk, s.handlers[j]);
        }
      }
  }

  /** All requests have just arrived at a storage directory whose repository layout, if not empty, is faithful. */
  ghost predicate Initial(cfg: Config, s: State)
  {
    && Faithful(cfg, s.disk)
    && forall i :: 0 <= i < |s.handlers| ==> s.handlers[i].pc == Arrived && HandlerSound(cfg, s.disk, s.handlers[i])
  }

  lemma {:induction false} SoundAlways(cfg: Config, s: State, events: seq<Event>)
    requires Initial(cfg, s)
    ensures Sound(cfg, After(cfg, s, events))
  {
    if events == [] {
    } else {
      SoundAlways(cfg, s, events[..|events| - 1]);
      StepKeepsSound(cfg, After(cfg, s, events[..|events| - 1]), events[|events| - 1]);
    }
  }

  lemma {:induction false} RequestsStay(cfg: Config, s: State, events: seq<Event>, i: nat)
    requires i < |s.handlers|
    ensures var h := After(cfg, s, events).handlers[i];
      h.path == s.handlers[i].path && h.allowed == s.handlers[i].allowed
  {
    if events == [] {
    } else {
      RequestsStay(cfg, s, events[..|events| - 1], i);
    }
  }

  /** Cache transparency: in every interleaving of requests, fetches that fail, stores, additions and retention
      passes, a body that is served for a request is the content upstream at the path the request names, announced
      at its full length; if the transfer to the client breaks off it is a beginning of that content. */
  lemma Transparency(cfg: Config, s: State, events: seq<Event>, i: nat)
    requires Initial(cfg, s) && i < |s.handlers|
    ensures match After(cfg, s, events).handlers[i].pc
            case Done(Served(length, body)) => Transparent(cfg, s.handlers[i].path, length, body)
            case _ => true
  {
    SoundAlways(cfg, s, events);
    RequestsStay(cfg, s, events, i);
  }
}
