/** Concurrent fetches as a state machine: any number of callers inside `FetchVersion`
    (internal/downloader/fetch_manager.go) or inside a worker's `processTask` (internal/downloader/worker_pool.go),
    all of them retrying in `Download` (internal/downloader/http_downloader.go) on the same mirrors, with recovery
    ticks in between. One event is one action that the source does under a lock, or one transfer. An interleaving is
    a sequence of events; an event that names no caller, or one that is done, changes nothing but the clock. */
module FetchProtocol {
  import opened Fleets
  import opened Mirrors
  import opened Wrappers

  const SUCCESS_PENALTY := 0.5
  const FAILURE_PENALTY := 1.0
  const FETCHED_PENALTY := 0.3

  /** `Fetch` is a call of `FetchVersion`, `Pooled` one of `processTask`. */
  datatype Call = Fetch(name: string, version: string, path: string) | Pooled(path: string)

  /** `failures` counts the failed transfers. */
  datatype Outcome = Fetched(failures: nat) | Failed(failures: nat) | NoMirror | Rejected | Invalid

  datatype Pc =
    | Start
    | Claimed
    | Attempting(original: nat, attempt: nat)
    | Chosen(original: nat, attempt: nat, current: nat)
    | Transferring(original: nat, attempt: nat, current: nat)
    | Settling(original: nat, attempt: nat, current: nat, ok: bool)
    | Returned(original: nat, failures: nat, ok: bool)
    | Releasing(outcome: Outcome)
    | Done(outcome: Outcome)

  datatype Caller = Caller(call: Call, pc: Pc)

  datatype State = State(fleet: Fleet, inProgress: set<string>, callers: seq<Caller>, clock: real)

  datatype Config = Config(retries: nat, rate: real, boost: real -> real)

  /** `ok` is the outcome of the transfer when the event ends one, and is not used otherwise. */
  datatype Event = Run(caller: nat, now: real, ok: bool) | Tick

  function Key(name: string, version: string): string
  {
    name + ":" + version
  }

  // ---------- one action of one caller ----------

  function Finish(call: Call, outcome: Outcome): Pc
  {
    if call.Fetch? then Releasing(outcome) else Done(outcome)
  }

  /** Retries select anew and fall back to the original mirror. */
  function Rotate(cfg: Config, fleet: Fleet, original: nat, attempt: nat, now: real): nat
  {
    if attempt == 0 then original
    else match Selected(fleet, now, cfg.boost)
         case None => original
         case Some(i) => i
  }

  function NextPc(cfg: Config, s: State, c: Caller, now: real, ok: bool): Pc
  {
    match c.pc
    case Start =>
      if c.call.Pooled? then Claimed
      else if c.call.name == "" || c.call.version == "" then Done(Invalid)
      else if Key(c.call.name, c.call.version) in s.inProgress then Done(Rejected)
      else Claimed
    case Claimed =>
      (match Selected(s.fleet, now, cfg.boost)
       case None => Finish(c.call, NoMirror)
       case Some(i) => if c.call.path == "" then Returned(i, 0, false) else Attempting(i, 0))
    case Attempting(original, attempt) => Chosen(original, attempt, Rotate(cfg, s.fleet, original, attempt, now))
    case Chosen(original, attempt, current) => Transferring(original, attempt, current)
    case Transferring(original, attempt, current) => Settling(original, attempt, current, ok)
    case Settling(original, attempt, current, ok) =>
      if ok then Returned(original, attempt, true)
      else if attempt + 1 < cfg.retries then Attempting(original, attempt + 1)
      else Returned(original, attempt + 1, false)
    case Returned(_, failures, ok) => Finish(c.call, if ok then Fetched(failures) else Failed(failures))
    case Releasing(outcome) => Done(outcome)
    case Done(outcome) => Done(outcome)
  }

  /** The penalty that the action applies, if it applies one. */
  function Charge(c: Caller): Option<(nat, real)>
  {
    match c.pc
    case Settling(_, _, current, ok) => Some((current, if ok then SUCCESS_PENALTY else FAILURE_PENALTY))
    case Returned(original, _, ok) =>
      if c.call.Pooled? then None else Some((original, if ok then FETCHED_PENALTY else FAILURE_PENALTY))
    case _ => None
  }

  function AddInFlight(fleet: Fleet, i: nat): Fleet
    requires i < |fleet|
  {
    fleet[i := fleet[i].(inFlight := fleet[i].inFlight + 1)]
  }

  /** Decrements, but not below zero. */
  function RemoveInFlight(fleet: Fleet, i: nat): Fleet
    requires i < |fleet|
  {
    if fleet[i].inFlight > 0 then fleet[i := fleet[i].(inFlight := fleet[i].inFlight - 1)] else fleet
  }

  function NextFleet(fleet: Fleet, c: Caller, now: real): Fleet
    requires PcFits(c.pc, |fleet|)
  {
    if c.pc.Chosen? then AddInFlight(fleet, c.pc.current)
    else if c.pc.Transferring? then RemoveInFlight(fleet, c.pc.current)
    else match Charge(c)
         case None => fleet
         case Some((i, penalty)) => PenalizedAt(fleet, i, penalty, now)
  }

  function NextKeys(inProgress: set<string>, c: Caller): set<string>
  {
    if c.call.Pooled? then inProgress
    else
      var key := Key(c.call.name, c.call.version);
      match c.pc
      case Start => if c.call.name == "" || c.call.version == "" then inProgress else inProgress + {key}
      case Releasing(_) => inProgress - {key}
      case _ => inProgress
  }

  // ---------- runs ----------

  predicate PcFits(pc: Pc, n: nat)
  {
    match pc
    case Attempting(original, _) => original < n
    case Chosen(original, _, current) => original < n && current < n
    case Transferring(original, _, current) => original < n && current < n
    case Settling(original, _, current, _) => original < n && current < n
    case Returned(original, _, _) => original < n
    case _ => true
  }

  /** Callers name mirrors that exist. */
  ghost predicate Fits(s: State)
  {
    forall t :: 0 <= t < |s.callers| ==> PcFits(s.callers[t].pc, |s.fleet|)
  }

  function Later(clock: real, now: real): real
  {
    if now < clock then clock else now
  }

  function Apply(cfg: Config, s: State, e: Event): (s': State)
    requires Fits(s)
    ensures Fits(s') && |s'.fleet| == |s.fleet| && |s'.callers| == |s.callers|
  {
    match e
    case Tick => s.(fleet := Ticked(s.fleet, cfg.rate))
    case Run(t, at, ok) =>
      var now := Later(s.clock, at);
      if t >= |s.callers| then s.(clock := now)
      else
        var c := s.callers[t];
        State(NextFleet(s.fleet, c, now),
              NextKeys(s.inProgress, c),
              s.callers[t := c.(pc := NextPc(cfg, s, c, now, ok))],
              now)
  }

  function After(cfg: Config, s: State, events: seq<Event>): (s': State)
    requires Fits(s)
    ensures Fits(s') && |s'.fleet| == |s.fleet| && |s'.callers| == |s.callers|
  {
    if events == [] then s
    else Apply(cfg, After(cfg, s, events[..|events| - 1]), events[|events| - 1])
  }

  /** Nobody has started, and every weight is where the configuration allows it. */
  ghost predicate Initial(cfg: Config, s: State)
  {
    && cfg.retries >= 1 && IsRate(cfg.rate) && IsBoost(cfg.boost)
    && InRange(s.fleet) && UpTo(s.fleet, s.clock)
    && s.inProgress == {}
    && forall t :: 0 <= t < |s.callers| ==> s.callers[t].pc == Start
  }
}
