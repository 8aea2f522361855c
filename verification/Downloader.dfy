/** `Download` and `FetchVersion` as the source runs them when nothing else runs
    (internal/downloader/http_downloader.go, internal/downloader/fetch_manager.go), and their agreement with the
    concurrent state machine. */
module Downloader {
  import opened FetchProtocol
  import opened Fleets
  import opened Mirrors
  import opened Scheduler
  import opened VersionTracker
  import opened Wrappers

  /** What a call meets: whether each attempt's transfer succeeds, and the clock readings it makes. */
  datatype Env = Env(transfer: nat -> bool, startAt: real, selectAt: nat -> real, settleAt: nat -> real, endAt: real)

  /** What `Download` leaves behind. */
  datatype DownloadResult = DownloadResult(fleet: Fleet, clock: real, failures: nat, ok: bool)

  /** The mirrors, the clock and the outcome after one attempt. */
  function Attempted(cfg: Config, fleet: Fleet, original: nat, attempt: nat, env: Env, clock: real)
    : (r: (Fleet, real, bool))
    requires original < |fleet|
    ensures |r.0| == |fleet|
  {
    var now := Later(clock, env.selectAt(attempt));
    var current := Rotate(cfg, fleet, original, attempt, now);
    var settled := Later(now, env.settleAt(attempt));
    var ok := env.transfer(attempt);
    (PenalizedAt(fleet, current, if ok then SUCCESS_PENALTY else FAILURE_PENALTY, settled), settled, ok)
  }

  /** The retry loop from `attempt` on: it succeeds with the first transfer that does, and fails after the last. */
  function Attempts(cfg: Config, fleet: Fleet, original: nat, attempt: nat, env: Env, clock: real): (r: DownloadResult)
    requires original < |fleet| && attempt < cfg.retries
    ensures |r.fleet| == |fleet| && attempt <= r.failures <= cfg.retries
    ensures forall a :: attempt <= a < r.failures ==> !env.transfer(a)
    ensures if r.ok then r.failures < cfg.retries && env.transfer(r.failures) else r.failures == cfg.retries
    decreases cfg.retries - attempt
  {
    var (fleet', settled, ok) := Attempted(cfg, fleet, original, attempt, env, clock);
    if ok then DownloadResult(fleet', settled, attempt, true)
    else if attempt + 1 < cfg.retries then Attempts(cfg, fleet', original, attempt + 1, env, settled)
    else DownloadResult(fleet', settled, attempt + 1, false)
  }

  /** What is left to do before `attempt`. */
  function Rest(cfg: Config, fleet: Fleet, original: nat, attempt: nat, env: Env, clock: real): DownloadResult
    requires original < |fleet| && attempt <= cfg.retries
  {
    if attempt < cfg.retries then Attempts(cfg, fleet, original, attempt, env, clock)
    else DownloadResult(fleet, clock, attempt, false)
  }

  lemma RestStep(cfg: Config, fleet: Fleet, original: nat, attempt: nat, env: Env, clock: real)
    requires original < |fleet| && attempt < cfg.retries
    ensures var (fleet', settled, ok) := Attempted(cfg, fleet, original, attempt, env, clock);
      Rest(cfg, fleet, original, attempt, env, clock)
        == if ok then DownloadResult(fleet', settled, attempt, true)
           else Rest(cfg, fleet', original, attempt + 1, env, settled)
  {
  }

  /** The mirror that an attempt uses and penalizes. A retry takes the first best mirror of that moment; the first
      attempt, and a retry when no mirror has weight, take the original. */
  lemma AttemptRotates(cfg: Config, fleet: Fleet, original: nat, attempt: nat, env: Env, clock: real)
    requires original < |fleet| && IsBoost(cfg.boost) && UpTo(fleet, clock)
    ensures var now := Later(clock, env.selectAt(attempt));
            var (fleet', settled, ok) := Attempted(cfg, fleet, original, attempt, env, clock);
            var penalty := if env.transfer(attempt) then 0.5 else 1.0;
            && ok == env.transfer(attempt) && settled >= now >= clock
            && (env.selectAt(attempt) >= clock ==> now == env.selectAt(attempt))
            && (env.settleAt(attempt) >= now ==> settled == env.settleAt(attempt))
            && (attempt == 0 || NoWeight(fleet) ==> fleet' == PenalizedAt(fleet, original, penalty, settled))
            && forall i: nat :: attempt > 0 && FirstBest(fleet, i, now, cfg.boost) ==>
                             fleet' == PenalizedAt(fleet, i, penalty, settled)
  {
    var now := Later(clock, env.selectAt(attempt));
    StillUpTo(fleet, clock, now);
    forall i: nat | FirstBest(fleet, i, now, cfg.boost) ensures Selected(fleet, now, cfg.boost) == Some(i) {
      SelectionByMerit(fleet, i, now, cfg.boost);
    }
    SelectionByMerit(fleet, 0, now, cfg.boost);
  }

  function Downloaded(cfg: Config, fleet: Fleet, original: nat, path: string, env: Env, clock: real): DownloadResult
    requires original < |fleet| && cfg.retries >= 1
  {
    if path == "" then DownloadResult(fleet, clock, 0, false) else Attempts(cfg, fleet, original, 0, env, clock)
  }

  class HTTPDownloader {
    const selector: WeightedSelector
    var retries: nat

    /** Fewer than one retry means three. */
    constructor (selector: WeightedSelector, maxRetries: int)
      ensures this.selector == selector
      ensures retries == if maxRetries < 1 then 3 else maxRetries
    {
      this.selector := selector;
      retries := if maxRetries < 1 then 3 else maxRetries;
    }

    method SetRetries(count: int)
      modifies this
      ensures retries == if count > 0 then count else old(retries)
    {
      if count > 0 {
        retries := count;
      }
    }

    ghost function Limits(): Config
      reads this
    {
      Config(retries, DEFAULT_RATE, selector.boost)
    }

    /** The counter is up during the transfer and back afterwards. */
    method DownloadFromMirror(m: Mirror, transferred: bool) returns (ok: bool)
      modifies m`inFlightDownloads
      ensures m.inFlightDownloads == old(m.inFlightDownloads)
      ensures ok == transferred
    {
      m.AddInFlightDownload();
      ok := transferred;
      m.RemoveInFlightDownload();
    }

    /** The mirror of an attempt: a retry selects anew, and falls back to the original. */
    method MirrorFor(m: Mirror, attempt: nat, now: real, ghost original: nat)
      returns (currentMirror: Mirror, ghost current: nat)
      requires original < |selector.mirrors| && selector.mirrors[original] == m
      ensures current == Rotate(Limits(), selector.View(), original, attempt, now) < |selector.mirrors|
      ensures currentMirror == selector.mirrors[Rotate(Limits(), selector.View(), original, attempt, now)]
    {
      currentMirror, current := m, original;
      if attempt > 0 {
        var selected, index := selector.Select(now);
        if selected.Ok? {
          currentMirror, current := selected.value, index;
        }
      }
    }

    /** One round of the retry loop: choose a mirror, transfer, penalize. */
    method Attempt(m: Mirror, attempt: nat, env: Env, clock: real, ghost original: nat) returns (ok: bool, now: real)
      requires selector.Distinct() && original < |selector.mirrors| && selector.mirrors[original] == m
      modifies selector.mirrors
      ensures (selector.View(), now, ok) == Attempted(Limits(), old(selector.View()), original, attempt, env, clock)
    {
      now := Later(clock, env.selectAt(attempt));
      var currentMirror, current := MirrorFor(m, attempt, now, original);
      ok := DownloadFromMirror(currentMirror, env.transfer(attempt));
      now := Later(now, env.settleAt(attempt));
      if ok {
        selector.Penalize(currentMirror, SUCCESS_PENALTY, now);
      } else {
        selector.Penalize(currentMirror, FAILURE_PENALTY, now);
      }
    }

    /** `original` is the place of `m` among the selector's mirrors. */
    method Download(m: Mirror, pkgPath: string, env: Env, clock: real, ghost original: nat)
      returns (ok: bool, now: real, failures: nat)
      requires retries >= 1 && selector.Distinct()
      requires original < |selector.mirrors| && selector.mirrors[original] == m
      modifies selector.mirrors
      ensures DownloadResult(selector.View(), now, failures, ok)
           == Downloaded(Limits(), old(selector.View()), original, pkgPath, env, clock)
    {
      now, failures := clock, 0;
      if pkgPath == "" {
        return false, now, failures;
      }
      ghost var expected := Attempts(Limits(), selector.View(), original, 0, env, clock);
      var attempt := 0;
      while attempt < retries
        invariant 0 <= attempt <= retries && failures == attempt
        invariant expected == Rest(Limits(), selector.View(), original, attempt, env, now)
      {
        RestStep(Limits(), selector.View(), original, attempt, env, now);
        ok, now := Attempt(m, attempt, env, now, original);
        if ok {
          return true, now, attempt;
        }
        attempt := attempt + 1;
        failures := attempt;
      }
      return false, now, failures;
    }
  }

  // ---------- FetchVersion ----------

  /** What `FetchVersion` leaves behind, besides the recorded keys, which it leaves as they were. */
  datatype FetchResult = FetchResult(fleet: Fleet, clock: real, outcome: Outcome)

  function FetchedVersion(cfg: Config, fleet: Fleet, inProgress: set<string>, name: string, version: string,
                          path: string, env: Env, clock: real): FetchResult
    requires cfg.retries >= 1
  {
    if name == "" || version == "" then FetchResult(fleet, clock, Invalid)
    else if Key(name, version) in inProgress then FetchResult(fleet, clock, Rejected)
    else FetchedClaimed(cfg, fleet, path, env, clock)
  }

  function FetchedClaimed(cfg: Config, fleet: Fleet, path: string, env: Env, clock: real): FetchResult
    requires cfg.retries >= 1
  {
    var now := Later(clock, env.startAt);
    match Selected(fleet, now, cfg.boost)
    case None => FetchResult(fleet, now, NoMirror)
    case Some(i) => FetchedFrom(cfg, fleet, i, path, env, now)
  }

  function FetchedFrom(cfg: Config, fleet: Fleet, i: nat, path: string, env: Env, clock: real): FetchResult
    requires cfg.retries >= 1 && i < |fleet|
  {
    var d := Downloaded(cfg, fleet, i, path, env, clock);
    var end := Later(d.clock, env.endAt);
    FetchResult(PenalizedAt(d.fleet, i, if d.ok then FETCHED_PENALTY else FAILURE_PENALTY, end), end,
                if d.ok then Fetched(d.failures) else Failed(d.failures))
  }

  /** What a download came to: the first transfer that succeeds, or as many failures as there are retries. */
  ghost predicate OutcomeOf(cfg: Config, path: string, env: Env, outcome: Outcome)
  {
    match outcome
    case Fetched(k) => path != "" && k < cfg.retries && env.transfer(k) && forall a :: 0 <= a < k ==> !env.transfer(a)
    case Failed(k) => if path == "" then k == 0 else k == cfg.retries && forall a :: 0 <= a < k ==> !env.transfer(a)
    case _ => false
  }

  /** What `FetchVersion` comes to. Without name or version, or with the key in progress, nothing happens; without
      weight there is no mirror. Otherwise it downloads from the first best mirror of that moment, and penalizes it
      once more. */
  lemma FetchOutcome(cfg: Config, fleet: Fleet, inProgress: set<string>, name: string, version: string,
                     path: string, env: Env, clock: real)
    requires cfg.retries >= 1 && IsBoost(cfg.boost) && UpTo(fleet, clock)
    ensures var f := FetchedVersion(cfg, fleet, inProgress, name, version, path, env, clock);
            var now := Later(clock, env.startAt);
            && (name == "" || version == "" ==> f == FetchResult(fleet, clock, Invalid))
            && (name != "" && version != "" && name + ":" + version in inProgress
                ==> f == FetchResult(fleet, clock, Rejected))
            && (name != "" && version != "" && name + ":" + version !in inProgress ==>
                  && (NoWeight(fleet) ==> f == FetchResult(fleet, now, NoMirror))
                  && (!NoWeight(fleet) ==> OutcomeOf(cfg, path, env, f.outcome))
                  && forall i: nat :: FirstBest(fleet, i, now, cfg.boost) ==>
                       f.fleet == PenalizedAt(Downloaded(cfg, fleet, i, path, env, now).fleet, i,
                                              if f.outcome.Fetched? then 0.3 else 1.0, f.clock))
  {
    var now := Later(clock, env.startAt);
    StillUpTo(fleet, clock, now);
    forall i: nat ensures Selected(fleet, now, cfg.boost) == Some(i) <==> FirstBest(fleet, i, now, cfg.boost) {
      SelectionByMerit(fleet, i, now, cfg.boost);
    }
    SelectionByMerit(fleet, 0, now, cfg.boost);
  }

  class FetchManager {
    const downloader: HTTPDownloader
    const selector: WeightedSelector
    const tracker: InMemoryTracker
    var inProgress: set<string>

    constructor (downloader: HTTPDownloader, tracker: InMemoryTracker)
      ensures this.downloader == downloader && selector == downloader.selector && this.tracker == tracker
      ensures inProgress == {}
    {
      this.downloader := downloader;
      selector := downloader.selector;
      this.tracker := tracker;
      inProgress := {};
    }

    method IsInProgress(name: string, version: string) returns (yes: bool)
      ensures yes <==> Key(name, version) in inProgress
    {
      yes := Key(name, version) in inProgress;
    }

    /** The keys in progress, each once, in no particular order. */
    method GetInProgress() returns (keys: seq<string>)
      ensures multiset(keys) == multiset(inProgress)
    {
      keys := [];
      var rest := inProgress;
      while rest != {}
        invariant rest <= inProgress && multiset(keys) == multiset(inProgress - rest)
      {
        var key :| key in rest;
        assert inProgress - (rest - {key}) == inProgress - rest + {key};
        keys := keys + [key];
        rest := rest - {key};
      }
    }

    method FetchVersion(name: string, version: string, pkgPath: string, env: Env, clock: real)
      returns (outcome: Outcome, now: real)
      requires downloader.selector == selector && downloader.retries >= 1 && selector.Distinct()
      modifies this`inProgress, selector.mirrors, tracker
      ensures inProgress == old(inProgress)
      ensures FetchResult(selector.View(), now, outcome)
           == FetchedVersion(downloader.Limits(), old(selector.View()), inProgress, name, version, pkgPath, env, clock)
      ensures tracker.versions
           == if outcome.Fetched? then Updated(old(tracker.versions), name, version) else old(tracker.versions)
    {
      now := clock;
      if name == "" || version == "" {
        return Invalid, now;
      }
      var key := Key(name, version);
      if key in inProgress {
        return Rejected, now;
      }
      inProgress := inProgress + {key};
      outcome, now := FetchClaimed(name, version, pkgPath, env, clock);
      inProgress := inProgress - {key};
    }

    /** What `FetchVersion` does between claim and release. */
    method FetchClaimed(name: string, version: string, pkgPath: string, env: Env, clock: real)
      returns (outcome: Outcome, now: real)
      requires downloader.selector == selector && downloader.retries >= 1 && selector.Distinct()
      modifies selector.mirrors, tracker
      ensures FetchResult(selector.View(), now, outcome)
           == FetchedClaimed(downloader.Limits(), old(selector.View()), pkgPath, env, clock)
      ensures tracker.versions
           == if outcome.Fetched? then Updated(old(tracker.versions), name, version) else old(tracker.versions)
    {
      now := Later(clock, env.startAt);
      var selected, index := selector.Select(now);
      if selected.Err? {
        return NoMirror, now;
      }
      outcome, now := FetchFrom(selected.value, name, version, pkgPath, env, now, index);
    }

    /** The download from the selected mirror and the penalty for it; `i` is the place of `m` among the mirrors. */
    method FetchFrom(m: Mirror, name: string, version: string, pkgPath: string, env: Env, clock: real, ghost i: nat)
      returns (outcome: Outcome, now: real)
      requires downloader.selector == selector && downloader.retries >= 1 && selector.Distinct()
      requires i < |selector.mirrors| && selector.mirrors[i] == m
      modifies selector.mirrors, tracker
      ensures FetchResult(selector.View(), now, outcome)
           == FetchedFrom(downloader.Limits(), old(selector.View()), i, pkgPath, env, clock)
      ensures tracker.versions
           == if outcome.Fetched? then Updated(old(tracker.versions), name, version) else old(tracker.versions)
    {
      var ok, later, failures := downloader.Download(m, pkgPath, env, clock, i);
      now := Later(later, env.endAt);
      SettleFetch(m, ok, name, version, now, i);
      outcome := if ok then Fetched(failures) else Failed(failures);
    }

    /** What `FetchVersion` records when the download has returned. */
    method SettleFetch(m: Mirror, ok: bool, name: string, version: string, now: real, ghost i: nat)
      requires selector.Distinct() && i < |selector.mirrors| && selector.mirrors[i] == m
      modifies selector.mirrors, tracker
      ensures selector.View()
           == PenalizedAt(old(selector.View()), i, if ok then FETCHED_PENALTY else FAILURE_PENALTY, now)
      ensures tracker.versions == if ok then Updated(old(tracker.versions), name, version) else old(tracker.versions)
    {
      if !ok {
        selector.Penalize(m, FAILURE_PENALTY, now);
        return;
      }
      var _ := tracker.Update(name, version);
      selector.Penalize(m, FETCHED_PENALTY, now);
    }
  }
}
