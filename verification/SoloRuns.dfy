/** The sequential code is a run of the concurrent state machine: a caller that nobody interrupts takes the machine
    exactly where `Download` and `FetchVersion` take the mirrors, the clock and the recorded keys. */
module SoloRuns {
  import opened Downloader
  import opened FetchProtocol
  import opened FetchSafety
  import opened Fleets
  import opened Mirrors

  lemma AfterOne(cfg: Config, s: State, events: seq<Event>, e: Event)
    requires Fits(s)
    ensures After(cfg, s, events + [e]) == Apply(cfg, After(cfg, s, events), e)
  {
  }

  lemma {:induction false} AfterSum(cfg: Config, s: State, a: seq<Event>, b: seq<Event>)
    requires Fits(s)
    ensures After(cfg, s, a + b) == After(cfg, After(cfg, s, a), b)
  {
    if b == [] {
      assert a + b == a;
    } else {
      var front, last := b[..|b| - 1], b[|b| - 1];
      AfterSum(cfg, s, a, front);
      AfterOne(cfg, s, a + front, last);
      AfterOne(cfg, After(cfg, s, a), front, last);
      assert front + [last] == b && a + b == (a + front) + [last];
    }
  }

  /** State `s` with caller `t` at `pc`, other mirrors and another clock. */
  function With(s: State, t: nat, pc: Pc, fleet: Fleet, clock: real): State
    requires t < |s.callers|
  {
    s.(fleet := fleet, clock := clock, callers := s.callers[t := s.callers[t].(pc := pc)])
  }

  function AttemptEvents(t: nat, attempt: nat, env: Env): seq<Event>
  {
    [Run(t, env.selectAt(attempt), false), Run(t, env.selectAt(attempt), false),
     Run(t, env.selectAt(attempt), env.transfer(attempt)), Run(t, env.settleAt(attempt), false)]
  }

  function AfterAttempt(cfg: Config, original: nat, attempt: nat, ok: bool): Pc
  {
    if ok then Returned(original, attempt, true)
    else if attempt + 1 < cfg.retries then Attempting(original, attempt + 1)
    else Returned(original, attempt + 1, false)
  }

  /** The counter is up during the transfer and back afterwards. */
  lemma Bracket(fleet: Fleet, i: nat)
    requires i < |fleet|
    ensures RemoveInFlight(AddInFlight(fleet, i), i) == fleet
  {
  }

  /** Up to the start of the transfer. */
  lemma SoloEnter(cfg: Config, s: State, t: nat, original: nat, attempt: nat, env: Env)
    requires Fits(s) && t < |s.callers| && s.callers[t].pc == Attempting(original, attempt)
    ensures original < |s.fleet|
    ensures var now := Later(s.clock, env.selectAt(attempt));
            var current := Rotate(cfg, s.fleet, original, attempt, now);
            After(cfg, s, AttemptEvents(t, attempt, env)[..2])
              == With(s, t, Transferring(original, attempt, current), AddInFlight(s.fleet, current), now)
  {
    assert PcFits(s.callers[t].pc, |s.fleet|);
    var es := AttemptEvents(t, attempt, env);
    AfterOne(cfg, s, [], es[0]);
    AfterOne(cfg, s, es[..1], es[1]);
    assert es[..1] == [] + [es[0]] && es[..2] == es[..1] + [es[1]];
  }

  /** Up to the end of the transfer. */
  lemma SoloTransfer(cfg: Config, s: State, t: nat, original: nat, attempt: nat, env: Env)
    requires Fits(s) && t < |s.callers| && s.callers[t].pc == Attempting(original, attempt) && original < |s.fleet|
    ensures var now := Later(s.clock, env.selectAt(attempt));
            var current := Rotate(cfg, s.fleet, original, attempt, now);
            After(cfg, s, AttemptEvents(t, attempt, env)[..3])
              == With(s, t, Settling(original, attempt, current, env.transfer(attempt)), s.fleet, now)
  {
    var now := Later(s.clock, env.selectAt(attempt));
    var current := Rotate(cfg, s.fleet, original, attempt, now);
    var es := AttemptEvents(t, attempt, env);
    SoloEnter(cfg, s, t, original, attempt, env);
    AfterOne(cfg, s, es[..2], es[2]);
    Bracket(s.fleet, current);
    assert es[..3] == es[..2] + [es[2]];
  }

  /** The step that settles an attempt. */
  lemma SettleStep(cfg: Config, s: State, t: nat, original: nat, attempt: nat, current: nat, ok: bool,
                   clock: real, at: real)
    requires Fits(s) && t < |s.callers| && original < |s.fleet| && current < |s.fleet|
    ensures var settling := With(s, t, Settling(original, attempt, current, ok), s.fleet, clock);
            var settled := Later(clock, at);
            && Fits(settling)
            && Apply(cfg, settling, Run(t, at, false))
               == With(s, t, AfterAttempt(cfg, original, attempt, ok),
                       PenalizedAt(s.fleet, current, if ok then SUCCESS_PENALTY else FAILURE_PENALTY, settled), settled)
  {
    var pc, pc' := Settling(original, attempt, current, ok), AfterAttempt(cfg, original, attempt, ok);
    WithTwice(s, t, pc, s.fleet, clock, pc', s.fleet, clock);
  }

  lemma SoloAttempt(cfg: Config, s: State, t: nat, original: nat, attempt: nat, env: Env)
    requires Fits(s) && t < |s.callers| && s.callers[t].pc == Attempting(original, attempt) && original < |s.fleet|
    ensures var (fleet, clock, ok) := Attempted(cfg, s.fleet, original, attempt, env, s.clock);
            After(cfg, s, AttemptEvents(t, attempt, env))
              == With(s, t, AfterAttempt(cfg, original, attempt, ok), fleet, clock)
  {
    var es, now := AttemptEvents(t, attempt, env), Later(s.clock, env.selectAt(attempt));
    SoloTransfer(cfg, s, t, original, attempt, env);
    AfterOne(cfg, s, es[..3], es[3]);
    assert es == es[..3] + [es[3]];
    SettleStep(cfg, s, t, original, attempt, Rotate(cfg, s.fleet, original, attempt, now), env.transfer(attempt), now,
               env.settleAt(attempt));
  }

  function AfterDownload(original: nat, d: DownloadResult): Pc
  {
    Returned(original, d.failures, d.ok)
  }

  lemma WithTwice(s: State, t: nat, pc: Pc, fleet: Fleet, clock: real, pc': Pc, fleet': Fleet, clock': real)
    requires t < |s.callers|
    ensures With(With(s, t, pc, fleet, clock), t, pc', fleet', clock') == With(s, t, pc', fleet', clock')
  {
  }

  /** The retry loop is a run of the machine. */
  lemma {:induction false} SoloAttempts(cfg: Config, s: State, t: nat, original: nat, attempt: nat, env: Env)
    returns (events: seq<Event>)
    requires Fits(s) && t < |s.callers| && s.callers[t].pc == Attempting(original, attempt) && original < |s.fleet|
    requires attempt < cfg.retries
    ensures var d := Attempts(cfg, s.fleet, original, attempt, env, s.clock);
            After(cfg, s, events) == With(s, t, AfterDownload(original, d), d.fleet, d.clock)
    decreases cfg.retries - attempt
  {
    var (fleet, clock, ok) := Attempted(cfg, s.fleet, original, attempt, env, s.clock);
    SoloAttempt(cfg, s, t, original, attempt, env);
    events := AttemptEvents(t, attempt, env);
    if !ok && attempt + 1 < cfg.retries {
      var s' := After(cfg, s, events);
      var more := SoloAttempts(cfg, s', t, original, attempt + 1, env);
      var d := Attempts(cfg, s'.fleet, original, attempt + 1, env, s'.clock);
      AfterSum(cfg, s, events, more);
      WithTwice(s, t, Attempting(original, attempt + 1), fleet, clock, AfterDownload(original, d), d.fleet, d.clock);
      events := events + more;
    }
  }

  /** From selection to the last penalty. */
  lemma SoloClaimed(cfg: Config, s: State, t: nat, env: Env) returns (events: seq<Event>)
    requires Fits(s) && t < |s.callers| && s.callers[t].pc == Claimed && s.callers[t].call.Fetch? && cfg.retries >= 1
    ensures var f := FetchedClaimed(cfg, s.fleet, s.callers[t].call.path, env, s.clock);
            After(cfg, s, events) == With(s, t, Releasing(f.outcome), f.fleet, f.clock)
  {
    var path, now := s.callers[t].call.path, Later(s.clock, env.startAt);
    events := [Run(t, env.startAt, false)];
    AfterOne(cfg, s, [], events[0]);
    assert [] + [events[0]] == events;
    var s1 := After(cfg, s, events);
    match Selected(s.fleet, now, cfg.boost)
    case None =>
    case Some(i) =>
      var d := Downloaded(cfg, s.fleet, i, path, env, now);
      if path != "" {
        assert s1 == With(s, t, Attempting(i, 0), s.fleet, now);
        var more := SoloAttempts(cfg, s1, t, i, 0, env);
        AfterSum(cfg, s, events, more);
        WithTwice(s, t, Attempting(i, 0), s.fleet, now, AfterDownload(i, d), d.fleet, d.clock);
        events := events + more;
      }
      SoloSettle(cfg, s, t, i, d, events, env.endAt);
      events := events + [Run(t, env.endAt, false)];
  }

  lemma SoloSettle(cfg: Config, s: State, t: nat, i: nat, d: DownloadResult, events: seq<Event>, at: real)
    requires Fits(s) && t < |s.callers| && s.callers[t].call.Fetch? && i < |d.fleet|
    requires After(cfg, s, events) == With(s, t, AfterDownload(i, d), d.fleet, d.clock)
    ensures After(cfg, s, events + [Run(t, at, false)])
         == With(s, t, Releasing(if d.ok then Fetched(d.failures) else Failed(d.failures)),
                 PenalizedAt(d.fleet, i, if d.ok then FETCHED_PENALTY else FAILURE_PENALTY, Later(d.clock, at)),
                 Later(d.clock, at))
  {
  }

  /** `FetchVersion` is a run of the machine that leaves the recorded keys as they were. */
  lemma SoloFetch(cfg: Config, s: State, t: nat, env: Env) returns (events: seq<Event>)
    requires Fits(s) && t < |s.callers| && s.callers[t].pc == Start && s.callers[t].call.Fetch? && cfg.retries >= 1
    ensures var call := s.callers[t].call;
            var f := FetchedVersion(cfg, s.fleet, s.inProgress, call.name, call.version, call.path, env, s.clock);
            After(cfg, s, events) == With(s, t, Done(f.outcome), f.fleet, f.clock)
  {
    var call := s.callers[t].call;
    events := [Run(t, s.clock, false)];
    AfterOne(cfg, s, [], events[0]);
    assert [] + [events[0]] == events;
    if call.name != "" && call.version != "" && Key(call.name, call.version) !in s.inProgress {
      var s1 := After(cfg, s, events);
      var more := SoloClaimed(cfg, s1, t, env);
      var f := FetchedClaimed(cfg, s.fleet, call.path, env, s.clock);
      AfterSum(cfg, s, events, more);
      SoloRelease(cfg, s, t, f, events + more);
      events := events + more + [Run(t, f.clock, false)];
    }
  }

  lemma SoloRelease(cfg: Config, s: State, t: nat, f: FetchResult, events: seq<Event>)
    requires Fits(s) && t < |s.callers| && s.callers[t].call.Fetch?
    requires var call := s.callers[t].call;
             && Key(call.name, call.version) !in s.inProgress
             && After(cfg, s, events)
                == With(s.(inProgress := s.inProgress + {Key(call.name, call.version)}), t,
                        Releasing(f.outcome), f.fleet, f.clock)
    ensures After(cfg, s, events + [Run(t, f.clock, false)]) == With(s, t, Done(f.outcome), f.fleet, f.clock)
  {
  }

  lemma OneCost(c: Caller)
    ensures TotalCost([c]) == Cost(c)
  {
    assert [c][1..] == [];
  }

  lemma FetchCost(cfg: Config, fleet: Fleet, inProgress: set<string>, name: string, version: string,
                  path: string, env: Env, clock: real)
    requires cfg.retries >= 1
    ensures var f := FetchedVersion(cfg, fleet, inProgress, name, version, path, env, clock);
            Cost(Caller(Call.Fetch(name, version, path), Done(f.outcome))) <= match f.outcome
                                                                             case Fetched(k) => k as real + 0.8
                                                                             case Failed(_) => cfg.retries as real + 1.0
                                                                             case _ => 0.0
  {
  }

  /** An uninterrupted `FetchVersion` lowers the total weight by at most `k + 0.8` when it succeeds after `k` failed
      attempts, by at most `retries + 1` when it fails, and not at all when it is turned away. */
  lemma FetchSpendsAtMost(cfg: Config, fleet: Fleet, inProgress: set<string>, name: string, version: string,
                          path: string, env: Env, clock: real)
    requires cfg.retries >= 1 && IsRate(cfg.rate) && InRange(fleet) && UpTo(fleet, clock)
    ensures var f := FetchedVersion(cfg, fleet, inProgress, name, version, path, env, clock);
            Total(fleet) - Total(f.fleet) <= match f.outcome
                                             case Fetched(k) => k as real + 0.8
                                             case Failed(_) => cfg.retries as real + 1.0
                                             case _ => 0.0
  {
    var s := State(fleet, inProgress, [Caller(Call.Fetch(name, version, path), Start)], clock);
    var events := SoloFetch(cfg, s, 0, env);
    Budget(cfg, s, events);
    var s' := After(cfg, s, events);
    OneCost(s.callers[0]);
    OneCost(s'.callers[0]);
    FetchCost(cfg, fleet, inProgress, name, version, path, env, clock);
    assert s.callers == [s.callers[0]] && s'.callers == [s'.callers[0]];
  }
}
