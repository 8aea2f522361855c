/** What concurrent callers do at each turn, and that the outcome of a call is true to its transfers
    (internal/downloader/fetch_manager.go, internal/downloader/http_downloader.go). */
module FetchOutcomes {
  import opened FetchProtocol
  import opened FetchSafety
  import opened Fleets
  import opened Mirrors
  import opened Wrappers

  /** The caller `t` of a state after it has acted. */
  function Acted(cfg: Config, s: State, t: nat, at: real, ok: bool): Caller
    requires Fits(s) && t < |s.callers|
  {
    Apply(cfg, s, Run(t, at, ok)).callers[t]
  }

  // ---------- one turn in any run ----------

  /** A call of `FetchVersion` is refused without name or version, and when its key is in progress; otherwise it
      claims. A pool worker has no key to claim. */
  lemma StartClaims(cfg: Config, s: State, t: nat, at: real, ok: bool)
    requires Fits(s) && t < |s.callers| && s.callers[t].pc == Start
    ensures var call := s.callers[t].call;
            Acted(cfg, s, t, at, ok).pc == if call.Pooled? then Claimed
                                           else if call.name == "" || call.version == "" then Done(Invalid)
                                           else if call.name + ":" + call.version in s.inProgress then Done(Rejected)
                                           else Claimed
  {
  }

  /** After any run, a call that has claimed takes the first best mirror, and fails when no mirror has weight. */
  lemma ClaimSelects(cfg: Config, s: State, events: seq<Event>, t: nat, at: real, ok: bool, i: nat)
    requires Fits(s) && Initial(cfg, s) && t < |s.callers| && After(cfg, s, events).callers[t].pc == Claimed
    ensures var s' := After(cfg, s, events);
            var c := Acted(cfg, s', t, at, ok);
            && (NoWeight(s'.fleet) ==> c.pc in {Releasing(NoMirror), Done(NoMirror)})
            && (FirstBest(s'.fleet, i, Later(s'.clock, at), cfg.boost) ==>
                  c.pc == if c.call.path == "" then Returned(i, 0, false) else Attempting(i, 0))
  {
    var s' := After(cfg, s, events);
    SoundAlways(cfg, s, events);
    StillUpTo(s'.fleet, s'.clock, Later(s'.clock, at));
    SelectionByMerit(s'.fleet, i, Later(s'.clock, at), cfg.boost);
  }

  /** After any run, a retry takes the first best mirror of that moment; the first attempt, and a retry when no
      mirror has weight, take the original one. */
  lemma RetryRotates(cfg: Config, s: State, events: seq<Event>, t: nat, at: real, ok: bool, i: nat)
    requires Fits(s) && Initial(cfg, s) && t < |s.callers| && After(cfg, s, events).callers[t].pc.Attempting?
    ensures var s' := After(cfg, s, events);
            var before, after := s'.callers[t].pc, Acted(cfg, s', t, at, ok).pc;
            && after.Chosen? && after.original == before.original && after.attempt == before.attempt
            && (before.attempt == 0 || NoWeight(s'.fleet) ==> after.current == before.original)
            && (before.attempt > 0 && FirstBest(s'.fleet, i, Later(s'.clock, at), cfg.boost) ==> after.current == i)
            && (before.attempt > 0 && !NoWeight(s'.fleet) ==> s'.fleet[after.current].weight > 0.0)
  {
    var s' := After(cfg, s, events);
    var now := Later(s'.clock, at);
    SoundAlways(cfg, s, events);
    StillUpTo(s'.fleet, s'.clock, now);
    SelectionByMerit(s'.fleet, i, now, cfg.boost);
    SelectedIsFirstBest(s'.fleet, now, cfg.boost);
  }

  /** The mirror that was chosen is the one that is transferred from and penalized, by the outcome of the transfer. */
  lemma AttemptPenalizes(cfg: Config, s: State, t: nat, at: real, ok: bool)
    requires Fits(s) && t < |s.callers|
    ensures var s' := Apply(cfg, s, Run(t, at, ok)); s'.clock >= s.clock && (at >= s.clock ==> s'.clock == at)
    ensures var now, pc, s' := Later(s.clock, at), s.callers[t].pc, Apply(cfg, s, Run(t, at, ok));
            match pc
            case Chosen(o, a, m) => s'.callers[t].pc == Transferring(o, a, m)
            case Transferring(o, a, m) => s'.callers[t].pc == Settling(o, a, m, ok)
            case Settling(o, a, m, good) =>
              m < |s.fleet| && s'.fleet == PenalizedAt(s.fleet, m, if good then 0.5 else 1.0, now)
            case _ => true
  {
    assert PcFits(s.callers[t].pc, |s.fleet|);
  }

  // ---------- outcomes ----------

  function One(b: bool): nat
  {
    if b then 1 else 0
  }

  /** The event ends a transfer of caller `t` with the given result. */
  predicate Ends(s: State, e: Event, t: nat, ok: bool)
    requires t < |s.callers|
  {
    e.Run? && e.caller == t && s.callers[t].pc.Transferring? && e.ok == ok
  }

  /** How many transfers of caller `t` ended with the given result. */
  function Transfers(cfg: Config, s: State, events: seq<Event>, t: nat, ok: bool): nat
    requires Fits(s) && t < |s.callers|
  {
    if events == [] then 0
    else
      var front, e := events[..|events| - 1], events[|events| - 1];
      Transfers(cfg, s, front, t, ok) + One(Ends(After(cfg, s, front), e, t, ok))
  }

  /** What a caller's place in the code says about the transfers that failed and succeeded. */
  predicate Tally(cfg: Config, c: Caller, failed: nat, succeeded: nat)
  {
    match c.pc
    case Start => failed == succeeded == 0
    case Claimed => failed == succeeded == 0
    case Attempting(_, a) => failed == a < cfg.retries && succeeded == 0 && c.call.path != ""
    case Chosen(_, a, _) => failed == a < cfg.retries && succeeded == 0 && c.call.path != ""
    case Transferring(_, a, _) => failed == a < cfg.retries && succeeded == 0 && c.call.path != ""
    case Settling(_, a, _, ok) =>
      a < cfg.retries && failed == a + One(!ok) && succeeded == One(ok) && c.call.path != ""
    case Returned(_, k, ok) => TallyOutcome(cfg, c.call, if ok then Fetched(k) else Failed(k), failed, succeeded)
    case Releasing(outcome) => TallyOutcome(cfg, c.call, outcome, failed, succeeded)
    case Done(outcome) => TallyOutcome(cfg, c.call, outcome, failed, succeeded)
  }

  predicate TallyOutcome(cfg: Config, call: Call, outcome: Outcome, failed: nat, succeeded: nat)
  {
    match outcome
    case Fetched(k) => failed == k < cfg.retries && succeeded == 1
    case Failed(k) => failed == k == (if call.path == "" then 0 else cfg.retries) && succeeded == 0
    case _ => failed == succeeded == 0
  }

  lemma StepTallies(cfg: Config, s: State, c: Caller, now: real, ok: bool, failed: nat, succeeded: nat)
    requires cfg.retries >= 1 && Tally(cfg, c, failed, succeeded)
    ensures Tally(cfg, c.(pc := NextPc(cfg, s, c, now, ok)),
                  failed + One(c.pc.Transferring? && !ok), succeeded + One(c.pc.Transferring? && ok))
  {
  }

  lemma CallerSteps(cfg: Config, s: State, e: Event, t: nat)
    requires Fits(s) && t < |s.callers|
    ensures var c := s.callers[t];
            Apply(cfg, s, e).callers[t]
              == if e.Run? && e.caller == t then c.(pc := NextPc(cfg, s, c, Later(s.clock, e.now), e.ok)) else c
  {
  }

  lemma EventTallies(cfg: Config, s: State, e: Event, t: nat, c': Caller, failed: nat, succeeded: nat)
    requires Fits(s) && cfg.retries >= 1 && t < |s.callers| && Tally(cfg, s.callers[t], failed, succeeded)
    requires var c := s.callers[t];
             c' == if e.Run? && e.caller == t then c.(pc := NextPc(cfg, s, c, Later(s.clock, e.now), e.ok)) else c
    ensures Tally(cfg, c', failed + One(Ends(s, e, t, false)), succeeded + One(Ends(s, e, t, true)))
  {
    if e.Run? && e.caller == t {
      StepTallies(cfg, s, s.callers[t], Later(s.clock, e.now), e.ok, failed, succeeded);
    }
  }

  /** In every interleaving a call that reports success after `k` failures has had exactly `k` failed transfers and
      one that succeeded; one that reports failure has had a failed transfer for each retry and none that succeeded;
      and one that was turned away has had none. */
  lemma {:induction false} OutcomesAreTrue(cfg: Config, s: State, events: seq<Event>, t: nat)
    requires Fits(s) && Initial(cfg, s) && t < |s.callers|
    ensures Tally(cfg, After(cfg, s, events).callers[t],
                  Transfers(cfg, s, events, t, false), Transfers(cfg, s, events, t, true))
  {
    if events == [] {
    } else {
      var front, e := events[..|events| - 1], events[|events| - 1];
      OutcomesAreTrue(cfg, s, front, t);
      CallerSteps(cfg, After(cfg, s, front), e, t);
      EventTallies(cfg, After(cfg, s, front), e, t, After(cfg, s, events).callers[t],
                   Transfers(cfg, s, front, t, false), Transfers(cfg, s, front, t, true));
    }
  }
}
