/** What every interleaving of fetches keeps: single flight, accurate in-flight counters, weights in range, and the
    weight budget. */
module FetchSafety {
  import opened FetchProtocol
  import opened Fleets
  import opened Mirrors

  // ---------- single flight ----------

  /** Between claim and release. */
  predicate Holds(c: Caller)
  {
    c.call.Fetch? && !c.pc.Start? && !c.pc.Done?
  }

  function KeyOf(c: Caller): string
    requires c.call.Fetch?
  {
    Key(c.call.name, c.call.version)
  }

  /** The recorded keys are the held ones, and no key is held twice. */
  ghost predicate SingleFlight(inProgress: set<string>, callers: seq<Caller>)
  {
    && (forall t :: 0 <= t < |callers| && Holds(callers[t]) ==> KeyOf(callers[t]) in inProgress)
    && (forall key :: key in inProgress ==> Holder(callers, key))
    && (forall t, u :: 0 <= t < u < |callers| && Holds(callers[t]) && Holds(callers[u]) ==>
          KeyOf(callers[t]) != KeyOf(callers[u]))
  }

  ghost predicate Holder(callers: seq<Caller>, key: string)
  {
    exists t :: 0 <= t < |callers| && Holds(callers[t]) && KeyOf(callers[t]) == key
  }

  /** A step changes the recorded keys only by its caller's own key, which it adds when it comes to hold it and
      deletes when it held it. */
  lemma StepTouchesOwnKey(cfg: Config, s: State, t: nat, now: real, ok: bool)
    requires Fits(s) && t < |s.callers|
    ensures var c, s' := s.callers[t], Apply(cfg, s, Run(t, now, ok));
            var c' := s'.callers[t];
            && c'.call == c.call
            && s'.inProgress == (if !Holds(c) && Holds(c') then s.inProgress + {KeyOf(c)}
                                 else if Holds(c) && !Holds(c') then s.inProgress - {KeyOf(c)}
                                 else s.inProgress)
            && (!Holds(c) && Holds(c') ==> KeyOf(c) !in s.inProgress)
  {
  }

  /** The recorded keys when caller `c` has become `c'`. */
  function KeysAfter(inProgress: set<string>, c: Caller, c': Caller): set<string>
  {
    if !Holds(c) && Holds(c') then inProgress + {KeyOf(c')}
    else if Holds(c) && !Holds(c') then inProgress - {KeyOf(c)}
    else inProgress
  }

  lemma ChangeKeepsSingleFlight(inProgress: set<string>, callers: seq<Caller>, t: nat, c': Caller)
    requires SingleFlight(inProgress, callers) && t < |callers| && c'.call == callers[t].call
    requires !Holds(callers[t]) && Holds(c') ==> KeyOf(c') !in inProgress
    ensures SingleFlight(KeysAfter(inProgress, callers[t], c'), callers[t := c'])
  {
    var keys', callers' := KeysAfter(inProgress, callers[t], c'), callers[t := c'];
    forall key | key in keys' ensures Holder(callers', key) {
      if key in inProgress {
        var u :| 0 <= u < |callers| && Holds(callers[u]) && KeyOf(callers[u]) == key;
        assert callers'[u].call == callers[u].call;
      } else {
        assert Holds(callers'[t]);
      }
    }
  }

  lemma StepKeepsSingleFlight(cfg: Config, s: State, e: Event)
    requires Fits(s) && SingleFlight(s.inProgress, s.callers)
    ensures SingleFlight(Apply(cfg, s, e).inProgress, Apply(cfg, s, e).callers)
  {
    if e.Run? && e.caller < |s.callers| {
      StepTouchesOwnKey(cfg, s, e.caller, e.now, e.ok);
      ChangeKeepsSingleFlight(s.inProgress, s.callers, e.caller, Apply(cfg, s, e).callers[e.caller]);
    }
  }

  /** In every interleaving of `FetchVersion` calls the recorded keys are exactly those of the callers between claim
      and release, no two of which share a key; no key is left exactly when nobody is between claim and release. */
  lemma {:induction false} SingleFlightAlways(cfg: Config, s: State, events: seq<Event>)
    requires Fits(s) && Initial(cfg, s)
    ensures var s' := After(cfg, s, events);
            && SingleFlight(s'.inProgress, s'.callers)
            && (s'.inProgress == {} <==> forall t :: 0 <= t < |s'.callers| ==> !Holds(s'.callers[t]))
  {
    if events == [] {
    } else {
      SingleFlightAlways(cfg, s, events[..|events| - 1]);
      StepKeepsSingleFlight(cfg, After(cfg, s, events[..|events| - 1]), events[|events| - 1]);
    }
    var s' := After(cfg, s, events);
    if s'.inProgress != {} {
      var key :| key in s'.inProgress;
      assert Holder(s'.callers, key);
    }
  }

  /** Keys of different versions differ when names hold no colon. */
  lemma KeyInjective(name: string, version: string, name': string, version': string)
    requires ':' !in name && ':' !in name' && Key(name, version) == Key(name', version')
    ensures name == name' && version == version'
  {
    var key := Key(name, version);
    assert key[|name|] == ':' && key[|name'|] == ':';
    assert forall i :: 0 <= i < |name| ==> key[i] == name[i];
    assert forall i :: 0 <= i < |name'| ==> key[i] == name'[i];
    assert |name| == |name'|;
    assert name == key[..|name|] && version == key[|name| + 1..];
  }

  // ---------- every call ends ----------

  /** Attempts stay below the retry limit. */
  predicate Steady(cfg: Config, pc: Pc)
  {
    match pc
    case Attempting(_, attempt) => attempt < cfg.retries
    case Chosen(_, attempt, _) => attempt < cfg.retries
    case Transferring(_, attempt, _) => attempt < cfg.retries
    case Settling(_, attempt, _, _) => attempt < cfg.retries
    case Returned(_, failures, ok) => if ok then failures < cfg.retries else failures <= cfg.retries
    case Releasing(outcome) => SteadyOutcome(cfg, outcome)
    case Done(outcome) => SteadyOutcome(cfg, outcome)
    case _ => true
  }

  predicate SteadyOutcome(cfg: Config, outcome: Outcome)
  {
    (outcome.Fetched? ==> outcome.failures < cfg.retries) && (outcome.Failed? ==> outcome.failures <= cfg.retries)
  }

  /** An upper bound on the actions a caller has left. */
  function Rank(cfg: Config, pc: Pc): nat
    requires Steady(cfg, pc)
  {
    match pc
    case Start => 4 * cfg.retries + 5
    case Claimed => 4 * cfg.retries + 4
    case Attempting(_, attempt) => 4 * (cfg.retries - attempt) + 3
    case Chosen(_, attempt, _) => 4 * (cfg.retries - attempt) + 2
    case Transferring(_, attempt, _) => 4 * (cfg.retries - attempt) + 1
    case Settling(_, attempt, _, _) => 4 * (cfg.retries - attempt)
    case Returned(_, _, _) => 2
    case Releasing(_) => 1
    case Done(_) => 0
  }

  lemma StepLowersRank(cfg: Config, s: State, c: Caller, now: real, ok: bool)
    requires cfg.retries >= 1 && Steady(cfg, c.pc)
    ensures var pc' := NextPc(cfg, s, c, now, ok);
            Steady(cfg, pc') && (c.pc.Done? || Rank(cfg, pc') < Rank(cfg, c.pc))
  {
  }

  function OwnActions(events: seq<Event>, t: nat): nat
  {
    if events == [] then 0
    else OwnActions(events[..|events| - 1], t)
         + if events[|events| - 1].Run? && events[|events| - 1].caller == t then 1 else 0
  }

  lemma {:induction false} RankFalls(cfg: Config, s: State, events: seq<Event>, t: nat)
    requires Fits(s) && Initial(cfg, s) && t < |s.callers|
    ensures var pc := After(cfg, s, events).callers[t].pc;
            Steady(cfg, pc) && (pc.Done? || Rank(cfg, pc) + OwnActions(events, t) <= 4 * cfg.retries + 5)
  {
    if events == [] {
    } else {
      var front, e := events[..|events| - 1], events[|events| - 1];
      var before := After(cfg, s, front);
      RankFalls(cfg, s, front, t);
      if e.Run? && e.caller == t {
        StepLowersRank(cfg, before, before.callers[t], Later(before.clock, e.now), e.ok);
      }
    }
  }

  /** A call ends, and has released its key, after at most `4 * retries + 5` actions of its own, however the actions
      of others are interleaved with them. */
  lemma CallsEnd(cfg: Config, s: State, events: seq<Event>, t: nat)
    requires Fits(s) && Initial(cfg, s) && t < |s.callers| && OwnActions(events, t) >= 4 * cfg.retries + 5
    ensures After(cfg, s, events).callers[t].pc.Done?
  {
    RankFalls(cfg, s, events, t);
  }

  // ---------- in-flight counters ----------

  predicate Flies(c: Caller, i: nat)
  {
    c.pc.Transferring? && c.pc.current == i
  }

  /** How many callers are inside `downloadFromMirror` for mirror `i`. */
  function Flying(callers: seq<Caller>, i: nat): nat
  {
    if callers == [] then 0 else (if Flies(callers[0], i) then 1 else 0) + Flying(callers[1..], i)
  }

  lemma {:induction false} FlyingOfUpdate(callers: seq<Caller>, t: nat, c: Caller, i: nat)
    requires t < |callers|
    ensures Flying(callers[t := c], i)
         == Flying(callers, i) - (if Flies(callers[t], i) then 1 else 0) + (if Flies(c, i) then 1 else 0)
    ensures Flies(callers[t], i) ==> Flying(callers, i) > 0
  {
    if t == 0 {
      assert callers[t := c][1..] == callers[1..];
    } else {
      FlyingOfUpdate(callers[1..], t - 1, c, i);
      assert callers[t := c][1..] == callers[1..][t - 1 := c];
    }
  }

  /** Each counter is its start value plus the callers in flight on its mirror. */
  ghost predicate Accurate(start: Fleet, s: State)
  {
    && |s.fleet| == |start|
    && forall i :: 0 <= i < |start| ==> s.fleet[i].inFlight == start[i].inFlight + Flying(s.callers, i)
  }

  lemma StepKeepsAccurate(cfg: Config, start: Fleet, s: State, e: Event)
    requires Fits(s) && Accurate(start, s)
    ensures Accurate(start, Apply(cfg, s, e))
  {
    if e.Run? && e.caller < |s.callers| {
      var t, s' := e.caller, Apply(cfg, s, e);
      forall i | 0 <= i < |start| ensures s'.fleet[i].inFlight == start[i].inFlight + Flying(s'.callers, i) {
        FlyingOfUpdate(s.callers, t, s'.callers[t], i);
      }
    }
  }

  /** In every interleaving each mirror's counter counts the callers inside `downloadFromMirror` for it. */
  lemma {:induction false} AccurateAlways(cfg: Config, s: State, events: seq<Event>)
    requires Fits(s) && Initial(cfg, s)
    ensures Accurate(s.fleet, After(cfg, s, events))
  {
    if events == [] {
      forall i | 0 <= i < |s.fleet| ensures Flying(s.callers, i) == 0 {
        NoneFlying(s.callers, i);
      }
    } else {
      AccurateAlways(cfg, s, events[..|events| - 1]);
      StepKeepsAccurate(cfg, s.fleet, After(cfg, s, events[..|events| - 1]), events[|events| - 1]);
    }
  }

  lemma {:induction false} NoneFlying(callers: seq<Caller>, i: nat)
    requires forall t :: 0 <= t < |callers| ==> !Flies(callers[t], i)
    ensures Flying(callers, i) == 0
  {
    if callers == [] {
    } else {
      NoneFlying(callers[1..], i);
    }
  }

  /** Hence the floor at zero is never used, and when all calls have ended every counter is back at its start. */
  lemma CountersReturn(cfg: Config, s: State, events: seq<Event>)
    requires Fits(s) && Initial(cfg, s)
    ensures var s' := After(cfg, s, events);
            && (forall t :: 0 <= t < |s'.callers| && s'.callers[t].pc.Transferring? ==>
                  s'.fleet[s'.callers[t].pc.current].inFlight > 0)
            && ((forall t :: 0 <= t < |s'.callers| ==> s'.callers[t].pc.Done?) ==>
                  forall i :: 0 <= i < |s.fleet| ==> s'.fleet[i].inFlight == s.fleet[i].inFlight)
  {
    var s' := After(cfg, s, events);
    AccurateAlways(cfg, s, events);
    forall t | 0 <= t < |s'.callers| && s'.callers[t].pc.Transferring?
      ensures s'.fleet[s'.callers[t].pc.current].inFlight > 0
    {
      FlyingOfUpdate(s'.callers, t, s'.callers[t], s'.callers[t].pc.current);
    }
    if forall t :: 0 <= t < |s'.callers| ==> s'.callers[t].pc.Done? {
      forall i | 0 <= i < |s.fleet| ensures s'.fleet[i].inFlight == s.fleet[i].inFlight {
        NoneFlying(s'.callers, i);
      }
    }
  }

  // ---------- weights stay in range ----------

  ghost predicate Sound(bases: Fleet, s: State)
  {
    && InRange(s.fleet) && UpTo(s.fleet, s.clock)
    && |s.fleet| == |bases|
    && forall i :: 0 <= i < |bases| ==> s.fleet[i].base == bases[i].base
  }

  lemma StepKeepsSound(cfg: Config, bases: Fleet, s: State, e: Event)
    requires Fits(s) && IsRate(cfg.rate) && Sound(bases, s)
    ensures Sound(bases, Apply(cfg, s, e))
  {
    match e
    case Tick =>
      TickKeepsRange(s.fleet, cfg.rate);
      var ticked := Ticked(s.fleet, cfg.rate);
      assert forall i :: 0 <= i < |ticked| ==>
        ticked[i].lastUsed == s.fleet[i].lastUsed && ticked[i].base == s.fleet[i].base;
      forall i | 0 <= i < |ticked| ensures NotInFuture(ticked[i], s.clock) {
        assert NotInFuture(s.fleet[i], s.clock);
      }
    case Run(t, at, ok) =>
      var now := Later(s.clock, at);
      forall i | 0 <= i < |s.fleet| ensures NotInFuture(s.fleet[i], now) {
        assert NotInFuture(s.fleet[i], s.clock);
      }
  }

  /** In every interleaving each weight stays between zero and its base weight. */
  lemma {:induction false} SoundAlways(cfg: Config, s: State, events: seq<Event>)
    requires Fits(s) && IsRate(cfg.rate) && Sound(s.fleet, s)
    ensures Sound(s.fleet, After(cfg, s, events))
  {
    if events == [] {
    } else {
      SoundAlways(cfg, s, events[..|events| - 1]);
      StepKeepsSound(cfg, s.fleet, After(cfg, s, events[..|events| - 1]), events[|events| - 1]);
    }
  }

  /** No starvation: whatever happened before, right after a recovery tick selection succeeds, if any base weight is
      positive. */
  lemma NoStarvation(cfg: Config, s: State, events: seq<Event>, now: real)
    requires Fits(s) && Initial(cfg, s)
    requires exists i :: 0 <= i < |s.fleet| && s.fleet[i].base > 0.0
    requires now >= After(cfg, s, events).clock
    ensures Selected(After(cfg, s, events + [Tick]).fleet, now, cfg.boost).Some?
  {
    var s' := After(cfg, s, events);
    SoundAlways(cfg, s, events);
    assert (events + [Tick])[..|events|] == events;
    forall i | 0 <= i < |s'.fleet| ensures NotInFuture(s'.fleet[i], now) {
      assert NotInFuture(s'.fleet[i], s'.clock);
    }
    TickEndsStarvation(s'.fleet, cfg.rate, now, cfg.boost);
  }

  // ---------- the weight budget ----------

  function OutcomeCost(call: Call, outcome: Outcome): real
  {
    match outcome
    case Fetched(failures) =>
      failures as real * FAILURE_PENALTY + SUCCESS_PENALTY + (if call.Fetch? then FETCHED_PENALTY else 0.0)
    case Failed(failures) => failures as real * FAILURE_PENALTY + (if call.Fetch? then FAILURE_PENALTY else 0.0)
    case _ => 0.0
  }

  /** The penalties a caller has applied so far. */
  function Cost(c: Caller): real
  {
    match c.pc
    case Start => 0.0
    case Claimed => 0.0
    case Attempting(_, attempt) => attempt as real * FAILURE_PENALTY
    case Chosen(_, attempt, _) => attempt as real * FAILURE_PENALTY
    case Transferring(_, attempt, _) => attempt as real * FAILURE_PENALTY
    case Settling(_, attempt, _, _) => attempt as real * FAILURE_PENALTY
    case Returned(_, failures, ok) => failures as real * FAILURE_PENALTY + (if ok then SUCCESS_PENALTY else 0.0)
    case Releasing(outcome) => OutcomeCost(c.call, outcome)
    case Done(outcome) => OutcomeCost(c.call, outcome)
  }

  function TotalCost(callers: seq<Caller>): real
  {
    if callers == [] then 0.0 else Cost(callers[0]) + TotalCost(callers[1..])
  }

  lemma {:induction false} TotalCostOfUpdate(callers: seq<Caller>, t: nat, c: Caller)
    requires t < |callers|
    ensures TotalCost(callers[t := c]) == TotalCost(callers) - Cost(callers[t]) + Cost(c)
  {
    if t == 0 {
      assert callers[t := c][1..] == callers[1..];
    } else {
      TotalCostOfUpdate(callers[1..], t - 1, c);
      assert callers[t := c][1..] == callers[1..][t - 1 := c];
    }
  }

  /** A caller's cost grows by exactly the penalty that its step applies. */
  lemma StepCharges(cfg: Config, s: State, c: Caller, now: real, ok: bool)
    ensures Cost(c.(pc := NextPc(cfg, s, c, now, ok)))
         == Cost(c) + match Charge(c) case None => 0.0 case Some((_, penalty)) => penalty
  {
  }

  /** A step lowers the total weight by at most what it adds to its caller's cost. */
  lemma StepSpends(cfg: Config, bases: Fleet, s: State, e: Event)
    requires Fits(s) && IsRate(cfg.rate) && Sound(bases, s)
    ensures var s' := Apply(cfg, s, e);
            Total(s'.fleet) + TotalCost(s'.callers) >= Total(s.fleet) + TotalCost(s.callers)
  {
    var s' := Apply(cfg, s, e);
    if e.Tick? {
      TickKeepsRange(s.fleet, cfg.rate);
      TotalMonotone(s.fleet, s'.fleet);
    } else if e.caller < |s.callers| {
      var c, now := s.callers[e.caller], Later(s.clock, e.now);
      TotalCostOfUpdate(s.callers, e.caller, s'.callers[e.caller]);
      StepCharges(cfg, s, c, now, e.ok);
      if c.pc.Chosen? || c.pc.Transferring? {
        TotalMonotone(s.fleet, s'.fleet);
      } else if Charge(c).Some? {
        PenaltyCostsAtMost(s.fleet, Charge(c).value.0, Charge(c).value.1, now);
      }
    }
  }

  /** The weight budget: in every interleaving, with recovery ticks at any time, the total weight falls by at most
      the penalties applied. */
  lemma {:induction false} Budget(cfg: Config, s: State, events: seq<Event>)
    requires Fits(s) && IsRate(cfg.rate) && Sound(s.fleet, s)
    ensures var s' := After(cfg, s, events);
            Total(s'.fleet) + TotalCost(s'.callers) >= Total(s.fleet) + TotalCost(s.callers)
  {
    if events == [] {
    } else {
      var before := After(cfg, s, events[..|events| - 1]);
      Budget(cfg, s, events[..|events| - 1]);
      SoundAlways(cfg, s, events[..|events| - 1]);
      StepSpends(cfg, s.fleet, before, events[|events| - 1]);
    }
  }

  lemma {:induction false} NothingSpent(callers: seq<Caller>)
    requires forall t :: 0 <= t < |callers| ==> callers[t].pc == Start
    ensures TotalCost(callers) == 0.0
  {
    if callers == [] {
    } else {
      NothingSpent(callers[1..]);
    }
  }

  /** What one call takes from the weights. `FetchVersion`: `k + 0.8` when it succeeds after `k` failed attempts, at
      most `retries + 1` when it fails. A worker's `processTask`: `k + 0.5`, and at most `retries`. Nothing when no
      mirror was selected or the call was turned away. */
  lemma CallCost(cfg: Config, s: State, events: seq<Event>, t: nat)
    requires Fits(s) && Initial(cfg, s) && t < |s.callers|
    requires After(cfg, s, events).callers[t].pc.Done?
    ensures var c := After(cfg, s, events).callers[t];
            var fetch := if c.call.Fetch? then 1.0 else 0.0;
            match c.pc.outcome
            case Fetched(k) => k < cfg.retries && Cost(c) == k as real + 0.5 + 0.3 * fetch
            case Failed(k) => Cost(c) == k as real + fetch <= cfg.retries as real + fetch
            case _ => Cost(c) == 0.0
  {
    RankFalls(cfg, s, events, t);
  }

  /** So while the penalties applied sum to less than the start total, selection cannot fail for lack of weight. */
  lemma SelectionWithinBudget(cfg: Config, s: State, events: seq<Event>, now: real)
    requires Fits(s) && Initial(cfg, s)
    requires TotalCost(After(cfg, s, events).callers) < Total(s.fleet)
    requires now >= After(cfg, s, events).clock
    ensures Selected(After(cfg, s, events).fleet, now, cfg.boost).Some?
  {
    var s' := After(cfg, s, events);
    NothingSpent(s.callers);
    Budget(cfg, s, events);
    SoundAlways(cfg, s, events);
    forall i | 0 <= i < |s'.fleet| ensures NotInFuture(s'.fleet[i], now) {
      assert NotInFuture(s'.fleet[i], s'.clock);
    }
    SelectionIsCorrect(s'.fleet, now, cfg.boost);
    if Selected(s'.fleet, now, cfg.boost).None? {
      NoWeightNoTotal(s'.fleet);
    }
  }
}
