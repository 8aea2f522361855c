/** The mirror scheduler as the source has it: mirrors and a selector updated in place (internal/mirror/mirror.go). */
module Scheduler {
  import opened Fleets
  import opened Mirrors
  import opened Reals
  import opened Wrappers

  datatype SelectError = NoMirrors | NoPositiveWeight

  class Mirror {
    const url: string
    const baseWeight: real
    var effectiveWeight: real
    var lastUsed: Option<real>
    var inFlightDownloads: nat

    /** Both weights start from the configured one. */
    constructor (url: string, weight: real)
      ensures State() == MirrorState(weight, weight, None, 0)
    {
      this.url := url;
      baseWeight, effectiveWeight := weight, weight;
      lastUsed := None;
      inFlightDownloads := 0;
    }

    function State(): MirrorState
      reads this
    {
      MirrorState(baseWeight, effectiveWeight, lastUsed, inFlightDownloads)
    }

    method AddInFlightDownload()
      modifies this`inFlightDownloads
      ensures inFlightDownloads == old(inFlightDownloads) + 1
    {
      inFlightDownloads := inFlightDownloads + 1;
    }

    /** Does not go below zero. */
    method RemoveInFlightDownload()
      modifies this`inFlightDownloads
      ensures inFlightDownloads == if old(inFlightDownloads) > 0 then old(inFlightDownloads) - 1 else 0
    {
      if inFlightDownloads > 0 {
        inFlightDownloads := inFlightDownloads - 1;
      }
    }
  }

  /** What the scheduler sees of a mirror are its own fields. */
  lemma StateShows(m: Mirror)
    ensures m.State().base == m.baseWeight && m.State().weight == m.effectiveWeight
    ensures m.State().lastUsed == m.lastUsed && m.State().inFlight == m.inFlightDownloads
  {
  }

  /** The states of the mirrors of a list. */
  function StatesOf(mirrors: seq<Mirror>): (fleet: Fleet)
    reads mirrors
    ensures |fleet| == |mirrors|
    ensures forall i :: 0 <= i < |mirrors| ==> fleet[i] == mirrors[i].State()
  {
    seq(|mirrors|, i requires 0 <= i < |mirrors| reads mirrors => mirrors[i].State())
  }

  /** How often a mirror is in a list. */
  function Times(mirrors: seq<Mirror>, m: Mirror): nat
  {
    if mirrors == [] then 0
    else Times(mirrors[..|mirrors| - 1], m) + if mirrors[|mirrors| - 1] == m then 1 else 0
  }

  lemma {:induction false} TimesNever(mirrors: seq<Mirror>, m: Mirror)
    requires m !in mirrors
    ensures Times(mirrors, m) == 0
  {
    if mirrors == [] {
    } else {
      TimesNever(mirrors[..|mirrors| - 1], m);
    }
  }

  lemma {:induction false} TimesOnce(mirrors: seq<Mirror>, k: nat)
    requires k < |mirrors| && forall i, j :: 0 <= i < j < |mirrors| ==> mirrors[i] != mirrors[j]
    ensures Times(mirrors, mirrors[k]) == 1
  {
    var front := mirrors[..|mirrors| - 1];
    if k < |front| {
      TimesOnce(front, k);
    } else {
      TimesNever(front, mirrors[k]);
    }
  }

  function RecoveredTimes(weight: real, base: real, rate: real, n: nat): real
  {
    if n == 0 then weight else Recovered(RecoveredTimes(weight, base, rate, n - 1), base, rate)
  }

  class WeightedSelector {
    const boost: real -> real
    var mirrors: seq<Mirror>
    var recoveryRunning: bool
    var stopRequested: bool
    /** The rate the recovery goroutine was started with. */
    var recoveryRate: real

    constructor (boost: real -> real)
      ensures mirrors == [] && !recoveryRunning && this.boost == boost
    {
      this.boost := boost;
      mirrors := [];
      recoveryRunning, stopRequested, recoveryRate := false, false, DEFAULT_RATE;
    }

    function View(): (fleet: Fleet)
      reads this, mirrors
      ensures |fleet| == |mirrors|
    {
      StatesOf(mirrors)
    }

    /** No mirror was added twice. */
    ghost predicate Distinct()
      reads this
    {
      forall i, j :: 0 <= i < j < |mirrors| ==> mirrors[i] != mirrors[j]
    }

    method Add(m: Mirror)
      modifies this`mirrors
      ensures mirrors == old(mirrors) + [m]
      ensures View() == old(View()) + [m.State()]
    {
      mirrors := mirrors + [m];
    }

    /** Returns the first mirror of greatest score; `index` is its place in the list. */
    method Select(now: real) returns (r: Result<Mirror, SelectError>, ghost index: nat)
      ensures r == match Selected(View(), now, boost)
                   case None => Err(if mirrors == [] then NoMirrors else NoPositiveWeight)
                   case Some(i) => Ok(mirrors[i])
      ensures r.Ok? ==> Selected(View(), now, boost) == Some(index)
    {
      index := 0;
      if mirrors == [] {
        return Err(NoMirrors), 0;
      }
      var selected: Option<Mirror> := None;
      var maxScore := 0.0;
      var i := 0;
      while i < |mirrors|
        invariant 0 <= i <= |mirrors|
        invariant maxScore == ScoreOf(View(), Best(View(), i, now, boost), now, boost) >= 0.0
        invariant match Best(View(), i, now, boost)
                  case None => selected == None && maxScore == 0.0
                  case Some(k) => index == k && selected == Some(mirrors[k]) && maxScore > 0.0
      {
        var score := Score(mirrors[i].State(), now, boost);
        if score > maxScore {
          maxScore := score;
          selected := Some(mirrors[i]);
          index := i;
        }
        i := i + 1;
      }
      if selected == None || maxScore <= 0.0 {
        return Err(NoPositiveWeight), index;
      }
      return Ok(selected.value), index;
    }

    method Penalize(m: Mirror, penalty: real, now: real)
      modifies m`effectiveWeight, m`lastUsed
      ensures m.effectiveWeight == if penalty <= 0.0 then old(m.effectiveWeight)
                                   else if old(m.effectiveWeight) > penalty then old(m.effectiveWeight) - penalty
                                   else 0.0
      ensures m.lastUsed == if penalty <= 0.0 then old(m.lastUsed) else Some(now)
      ensures forall i :: 0 <= i < |mirrors| ==>
                View()[i] == if mirrors[i] == m then PenalizedAt(old(View()), i, penalty, now)[i] else old(View())[i]
      ensures Distinct() ==> forall i :: 0 <= i < |mirrors| && mirrors[i] == m ==>
                               View() == PenalizedAt(old(View()), i, penalty, now)
    {
      if penalty <= 0.0 {
        return;
      }
      m.effectiveWeight := m.effectiveWeight - penalty;
      if m.effectiveWeight < 0.0 {
        m.effectiveWeight := 0.0;
      }
      m.lastUsed := Some(now);
    }

    /** A rate outside (0, 1] is replaced by the default; a running recovery keeps its rate. */
    method StartRecovery(rate: real)
      modifies this`recoveryRunning, this`recoveryRate, this`stopRequested
      ensures recoveryRunning
      ensures recoveryRate == if old(recoveryRunning) then old(recoveryRate)
                              else if 0.0 < rate <= 1.0 then rate
                              else 0.05
      ensures stopRequested == (old(recoveryRunning) && old(stopRequested))
    {
      if recoveryRunning {
        return;
      }
      recoveryRate := rate;
      if recoveryRate <= 0.0 || recoveryRate > 1.0 {
        recoveryRate := DEFAULT_RATE;
      }
      stopRequested := false;
      recoveryRunning := true;
    }

    /** What the recovery goroutine does when its ticker fires. A mirror that was added twice recovers twice. */
    method RecoverWeights()
      requires recoveryRunning
      modifies (set m: Mirror | m in mirrors)`effectiveWeight
      ensures forall m :: m in mirrors ==>
                m.effectiveWeight
                  == RecoveredTimes(old(m.effectiveWeight), m.baseWeight, recoveryRate, Times(mirrors, m))
      ensures Distinct() ==> View() == Ticked(old(View()), recoveryRate)
    {
      var i := 0;
      while i < |mirrors|
        invariant 0 <= i <= |mirrors|
        invariant forall m :: m in mirrors ==>
                    m.effectiveWeight
                      == RecoveredTimes(old(m.effectiveWeight), m.baseWeight, recoveryRate, Times(mirrors[..i], m))
      {
        var m := mirrors[i];
        assert mirrors[..i + 1][..i] == mirrors[..i];
        if m.effectiveWeight < m.baseWeight {
          m.effectiveWeight := m.effectiveWeight + Scaled(recoveryRate, m.baseWeight - m.effectiveWeight);
          if m.effectiveWeight > m.baseWeight {
            m.effectiveWeight := m.baseWeight;
          }
        }
        i := i + 1;
      }
      assert mirrors[..i] == mirrors;
      if Distinct() {
        forall k | 0 <= k < |mirrors| ensures Times(mirrors, mirrors[k]) == 1 {
          TimesOnce(mirrors, k);
        }
      }
    }

    /** Asks the recovery goroutine to end. A second call before it has ended closes a closed channel, which panics. */
    method Stop() returns (panicked: bool)
      modifies this`stopRequested
      ensures panicked <==> recoveryRunning && old(stopRequested)
      ensures stopRequested == (recoveryRunning || old(stopRequested))
    {
      if !recoveryRunning {
        return false;
      }
      panicked := stopRequested;
      stopRequested := true;
    }

    /** What the recovery goroutine does when it sees the stop signal. */
    method EndRecovery()
      requires recoveryRunning && stopRequested
      modifies this`recoveryRunning
      ensures !recoveryRunning
    {
      recoveryRunning := false;
    }
  }
}
