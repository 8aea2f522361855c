/** The numbers of the mirror scheduler (internal/mirror/mirror.go): scores, penalties and recovery. */
module Mirrors {
  import opened Reals
  import opened Wrappers

  /** `lastUsed` is `None` for the zero time of a mirror that was never penalized. */
  datatype MirrorState = MirrorState(base: real, weight: real, lastUsed: Option<real>, inFlight: nat)

  const DEFAULT_RATE := 0.05

  predicate IsRate(rate: real)
  {
    0.0 < rate <= 1.0
  }

  function Penalized(weight: real, penalty: real): real
  {
    if penalty <= 0.0 then weight else if weight - penalty < 0.0 then 0.0 else weight - penalty
  }

  function Recovered(weight: real, base: real, rate: real): real
  {
    if weight < base then
      var moved := weight + Scaled(rate, base - weight);
      if moved > base then base else moved
    else weight
  }

  /** The rate `StartRecovery` lets through. */
  function EffectiveRate(rate: real): real
  {
    if rate <= 0.0 || rate > 1.0 then DEFAULT_RATE else rate
  }

  /** A rate from above zero to one is kept, and any other replaced by 5 percent. */
  lemma RateKept(rate: real)
    ensures IsRate(EffectiveRate(rate))
    ensures EffectiveRate(rate) == rate <==> 0.0 < rate <= 1.0 || rate == 0.05
    ensures EffectiveRate(rate) != rate ==> EffectiveRate(rate) == 0.05
  {
  }

  // ---------- scores ----------

  /** What is used of the boost `log(1 + seconds / 3600)` for seconds of idle time. */
  ghost predicate IsBoost(boost: real -> real)
  {
    boost(0.0) == 0.0 && forall s, t :: 0.0 <= s <= t ==> boost(s) <= boost(t)
  }

  predicate NotInFuture(m: MirrorState, now: real)
  {
    m.lastUsed.Some? ==> m.lastUsed.value <= now
  }

  function Idle(m: MirrorState, now: real, boost: real -> real): real
  {
    match m.lastUsed
    case None => 0.0
    case Some(t) => boost(now - t)
  }

  function Score(m: MirrorState, now: real, boost: real -> real): real
  {
    if m.weight <= 0.0 then 0.0
    else Ratio(Scaled(m.weight, 1.0 + Idle(m, now, boost)), 1.0 + m.inFlight as real * 0.01)
  }

  lemma IdleNonNegative(m: MirrorState, now: real, boost: real -> real)
    requires IsBoost(boost) && NotInFuture(m, now)
    ensures Idle(m, now, boost) >= 0.0
  {
  }

  /** A mirror scores if and only if it has weight. */
  lemma ScorePositive(m: MirrorState, now: real, boost: real -> real)
    requires IsBoost(boost) && NotInFuture(m, now)
    ensures Score(m, now, boost) >= 0.0
    ensures Score(m, now, boost) > 0.0 <==> m.weight > 0.0
  {
  }

  /** More weight, fewer downloads in flight and a longer idle time never lower the score. A mirror that was never
      used counts as idle for no time at all, so nothing is gained by never having been used. */
  lemma ScoreMonotone(a: MirrorState, b: MirrorState, now: real, boost: real -> real)
    requires IsBoost(boost) && NotInFuture(a, now) && NotInFuture(b, now)
    requires a.weight <= b.weight && b.inFlight <= a.inFlight
    requires a.lastUsed == None || (a.lastUsed.Some? && b.lastUsed.Some? && b.lastUsed.value <= a.lastUsed.value)
    ensures Score(a, now, boost) <= Score(b, now, boost)
  {
    ScorePositive(b, now, boost);
    if a.weight > 0.0 {
      IdleNonNegative(a, now, boost);
      IdleNonNegative(b, now, boost);
      ScaledMonotone(a.weight, b.weight, 1.0 + Idle(a, now, boost), 1.0 + Idle(b, now, boost));
      RatioMonotone(Scaled(a.weight, 1.0 + Idle(a, now, boost)), Scaled(b.weight, 1.0 + Idle(b, now, boost)),
                    1.0 + b.inFlight as real * 0.01, 1.0 + a.inFlight as real * 0.01);
    }
  }

  /** What a mirror's score weighs against its downloads in flight: its weight, boosted by its idle time. */
  function Merit(m: MirrorState, now: real, boost: real -> real): real
  {
    m.weight * (1.0 + match m.lastUsed case None => 0.0 case Some(t) => boost(now - t))
  }

  /** Merits compared for their loads: each is multiplied by the other's load, a hundred plus its downloads in
      flight. */
  predicate Outweighs(a: MirrorState, b: MirrorState, now: real, boost: real -> real)
  {
    Merit(a, now, boost) * (100.0 + b.inFlight as real) > Merit(b, now, boost) * (100.0 + a.inFlight as real)
  }

  /** Scores compare as merits do for their loads. */
  lemma ScoreWeighsLoad(a: MirrorState, b: MirrorState, now: real, boost: real -> real)
    requires a.weight > 0.0 && b.weight > 0.0
    ensures Score(a, now, boost) > Score(b, now, boost) <==> Outweighs(a, b, now, boost)
  {
    var x, y := Merit(a, now, boost), Merit(b, now, boost);
    var d, e := 1.0 + a.inFlight as real * 0.01, 1.0 + b.inFlight as real * 0.01;
    assert Score(a, now, boost) == Ratio(x, d) && Score(b, now, boost) == Ratio(y, e);
    CrossMultiply(x, d, y, e);
    Hundredfold(x, e);
    Hundredfold(y, d);
    assert 100.0 * e == 100.0 + b.inFlight as real && 100.0 * d == 100.0 + a.inFlight as real;
  }

  /** With weight left, more weight, fewer downloads in flight and a longer boost each raise the score. */
  lemma ScoreStrict(a: MirrorState, b: MirrorState, now: real, boost: real -> real)
    requires IsBoost(boost) && NotInFuture(a, now) && NotInFuture(b, now)
    requires 0.0 < a.weight <= b.weight && b.inFlight <= a.inFlight
    requires a.lastUsed.None? || (b.lastUsed.Some? && b.lastUsed.value <= a.lastUsed.value)
    requires a.weight < b.weight || b.inFlight < a.inFlight
      || (b.lastUsed.Some?
          && boost(now - b.lastUsed.value) > match a.lastUsed case None => 0.0 case Some(t) => boost(now - t))
    ensures Score(a, now, boost) < Score(b, now, boost)
  {
    IdleNonNegative(a, now, boost);
    IdleNonNegative(b, now, boost);
    assert Idle(a, now, boost) <= Idle(b, now, boost);
    var p, q := 1.0 + Idle(a, now, boost), 1.0 + Idle(b, now, boost);
    StrictProduct(a.weight, b.weight, p, q);
    StrictProduct(Merit(a, now, boost), Merit(b, now, boost), 100.0 + b.inFlight as real, 100.0 + a.inFlight as real);
    ScoreWeighsLoad(b, a, now, boost);
  }

  // ---------- one step of a weight ----------

  /** The clamp at the base weight never fires, and recovery leaves the fraction `1 - rate` of the deficit. */
  lemma RecoveredDeficit(weight: real, base: real, rate: real)
    requires weight <= base && IsRate(rate)
    ensures weight + Scaled(rate, base - weight) <= base
    ensures base - Recovered(weight, base, rate) == Scaled(1.0 - rate, base - weight)
    ensures weight <= Recovered(weight, base, rate) <= base
  {
    Share(rate, base - weight);
  }

  /** A weight that is not below the base is left alone. */
  lemma RecoveredAbove(weight: real, base: real, rate: real)
    ensures weight >= base ==> Recovered(weight, base, rate) == weight
  {
  }

  /** Penalties add up: despite the clamp at zero only their sum matters, and it alone decides whether any weight is
      left to be selected by. */
  lemma PenaltiesAdd(weight: real, p: real, q: real)
    requires weight >= 0.0 && p > 0.0 && q > 0.0
    ensures Penalized(Penalized(weight, p), q) == Penalized(weight, p + q) == Penalized(Penalized(weight, q), p)
    ensures Penalized(weight, p) > 0.0 <==> p < weight
    ensures Penalized(weight, p) < weight <==> weight > 0.0
  {
  }

  datatype WeightEvent = Penalty(amount: real) | Recovery

  function StepWeight(weight: real, base: real, rate: real, event: WeightEvent): real
  {
    match event
    case Penalty(amount) => Penalized(weight, amount)
    case Recovery => Recovered(weight, base, rate)
  }

  /** What one event leaves of a bound on a gap. */
  function Shrink(left: real, event: WeightEvent, gap: real): real
  {
    if event.Recovery? then Scaled(left, gap) else gap
  }

  /** One event keeps two weights in order and in range, and shrinks the gap between them if it is a recovery. */
  lemma StepContracts(low: real, high: real, gap: real, base: real, rate: real, event: WeightEvent)
    requires 0.0 <= low <= high <= base && IsRate(rate) && high - low <= gap
    ensures 0.0 <= StepWeight(low, base, rate, event) <= StepWeight(high, base, rate, event) <= base
    ensures StepWeight(high, base, rate, event) - StepWeight(low, base, rate, event) <= Shrink(1.0 - rate, event, gap)
  {
    if event.Recovery? {
      RecoveredDeficit(low, base, rate);
      RecoveredDeficit(high, base, rate);
      ScaledDifference(1.0 - rate, base - low, base - high);
      ScaledMonotone(1.0 - rate, 1.0 - rate, high - low, gap);
      assert (base - low) - (base - high) == high - low;
    }
  }

  // ---------- whole runs of one mirror ----------

  function WeightAfter(weight: real, base: real, rate: real, events: seq<WeightEvent>): real
    decreases events
  {
    if events == [] then weight else WeightAfter(StepWeight(weight, base, rate, events[0]), base, rate, events[1..])
  }

  function Recoveries(events: seq<WeightEvent>): nat
  {
    if events == [] then 0 else (if events[0].Recovery? then 1 else 0) + Recoveries(events[1..])
  }

  lemma {:induction false} GapFades(low: real, high: real, gap: real, base: real, rate: real, events: seq<WeightEvent>)
    requires 0.0 <= low <= high <= base && IsRate(rate) && high - low <= gap
    ensures 0.0 <= WeightAfter(low, base, rate, events) <= WeightAfter(high, base, rate, events) <= base
    ensures WeightAfter(high, base, rate, events) - WeightAfter(low, base, rate, events)
         <= Scaled(Power(1.0 - rate, Recoveries(events)), gap)
    decreases events
  {
    if events == [] {
    } else {
      var low', high' := StepWeight(low, base, rate, events[0]), StepWeight(high, base, rate, events[0]);
      StepContracts(low, high, gap, base, rate, events[0]);
      GapFades(low', high', Shrink(1.0 - rate, events[0], gap), base, rate, events[1..]);
      ScaledAssociates(1.0 - rate, Power(1.0 - rate, Recoveries(events[1..])), gap);
    }
  }

  /** Two mirrors alike but for their weights stay in order under the same events, and the gap between them is
      shrunk by every recovery, whatever the penalties and clamps in between. */
  lemma PenaltiesFade(low: real, high: real, base: real, rate: real, events: seq<WeightEvent>)
    requires 0.0 <= low <= high <= base && IsRate(rate)
    ensures 0.0 <= WeightAfter(low, base, rate, events) <= WeightAfter(high, base, rate, events) <= base
    ensures WeightAfter(high, base, rate, events) - WeightAfter(low, base, rate, events)
         <= Scaled(Power(1.0 - rate, Recoveries(events)), high - low)
  {
    GapFades(low, high, high - low, base, rate, events);
  }

  /** After `n` recoveries without a penalty the deficit is exactly geometric, for every rate that `StartRecovery`
      lets through. */
  lemma {:induction false} RecoveryIsGeometric(weight: real, base: real, requested: real, n: nat)
    requires weight <= base
    ensures var rate := EffectiveRate(requested);
            && IsRate(rate)
            && base - WeightAfter(weight, base, rate, seq(n, _ => Recovery))
               == Scaled(Power(1.0 - rate, n), base - weight)
    decreases n
  {
    var rate := EffectiveRate(requested);
    var ticks := seq(n, _ => Recovery);
    if n == 0 {
    } else {
      RecoveredDeficit(weight, base, rate);
      assert ticks[1..] == seq(n - 1, _ => Recovery);
      RecoveryIsGeometric(Recovered(weight, base, rate), base, requested, n - 1);
      ScaledAssociates(1.0 - rate, Power(1.0 - rate, n - 1), base - weight);
    }
  }

  /** Hence `n` recoveries leave at most a fraction `1 / (1 + n r)` of the deficit. */
  lemma RecoveryIsFast(weight: real, base: real, requested: real, n: nat)
    requires weight <= base
    ensures var rate := EffectiveRate(requested);
            base - WeightAfter(weight, base, rate, seq(n, _ => Recovery))
              <= Ratio(base - weight, 1.0 + Scaled(rate, n as real))
  {
    var rate := EffectiveRate(requested);
    RecoveryIsGeometric(weight, base, requested, n);
    PowerBound(rate, n);
    PowerNonNegative(1.0 - rate, n);
    ScaledPositive(rate, n as real);
    FractionLeft(Power(1.0 - rate, n), 1.0 + Scaled(rate, n as real), base - weight);
  }

  lemma FractionLeft(p: real, d: real, deficit: real)
    requires p >= 0.0 && d > 0.0 && deficit >= 0.0 && Scaled(p, d) <= 1.0
    ensures Scaled(p, deficit) <= Ratio(deficit, d)
  {
  }
}
