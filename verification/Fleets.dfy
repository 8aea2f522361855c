/** All registered mirrors together: selection, penalties, recovery ticks and their total weight
    (internal/mirror/mirror.go). */
module Fleets {
  import opened Mirrors
  import opened Reals
  import opened Wrappers

  type Fleet = seq<MirrorState>

  /** Weights lie between zero and the base weight. */
  ghost predicate InRange(fleet: Fleet)
  {
    forall i :: 0 <= i < |fleet| ==> 0.0 <= fleet[i].weight <= fleet[i].base
  }

  /** No mirror was last used after `now`. */
  ghost predicate UpTo(fleet: Fleet, now: real)
  {
    forall i :: 0 <= i < |fleet| ==> NotInFuture(fleet[i], now)
  }

  lemma StillUpTo(fleet: Fleet, clock: real, now: real)
    requires UpTo(fleet, clock) && clock <= now
    ensures UpTo(fleet, now)
  {
    forall i | 0 <= i < |fleet| ensures NotInFuture(fleet[i], now) {
      assert NotInFuture(fleet[i], clock);
    }
  }

  // ---------- selection ----------

  function ScoreOf(fleet: Fleet, best: Option<nat>, now: real, boost: real -> real): real
    requires best.Some? ==> best.value < |fleet|
  {
    match best
    case None => 0.0
    case Some(i) => Score(fleet[i], now, boost)
  }

  /** The candidate after the first `n` mirrors were scored. */
  function Best(fleet: Fleet, n: nat, now: real, boost: real -> real): (best: Option<nat>)
    requires n <= |fleet|
    ensures best.Some? ==> best.value < n
  {
    if n == 0 then None
    else
      var best := Best(fleet, n - 1, now, boost);
      if Score(fleet[n - 1], now, boost) > ScoreOf(fleet, best, now, boost) then Some(n - 1) else best
  }

  function Selected(fleet: Fleet, now: real, boost: real -> real): (best: Option<nat>)
    ensures best.Some? ==> best.value < |fleet|
  {
    Best(fleet, |fleet|, now, boost)
  }

  lemma {:induction false} BestIsFirstMaximum(fleet: Fleet, n: nat, now: real, boost: real -> real)
    requires n <= |fleet|
    ensures var best := Best(fleet, n, now, boost);
            && (forall j :: 0 <= j < n ==> Score(fleet[j], now, boost) <= ScoreOf(fleet, best, now, boost))
            && (best.Some? ==>
                  && Score(fleet[best.value], now, boost) > 0.0
                  && forall j :: 0 <= j < best.value ==>
                       Score(fleet[j], now, boost) < Score(fleet[best.value], now, boost))
  {
    if n == 0 {
    } else {
      BestIsFirstMaximum(fleet, n - 1, now, boost);
    }
  }

  /** Selection finds the first mirror of greatest score, and fails exactly when no mirror has weight. */
  lemma SelectionIsCorrect(fleet: Fleet, now: real, boost: real -> real)
    requires IsBoost(boost) && UpTo(fleet, now)
    ensures match Selected(fleet, now, boost)
            case None => forall j :: 0 <= j < |fleet| ==> fleet[j].weight <= 0.0
            case Some(i) =>
              && fleet[i].weight > 0.0
              && (forall j :: 0 <= j < |fleet| ==> Score(fleet[j], now, boost) <= Score(fleet[i], now, boost))
              && (forall j :: 0 <= j < i ==> Score(fleet[j], now, boost) < Score(fleet[i], now, boost))
  {
    BestIsFirstMaximum(fleet, |fleet|, now, boost);
    forall j | 0 <= j < |fleet| ensures Score(fleet[j], now, boost) > 0.0 <==> fleet[j].weight > 0.0 {
      ScorePositive(fleet[j], now, boost);
    }
  }

  /** Mirror `i` has weight, no mirror with weight outweighs it, and it outweighs every mirror with weight before it. */
  ghost predicate FirstBest(fleet: Fleet, i: nat, now: real, boost: real -> real)
  {
    && i < |fleet| && fleet[i].weight > 0.0
    && forall j :: 0 <= j < |fleet| && fleet[j].weight > 0.0 ==>
         !Outweighs(fleet[j], fleet[i], now, boost) && (j < i ==> Outweighs(fleet[i], fleet[j], now, boost))
  }

  ghost predicate NoWeight(fleet: Fleet)
  {
    forall j :: 0 <= j < |fleet| ==> fleet[j].weight <= 0.0
  }

  lemma SelectedIsFirstBest(fleet: Fleet, now: real, boost: real -> real)
    requires IsBoost(boost) && UpTo(fleet, now)
    ensures match Selected(fleet, now, boost)
            case None => NoWeight(fleet)
            case Some(i) => FirstBest(fleet, i, now, boost)
  {
    SelectionIsCorrect(fleet, now, boost);
    if Selected(fleet, now, boost).Some? {
      var i := Selected(fleet, now, boost).value;
      forall j | 0 <= j < |fleet| && fleet[j].weight > 0.0
        ensures !Outweighs(fleet[j], fleet[i], now, boost) && (j < i ==> Outweighs(fleet[i], fleet[j], now, boost))
      {
        ScoreWeighsLoad(fleet[j], fleet[i], now, boost);
        ScoreWeighsLoad(fleet[i], fleet[j], now, boost);
      }
    }
  }

  lemma FirstBestUnique(fleet: Fleet, i: nat, k: nat, now: real, boost: real -> real)
    requires FirstBest(fleet, i, now, boost) && FirstBest(fleet, k, now, boost)
    ensures i == k
  {
  }

  /** What is selected, by weight, idle time and load alone: the first mirror with weight that no other outweighs,
      and none exactly when no mirror has weight. */
  lemma SelectionByMerit(fleet: Fleet, i: nat, now: real, boost: real -> real)
    requires IsBoost(boost) && UpTo(fleet, now)
    ensures Selected(fleet, now, boost) == Some(i) <==> FirstBest(fleet, i, now, boost)
    ensures Selected(fleet, now, boost) == None <==> NoWeight(fleet)
  {
    SelectedIsFirstBest(fleet, now, boost);
    if FirstBest(fleet, i, now, boost) && Selected(fleet, now, boost).Some? {
      FirstBestUnique(fleet, i, Selected(fleet, now, boost).value, now, boost);
    }
  }

  // ---------- penalties and recovery ----------

  function PenalizedAt(fleet: Fleet, i: nat, penalty: real, now: real): Fleet
    requires i < |fleet|
  {
    if penalty <= 0.0 then fleet
    else fleet[i := fleet[i].(weight := Penalized(fleet[i].weight, penalty), lastUsed := Some(now))]
  }

  function Ticked(fleet: Fleet, rate: real): (ticked: Fleet)
    ensures |ticked| == |fleet|
  {
    seq(|fleet|, i requires 0 <= i < |fleet| =>
      fleet[i].(weight := Recovered(fleet[i].weight, fleet[i].base, rate)))
  }

  lemma TickKeepsRange(fleet: Fleet, rate: real)
    requires InRange(fleet) && IsRate(rate)
    ensures InRange(Ticked(fleet, rate))
    ensures forall i :: 0 <= i < |fleet| ==> fleet[i].weight <= Ticked(fleet, rate)[i].weight
    ensures forall i :: 0 <= i < |fleet| && fleet[i].base > 0.0 ==> Ticked(fleet, rate)[i].weight > 0.0
  {
    forall i | 0 <= i < |fleet|
      ensures 0.0 <= fleet[i].weight <= Ticked(fleet, rate)[i].weight <= Ticked(fleet, rate)[i].base
      ensures fleet[i].base > 0.0 ==> Ticked(fleet, rate)[i].weight > 0.0
    {
      RecoveredDeficit(fleet[i].weight, fleet[i].base, rate);
      ScaledPositive(rate, fleet[i].base - fleet[i].weight);
    }
  }

  /** No starvation: right after a recovery tick a mirror can be selected, if any base weight is positive. */
  lemma TickEndsStarvation(fleet: Fleet, rate: real, now: real, boost: real -> real)
    requires InRange(fleet) && IsRate(rate) && IsBoost(boost) && UpTo(fleet, now)
    requires exists i :: 0 <= i < |fleet| && fleet[i].base > 0.0
    ensures Selected(Ticked(fleet, rate), now, boost).Some?
  {
    TickKeepsRange(fleet, rate);
    var ticked := Ticked(fleet, rate);
    forall i | 0 <= i < |ticked| ensures NotInFuture(ticked[i], now) {
      assert NotInFuture(fleet[i], now);
    }
    SelectionIsCorrect(ticked, now, boost);
  }

  // ---------- total weight ----------

  function Total(fleet: Fleet): real
  {
    if fleet == [] then 0.0 else fleet[0].weight + Total(fleet[1..])
  }

  lemma {:induction false} TotalOfUpdate(fleet: Fleet, i: nat, m: MirrorState)
    requires i < |fleet|
    ensures Total(fleet[i := m]) == Total(fleet) - fleet[i].weight + m.weight
  {
    if i == 0 {
      assert fleet[i := m][1..] == fleet[1..];
    } else {
      TotalOfUpdate(fleet[1..], i - 1, m);
      assert fleet[i := m][1..] == fleet[1..][i - 1 := m];
    }
  }

  lemma {:induction false} TotalMonotone(a: Fleet, b: Fleet)
    requires |a| == |b| && forall i :: 0 <= i < |a| ==> a[i].weight <= b[i].weight
    ensures Total(a) <= Total(b)
  {
    if a == [] {
    } else {
      TotalMonotone(a[1..], b[1..]);
    }
  }

  lemma {:induction false} NoWeightNoTotal(fleet: Fleet)
    requires forall i :: 0 <= i < |fleet| ==> fleet[i].weight <= 0.0
    ensures Total(fleet) <= 0.0
  {
    if fleet == [] {
    } else {
      NoWeightNoTotal(fleet[1..]);
    }
  }

  /** A penalty takes at most its amount from the total, because of the clamp at zero. */
  lemma PenaltyCostsAtMost(fleet: Fleet, i: nat, penalty: real, now: real)
    requires InRange(fleet) && i < |fleet| && penalty >= 0.0
    ensures InRange(PenalizedAt(fleet, i, penalty, now))
    ensures Total(fleet) - penalty <= Total(PenalizedAt(fleet, i, penalty, now)) <= Total(fleet)
  {
    if penalty > 0.0 {
      TotalOfUpdate(fleet, i, PenalizedAt(fleet, i, penalty, now)[i]);
    }
  }
}
