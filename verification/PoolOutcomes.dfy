/** That the worker pool counts and reports what its downloads came to (internal/downloader/worker_pool.go). */
module PoolOutcomes {
  import opened WorkerPool

  /** The event settles a running task with the given outcome. */
  predicate Settles(s: State, e: Event, ok: bool)
  {
    !s.panicked && e.Settle? && e.ok == ok && e.w < |s.workers| && s.workers[e.w].Running?
  }

  predicate SettlesTask(s: State, e: Event, task: Task, ok: bool)
  {
    Settles(s, e, ok) && s.workers[e.w].task == task
  }

  // ---------- counters ----------

  /** How many tasks were settled with the given outcome. */
  function Settlements(s: State, events: seq<Event>, ok: bool): nat
  {
    if events == [] then 0
    else
      var front, e := events[..|events| - 1], events[|events| - 1];
      Settlements(s, front, ok) + One(Settles(After(s, front), e, ok))
  }

  lemma WorkerCounts(s: State, e: Event)
    requires !s.panicked && OfWorker(e) && e.w < |s.workers|
    ensures var s' := Moved(s, e.w, NextWorker(s, s.workers[e.w], e));
      && s'.successful == s.successful + One(Settles(s, e, true))
      && s'.failed == s.failed + One(Settles(s, e, false))
  {
  }

  lemma StepCounts(s: State, e: Event)
    ensures Apply(s, e).successful == s.successful + One(Settles(s, e, true))
    ensures Apply(s, e).failed == s.failed + One(Settles(s, e, false))
  {
    if !s.panicked && OfWorker(e) && e.w < |s.workers| {
      WorkerCounts(s, e);
    }
  }

  /** In every interleaving the counters are the numbers of downloads that succeeded and that failed. */
  lemma {:induction false} CountersAreTrue(requested: int, calls: seq<bool>, events: seq<Event>)
    ensures var s := After(New(requested, calls), events);
      && s.successful == Settlements(New(requested, calls), events, true)
      && s.failed == Settlements(New(requested, calls), events, false)
  {
    if events == [] {
    } else {
      CountersAreTrue(requested, calls, events[..|events| - 1]);
      StepCounts(After(New(requested, calls), events[..|events| - 1]), events[|events| - 1]);
    }
  }

  // ---------- reports ----------

  /** Some event of the run settled the task with that outcome. */
  ghost predicate WasSettled(s: State, events: seq<Event>, task: Task, ok: bool)
  {
    exists i :: 0 <= i < |events| && SettlesTask(After(s, events[..i]), events[i], task, ok)
  }

  /** Every outcome that is reported, or about to be, was settled. */
  ghost predicate Truthful(s: State, events: seq<Event>, now: State)
  {
    && (forall r :: r in now.reports ==> WasSettled(s, events, r.task, r.ok))
    && (forall w :: 0 <= w < |now.workers| && now.workers[w].Settled? ==>
          WasSettled(s, events, now.workers[w].task, now.workers[w].ok))
  }

  lemma StaysSettled(s: State, front: seq<Event>, e: Event, task: Task, ok: bool)
    requires WasSettled(s, front, task, ok)
    ensures WasSettled(s, front + [e], task, ok)
  {
    var i :| 0 <= i < |front| && SettlesTask(After(s, front[..i]), front[i], task, ok);
    assert (front + [e])[..i] == front[..i] && (front + [e])[i] == front[i];
  }

  lemma NowSettled(s: State, front: seq<Event>, e: Event, task: Task, ok: bool)
    requires SettlesTask(After(s, front), e, task, ok)
    ensures WasSettled(s, front + [e], task, ok)
  {
    assert (front + [e])[..|front|] == front && (front + [e])[|front|] == e;
  }

  /** What is new in the reports comes from a worker that had settled. */
  ghost predicate FromSettled(s: State, s': State)
  {
    forall r :: r in s'.reports && r !in s.reports ==>
      exists w :: 0 <= w < |s.workers| && s.workers[w] == Settled(r.task, r.ok)
  }

  /** A worker settles by settling. */
  ghost predicate BySettling(s: State, e: Event, s': State)
  {
    forall w :: 0 <= w < |s'.workers| && s'.workers[w].Settled? ==>
      || (w < |s.workers| && s.workers[w] == s'.workers[w])
      || SettlesTask(s, e, s'.workers[w].task, s'.workers[w].ok)
  }

  ghost predicate Follows(s: State, e: Event, s': State)
  {
    FromSettled(s, s') && BySettling(s, e, s')
  }

  lemma WorkerReports(s: State, w: nat, to: Worker)
    requires w < |s.workers|
    ensures FromSettled(s, Moved(s, w, to))
  {
    var from := s.workers[w];
    if from.Settled? {
      assert s.workers[w] == Settled(from.task, from.ok);
    }
  }

  lemma WorkerSettles(s: State, e: Event)
    requires !s.panicked && OfWorker(e) && e.w < |s.workers|
    ensures BySettling(s, e, Moved(s, e.w, NextWorker(s, s.workers[e.w], e)))
  {
  }

  lemma StepFollows(s: State, e: Event)
    ensures Follows(s, e, Apply(s, e))
  {
    if !s.panicked && OfWorker(e) && e.w < |s.workers| {
      WorkerReports(s, e.w, NextWorker(s, s.workers[e.w], e));
      WorkerSettles(s, e);
    }
  }

  lemma StepTruthful(s: State, front: seq<Event>, e: Event)
    requires Truthful(s, front, After(s, front))
    ensures Truthful(s, front + [e], Apply(After(s, front), e))
  {
    var before, after := After(s, front), Apply(After(s, front), e);
    StepFollows(before, e);
    forall r | r in after.reports ensures WasSettled(s, front + [e], r.task, r.ok) {
      StaysSettled(s, front, e, r.task, r.ok);
    }
    forall w | 0 <= w < |after.workers| && after.workers[w].Settled?
      ensures WasSettled(s, front + [e], after.workers[w].task, after.workers[w].ok)
    {
      if SettlesTask(before, e, after.workers[w].task, after.workers[w].ok) {
        NowSettled(s, front, e, after.workers[w].task, after.workers[w].ok);
      } else {
        StaysSettled(s, front, e, after.workers[w].task, after.workers[w].ok);
      }
    }
  }

  lemma {:induction false} TruthfulAlways(requested: int, calls: seq<bool>, events: seq<Event>)
    ensures Truthful(New(requested, calls), events, After(New(requested, calls), events))
  {
    if events == [] {
    } else {
      var front, e := events[..|events| - 1], events[|events| - 1];
      TruthfulAlways(requested, calls, front);
      StepTruthful(New(requested, calls), front, e);
      assert front + [e] == events;
    }
  }

  /** In every interleaving a task is reported as succeeded only if its download succeeded, and as failed only if it
      failed. */
  lemma ReportsAreTrue(requested: int, calls: seq<bool>, events: seq<Event>, task: Task, ok: bool)
    requires Report(task, ok) in After(New(requested, calls), events).reports
    ensures WasSettled(New(requested, calls), events, task, ok)
  {
    TruthfulAlways(requested, calls, events);
  }
}
