/** The download worker pool as a state machine (internal/downloader/worker_pool.go), from its creation on. One
    event is one action on shared state; an interleaving is a sequence of events, and an event that is not enabled
    changes nothing. A pool can be started again after it was stopped, but its queue stays closed: a send on it, or
    closing it a second time, panics and ends the program. */
module WorkerPool {

  /** Tasks carry the number of the `Queue` call that submits them. */
  type Task = nat

  /** A worker goroutine. `Waiting`: at its select, on the queue and on the stop channel of the given `Start`. `Took`: a
      task was received; `Running`: it was counted; `Settled`: its outcome was counted. */
  datatype Worker =
    | Waiting(channel: nat)
    | Took(task: Task)
    | Running(task: Task)
    | Settled(task: Task, ok: bool)
    | Exited

  /** A call of `Queue`. `Checked`: it saw the pool running and its task is valid, and has yet to send it. */
  datatype Producer = Calling(valid: bool) | Checked | Accepted | Refused

  datatype Report = Report(task: Task, ok: bool)

  /** `size` is the number of workers that one `Start` brings to life, and `starts` how often that has happened. Each
      `Start` makes a new stop channel; those of earlier starts are closed, and the last one is if `stopClosed`. */
  datatype State = State(
    size: nat, starts: nat, running: bool, stopClosed: bool, queueClosed: bool,
    queue: seq<Task>, workers: seq<Worker>, wg: nat, producers: seq<Producer>,
    total: nat, successful: nat, failed: nat, reports: seq<Report>, panicked: bool)

  datatype Event =
    | Start | Stop
    | Check(p: nat) | Send(p: nat) | TimeOut(p: nat)
    | Receive(w: nat) | SeeStop(w: nat) | Count(w: nat) | Settle(w: nat, ok: bool) | Deliver(w: nat)

  /** The number of workers that `NewWorkerPool` settles on. */
  function WorkerCount(requested: int): (n: nat)
    ensures 1 <= n <= 100
    ensures if requested < 1 then n == 1 else if requested > 100 then n == 100 else n == requested
  {
    if requested < 1 then 1 else if requested > 100 then 100 else requested
  }

  function New(requested: int, calls: seq<bool>): State
  {
    State(WorkerCount(requested), 0, false, false, false, [], [], 0,
          seq(|calls|, i requires 0 <= i < |calls| => Calling(calls[i])), 0, 0, 0, [], false)
  }

  function Capacity(s: State): nat
  {
    2 * s.size
  }

  // ---------- steps ----------

  /** Whether the stop channel of a `Start` is closed. */
  predicate IsClosed(s: State, channel: nat)
  {
    channel < s.starts || s.stopClosed
  }

  /** What a worker does next: it is its own choice whether to receive or to see the stop signal when both can be. */
  function NextWorker(s: State, worker: Worker, e: Event): Worker
  {
    match worker
    case Waiting(channel) =>
      if e.Receive? && s.queue != [] then Took(s.queue[0])
      else if (e.Receive? && s.queueClosed) || (e.SeeStop? && IsClosed(s, channel)) then Exited
      else worker
    case Took(task) => if e.Count? then Running(task) else worker
    case Running(task) => if e.Settle? then Settled(task, e.ok) else worker
    case Settled(task, _) => if e.Deliver? then Waiting(s.starts) else worker
    case Exited => worker
  }

  function One(b: bool): nat
  {
    if b then 1 else 0
  }

  /** The effect of worker `w` becoming `to`. */
  function Moved(s: State, w: nat, to: Worker): State
    requires w < |s.workers|
  {
    var from := s.workers[w];
    s.(workers := s.workers[w := to],
       queue := if from.Waiting? && to.Took? && s.queue != [] then s.queue[1..] else s.queue,
       wg := if from.Waiting? && to.Exited? && s.wg > 0 then s.wg - 1 else s.wg,
       total := s.total + One(from.Took? && to.Running?),
       successful := s.successful + One(from.Running? && to.Settled? && to.ok),
       failed := s.failed + One(from.Running? && to.Settled? && !to.ok),
       reports := if from.Settled? && to.Waiting? then s.reports + [Report(from.task, from.ok)] else s.reports)
  }

  function WithProducer(s: State, p: nat, producer: Producer): State
    requires p < |s.producers|
  {
    s.(producers := s.producers[p := producer])
  }

  function ProducerStep(s: State, p: nat, e: Event): State
    requires p < |s.producers|
  {
    var producer := s.producers[p];
    if e.Check? && producer.Calling? then
      WithProducer(s, p, if s.running && producer.valid then Checked else Refused)
    else if e.Send? && producer.Checked? then
      if s.queueClosed then s.(panicked := true)
      else if |s.queue| < Capacity(s) then WithProducer(s, p, Accepted).(queue := s.queue + [p])
      else s
    else if e.TimeOut? && producer.Checked? then WithProducer(s, p, Refused)
    else s
  }

  predicate OfWorker(e: Event)
  {
    e.Receive? || e.SeeStop? || e.Count? || e.Settle? || e.Deliver?
  }

  predicate OfProducer(e: Event)
  {
    e.Check? || e.Send? || e.TimeOut?
  }

  function Waiters(n: nat, channel: nat): seq<Worker>
  {
    seq(n, _ => Waiting(channel))
  }

  function Started(s: State): State
  {
    s.(running := true, stopClosed := false, starts := s.starts + 1,
       workers := s.workers + Waiters(s.size, s.starts + 1), wg := s.wg + s.size)
  }

  /** Stop channel and queue are closed one after the other, and the queue may have been closed before. */
  function Halting(s: State): State
  {
    s.(running := false, stopClosed := true, queueClosed := true, panicked := s.queueClosed)
  }

  function Apply(s: State, e: Event): (s': State)
    ensures s'.size == s.size && |s'.workers| >= |s.workers| && |s'.producers| == |s.producers|
  {
    if s.panicked then s
    else if e.Start? then if s.running then s else Started(s)
    else if e.Stop? then if s.running then Halting(s) else s
    else if OfWorker(e) then
      if e.w < |s.workers| then Moved(s, e.w, NextWorker(s, s.workers[e.w], e)) else s
    else if e.p < |s.producers| then ProducerStep(s, e.p, e) else s
  }

  function After(s: State, events: seq<Event>): (s': State)
    ensures s'.size == s.size && |s'.workers| >= |s.workers| && |s'.producers| == |s.producers|
  {
    if events == [] then s else Apply(After(s, events[..|events| - 1]), events[|events| - 1])
  }

  // ---------- counting workers ----------

  datatype Kind = Live | Busy | Counted | Undelivered | UndeliveredOk | Holding(task: Task)

  predicate Is(worker: Worker, kind: Kind)
  {
    match kind
    case Live => !worker.Exited?
    case Busy => worker.Took? || worker.Running? || worker.Settled?
    case Counted => worker.Running?
    case Undelivered => worker.Settled?
    case UndeliveredOk => worker.Settled? && worker.ok
    case Holding(task) => (worker.Took? || worker.Running? || worker.Settled?) && worker.task == task
  }

  function Number(workers: seq<Worker>, kind: Kind): nat
  {
    if workers == [] then 0 else (if Is(workers[0], kind) then 1 else 0) + Number(workers[1..], kind)
  }

  lemma {:induction false} NumberOfUpdate(workers: seq<Worker>, w: nat, worker: Worker, kind: Kind)
    requires w < |workers|
    ensures Number(workers[w := worker], kind)
         == Number(workers, kind) - (if Is(workers[w], kind) then 1 else 0) + (if Is(worker, kind) then 1 else 0)
    ensures Is(workers[w], kind) ==> Number(workers, kind) > 0
  {
    if w == 0 {
      assert workers[w := worker][1..] == workers[1..];
    } else {
      NumberOfUpdate(workers[1..], w - 1, worker, kind);
      assert workers[w := worker][1..] == workers[1..][w - 1 := worker];
    }
  }

  lemma {:induction false} NumberOfSame(workers: seq<Worker>, kind: Kind)
    requires forall i, j :: 0 <= i < j < |workers| ==> workers[i] == workers[j]
    ensures Number(workers, kind) == if workers != [] && Is(workers[0], kind) then |workers| else 0
  {
    if |workers| <= 1 {
    } else {
      NumberOfSame(workers[1..], kind);
    }
  }

  lemma {:induction false} NumberOfSum(a: seq<Worker>, b: seq<Worker>, kind: Kind)
    ensures Number(a + b, kind) == Number(a, kind) + Number(b, kind)
  {
    if a == [] {
      assert a + b == b;
    } else {
      NumberOfSum(a[1..], b, kind);
      assert (a + b)[1..] == a[1..] + b;
    }
  }

  /** A start adds live workers, and none of any other kind. */
  lemma NumberOfStart(s: State, kind: Kind)
    ensures Number(Started(s).workers, kind) == Number(s.workers, kind) + if kind == Live then s.size else 0
  {
    var added := Waiters(s.size, s.starts + 1);
    NumberOfSum(s.workers, added, kind);
    NumberOfSame(added, kind);
  }

  lemma {:induction false} NumberAtMost(workers: seq<Worker>, kind: Kind)
    ensures Number(workers, kind) <= |workers|
  {
    if workers == [] {
    } else {
      NumberAtMost(workers[1..], kind);
    }
  }

  // ---------- where tasks are ----------

  function Queued(queue: seq<Task>, task: Task): nat
  {
    if queue == [] then 0 else (if queue[0] == task then 1 else 0) + Queued(queue[1..], task)
  }

  lemma {:induction false} QueuedOfSend(queue: seq<Task>, task: Task, sent: Task)
    ensures Queued(queue + [sent], task) == Queued(queue, task) + if sent == task then 1 else 0
  {
    if queue == [] {
      assert queue + [sent] == [sent];
    } else {
      QueuedOfSend(queue[1..], task, sent);
      assert (queue + [sent])[1..] == queue[1..] + [sent];
    }
  }

  function Reported(reports: seq<Report>, task: Task): nat
  {
    if reports == [] then 0
    else Reported(reports[..|reports| - 1], task) + if reports[|reports| - 1].task == task then 1 else 0
  }

  function Successes(reports: seq<Report>): nat
  {
    if reports == [] then 0
    else Successes(reports[..|reports| - 1]) + if reports[|reports| - 1].ok then 1 else 0
  }

  predicate IsAccepted(producers: seq<Producer>, task: Task)
  {
    task < |producers| && producers[task].Accepted?
  }

  // ---------- conservation ----------

  /** The places a task is in: the queue, the hands of workers, and the reports. */
  function Places(s: State, task: Task): nat
  {
    Queued(s.queue, task) + Number(s.workers, Holding(task)) + Reported(s.reports, task)
  }

  ghost predicate Placed(s: State, task: Task)
  {
    Places(s, task) == if IsAccepted(s.producers, task) then 1 else 0
  }

  /** An accepted task is in exactly one place, and no other task is anywhere. */
  ghost predicate Conserved(s: State)
  {
    forall task: Task :: Placed(s, task)
  }

  /** Whether a worker becoming `to` takes the task out of the queue, and whether it reports the task. */
  predicate Takes(s: State, from: Worker, to: Worker, task: Task)
  {
    from.Waiting? && to.Took? && s.queue != [] && s.queue[0] == task
  }

  predicate Reports(from: Worker, to: Worker, task: Task)
  {
    from.Settled? && to.Waiting? && from.task == task
  }

  lemma MovedQueue(s: State, w: nat, to: Worker, task: Task)
    requires w < |s.workers|
    ensures Queued(s.queue, task) == Queued(Moved(s, w, to).queue, task) + One(Takes(s, s.workers[w], to, task))
  {
  }

  lemma MovedReports(s: State, w: nat, to: Worker, task: Task)
    requires w < |s.workers|
    ensures Reported(Moved(s, w, to).reports, task) == Reported(s.reports, task) + One(Reports(s.workers[w], to, task))
  {
  }

  /** The worker that takes a task holds it, and the one that reports it does not hold it any more. */
  lemma NextHolds(s: State, from: Worker, e: Event, task: Task)
    ensures var to := NextWorker(s, from, e);
      One(Is(from, Holding(task))) + One(Takes(s, from, to, task))
        == One(Is(to, Holding(task))) + One(Reports(from, to, task))
  {
  }

  lemma WorkerMovesTask(s: State, w: nat, e: Event, task: Task)
    requires w < |s.workers|
    ensures Places(Moved(s, w, NextWorker(s, s.workers[w], e)), task) == Places(s, task)
  {
    var to := NextWorker(s, s.workers[w], e);
    NumberOfUpdate(s.workers, w, to, Holding(task));
    MovedQueue(s, w, to, task);
    MovedReports(s, w, to, task);
    NextHolds(s, s.workers[w], e, task);
  }

  lemma ProducerAddsTask(s: State, p: nat, e: Event, task: Task)
    requires p < |s.producers| && OfProducer(e) && Placed(s, task)
    ensures Placed(ProducerStep(s, p, e), task)
  {
    QueuedOfSend(s.queue, task, p);
  }

  lemma StartMovesNothing(s: State, task: Task)
    ensures Places(Started(s), task) == Places(s, task)
  {
    NumberOfStart(s, Holding(task));
  }

  lemma StepKeepsPlaced(s: State, e: Event, task: Task)
    requires Placed(s, task)
    ensures Placed(Apply(s, e), task)
  {
    if OfWorker(e) && e.w < |s.workers| {
      WorkerMovesTask(s, e.w, e, task);
    } else if OfProducer(e) && e.p < |s.producers| {
      ProducerAddsTask(s, e.p, e, task);
    } else if e.Start? {
      StartMovesNothing(s, task);
    }
  }

  // ---------- the lifetime ----------

  /** Before the first `Start`, running, stopped, or started again with the queue closed. */
  ghost predicate Phase(s: State)
  {
    && (s.starts == 0 <==> !s.running && !s.queueClosed)
    && (s.running ==> !s.stopClosed)
    && (s.stopClosed || s.panicked ==> s.queueClosed)
    && (s.queueClosed && !s.running ==> s.stopClosed)
    && (!s.panicked ==> s.starts == One(s.running) + One(s.queueClosed))
    && s.starts <= 2
  }

  /** No worker has left, and the idle ones wait on the last stop channel. */
  ghost predicate AllAwake(s: State)
  {
    forall w :: 0 <= w < |s.workers| ==>
      s.workers[w] != Exited && (s.workers[w].Waiting? ==> s.workers[w].channel == s.starts)
  }

  ghost predicate Lifetime(s: State)
  {
    && Phase(s)
    && (!s.queueClosed ==> AllAwake(s))
    && |s.workers| == (if s.starts == 0 then 0 else if s.starts == 1 then s.size else 2 * s.size)
    && |s.queue| <= Capacity(s)
    && s.wg == Number(s.workers, Live)
  }

  lemma WorkerKeepsLifetime(s: State, w: nat, e: Event)
    requires Lifetime(s) && w < |s.workers|
    ensures Lifetime(Moved(s, w, NextWorker(s, s.workers[w], e)))
  {
    NumberOfUpdate(s.workers, w, NextWorker(s, s.workers[w], e), Live);
  }

  lemma StartKeepsLifetime(s: State)
    requires Lifetime(s) && !s.running && !s.panicked
    ensures Lifetime(Started(s))
  {
    NumberOfStart(s, Live);
  }

  lemma StepKeepsLifetime(s: State, e: Event)
    requires Lifetime(s)
    ensures Lifetime(Apply(s, e))
  {
    if e.Start? && !s.panicked && !s.running {
      StartKeepsLifetime(s);
    } else if OfWorker(e) && e.w < |s.workers| {
      WorkerKeepsLifetime(s, e.w, e);
    }
  }

  // ---------- counters ----------

  /** Each counted task is settled or still running, and each settled one is reported or about to be. */
  ghost predicate Balanced(s: State)
  {
    && s.total == s.successful + s.failed + Number(s.workers, Counted)
    && s.successful + s.failed == |s.reports| + Number(s.workers, Undelivered)
    && s.successful == Successes(s.reports) + Number(s.workers, UndeliveredOk)
  }

  lemma WorkerKeepsTotal(s: State, w: nat, e: Event)
    requires w < |s.workers| && s.total == s.successful + s.failed + Number(s.workers, Counted)
    ensures var s' := Moved(s, w, NextWorker(s, s.workers[w], e));
      s'.total == s'.successful + s'.failed + Number(s'.workers, Counted)
  {
    NumberOfUpdate(s.workers, w, NextWorker(s, s.workers[w], e), Counted);
  }

  lemma WorkerKeepsReports(s: State, w: nat, e: Event)
    requires w < |s.workers|
    requires s.successful + s.failed == |s.reports| + Number(s.workers, Undelivered)
    ensures var s' := Moved(s, w, NextWorker(s, s.workers[w], e));
      s'.successful + s'.failed == |s'.reports| + Number(s'.workers, Undelivered)
  {
    NumberOfUpdate(s.workers, w, NextWorker(s, s.workers[w], e), Undelivered);
  }

  lemma MovedSuccesses(s: State, w: nat, to: Worker)
    requires w < |s.workers|
    ensures var from := s.workers[w];
      Successes(Moved(s, w, to).reports) == Successes(s.reports) + One(from.Settled? && to.Waiting? && from.ok)
  {
  }

  lemma WorkerKeepsSuccesses(s: State, w: nat, e: Event)
    requires w < |s.workers| && s.successful == Successes(s.reports) + Number(s.workers, UndeliveredOk)
    ensures var s' := Moved(s, w, NextWorker(s, s.workers[w], e));
      s'.successful == Successes(s'.reports) + Number(s'.workers, UndeliveredOk)
  {
    var to := NextWorker(s, s.workers[w], e);
    NumberOfUpdate(s.workers, w, to, UndeliveredOk);
    MovedSuccesses(s, w, to);
  }

  lemma StartKeepsBalanced(s: State)
    requires Balanced(s)
    ensures Balanced(Started(s))
  {
    NumberOfStart(s, Counted);
    NumberOfStart(s, Undelivered);
    NumberOfStart(s, UndeliveredOk);
  }

  lemma StepKeepsBalanced(s: State, e: Event)
    requires Balanced(s)
    ensures Balanced(Apply(s, e))
  {
    if e.Start? {
      StartKeepsBalanced(s);
    } else if OfWorker(e) && e.w < |s.workers| {
      WorkerKeepsTotal(s, e.w, e);
      WorkerKeepsReports(s, e.w, e);
      WorkerKeepsSuccesses(s, e.w, e);
    }
  }

  // ---------- every run ----------

  lemma NewIsOrderly(requested: int, calls: seq<bool>)
    ensures Lifetime(New(requested, calls)) && Balanced(New(requested, calls)) && Conserved(New(requested, calls))
  {
  }

  /** In every interleaving, restarts and crashes included: an accepted task is in exactly one place, so it is
      reported at most once, and no other task is reported; the counters balance; the queue stays within its
      capacity; the wait-group counts the live workers. */
  lemma {:induction false} PoolConserves(requested: int, calls: seq<bool>, events: seq<Event>)
    ensures var s := After(New(requested, calls), events);
            Lifetime(s) && Balanced(s) && Conserved(s) && 1 <= s.size <= 100 && |s.queue| <= 2 * s.size
  {
    if events == [] {
      NewIsOrderly(requested, calls);
    } else {
      var s, e := After(New(requested, calls), events[..|events| - 1]), events[|events| - 1];
      PoolConserves(requested, calls, events[..|events| - 1]);
      StepKeepsLifetime(s, e);
      StepKeepsBalanced(s, e);
      forall task: Task ensures Placed(Apply(s, e), task) {
        assert Placed(s, task);
        StepKeepsPlaced(s, e, task);
      }
    }
  }

  // ---------- panics ----------

  ghost predicate NoStart(events: seq<Event>)
  {
    forall i :: 0 <= i < |events| ==> !events[i].Start?
  }

  ghost predicate NoStop(events: seq<Event>)
  {
    forall i :: 0 <= i < |events| ==> !events[i].Stop?
  }

  /** No call of `Queue` is between its check and its send. */
  ghost predicate Quiet(s: State)
  {
    forall p :: 0 <= p < |s.producers| ==> s.producers[p] != Checked
  }

  /** Some call of `Queue` is past its check, or is yet to come with a valid task. */
  ghost predicate Expects(s: State)
  {
    exists p :: 0 <= p < |s.producers| && s.producers[p] in {Checked, Calling(true)}
  }

  /** Stopped, and not started again. */
  ghost predicate Halted(s: State)
  {
    Lifetime(s) && s.queueClosed && !s.running && !s.panicked
  }

  ghost predicate Stopped(s: State)
  {
    Halted(s) && Quiet(s)
  }

  lemma {:induction false} StaysStopped(s: State, events: seq<Event>)
    requires Stopped(s) && NoStart(events)
    ensures Stopped(After(s, events))
  {
    if events == [] {
    } else {
      StaysStopped(s, events[..|events| - 1]);
      StepKeepsLifetime(After(s, events[..|events| - 1]), events[|events| - 1]);
    }
  }

  lemma NobodyStepSends(s: State, e: Event)
    requires !Expects(s) && !s.panicked && !e.Stop?
    ensures !Expects(Apply(s, e)) && !Apply(s, e).panicked
  {
  }

  lemma {:induction false} NobodySends(s: State, events: seq<Event>)
    requires !Expects(s) && !s.panicked && NoStop(events)
    ensures !Expects(After(s, events)) && !After(s, events).panicked
  {
    if events == [] {
    } else {
      NobodySends(s, events[..|events| - 1]);
      NobodyStepSends(After(s, events[..|events| - 1]), events[|events| - 1]);
    }
  }

  ghost predicate CanCrashUnlessStarted(s: State)
  {
    exists events :: NoStart(events) && After(s, events).panicked
  }

  ghost predicate CanCrashUnlessStopped(s: State)
  {
    exists events :: NoStop(events) && After(s, events).panicked
  }

  lemma CrashOfSend(s: State, p: nat)
    requires Halted(s) && p < |s.producers| && s.producers[p] == Checked
    ensures CanCrashUnlessStarted(s) && CanCrashUnlessStopped(s)
  {
    AfterOne(s, Send(p));
    assert NoStart([Send(p)]) && NoStop([Send(p)]);
  }

  /** `Start` succeeds on a stopped pool, but the next valid task is sent on the closed queue. */
  lemma CrashOfRestart(s: State, p: nat)
    requires Halted(s) && p < |s.producers| && s.producers[p] == Calling(true)
    ensures CanCrashUnlessStopped(s)
  {
    var events := [Start, Check(p), Send(p)];
    AfterFirst(s, Start, [Check(p), Send(p)]);
    AfterFirst(Apply(s, Start), Check(p), [Send(p)]);
    AfterOne(Apply(Apply(s, Start), Check(p)), Send(p));
    assert events == [Start] + [Check(p), Send(p)] && [Check(p), Send(p)] == [Check(p)] + [Send(p)];
    assert NoStop(events);
  }

  /** When a stopped pool can still crash the program. Unless it is started again: if and only if some call of
      `Queue` was between its check and its send when `Stop` ran. If it may be started again, but not stopped again:
      if and only if some call was there or is yet to come with a valid task. And stopping it again after a restart
      always does, because the queue is closed twice. */
  lemma CrashNeedsStraggler(s: State)
    requires Lifetime(s) && s.running && !s.queueClosed
    ensures CanCrashUnlessStarted(Apply(s, Stop)) <==> !Quiet(s)
    ensures CanCrashUnlessStopped(Apply(s, Stop)) <==> Expects(s)
    ensures After(Apply(s, Stop), [Start, Stop]).panicked
  {
    var stopped := Apply(s, Stop);
    StepKeepsLifetime(s, Stop);
    if Quiet(s) {
      forall events | NoStart(events) ensures !After(stopped, events).panicked {
        StaysStopped(stopped, events);
      }
    } else {
      var p :| 0 <= p < |s.producers| && s.producers[p] == Checked;
      CrashOfSend(stopped, p);
    }
    if Expects(s) {
      var p :| 0 <= p < |s.producers| && s.producers[p] in {Checked, Calling(true)};
      if s.producers[p] == Checked {
        CrashOfSend(stopped, p);
      } else {
        CrashOfRestart(stopped, p);
      }
    } else {
      forall events | NoStop(events) ensures !After(stopped, events).panicked {
        NobodySends(stopped, events);
      }
    }
    AfterFirst(stopped, Start, [Stop]);
    AfterOne(Apply(stopped, Start), Stop);
    assert [Start] + [Stop] == [Start, Stop];
  }

  // ---------- shutdown ----------

  function Work(worker: Worker): nat
  {
    match worker
    case Waiting(_) => 1
    case Took(_) => 4
    case Running(_) => 3
    case Settled(_, _) => 2
    case _ => 0
  }

  function TotalWork(workers: seq<Worker>): nat
  {
    if workers == [] then 0 else Work(workers[0]) + TotalWork(workers[1..])
  }

  lemma {:induction false} WorkOfUpdate(workers: seq<Worker>, w: nat, worker: Worker)
    requires w < |workers|
    ensures TotalWork(workers[w := worker]) == TotalWork(workers) - Work(workers[w]) + Work(worker)
  {
    if w == 0 {
      assert workers[w := worker][1..] == workers[1..];
    } else {
      WorkOfUpdate(workers[1..], w - 1, worker);
      assert workers[w := worker][1..] == workers[1..][w - 1 := worker];
    }
  }

  /** What the workers have left to do. */
  function Measure(s: State): nat
  {
    4 * |s.queue| + TotalWork(s.workers)
  }

  lemma NextWork(s: State, from: Worker, e: Event)
    requires NextWorker(s, from, e) != from
    ensures var to := NextWorker(s, from, e);
      if from.Waiting? && to.Took? then s.queue != [] && Work(to) < Work(from) + 4 else Work(to) < Work(from)
  {
  }

  lemma StandingStill(s: State, w: nat)
    requires w < |s.workers|
    ensures Moved(s, w, s.workers[w]) == s
  {
    assert s.workers[w := s.workers[w]] == s.workers;
  }

  /** Every action that a worker takes lowers the measure, running or stopped. */
  lemma WorkerLowersMeasure(s: State, e: Event)
    requires OfWorker(e) && Apply(s, e) != s
    ensures Measure(Apply(s, e)) < Measure(s)
  {
    StandingStill(s, e.w);
    NextWork(s, s.workers[e.w], e);
    WorkOfUpdate(s.workers, e.w, NextWorker(s, s.workers[e.w], e));
  }

  /** How many events of the run are actions of workers that did something. */
  function WorkerActions(s: State, events: seq<Event>): nat
  {
    if events == [] then 0
    else
      var before, e := After(s, events[..|events| - 1]), events[|events| - 1];
      WorkerActions(s, events[..|events| - 1]) + One(OfWorker(e) && Apply(before, e) != before)
  }

  /** After a stop with no straggler, workers take at most `Measure(s)` more actions in any interleaving without
      restart. */
  lemma {:induction false} ShutdownIsBounded(s: State, events: seq<Event>)
    requires Stopped(s) && NoStart(events)
    ensures WorkerActions(s, events) + Measure(After(s, events)) <= Measure(s)
  {
    if events == [] {
    } else {
      var before, e := After(s, events[..|events| - 1]), events[|events| - 1];
      ShutdownIsBounded(s, events[..|events| - 1]);
      StaysStopped(s, events[..|events| - 1]);
      if OfWorker(e) && Apply(before, e) != before {
        WorkerLowersMeasure(before, e);
      }
    }
  }

  /** An action that a live worker of a stopped pool can take; idle workers see the stop signal. */
  function NextAction(worker: Worker, w: nat): Event
  {
    match worker
    case Took(_) => Count(w)
    case Running(_) => Settle(w, false)
    case Settled(_, _) => Deliver(w)
    case _ => SeeStop(w)
  }

  lemma LiveCanMove(s: State, w: nat)
    requires Halted(s) && w < |s.workers| && Is(s.workers[w], Live)
    ensures var s' := Apply(s, NextAction(s.workers[w], w));
      && s' != s && Halted(s') && s'.queue == s.queue && s.reports <= s'.reports
      && |s'.reports| + Number(s'.workers, Busy) == |s.reports| + Number(s.workers, Busy)
  {
    var e := NextAction(s.workers[w], w);
    assert Apply(s, e).workers[w] != s.workers[w];
    NumberOfUpdate(s.workers, w, NextWorker(s, s.workers[w], e), Busy);
    StepKeepsLifetime(s, e);
  }

  ghost predicate AllExited(s: State)
  {
    forall w :: 0 <= w < |s.workers| ==> s.workers[w] == Exited
  }

  lemma ExitedCount(workers: seq<Worker>, kind: Kind)
    requires forall w :: 0 <= w < |workers| ==> workers[w] == Exited
    ensures Number(workers, kind) == 0
  {
    NumberOfSame(workers, kind);
  }

  /** When no worker can do anything more, all have exited, the wait-group is zero, so that `WaitForCompletion` returns,
      and each accepted task is either reported once or left in the queue. */
  lemma ShutdownIsComplete(s: State)
    requires Halted(s) && Conserved(s)
    requires forall e :: OfWorker(e) ==> Apply(s, e) == s
    ensures AllExited(s) && s.wg == 0
    ensures forall task: Task :: Queued(s.queue, task) + Reported(s.reports, task) == One(IsAccepted(s.producers, task))
  {
    forall w | 0 <= w < |s.workers| ensures s.workers[w] == Exited {
      if Is(s.workers[w], Live) {
        LiveCanMove(s, w);
      }
    }
    ExitedCount(s.workers, Live);
    forall task: Task ensures Queued(s.queue, task) + Reported(s.reports, task) == One(IsAccepted(s.producers, task)) {
      assert Placed(s, task);
      ExitedCount(s.workers, Holding(task));
    }
  }

  /** Such an end is always reached, also with the whole queue left behind: the tasks in the hands of workers are
      reported, and then the workers may all see the stop signal first. */
  lemma {:induction false} ShutdownTerminates(s: State) returns (events: seq<Event>)
    requires Halted(s)
    ensures forall i :: 0 <= i < |events| ==> OfWorker(events[i])
    ensures var s' := After(s, events);
      && AllExited(s') && s'.wg == 0 && s'.queue == s.queue
      && s.reports <= s'.reports && |s'.reports| == |s.reports| + Number(s.workers, Busy)
    decreases Measure(s)
  {
    if w :| 0 <= w < |s.workers| && Is(s.workers[w], Live) {
      var e := NextAction(s.workers[w], w);
      LiveCanMove(s, w);
      WorkerLowersMeasure(s, e);
      var more := ShutdownTerminates(Apply(s, e));
      AfterFirst(s, e, more);
      events := [e] + more;
    } else {
      ExitedCount(s.workers, Live);
      ExitedCount(s.workers, Busy);
      events := [];
    }
  }

  // ---------- draining ----------

  /** Every run that ends the workers ends the queue. */
  ghost predicate Drains(s: State)
  {
    forall events :: AllExited(After(s, events)) ==> After(s, events).queue == []
  }

  lemma StepKeepsEmpty(s: State, e: Event)
    requires s.queueClosed && s.queue == []
    ensures Apply(s, e).queueClosed && Apply(s, e).queue == []
  {
  }

  lemma {:induction false} EmptyStaysEmpty(s: State, events: seq<Event>)
    requires s.queueClosed && s.queue == []
    ensures After(s, events).queueClosed && After(s, events).queue == []
  {
    if events == [] {
    } else {
      EmptyStaysEmpty(s, events[..|events| - 1]);
      StepKeepsEmpty(After(s, events[..|events| - 1]), events[|events| - 1]);
    }
  }

  /** `Stop` drains the queue if and only if there was nothing in it: whatever the workers are at, and whatever happens
      afterwards. */
  lemma StopDrainsOnlyEmpty(s: State)
    requires Lifetime(s) && s.running && !s.queueClosed
    ensures Drains(Apply(s, Stop)) <==> s.queue == []
  {
    var stopped := Apply(s, Stop);
    StepKeepsLifetime(s, Stop);
    if s.queue == [] {
      forall events ensures After(stopped, events).queue == [] {
        EmptyStaysEmpty(stopped, events);
      }
    } else {
      var events := ShutdownTerminates(stopped);
      assert AllExited(After(stopped, events));
    }
  }

  // ---------- tasks in hand ----------

  /** The tasks in the hands of workers, and those that are still queued. */
  function InPool(s: State): nat
  {
    Number(s.workers, Busy) + |s.queue|
  }

  lemma WorkerAddsNoTask(s: State, w: nat, e: Event)
    requires w < |s.workers|
    ensures InPool(Moved(s, w, NextWorker(s, s.workers[w], e))) <= InPool(s)
  {
    NumberOfUpdate(s.workers, w, NextWorker(s, s.workers[w], e), Busy);
  }

  lemma ClosedAddsNoTask(s: State, e: Event)
    requires s.queueClosed
    ensures Apply(s, e).queueClosed && InPool(Apply(s, e)) <= InPool(s)
  {
    if OfWorker(e) && e.w < |s.workers| {
      WorkerAddsNoTask(s, e.w, e);
    } else if e.Start? {
      NumberOfStart(s, Busy);
    }
  }

  /** What a closed pool holds at any later time, it held before, and it has at most the workers of two starts. */
  lemma {:induction false} ClosedHolds(s: State, events: seq<Event>)
    requires Lifetime(s) && s.queueClosed
    ensures var s' := After(s, events); Lifetime(s') && s'.queueClosed && InPool(s') <= InPool(s)
  {
    if events == [] {
    } else {
      var before, e := After(s, events[..|events| - 1]), events[|events| - 1];
      ClosedHolds(s, events[..|events| - 1]);
      ClosedAddsNoTask(before, e);
      StepKeepsLifetime(before, e);
    }
  }

  lemma {:induction false} AllAre(workers: seq<Worker>, kind: Kind)
    requires forall w :: 0 <= w < |workers| ==> Is(workers[w], kind)
    ensures Number(workers, kind) == |workers|
  {
    if workers == [] {
    } else {
      AllAre(workers[1..], kind);
    }
  }

  /** Nobody has left the pool, and it has not crashed. */
  ghost predicate Attended(s: State)
  {
    !s.panicked && forall w :: 0 <= w < |s.workers| ==> s.workers[w] != Exited
  }

  lemma IdleReceives(s: State) returns (w: nat)
    requires Attended(s) && s.queue != [] && Number(s.workers, Busy) < |s.workers|
    ensures var s' := Apply(s, Receive(w));
      && Attended(s') && |s'.workers| == |s.workers| && |s'.queue| == |s.queue| - 1
      && Number(s'.workers, Busy) == Number(s.workers, Busy) + 1
  {
    if forall v :: 0 <= v < |s.workers| ==> Is(s.workers[v], Busy) {
      AllAre(s.workers, Busy);
    }
    w :| 0 <= w < |s.workers| && !Is(s.workers[w], Busy);
    NumberOfUpdate(s.workers, w, Took(s.queue[0]), Busy);
  }

  /** Idle workers receive until `k` tasks are in hand. */
  lemma {:induction false} Fill(s: State, k: nat) returns (events: seq<Event>)
    requires Attended(s) && k <= |s.workers| && k <= InPool(s)
    ensures Number(After(s, events).workers, Busy) >= k
    decreases |s.queue|
  {
    if Number(s.workers, Busy) >= k {
      events := [];
    } else {
      var w := IdleReceives(s);
      var more := Fill(Apply(s, Receive(w)), k);
      AfterFirst(s, Receive(w), more);
      events := [Receive(w)] + more;
    }
  }

  /** Some run comes to a state with at least `k` tasks in the hands of workers. */
  ghost predicate CanHold(s: State, k: nat)
  {
    exists events :: Number(After(s, events).workers, Busy) >= k
  }

  lemma HeldAtMost(s: State, events: seq<Event>)
    requires Lifetime(s) && s.queueClosed
    ensures Number(After(s, events).workers, Busy) <= InPool(s)
    ensures Number(After(s, events).workers, Busy) <= 2 * s.size
  {
    ClosedHolds(s, events);
    NumberAtMost(After(s, events).workers, Busy);
  }

  lemma RestartFills(s: State, k: nat)
    requires Lifetime(s) && s.running && !s.queueClosed && k <= InPool(s) && k <= 2 * s.size
    ensures CanHold(Apply(s, Stop), k)
  {
    var restarted := Apply(Apply(s, Stop), Start);
    NumberOfStart(s, Busy);
    var more := Fill(restarted, k);
    AfterFirst(Apply(s, Stop), Start, more);
    assert Number(After(Apply(s, Stop), [Start] + more).workers, Busy) >= k;
  }

  /** How many tasks can be in hand after `Stop`: exactly as many as the pool held then, in hand and queued, but no
      more than the workers of two starts. */
  lemma HandsAfterStop(s: State, k: nat)
    requires Lifetime(s) && s.running && !s.queueClosed
    ensures CanHold(Apply(s, Stop), k) <==> k <= InPool(s) && k <= 2 * s.size
  {
    var stopped := Apply(s, Stop);
    StepKeepsLifetime(s, Stop);
    if CanHold(stopped, k) {
      var events :| Number(After(stopped, events).workers, Busy) >= k;
      HeldAtMost(stopped, events);
    }
    if k <= InPool(s) && k <= 2 * s.size {
      RestartFills(s, k);
    }
  }

  /** At most 100 tasks are in the hands of workers at once, unless the pool is started again. The cap can be
      exceeded after a running pool is stopped if and only if it then holds more tasks, in hand and queued, than it
      has workers. */
  lemma BoundedParallelism(requested: int, calls: seq<bool>, events: seq<Event>)
    ensures var s := After(New(requested, calls), events);
      && (s.starts <= 1 ==> Number(s.workers, Busy) <= WorkerCount(requested) <= 100)
      && Number(s.workers, Busy) <= 2 * WorkerCount(requested)
      && (s.running && !s.queueClosed ==>
            (CanHold(Apply(s, Stop), WorkerCount(requested) + 1) <==> InPool(s) > WorkerCount(requested)))
  {
    var s := After(New(requested, calls), events);
    PoolConserves(requested, calls, events);
    NumberAtMost(s.workers, Busy);
    if s.running && !s.queueClosed {
      HandsAfterStop(s, s.size + 1);
    }
  }

  // ---------- examples ----------

  /** A new pool with one worker accepts a first task. */
  lemma OneAccepted(calls: seq<bool>)
    requires calls != [] && calls[0]
    ensures var s := After(New(1, calls), [Start, Check(0), Send(0)]);
      && s == New(1, calls).(starts := 1, running := true, workers := [Waiting(1)], wg := 1,
                             queue := [0], producers := s.producers)
      && s.producers == New(1, calls).producers[0 := Accepted]
  {
    var s := New(1, calls);
    var started := Apply(s, Start);
    assert started.workers == [Waiting(1)];
    var checked := Apply(started, Check(0));
    AfterFirst(s, Start, [Check(0)] + [Send(0)]);
    AfterFirst(started, Check(0), [Send(0)]);
    AfterOne(checked, Send(0));
    assert [Start] + ([Check(0)] + [Send(0)]) == [Start, Check(0), Send(0)];
    assert s.producers[0 := Checked][0 := Accepted] == s.producers[0 := Accepted];
  }

  /** A run from a new pool in which a straggler crashes the program. */
  lemma StragglerExample()
    ensures After(New(1, [true]), [Start, Check(0), Stop, Send(0)]).panicked
  {
    var s := New(1, [true]);
    AfterFirst(s, Start, [Check(0)] + ([Stop] + [Send(0)]));
    AfterFirst(Apply(s, Start), Check(0), [Stop] + [Send(0)]);
    AfterFirst(Apply(Apply(s, Start), Check(0)), Stop, [Send(0)]);
    AfterOne(Apply(Apply(Apply(s, Start), Check(0)), Stop), Send(0));
    assert [Start] + ([Check(0)] + ([Stop] + [Send(0)])) == [Start, Check(0), Stop, Send(0)];
  }

  lemma LeaveAtOnce(s: State)
    requires !s.panicked && s.running && !s.queueClosed && s.workers == [Waiting(s.starts)] && s.wg == 1
    ensures After(s, [Stop, SeeStop(0)]) == Halting(s).(workers := [Exited], wg := 0)
  {
    AfterFirst(s, Stop, [SeeStop(0)]);
    AfterOne(Apply(s, Stop), SeeStop(0));
    assert [Stop] + [SeeStop(0)] == [Stop, SeeStop(0)];
  }

  /** A run from a new pool that leaves an accepted task in the queue when all workers have exited. */
  lemma AbandonedExample()
    ensures var s := After(New(1, [true]), [Start, Check(0), Send(0)] + [Stop, SeeStop(0)]);
      AllExited(s) && s.queue == [0] && IsAccepted(s.producers, 0) && s.reports == []
  {
    OneAccepted([true]);
    AfterSum(New(1, [true]), [Start, Check(0), Send(0)], [Stop, SeeStop(0)]);
    LeaveAtOnce(After(New(1, [true]), [Start, Check(0), Send(0)]));
  }

  lemma TwoQueued(s: State)
    requires !s.panicked && s.running && !s.queueClosed && s.size == 1 && s.queue == [0]
    requires |s.producers| == 2 && s.producers[1] == Calling(true)
    ensures After(s, [Check(1), Send(1)]) == s.(queue := [0, 1], producers := s.producers[1 := Accepted])
  {
    AfterFirst(s, Check(1), [Send(1)]);
    AfterOne(Apply(s, Check(1)), Send(1));
    assert [Check(1)] + [Send(1)] == [Check(1), Send(1)];
    assert s.producers[1 := Checked][1 := Accepted] == s.producers[1 := Accepted];
  }

  lemma SecondReceives(s: State)
    requires !s.panicked && s.running && !s.queueClosed && s.size == 1 && s.workers == [Took(0)] && s.queue == [1]
    ensures After(s, [Stop, Start, Receive(1)]).workers == [Took(0), Took(1)]
  {
    var stopped := Apply(s, Stop);
    var restarted := Apply(stopped, Start);
    assert restarted.workers == [Took(0), Waiting(s.starts + 1)];
    AfterFirst(s, Stop, [Start] + [Receive(1)]);
    AfterFirst(stopped, Start, [Receive(1)]);
    AfterOne(restarted, Receive(1));
    assert [Stop] + ([Start] + [Receive(1)]) == [Stop, Start, Receive(1)];
  }

  lemma TwoAtOnce(s: State)
    requires !s.panicked && s.running && !s.queueClosed && s.size == 1
    requires s.workers == [Waiting(s.starts)] && s.queue == [0, 1]
    ensures After(s, [Receive(0), Stop, Start, Receive(1)]).workers == [Took(0), Took(1)]
  {
    AfterFirst(s, Receive(0), [Stop, Start, Receive(1)]);
    SecondReceives(Apply(s, Receive(0)));
    assert [Receive(0)] + [Stop, Start, Receive(1)] == [Receive(0), Stop, Start, Receive(1)];
  }

  lemma TwoBusy(a: Task, b: Task)
    ensures Number([Took(a), Took(b)], Busy) == 2
  {
    var one, two := [Took(b)], [Took(a), Took(b)];
    assert two[1..] == one && one[1..] == [];
    assert Number(one, Busy) == 1;
  }

  /** A run from a new pool with one worker that has two tasks in the hands of workers, after a restart. */
  lemma RestartExample()
    ensures var events := [Start, Check(0), Send(0)] + [Check(1), Send(1)] + [Receive(0), Stop, Start, Receive(1)];
      Number(After(New(1, [true, true]), events).workers, Busy) == 2
  {
    var s, accepted := New(1, [true, true]), [Start, Check(0), Send(0)];
    OneAccepted([true, true]);
    AfterSum(s, accepted, [Check(1), Send(1)]);
    TwoQueued(After(s, accepted));
    AfterSum(s, accepted + [Check(1), Send(1)], [Receive(0), Stop, Start, Receive(1)]);
    TwoAtOnce(After(s, accepted + [Check(1), Send(1)]));
    TwoBusy(0, 1);
  }

  // ---------- runs one after the other ----------

  lemma AfterOne(s: State, e: Event)
    ensures After(s, [e]) == Apply(s, e)
  {
    assert [e][..0] == [];
  }

  lemma {:induction false} AfterSum(s: State, a: seq<Event>, b: seq<Event>)
    ensures After(s, a + b) == After(After(s, a), b)
  {
    if b == [] {
      assert a + b == a;
    } else {
      var front, last := b[..|b| - 1], b[|b| - 1];
      AfterSum(s, a, front);
      assert (a + b)[..|a + b| - 1] == a + front && (a + b)[|a + b| - 1] == last;
    }
  }

  lemma AfterFirst(s: State, e: Event, events: seq<Event>)
    ensures After(s, [e] + events) == After(Apply(s, e), events)
  {
    AfterOne(s, e);
    AfterSum(s, [e], events);
  }
}
