/** The worker pool as the source has it (internal/downloader/worker_pool.go): fields updated in place. Each method is
    what the source's function does when nothing runs beside it, and is shown to be a run of the state machine. Once
    `panicked` is set the program has ended and nothing is called any more. */
module DownloadPool {
  import opened WorkerPool
  import opened Wrappers

  datatype PoolError = AlreadyRunning | NotRunning | InvalidTask | QueueFull | Panic

  class Pool {
    const size: nat
    var starts: nat
    var running: bool
    var stopClosed: bool
    var queueClosed: bool
    var queue: seq<Task>
    var workers: seq<Worker>
    var wg: nat
    var producers: seq<Producer>
    var total: nat
    var successful: nat
    var failed: nat
    var reports: seq<Report>
    var panicked: bool

    function Snapshot(): State
      reads this
    {
      State(size, starts, running, stopClosed, queueClosed, queue, workers, wg, producers,
            total, successful, failed, reports, panicked)
    }

    /** Fewer than one worker means one, and more than 100 means 100. `calls` says which of the coming calls of `Queue`
        submit a valid task. */
    constructor (requested: int, calls: seq<bool>)
      ensures Snapshot() == New(requested, calls)
      ensures size == WorkerCount(requested) && !running && queue == [] && workers == [] && wg == 0
      ensures |producers| == |calls| && forall i :: 0 <= i < |calls| ==> producers[i] == Calling(calls[i])
    {
      var count := requested;
      if count < 1 {
        count := 1;
      }
      if count > 100 {
        count := 100;
      }
      size, starts := count, 0;
      running, stopClosed, queueClosed, panicked := false, false, false, false;
      queue, workers, wg, total, successful, failed, reports := [], [], 0, 0, 0, 0, [];
      producers := seq(|calls|, i requires 0 <= i < |calls| => Calling(calls[i]));
    }

    /** The loop that starts the workers and counts each in the wait-group. */
    method Spawn()
      modifies this`workers, this`wg
      ensures workers == old(workers) + Waiters(size, starts) && wg == old(wg) + size
    {
      var i := 0;
      while i < size
        invariant 0 <= i <= size
        invariant workers == old(workers) + Waiters(i, starts) && wg == old(wg) + i
      {
        wg := wg + 1;
        workers := workers + [Waiting(starts)];
        i := i + 1;
      }
    }

    /** Makes a new stop channel and brings the workers to life. A stopped pool is started again, with its queue
        closed. */
    method Start() returns (r: Result<(), PoolError>)
      requires !panicked
      modifies this
      ensures Snapshot() == Apply(old(Snapshot()), Event.Start)
      ensures running && (!old(running) ==> !stopClosed && starts == old(starts) + 1 && wg == old(wg) + size)
      ensures r == if old(running) then Err(AlreadyRunning) else Ok(())
    {
      if running {
        return Err(AlreadyRunning);
      }
      running := true;
      stopClosed := false;
      starts := starts + 1;
      Spawn();
      return Ok(());
    }

    /** Closing the queue a second time panics. */
    method Stop() returns (r: Result<(), PoolError>)
      requires !panicked
      modifies this
      ensures Snapshot() == Apply(old(Snapshot()), Event.Stop)
      ensures old(running) ==> !running && stopClosed && queueClosed && panicked == old(queueClosed)
      ensures r == if !old(running) then Err(NotRunning) else if old(queueClosed) then Err(Panic) else Ok(())
    {
      if !running {
        return Err(NotRunning);
      }
      running := false;
      stopClosed := true;
      if queueClosed {
        panicked := true;
        return Err(Panic);
      }
      queueClosed := true;
      return Ok(());
    }

    /** The check that `Queue` makes under the lock, and its look at the task. */
    method QueueCheck(p: nat) returns (r: Result<(), PoolError>)
      requires !panicked && p < |producers| && producers[p].Calling?
      modifies this
      ensures Snapshot() == Apply(old(Snapshot()), Check(p))
      ensures producers == old(producers)[p := if old(running) && old(producers)[p].valid then Checked else Refused]
      ensures r == if !old(running) then Err(NotRunning)
                   else if !old(producers)[p].valid then Err(InvalidTask)
                   else Ok(())
    {
      if !running {
        producers := producers[p := Refused];
        return Err(NotRunning);
      }
      if !producers[p].valid {
        producers := producers[p := Refused];
        return Err(InvalidTask);
      }
      producers := producers[p := Checked];
      return Ok(());
    }

    /** The send of `Queue`, when the queue has room or stays full for five seconds. A send on the closed queue
        panics. */
    method QueueSend(p: nat) returns (r: Result<(), PoolError>)
      requires !panicked && p < |producers| && producers[p].Checked?
      modifies this
      ensures Snapshot() == Apply(old(Snapshot()), if r == Err(QueueFull) then TimeOut(p) else Send(p))
      ensures queue == (if r == Ok(()) then old(queue) + [p] else old(queue)) && panicked == queueClosed
      ensures r.Ok? ==> producers == old(producers)[p := Accepted]
      ensures r == Err(QueueFull) ==> producers == old(producers)[p := Refused]
      ensures r == if queueClosed then Err(Panic) else if |old(queue)| < 2 * size then Ok(()) else Err(QueueFull)
    {
      if queueClosed {
        panicked := true;
        return Err(Panic);
      }
      if |queue| < 2 * size {
        queue := queue + [p];
        producers := producers[p := Accepted];
        return Ok(());
      }
      producers := producers[p := Refused];
      return Err(QueueFull);
    }

    /** The receive of the worker loop; the worker leaves when the queue is closed and empty. */
    method WorkerReceive(w: nat)
      requires !panicked && w < |workers| && workers[w].Waiting? && (queue != [] || queueClosed) && wg > 0
      modifies this
      ensures Snapshot() == Apply(old(Snapshot()), Receive(w))
      ensures if old(queue) == [] then workers == old(workers)[w := Exited] && wg == old(wg) - 1
              else workers == old(workers)[w := Took(old(queue)[0])] && queue == old(queue)[1..] && wg == old(wg)
    {
      if queue == [] {
        workers := workers[w := Exited];
        wg := wg - 1;
        return;
      }
      workers := workers[w := Took(queue[0])];
      queue := queue[1..];
    }

    /** The other case of the worker loop's select: the stop channel that the worker waits on is closed. */
    method WorkerStop(w: nat)
      requires !panicked && w < |workers| && workers[w].Waiting? && IsClosed(Snapshot(), workers[w].channel) && wg > 0
      modifies this
      ensures Snapshot() == Apply(old(Snapshot()), SeeStop(w))
      ensures workers == old(workers)[w := Exited] && wg == old(wg) - 1 && queue == old(queue)
    {
      workers := workers[w := Exited];
      wg := wg - 1;
    }

    /** The counters of outcomes. */
    method CountOutcome(w: nat, ok: bool)
      requires !panicked && w < |workers| && workers[w].Running?
      modifies this
      ensures Snapshot() == Apply(old(Snapshot()), Settle(w, ok))
      ensures successful == old(successful) + One(ok) && failed == old(failed) + One(!ok)
      ensures workers == old(workers)[w := Settled(old(workers)[w].task, ok)]
    {
      if ok {
        successful := successful + 1;
      } else {
        failed := failed + 1;
      }
      workers := workers[w := Settled(workers[w].task, ok)];
    }

    /** `ok` is the outcome of selecting a mirror and downloading. */
    method ProcessTask(w: nat, ok: bool)
      requires !panicked && w < |workers| && workers[w].Took?
      modifies this
      ensures Snapshot() == Apply(Apply(Apply(old(Snapshot()), Count(w)), Settle(w, ok)), Deliver(w))
      ensures reports == old(reports) + [Report(old(workers)[w].task, ok)]
      ensures total == old(total) + 1 && successful == old(successful) + One(ok) && failed == old(failed) + One(!ok)
    {
      var task := workers[w].task;
      workers := workers[w := Running(task)];
      total := total + 1;
      assert Snapshot() == Apply(old(Snapshot()), Count(w));
      CountOutcome(w, ok);
      reports := reports + [Report(task, ok)];
      workers := workers[w := Waiting(starts)];
    }
  }
}
