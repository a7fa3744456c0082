/**
 * The per-thread microtask queue of crates/futures/src/queue.rs.
 *
 * `QueueState` and `Queue` are merged into one class: the FIFO of tasks, the
 * `is_scheduled` flag, and the host side of the protocol, which is a log of the
 * flush requests issued (`queueMicrotask(closure)` or `promise.then(closure)`)
 * and the number of those the host has not delivered yet.  Running a task is
 * host code this model cannot see; what matters to the queue is which tasks
 * that run schedules, so `RunAll` takes them as an oracle.
 */
module MicrotaskQueue {

  /** The host primitive a flush is requested with. */
  datatype FlushRequest = QueueMicrotask | PromiseThen

  /** Concatenation of the task batches scheduled by successive task runs. */
  function Flatten<T>(batches: seq<seq<T>>): (r: seq<T>)
  {
    if batches == [] then [] else Flatten(batches[..|batches| - 1]) + batches[|batches| - 1]
  }

  lemma FlattenSnoc<T>(batches: seq<seq<T>>, b: seq<T>)
    ensures Flatten(batches + [b]) == Flatten(batches) + b
  {
    assert (batches + [b])[..|batches|] == batches;
  }

  class Queue<T> {
    /** `tasks`: run order is insertion order. */
    var tasks: seq<T>
    /** `is_scheduled`: a flush callback has been requested and has not started yet. */
    var isScheduled: bool
    /** `has_queue_microtask`, probed once in `Queue::new`. */
    const hasQueueMicrotask: bool
    /** Every flush request issued to the host, in order. */
    var requests: seq<FlushRequest>
    /** Flush callbacks requested from the host and not yet delivered. */
    var pending: nat

    /** At most one flush is ever outstanding, and exactly one while `isScheduled`. */
    ghost predicate Valid()
      reads this
    {
      pending == (if isScheduled then 1 else 0)
    }

    /** The primitive `schedule_task` uses: queueMicrotask if the global has it. */
    function Request(): (r: FlushRequest)
      ensures r == QueueMicrotask <==> hasQueueMicrotask
    {
      if hasQueueMicrotask then QueueMicrotask else PromiseThen
    }

    /** `Queue::new`: empty, nothing scheduled, nothing requested. */
    constructor (hasQueueMicrotask: bool)
      ensures Valid()
      ensures this.hasQueueMicrotask == hasQueueMicrotask
      ensures tasks == [] && !isScheduled && requests == [] && pending == 0
    {
      this.hasQueueMicrotask := hasQueueMicrotask;
      tasks := [];
      isScheduled := false;
      requests := [];
      pending := 0;
    }

    /**
     * `schedule_task`: append at the back; ask the host for a flush only on the
     * false -> true edge of `is_scheduled`.
     */
    method ScheduleTask(task: T)
      requires Valid()
      modifies this
      ensures Valid()
      ensures tasks == old(tasks) + [task]
      ensures isScheduled
      ensures requests == old(requests) + (if old(isScheduled) then [] else [Request()])
      ensures pending <= 1
    {
      tasks := tasks + [task];
      var wasScheduled := isScheduled;
      isScheduled := true;
      if !wasScheduled {
        requests := requests + [Request()];
        pending := pending + 1;
      }
    }

    /** `push_task`: deliberately the same as `schedule_task` (the task waits for the next tick). */
    method PushTask(task: T)
      requires Valid()
      modifies this
      ensures Valid()
      ensures tasks == old(tasks) + [task]
      ensures isScheduled
      ensures requests == old(requests) + (if old(isScheduled) then [] else [Request()])
      ensures pending <= 1
    {
      ScheduleTask(task);
    }

    /** The `schedule_task` calls one task run makes, in order. */
    method ScheduleAll(batch: seq<T>)
      requires Valid()
      modifies this
      ensures Valid()
      ensures tasks == old(tasks) + batch
      ensures isScheduled == (old(isScheduled) || batch != [])
      ensures requests == old(requests) + (if !old(isScheduled) && batch != [] then [Request()] else [])
    {
      var i := 0;
      while i < |batch|
        invariant 0 <= i <= |batch|
        invariant Valid()
        invariant tasks == old(tasks) + batch[..i]
        invariant isScheduled == (old(isScheduled) || i > 0)
        invariant requests == old(requests) + (if !old(isScheduled) && i > 0 then [Request()] else [])
      {
        ScheduleTask(batch[i]);
        assert batch[..i + 1] == batch[..i] + [batch[i]];
        i := i + 1;
      }
      assert batch[..i] == batch;
    }

    /**
     * `run_all`: the host delivers the one pending flush.  The flag is cleared
     * first; then exactly the tasks present at entry run, front to back, and the
     * k-th of them schedules `spawned[k]`.  Those wait for the next flush, which
     * the first of them requests.
     */
    method RunAll(spawned: seq<seq<T>>) returns (ran: seq<T>)
      requires Valid() && isScheduled
      requires |spawned| == |tasks|
      modifies this
      ensures Valid()
      ensures ran == old(tasks)
      ensures tasks == Flatten(spawned)
      ensures isScheduled == (tasks != [])
      ensures requests == old(requests) + (if tasks == [] then [] else [Request()])
    {
      pending := pending - 1;
      isScheduled := false;
      var taskCountLeft := |tasks|;
      ran := [];
      var k := 0;
      while taskCountLeft > 0
        invariant 0 <= k <= |old(tasks)| && taskCountLeft == |old(tasks)| - k
        invariant ran == old(tasks)[..k]
        invariant tasks == old(tasks)[k..] + Flatten(spawned[..k])
        invariant Valid()
        invariant isScheduled == (Flatten(spawned[..k]) != [])
        invariant requests == old(requests) + (if Flatten(spawned[..k]) == [] then [] else [Request()])
      {
        taskCountLeft := taskCountLeft - 1;
        if tasks == [] {
          break;
        }
        var task := tasks[0];
        tasks := tasks[1..];
        assert old(tasks)[..k + 1] == old(tasks)[..k] + [task];
        ran := ran + [task];
        ScheduleAll(spawned[k]);
        assert spawned[..k + 1] == spawned[..k] + [spawned[k]];
        FlattenSnoc(spawned[..k], spawned[k]);
        k := k + 1;
      }
      assert old(tasks)[..k] == old(tasks);
      assert spawned[..k] == spawned;
    }
  }

  /**
   * Two flushes in a row: the tasks the first flush's runs schedule are exactly
   * what the second flush runs, and no task runs before the flush after the one
   * in which it was scheduled.
   */
  method TwoFlushes<T>(q: Queue<T>, first: seq<seq<T>>, second: seq<seq<T>>) returns (ran1: seq<T>, ran2: seq<T>)
    requires q.Valid() && q.isScheduled
    requires |first| == |q.tasks|
    requires |second| == |Flatten(first)|
    requires Flatten(first) != []
    modifies q
    ensures ran1 == old(q.tasks)
    ensures ran2 == Flatten(first)
    ensures q.tasks == Flatten(second)
  {
    ran1 := q.RunAll(first);
    ran2 := q.RunAll(second);
  }
}
