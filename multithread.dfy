/**
 * The multi-thread task of crates/futures/src/task/multithread.rs: an atomic
 * two-state wake flag shared with other threads, and a task whose `run` loop
 * polls its future and, while it is pending, arranges to be re-entered by a
 * promise from `Atomics.waitAsync` (or the polyfill).
 *
 * Cross-thread wakes are atomic steps: `Run` takes, for each loop iteration,
 * the number of `wake_by_ref` calls that land between the iteration's
 * SLEEPING swap and its `wait_async` load (the only two places where the loop
 * reads the flag).  The poll results are an oracle as well.
 */
module MultithreadTask {
  import opened Wrappers
  import MicrotaskQueue

  const SLEEPING: int := 0
  const AWAKE: int := 1

  /** The shared wake flag behind an `Arc`, with a count of the notify instructions issued on it. */
  class AtomicWaker {
    /** The `AtomicI32` state. */
    var state: int
    /** How many times `memory.atomic.notify(&state, 1)` was issued. */
    var notifies: nat
    /** Strong count of the `Arc<AtomicWaker>`. */
    var refs: nat

    ghost predicate Valid()
      reads this
    {
      state == SLEEPING || state == AWAKE
    }

    /** `AtomicWaker::new`: a fresh waker starts AWAKE, held by one `Arc`. */
    constructor ()
      ensures Valid()
      ensures state == AWAKE && notifies == 0 && refs == 1
    {
      state := AWAKE;
      notifies := 0;
      refs := 1;
    }

    /** `state.swap(v)`. */
    method Swap(v: int) returns (prev: int)
      requires Valid()
      requires v == SLEEPING || v == AWAKE
      modifies this`state
      ensures Valid()
      ensures prev == old(state) && state == v
    {
      prev := state;
      state := v;
    }

    /**
     * `wake_by_ref`: swap in AWAKE; only a SLEEPING -> AWAKE transition runs
     * the notify instruction (count 1).
     */
    method WakeByRef()
      requires Valid()
      modifies this`state, this`notifies
      ensures Valid()
      ensures state == AWAKE
      ensures notifies == old(notifies) + (if old(state) == SLEEPING then 1 else 0)
    {
      var prev := Swap(AWAKE);
      if prev == AWAKE {
        return;
      }
      notifies := notifies + 1;
    }

    /** Any number of wakes in a row notify at most once: only the first can see SLEEPING. */
    method WakeMany(n: nat)
      requires Valid()
      modifies this`state, this`notifies
      ensures Valid()
      ensures state == (if n == 0 then old(state) else AWAKE)
      ensures notifies == old(notifies) + (if n > 0 && old(state) == SLEEPING then 1 else 0)
    {
      var i := 0;
      while i < n
        invariant 0 <= i <= n
        invariant Valid()
        invariant state == (if i == 0 then old(state) else AWAKE)
        invariant notifies == old(notifies) + (if i > 0 && old(state) == SLEEPING then 1 else 0)
      {
        WakeByRef();
        i := i + 1;
      }
    }

    /** The raw waker vtable's `clone`: one more `Arc` reference. */
    method RawClone()
      requires Valid() && refs > 0
      modifies this`refs
      ensures refs == old(refs) + 1
    {
      refs := refs + 1;
    }

    /** The vtable's `wake`: consumes its reference after waking. */
    method RawWake()
      requires Valid() && refs > 0
      modifies this
      ensures Valid()
      ensures refs == old(refs) - 1
      ensures state == AWAKE
      ensures notifies == old(notifies) + (if old(state) == SLEEPING then 1 else 0)
    {
      WakeByRef();
      refs := refs - 1;
    }

    /** The vtable's `wake_by_ref`: wakes and keeps its reference. */
    method RawWakeByRef()
      requires Valid() && refs > 0
      modifies this`state, this`notifies
      ensures Valid()
      ensures refs == old(refs)
      ensures state == AWAKE
      ensures notifies == old(notifies) + (if old(state) == SLEEPING then 1 else 0)
    {
      WakeByRef();
    }

    /** The vtable's `drop`: releases its reference. */
    method RawDrop()
      requires refs > 0
      modifies this`refs
      ensures refs == old(refs) - 1
    {
      refs := refs - 1;
    }
  }

  /** `sub` occurs in `s` starting at index `i`. */
  predicate OccursAt(s: string, sub: string, i: int)
  {
    0 <= i && i + |sub| <= |s| && s[i..i + |sub|] == sub
  }

  /** Whether `s` contains `sub` as a contiguous substring (`str::contains`). */
  function Contains(s: string, sub: string): (b: bool)
    ensures b <==> exists i :: OccursAt(s, sub, i)
    decreases |s|
  {
    if |sub| > |s| then false
    else if s[..|sub|] == sub then assert OccursAt(s, sub, 0); true
    else
      var r := Contains(s[1..], sub);
      assert forall i :: OccursAt(s[1..], sub, i) <==> OccursAt(s, sub, i + 1) by {
        forall i ensures OccursAt(s[1..], sub, i) <==> OccursAt(s, sub, i + 1) {
          if 0 <= i && i + |sub| <= |s| - 1 {
            assert s[1..][i..i + |sub|] == s[i + 1..i + 1 + |sub|];
          }
        }
      }
      assert !OccursAt(s, sub, 0);
      assert (exists i :: OccursAt(s, sub, i)) ==> exists i :: OccursAt(s[1..], sub, i) by {
        if exists i :: OccursAt(s, sub, i) {
          var i :| OccursAt(s, sub, i);
          assert OccursAt(s[1..], sub, i - 1);
        }
      }
      r
  }

  /** `is_safari`: the user agent mentions Safari but not Chrome. */
  function IsSafariUserAgent(userAgent: string): (b: bool)
    ensures b <==> (exists i :: OccursAt(userAgent, "Safari", i)) && !(exists i :: OccursAt(userAgent, "Chrome", i))
  {
    Contains(userAgent, "Safari") && !Contains(userAgent, "Chrome")
  }

  /** Chrome's user agent also names Safari, and does not count as Safari. */
  lemma SafariUserAgents()
    ensures IsSafariUserAgent("Safari")
    ensures !IsSafariUserAgent("Chrome Safari")
    ensures !IsSafariUserAgent("Firefox")
  {
    assert OccursAt("Safari", "Safari", 0);
    assert OccursAt("Chrome Safari", "Chrome", 0);
    NoCharNoContains("Safari", "Chrome");
    NoCharNoContains("Firefox", "Safari");
  }

  /** A string without the first character of `sub` does not contain `sub`. */
  lemma NoCharNoContains(s: string, sub: string)
    requires sub != [] && forall i :: 0 <= i < |s| ==> s[i] != sub[0]
    ensures !Contains(s, sub)
  {
    forall i ensures !OccursAt(s, sub, i) {
      if 0 <= i && i + |sub| <= |s| {
        assert s[i..i + |sub|][0] == s[i];
      }
    }
  }

  /**
   * The thread-local `OnceCell` memos `is_safari` and `is_wait_async_available`.
   * What the host offers is fixed per thread: the user agent, whether
   * `Atomics.waitAsync` is defined, and whether the crate was built with
   * `WBG_DISABLE_ATOMICS_WAIT_ASYNC` set.
   */
  class HostProbe {
    const userAgent: string
    const hostHasWaitAsync: bool
    const waitAsyncDisabledAtBuild: bool
    var safariMemo: Option<bool>
    var availableMemo: Option<bool>

    ghost predicate Valid()
      reads this
    {
      && (safariMemo.Some? ==> safariMemo.value == IsSafariUserAgent(userAgent))
      && (availableMemo.Some? ==> availableMemo.value == WaitAsyncUsable())
    }

    /** What `is_wait_async_available` computes on its first call. */
    function WaitAsyncUsable(): (b: bool)
      ensures b ==> !IsSafariUserAgent(userAgent) && hostHasWaitAsync
    {
      !waitAsyncDisabledAtBuild && hostHasWaitAsync && !IsSafariUserAgent(userAgent)
    }

    constructor (userAgent: string, hostHasWaitAsync: bool, waitAsyncDisabledAtBuild: bool)
      ensures Valid()
      ensures this.userAgent == userAgent && this.hostHasWaitAsync == hostHasWaitAsync
      ensures this.waitAsyncDisabledAtBuild == waitAsyncDisabledAtBuild
      ensures safariMemo == None && availableMemo == None
    {
      this.userAgent := userAgent;
      this.hostHasWaitAsync := hostHasWaitAsync;
      this.waitAsyncDisabledAtBuild := waitAsyncDisabledAtBuild;
      safariMemo := None;
      availableMemo := None;
    }

    /** `is_safari`: computed from the user agent once, then served from the memo. */
    method IsSafari() returns (b: bool)
      requires Valid()
      modifies this`safariMemo
      ensures Valid()
      ensures b == IsSafariUserAgent(userAgent)
      ensures safariMemo == Some(b)
    {
      if safariMemo.Some? {
        return safariMemo.value;
      }
      b := IsSafariUserAgent(userAgent);
      safariMemo := Some(b);
    }

    /**
     * `is_wait_async_available`: the three conditions in order, with `&&`
     * short-circuiting, so the Safari memo is only filled when the first two hold.
     */
    method IsWaitAsyncAvailable() returns (b: bool)
      requires Valid()
      modifies this
      ensures Valid()
      ensures b == WaitAsyncUsable()
      ensures availableMemo == Some(b)
      ensures safariMemo == (if old(availableMemo).None? && !waitAsyncDisabledAtBuild && hostHasWaitAsync
                             then Some(IsSafariUserAgent(userAgent)) else old(safariMemo))
    {
      if availableMemo.Some? {
        return availableMemo.value;
      }
      b := !waitAsyncDisabledAtBuild && hostHasWaitAsync;
      if b {
        var safari := IsSafari();
        b := !safari;
      }
      availableMemo := Some(b);
    }
  }

  /** What `wait_async(&state, current)` hands back to the run loop. */
  datatype WaitChoice =
    | Inline                                  // None: the flag already changed, poll again
    | NativePromise                           // Some(Atomics.waitAsync(..).value)
    | PolyfillPromise(timeout: Option<int>)   // Some(polyfill wait_async(.., timeout))

  /**
   * The branch logic of `wait_async`.  With waitAsync usable the host decides:
   * given no timeout, its result is synchronous exactly when the value already
   * differs.  Without it, the flag is loaded and compared here, and Safari gets
   * a 1000 ms timeout on the polyfill wait.
   */
  function WaitAsyncChoice(available: bool, safari: bool, value: int, current: int): (c: WaitChoice)
    ensures c.Inline? <==> value != current
    ensures c.NativePromise? <==> available && value == current
    ensures c.PolyfillPromise? <==> !available && value == current
    ensures c.PolyfillPromise? ==> c.timeout == (if safari then Some(1000) else None)
  {
    if !available then
      if value == current then PolyfillPromise(if safari then Some(1000) else None) else Inline
    else
      if value == current then NativePromise else Inline
  }

  /** The outcome of one poll of the future. */
  datatype Poll = Ready | Pending

  /** One iteration of the run loop as the environment plays it. */
  datatype Iteration = Iteration(poll: Poll, wakes: nat)

  datatype RunOutcome =
    | AlreadyComplete            // inner was None: a spurious re-entry
    | Completed                  // the future returned Ready
    | Suspended(choice: WaitChoice)  // the closure was attached to a promise
    | OracleExhausted            // the environment supplied no further iteration

  /**
   * The index of the iteration that ends `run`: the first whose poll is Ready
   * or during which no wake arrived (so `wait_async` returns a promise); every
   * earlier iteration was Pending and woken, so the loop polled again inline.
   */
  function StopIndex(its: seq<Iteration>): (k: nat)
    ensures k <= |its|
    ensures forall j :: 0 <= j < k ==> its[j].poll == Pending && its[j].wakes > 0
    ensures k < |its| ==> its[k].poll == Ready || its[k].wakes == 0
  {
    if its == [] then 0
    else if its[0].poll == Ready || its[0].wakes == 0 then 0
    else
      var k' := StopIndex(its[1..]);
      assert forall j :: 0 <= j < 1 + k' ==> its[j].poll == Pending && its[j].wakes > 0 by {
        forall j | 0 <= j < 1 + k' ensures its[j].poll == Pending && its[j].wakes > 0 {
          if j > 0 {
            assert its[j] == its[1..][j - 1];
          }
        }
      }
      assert 1 + k' < |its| ==> its[1 + k'] == its[1..][k'];
      1 + k'
  }

  /** The boxed future and its wake-up closure, here only an identity. */
  datatype Inner = Inner(future: nat)

  class Task {
    const atomic: AtomicWaker
    /** `inner: RefCell<Option<Inner>>`; None once the future completed. */
    var inner: Option<Inner>
    /** The promises the closure was attached to with `then`, in order. */
    var awaiting: seq<WaitChoice>
    /** Polls of the future so far. */
    var polls: nat
    /** "spurious wakeup" messages written to stderr. */
    var spuriousLogs: nat

    ghost predicate Valid()
      reads this, atomic
    {
      atomic.Valid() && atomic.refs >= 2
    }

    /**
     * The object `Task::spawn` builds: a new AWAKE waker shared by the task's
     * `atomic` and its `Waker` (two references), and the future in `inner`.
     */
    constructor (future: nat)
      ensures Valid() && fresh(atomic)
      ensures atomic.state == AWAKE && atomic.notifies == 0 && atomic.refs == 2
      ensures inner == Some(Inner(future)) && awaiting == [] && polls == 0 && spuriousLogs == 0
    {
      var a := new AtomicWaker();
      a.RawClone();
      atomic := a;
      inner := Some(Inner(future));
      awaiting := [];
      polls := 0;
      spuriousLogs := 0;
    }

    /**
     * `Task::run`.  A completed task returns at once.  Otherwise each iteration
     * swaps the flag to SLEEPING (a previous value other than AWAKE is only
     * logged, and not on Safari), polls, and on Ready drops the inner state; on
     * Pending it asks `wait_async`, loops again if that answers None and
     * otherwise attaches the closure and returns.
     */
    method Run(its: seq<Iteration>, available: bool, safari: bool) returns (outcome: RunOutcome)
      requires Valid()
      requires available ==> !safari
      modifies this, atomic
      ensures Valid()
      ensures atomic.refs == old(atomic.refs)
      ensures old(inner).None? ==>
        && outcome == AlreadyComplete
        && inner == old(inner) && awaiting == old(awaiting) && polls == old(polls)
        && spuriousLogs == old(spuriousLogs)
        && atomic.state == old(atomic.state) && atomic.notifies == old(atomic.notifies)
      ensures old(inner).Some? ==>
        var k := StopIndex(its);
        && outcome == (if k == |its| then OracleExhausted
                       else if its[k].poll == Ready then Completed
                       else Suspended(WaitAsyncChoice(available, safari, SLEEPING, SLEEPING)))
        && inner == (if outcome == Completed then None else old(inner))
        && awaiting == old(awaiting) + (if outcome.Suspended? then [outcome.choice] else [])
        && polls == old(polls) + (if k == |its| then k else k + 1)
        && atomic.notifies == old(atomic.notifies) + (if k < |its| && its[k].wakes > 0 then k + 1 else k)
        && atomic.state == (if |its| == 0 then old(atomic.state)
                            else if k < |its| && its[k].wakes == 0 then SLEEPING
                            else AWAKE)
        && spuriousLogs == old(spuriousLogs) + (if |its| > 0 && old(atomic.state) != AWAKE && !safari then 1 else 0)
    {
      if inner.None? {
        return AlreadyComplete;
      }
      ghost var k := StopIndex(its);
      outcome := OracleExhausted;
      var i := 0;
      while i < |its|
        invariant 0 <= i <= k
        invariant Valid() && atomic.refs == old(atomic.refs)
        invariant inner == old(inner) && awaiting == old(awaiting)
        invariant polls == old(polls) + i
        invariant atomic.notifies == old(atomic.notifies) + i
        invariant atomic.state == (if i == 0 then old(atomic.state) else AWAKE)
        invariant spuriousLogs == old(spuriousLogs) + (if i > 0 && old(atomic.state) != AWAKE && !safari then 1 else 0)
        invariant outcome == OracleExhausted
      {
        var prev := atomic.Swap(SLEEPING);
        if prev != AWAKE && !safari {
          spuriousLogs := spuriousLogs + 1;
        }
        atomic.WakeMany(its[i].wakes);
        polls := polls + 1;
        if its[i].poll == Ready {
          inner := None;
          outcome := Completed;
          break;
        }
        var choice := WaitAsyncChoice(available, safari, atomic.state, SLEEPING);
        if choice.Inline? {
          i := i + 1;
        } else {
          awaiting := awaiting + [choice];
          outcome := Suspended(choice);
          break;
        }
      }
    }
  }

  /**
   * `Task::spawn`: build the task and queue its first run on this thread's
   * microtask queue.
   */
  method Spawn(q: MicrotaskQueue.Queue<Task>, future: nat) returns (t: Task)
    requires q.Valid()
    modifies q
    ensures fresh(t) && fresh(t.atomic) && t.Valid()
    ensures t.inner == Some(Inner(future)) && t.atomic.state == AWAKE && t.atomic.refs == 2
    ensures q.Valid() && q.tasks == old(q.tasks) + [t] && q.isScheduled
    ensures q.requests == old(q.requests) + (if old(q.isScheduled) then [] else [q.Request()])
  {
    t := new Task(future);
    q.ScheduleTask(t);
  }

  /** A task that completed stays completed: a later run, however woken, polls nothing. */
  method RunAfterCompletion(t: Task, first: seq<Iteration>, later: seq<Iteration>, available: bool, safari: bool)
    returns (o1: RunOutcome, o2: RunOutcome)
    requires t.Valid() && t.inner.Some?
    requires available ==> !safari
    requires StopIndex(first) < |first| && first[StopIndex(first)].poll == Ready
    modifies t, t.atomic
    ensures o1 == Completed && o2 == AlreadyComplete
    ensures t.inner == None && t.polls == old(t.polls) + StopIndex(first) + 1
  {
    o1 := t.Run(first, available, safari);
    o2 := t.Run(later, available, safari);
  }
}
