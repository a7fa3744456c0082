/**
 * The choice between the single-thread and the multi-thread task,
 * crates/futures/src/task/mod.rs: a once-filled tri-state cache of whether
 * the page is cross-origin isolated, and the dispatch of `spawn` on it.
 */
module TaskDispatch {
  import opened Wrappers
  import opened Ints

  const UNKNOWN: uint8 := 0
  const AVAILABLE: uint8 := 1
  const UNAVAILABLE: uint8 := 2

  /** What `Reflect::get(global, "crossOriginIsolated")` can give back. */
  datatype JsValue = JsBool(b: bool) | JsUndefined | JsOther

  /**
   * `.ok().and_then(as_bool).unwrap_or_default()`: only a boolean `true`
   * counts; an error, a missing property or a non-boolean is `false`.
   */
  function IsolatedFromHost(lookup: Option<JsValue>): (avail: bool)
    ensures avail <==> lookup == Some(JsBool(true))
  {
    match lookup
    case Some(v) => if v.JsBool? then v.b else false
    case None => false
  }

  /** The static `AtomicU8` behind `threads_avilable`, and how often the host was asked. */
  class ThreadsCache {
    var value: uint8
    var hostQueries: nat

    /** Only the three constants are ever stored; a query has happened iff the value is known. */
    ghost predicate Valid()
      reads this
    {
      && (value == UNKNOWN || value == AVAILABLE || value == UNAVAILABLE)
      && hostQueries == (if value == UNKNOWN then 0 else 1)
    }

    constructor ()
      ensures Valid() && value == UNKNOWN && hostQueries == 0
    {
      value := UNKNOWN;
      hostQueries := 0;
    }

    /**
     * `threads_avilable`: a known answer is returned without asking the host;
     * from `UNKNOWN` the host is asked once and the answer stored.
     */
    method ThreadsAvailable(lookup: Option<JsValue>) returns (avail: bool)
      requires Valid()
      modifies this
      ensures Valid()
      ensures old(value) == AVAILABLE ==> avail && value == AVAILABLE && hostQueries == old(hostQueries)
      ensures old(value) == UNAVAILABLE ==> !avail && value == UNAVAILABLE && hostQueries == old(hostQueries)
      ensures old(value) == UNKNOWN ==> avail == IsolatedFromHost(lookup) && hostQueries == old(hostQueries) + 1
      ensures value == (if avail then AVAILABLE else UNAVAILABLE)
    {
      if value == AVAILABLE {
        return true;
      } else if value == UNAVAILABLE {
        return false;
      } else if value != UNKNOWN {
        assert false;
      }
      avail := IsolatedFromHost(lookup);
      hostQueries := hostQueries + 1;
      value := if avail then AVAILABLE else UNAVAILABLE;
    }
  }

  /** Whatever the host says the second time, the first answer stands. */
  method AskTwice(c: ThreadsCache, first: Option<JsValue>, second: Option<JsValue>) returns (a1: bool, a2: bool)
    requires c.Valid() && c.value == UNKNOWN
    modifies c
    ensures a1 == a2 == IsolatedFromHost(first)
    ensures c.hostQueries == 1
  {
    a1 := c.ThreadsAvailable(first);
    a2 := c.ThreadsAvailable(second);
  }

  datatype TaskKind = SingleThread | MultiThread

  /** `spawn`'s dispatch: the multi-thread task needs atomics and available threads. */
  function SpawnKind(atomics: bool, threadsAvailable: bool): (k: TaskKind)
    ensures k == MultiThread <==> atomics && threadsAvailable
  {
    if atomics && threadsAvailable then MultiThread else SingleThread
  }

  /**
   * `spawn` with the build's `atomics` target feature: only an atomics build
   * consults the cache.  Which task kind receives the future is the result;
   * the task itself is `MultithreadTask.Spawn`, the single-thread task is not
   * part of this model.
   */
  method Spawn(cache: ThreadsCache, atomics: bool, lookup: Option<JsValue>) returns (k: TaskKind)
    requires cache.Valid()
    modifies cache
    ensures cache.Valid()
    ensures !atomics ==> k == SingleThread && cache.value == old(cache.value) && cache.hostQueries == old(cache.hostQueries)
    ensures atomics ==> k == (if cache.value == AVAILABLE then MultiThread else SingleThread)
    ensures atomics && old(cache.value) == UNKNOWN ==> k == SpawnKind(true, IsolatedFromHost(lookup))
    ensures atomics ==> cache.value == (if old(cache.value) == UNKNOWN
                                        then (if IsolatedFromHost(lookup) then AVAILABLE else UNAVAILABLE)
                                        else old(cache.value))
    ensures atomics ==> cache.hostQueries == old(cache.hostQueries) + (if old(cache.value) == UNKNOWN then 1 else 0)
  {
    if atomics {
      var avail := cache.ThreadsAvailable(lookup);
      k := SpawnKind(true, avail);
    } else {
      k := SingleThread;
    }
  }
}
