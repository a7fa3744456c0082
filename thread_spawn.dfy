/**
 * Spawning a future on a new thread, crates/futures/src/thread_spawn.rs.
 *
 * `JoinError` and its queries are pure.  The biased select of the spawned
 * thread is described by what each `select_biased!` poll observes (the
 * future's poll result, then, if still live, the abort receiver's).  The two
 * oneshot channels are fields of `JoinHandle`; the thread's `Run` takes the
 * handle and a schedule of rounds, in each of which the handle's owner may
 * call `abort` or drop the handle before the select polls, so the abort
 * receiver always shows the channel as the handle left it.
 */
module ThreadSpawn {
  import opened Wrappers

  /** The `Box<dyn Any + Send>` of a panic: a `String`, a `&'static str`, or another type. */
  datatype Payload = StringPayload(s: string) | StrPayload(s: string) | OtherPayload(typeTag: nat)

  /** `Repr`: why a joined task did not produce its value. */
  datatype Repr = Aborted | Panicked(payload: Payload) | Failed

  datatype JoinError = JoinError(repr: Repr)
  {
    /** `is_cancelled`. */
    predicate IsCancelled() { repr.Aborted? }
    /** `is_failed`. */
    predicate IsFailed() { repr.Failed? }
    /** `is_panic`. */
    predicate IsPanic() { repr.Panicked? }
  }

  /** Every join error is exactly one of cancelled, failed, panicked. */
  lemma ExactlyOneKind(e: JoinError)
    ensures e.IsCancelled() ==> !e.IsFailed() && !e.IsPanic()
    ensures e.IsFailed() ==> !e.IsCancelled() && !e.IsPanic()
    ensures e.IsPanic() ==> !e.IsCancelled() && !e.IsFailed()
    ensures e.IsCancelled() || e.IsFailed() || e.IsPanic()
  {
  }

  /** `panic_payload_as_str`: the message of a `String` or `&str` payload. */
  function PanicPayloadAsStr(p: Payload): (r: Option<string>)
    ensures r.Some? <==> !p.OtherPayload?
    ensures r.Some? ==> r.value == p.s
  {
    match p
    case StringPayload(s) => Some(s)
    case StrPayload(s) => Some(s)
    case OtherPayload(_) => None
  }

  /** `try_into_panic`: the payload of a panic, or the error itself back. */
  function TryIntoPanic(e: JoinError): (r: Result<Payload, JoinError>)
    ensures r.Ok? <==> e.IsPanic()
    ensures r.Ok? ==> e == JoinError(Panicked(r.value))
    ensures r.Err? ==> r.error == e
  {
    match e.repr
    case Panicked(p) => Ok(p)
    case _ => Err(e)
  }

  const PANIC_PREFIX: string := "task panicked with message "

  /** `impl Display for JoinError`. */
  function Display(e: JoinError): (r: string)
  {
    match e.repr
    case Aborted => "task was cancelled"
    case Panicked(p) =>
      (match PanicPayloadAsStr(p)
       case Some(msg) => PANIC_PREFIX + msg
       case None => "task panicked")
    case Failed => "task failed"
  }

  /**
   * The message tells the three kinds apart, and a panic's text message is
   * recoverable from it: the suffix after the fixed prefix.
   */
  lemma DisplayDistinguishes(e1: JoinError, e2: JoinError)
    requires Display(e1) == Display(e2)
    ensures e1.IsCancelled() == e2.IsCancelled()
    ensures e1.IsFailed() == e2.IsFailed()
    ensures e1.IsPanic() == e2.IsPanic()
    ensures e1.IsPanic() ==> PanicPayloadAsStr(e1.repr.payload) == PanicPayloadAsStr(e2.repr.payload)
  {
    var d := Display(e1);
    assert d[5] == (if e1.repr.Aborted? then 'w' else if e1.repr.Failed? then 'f' else 'p');
    assert d[5] == (if e2.repr.Aborted? then 'w' else if e2.repr.Failed? then 'f' else 'p');
    if e1.IsPanic() {
      var m1 := PanicPayloadAsStr(e1.repr.payload);
      var m2 := PanicPayloadAsStr(e2.repr.payload);
      assert m1.Some? <==> |d| >= |PANIC_PREFIX|;
      assert m2.Some? <==> |d| >= |PANIC_PREFIX|;
      if m1.Some? {
        assert m1.value == d[|PANIC_PREFIX|..] == m2.value;
      }
    }
  }

  /** A panic with message "boom" displays as "task panicked with message boom". */
  lemma DisplayBoom()
    ensures Display(JoinError(Panicked(StrPayload("boom")))) == "task panicked with message boom"
    ensures TryIntoPanic(JoinError(Panicked(StrPayload("boom")))) == Ok(StrPayload("boom"))
  {
  }

  // ---- the select loop of the spawned thread ----

  /** The fused `catch_unwind` future: still pending, finished with a value, or caught a panic. */
  datatype FuturePoll<T> = FuturePending | FutureReady(value: T) | FuturePanic(payload: Payload)

  /** What polling `abort_rx` yields: nothing yet, `Ok(())` (a signal) or `Err(Canceled)` (sender gone). */
  datatype AbortPoll = AbortPending | AbortOk | AbortErr

  /** One poll of `select_biased!`. */
  datatype SelectStep<T> = SelectStep(future: FuturePoll<T>, abort: AbortPoll)

  /**
   * One `select_biased!` poll, with `abortLive` false once `abort_rx`
   * terminated: the future first, then the abort receiver.  Returns the
   * loop's result if it breaks, and whether the abort arm is still live.
   */
  function SelectOnce<T>(step: SelectStep<T>, abortLive: bool): (r: (Option<Result<T, JoinError>>, bool))
    ensures step.future.FutureReady? ==> r.0 == Some(Ok(step.future.value))
    ensures step.future.FuturePanic? ==> r.0 == Some(Err(JoinError(Panicked(step.future.payload))))
    ensures step.future.FuturePending? ==>
      r.0 == (if abortLive && step.abort.AbortOk? then Some(Err(JoinError(Aborted))) else None)
    ensures r.0.None? ==> r.1 == (abortLive && !step.abort.AbortErr?)
  {
    match step.future
    case FutureReady(v) => (Some(Ok(v)), abortLive)
    case FuturePanic(p) => (Some(Err(JoinError(Panicked(p)))), abortLive)
    case FuturePending =>
      if !abortLive then (None, false)
      else
        match step.abort
        case AbortOk => (Some(Err(JoinError(Aborted))), false)
        case AbortErr => (None, false)
        case AbortPending => (None, true)
  }

  /** The loop's result after the given polls (None if it has not broken), and how many polls it used. */
  function SelectOutcome<T>(steps: seq<SelectStep<T>>, abortLive: bool): (r: (Option<Result<T, JoinError>>, nat))
    ensures r.1 <= |steps|
    ensures r.0.None? ==> r.1 == |steps|
  {
    if steps == [] then (None, 0)
    else
      var (once, live) := SelectOnce(steps[0], abortLive);
      if once.Some? then (once, 1)
      else
        var (res, n) := SelectOutcome(steps[1..], live);
        (res, n + 1)
  }

  /**
   * The select is biased: a future that is ready wins even when the abort
   * signal is ready in the same poll.
   */
  lemma FutureWinsTie<T>(steps: seq<SelectStep<T>>, v: T, live: bool)
    requires steps != [] && steps[0] == SelectStep(FutureReady(v), AbortOk)
    ensures SelectOutcome(steps, live) == (Some(Ok(v)), 1)
  {
  }

  /** Once the abort sender is gone without a signal, the loop never ends in `Aborted`. */
  lemma {:induction false} NoAbortAfterClose<T>(steps: seq<SelectStep<T>>)
    ensures SelectOutcome(steps, false).0 != Some(Err(JoinError(Aborted)))
  {
    if steps != [] {
      NoAbortAfterClose(steps[1..]);
    }
  }

  /**
   * `Aborted` is reached only through an `Ok` on the abort receiver, while all
   * future polls so far were pending and the receiver had not closed.
   */
  lemma {:induction false} AbortedOnlyOnSignal<T>(steps: seq<SelectStep<T>>, live: bool)
    requires SelectOutcome(steps, live).0 == Some(Err(JoinError(Aborted)))
    ensures live
    ensures var k := SelectOutcome(steps, live).1 - 1;
      && 0 <= k < |steps|
      && steps[k].abort == AbortOk
      && (forall j :: 0 <= j <= k ==> steps[j].future.FuturePending?)
      && (forall j :: 0 <= j < k ==> steps[j].abort == AbortPending)
  {
    var (once, live') := SelectOnce(steps[0], live);
    if once.Some? {
    } else {
      if !live' {
        NoAbortAfterClose(steps[1..]);
      }
      AbortedOnlyOnSignal(steps[1..], live');
      var k := SelectOutcome(steps, live).1 - 1;
      assert forall j :: 1 <= j <= k ==> steps[j] == steps[1..][j - 1];
    }
  }

  // ---- the handle and the thread ----

  /** The abort oneshot: open, signalled by `abort`, or closed because the sender was dropped. */
  datatype AbortState = AbortOpen | AbortSignalled | AbortClosed

  /** What a poll of `abort_rx` shows for a channel state. */
  function AbortObservation(a: AbortState): (p: AbortPoll)
    ensures p.AbortOk? <==> a == AbortSignalled
    ensures p.AbortErr? <==> a == AbortClosed
  {
    match a
    case AbortOpen => AbortPending
    case AbortSignalled => AbortOk
    case AbortClosed => AbortErr
  }

  /** The result oneshot as the handle sees it. */
  datatype ResultChannel<T> = ResultWaiting | ResultSent(res: Result<T, JoinError>) | ResultSenderDropped

  datatype JoinPoll<T> = JoinPending | JoinReady(res: Result<T, JoinError>)

  /** `JoinHandle::poll`: a result channel closed without a value reads as `Failed`. */
  function PollResult<T>(ch: ResultChannel<T>): (p: JoinPoll<T>)
    ensures p.JoinPending? <==> ch.ResultWaiting?
    ensures ch.ResultSent? ==> p == JoinReady(ch.res)
    ensures ch.ResultSenderDropped? ==> p == JoinReady(Err(JoinError(Failed)))
  {
    match ch
    case ResultWaiting => JoinPending
    case ResultSent(r) => JoinReady(r)
    case ResultSenderDropped => JoinReady(Err(JoinError(Failed)))
  }

  /** Thread-side events, in order. */
  datatype ThreadEvent<T> = Hold | SendResult(res: Result<T, JoinError>) | Release

  class JoinHandle<T> {
    /** `abort_tx.is_some()`. */
    var abortTx: bool
    /** `abort_tx.send(())` calls. */
    var abortSends: nat
    var abortChannel: AbortState
    var resultChannel: ResultChannel<T>
    /** The handle (and with it both channel ends it owns) was dropped. */
    var dropped: bool

    ghost predicate Valid()
      reads this
    {
      && abortSends == (if abortTx || abortChannel == AbortClosed then 0 else 1)
      && (abortTx <==> abortChannel == AbortOpen)
    }

    /** The handle `spawn_thread` returns: both channels fresh, the abort sender present. */
    constructor ()
      ensures Valid()
      ensures abortTx && abortSends == 0 && abortChannel == AbortOpen
      ensures resultChannel == ResultWaiting && !dropped
    {
      abortTx := true;
      abortSends := 0;
      abortChannel := AbortOpen;
      resultChannel := ResultWaiting;
      dropped := false;
    }

    /** `abort`: take the sender and signal; every later call finds None and does nothing. */
    method Abort()
      requires Valid() && !dropped
      modifies this`abortTx, this`abortSends, this`abortChannel
      ensures Valid()
      ensures !abortTx && abortSends <= 1
      ensures abortChannel == (if old(abortTx) then AbortSignalled else old(abortChannel))
      ensures abortSends == (if old(abortTx) then old(abortSends) + 1 else old(abortSends))
    {
      if abortTx {
        abortTx := false;
        abortSends := abortSends + 1;
        abortChannel := AbortSignalled;
      }
    }

    /** Dropping the handle drops a remaining abort sender, closing that channel without a signal. */
    method Drop()
      requires Valid() && !dropped
      modifies this`abortTx, this`abortChannel, this`dropped
      ensures Valid() && dropped && !abortTx
      ensures abortChannel == (if old(abortTx) then AbortClosed else old(abortChannel))
    {
      if abortTx {
        abortTx := false;
        abortChannel := AbortClosed;
      }
      dropped := true;
    }

    /** `poll` on the handle. */
    function Poll(): (p: JoinPoll<T>)
      reads this
      requires !dropped
      ensures p == PollResult(resultChannel)
    {
      PollResult(resultChannel)
    }
  }

  // ---- the two sides together ----

  /** What the handle's owner does before one poll of the thread's select. */
  datatype HandleAction = NoAction | AbortCall | DropCall

  /** One round: the handle's action, then one `select_biased!` poll that sees `future` from the future. */
  datatype Round<T> = Round(action: HandleAction, future: FuturePoll<T>)

  /**
   * The abort channel and whether the handle is gone, after one action of
   * the handle in that state.  A dropped handle does nothing more.
   */
  function AfterAction(act: HandleAction, a: AbortState, dropped: bool): (AbortState, bool)
  {
    if dropped then (a, true)
    else
      match act
      case NoAction => (a, false)
      case AbortCall => (if a == AbortOpen then AbortSignalled else a, false)
      case DropCall => (if a == AbortOpen then AbortClosed else a, true)
  }

  /** The handle's state after the actions of all the given rounds. */
  function HandleAfter<T>(rounds: seq<Round<T>>, a: AbortState, dropped: bool): (AbortState, bool)
  {
    if rounds == [] then (a, dropped)
    else
      var (a', d') := HandleAfter(rounds[..|rounds| - 1], a, dropped);
      AfterAction(rounds[|rounds| - 1].action, a', d')
  }

  /**
   * The polls the thread's select makes: each round's future result, with
   * the abort receiver as the handle's actions so far have left the channel.
   */
  function Observed<T>(rounds: seq<Round<T>>, a: AbortState, dropped: bool): (steps: seq<SelectStep<T>>)
    ensures |steps| == |rounds|
  {
    if rounds == [] then []
    else
      var (a', d') := AfterAction(rounds[0].action, a, dropped);
      [SelectStep(rounds[0].future, AbortObservation(a'))] + Observed(rounds[1..], a', d')
  }

  /** `SelectOutcome` of the polls from `i` on, counting polls from the start. */
  function OutcomeFrom<T>(steps: seq<SelectStep<T>>, i: nat, live: bool): (Option<Result<T, JoinError>>, nat)
    requires i <= |steps|
    decreases |steps| - i
  {
    if i == |steps| then (None, i)
    else
      var (once, live') := SelectOnce(steps[i], live);
      if once.Some? then (once, i + 1) else OutcomeFrom(steps, i + 1, live')
  }

  /** `OutcomeFrom` at `i` is `SelectOutcome` of the suffix from `i`, with the count shifted by `i`. */
  lemma {:induction false} OutcomeFromSuffix<T>(steps: seq<SelectStep<T>>, i: nat, live: bool)
    requires i <= |steps|
    ensures OutcomeFrom(steps, i, live) == (SelectOutcome(steps[i..], live).0, i + SelectOutcome(steps[i..], live).1)
    decreases |steps| - i
  {
    if i < |steps| {
      assert steps[i..][1..] == steps[i + 1..];
      OutcomeFromSuffix(steps, i + 1, SelectOnce(steps[i], live).1);
    }
  }

  /** `HandleAfter` taken from the front: the first round's action, then the rest. */
  lemma {:induction false} HandleAfterFront<T>(rounds: seq<Round<T>>, a: AbortState, dropped: bool)
    requires rounds != []
    ensures HandleAfter(rounds, a, dropped) ==
      HandleAfter(rounds[1..], AfterAction(rounds[0].action, a, dropped).0, AfterAction(rounds[0].action, a, dropped).1)
    decreases |rounds|
  {
    if |rounds| > 1 {
      var init := rounds[..|rounds| - 1];
      HandleAfterFront(init, a, dropped);
      assert init[1..] == rounds[1..][..|rounds[1..]| - 1];
    }
  }

  /** The `i`-th poll sees the abort channel as the actions of rounds 0 to `i` left it. */
  lemma {:induction false} ObservedAt<T>(rounds: seq<Round<T>>, a: AbortState, dropped: bool, i: nat)
    requires i < |rounds|
    ensures Observed(rounds, a, dropped)[i] ==
      SelectStep(rounds[i].future, AbortObservation(HandleAfter(rounds[..i + 1], a, dropped).0))
  {
    assert rounds[..1][..0] == [];
    if i > 0 {
      var (a', d') := AfterAction(rounds[0].action, a, dropped);
      ObservedAt(rounds[1..], a', d', i - 1);
      HandleAfterFront(rounds[..i + 1], a, dropped);
      assert rounds[..i + 1][1..] == rounds[1..][..i];
    }
  }

  /**
   * One round: the handle's owner acts on the handle (a dropped handle does
   * nothing more), then one `select_biased!` poll sees the channel as it now stands.
   */
  method PollRound<T>(h: JoinHandle<T>, r: Round<T>, abortLive: bool) returns (once: Option<Result<T, JoinError>>, live: bool)
    requires h.Valid()
    modifies h`abortTx, h`abortSends, h`abortChannel, h`dropped
    ensures h.Valid()
    ensures (h.abortChannel, h.dropped) == AfterAction(r.action, old(h.abortChannel), old(h.dropped))
    ensures (once, live) == SelectOnce(SelectStep(r.future, AbortObservation(h.abortChannel)), abortLive)
  {
    if !h.dropped {
      match r.action
      case NoAction =>
      case AbortCall => h.Abort();
      case DropCall => h.Drop();
    }
    var poll := SelectOnce(SelectStep(r.future, AbortObservation(h.abortChannel)), abortLive);
    once, live := poll.0, poll.1;
  }

  /**
   * The `loop { select_biased! { .. } }` of `spawn_thread`, against the
   * handle: in each round the handle's owner acts first, then the select
   * polls the future and, while that arm is live, the abort receiver as the
   * channel stands; an `Err` from the receiver only disables that arm.  The
   * rounds after the loop breaks are not used.
   */
  method SelectLoop<T>(h: JoinHandle<T>, rounds: seq<Round<T>>) returns (res: Option<Result<T, JoinError>>, used: nat)
    requires h.Valid()
    modifies h`abortTx, h`abortSends, h`abortChannel, h`dropped
    ensures h.Valid()
    ensures (res, used) == SelectOutcome(Observed(rounds, old(h.abortChannel), old(h.dropped)), true)
    ensures (h.abortChannel, h.dropped) == HandleAfter(rounds[..used], old(h.abortChannel), old(h.dropped))
  {
    ghost var a0, d0 := h.abortChannel, h.dropped;
    ghost var steps := Observed(rounds, a0, d0);
    var abortLive := true;
    res, used := None, 0;
    OutcomeFromSuffix(steps, 0, true);
    assert steps[0..] == steps;
    while used < |rounds|
      invariant 0 <= used <= |rounds|
      invariant h.Valid() && res.None?
      invariant (h.abortChannel, h.dropped) == HandleAfter(rounds[..used], a0, d0)
      invariant SelectOutcome(steps, true) == OutcomeFrom(steps, used, abortLive)
    {
      ObservedAt(rounds, a0, d0, used);
      assert rounds[..used + 1][..used] == rounds[..used];
      var once, live := PollRound(h, rounds[used], abortLive);
      used := used + 1;
      if once.Some? {
        res := once;
        return;
      }
      abortLive := live;
    }
  }

  /**
   * The closure `spawn_thread` runs on the new thread: `thread_hold` first,
   * then the select loop inside the spawned local task; once it breaks, the
   * result is sent and `thread_release` runs.  If the rounds run out first,
   * the task is still suspended and the thread still held.
   */
  class SpawnedThread<T> {
    var events: seq<ThreadEvent<T>>

    constructor ()
      ensures events == []
    {
      events := [];
    }

    /**
     * Runs the thread against the handle `spawn_thread` returned to its
     * caller: hold, the select loop, then the send and the release.
     */
    method Run(h: JoinHandle<T>, rounds: seq<Round<T>>) returns (res: Option<Result<T, JoinError>>, used: nat)
      requires events == [] && h.Valid() && h.resultChannel == ResultWaiting
      modifies this, h
      ensures h.Valid()
      ensures (res, used) == SelectOutcome(Observed(rounds, old(h.abortChannel), old(h.dropped)), true)
      ensures (h.abortChannel, h.dropped) == HandleAfter(rounds[..used], old(h.abortChannel), old(h.dropped))
      ensures events == [Hold] + (if res.Some? then [SendResult(res.value), Release] else [])
      ensures h.resultChannel == (if res.Some? && !h.dropped then ResultSent(res.value) else ResultWaiting)
    {
      events := [Hold];
      res, used := SelectLoop(h, rounds);
      if res.Some? {
        if !h.dropped {
          h.resultChannel := ResultSent(res.value);
        }
        events := events + [SendResult(res.value)];
        events := events + [Release];
      }
    }

    /** The thread went away before sending: the sender is dropped and the handle sees `Failed`. */
    method Die(h: JoinHandle<T>)
      requires h.resultChannel == ResultWaiting
      modifies h`resultChannel
      ensures h.resultChannel == ResultSenderDropped
      ensures !h.dropped ==> h.Poll() == JoinReady(Err(JoinError(Failed)))
    {
      h.resultChannel := ResultSenderDropped;
    }
  }

  /**
   * `abort()` before the future is ready ends the task in `Aborted`: the
   * handle aborts in round `k`, was not dropped before, and the future was
   * pending in every poll up to and including that round.
   */
  lemma {:induction false} AbortBeforeReady<T>(rounds: seq<Round<T>>, k: nat)
    requires k < |rounds| && rounds[k].action == AbortCall
    requires forall j :: 0 <= j < k ==> rounds[j].action != DropCall
    requires forall j :: 0 <= j <= k ==> rounds[j].future.FuturePending?
    ensures SelectOutcome(Observed(rounds, AbortOpen, false), true).0 == Some(Err(JoinError(Aborted)))
    ensures SelectOutcome(Observed(rounds, AbortOpen, false), true).1 <= k + 1
  {
    if rounds[0].action != AbortCall {
      assert forall j :: 0 <= j < |rounds| - 1 ==> rounds[1..][j] == rounds[j + 1];
      AbortBeforeReady(rounds[1..], k - 1);
    }
  }

  /** A handle that never calls `abort()` never sees its task end in `Aborted`. */
  lemma {:induction false} NoAbortNoAborted<T>(rounds: seq<Round<T>>, a: AbortState, dropped: bool, live: bool)
    requires a != AbortSignalled
    requires forall j :: 0 <= j < |rounds| ==> rounds[j].action != AbortCall
    ensures SelectOutcome(Observed(rounds, a, dropped), live).0 != Some(Err(JoinError(Aborted)))
  {
    if rounds != [] {
      var (a', d') := AfterAction(rounds[0].action, a, dropped);
      var (once, live') := SelectOnce(SelectStep(rounds[0].future, AbortObservation(a')), live);
      if once.None? {
        assert forall j :: 0 <= j < |rounds| - 1 ==> rounds[1..][j] == rounds[j + 1];
        NoAbortNoAborted(rounds[1..], a', d', live');
      }
    }
  }

  /** Without a `DropCall`, the handle is still there after any number of rounds. */
  lemma {:induction false} NoDropKeepsHandle<T>(rounds: seq<Round<T>>, a: AbortState)
    requires forall j :: 0 <= j < |rounds| ==> rounds[j].action != DropCall
    ensures !HandleAfter(rounds, a, false).1
  {
    if rounds != [] {
      NoDropKeepsHandle(rounds[..|rounds| - 1], a);
    }
  }

  /** A fresh handle: the one `spawn_thread` returns, before anything happened to it. */
  ghost predicate FreshHandle<T>(h: JoinHandle<T>)
    reads h
  {
    h.Valid() && !h.dropped && h.abortChannel == AbortOpen && h.resultChannel == ResultWaiting
  }

  /** Aborting before the future is ready makes the handle resolve to `Aborted`. */
  method AbortBeforeCompletion<T>(h: JoinHandle<T>, t: SpawnedThread<T>, rounds: seq<Round<T>>, k: nat)
    returns (p: JoinPoll<T>)
    requires FreshHandle(h) && t.events == []
    requires k < |rounds| && rounds[k].action == AbortCall
    requires forall j :: 0 <= j < k ==> rounds[j].action != DropCall
    requires forall j :: 0 <= j <= k ==> rounds[j].future.FuturePending?
    modifies h, t
    ensures p == JoinReady(Err(JoinError(Aborted)))
  {
    AbortBeforeReady(rounds, k);
    var res, used := t.Run(h, rounds);
    assert forall j :: 0 <= j < used ==> rounds[..used][j] == rounds[j];
    NoDropKeepsHandle(rounds[..used], AbortOpen);
    p := h.Poll();
  }

  /** A handle that is never aborted never reads `Aborted`, whatever the task does. */
  method NeverAbortedHandle<T>(h: JoinHandle<T>, t: SpawnedThread<T>, rounds: seq<Round<T>>)
    returns (p: JoinPoll<T>)
    requires FreshHandle(h) && t.events == []
    requires forall j :: 0 <= j < |rounds| ==> rounds[j].action == NoAction
    modifies h, t
    ensures p != JoinReady(Err(JoinError(Aborted)))
  {
    NoAbortNoAborted(rounds, AbortOpen, false, true);
    var res, used := t.Run(h, rounds);
    assert forall j :: 0 <= j < used ==> rounds[..used][j] == rounds[j];
    NoDropKeepsHandle(rounds[..used], AbortOpen);
    p := h.Poll();
  }

  /**
   * Aborting after the result was sent changes nothing the handle reports:
   * the original result stands.
   */
  method AbortAfterCompletion<T>(h: JoinHandle<T>, t: SpawnedThread<T>, rounds: seq<Round<T>>)
    returns (p: JoinPoll<T>)
    requires FreshHandle(h) && t.events == []
    requires forall j :: 0 <= j < |rounds| ==> rounds[j].action != DropCall
    requires SelectOutcome(Observed(rounds, AbortOpen, false), true).0.Some?
    modifies h, t
    ensures p == JoinReady(SelectOutcome(Observed(rounds, AbortOpen, false), true).0.value)
  {
    var res, used := t.Run(h, rounds);
    assert forall j :: 0 <= j < used ==> rounds[..used][j] == rounds[j];
    NoDropKeepsHandle(rounds[..used], AbortOpen);
    h.Abort();
    p := h.Poll();
  }
}
