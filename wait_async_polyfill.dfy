/**
 * The `Atomics.waitAsync` polyfill of
 * crates/futures/src/task/wait_async_polyfill.rs: a thread-local pool of
 * helper workers, each of which performs one blocking `Atomics.wait` on
 * behalf of the waiting thread and posts the outcome back.
 *
 * The host steps are methods of `Polyfill`: `WaitAsync` (the promise
 * executor), `DeliverResult` (the helper's one-shot `onmessage` callback) and
 * `FireLongWaitTimer` (the optional `setTimeout` diagnostic).  A helper is
 * named by `uid`, which stands for the identity of its `Rc<WorkerGuard>`.
 */
module WaitAsyncPolyfill {
  import opened Wrappers
  import opened Ints

  /** `HELPER_CACHE_SIZE`: idle helpers kept alive. */
  const HELPER_CACHE_SIZE: nat := 32

  /** A helper worker: its identity and the `ID` value baked into its worker name. */
  datatype Helper = Helper(uid: nat, nameId: nat)

  /** `wasm_bindgen::memory()`, the one memory of the module. */
  datatype JsMemory = ModuleMemory

  /** The `Array::of4` posted to a helper: memory, i32 index, expected value, timeout or undefined. */
  datatype Message = Message(memory: JsMemory, index: nat, value: int, timeout: Option<int>)

  /** What the helper's `Atomics.wait` returns and posts back. */
  datatype WaitResult = WokenOk | NotEqual | TimedOut

  /** One call of `wait_async`: its helper, the message, the `done` cell if any, and the resolution. */
  datatype WaitRecord = WaitRecord(helper: Helper, message: Message, done: Option<bool>, resolved: Option<WaitResult>)

  // ---- LONG_WAIT_WARNING: u32::from_str_radix(t, 10) ----

  predicate IsDigit(c: char) { '0' <= c <= '9' }

  predicate AllDigits(s: string) { forall i :: 0 <= i < |s| ==> IsDigit(s[i]) }

  /** The value of a string of decimal digits, most significant first. */
  function DigitsValue(s: string): (v: nat)
    requires AllDigits(s)
  {
    if s == [] then 0 else DigitsValue(s[..|s| - 1]) * 10 + (s[|s| - 1] - '0') as int
  }

  /** The part `from_str_radix` reads as digits: one leading '+' is dropped when something follows it. */
  function DigitPart(s: string): (d: string)
  {
    if |s| >= 2 && s[0] == '+' then s[1..] else if s == "+" then "" else s
  }

  /**
   * `u32::from_str_radix(s, 10)` as an Option: empty input, a lone sign, any
   * non-digit (so also a '-') and overflow are errors.
   */
  function ParseDecimalU32(s: string): (r: Option<nat>)
    ensures r.Some? ==> r.value < U32_LIMIT
    ensures s == [] || s == "+" || s == "-" ==> r.None?
  {
    var d := DigitPart(s);
    if d != [] && AllDigits(d) && DigitsValue(d) < U32_LIMIT then Some(DigitsValue(d)) else None
  }

  /** `LONG_WAIT_WARNING` from the build-time value of `WBG_LONG_WAIT_WARNING`. */
  function LongWaitWarning(env: Option<string>): (r: Option<nat>)
    ensures env.None? ==> r.None?
    ensures env.Some? ==> r == ParseDecimalU32(env.value)
    ensures r.Some? ==> r.value < U32_LIMIT
  {
    match env
    case None => None
    case Some(t) => ParseDecimalU32(t)
  }

  /** Decimal rendering of a natural number, the inverse the parser is checked against. */
  function ToDecimal(n: nat): (s: string)
    decreases n
  {
    if n < 10 then [('0' as int + n) as char] else ToDecimal(n / 10) + [('0' as int + n % 10) as char]
  }

  lemma {:induction false} ToDecimalDigits(n: nat)
    ensures ToDecimal(n) != [] && AllDigits(ToDecimal(n)) && DigitsValue(ToDecimal(n)) == n
    decreases n
  {
    if n >= 10 {
      ToDecimalDigits(n / 10);
      var s := ToDecimal(n);
      assert s[..|s| - 1] == ToDecimal(n / 10);
    }
  }

  /** Every u32 written in decimal parses back to itself, with or without a '+'; larger values overflow. */
  lemma ParseDecimalRoundTrip(n: nat)
    ensures n < U32_LIMIT ==> ParseDecimalU32(ToDecimal(n)) == Some(n)
    ensures n < U32_LIMIT ==> ParseDecimalU32("+" + ToDecimal(n)) == Some(n)
    ensures n >= U32_LIMIT ==> ParseDecimalU32(ToDecimal(n)) == None
  {
    ToDecimalDigits(n);
    assert ToDecimal(n)[0] != '+';
    assert ("+" + ToDecimal(n))[1..] == ToDecimal(n);
  }

  /** `k` zero digits. */
  function Zeros(k: nat): (z: string)
    ensures |z| == k && AllDigits(z)
  {
    seq(k, _ => '0')
  }

  /** Leading zeros do not change a digit string's value. */
  lemma {:induction false} ZerosValue(k: nat, s: string)
    requires AllDigits(s)
    ensures AllDigits(Zeros(k) + s) && DigitsValue(Zeros(k) + s) == DigitsValue(s)
    decreases |s|, k
  {
    var t := Zeros(k) + s;
    if s == [] {
      assert t == Zeros(k);
      if k > 0 {
        assert Zeros(k)[..k - 1] == Zeros(k - 1);
        ZerosValue(k - 1, []);
        assert Zeros(k - 1) + [] == Zeros(k - 1);
      }
    } else {
      assert t[..|t| - 1] == Zeros(k) + s[..|s| - 1];
      ZerosValue(k, s[..|s| - 1]);
    }
  }

  /** A digit string that does not start with '0' has a positive value. */
  lemma {:induction false} LeadingNonZeroPositive(s: string)
    requires s != [] && AllDigits(s) && s[0] != '0'
    ensures DigitsValue(s) > 0
    decreases |s|
  {
    if |s| > 1 {
      LeadingNonZeroPositive(s[..|s| - 1]);
    }
  }

  /** A digit string without a leading zero is the decimal rendering of its value. */
  lemma {:induction false} CanonicalDigits(s: string)
    requires s != [] && AllDigits(s) && (s[0] != '0' || |s| == 1)
    ensures ToDecimal(DigitsValue(s)) == s
    decreases |s|
  {
    if |s| > 1 {
      var init := s[..|s| - 1];
      LeadingNonZeroPositive(init);
      CanonicalDigits(init);
      var n := DigitsValue(s);
      assert n / 10 == DigitsValue(init) && n % 10 == (s[|s| - 1] - '0') as int;
    }
  }

  /** Every digit string is some zeros followed by the decimal rendering of its value. */
  lemma {:induction false} SplitLeadingZeros(s: string) returns (k: nat)
    requires s != [] && AllDigits(s)
    ensures s == Zeros(k) + ToDecimal(DigitsValue(s))
    decreases |s|
  {
    if s[0] != '0' || |s| == 1 {
      CanonicalDigits(s);
      k := 0;
      assert Zeros(0) + s == s;
    } else {
      var k' := SplitLeadingZeros(s[1..]);
      ZerosValue(1, s[1..]);
      assert s == Zeros(1) + s[1..];
      k := k' + 1;
      assert Zeros(k) == Zeros(1) + Zeros(k');
    }
  }

  /** What parses is some zeros and a decimal rendering, after an optional '+'. */
  lemma ParsedForm(t: string) returns (k: nat)
    requires ParseDecimalU32(t).Some?
    ensures t == Zeros(k) + ToDecimal(ParseDecimalU32(t).value) || t == "+" + Zeros(k) + ToDecimal(ParseDecimalU32(t).value)
  {
    var d := DigitPart(t);
    k := SplitLeadingZeros(d);
    if t != d {
      assert t == "+" + d;
    }
  }

  /** Some zeros and the decimal rendering of a u32, after an optional '+', parse to that number. */
  lemma FormParses(t: string, k: nat, n: nat)
    requires n < U32_LIMIT
    requires t == Zeros(k) + ToDecimal(n) || t == "+" + Zeros(k) + ToDecimal(n)
    ensures ParseDecimalU32(t) == Some(n)
  {
    var d := Zeros(k) + ToDecimal(n);
    ToDecimalDigits(n);
    ZerosValue(k, ToDecimal(n));
    assert d[0] != '+';
    if t == "+" + d {
      assert t[1..] == d;
    }
    assert DigitPart(t) == d;
  }

  /**
   * A set warning is exactly a number below 2^32 written in decimal, with
   * any number of leading zeros and at most one leading '+'.
   */
  lemma LongWaitWarningSome(t: string, n: nat)
    ensures LongWaitWarning(Some(t)) == Some(n) <==>
      n < U32_LIMIT && exists k: nat :: t == Zeros(k) + ToDecimal(n) || t == "+" + Zeros(k) + ToDecimal(n)
  {
    if LongWaitWarning(Some(t)) == Some(n) {
      var k := ParsedForm(t);
    }
    if n < U32_LIMIT && exists k: nat :: t == Zeros(k) + ToDecimal(n) || t == "+" + Zeros(k) + ToDecimal(n) {
      var k: nat :| t == Zeros(k) + ToDecimal(n) || t == "+" + Zeros(k) + ToDecimal(n);
      FormParses(t, k, n);
    }
  }

  /** A negative number is not a u32. */
  lemma ParseRejectsMinus(t: string)
    ensures ParseDecimalU32("-" + t).None?
  {
    var s := "-" + t;
    assert s[0] == '-';
    if |s| >= 2 {
      assert DigitPart(s) == s;
      assert !IsDigit(s[0]);
    }
  }

  // ---- the helper pool and the wait protocol ----

  /** Helpers assigned to a wait that has not delivered its result. */
  ghost function BusyOf(ws: seq<WaitRecord>): set<nat>
  {
    set i | 0 <= i < |ws| && ws[i].resolved.None? :: ws[i].helper.uid
  }

  /** No helper serves two waits in flight. */
  ghost predicate DistinctInFlight(ws: seq<WaitRecord>)
  {
    forall i, j :: 0 <= i < j < |ws| && ws[i].resolved.None? && ws[j].resolved.None? ==>
      ws[i].helper.uid != ws[j].helper.uid
  }

  lemma BusyOfAppend(ws: seq<WaitRecord>, r: WaitRecord)
    requires r.resolved.None?
    ensures BusyOf(ws + [r]) == BusyOf(ws) + {r.helper.uid}
  {
    var ws' := ws + [r];
    forall u ensures u in BusyOf(ws') <==> u in BusyOf(ws) + {r.helper.uid} {
      if u in BusyOf(ws') {
        var i :| 0 <= i < |ws'| && ws'[i].resolved.None? && ws'[i].helper.uid == u;
        if i < |ws| { assert ws[i] == ws'[i]; }
      }
      if u in BusyOf(ws) {
        var i :| 0 <= i < |ws| && ws[i].resolved.None? && ws[i].helper.uid == u;
        assert ws'[i] == ws[i];
      }
      if u == r.helper.uid {
        assert ws'[|ws|] == r;
      }
    }
  }

  /**
   * Every record names a helper already created, has a timer flag iff the
   * long-wait warning is on, and a flagged record is marked done iff resolved.
   */
  ghost predicate RecordsValid(ws: seq<WaitRecord>, created: nat, warn: bool)
  {
    && (forall i :: 0 <= i < |ws| ==> ws[i].helper.uid < created)
    && (forall i :: 0 <= i < |ws| ==> (ws[i].done.Some? <==> warn))
    && (forall i :: 0 <= i < |ws| && ws[i].done.Some? ==> (ws[i].done.value <==> ws[i].resolved.Some?))
  }

  lemma RecordsAppend(ws: seq<WaitRecord>, r: WaitRecord, created: nat, warn: bool)
    requires RecordsValid(ws, created, warn)
    requires r.helper.uid < created && (r.done.Some? <==> warn) && r.resolved.None? && r.done != Some(true)
    ensures RecordsValid(ws + [r], created, warn)
  {
    var ws' := ws + [r];
    assert forall i :: 0 <= i < |ws| ==> ws'[i] == ws[i];
  }

  lemma DistinctAppend(ws: seq<WaitRecord>, r: WaitRecord)
    requires DistinctInFlight(ws) && r.helper.uid !in BusyOf(ws)
    ensures DistinctInFlight(ws + [r])
  {
    var ws' := ws + [r];
    forall i, j | 0 <= i < j < |ws'| && ws'[i].resolved.None? && ws'[j].resolved.None?
      ensures ws'[i].helper.uid != ws'[j].helper.uid
    {
      if j == |ws| {
        assert ws[i] == ws'[i];
        assert ws[i].helper.uid in BusyOf(ws);
      } else {
        assert ws[i] == ws'[i] && ws[j] == ws'[j];
      }
    }
  }

  lemma BusyOfResolve(ws: seq<WaitRecord>, w: nat, r: WaitRecord)
    requires DistinctInFlight(ws)
    requires w < |ws| && ws[w].resolved.None? && r.resolved.Some?
    ensures BusyOf(ws[w := r]) == BusyOf(ws) - {ws[w].helper.uid}
    ensures DistinctInFlight(ws[w := r])
  {
    var ws' := ws[w := r];
    forall u ensures u in BusyOf(ws') <==> u in BusyOf(ws) - {ws[w].helper.uid} {
      if u in BusyOf(ws') {
        var i :| 0 <= i < |ws'| && ws'[i].resolved.None? && ws'[i].helper.uid == u;
        assert i != w && ws[i] == ws'[i];
        if i < w { assert ws[i].helper.uid != ws[w].helper.uid; }
        if i > w { assert ws[w].helper.uid != ws[i].helper.uid; }
      }
      if u in BusyOf(ws) && u != ws[w].helper.uid {
        var i :| 0 <= i < |ws| && ws[i].resolved.None? && ws[i].helper.uid == u;
        assert i != w && ws'[i] == ws[i];
      }
    }
  }

  class Polyfill {
    /** `HELPERS`: idle helpers, last pushed = next reused. */
    var free: seq<Helper>
    /** `ID`: the wrapping counter used in new worker names. */
    var id: nat
    /** Helpers created so far; new helpers get `uid == created`. */
    var created: nat
    /** Helpers whose `WorkerGuard` was dropped, terminating the worker. */
    var terminated: set<nat>
    /** Every `wait_async` call, in order. */
    var waits: seq<WaitRecord>
    /** Every `post_message` to a helper, in order. */
    var posted: seq<(Helper, Message)>
    /** Waits whose long-wait timer is set and has not run yet. */
    var timers: set<nat>
    /** Waits for which the long-wait trace was printed. */
    var traces: seq<nat>
    /** `LONG_WAIT_WARNING`. */
    const longWaitWarning: Option<nat>

    ghost function FreeUids(): set<nat>
      reads this
    {
      set h | h in free :: h.uid
    }

    /** Helpers assigned to a wait that has not delivered its result. */
    ghost function Busy(): set<nat>
      reads this
    {
      BusyOf(waits)
    }

    ghost predicate PoolValid()
      reads this
    {
      && |free| <= HELPER_CACHE_SIZE
      && id < U32_LIMIT
      && (forall i, j :: 0 <= i < j < |free| ==> free[i].uid != free[j].uid)
      && (forall h :: h in free ==> h.uid < created && h.uid !in terminated)
      && (forall u :: u in terminated ==> u < created)
    }

    /**
     * The pool invariant: every helper created so far is idle in the free
     * list, or assigned to exactly one wait in flight, or terminated, and
     * never two of these.
     */
    ghost predicate Valid()
      reads this
    {
      && PoolValid()
      && RecordsValid(waits, created, longWaitWarning.Some?)
      && DistinctInFlight(waits)
      && FreeUids() !! Busy()
      && terminated !! Busy()
      && (forall u :: 0 <= u < created ==> u in FreeUids() || u in Busy() || u in terminated)
      && (forall w :: w in timers ==> w < |waits|)
    }

    constructor (longWaitEnv: Option<string>)
      ensures Valid()
      ensures longWaitWarning == LongWaitWarning(longWaitEnv)
      ensures free == [] && id == 0 && created == 0 && terminated == {}
      ensures waits == [] && posted == [] && timers == {} && traces == []
    {
      longWaitWarning := LongWaitWarning(longWaitEnv);
      free := [];
      id := 0;
      created := 0;
      terminated := {};
      waits := [];
      posted := [];
      timers := {};
      traces := [];
    }

    /** `alloc_helper`: reuse the last idle helper, else create one and bump `ID` (wrapping). */
    method AllocHelper() returns (h: Helper)
      requires PoolValid()
      modifies this`free, this`id, this`created
      ensures PoolValid()
      ensures old(free) != [] ==>
        h == old(free)[|old(free)| - 1] && free == old(free)[..|old(free)| - 1] && id == old(id) && created == old(created)
      ensures old(free) == [] ==>
        h == Helper(old(created), old(id)) && free == [] && id == WrappingIncUsize(old(id)) && created == old(created) + 1
      ensures h !in free && h.uid < created && h.uid !in terminated
      ensures FreeUids() == old(FreeUids()) - {h.uid}
    {
      if free != [] {
        h := free[|free| - 1];
        free := free[..|free| - 1];
        assert forall g :: g in free ==> g.uid != h.uid by {
          forall g | g in free ensures g.uid != h.uid {
            var i :| 0 <= i < |free| && free[i] == g;
            assert old(free)[i] == g;
          }
        }
        assert FreeUids() == old(FreeUids()) - {h.uid} by {
          assert old(free) == free + [h];
        }
        return;
      }
      h := Helper(created, id);
      id := WrappingIncUsize(id);
      created := created + 1;
    }

    /** `free_helper`: keep the helper if fewer than 32 are idle, else drop it, which terminates its worker. */
    method FreeHelper(h: Helper)
      requires PoolValid()
      requires h.uid < created && h.uid !in terminated && h.uid !in FreeUids()
      modifies this`free, this`terminated
      ensures PoolValid()
      ensures |old(free)| < HELPER_CACHE_SIZE ==> free == old(free) + [h] && terminated == old(terminated)
      ensures |old(free)| >= HELPER_CACHE_SIZE ==> free == old(free) && terminated == old(terminated) + {h.uid}
    {
      if |free| < HELPER_CACHE_SIZE {
        free := free + [h];
      } else {
        terminated := terminated + {h.uid};
      }
    }

    /**
     * `wait_async(ptr, value, timeout)`, the promise executor: take a helper,
     * set the long-wait timer if configured, install the one-shot callback and
     * post [memory, ptr / 4, value, timeout] to the helper.
     */
    method WaitAsync(ptr: nat, value: int, timeout: Option<int>) returns (w: nat, h: Helper)
      requires Valid()
      requires ptr < U32_LIMIT
      modifies this
      ensures Valid()
      ensures w == |old(waits)|
      ensures h.uid !in old(Busy()) && h.uid !in old(terminated)
      ensures old(free) != [] ==>
        h == old(free)[|old(free)| - 1] && free == old(free)[..|old(free)| - 1] && id == old(id) && created == old(created)
      ensures old(free) == [] ==>
        h == Helper(old(created), old(id)) && free == [] && id == WrappingIncUsize(old(id)) && created == old(created) + 1
      ensures waits == old(waits) + [WaitRecord(h, Message(ModuleMemory, ptr / 4, value, timeout),
                                                if longWaitWarning.Some? then Some(false) else None, None)]
      ensures posted == old(posted) + [(h, Message(ModuleMemory, ptr / 4, value, timeout))]
      ensures timers == old(timers) + (if longWaitWarning.Some? then {w} else {})
      ensures terminated == old(terminated) && traces == old(traces)
      ensures Busy() == old(Busy()) + {h.uid}
    {
      h := AllocHelper();
      w := |waits|;
      var done: Option<bool> := None;
      if longWaitWarning.Some? {
        done := Some(false);
        timers := timers + {w};
      }
      var msg := Message(ModuleMemory, ptr / 4, value, timeout);
      var rec := WaitRecord(h, msg, done, None);
      assert h.uid !in BusyOf(waits) by {
        if old(free) != [] {
          assert h in old(free);
        }
      }
      BusyOfAppend(waits, rec);
      DistinctAppend(waits, rec);
      RecordsAppend(waits, rec, created, longWaitWarning.Some?);
      waits := waits + [rec];
      posted := posted + [(h, msg)];
    }

    /**
     * The helper's `onmessage`: give the helper back to the pool, resolve the
     * promise with the posted result, then mark the wait done.
     */
    method DeliverResult(w: nat, result: WaitResult)
      requires Valid()
      requires w < |waits| && waits[w].resolved.None?
      modifies this`free, this`terminated, this`waits
      ensures Valid()
      ensures var h := old(waits)[w].helper;
        && (|old(free)| < HELPER_CACHE_SIZE ==> free == old(free) + [h] && terminated == old(terminated))
        && (|old(free)| >= HELPER_CACHE_SIZE ==> free == old(free) && terminated == old(terminated) + {h.uid})
      ensures waits == old(waits)[w := old(waits)[w].(resolved := Some(result),
                                                       done := if old(waits)[w].done.Some? then Some(true) else None)]
      ensures Busy() == old(Busy()) - {old(waits)[w].helper.uid}
    {
      var h := waits[w].helper;
      assert h.uid in BusyOf(waits);
      FreeHelper(h);
      var rec := waits[w];
      var rec' := rec.(resolved := Some(result), done := if rec.done.Some? then Some(true) else None);
      BusyOfResolve(waits, w, rec');
      waits := waits[w := rec'];
    }

    /** The long-wait timer: trace only if the wait is not done; it never resolves or cancels anything. */
    method FireLongWaitTimer(w: nat)
      requires Valid()
      requires w in timers
      modifies this`timers, this`traces
      ensures Valid()
      ensures timers == old(timers) - {w}
      ensures traces == old(traces) + (if waits[w].done == Some(false) then [w] else [])
    {
      timers := timers - {w};
      if waits[w].done == Some(false) {
        traces := traces + [w];
      }
    }
  }

  /**
   * Waits in flight never share a helper, however many there are: with more
   * than the cache holds, the extra ones get newly created helpers.
   */
  method ManyConcurrentWaits(p: Polyfill, n: nat) returns (hs: seq<Helper>)
    requires p.Valid()
    modifies p
    ensures p.Valid()
    ensures |hs| == n
    ensures forall i, j :: 0 <= i < j < n ==> hs[i].uid != hs[j].uid
    ensures forall i :: 0 <= i < n ==> hs[i].uid in p.Busy()
  {
    hs := [];
    var k := 0;
    while k < n
      invariant 0 <= k <= n && |hs| == k
      invariant p.Valid()
      invariant forall i, j :: 0 <= i < j < k ==> hs[i].uid != hs[j].uid
      invariant forall i :: 0 <= i < k ==> hs[i].uid in p.Busy()
    {
      ghost var hs0 := hs;
      var w, h := p.WaitAsync(0, 0, None);
      hs := hs + [h];
      assert forall i :: 0 <= i < k ==> hs[i] == hs0[i];
      k := k + 1;
    }
  }
}
