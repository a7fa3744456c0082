/**
 * The wait transformation of crates/wait-xform/src/lib.rs: every
 * `memory.atomic.wait32` in a module becomes a call to a generated
 * `__atomic_wait32`, which either waits natively or, when the exported
 * global `wait_prohibited` is set, spins in a generated `__atomic_spin32`.
 *
 * The module is a class whose item tables are sequences (an id is an index);
 * instructions are a tree datatype with nested sequences for blocks.  The
 * visitor is a class as in the source; what it computes is the function
 * `WalkSeq`, the reference rewrite is `Substituted`.  The semantics of the
 * generated spin function is `AtomicSpin32` over oracle loads and clock reads.
 */
module WaitXform {
  import opened Wrappers
  import opened Ints

  const CLOCK_NS_IMPORT: string := "__wbindgen_clock_ns"
  const SPIN_TIMEOUT_IMPORT: string := "__wbindgen_spin_timeout"
  const WAIT_PROHIBITED_GLOBAL: string := "wait_prohibited"
  const MAX_SPIN_NS_GLOBAL: string := "max_spin_ns"
  const ATOMIC_WAIT32: string := "__atomic_wait32"
  const ATOMIC_SPIN32: string := "__atomic_spin32"

  /** Default spin ceiling: 10 seconds in nanoseconds. */
  const MAX_SPIN_NS: int := 10 * 1000 * 1000 * 1000

  datatype ValType = I32 | I64
  datatype MemArg = MemArg(align: nat, offset: nat)

  /** The only memory argument a wait may carry. */
  const MEM_ARG: MemArg := MemArg(4, 0)

  datatype LoadKind = LoadI32(atomic: bool) | LoadOther
  datatype BinaryOp = I32Ne | I64Sub | I64GeU | OtherBinop(code: nat)
  datatype UnaryOp = I64Eqz | OtherUnop(code: nat)

  /**
   * Instructions.  A block, loop or if/else owns its nested sequences; `Br`
   * names its target by nesting depth; `loc` is the instruction's location.
   */
  datatype Instr =
    | AtomicWait(memory: nat, arg: MemArg, sixtyFour: bool, loc: nat)
    | Call(func: nat)
    | Block(body: seq<Instr>)
    | Loop(body: seq<Instr>)
    | IfElse(ty: Option<ValType>, consequent: seq<Instr>, alternative: seq<Instr>)
    | GlobalGet(global: nat)
    | LocalGet(local: nat)
    | LocalSet(local: nat)
    | LocalTee(local: nat)
    | Load(memory: nat, kind: LoadKind, arg: MemArg)
    | I32Const(value: int)
    | Binop(op: BinaryOp)
    | Unop(uop: UnaryOp)
    | Return
    | Br(depth: nat)
    | Unreachable
    | OtherInstr(code: nat)

  // ---- instruction trees ----

  /** The number of waits in a sequence, nested ones included. */
  function CountWaits(body: seq<Instr>): nat
    decreases body
  {
    if body == [] then 0 else InstrWaits(body[0]) + CountWaits(body[1..])
  }

  function InstrWaits(i: Instr): nat
    decreases i
  {
    match i
    case AtomicWait(_, _, _, _) => 1
    case Block(b) => CountWaits(b)
    case Loop(b) => CountWaits(b)
    case IfElse(_, c, a) => CountWaits(c) + CountWaits(a)
    case _ => 0
  }

  /** The count is the sum over positions: zero everywhere, zero in total. */
  lemma {:induction false} CountWaitsZero(body: seq<Instr>)
    requires forall k :: 0 <= k < |body| ==> InstrWaits(body[k]) == 0
    ensures CountWaits(body) == 0
    decreases body
  {
    if body != [] {
      assert forall k :: 0 <= k < |body[1..]| ==> body[1..][k] == body[k + 1];
      CountWaitsZero(body[1..]);
    }
  }

  lemma {:induction false} CountWaitsAppend(a: seq<Instr>, b: seq<Instr>)
    ensures CountWaits(a + b) == CountWaits(a) + CountWaits(b)
    decreases a
  {
    if a != [] {
      assert (a + b)[0] == a[0] && (a + b)[1..] == a[1..] + b;
      CountWaitsAppend(a[1..], b);
    } else {
      assert a + b == b;
    }
  }

  /** Every wait uses the given memory, align 4 / offset 0, and is not wait64. */
  predicate AllWaitsValid(memory: nat, body: seq<Instr>)
    decreases body
  {
    if body == [] then true
    else
      var head := match body[0]
        case AtomicWait(m, arg, s, _) => m == memory && arg == MEM_ARG && !s
        case Block(b) => AllWaitsValid(memory, b)
        case Loop(b) => AllWaitsValid(memory, b)
        case IfElse(_, c, a) => AllWaitsValid(memory, c) && AllWaitsValid(memory, a)
        case _ => true;
      head && AllWaitsValid(memory, body[1..])
  }

  /** Validity is checked position by position. */
  lemma {:induction false} AllWaitsValidAt(memory: nat, body: seq<Instr>)
    requires forall k :: 0 <= k < |body| ==> AllWaitsValid(memory, [body[k]])
    ensures AllWaitsValid(memory, body)
    decreases body
  {
    if body != [] {
      assert [body[0]][1..] == [];
      assert forall k :: 0 <= k < |body[1..]| ==> body[1..][k] == body[k + 1];
      AllWaitsValidAt(memory, body[1..]);
    }
  }

  /** The intended rewrite: each wait replaced by a call to `wait32`, everything else as it was. */
  function Substituted(wait32: nat, body: seq<Instr>): (r: seq<Instr>)
    ensures |r| == |body|
    decreases body
  {
    if body == [] then []
    else
      var head := match body[0]
        case AtomicWait(_, _, _, _) => Call(wait32)
        case Block(b) => Block(Substituted(wait32, b))
        case Loop(b) => Loop(Substituted(wait32, b))
        case IfElse(t, c, a) => IfElse(t, Substituted(wait32, c), Substituted(wait32, a))
        case i => i;
      [head] + Substituted(wait32, body[1..])
  }

  /** The substitution leaves no wait behind, at any depth. */
  lemma {:induction false} SubstitutedNoWaits(w: nat, body: seq<Instr>)
    ensures CountWaits(Substituted(w, body)) == 0
    decreases body
  {
    if body != [] {
      var s := Substituted(w, body);
      assert s[1..] == Substituted(w, body[1..]);
      SubstitutedNoWaits(w, body[1..]);
      match body[0]
      case Block(b) => SubstitutedNoWaits(w, b);
      case Loop(b) => SubstitutedNoWaits(w, b);
      case IfElse(_, c, a) => SubstitutedNoWaits(w, c); SubstitutedNoWaits(w, a);
      case _ =>
    }
  }

  /**
   * Position by position, a wait becomes `Call(w)`, a block, loop or if/else
   * keeps its kind (and type) around substituted bodies, anything else stays.
   */
  lemma {:induction false} SubstitutedPositions(w: nat, body: seq<Instr>)
    ensures forall k :: 0 <= k < |body| ==> Substituted(w, body)[k] == SubstitutedAt(w, body, k)
    decreases body
  {
    if body != [] {
      SubstitutedPositions(w, body[1..]);
      var s := Substituted(w, body);
      forall k | 1 <= k < |body|
        ensures s[k] == SubstitutedAt(w, body, k)
      {
        assert s[k] == Substituted(w, body[1..])[k - 1];
        assert body[k] == body[1..][k - 1];
      }
    }
  }

  /** What the substitution puts at position `k`. */
  function SubstitutedAt(w: nat, body: seq<Instr>, k: nat): Instr
    requires k < |body|
  {
    match body[k]
    case AtomicWait(_, _, _, _) => Call(w)
    case Block(b) => Block(Substituted(w, b))
    case Loop(b) => Loop(Substituted(w, b))
    case IfElse(t, c, a) => IfElse(t, Substituted(w, c), Substituted(w, a))
    case i => i
  }

  // ---- the visitor ----

  /** Why a wait cannot be rewritten. */
  datatype WaitError = BadMemory(memory: nat, loc: nat) | BadMemArg(arg: MemArg, loc: nat) | Wait64(loc: nat)

  /**
   * The three checks are made one after the other and each overwrites the
   * error, so the last applicable one is reported.
   */
  function WaitCheck(memory: nat, arg: MemArg, sixtyFour: bool, loc: nat, expected: nat): (e: Option<WaitError>)
    ensures e.None? <==> memory == expected && arg == MEM_ARG && !sixtyFour
    ensures sixtyFour ==> e == Some(Wait64(loc))
    ensures !sixtyFour && arg != MEM_ARG ==> e == Some(BadMemArg(arg, loc))
    ensures !sixtyFour && arg == MEM_ARG && memory != expected ==> e == Some(BadMemory(memory, loc))
  {
    if sixtyFour then Some(Wait64(loc))
    else if arg != MEM_ARG then Some(BadMemArg(arg, loc))
    else if memory != expected then Some(BadMemory(memory, loc))
    else None
  }

  datatype WaitCfg = WaitCfg(memory: nat, wait32: nat)

  /**
   * The pre-order walk of one function body with the visitor's `failed`
   * threaded through: once it is set, instructions are left as they are; the
   * failing wait itself is still replaced.
   */
  function WalkSeq(cfg: WaitCfg, failed: Option<WaitError>, body: seq<Instr>): (r: (seq<Instr>, Option<WaitError>))
    ensures |r.0| == |body|
    ensures failed.Some? ==> r == (body, failed)
    decreases body
  {
    if body == [] then ([], failed)
    else
      var (head, f1) := WalkInstr(cfg, failed, body[0]);
      var (tail, f2) := WalkSeq(cfg, f1, body[1..]);
      assert failed.Some? ==> [head] + tail == body;
      ([head] + tail, f2)
  }

  /** One instruction: the visit proper, then the sequences nested in it. */
  function WalkInstr(cfg: WaitCfg, failed: Option<WaitError>, ins: Instr): (r: (Instr, Option<WaitError>))
    ensures failed.Some? ==> r == (ins, failed)
    decreases ins
  {
    match ins
    case AtomicWait(m, arg, s, loc) =>
      if failed.Some? then (ins, failed) else (Call(cfg.wait32), WaitCheck(m, arg, s, loc, cfg.memory))
    case Block(b) =>
      var (b', f) := WalkSeq(cfg, failed, b); (Block(b'), f)
    case Loop(b) =>
      var (b', f) := WalkSeq(cfg, failed, b); (Loop(b'), f)
    case IfElse(t, c, a) =>
      var (c', fc) := WalkSeq(cfg, failed, c);
      var (a', fa) := WalkSeq(cfg, fc, a);
      (IfElse(t, c', a'), fa)
    case _ => (ins, failed)
  }

  /** A function body is rewritten without error iff every wait in it is supported. */
  lemma {:induction false} WalkSucceedsIff(cfg: WaitCfg, body: seq<Instr>)
    ensures WalkSeq(cfg, None, body).1.None? <==> AllWaitsValid(cfg.memory, body)
    decreases body
  {
    if body != [] {
      WalkSucceedsIff(cfg, body[1..]);
      match body[0]
      case Block(b) => WalkSucceedsIff(cfg, b);
      case Loop(b) => WalkSucceedsIff(cfg, b);
      case IfElse(_, c, a) => WalkSucceedsIff(cfg, c); WalkSucceedsIff(cfg, a);
      case _ =>
    }
  }

  /** Without an error, the walk is exactly the reference substitution. */
  lemma {:induction false} WalkIsSubstitution(cfg: WaitCfg, body: seq<Instr>)
    requires AllWaitsValid(cfg.memory, body)
    ensures WalkSeq(cfg, None, body).0 == Substituted(cfg.wait32, body)
    decreases body
  {
    if body != [] {
      WalkSucceedsIff(cfg, body);
      WalkIsSubstitution(cfg, body[1..]);
      match body[0]
      case Block(b) => WalkSucceedsIff(cfg, b); WalkIsSubstitution(cfg, b);
      case Loop(b) => WalkSucceedsIff(cfg, b); WalkIsSubstitution(cfg, b);
      case IfElse(_, c, a) =>
        WalkSucceedsIff(cfg, c); WalkIsSubstitution(cfg, c);
        WalkSucceedsIff(cfg, a); WalkIsSubstitution(cfg, a);
      case _ =>
    }
  }

  /** `ReplaceAtomicWait`: the function it calls, the one memory allowed, the first error. */
  class ReplaceAtomicWait {
    const wait32Func: nat
    const memory: nat
    var failed: Option<WaitError>

    constructor (wait32Func: nat, memory: nat)
      ensures this.wait32Func == wait32Func && this.memory == memory && failed == None
    {
      this.wait32Func := wait32Func;
      this.memory := memory;
      failed := None;
    }

    function Cfg(): WaitCfg
    {
      WaitCfg(memory, wait32Func)
    }

    /** `visit_instr_mut`: nothing once failed; a wait is checked and replaced. */
    method VisitInstr(instr: Instr) returns (out: Instr)
      modifies this
      ensures instr.AtomicWait? && old(failed).None? ==>
        out == Call(wait32Func) && failed == WaitCheck(instr.memory, instr.arg, instr.sixtyFour, instr.loc, memory)
      ensures !(instr.AtomicWait? && old(failed).None?) ==> out == instr && failed == old(failed)
    {
      out := instr;
      if failed.Some? {
        return;
      }
      if instr.AtomicWait? {
        if instr.memory != memory {
          failed := Some(BadMemory(instr.memory, instr.loc));
        }
        if instr.arg.align != MEM_ARG.align || instr.arg.offset != MEM_ARG.offset {
          failed := Some(BadMemArg(instr.arg, instr.loc));
        }
        if instr.sixtyFour {
          failed := Some(Wait64(instr.loc));
        }
        out := Call(wait32Func);
      }
    }

    /** One instruction and what is nested in it. */
    method VisitTree(ins: Instr) returns (out: Instr)
      modifies this
      ensures (out, failed) == WalkInstr(Cfg(), old(failed), ins)
      decreases ins
    {
      out := VisitInstr(ins);
      match ins {
        case Block(b) =>
          var b' := VisitSeq(b);
          out := Block(b');
        case Loop(b) =>
          var b' := VisitSeq(b);
          out := Loop(b');
        case IfElse(t, c, a) =>
          var c' := VisitSeq(c);
          var a' := VisitSeq(a);
          out := IfElse(t, c', a');
        case _ =>
      }
    }

    /** The traversal of one sequence, front to back. */
    method VisitSeq(body: seq<Instr>) returns (out: seq<Instr>)
      modifies this
      ensures (out, failed) == WalkSeq(Cfg(), old(failed), body)
      decreases body
    {
      out := [];
      var i := 0;
      assert body[0..] == body;
      while i < |body|
        invariant 0 <= i <= |body|
        invariant WalkSeq(Cfg(), old(failed), body).0 == out + WalkSeq(Cfg(), failed, body[i..]).0
        invariant WalkSeq(Cfg(), old(failed), body).1 == WalkSeq(Cfg(), failed, body[i..]).1
        decreases |body| - i
      {
        assert body[i..][1..] == body[i + 1..];
        var ins := VisitTree(body[i]);
        out := out + [ins];
        i := i + 1;
      }
      assert body[i..] == [];
      assert out + WalkSeq(Cfg(), failed, body[i..]).0 == out;
    }
  }

  // ---- modules ----

  datatype FuncType = FuncType(params: seq<ValType>, results: seq<ValType>)
  /** An imported function points at its import; a local one has its argument locals and body. */
  datatype FuncKind = Imported(importIndex: nat) | Local(args: seq<nat>, body: seq<Instr>)
  datatype Func = Func(name: Option<string>, ty: FuncType, kind: FuncKind)
  datatype Import = Import(moduleName: string, name: string, func: nat)
  datatype Global = Global(ty: ValType, mutable: bool, shared: bool, init: int, name: Option<string>)
  datatype ExportItem = ExportFunction(func: nat) | ExportGlobal(global: nat) | ExportMemory(memory: nat)
  datatype Export = Export(name: string, item: ExportItem)

  datatype RunError = NoMemory | FunctionFailed(func: nat, cause: WaitError)

  /**
   * `__atomic_spin32`'s body, with its six locals starting at `l`: ptr,
   * expected, timeout, start time, elapsed, cached ceiling.
   */
  function Spin32Body(memory: nat, clock: nat, maxSpin: nat, spinTimeout: nat, l: nat): seq<Instr>
  {
    var ptr := l; var expected := l + 1;
    var start := l + 3; var ceiling := l + 5;
    var load := Load(memory, LoadI32(true), MEM_ARG);
    [ LocalGet(ptr), load, LocalGet(expected), Binop(I32Ne),
      IfElse(None, [I32Const(0), Return], []),
      Call(clock), LocalSet(start),
      GlobalGet(maxSpin), LocalSet(ceiling),
      Loop(SpinLoopBody(memory, clock, spinTimeout, l)),
      Unreachable ]
  }

  /** The body of the spin function's loop. */
  function SpinLoopBody(memory: nat, clock: nat, spinTimeout: nat, l: nat): seq<Instr>
  {
    var ptr := l; var expected := l + 1; var timeout := l + 2;
    var start := l + 3; var elapsed := l + 4; var ceiling := l + 5;
    var load := Load(memory, LoadI32(true), MEM_ARG);
    [ LocalGet(ptr), load, LocalGet(expected), Binop(I32Ne),
      IfElse(None, [I32Const(1), Return], []),
      Call(clock), LocalGet(start), Binop(I64Sub), LocalTee(elapsed),
      LocalGet(timeout), Binop(I64GeU),
      IfElse(None, [I32Const(2), Return], []),
      LocalGet(ceiling), Unop(I64Eqz),
      IfElse(None, [], [ LocalGet(elapsed), LocalGet(ceiling), Binop(I64GeU),
                         IfElse(None, [Call(spinTimeout), Unreachable], []) ]),
      Br(0) ]
  }

  /** `__atomic_wait32`'s body, with its three argument locals starting at `l`. */
  function Wait32Body(memory: nat, waitProhibited: nat, spin32: nat, l: nat): seq<Instr>
  {
    [ GlobalGet(waitProhibited),
      IfElse(Some(I32),
        [LocalGet(l), LocalGet(l + 1), LocalGet(l + 2), Call(spin32)],
        [LocalGet(l), LocalGet(l + 1), LocalGet(l + 2), AtomicWait(memory, MEM_ARG, false, 0)]) ]
  }

  /** The spin function contains no wait, so rewriting it would change nothing. */
  lemma SpinBodyHasNoWait(memory: nat, clock: nat, maxSpin: nat, spinTimeout: nat, l: nat)
    ensures CountWaits(Spin32Body(memory, clock, maxSpin, spinTimeout, l)) == 0
  {
    var spin := Spin32Body(memory, clock, maxSpin, spinTimeout, l);
    SpinLoopHasNoWait(memory, clock, spinTimeout, l);
    CountWaitsZero(spin[4].consequent);
    CountWaitsZero(spin);
  }

  lemma SpinLoopHasNoWait(memory: nat, clock: nat, spinTimeout: nat, l: nat)
    ensures CountWaits(SpinLoopBody(memory, clock, spinTimeout, l)) == 0
  {
    var body := SpinLoopBody(memory, clock, spinTimeout, l);
    var inner := body[14].alternative;
    CountWaitsZero(inner[3].consequent);
    CountWaitsZero(inner);
    CountWaitsZero(body[4].consequent);
    CountWaitsZero(body[11].consequent);
    CountWaitsZero(body);
  }

  /** The wait function holds exactly one wait, and a supported one. */
  lemma Wait32BodyHasOneWait(memory: nat, waitProhibited: nat, spin32: nat, l: nat)
    ensures CountWaits(Wait32Body(memory, waitProhibited, spin32, l)) == 1
    ensures AllWaitsValid(memory, Wait32Body(memory, waitProhibited, spin32, l))
  {
    var wait := Wait32Body(memory, waitProhibited, spin32, l);
    var alt := wait[1].alternative;
    CountWaitsZero(wait[1].consequent);
    CountWaitsZero(alt[..3]);
    CountWaitsAppend(alt[..3], [alt[3]]);
    assert alt == alt[..3] + [alt[3]];
    assert CountWaits(alt) == 1;
    assert CountWaits(wait[1..]) == 1;
    AllWaitsValidAt(memory, wait[1].consequent);
    AllWaitsValidAt(memory, alt);
    AllWaitsValidAt(memory, wait);
  }

  /** Rewriting the wait function would make it call itself where it waits natively. */
  lemma Wait32RewriteCallsItself(memory: nat, waitProhibited: nat, spin32: nat, wait32: nat, l: nat)
    ensures Substituted(wait32, Wait32Body(memory, waitProhibited, spin32, l)) ==
      [ GlobalGet(waitProhibited),
        IfElse(Some(I32), [LocalGet(l), LocalGet(l + 1), LocalGet(l + 2), Call(spin32)],
                          [LocalGet(l), LocalGet(l + 1), LocalGet(l + 2), Call(wait32)]) ]
  {
    var wait := Wait32Body(memory, waitProhibited, spin32, l);
    SubstitutedPositions(wait32, wait);
    SubstitutedPositions(wait32, wait[1].consequent);
    SubstitutedPositions(wait32, wait[1].alternative);
    assert Substituted(wait32, wait[1].consequent) == wait[1].consequent;
    assert Substituted(wait32, wait[1].alternative) == [LocalGet(l), LocalGet(l + 1), LocalGet(l + 2), Call(wait32)];
  }

  /** The four functions `run` adds, in id order, for function ids from `f`, imports from `i`, globals from `g`, locals from `l`. */
  function GeneratedFuncs(memory: nat, f: nat, i: nat, g: nat, l: nat): seq<Func>
  {
    [ Func(Some(CLOCK_NS_IMPORT), FuncType([], [I64]), Imported(i)),
      Func(Some(SPIN_TIMEOUT_IMPORT), FuncType([], []), Imported(i + 1)),
      Func(Some(ATOMIC_SPIN32), FuncType([I32, I32, I64], [I32]),
           Local([l, l + 1, l + 2], Spin32Body(memory, f, g, f + 1, l))),
      Func(Some(ATOMIC_WAIT32), FuncType([I32, I32, I64], [I32]),
           Local([l + 6, l + 7, l + 8], Wait32Body(memory, g + 1, f + 2, l + 6))) ]
  }

  /** Whether the rewrite loop visits function `j`: a local function other than the two generated ones. */
  predicate Rewritable(fs: seq<Func>, j: int, cfg: WaitCfg, spin32: nat)
  {
    0 <= j < |fs| && j != cfg.wait32 && j != spin32 && fs[j].kind.Local?
  }

  function WithBody(f: Func, body: seq<Instr>): Func
    requires f.kind.Local?
  {
    f.(kind := f.kind.(body := body))
  }

  /**
   * The `for` loop of `run` from function `i` on: rewrite each visited
   * function in place and stop at the first one that fails, which keeps its
   * partial rewrite.
   */
  function RewriteFrom(fs: seq<Func>, i: nat, cfg: WaitCfg, spin32: nat): (r: (seq<Func>, Option<RunError>))
    requires i <= |fs|
    ensures |r.0| == |fs|
    ensures forall j :: 0 <= j < i ==> r.0[j] == fs[j]
    ensures r.1.Some? ==> r.1.value.FunctionFailed?
    decreases |fs| - i
  {
    if i == |fs| then (fs, None)
    else if !Rewritable(fs, i, cfg, spin32) then RewriteFrom(fs, i + 1, cfg, spin32)
    else
      var (body, err) := WalkSeq(cfg, None, fs[i].kind.body);
      var fs' := fs[i := WithBody(fs[i], body)];
      if err.Some? then (fs', Some(FunctionFailed(i, err.value)))
      else RewriteFrom(fs', i + 1, cfg, spin32)
  }

  /**
   * `run` succeeds iff every visited function has only supported waits, and
   * then each visited function is the reference substitution of itself and
   * every other function is untouched.
   */
  lemma {:induction false} RewriteSucceeds(fs: seq<Func>, i: nat, cfg: WaitCfg, spin32: nat)
    requires i <= |fs|
    ensures RewriteFrom(fs, i, cfg, spin32).1.None? <==>
      forall j :: i <= j < |fs| && Rewritable(fs, j, cfg, spin32) ==> AllWaitsValid(cfg.memory, fs[j].kind.body)
    ensures RewriteFrom(fs, i, cfg, spin32).1.None? ==>
      forall j :: 0 <= j < |fs| ==> (
        RewriteFrom(fs, i, cfg, spin32).0[j] ==
        if i <= j && Rewritable(fs, j, cfg, spin32) then WithBody(fs[j], Substituted(cfg.wait32, fs[j].kind.body)) else fs[j])
    decreases |fs| - i
  {
    if i < |fs| {
      if !Rewritable(fs, i, cfg, spin32) {
        RewriteSucceeds(fs, i + 1, cfg, spin32);
      } else {
        var (body, err) := WalkSeq(cfg, None, fs[i].kind.body);
        var fs' := fs[i := WithBody(fs[i], body)];
        WalkSucceedsIff(cfg, fs[i].kind.body);
        if err.None? {
          WalkIsSubstitution(cfg, fs[i].kind.body);
          RewriteSucceeds(fs', i + 1, cfg, spin32);
          assert forall j :: i < j < |fs| ==> fs'[j] == fs[j] && (Rewritable(fs', j, cfg, spin32) <==> Rewritable(fs, j, cfg, spin32));
        }
      }
    }
  }

  /**
   * On failure, `run` names the first visited function with an unsupported
   * wait; that function keeps its partial rewrite and the reported cause is
   * its walk's error; functions before it are fully rewritten, functions
   * after it are untouched.
   */
  lemma {:induction false} RewriteStopsAtFailure(fs: seq<Func>, i: nat, cfg: WaitCfg, spin32: nat)
    requires i <= |fs|
    requires RewriteFrom(fs, i, cfg, spin32).1.Some?
    ensures var r := RewriteFrom(fs, i, cfg, spin32); var k := r.1.value.func;
      && i <= k < |fs| && Rewritable(fs, k, cfg, spin32)
      && !AllWaitsValid(cfg.memory, fs[k].kind.body)
      && r.0[k] == WithBody(fs[k], WalkSeq(cfg, None, fs[k].kind.body).0)
      && WalkSeq(cfg, None, fs[k].kind.body).1 == Some(r.1.value.cause)
      && (forall j :: i <= j < k && Rewritable(fs, j, cfg, spin32) ==>
            AllWaitsValid(cfg.memory, fs[j].kind.body) && r.0[j] == WithBody(fs[j], Substituted(cfg.wait32, fs[j].kind.body)))
      && (forall j :: k < j < |fs| ==> r.0[j] == fs[j])
      && (forall j :: i <= j < k && !Rewritable(fs, j, cfg, spin32) ==> r.0[j] == fs[j])
    decreases |fs| - i
  {
    if !Rewritable(fs, i, cfg, spin32) {
      RewriteStopsAtFailure(fs, i + 1, cfg, spin32);
    } else {
      var (body, err) := WalkSeq(cfg, None, fs[i].kind.body);
      var fs' := fs[i := WithBody(fs[i], body)];
      WalkSucceedsIff(cfg, fs[i].kind.body);
      if err.None? {
        WalkIsSubstitution(cfg, fs[i].kind.body);
        RewriteStopsAtFailure(fs', i + 1, cfg, spin32);
        assert forall j :: i < j < |fs| ==> fs'[j] == fs[j] && (Rewritable(fs', j, cfg, spin32) <==> Rewritable(fs, j, cfg, spin32));
      }
    }
  }

  /**
   * After a successful `run`, the only wait left in any local function is the
   * one inside `__atomic_wait32`.
   */
  lemma RunLeavesOneWait(fs: seq<Func>, memory: nat, i: nat, g: nat, l: nat)
    requires RewriteFrom(fs + GeneratedFuncs(memory, |fs|, i, g, l), 0, WaitCfg(memory, |fs| + 3), |fs| + 2).1.None?
    ensures var r := RewriteFrom(fs + GeneratedFuncs(memory, |fs|, i, g, l), 0, WaitCfg(memory, |fs| + 3), |fs| + 2).0;
      forall j :: 0 <= j < |r| && r[j].kind.Local? ==> CountWaits(r[j].kind.body) == (if j == |fs| + 3 then 1 else 0)
  {
    var all := fs + GeneratedFuncs(memory, |fs|, i, g, l);
    var cfg := WaitCfg(memory, |fs| + 3);
    var r := RewriteFrom(all, 0, cfg, |fs| + 2).0;
    RewriteSucceeds(all, 0, cfg, |fs| + 2);
    forall j | 0 <= j < |r| && r[j].kind.Local?
      ensures CountWaits(r[j].kind.body) == (if j == |fs| + 3 then 1 else 0)
    {
      if Rewritable(all, j, cfg, |fs| + 2) {
        SubstitutedNoWaits(cfg.wait32, all[j].kind.body);
      } else if j == |fs| + 2 {
        SpinBodyHasNoWait(memory, |fs|, g, |fs| + 1, l);
      } else if j == |fs| + 3 {
        Wait32BodyHasOneWait(memory, g + 1, |fs| + 2, l + 6);
      }
    }
  }

  /** A module: its memories and its function, import, global and export tables; `locals` counts the local table. */
  class WasmModule {
    var memories: seq<nat>
    var funcs: seq<Func>
    var imports: seq<Import>
    var globals: seq<Global>
    var exports: seq<Export>
    var locals: nat

    constructor (memories: seq<nat>, funcs: seq<Func>, imports: seq<Import>, globals: seq<Global>, exports: seq<Export>, locals: nat)
      ensures this.memories == memories && this.funcs == funcs && this.imports == imports
      ensures this.globals == globals && this.exports == exports && this.locals == locals
    {
      this.memories := memories;
      this.funcs := funcs;
      this.imports := imports;
      this.globals := globals;
      this.exports := exports;
      this.locals := locals;
    }

    /** `add_import_func` plus the name: a new import and the function standing for it. */
    method AddImportFunc(moduleName: string, name: string, ty: FuncType) returns (f: nat)
      modifies this`funcs, this`imports
      ensures f == |old(funcs)|
      ensures imports == old(imports) + [Import(moduleName, name, f)]
      ensures funcs == old(funcs) + [Func(Some(name), ty, Imported(|old(imports)|))]
    {
      f := |funcs|;
      funcs := funcs + [Func(Some(name), ty, Imported(|imports|))];
      imports := imports + [Import(moduleName, name, f)];
    }

    /** An exported mutable, unshared global with the given initial value. */
    method AddExportedGlobal(ty: ValType, init: int, name: string) returns (g: nat)
      modifies this`globals, this`exports
      ensures g == |old(globals)|
      ensures globals == old(globals) + [Global(ty, true, false, init, Some(name))]
      ensures exports == old(exports) + [Export(name, ExportGlobal(g))]
    {
      g := |globals|;
      globals := globals + [Global(ty, true, false, init, Some(name))];
      exports := exports + [Export(name, ExportGlobal(g))];
    }

    /** `module.locals.add`, `n` times: the first new local id. */
    method AddLocals(n: nat) returns (l: nat)
      modifies this`locals
      ensures l == old(locals) && locals == old(locals) + n
    {
      l := locals;
      locals := locals + n;
    }

    /** `run`: add the support items, then rewrite the waits of every other local function. */
    method Run(placeholder: string) returns (r: Result<(), RunError>)
      modifies this
      ensures old(memories) == [] ==>
        && r == Err(NoMemory)
        && funcs == old(funcs) && imports == old(imports) && globals == old(globals)
        && exports == old(exports) && locals == old(locals)
      ensures memories == old(memories)
      ensures old(memories) != [] ==>
        var f, g := |old(funcs)|, |old(globals)|;
        var cfg := WaitCfg(old(memories)[0], f + 3);
        var rw := RewriteFrom(old(funcs) + GeneratedFuncs(old(memories)[0], f, |old(imports)|, g, old(locals)), 0, cfg, f + 2);
        && imports == old(imports) + [Import(placeholder, CLOCK_NS_IMPORT, f), Import(placeholder, SPIN_TIMEOUT_IMPORT, f + 1)]
        && globals == old(globals) + [ Global(I64, true, false, MAX_SPIN_NS, Some(MAX_SPIN_NS_GLOBAL)),
                                       Global(I32, true, false, 0, Some(WAIT_PROHIBITED_GLOBAL)) ]
        && exports == old(exports) + [ Export(MAX_SPIN_NS_GLOBAL, ExportGlobal(g)),
                                       Export(WAIT_PROHIBITED_GLOBAL, ExportGlobal(g + 1)) ]
        && locals == old(locals) + 9
        && funcs == rw.0
        && r == (if rw.1.None? then Ok(()) else Err(rw.1.value))
    {
      if memories == [] {
        return Err(NoMemory);
      }
      var memory := memories[0];
      var clockNs := AddImportFunc(placeholder, CLOCK_NS_IMPORT, FuncType([], [I64]));
      var spinTimeout := AddImportFunc(placeholder, SPIN_TIMEOUT_IMPORT, FuncType([], []));
      var maxSpinNs := AddExportedGlobal(I64, MAX_SPIN_NS, MAX_SPIN_NS_GLOBAL);
      var l := AddLocals(6);
      var spin32 := |funcs|;
      funcs := funcs + [Func(Some(ATOMIC_SPIN32), FuncType([I32, I32, I64], [I32]),
                             Local([l, l + 1, l + 2], Spin32Body(memory, clockNs, maxSpinNs, spinTimeout, l)))];
      var waitProhibited := AddExportedGlobal(I32, 0, WAIT_PROHIBITED_GLOBAL);
      var lw := AddLocals(3);
      var wait32 := |funcs|;
      funcs := funcs + [Func(Some(ATOMIC_WAIT32), FuncType([I32, I32, I64], [I32]),
                             Local([lw, lw + 1, lw + 2], Wait32Body(memory, waitProhibited, spin32, lw)))];
      assert funcs == old(funcs) + GeneratedFuncs(memory, |old(funcs)|, |old(imports)|, |old(globals)|, old(locals));

      r := RewriteFunctions(WaitCfg(memory, wait32), spin32);
    }

    /**
     * The loop over all functions in `run`: every local function but the two
     * generated ones is visited, and the first failure ends the pass.
     */
    method RewriteFunctions(cfg: WaitCfg, spin32: nat) returns (r: Result<(), RunError>)
      modifies this`funcs
      ensures var rw := RewriteFrom(old(funcs), 0, cfg, spin32);
        funcs == rw.0 && r == (if rw.1.None? then Ok(()) else Err(rw.1.value))
    {
      ghost var fs0 := funcs;
      for i := 0 to |funcs|
        invariant |funcs| == |fs0|
        invariant RewriteFrom(fs0, 0, cfg, spin32) == RewriteFrom(funcs, i, cfg, spin32)
      {
        if i == cfg.wait32 || i == spin32 || !funcs[i].kind.Local? {
          continue;
        }
        var v := new ReplaceAtomicWait(cfg.wait32, cfg.memory);
        var body := v.VisitSeq(funcs[i].kind.body);
        funcs := funcs[i := WithBody(funcs[i], body)];
        if v.failed.Some? {
          return Err(FunctionFailed(i, v.failed.value));
        }
      }
      return Ok(());
    }
  }

  // ---- the generated functions' behaviour ----

  /** Which way `__atomic_wait32` goes: the spin call, the native 32-bit wait, or neither. */
  datatype Wait32Path = SpinPath | NativeWaitPath | OtherPath

  /** Wasm's `if`: a nonzero condition runs the consequent, zero the alternative. */
  function IfTaken(cond: int, ins: Instr): seq<Instr>
    requires ins.IfElse?
  {
    if cond != 0 then ins.consequent else ins.alternative
  }

  /**
   * The generated `__atomic_wait32` run with `flag` in the global its first
   * instruction reads: the path is decided by the instruction the taken
   * branch of its `if` ends in, a call of the spin function or a native wait.
   */
  function Wait32Dispatch(memory: nat, waitProhibited: nat, spin32: nat, l: nat, flag: int): (p: Wait32Path)
    ensures p == SpinPath <==> flag != 0
    ensures p == NativeWaitPath <==> flag == 0
  {
    var body := Wait32Body(memory, waitProhibited, spin32, l);
    var taken := IfTaken(flag, body[1]);
    match taken[|taken| - 1]
    case Call(f) => if f == spin32 then SpinPath else OtherPath
    case AtomicWait(m, arg, w64, _) => if m == memory && arg == MEM_ARG && !w64 then NativeWaitPath else OtherPath
    case _ => OtherPath
  }

  /** How a run of `__atomic_spin32` ends; `SpinTrapped` follows the `__wbindgen_spin_timeout` call. */
  datatype SpinOutcome = SpinReturned(code: int) | SpinTrapped | SpinOracleExhausted

  /**
   * One loop iteration and the rest, over the loads `mem` and the clock
   * readings `clock` still to come; times are u64 bit patterns.
   */
  function SpinLoop(expected: int, timeout: nat, ceiling: nat, start: nat, mem: seq<int>, clock: seq<nat>): SpinOutcome
    requires start < U64_LIMIT && forall k :: 0 <= k < |clock| ==> clock[k] < U64_LIMIT
    decreases |mem|
  {
    if mem == [] then SpinOracleExhausted
    else if mem[0] != expected then SpinReturned(1)
    else if clock == [] then SpinOracleExhausted
    else
      var elapsed := WrappingSub64(clock[0], start);
      if elapsed >= timeout then SpinReturned(2)
      else if ceiling != 0 && elapsed >= ceiling then SpinTrapped
      else SpinLoop(expected, timeout, ceiling, start, mem[1..], clock[1..])
  }

  /**
   * `__atomic_spin32(ptr, expected, timeout)`: `mem` are the successive atomic
   * loads at `ptr`, `clock` the successive `__wbindgen_clock_ns` results,
   * `ceiling` the value of `max_spin_ns` on entry.
   */
  function SpinRun(expected: int, timeout: nat, ceiling: nat, mem: seq<int>, clock: seq<nat>): SpinOutcome
    requires forall k :: 0 <= k < |clock| ==> clock[k] < U64_LIMIT
  {
    if mem == [] then SpinOracleExhausted
    else if mem[0] != expected then SpinReturned(0)
    else if clock == [] then SpinOracleExhausted
    else SpinLoop(expected, timeout, ceiling, clock[0], mem[1..], clock[1..])
  }

  /** The generated spin function as the loop it is. */
  method AtomicSpin32(expected: int, timeout: nat, ceiling: nat, mem: seq<int>, clock: seq<nat>) returns (out: SpinOutcome)
    requires timeout < U64_LIMIT && ceiling < U64_LIMIT
    requires forall k :: 0 <= k < |clock| ==> clock[k] < U64_LIMIT
    ensures out == SpinRun(expected, timeout, ceiling, mem, clock)
  {
    if mem == [] {
      return SpinOracleExhausted;
    }
    if mem[0] != expected {
      return SpinReturned(0);
    }
    if clock == [] {
      return SpinOracleExhausted;
    }
    var startTime := clock[0];
    var maxSpinNsLocal := ceiling;
    var k := 1;
    while true
      invariant 1 <= k <= |mem| && k <= |clock|
      invariant SpinRun(expected, timeout, ceiling, mem, clock) ==
        SpinLoop(expected, timeout, ceiling, startTime, mem[k..], clock[k..])
      decreases |mem| - k
    {
      if k == |mem| {
        return SpinOracleExhausted;
      }
      if mem[k] != expected {
        return SpinReturned(1);
      }
      if k == |clock| {
        return SpinOracleExhausted;
      }
      assert mem[k..][1..] == mem[k + 1..];
      assert clock[k..][1..] == clock[k + 1..];
      var elapsed := WrappingSub64(clock[k], startTime);
      if elapsed >= timeout {
        return SpinReturned(2);
      }
      if maxSpinNsLocal != 0 && elapsed >= maxSpinNsLocal {
        return SpinTrapped;
      }
      k := k + 1;
    }
  }

  /** 0 is returned exactly when the value already differs on entry. */
  lemma SpinZeroIff(expected: int, timeout: nat, ceiling: nat, mem: seq<int>, clock: seq<nat>)
    requires forall k :: 0 <= k < |clock| ==> clock[k] < U64_LIMIT
    ensures SpinRun(expected, timeout, ceiling, mem, clock) == SpinReturned(0) <==> mem != [] && mem[0] != expected
  {
    if mem != [] && mem[0] == expected && clock != [] {
      SpinLoopNeverZero(expected, timeout, ceiling, clock[0], mem[1..], clock[1..]);
    }
  }

  lemma {:induction false} SpinLoopNeverZero(expected: int, timeout: nat, ceiling: nat, start: nat, mem: seq<int>, clock: seq<nat>)
    requires start < U64_LIMIT && forall k :: 0 <= k < |clock| ==> clock[k] < U64_LIMIT
    ensures var o := SpinLoop(expected, timeout, ceiling, start, mem, clock);
      o.SpinReturned? ==> o.code == 1 || o.code == 2
    decreases |mem|
  {
    if mem != [] && mem[0] == expected && clock != [] {
      SpinLoopNeverZero(expected, timeout, ceiling, start, mem[1..], clock[1..]);
    }
  }

  /** The loop returns 1 only when a load differed, all earlier loads being equal. */
  lemma {:induction false} SpinLoopNotEqual(expected: int, timeout: nat, ceiling: nat, start: nat, mem: seq<int>, clock: seq<nat>)
    requires start < U64_LIMIT && forall k :: 0 <= k < |clock| ==> clock[k] < U64_LIMIT
    requires SpinLoop(expected, timeout, ceiling, start, mem, clock) == SpinReturned(1)
    ensures exists k :: 0 <= k < |mem| && mem[k] != expected && (forall j :: 0 <= j < k ==> mem[j] == expected)
    decreases |mem|
  {
    if mem[0] == expected {
      SpinLoopNotEqual(expected, timeout, ceiling, start, mem[1..], clock[1..]);
      var k :| 0 <= k < |mem[1..]| && mem[1..][k] != expected && (forall j :: 0 <= j < k ==> mem[1..][j] == expected);
      assert mem[k + 1] != expected;
      assert forall j :: 0 <= j < k + 1 ==> mem[j] == expected by {
        forall j | 0 <= j < k + 1 ensures mem[j] == expected {
          if j > 0 { assert mem[j] == mem[1..][j - 1]; }
        }
      }
    } else {
      assert mem[0] != expected;
    }
  }

  /** The loop returns 2 only when a clock reading showed the timeout elapsed. */
  lemma {:induction false} SpinLoopTimedOut(expected: int, timeout: nat, ceiling: nat, start: nat, mem: seq<int>, clock: seq<nat>)
    requires start < U64_LIMIT && forall k :: 0 <= k < |clock| ==> clock[k] < U64_LIMIT
    requires SpinLoop(expected, timeout, ceiling, start, mem, clock) == SpinReturned(2)
    ensures exists k :: 0 <= k < |clock| && k < |mem| && WrappingSub64(clock[k], start) >= timeout
    decreases |mem|
  {
    if WrappingSub64(clock[0], start) < timeout {
      SpinLoopTimedOut(expected, timeout, ceiling, start, mem[1..], clock[1..]);
      var k :| 0 <= k < |clock[1..]| && k < |mem[1..]| && WrappingSub64(clock[1..][k], start) >= timeout;
      assert clock[k + 1] == clock[1..][k];
    } else {
      assert WrappingSub64(clock[0], start) >= timeout;
    }
  }

  /** The loop traps only under a nonzero ceiling that a reading reached before the timeout. */
  lemma {:induction false} SpinLoopTrapped(expected: int, timeout: nat, ceiling: nat, start: nat, mem: seq<int>, clock: seq<nat>)
    requires start < U64_LIMIT && forall k :: 0 <= k < |clock| ==> clock[k] < U64_LIMIT
    requires SpinLoop(expected, timeout, ceiling, start, mem, clock) == SpinTrapped
    ensures ceiling != 0 && exists k :: 0 <= k < |clock| && timeout > WrappingSub64(clock[k], start) >= ceiling
    decreases |mem|
  {
    var elapsed := WrappingSub64(clock[0], start);
    if !(ceiling != 0 && elapsed >= ceiling) {
      SpinLoopTrapped(expected, timeout, ceiling, start, mem[1..], clock[1..]);
      var k :| 0 <= k < |clock[1..]| && timeout > WrappingSub64(clock[1..][k], start) >= ceiling;
      assert clock[k + 1] == clock[1..][k];
    } else {
      assert timeout > elapsed >= ceiling;
    }
  }

  /** With timeout 0 the first iteration returns 2 unless the value changed first. */
  lemma SpinZeroTimeout(expected: int, ceiling: nat, mem: seq<int>, clock: seq<nat>)
    requires forall k :: 0 <= k < |clock| ==> clock[k] < U64_LIMIT
    requires |mem| >= 2 && |clock| >= 2 && mem[0] == expected && mem[1] == expected
    ensures SpinRun(expected, 0, ceiling, mem, clock) == SpinReturned(2)
  {
  }

  /** The result codes of the native `memory.atomic.wait32`: woken, value differs, timed out. */
  const NATIVE_OK: int := 0
  const NATIVE_NOT_EQUAL: int := 1
  const NATIVE_TIMED_OUT: int := 2

  /**
   * The spin function's first two codes are the other way round from the
   * native wait's: a value that differs on entry gives 0 (native "ok"), a
   * value that changes while spinning gives 1 (native "not-equal").
   */
  lemma SpinCodesAgainstNative(expected: int, timeout: nat, ceiling: nat, other: int, clock: seq<nat>)
    requires other != expected && |clock| >= 1
    requires forall k :: 0 <= k < |clock| ==> clock[k] < U64_LIMIT
    requires timeout > 0
    ensures SpinRun(expected, timeout, ceiling, [other], clock) == SpinReturned(NATIVE_OK)
    ensures SpinRun(expected, timeout, ceiling, [expected, other], clock) == SpinReturned(NATIVE_NOT_EQUAL)
  {
  }
}
