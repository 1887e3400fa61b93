/** The instructions that boolean expressions compile to (lopcodes.h) and what the interpreter does
    with them (lvm.c). Jumps carry their absolute destination here; CodeThread keeps the offsets. */
module CodeVm {
  import opened Wrappers

  datatype Value = Nil | Bool(b: bool) | Num(n: int) | Str(s: string) | Obj(id: nat)

  predicate IsFalse(v: Value) { v == Nil || v == Bool(false) }

  /** The registers of the running function. A register never written holds nil. */
  type Regs = map<nat, Value>

  function Get(r: Regs, i: nat): Value { if i in r then r[i] else Nil }

  ghost predicate Agree(r: Regs, r': Regs, n: nat) { forall i :: 0 <= i < n ==> Get(r, i) == Get(r', i) }

  datatype CmpOp = Eq | Lt | Le

  datatype RK = R(reg: nat) | K(idx: nat)

  const HOLD: int := -1

  /** `Jmp(HOLD)` is a jump whose destination is still pending. `TestSet(None, b, c)` has NO_REG. */
  datatype Instr =
    | Move(a: nat, b: nat)
    | LoadK(a: nat, bx: nat)
    | LoadBool(a: nat, val: bool, skip: bool)
    | LoadNil(a: nat, b: nat)
    | Not(a: nat, b: nat)
    | Jmp(dest: int)
    | Cmp(op: CmpOp, cond: bool, rb: RK, rc: RK)
    | Test(a: nat, c: bool)
    | TestSet(dst: Option<nat>, b: nat, c: bool)

  /** The comparisons, with their metamethods, and the constants of the function. */
  datatype Env = Env(cmp: (CmpOp, Value, Value) -> bool, ks: seq<Value>)

  function Const(e: Env, i: nat): Value { if i < |e.ks| then e.ks[i] else Nil }

  function Operand(e: Env, r: Regs, o: RK): Value {
    match o case R(i) => Get(r, i) case K(i) => Const(e, i)
  }

  predicate TMode(i: Instr) { i.Cmp? || i.Test? || i.TestSet? }

  /** Whether a test instruction takes the jump that follows it. */
  function Taken(e: Env, i: Instr, r: Regs): bool
    requires TMode(i)
  {
    match i
    case Cmp(op, cond, b, c) => e.cmp(op, Operand(e, r, b), Operand(e, r, c)) == cond
    case Test(a, c) => IsFalse(Get(r, a)) != c
    case TestSet(_, b, c) => IsFalse(Get(r, b)) != c
  }

  /** The registers when the jump is taken. */
  function AtJump(i: Instr, r: Regs): Regs {
    if i.TestSet? && i.dst.Some? then r[i.dst.val := Get(r, i.b)] else r
  }

  /** OP_LOADNIL counts down from `b`, so it clears `b` even when `b < a`. */
  function SetNil(r: Regs, a: nat, b: nat): Regs { map i | i in r && !(a <= i <= b || i == b) :: r[i] }

  /** Instructions that only write a register, and go on. */
  function Write(e: Env, i: Instr, r: Regs): Regs {
    match i
    case Move(a, b) => r[a := Get(r, b)]
    case LoadK(a, k) => r[a := Const(e, k)]
    case LoadBool(a, val, _) => r[a := Bool(val)]
    case LoadNil(a, b) => SetNil(r, a, b)
    case Not(a, b) => r[a := Bool(IsFalse(Get(r, b)))]
    case _ => r
  }

  /** A run of a piece of code: it falls off its end, or leaves at a pending jump. */
  datatype Outcome = Fall(regs: Regs) | Exit(at: nat, regs: Regs)

  function Run(e: Env, c: seq<Instr>, i: nat, r: Regs): Outcome
    decreases |c| - i
  {
    if i >= |c| then Fall(r)
    else if c[i].Jmp? then (if c[i].dest <= i then Exit(i, r) else Run(e, c, c[i].dest, r))
    else if TMode(c[i]) then
      (if Taken(e, c[i], r) then Run(e, c, i + 1, AtJump(c[i], r)) else Run(e, c, i + 2, r))
    else Run(e, c, if c[i].LoadBool? && c[i].skip then i + 2 else i + 1, Write(e, c[i], r))
  }

  /** A place control may come to other than from a test. */
  predicate Entry(c: seq<Instr>, d: nat) { d <= |c| && (d > 0 ==> !TMode(c[d - 1])) }

  ghost predicate WfAt(c: seq<Instr>, j: nat)
    requires j < |c|
  {
    && (TMode(c[j]) ==> j + 1 < |c| && c[j + 1].Jmp?)
    && (c[j].TestSet? ==> (c[j].dst.None? <==> c[j + 1].dest == HOLD))
    && (c[j].Jmp? && c[j].dest != HOLD ==> j < c[j].dest && Entry(c, c[j].dest))
    && (c[j].LoadBool? && c[j].skip ==> Entry(c, j + 2))
    && (c[j].LoadNil? ==> c[j].a <= c[j].b)
  }

  /** Every test is followed by its jump, and every jump goes forward, to an entry. */
  ghost predicate Wf(c: seq<Instr>) { forall j :: 0 <= j < |c| ==> WfAt(c, j) }

  predicate Held(c: seq<Instr>, j: nat) { j < |c| && c[j] == Jmp(HOLD) }
}
