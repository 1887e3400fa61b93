/** The code generator for boolean expressions (lcode.c), with jump lists as sequences. CodeThread
    threads them through the instructions as the source does, and is proved to agree. */
module CodeGen {
  import opened Wrappers
  import opened CodeVm

  /** Comparisons, `not`, `and`, `or`, constants and locals. */
  datatype Rel = EQ | NE | LT | LE | GT | GE

  datatype Exp =
    | ENil | ETrue | EFalse | ENum(n: int) | EStr(s: string) | ELocal(reg: nat)
    | ECmp(op: Rel, a: Exp, b: Exp) | ENot(e: Exp) | EAnd(a: Exp, b: Exp) | EOr(a: Exp, b: Exp)

  datatype Kind =
    | VNil | VTrue | VFalse | VK(info: nat) | VKNum(nval: int) | VLocal(reg: nat) | VNonReloc(reg: nat)
    | VReloc(pc: nat) | VJmp(pc: nat)

  /** expdesc: the kind and the lists of pending jumps. */
  datatype Desc = Desc(k: Kind, t: seq<nat>, f: seq<nat>)

  /** FuncState. */
  datatype Gen = Gen(code: seq<Instr>, jpc: seq<nat>, lasttarget: int, freereg: nat, nactvar: nat, ks: seq<Value>)

  /** getjumpcontrol gives the test before jump `j`; whether that is a TESTSET. */
  predicate Delivers(c: seq<Instr>, j: nat) { 0 < j < |c| && c[j - 1].TestSet? }

  /** patchtestreg. */
  function PatchedTest(i: Instr, reg: Option<nat>): Instr
    requires i.TestSet?
  {
    if reg.Some? && reg.val != i.b then TestSet(reg, i.b, i.c) else Test(i.b, i.c)
  }

  /** What patchlistaux makes of instruction `j`. */
  function PatchedAt(c: seq<Instr>, q: seq<nat>, vtarget: nat, reg: Option<nat>, dtarget: int, j: nat): Instr
    requires j < |c|
  {
    if j in q then Jmp(if Delivers(c, j) then vtarget else dtarget)
    else if j + 1 in q && c[j].TestSet? then PatchedTest(c[j], reg)
    else c[j]
  }

  function PatchList(c: seq<Instr>, q: seq<nat>, vtarget: nat, reg: Option<nat>, dtarget: int): (c': seq<Instr>)
    ensures |c'| == |c|
    ensures forall j :: 0 <= j < |c| ==> c'[j] == PatchedAt(c, q, vtarget, reg, dtarget, j)
  {
    seq(|c|, j requires 0 <= j < |c| => PatchedAt(c, q, vtarget, reg, dtarget, j))
  }

  /** removevalues. */
  function RemoveValues(c: seq<Instr>, q: seq<nat>): (c': seq<Instr>)
    ensures |c'| == |c|
    ensures forall j :: 0 <= j < |c| ==>
      c'[j] == if j + 1 in q && c[j].TestSet? then Test(c[j].b, c[j].c) else c[j]
  {
    seq(|c|, j requires 0 <= j < |c| => if j + 1 in q && c[j].TestSet? then Test(c[j].b, c[j].c) else c[j])
  }

  predicate NeedValue(c: seq<Instr>, q: seq<nat>) { exists j :: j in q && !Delivers(c, j) }

  function Pc(g: Gen): nat { |g.code| }

  /** dischargejpc. */
  function Discharged(g: Gen): (c: seq<Instr>)
    ensures |c| == |g.code|
  { PatchList(g.code, g.jpc, Pc(g), None, Pc(g)) }

  /** luaK_code, for instructions in a row. */
  function EmitAll(g: Gen, q: seq<Instr>): Gen { g.(code := Discharged(g) + q, jpc := []) }

  function Emit(g: Gen, i: Instr): Gen { EmitAll(g, [i]) }

  /** luaK_getlabel. */
  function Label(g: Gen): Gen { g.(lasttarget := Pc(g)) }

  /** luaK_patchtohere. */
  function Here(g: Gen, q: seq<nat>): Gen { Label(g).(jpc := g.jpc + q) }

  /** luaK_patchlist. */
  function PatchTo(g: Gen, q: seq<nat>, target: nat): Gen {
    if target == Pc(g) then Here(g, q) else g.(code := PatchList(g.code, q, target, None, target))
  }

  /** luaK_jump: the jumps held in `jpc` join its list. */
  function Jump(g: Gen): (Gen, seq<nat>) { (g.(code := g.code + [Jmp(HOLD)], jpc := []), [Pc(g)] + g.jpc) }

  /** condjump. The jump is at the last position. */
  function CondJump(g: Gen, i: Instr): Gen { EmitAll(g, [i, Jmp(HOLD)]) }

  function Connects(g: Gen, from: nat): bool {
    Pc(g) > g.lasttarget && g.code != [] && g.code[Pc(g) - 1].LoadNil?
    && g.code[Pc(g) - 1].a <= from <= g.code[Pc(g) - 1].b + 1
  }

  /** luaK_nil, for `n` registers. */
  function CodeNil(g: Gen, from: nat, n: nat): Gen
    requires n > 0
  {
    if Pc(g) > g.lasttarget && g.code == [] && from >= g.nactvar then g
    else if Connects(g, from) then
      var i := g.code[Pc(g) - 1];
      g.(code := g.code[Pc(g) - 1 := LoadNil(i.a, if from + n - 1 > i.b then from + n - 1 else i.b)])
    else Emit(g, LoadNil(from, from + n - 1))
  }

  function IndexOf(ks: seq<Value>, v: Value): (i: nat)
    ensures i <= |ks| && (i < |ks| ==> ks[i] == v)
    decreases |ks|
  {
    if ks == [] || ks[0] == v then 0 else 1 + IndexOf(ks[1..], v)
  }

  /** addk: the index of a constant, a new one if need be. */
  function AddK(g: Gen, v: Value): (Gen, nat) {
    var i := IndexOf(g.ks, v);
    (if i < |g.ks| then g else g.(ks := g.ks + [v]), i)
  }

  /** luaK_dischargevars. */
  function Discharge(v: Desc): Desc { if v.k.VLocal? then v.(k := VNonReloc(v.k.reg)) else v }

  predicate RelocAt(g: Gen, v: Desc) { v.k.VReloc? && v.k.pc < Pc(g) && g.code[v.k.pc].Not? }

  /** discharge2reg. */
  function ToReg(g: Gen, v: Desc, reg: nat): Gen {
    match Discharge(v).k
    case VNil => CodeNil(g, reg, 1)
    case VTrue => Emit(g, LoadBool(reg, true, false))
    case VFalse => Emit(g, LoadBool(reg, false, false))
    case VK(i) => Emit(g, LoadK(reg, i))
    case VKNum(n) => var (y, i) := AddK(g, Num(n)); Emit(y, LoadK(reg, i))
    case VReloc(pc) => if RelocAt(g, v) then g.(code := g.code[pc := Not(reg, g.code[pc].b)]) else g
    case VNonReloc(r) => if reg != r then Emit(g, Move(reg, r)) else g
    case _ => g
  }

  function Reserve(g: Gen): Gen { g.(freereg := g.freereg + 1) }

  /** freereg, for the register of an expression. */
  function FreeExp(g: Gen, v: Desc): Gen {
    if v.k.VNonReloc? && v.k.reg >= g.nactvar && g.freereg > 0 then g.(freereg := g.freereg - 1) else g
  }

  /** discharge2anyreg. */
  function ToAnyReg(g: Gen, v: Desc): (Gen, Desc) {
    if v.k.VNonReloc? then (g, v)
    else (ToReg(Reserve(g), v, g.freereg), v.(k := VNonReloc(g.freereg)))
  }

  /** The two LOADBOOLs at the end of exp2reg, and the jump over them. */
  function Loads(g: Gen, jump: bool, reg: nat): Gen {
    var (y, fj) := if jump then Jump(g) else (g, []);
    Here(EmitAll(y, [LoadBool(reg, false, true), LoadBool(reg, true, false)]), fj)
  }

  /** The two patchlistaux calls of exp2reg, for code that ends with the two LOADBOOLs if any list
      needs them. */
  function PatchBoth(c: seq<Instr>, f: seq<nat>, t: seq<nat>, reg: nat): seq<Instr> {
    PatchList(PatchList(c, f, |c|, Some(reg), |c| - 2), t, |c|, Some(reg), |c| - 1)
  }

  /** exp2reg. */
  function Exp2Reg(g: Gen, v: Desc, reg: nat): Gen {
    var y := ToReg(g, v, reg);
    var t := if v.k.VJmp? then v.t + [v.k.pc] else v.t;
    if t == [] && v.f == [] then y
    else
      var need := NeedValue(y.code, t) || NeedValue(y.code, v.f);
      var z := Label(if need then Loads(y, !v.k.VJmp?, reg) else y);
      z.(code := PatchBoth(z.code, v.f, t, reg))
  }

  function InReg(reg: nat): Desc { Desc(VNonReloc(reg), [], []) }

  /** luaK_exp2nextreg. */
  function Exp2NextReg(g: Gen, v: Desc): (Gen, Desc) {
    var y := Reserve(FreeExp(g, Discharge(v)));
    (Exp2Reg(y, v, y.freereg - 1), InReg(y.freereg - 1))
  }

  /** luaK_exp2anyreg. */
  function Exp2AnyReg(g: Gen, v: Desc): (Gen, Desc) {
    var d := Discharge(v);
    if d.k.VNonReloc? && d.t == [] && d.f == [] then (g, d)
    else if d.k.VNonReloc? && d.k.reg >= g.nactvar then (Exp2Reg(g, d, d.k.reg), InReg(d.k.reg))
    else Exp2NextReg(g, d)
  }

  const MAXINDEXRK: nat := 255

  function ConstOf(k: Kind): Value
    requires k.VNil? || k.VTrue? || k.VFalse? || k.VKNum?
  {
    match k case VNil => Nil case VTrue => Bool(true) case VFalse => Bool(false) case VKNum(n) => Num(n)
  }

  /** luaK_exp2RK. */
  function Exp2RK(g: Gen, v: Desc): (Gen, Desc, RK) {
    var (y, d) := if v.t != [] || v.f != [] then Exp2AnyReg(g, v) else (g, Discharge(v));
    if (d.k.VNil? || d.k.VTrue? || d.k.VFalse? || d.k.VKNum?) && |y.ks| <= MAXINDEXRK then
      (var (z, i) := AddK(y, ConstOf(d.k)); (z, d.(k := VK(i)), K(i)))
    else if d.k.VK? && d.k.info <= MAXINDEXRK then (y, d, K(d.k.info))
    else
      var (z, u) := Exp2AnyReg(y, d);
      (z, u, if u.k.VNonReloc? then R(u.k.reg) else R(0))
  }

  /** invertjump. */
  function Invert(g: Gen, pc: nat): Gen {
    if 0 < pc < Pc(g) && g.code[pc - 1].Cmp?
    then g.(code := g.code[pc - 1 := g.code[pc - 1].(cond := !g.code[pc - 1].cond)]) else g
  }

  /** jumponcond. The jump is at the last position of the result. */
  function JumpOnCond(g: Gen, v: Desc, cond: bool): Gen {
    if RelocAt(g, v) then CondJump(g.(code := g.code[..Pc(g) - 1]), Test(g.code[v.k.pc].b, !cond))
    else
      var (y, d) := ToAnyReg(g, v);
      var z := FreeExp(y, d);
      CondJump(z, TestSet(None, if d.k.VNonReloc? then d.k.reg else 0, cond))
  }

  /** The switch of luaK_goiftrue: the jumps to take when the value is false. */
  function FalseJumps(g: Gen, d: Desc): (Gen, seq<nat>) {
    if d.k.VK? || d.k.VKNum? || d.k.VTrue? then (g, [])
    else if d.k.VFalse? then Jump(g)
    else if d.k.VJmp? then (Invert(g, d.k.pc), [d.k.pc])
    else (var y := JumpOnCond(g, d, false); (y, [Pc(y) - 1]))
  }

  /** luaK_goiftrue. */
  function GoIfTrue(g: Gen, v: Desc): (Gen, Desc) {
    var d := Discharge(v);
    var (y, q) := FalseJumps(g, d);
    (Here(y, d.t), d.(t := [], f := d.f + q))
  }

  /** The switch of luaK_goiffalse: the jumps to take when the value is true. */
  function TrueJumps(g: Gen, d: Desc): (Gen, seq<nat>) {
    if d.k.VNil? || d.k.VFalse? then (g, [])
    else if d.k.VTrue? then Jump(g)
    else if d.k.VJmp? then (g, [d.k.pc])
    else (var y := JumpOnCond(g, d, true); (y, [Pc(y) - 1]))
  }

  /** luaK_goiffalse. */
  function GoIfFalse(g: Gen, v: Desc): (Gen, Desc) {
    var d := Discharge(v);
    var (y, q) := TrueJumps(g, d);
    (Here(y, d.f), d.(f := [], t := d.t + q))
  }

  /** The switch of codenot. */
  function Negated(g: Gen, d: Desc): (Gen, Kind) {
    if d.k.VNil? || d.k.VFalse? then (g, VTrue)
    else if d.k.VK? || d.k.VKNum? || d.k.VTrue? then (g, VFalse)
    else if d.k.VJmp? then (Invert(g, d.k.pc), d.k)
    else
      var (y, u) := ToAnyReg(g, d);
      var z := FreeExp(y, u);
      (Emit(z, Not(0, if u.k.VNonReloc? then u.k.reg else 0)), VReloc(Pc(z)))
  }

  /** codenot: the lists change places, and deliver no values any more. */
  function CodeNot(g: Gen, v: Desc): (Gen, Desc) {
    var d := Discharge(v);
    var (y, k) := Negated(g, d);
    (y.(code := RemoveValues(RemoveValues(y.code, d.t), d.f)), Desc(k, d.f, d.t))
  }

  /** codecomp: the instruction for a relation. */
  function CompInstr(op: Rel, a: RK, b: RK): Instr {
    match op
    case EQ => Cmp(Eq, true, a, b)
    case NE => Cmp(Eq, false, a, b)
    case LT => Cmp(Lt, true, a, b)
    case LE => Cmp(Le, true, a, b)
    case GT => Cmp(Lt, true, b, a)
    case GE => Cmp(Le, true, b, a)
  }

  function CodeComp(g: Gen, op: Rel, v1: Desc, v2: Desc): (Gen, Desc) {
    var (y, d1, o1) := Exp2RK(g, v1);
    var (z, d2, o2) := Exp2RK(y, v2);
    var w := CondJump(FreeExp(FreeExp(z, d2), d1), CompInstr(op, o1, o2));
    (w, Desc(VJmp(Pc(w) - 1), [], []))
  }

  /** subexpr: the left operand, luaK_infix, the right operand, luaK_posfix. */
  function Expr(g: Gen, e: Exp): (Gen, Desc)
    decreases e
  {
    match e
    case ENil => (g, Desc(VNil, [], []))
    case ETrue => (g, Desc(VTrue, [], []))
    case EFalse => (g, Desc(VFalse, [], []))
    case ENum(n) => (g, Desc(VKNum(n), [], []))
    case EStr(s) => (var (y, i) := AddK(g, Str(s)); (y, Desc(VK(i), [], [])))
    case ELocal(r) => (g, Desc(VLocal(r), [], []))
    case ENot(a) => (var (y, v) := Expr(g, a); CodeNot(y, v))
    case EAnd(a, b) =>
      var (g1, v1) := Expr(g, a);
      var (g2, d1) := GoIfTrue(g1, v1);
      var (g3, v2) := Expr(g2, b);
      var d2 := Discharge(v2);
      (g3, d2.(f := d2.f + d1.f))
    case EOr(a, b) =>
      var (g1, v1) := Expr(g, a);
      var (g2, d1) := GoIfFalse(g1, v1);
      var (g3, v2) := Expr(g2, b);
      var d2 := Discharge(v2);
      (g3, d2.(t := d2.t + d1.t))
    case ECmp(op, a, b) =>
      var (g1, v1) := Expr(g, a);
      var (g2, d1, _) := Exp2RK(g1, v1);
      var (g3, v2) := Expr(g2, b);
      CodeComp(g3, op, d1, v2)
  }

  /** cond. */
  function CondExp(g: Gen, e: Exp): (Gen, seq<nat>) {
    var (y, v) := Expr(g, e);
    var (z, d) := GoIfTrue(y, if v.k.VNil? then v.(k := VFalse) else v);
    (z, d.f)
  }
}
