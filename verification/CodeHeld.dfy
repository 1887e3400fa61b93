/** No pending jump is ever lost: it is in `jpc`, in a list of the expression at hand, or was on
    hold before. */
module CodeHeld {
  import opened Wrappers
  import opened CodeVm
  import opened CodeGen
  import opened CodeInv
  import opened CodeDesc
  import opened CodeCond
  import opened CodeGo
  import opened CodeReg
  import opened CodeSource
  import opened CodeShape
  import opened CodeEval
  import opened CodeOper
  import opened CodeExpr
  import opened CodeLogic
  import opened CodeStatic

  /** Pending jumps of `g'` are those of `g` outside its `jpc`, those in its own `jpc`, or in `q`. */
  ghost predicate Heir(g: Gen, g': Gen, q: seq<nat>) {
    forall j: nat :: Held(g'.code, j) ==> (Held(g.code, j) && j !in g.jpc) || j in g'.jpc || j in q
  }

  function Own(v: Desc): seq<nat> { v.t + v.f + (if v.k.VJmp? then [v.k.pc] else []) }

  lemma EmitHeir(g: Gen, i: Instr)
    requires !i.Jmp?
    ensures Heir(g, Emit(g, i), [])
  {
    forall j: nat | Held(Emit(g, i).code, j) ensures Held(g.code, j) && j !in g.jpc {
      if j < Pc(g) { assert Emit(g, i).code[j] == PatchedAt(g.code, g.jpc, Pc(g), None, Pc(g), j); }
    }
  }

  lemma CondJumpHeir(g: Gen, i: Instr)
    requires !i.Jmp?
    ensures Heir(g, CondJump(g, i), [Pc(g) + 1])
  {
    forall j: nat | Held(CondJump(g, i).code, j) ensures (Held(g.code, j) && j !in g.jpc) || j == Pc(g) + 1 {
      if j < Pc(g) { assert CondJump(g, i).code[j] == PatchedAt(g.code, g.jpc, Pc(g), None, Pc(g), j); }
    }
  }

  lemma SelfHeir(g: Gen)
    ensures Heir(g, g, [])
  {}

  lemma HeirTrans(g: Gen, h: Gen, k: Gen, p: seq<nat>, q: seq<nat>)
    requires Heir(g, h, p) && Heir(h, k, q)
    ensures Heir(g, k, p + q)
  {}

  lemma ToRegHeir(g: Gen, v: Desc, reg: nat)
    ensures Heir(g, ToReg(g, v, reg), [])
  {
    match v.k {
      case VNil => EmitHeir(g, LoadNil(reg, reg));
      case VTrue => EmitHeir(g, LoadBool(reg, true, false));
      case VFalse => EmitHeir(g, LoadBool(reg, false, false));
      case VK(i) => EmitHeir(g, LoadK(reg, i));
      case VKNum(n) => EmitHeir(AddK(g, Num(n)).0, LoadK(reg, AddK(g, Num(n)).1));
      case VNonReloc(r) => EmitHeir(g, Move(reg, r));
      case VLocal(r) => EmitHeir(g, Move(reg, r));
      case _ =>
    }
    hide EmitAll, IndexOf;
  }

  lemma JumpIfHeir(g: Gen, v: Desc, cond: bool)
    requires GenWf(g) && DescWf(g, v) && !v.k.VLocal? && !v.k.VJmp?
    ensures var y := JumpOnCond(g, v, cond); Pc(y) > 0 && Heir(g, y, [Pc(y) - 1])
  {
    if v.k.VReloc? {
      var z := g.(code := g.code[..Pc(g) - 1]);
      CondJumpHeir(z, Test(g.code[v.k.pc].b, !cond));
    } else if v.k.VNonReloc? {
      CondJumpHeir(g, TestSet(None, v.k.reg, cond));
    } else {
      JumpOnLoadedIs(g, v, cond);
      var y := ToReg(g, v, g.freereg);
      hide GenWf, DescWf, ToReg, JumpOnCond;
      ToRegHeir(g, v, g.freereg);
      CondJumpHeir(y, TestSet(None, g.freereg, cond));
      HeirTrans(g, y, CondJump(y, TestSet(None, g.freereg, cond)), [], [Pc(y) + 1]);
    }
  }

  lemma JumpsHeir(g: Gen, v: Desc, want: bool)
    requires GenWf(g) && DescWf(g, v) && !v.k.VLocal?
    ensures var (y, q) := Jumps(g, v, want); Heir(g, y, q)
  {
    SelfHeir(g);
    var n := Jumps(g, v, want);
    if v.k.VJmp? { InvertHeir(g, v.k.pc); }
    else if (if want then v.k.VK? || v.k.VKNum? || v.k.VTrue? else v.k.VNil? || v.k.VFalse?) {}
    else if (if want then v.k.VFalse? else v.k.VTrue?) {}
    else { JumpIfHeir(g, v, !want); }
    hide GenWf, DescWf, JumpOnCond;
  }

  lemma InvertHeir(g: Gen, pc: nat)
    ensures Heir(g, Invert(g, pc), [])
  {}

  lemma GoIfHeir(g: Gen, v: Desc, want: bool)
    requires GenWf(g) && DescWf(g, v)
    ensures var (y, d) := GoIf(g, v, want); Heir(g, y, d.t + d.f)
  {
    var w := Discharge(v);
    assert DescWf(g, w) by { hide AllHeld, Apart; }
    JumpsHeir(g, w, want);
    hide GenWf, DescWf, FalseJumps, TrueJumps;
  }

  lemma OwnKept(g: Gen, v: Desc, want: bool)
    ensures var (y, d) := GoIf(g, v, want); forall j :: j in Own(v) ==> j in y.jpc || j in d.t + d.f
  {
    GoIfLists(g, v, want);
    hide GoIf;
    var (y, d) := GoIf(g, v, want);
    forall j | j in Own(v) ensures j in y.jpc || j in d.t + d.f {
      assert j in Out(v, want) || j in Out(v, !want) || v.k == VJmp(j);
      assert j in Out(d, want) ==> j in d.t + d.f;
    }
  }

  lemma GoIfLists(g: Gen, v: Desc, want: bool)
    ensures var (y, d) := GoIf(g, v, want);
      && (forall j :: j in Out(v, want) ==> j in Out(d, want)) && (forall j :: j in Out(v, !want) ==> j in y.jpc)
      && (v.k.VJmp? ==> v.k.pc in Out(d, want))
  {
    var (y, q) := Jumps(g, Discharge(v), want);
    assert v.k.VJmp? ==> v.k.pc in q;
    hide FalseJumps, TrueJumps;
  }

  lemma NegHeir(g: Gen, d: Desc)
    requires GenWf(g) && DescWf(g, d) && !d.k.VLocal?
    ensures Heir(g, Negated(g, d).0, [])
  {
    SelfHeir(g);
    if d.k.VJmp? { InvertHeir(g, d.k.pc); }
    else if d.k.VReloc? || d.k.VNonReloc? {
      var (y, u) := ToAnyReg(g, d);
      ToRegHeir(Reserve(g), d, g.freereg);
      EmitHeir(FreeExp(y, u), Not(0, if u.k.VNonReloc? then u.k.reg else 0));
      hide ToReg, EmitAll, GenWf, DescWf;
    }
  }

  lemma NotHeir(g: Gen, v: Desc)
    requires GenWf(g) && DescWf(g, v)
    ensures Heir(g, CodeNot(g, v).0, [])
  {
    var d := Discharge(v);
    assert DescWf(g, d) by { hide AllHeld, Apart; }
    NegHeir(g, d);
    hide Negated, GenWf, DescWf;
  }

  /** Patched lists hold no jumps any more. */
  lemma PatchHeir(c: seq<Instr>, f: seq<nat>, t: seq<nat>, reg: nat, j: nat)
    requires Patchable(c, f, t, reg) && Held(PatchBoth(c, f, t, reg), j)
    ensures Held(c, j) && j !in f && j !in t
  {
    BothIs(c, f, t, reg, j);
    if j in f || j in t { NeedsLoads(c, f, t, reg, j); }
    hide Wf, NeedValue;
  }

  lemma LoadsHeir(y: Gen, jump: bool, reg: nat)
    ensures Heir(y, Loads(y, jump, reg), [])
  {
    var z := Loads(y, jump, reg);
    var x := if jump then Jump(y).0 else y;
    forall j: nat | Held(z.code, j) ensures (Held(y.code, j) && j !in y.jpc) || j in z.jpc {
      if j < Pc(x) { assert z.code[j] == PatchedAt(x.code, x.jpc, Pc(x), None, Pc(x), j); }
    }
  }

  lemma Exp2RegHeir(g: Gen, v: Desc, reg: nat)
    requires GenWf(g) && DescWf(g, v)
    ensures var y := Exp2Reg(g, v, reg); Heir(g, y, []) && forall j :: j in Own(v) ==> !Held(y.code, j)
  {
    Exp2RegIs(g, v, reg);
    ToRegHeir(g, v, reg);
    PreparedStatic(g, v, reg);
    BeforeHeir(g, v, reg);
    hide GenWf, DescWf, ToReg, Exp2Reg, BeforePatch, PatchBoth;
    var z := BeforePatch(g, v, reg);
    if !(TrueList(v) == [] && v.f == []) {
      ReadyToPatch(g, v, z, reg);
      hide PreparedWf, Patchable;
      forall j: nat | Held(PatchBoth(z.code, v.f, TrueList(v), reg), j) ensures Held(z.code, j) && j !in v.f && j !in TrueList(v) {
        PatchHeir(z.code, v.f, TrueList(v), reg, j);
      }
    }
  }

  lemma BeforeHeir(g: Gen, v: Desc, reg: nat)
    ensures Heir(g, BeforePatch(g, v, reg), [])
  {
    var y := ToReg(g, v, reg);
    ToRegHeir(g, v, reg);
    LoadsHeir(y, !v.k.VJmp?, reg);
    hide ToReg, Loads, NeedValue;
  }

  lemma OperandHeir(g: Gen, v: Desc)
    requires GenWf(g) && DescWf(g, v)
    ensures var y := Exp2RK(g, v).0; Heir(g, y, []) && forall j :: j in Own(v) ==> !Held(y.code, j)
  {
    var u := Discharge(v);
    SameOperand(g, v);
    SelfHeir(g);
    if SmallConst(g, u) || (u.t == [] && u.f == [] && u.k.VNonReloc?) {
      hide GenWf, DescWf, IndexOf, Exp2Reg, Exp2NextReg;
    } else {
      NextRegOperand(g, u);
      NextRegIs(g, u);
      StartAnywhere(g);
      Reserved(g, u, 0, map[]);
      hide GenWf, DescWf, Exp2RK, Exp2Reg, Exp2NextReg;
      Exp2RegHeir(Reserve(g), u, g.freereg);
    }
  }

  /** After an expression every pending jump is accounted for. */
  ghost predicate Accounted(g: Gen, g': Gen, v: Desc) { Heir(g, g', Own(v)) }

  lemma LogicAccounted(g: Gen, g1: Gen, v1: Desc, want: bool, g3: Gen, v2: Desc)
    requires Accounted(g, g1, v1) && GenWf(g1) && DescWf(g1, v1)
    requires Accounted(GoIf(g1, v1, want).0, g3, v2)
    ensures Accounted(g, g3, Joined(GoIf(g1, v1, want).1, v2, want))
  {
    var (g2, d1) := GoIf(g1, v1, want);
    GoIfHeir(g1, v1, want);
    OwnKept(g1, v1, want);
    assert Out(d1, !want) == [] by { hide FalseJumps, TrueJumps; }
    hide GenWf, DescWf, GoIf;
    var v := Joined(d1, v2, want);
    assert forall j :: j in Own(v2) || j in d1.t + d1.f ==> j in Own(v);
  }

  lemma {:induction false} ExprAccounted(g: Gen, x: Exp)
    requires GenWf(g) && Scoped(x, g.nactvar)
    ensures var (g', v) := Expr(g, x); Accounted(g, g', v)
    decreases x
  {
    ExprStatic(g, x);
    match x {
      case ENot(a) => ExprAccounted(g, a); NotAccounted(g, a);
      case EAnd(a, c) => ExprAccounted(g, a); LogicCaseHeld(g, a, c, true);
      case EOr(a, c) => ExprAccounted(g, a); LogicCaseHeld(g, a, c, false);
      case ECmp(op, a, c) => ExprAccounted(g, a); CompareHeld(g, op, a, c);
      case _ => AtomHeld(g, x);
    }
  }

  lemma AtomHeld(g: Gen, x: Exp)
    requires Atom(x) && Scoped(x, g.nactvar)
    ensures var (g', v) := Expr(g, x); Accounted(g, g', v)
  {
    AtomShape(AnyEnv(Expr(g, x).0.ks), g, x);
    SelfHeir(g);
    hide Expr, Eval, KindValue;
  }

  lemma NotAccounted(g: Gen, a: Exp)
    requires GenWf(g) && Scoped(a, g.nactvar)
    requires var (g1, v1) := Expr(g, a); Accounted(g, g1, v1)
    ensures var (g', v) := Expr(g, ENot(a)); Accounted(g, g', v)
  {
    var (g1, v1) := Expr(g, a);
    NotStep(g, a);
    ExprStatic(g, a);
    Parts(g, g1, v1);
    NotHeir(g1, v1);
    NotOwn(g1, v1);
    hide GenWf, DescWf, Expr, CodeNot;
  }

  lemma NotOwn(g: Gen, v: Desc)
    ensures forall j :: j in Own(v) ==> j in Own(CodeNot(g, v).1)
  {
    hide PatchList, RemoveValues, ToReg;
  }

  lemma LogicCaseHeld(g: Gen, a: Exp, c: Exp, want: bool)
    requires GenWf(g) && Scoped(a, g.nactvar) && Scoped(c, g.nactvar)
    requires var (g1, v1) := Expr(g, a); Accounted(g, g1, v1)
    ensures var (g', v) := Expr(g, Logic(a, c, want)); Accounted(g, g', v)
    decreases Logic(a, c, want), 0
  {
    var (g1, v1) := Expr(g, a);
    var (g2, d1) := GoIf(g1, v1, want);
    var (g3, v2) := Expr(g2, c);
    LogicIs(g, a, c, want);
    ExprStatic(g, a);
    Parts(g, g1, v1);
    GoIfStatic(g1, v1, want);
    GoneParts(g1, v1, g2, d1, want);
    hide GenWf, DescWf, Expr, GoIf, ExprWf, GoneWf, Accounted;
    ExprAccounted(g2, c);
    LogicAccounted(g, g1, v1, want, g3, v2);
  }

  lemma CompareHeld(g: Gen, op: Rel, a: Exp, c: Exp)
    requires GenWf(g) && Scoped(a, g.nactvar) && Scoped(c, g.nactvar)
    requires var (g1, v1) := Expr(g, a); Accounted(g, g1, v1)
    ensures var (g', v) := Expr(g, ECmp(op, a, c)); Accounted(g, g', v)
    decreases ECmp(op, a, c), 0
  {
    hide GenWf, DescWf, Expr, Exp2RK, ExprWf, OperandWf, CodeComp, EmitAll, CompInstr;
    var (g1, v1) := Expr(g, a);
    var (h, d1, rk1) := Exp2RK(g1, v1);
    var (g3, v2) := Expr(h, c);
    var (z, d2, rk2) := Exp2RK(g3, v2);
    CompStep(g, op, a, c);
    ExprStatic(g, a);
    Parts(g, g1, v1);
    OperandStaticWf(g1, v1);
    OperandStatic(g, g1, v1, h, d1, rk1);
    OperandShape(g1, v1, h, d1, rk1);
    ExprAccounted(h, c);
    ExprStatic(h, c);
    Parts(h, g3, v2);
    OperandHeir(g1, v1);
    OperandHeir(g3, v2);
    CompareShape(g, g3, op, d1, rk1, v2);
    var w := FreeExp(FreeExp(z, d2), d1);
    FreedHeir(z, d2, d1, CompInstr(op, rk1, rk2)) by { CompTaken(AnyEnv([]), op, rk1, rk2, map[]); }
  }

  lemma FreedHeir(z: Gen, d2: Desc, d1: Desc, i: Instr)
    requires i.Cmp?
    ensures var w := FreeExp(FreeExp(z, d2), d1); Heir(z, CondJump(w, i), [Pc(CondJump(w, i)) - 1])
  {
    CondJumpHeir(FreeExp(FreeExp(z, d2), d1), i);
  }
}
