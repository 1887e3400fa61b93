/** The theorem about the code of all expressions. */
module CodeSafety {
  import opened CodeVm
  import opened CodeGen
  import opened CodeInv
  import opened CodeDesc
  import opened CodeCond
  import opened CodeGo
  import opened CodeSource
  import opened CodeEval
  import opened CodeConsts
  import opened CodeShape
  import opened CodeExpr
  import opened CodeLogic

  /** Runs take through the code of every expression the way that its source says. */
  lemma {:induction false} ExprRun(e: Env, g: Gen, x: Exp, b: nat, r: Regs)
    requires GenWf(g) && Start(g, b, r) && Scoped(x, g.nactvar) && Expr(g, x).0.ks <= e.ks
    ensures ExprGood(e, g, x, b, r)
    decreases x
  {
    match x {
      case ENot(a) => NotCase(e, g, a, b, r);
      case EAnd(a, c) => LogicCase(e, g, a, c, true, b, r);
      case EOr(a, c) => LogicCase(e, g, a, c, false, b, r);
      case ECmp(op, a, c) => CompareCase(e, g, op, a, c, b, r);
      case _ => AtomGood(e, g, x, b, r);
    }
  }

  lemma NotCase(e: Env, g: Gen, a: Exp, b: nat, r: Regs)
    requires GenWf(g) && Start(g, b, r) && Scoped(a, g.nactvar) && Expr(g, ENot(a)).0.ks <= e.ks
    ensures ExprGood(e, g, ENot(a), b, r)
    decreases ENot(a), 0
  {
    var (g1, v1) := Expr(g, a);
    NotKs(g1, v1);
    NotStep(g, a);
    hide GenWf, Start, ExprGood, Expr, CodeNot;
    ExprRun(e, g, a, b, r);
    NotGood(e, g, a, b, r);
  }

  lemma LogicCase(e: Env, g: Gen, a: Exp, c: Exp, want: bool, b: nat, r: Regs)
    requires GenWf(g) && Start(g, b, r) && Scoped(a, g.nactvar) && Scoped(c, g.nactvar)
    requires Expr(g, Logic(a, c, want)).0.ks <= e.ks
    ensures ExprGood(e, g, Logic(a, c, want), b, r)
    decreases Logic(a, c, want), 0
  {
    var (g1, v1) := Expr(g, a);
    var (g2, d1) := GoIf(g1, v1, want);
    LogicIs(g, a, c, want);
    GoIfKs(g1, v1, want);
    ExprKs(g2, c);
    hide GenWf, Start, ExprGood, Expr, GoIf;
    ExprRun(e, g, a, b, r);
    if GenWf(g2) && Start(g2, b, r) {
      LogicScope(e, g, a, b, r, want);
      ExprRun(e, g2, c, b, r);
    }
    LogicGood(e, g, a, c, want, b, r);
  }

  lemma LogicScope(e: Env, g: Gen, a: Exp, b: nat, r: Regs, want: bool)
    requires ExprGood(e, g, a, b, r)
    ensures var (g1, v1) := Expr(g, a); GoIf(g1, v1, want).0.nactvar == g.nactvar
  {
    var (g1, v1) := Expr(g, a);
    GoIfFrame(g1, v1, want);
    hide GoIf, Expr, GenWf, Start, Run;
  }

  lemma GoIfFrame(g: Gen, v: Desc, want: bool)
    ensures GoIf(g, v, want).0.nactvar == g.nactvar
  {
    ToRegFrame(Reserve(g), Discharge(v), g.freereg);
    hide PatchList, ToReg;
  }

  lemma CompareCase(e: Env, g: Gen, op: Rel, a: Exp, c: Exp, b: nat, r: Regs)
    requires GenWf(g) && Start(g, b, r) && Scoped(a, g.nactvar) && Scoped(c, g.nactvar)
    requires Expr(g, ECmp(op, a, c)).0.ks <= e.ks
    ensures ExprGood(e, g, ECmp(op, a, c), b, r)
    decreases ECmp(op, a, c), 0
  {
    hide GenWf, Start, ExprGood, Expr, Exp2RK, OperandDone, Run, Body, CodeComp, EmitAll, CompInstr;
    var (g1, v1) := Expr(g, a);
    var (h, d1, rk1) := Exp2RK(g1, v1);
    var (g3, v2) := Expr(h, c);
    var (z, d2, rk2) := Exp2RK(g3, v2);
    CompareConsts(g, op, a, c);
    ExprRun(e, g, a, b, r);
    OperandCompiled(e, g, a, b, r);
    RegsFit(g);
    OperandStates(e, g, a, b, r, h, d1, rk1);
    ExprRun(e, h, c, b, r);
    OperandCompiled(e, h, c, b, r);
    CompStep(g, op, a, c);
    CompareCode(e, g, op, a, c, b, r, h, d1, rk1, g3, v2, z, d2, rk2);
    CompareGood(e, g, op, a, c, h, d1, rk1, z, d2, rk2, b, r);
  }

  /** The parts of `OperandDone` that concern registers. */
  lemma OperandRegs(e: Env, g: Gen, x: Exp, b: nat, r: Regs, h: Gen, d: Desc, rk: RK)
    requires OperandDone(e, g, x, b, r, h, d, rk)
    ensures h.nactvar == g.nactvar && d.t == [] && d.f == []
    ensures match rk case K(i) => d.k == VK(i) && i <= MAXINDEXRK && h.freereg == g.freereg
            case R(i) => d.k == VNonReloc(i) && (if i < g.nactvar then h.freereg == g.freereg else i == g.freereg && h.freereg == i + 1)
  {
    hide GenWf, Start, Run, WayOf, ShapeOf, Supplied, Kept;
  }

  /** The code of a comparison, once its operands are settled. */
  lemma CompareCode(e: Env, g: Gen, op: Rel, a: Exp, c: Exp, b: nat, r: Regs,
                    h: Gen, d1: Desc, rk1: RK, g3: Gen, v2: Desc, z: Gen, d2: Desc, rk2: RK)
    requires g.nactvar <= g.freereg && Expr(g, ECmp(op, a, c)) == CodeComp(g3, op, d1, v2) && Exp2RK(g3, v2) == (z, d2, rk2)
    requires OperandDone(e, g, a, b, r, h, d1, rk1) && OperandDone(e, h, c, b, r, z, d2, rk2)
    ensures var y := CondJump(z.(freereg := g.freereg), CompInstr(op, rk1, rk2));
      Expr(g, ECmp(op, a, c)) == (y, Desc(VJmp(Pc(y) - 1), [], []))
  {
    hide OperandDone, Expr, Exp2RK, EmitAll, CompInstr, CodeComp;
    OperandRegs(e, g, a, b, r, h, d1, rk1);
    OperandRegs(e, h, c, b, r, z, d2, rk2);
    CompareShape(g, g3, op, d1, rk1, v2);
    CompareFrees(g, h, d1, rk1, z, d2, rk2);
  }
}
