/** The constant table only grows while code is generated. */
module CodeConsts {
  import opened CodeGen
  import opened CodeGo

  lemma ToRegKs(g: Gen, v: Desc, reg: nat)
    ensures g.ks <= ToReg(g, v, reg).ks
  {
    hide PatchList, IndexOf;
  }

  lemma JumpKs(g: Gen, v: Desc, cond: bool)
    ensures g.ks <= JumpOnCond(g, v, cond).ks
  {
    ToRegKs(Reserve(g), v, g.freereg);
    hide PatchList, ToReg;
  }

  lemma GoIfKs(g: Gen, v: Desc, want: bool)
    ensures g.ks <= GoIf(g, v, want).0.ks
  {
    JumpKs(g, Discharge(v), !want);
    hide JumpOnCond;
  }

  lemma NotKs(g: Gen, v: Desc)
    ensures g.ks <= CodeNot(g, v).0.ks
  {
    ToRegKs(Reserve(g), Discharge(v), g.freereg);
    hide PatchList, RemoveValues, ToReg;
  }

  lemma Exp2RegKs(g: Gen, v: Desc, reg: nat)
    ensures g.ks <= Exp2Reg(g, v, reg).ks
  {
    ToRegKs(g, v, reg);
    hide PatchList, PatchBoth, NeedValue, ToReg;
  }

  lemma NextRegKs(g: Gen, v: Desc)
    ensures g.ks <= Exp2NextReg(g, v).0.ks
  {
    var y := Reserve(FreeExp(g, Discharge(v)));
    Exp2RegKs(y, v, y.freereg - 1);
    hide Exp2Reg;
  }

  lemma AnyRegKs(g: Gen, v: Desc)
    ensures g.ks <= Exp2AnyReg(g, v).0.ks
  {
    var d := Discharge(v);
    NextRegKs(g, d);
    if d.k.VNonReloc? { Exp2RegKs(g, d, d.k.reg); }
    hide Exp2Reg, Exp2NextReg;
  }

  lemma OperandKs(g: Gen, v: Desc)
    ensures g.ks <= Exp2RK(g, v).0.ks
  {
    var (y, d) := if v.t != [] || v.f != [] then Exp2AnyReg(g, v) else (g, Discharge(v));
    AnyRegKs(g, v);
    AnyRegKs(y, d);
    hide Exp2AnyReg, IndexOf;
  }

  lemma CompKs(g: Gen, op: Rel, v1: Desc, v2: Desc)
    ensures g.ks <= CodeComp(g, op, v1, v2).0.ks
    ensures Exp2RK(Exp2RK(g, v1).0, v2).0.ks == CodeComp(g, op, v1, v2).0.ks
  {
    OperandKs(g, v1);
    OperandKs(Exp2RK(g, v1).0, v2);
    hide Exp2RK, PatchList;
  }

  lemma {:induction false} ExprKs(g: Gen, x: Exp)
    ensures g.ks <= Expr(g, x).0.ks
    decreases x
  {
    hide IndexOf, Exp2RK, CodeComp, GoIfTrue, GoIfFalse, CodeNot;
    match x {
      case ENot(a) =>
        ExprKs(g, a);
        NotKs(Expr(g, a).0, Expr(g, a).1);
      case EAnd(a, b) =>
        var (g1, v1) := Expr(g, a);
        ExprKs(g, a);
        GoIfKs(g1, v1, true);
        ExprKs(GoIfTrue(g1, v1).0, b);
      case EOr(a, b) =>
        var (g1, v1) := Expr(g, a);
        ExprKs(g, a);
        GoIfKs(g1, v1, false);
        ExprKs(GoIfFalse(g1, v1).0, b);
      case ECmp(op, a, b) =>
        var (g1, v1) := Expr(g, a);
        var (g2, d1, _) := Exp2RK(g1, v1);
        var (g3, v2) := Expr(g2, b);
        ExprKs(g, a);
        OperandKs(g1, v1);
        ExprKs(g2, b);
        CompKs(g3, op, d1, v2);
      case _ =>
    }
  }
}
