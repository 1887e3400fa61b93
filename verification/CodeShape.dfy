/** What the generator makes of an expression follows from its source alone: its kind, which lists
    have jumps, and the constants. */
module CodeShape {
  import opened CodeVm
  import opened CodeGen
  import opened CodeSource
  import opened CodeGo
  import opened CodeReg
  import opened CodeOper
  import opened CodeConsts

  lemma NotStep(g: Gen, a: Exp)
    ensures var (g1, v1) := Expr(g, a); Expr(g, ENot(a)) == CodeNot(g1, v1)
  {
    hide CodeNot;
  }

  /** An operand once settled stays what it is. */
  lemma SettledStays(g: Gen, v: Desc, h: Gen)
    ensures var (_, d, rk) := Exp2RK(g, v); Exp2RK(h, d) == (h, d, rk)
  {
    AnyRegShape(g, v);
    var (y, u) := if v.t != [] || v.f != [] then Exp2AnyReg(g, v) else (g, Discharge(v));
    AnyRegShape(y, u);
    var (_, d, rk) := Exp2RK(g, v);
    assert d.t == [] && d.f == [] && (match rk case K(i) => d.k == VK(i) && i <= MAXINDEXRK case R(i) => d.k == VNonReloc(i)) by {
      hide Exp2AnyReg;
    }
    OperandAgain(h, d, rk);
  }

  lemma AnyRegShape(g: Gen, v: Desc)
    ensures var (_, d) := Exp2AnyReg(g, v); d.k.VNonReloc? && d.t == [] && d.f == []
  {
    hide Exp2Reg;
  }

  lemma CompStep(g: Gen, op: Rel, a: Exp, c: Exp)
    ensures var (g1, v1) := Expr(g, a); var (h, d1, _) := Exp2RK(g1, v1); var (g3, v2) := Expr(h, c);
      Expr(g, ECmp(op, a, c)) == CodeComp(g3, op, d1, v2)
  {
    hide Exp2RK, CodeComp;
  }

  lemma CompareConsts(g: Gen, op: Rel, a: Exp, c: Exp)
    ensures var (g1, v1) := Expr(g, a); var (h, d1, _) := Exp2RK(g1, v1); var (g3, v2) := Expr(h, c);
      g1.ks <= h.ks <= g3.ks <= Exp2RK(g3, v2).0.ks == Expr(g, ECmp(op, a, c)).0.ks
  {
    var (g1, v1) := Expr(g, a);
    var (h, d1, _) := Exp2RK(g1, v1);
    var (g3, v2) := Expr(h, c);
    OperandKs(g1, v1);
    ExprKs(h, c);
    OperandKs(g3, v2);
    CompKs(g3, op, d1, v2);
    CompStep(g, op, a, c);
    SettledStays(g1, v1, g3);
    hide Expr, Exp2RK, CodeComp;
  }

  lemma ToRegConsts(g: Gen, v: Desc, reg: nat)
    ensures ToReg(g, v, reg).ks == if v.k.VKNum? then With(g.ks, Num(v.k.nval)) else g.ks
  {
    hide PatchList, IndexOf;
  }

  lemma Exp2RegConsts(g: Gen, v: Desc, reg: nat)
    ensures Exp2Reg(g, v, reg).ks == if v.k.VKNum? then With(g.ks, Num(v.k.nval)) else g.ks
  {
    SameConsts(g, v, reg);
    ToRegConsts(g, v, reg);
  }

  lemma AnyRegConsts(g: Gen, v: Desc)
    ensures Exp2AnyReg(g, v).0.ks == if v.k.VKNum? then With(g.ks, Num(v.k.nval)) else g.ks
  {
    var d := Discharge(v);
    var y := Reserve(FreeExp(g, d));
    if d.k.VNonReloc? { Exp2RegConsts(g, d, d.k.reg); }
    if y.freereg > 0 { Exp2RegConsts(y, d, y.freereg - 1); }
    hide Exp2Reg, With;
  }

  lemma OperandSeen(g: Gen, v: Desc)
    ensures Exp2RK(g, v).0.ks == OperandConsts(Seen(g, v))
  {
    AnyRegConsts(g, v);
    AnyRegConsts(g, Discharge(v));
    AnyRegShape(g, v);
    var (y, d) := if v.t != [] || v.f != [] then Exp2AnyReg(g, v) else (g, Discharge(v));
    AnyRegConsts(y, d);
    hide Exp2AnyReg, IndexOf;
  }

  lemma JumpConsts(g: Gen, d: Desc, cond: bool)
    ensures JumpOnCond(g, d, cond).ks == if d.k.VKNum? then With(g.ks, Num(d.k.nval)) else g.ks
  {
    ToRegConsts(Reserve(g), d, g.freereg);
    hide PatchList, ToReg, IndexOf;
  }

  lemma GoIfSeen(g: Gen, v: Desc, want: bool)
    ensures var (g', d) := GoIf(g, v, want); var s := Seen(g, v);
      && g'.ks == TestConsts(s, want) && Out(d, !want) == []
      && (Out(d, want) != [] <==> Out(v, want) != [] || !NoTest(s.k, want))
  {
    JumpConsts(g, Discharge(v), !want);
    hide JumpOnCond, IndexOf;
  }

  lemma NotSeen(g: Gen, v: Desc)
    ensures var (g', d) := CodeNot(g, v); Seen(g', d) == Shape(NotKind(Plain(v.k)), v.f != [], v.t != [], g.ks)
  {
    ToRegConsts(Reserve(g), Discharge(v), g.freereg);
    hide PatchList, RemoveValues, ToReg, IndexOf;
  }

  lemma CompareSeen(g: Gen, op: Rel, v1: Desc, v2: Desc)
    ensures var (g', d) := CodeComp(g, op, v1, v2); d.k.VJmp? && d.t == [] && d.f == []
  {
    hide Exp2RK;
  }

  lemma {:induction false} ShapeRight(g: Gen, x: Exp)
    ensures var (g', v) := Expr(g, x); Seen(g', v) == ShapeOf(x, g.ks)
    decreases x
  {
    hide IndexOf, Exp2RK, CodeComp, GoIfTrue, GoIfFalse, CodeNot, OperandConsts, TestConsts;
    match x {
      case ENot(a) =>
        ShapeRight(g, a);
        NotSeen(Expr(g, a).0, Expr(g, a).1);
      case EAnd(a, b) => ShapeRight(g, a); LogicSeen(g, a, b, true);
      case EOr(a, b) => ShapeRight(g, a); LogicSeen(g, a, b, false);
      case ECmp(op, a, b) =>
        var (g1, v1) := Expr(g, a);
        var (h, d1, _) := Exp2RK(g1, v1);
        var (g3, v2) := Expr(h, b);
        ShapeRight(g, a);
        ShapeRight(h, b);
        OperandSeen(g1, v1);
        OperandSeen(g3, v2);
        CompareConsts(g, op, a, b);
        CompareSeen(g3, op, d1, v2);
      case _ =>
    }
  }

  lemma LogicSeen(g: Gen, a: Exp, b: Exp, want: bool)
    requires var (g1, v1) := Expr(g, a); Seen(g1, v1) == ShapeOf(a, g.ks)
    ensures var x := if want then EAnd(a, b) else EOr(a, b);
      var (g', v) := Expr(g, x); Seen(g', v) == ShapeOf(x, g.ks)
    decreases if want then EAnd(a, b) else EOr(a, b), 0
  {
    var (g1, v1) := Expr(g, a);
    var (g2, d1) := GoIf(g1, v1, want);
    GoIfSeen(g1, v1, want);
    hide IndexOf, GoIfTrue, GoIfFalse, TestConsts, NoTest;
    ShapeRight(g2, b);
  }
}
