/** `and` and `or`, and the theorem for all expressions. */
module CodeLogic {
  import opened Wrappers
  import opened CodeVm
  import opened CodeGen
  import opened CodeInv
  import opened CodeDesc
  import opened CodeCond
  import opened CodeGo
  import opened CodeSource
  import opened CodeEval
  import opened CodeShape
  import opened CodeExpr

  function Logic(a: Exp, c: Exp, want: bool): Exp { if want then EAnd(a, c) else EOr(a, c) }

  /** luaK_posfix for `and` and `or`: the list of the left operand joins that of the right one. */
  function Joined(d: Desc, v: Desc, want: bool): Desc {
    var u := Discharge(v);
    if want then u.(f := u.f + d.f) else u.(t := u.t + d.t)
  }

  lemma LogicIs(g: Gen, a: Exp, c: Exp, want: bool)
    ensures var (g1, v1) := Expr(g, a); var (g2, d1) := GoIf(g1, v1, want); var (g3, v2) := Expr(g2, c);
      Expr(g, Logic(a, c, want)) == (g3, Joined(d1, v2, want))
  {
    hide GoIfTrue, GoIfFalse, Discharge;
  }

  lemma LogicWf(g: Gen, g1: Gen, v1: Desc, g2: Gen, d1: Desc, g3: Gen, v2: Desc, want: bool)
    requires ExprWf(g, g1, v1) && GoneWf(g1, v1, g2, d1, want) && ExprWf(g2, g3, v2)
    ensures ExprWf(g, g3, Joined(d1, v2, want))
    ensures var v := Joined(d1, v2, want); Base(g3, v) == Base(g3, v2) && Body(g3, v) == Body(g3, v2)
  {
    hide Wf, NoLanding;
    var v := Joined(d1, v2, want);
    forall j | j in Out(d1, want) ensures Held(g3.code, j) && j !in g3.jpc && j !in v2.t && j !in v2.f && v2.k != VJmp(j) {
      assert SameControl(g2, g3, j);
    }
    forall j: nat | Held(g.code, j) && j !in g.jpc ensures SameControl(g, g3, j) && j !in v.t && j !in v.f && v.k != VJmp(j) {
      assert SameControl(g, g1, j);
      assert SameControl(g1, g2, j);
      assert SameControl(g2, g3, j);
    }
  }

  /** The left operand decides: control goes on to the right one, or has left for good. */
  ghost predicate LeftDone(e: Env, g: Gen, d: Desc, o: Outcome, r: Regs, n: nat, w: Way, want: bool) {
    && Agree(r, o.regs, n)
    && match w
       case Ends(_, held) => Arrives(g, o) && Carried(g, o) == held
       case Leaves(side, held) => side == !want && !Arrives(g, o) && o.at in Out(d, want) && Tested(g, o) == held
  }

  lemma TestedKept(g: Gen, g': Gen, o: Outcome)
    requires o.Exit? && SameTest(g, g', o.at)
    ensures Tested(g', o) == Tested(g, o)
  {}

  lemma LeftOperand(e: Env, g: Gen, v: Desc, o: Outcome, r: Regs, n: nat, w: Way, g': Gen, d: Desc, o': Outcome, want: bool)
    requires Denotes(e, g, v, o, r, n, w) && n <= g.freereg
    requires Gone(e, g, v, o, g', d, o', want) && GoneWf(g, v, g', d, want)
    ensures LeftDone(e, g', d, o', r, n, Branch(w, Plain(v.k), want), want)
  {
    hide GenWf, MainValue, Tested;
    if w.Leaves? {
      assert SameTest(g, g', o.at);
      TestedKept(g, g', o);
    }
  }

  lemma JoinedReached(g: Gen, d: Desc, v: Desc, o: Outcome, want: bool)
    requires DescWf(g, v)
    ensures Reached(g, Joined(d, v, want), o) == Reached(g, v, o)
  {}

  lemma JoinedValue(e: Env, g: Gen, d: Desc, v: Desc, o: Outcome, want: bool)
    ensures MainValue(e, g, Joined(d, v, want), o) == MainValue(e, g, v, o)
  {}

  /** Control went through the right operand: its way is that of the whole. */
  lemma RightOperand(e: Env, g: Gen, d: Desc, v: Desc, o: Outcome, r: Regs, n: nat, w: Way, want: bool)
    requires DescWf(g, v) && Denotes(e, g, v, o, r, n, w)
    ensures Denotes(e, g, Joined(d, v, want), o, r, n, w)
  {
    JoinedReached(g, d, v, o, want);
    JoinedValue(e, g, d, v, o, want);
    hide DescWf, Reached, MainValue;
  }

  /** Control left at the left operand, and so left the whole. */
  lemma LeftAlready(e: Env, g: Gen, d: Desc, g': Gen, v: Desc, o: Outcome, r: Regs, n: nat, w: Way, want: bool)
    requires LeftDone(e, g, d, o, r, n, w, want) && w.Leaves? && AllHeld(g.code, Out(d, want)) && ExprWf(g, g', v)
    ensures Denotes(e, g', Joined(d, v, want), o, r, n, w)
  {
    hide GenWf, MainValue, Tested;
    assert o.at in Out(d, want) && SameControl(g, g', o.at);
    TestedKept(g, g', o);
    JoinedReached(g', d, v, o, want);
  }

  lemma AgreeTwice(r: Regs, r1: Regs, r2: Regs, n: nat)
    requires Agree(r, r1, n) && Agree(r1, r2, n)
    ensures Agree(r, r2, n)
  {}

  lemma DenotesFrom(e: Env, g: Gen, v: Desc, o: Outcome, r: Regs, r1: Regs, n: nat, w: Way)
    requires Agree(r, r1, n) && Denotes(e, g, v, o, r1, n, w)
    ensures Denotes(e, g, v, o, r, n, w)
  {
    AgreeTwice(r, r1, o.regs, n);
    hide Reached, MainValue, Tested, Carried;
  }

  /** Runs that never came to the expression are not touched by it. */
  lemma LogicOutside(e: Env, g: Gen, g1: Gen, v1: Desc, g2: Gen, d1: Desc, g3: Gen, v2: Desc, o: Outcome, want: bool)
    requires ExprWf(g, g1, v1) && GoneWf(g1, v1, g2, d1, want) && o.Exit? && Held(g.code, o.at) && o.at !in g.jpc
    ensures !Reached(g1, v1, o) && !Arrives(g2, o)
  {
    hide GenWf;
    assert SameControl(g, g1, o.at);
    assert SameControl(g1, g2, o.at);
  }

  lemma LogicGood(e: Env, g: Gen, a: Exp, c: Exp, want: bool, b: nat, r: Regs)
    requires GenWf(g) && ExprGood(e, g, a, b, r) && Scoped(c, g.nactvar)
    requires var (g1, v1) := Expr(g, a); var (g2, d1) := GoIf(g1, v1, want);
      && g1.ks <= e.ks && g2.ks <= e.ks && (GenWf(g2) && Start(g2, b, r) ==> ExprGood(e, g2, c, b, r))
    ensures ExprGood(e, g, Logic(a, c, want), b, r)
  {
    var (g1, v1) := Expr(g, a);
    var (g2, d1) := GoIf(g1, v1, want);
    var (g3, v2) := Expr(g2, c);
    LogicIs(g, a, c, want);
    ExprParts(e, g, a, b, r);
    GenCode(g);
    hide GenWf, DescWf, Run, Start, Expr, GoIf, WayOf, ShapeOf, Denotes, Gone, GoneWf, ExprWf, Base, Body, Reached, ExprGood, Carried;
    GoIfRun(e, g1, v1, want, b, r);
    GoneParts(g1, v1, g2, d1, want);
    ExprParts(e, g2, c, b, r);
    LogicWf(g, g1, v1, g2, d1, g3, v2, want);
    var o := Run(e, g.code, b, r);
    var o1 := Run(e, Body(g1, v1), b, r);
    var o2 := Run(e, g2.code, b, r);
    var o3 := Run(e, Body(g3, v2), b, r);
    ExprRuns(e, g, a, b, r);
    ExprRuns(e, g2, c, b, r);
    ExitHeld(e, g.code, b, r);
    if Arrives(g, o) {
      ShapeRight(g, a);
      GoIfSeen(g1, v1, want);
      LogicValue(e, g, g1, v1, g2, d1, g3, v2, a, c, want, o, o1, o2, o3);
    } else {
      LogicOutside(e, g, g1, v1, g2, d1, g3, v2, o, want);
      GoneOutside(e, g1, v1, o1, g2, d1, o2, want);
    }
    LogicPack(e, g, a, c, want, b, r, g3, Joined(d1, v2, want));
  }

  lemma GoneOutside(e: Env, g: Gen, v: Desc, o: Outcome, g': Gen, d: Desc, o': Outcome, want: bool)
    requires Gone(e, g, v, o, g', d, o', want) && !Reached(g, v, o)
    ensures o' == o
  {}

  lemma GoneParts(g: Gen, v: Desc, g': Gen, d: Desc, want: bool)
    requires GoneWf(g, v, g', d, want)
    ensures GenWf(g') && g'.freereg == g.freereg && g'.nactvar == g.nactvar && AllHeld(g'.code, Out(d, want))
  {}

  /** The dynamic part of `ExprGood`. */
  lemma ExprRuns(e: Env, g: Gen, x: Exp, b: nat, r: Regs)
    requires ExprGood(e, g, x, b, r)
    ensures var (g', v) := Expr(g, x); var o := Run(e, g.code, b, r); var o' := Run(e, Body(g', v), b, r);
      if Arrives(g, o) then Denotes(e, g', v, o', o.regs, g.freereg, WayOf(e, x, o.regs, Carried(g, o), g.ks)) else o' == o
  {
    hide ExprWf, Start, Base, Body, Denotes, Run, Expr, WayOf, Carried;
  }

  lemma LogicPack(e: Env, g: Gen, a: Exp, c: Exp, want: bool, b: nat, r: Regs, g': Gen, v: Desc)
    requires Expr(g, Logic(a, c, want)) == (g', v) && ExprWf(g, g', v) && Start(g', b, r) && Entry(Base(g', v), b)
    requires var o := Run(e, g.code, b, r); var o' := Run(e, Body(g', v), b, r);
      if Arrives(g, o) then Denotes(e, g', v, o', o.regs, g.freereg, WayOf(e, Logic(a, c, want), o.regs, Carried(g, o), g.ks)) else o' == o
    ensures ExprGood(e, g, Logic(a, c, want), b, r)
  {
    hide ExprWf, Start, Base, Body, Denotes, Run, Expr, WayOf, Carried;
  }

  lemma LogicEval(e: Env, a: Exp, c: Exp, want: bool, r: Regs)
    ensures Eval(e, Logic(a, c, want), r) == if !IsFalse(Eval(e, a, r)) == want then Eval(e, c, r) else Eval(e, a, r)
  {}

  lemma LogicWay(e: Env, a: Exp, c: Exp, want: bool, r: Regs, held: Option<Value>, ks: seq<Value>)
    ensures var s := ShapeOf(a, ks); var w := Branch(WayOf(e, a, r, held, ks), s.k, want);
      WayOf(e, Logic(a, c, want), r, held, ks) == if w.Leaves? then w else WayOf(e, c, r, w.held, TestConsts(s, want))
  {
    hide Branch, ShapeOf, TestConsts;
  }

  lemma LogicValue(e: Env, g: Gen, g1: Gen, v1: Desc, g2: Gen, d1: Desc, g3: Gen, v2: Desc, a: Exp, c: Exp, want: bool,
                   o: Outcome, o1: Outcome, o2: Outcome, o3: Outcome)
    requires GenWf(g) && Scoped(c, g.nactvar) && ExprWf(g, g1, v1) && GoneWf(g1, v1, g2, d1, want) && ExprWf(g2, g3, v2)
    requires Seen(g1, v1) == ShapeOf(a, g.ks) && g2.ks == TestConsts(ShapeOf(a, g.ks), want)
    requires Denotes(e, g1, v1, o1, o.regs, g.freereg, WayOf(e, a, o.regs, Carried(g, o), g.ks)) && Gone(e, g1, v1, o1, g2, d1, o2, want)
    requires if Arrives(g2, o2)
      then Denotes(e, g3, v2, o3, o2.regs, g2.freereg, WayOf(e, c, o2.regs, Carried(g2, o2), g2.ks)) else o3 == o2
    ensures Denotes(e, g3, Joined(d1, v2, want), o3, o.regs, g.freereg, WayOf(e, Logic(a, c, want), o.regs, Carried(g, o), g.ks))
  {
    RegsFit(g);
    SameRegs(g, g1, v1, g2, d1, g3, v2, want);
    GoneParts(g1, v1, g2, d1, want);
    hide GenWf, Denotes, Gone, GoneWf, ExprWf, WayOf, ShapeOf, TestConsts, Branch, Carried, Tested;
    var w := Branch(WayOf(e, a, o.regs, Carried(g, o), g.ks), Plain(v1.k), want);
    LeftOperand(e, g1, v1, o1, o.regs, g.freereg, WayOf(e, a, o.regs, Carried(g, o), g.ks), g2, d1, o2, want);
    LogicWay(e, a, c, want, o.regs, Carried(g, o), g.ks);
    if w.Ends? {
      var u := WayOf(e, c, o2.regs, w.held, g2.ks);
      WayAgree(e, c, o.regs, o2.regs, w.held, g2.ks, g.nactvar);
      DenotesFrom(e, g3, v2, o3, o.regs, o2.regs, g.freereg, u);
      RightOperand(e, g3, d1, v2, o3, o.regs, g.freereg, u, want);
    } else {
      LeftAlready(e, g2, d1, g3, v2, o2, o.regs, g.freereg, w, want);
    }
  }

  lemma SameRegs(g: Gen, g1: Gen, v1: Desc, g2: Gen, d1: Desc, g3: Gen, v2: Desc, want: bool)
    requires ExprWf(g, g1, v1) && GoneWf(g1, v1, g2, d1, want) && ExprWf(g2, g3, v2)
    ensures g1.freereg == g.freereg && g2.freereg == g.freereg && DescWf(g3, v2)
  {}
}
