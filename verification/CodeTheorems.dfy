/** What the code of an expression is for: its value in a register, or a condition decided. The
    source fails on some runs; the theorems say what the code does on all of them, and so exactly
    when it is right. */
module CodeTheorems {
  import opened Wrappers
  import opened CodeVm
  import opened CodeGen
  import opened CodeSource
  import opened CodeInv
  import opened CodeDesc
  import opened CodeCond
  import opened CodeGo
  import opened CodeReg
  import opened CodeEval
  import opened CodeConsts
  import opened CodeShape
  import opened CodeExpr
  import opened CodeLogic
  import opened CodeSafety

  /** The way through the code leaves the value of the expression; it has the truth of the
      expression. Both are told by the source, the registers, and what is pending before. */
  predicate RightValue(e: Env, x: Exp, r: Regs, held: Option<Value>, ks: seq<Value>) {
    Result(WayOf(e, x, r, held, ks)) == Eval(e, x, r)
  }

  predicate RightTurn(e: Env, x: Exp, r: Regs, held: Option<Value>, ks: seq<Value>) {
    Decision(WayOf(e, x, r, held, ks)) == !IsFalse(Eval(e, x, r))
  }

  lemma ResultDelivered(e: Env, g: Gen, v: Desc, o: Outcome, r: Regs, n: nat, w: Way, g': Gen, o': Outcome, reg: nat)
    requires Denotes(e, g, v, o, r, n, w) && InRegister(e, g, v, o, g', o', reg) && Apart(v.t, v.f)
    ensures Arrives(g', o') && (forall i :: 0 <= i < n && i != reg ==> Get(o'.regs, i) == Get(r, i))
    ensures Get(o'.regs, reg) == Result(w)
  {
    hide MainValue;
  }

  /** Value context, exp2reg after subexpr, for every expression, any target, any state and any run:
      control gets past the code, no other register in use is changed, and the register holds what
      the way through the source leaves, hence the value of the expression exactly on the right ways. */
  lemma ValueInRegister(e: Env, g: Gen, x: Exp, reg: nat, b: nat, r: Regs)
    requires GenWf(g) && Start(g, b, r) && Scoped(x, g.nactvar)
    requires var (y, v) := Expr(g, x); Exp2Reg(y, v, reg).ks <= e.ks
    ensures var (y, v) := Expr(g, x); var z := Exp2Reg(y, v, reg);
      var o := Run(e, g.code, b, r); var o' := Run(e, z.code, b, r);
      && (Arrives(g, o) ==>
          && Arrives(z, o') && (forall i :: 0 <= i < g.freereg && i != reg ==> Get(o'.regs, i) == Get(o.regs, i))
          && Get(o'.regs, reg) == Result(WayOf(e, x, o.regs, Carried(g, o), g.ks))
          && (Get(o'.regs, reg) == Eval(e, x, o.regs) <==> RightValue(e, x, o.regs, Carried(g, o), g.ks)))
      && (!Arrives(g, o) ==> o' == o)
  {
    var (y, v) := Expr(g, x);
    Exp2RegKs(y, v, reg);
    hide GenWf, DescWf, Start, Run, Expr, Exp2Reg, Eval, WayOf, Base, Body, Denotes, InRegister, Carried;
    ExprRun(e, g, x, b, r);
    ExprParts(e, g, x, b, r);
    ExprValue(e, g, x, b, r);
    Exp2RegRun(e, y, v, reg, b, r);
    var o := Run(e, g.code, b, r);
    var o1 := Run(e, Body(y, v), b, r);
    var z := Exp2Reg(y, v, reg);
    if Arrives(g, o) {
      ListsApart(y, v);
      ResultDelivered(e, y, v, o1, o.regs, g.freereg, WayOf(e, x, o.regs, Carried(g, o), g.ks), z, Run(e, z.code, b, r), reg);
    } else {
      ExitHeld(e, g.code, b, r) by { GenCode(g); }
      PassesBy(e, g, y, v, o, z, Run(e, z.code, b, r), reg);
    }
  }

  lemma ExprValue(e: Env, g: Gen, x: Exp, b: nat, r: Regs)
    requires ExprGood(e, g, x, b, r)
    ensures var (g', v) := Expr(g, x); var o := Run(e, g.code, b, r); var o' := Run(e, Body(g', v), b, r);
      if Arrives(g, o) then Denotes(e, g', v, o', o.regs, g.freereg, WayOf(e, x, o.regs, Carried(g, o), g.ks)) else o' == o
  {
    hide ExprWf, Start, Base, Body, Denotes, Run, Expr, WayOf, Carried;
  }

  lemma PassesBy(e: Env, g: Gen, y: Gen, v: Desc, o: Outcome, z: Gen, o': Outcome, reg: nat)
    requires ExprWf(g, y, v) && o.Exit? && Held(g.code, o.at) && o.at !in g.jpc && InRegister(e, y, v, o, z, o', reg)
    ensures o' == o
  {
    hide GenWf, DescWf;
    assert SameControl(g, y, o.at);
  }

  /** The kind that cond looks at. */
  function NilFalse(k: Kind): Kind { if k.VNil? then VFalse else k }

  /** The way of a condition: its end is right behind it. */
  function CondWay(e: Env, x: Exp, r: Regs, held: Option<Value>, ks: seq<Value>): Way {
    Branch(WayOf(e, x, r, held, ks), NilFalse(ShapeOf(x, ks).k), true)
  }

  /** Control has gone the way `w` of a condition with false list `f`. */
  ghost predicate Turned(z: Gen, f: seq<nat>, o: Outcome, w: Way) {
    match w
    case Ends(_, held) => Arrives(z, o) && Carried(z, o) == held
    case Leaves(_, held) => o.Exit? && o.at in f && Tested(z, o) == held
  }

  /** A condition, `cond`: the code falls through or leaves through the list it returns as the way
      through the source says, so it takes the branch of its truth exactly on the right ways. */
  lemma ConditionRight(e: Env, g: Gen, x: Exp, b: nat, r: Regs)
    requires GenWf(g) && Start(g, b, r) && Scoped(x, g.nactvar) && CondExp(g, x).0.ks <= e.ks
    ensures var (z, f) := CondExp(g, x); var o := Run(e, g.code, b, r); var o' := Run(e, z.code, b, r);
      && GenWf(z) && AllHeld(z.code, f) && Apart(z.jpc, f) && z.freereg == g.freereg && z.nactvar == g.nactvar && Start(z, b, r)
      && (Arrives(g, o) ==>
          && Agree(o.regs, o'.regs, g.freereg) && Turned(z, f, o', CondWay(e, x, o.regs, Carried(g, o), g.ks))
          && ((if IsFalse(Eval(e, x, o.regs)) then o'.Exit? && o'.at in f else Arrives(z, o'))
              <==> RightTurn(e, x, o.regs, Carried(g, o), g.ks)))
      && (!Arrives(g, o) ==> o' == o && o'.Exit? && o'.at !in f && o'.at !in z.jpc)
  {
    var (y, v) := Expr(g, x);
    var u := v.(k := NilFalse(v.k));
    var (z, d) := GoIfTrue(y, u);
    assert CondExp(g, x) == (z, d.f) by { hide GoIfTrue, Expr; }
    GoIfKs(y, u, true);
    hide GenWf, DescWf, Start, Run, Expr, GoIf, GoIfTrue, CondExp, Eval, WayOf, ShapeOf, Base, Body, Denotes, Gone, GoneWf, Carried, Turned;
    assert GoIf(y, u, true) == (z, d) by { GoIfIs(y, u); }
    ExprRun(e, g, x, b, r);
    ExprParts(e, g, x, b, r);
    ExprValue(e, g, x, b, r);
    NilIsFalse(y, v);
    GoIfRun(e, y, u, true, b, r);
    GoneList(y, u, z, d);
    var o := Run(e, g.code, b, r);
    var o1 := Run(e, Body(y, v), b, r);
    if Arrives(g, o) {
      var w := WayOf(e, x, o.regs, Carried(g, o), g.ks);
      ShapeRight(g, x);
      Decided(e, y, v, o1, o.regs, g.freereg, w, z, d, Run(e, z.code, b, r));
      TurnedTruly(z, d.f, Run(e, z.code, b, r), w, NilFalse(Plain(v.k)));
    } else {
      ExitHeld(e, g.code, b, r) by { GenCode(g); }
      NotDecided(e, g, y, v, o, z, d, Run(e, z.code, b, r));
    }
  }

  lemma TurnedTruly(z: Gen, f: seq<nat>, o: Outcome, w: Way, k: Kind)
    requires Turned(z, f, o, Branch(w, k, true)) && Apart(z.jpc, f)
    ensures Decision(w) <==> Arrives(z, o)
    ensures !Decision(w) <==> o.Exit? && o.at in f
  {}

  lemma GoIfIs(g: Gen, v: Desc)
    ensures GoIf(g, v, true) == GoIfTrue(g, v)
  {}

  lemma NilIsFalse(g: Gen, v: Desc)
    requires DescWf(g, v)
    ensures var u := v.(k := NilFalse(v.k)); DescWf(g, u) && Base(g, u) == Base(g, v) && Body(g, u) == Body(g, v)
  {
    hide AllHeld;
  }

  lemma GoneList(g: Gen, v: Desc, z: Gen, d: Desc)
    requires GoneWf(g, v, z, d, true)
    ensures GenWf(z) && AllHeld(z.code, d.f) && Apart(z.jpc, d.f) && z.freereg == g.freereg && z.nactvar == g.nactvar
  {
    hide GenWf;
  }

  lemma Decided(e: Env, g: Gen, v: Desc, o: Outcome, r: Regs, n: nat, w: Way, z: Gen, d: Desc, o': Outcome)
    requires Denotes(e, g, v, o, r, n, w) && n <= g.freereg
    requires var u := v.(k := NilFalse(v.k)); Gone(e, g, u, o, z, d, o', true) && GoneWf(g, u, z, d, true)
    ensures Agree(r, o'.regs, n) && Turned(z, d.f, o', Branch(w, NilFalse(Plain(v.k)), true))
  {
    hide GenWf, Tested;
    if w.Leaves? {
      if w.side {
        assert o.at in v.t && SameTest(g, z, o.at);
      } else {
        assert o.at in v.f && SameControl(g, z, o.at);
      }
      TestedKept(g, z, o);
    }
  }

  lemma NotDecided(e: Env, g: Gen, y: Gen, v: Desc, o: Outcome, z: Gen, d: Desc, o': Outcome)
    requires ExprWf(g, y, v) && o.Exit? && Held(g.code, o.at) && o.at !in g.jpc
    requires var u := v.(k := NilFalse(v.k)); Gone(e, y, u, o, z, d, o', true) && GoneWf(y, u, z, d, true)
    ensures o' == o && o'.at !in d.f && o'.at !in z.jpc
  {
    hide GenWf, DescWf, Tested;
    assert SameControl(g, y, o.at);
    assert SameControl(y, z, o.at);
  }

  /** The fault, at its place: the always-taken jump of an `and`/`or` on a constant takes along what
      `jpc` holds. All the jumps it lists deliver the constant, whatever the registers hold, if and
      only if `jpc` held no TESTSET. */
  lemma FoldExact(g: Gen, side: bool)
    requires GenWf(g)
    ensures var (y, q) := Jump(g);
      (forall j, r :: j in q ==> Delivered(y.code, Exit(j, r), side) == Bool(side)) <==> (forall j :: j in g.jpc ==> !Delivers(g.code, j))
  {
    var (y, q) := Jump(g);
    EndNoTest(g.code);
    if j :| j in g.jpc && Delivers(g.code, j) {
      assert j in q && Delivered(y.code, Exit(j, map[]), side) == Nil;
    }
  }
}
