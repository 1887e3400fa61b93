/** The code of every expression computes its value: the theorem about subexpr. */
module CodeExpr {
  import opened Wrappers
  import opened CodeVm
  import opened CodeGen
  import opened CodeInv
  import opened CodeDesc
  import opened CodeCond
  import opened CodeGo
  import opened CodeNeg
  import opened CodeReg
  import opened CodeSource
  import opened CodeEval
  import opened CodeOper
  import opened CodeConsts
  import opened CodeShape

  /** An operand has been compiled and settled, and control arrives with what its way leaves. */
  ghost predicate OperandDone(e: Env, g: Gen, x: Exp, b: nat, r: Regs, h: Gen, d: Desc, rk: RK) {
    var o := Run(e, g.code, b, r);
    var o' := Run(e, h.code, b, r);
    && GenWf(h) && Start(h, b, r) && Kept(g, h) && h.nactvar == g.nactvar && g.ks <= h.ks && Pc(h) >= Pc(g)
    && h.ks == OperandConsts(ShapeOf(x, g.ks)) && d.t == [] && d.f == [] && h.freereg >= g.freereg
    && (match rk
        case K(i) => d.k == VK(i) && i <= MAXINDEXRK && h.freereg == g.freereg
        case R(i) => d.k == VNonReloc(i) && (if i < g.nactvar then h.freereg == g.freereg else i == g.freereg && h.freereg == i + 1))
    && (if Arrives(g, o)
        then Supplied(e, h, o', o.regs, g.freereg, WayOf(e, x, o.regs, Carried(g, o), g.ks), ShapeOf(x, g.ks), rk)
        else o' == o)
  }

  /** The operand has the value left by the way `w`, and no other register is changed. */
  ghost predicate Supplied(e: Env, h: Gen, o: Outcome, r: Regs, n: nat, w: Way, s: Shape, rk: RK) {
    Arrives(h, o) && Agree(r, o.regs, n) && Operand(e, o.regs, rk) == Result(w) && Carried(h, o) == HeldStill(w, s)
  }

  lemma OperandStatic(g: Gen, g1: Gen, v: Desc, h: Gen, d: Desc, rk: RK)
    requires ExprWf(g, g1, v) && OperandWf(g1, v, h, d, rk)
    ensures GenWf(h) && Kept(g, h) && h.nactvar == g.nactvar && g.ks <= h.ks && Pc(h) >= Pc(g)
  {
    hide Wf, NoLanding, AllHeld, DescWf;
    var h' := h.(freereg := g1.freereg);
    assert GenWf(h') && h.freereg >= h'.freereg;
    forall j: nat | Held(g.code, j) && j !in g.jpc ensures SameControl(g, h, j) {
      assert SameControl(g, g1, j);
      assert SameControl(g1, h', j);
    }
  }

  lemma OperandValue(e: Env, g: Gen, v: Desc, o: Outcome, r: Regs, n: nat, w: Way, h: Gen, o': Outcome, rk: RK)
    requires Denotes(e, g, v, o, r, n, w) && OperandIs(e, g, v, o, h, o', rk) && n <= g.freereg
    requires Apart(v.t, v.f)
    ensures Supplied(e, h, o', r, n, w, Seen(g, v), rk)
  {
    hide MainValue;
  }

  lemma OutsideStays(e: Env, g: Gen, g1: Gen, v: Desc, o: Outcome, h: Gen, o': Outcome, rk: RK)
    requires ExprWf(g, g1, v) && o.Exit? && Held(g.code, o.at) && o.at !in g.jpc && OperandIs(e, g1, v, o, h, o', rk)
    ensures o' == o
  {
    hide GenWf, DescWf;
    assert SameControl(g, g1, o.at);
  }

  lemma OperandCompiled(e: Env, g: Gen, x: Exp, b: nat, r: Regs)
    requires GenWf(g) && ExprGood(e, g, x, b, r)
    requires var (g1, v) := Expr(g, x); g1.ks <= e.ks && Exp2RK(g1, v).0.ks <= e.ks
    ensures var (g1, v) := Expr(g, x); var (h, d, rk) := Exp2RK(g1, v); OperandDone(e, g, x, b, r, h, d, rk)
  {
    var (g1, v) := Expr(g, x);
    var (h, d, rk) := Exp2RK(g1, v);
    var o := Run(e, g.code, b, r);
    var o1 := Run(e, Body(g1, v), b, r);
    var o2 := Run(e, h.code, b, r);
    ExprParts(e, g, x, b, r);
    ExitHeld(e, g.code, b, r) by { GenCode(g); }
    hide GenWf, DescWf, Start, Run, Expr, Exp2RK, WayOf, ShapeOf, Seen, Denotes, OperandIs, OperandWf, Supplied;
    OperandRun(e, g1, v, b, r);
    OperandStatic(g, g1, v, h, d, rk);
    OperandShape(g1, v, h, d, rk);
    ShapeRight(g, x);
    OperandSeen(g1, v);
    if Arrives(g, o) {
      OperandValue(e, g1, v, o1, o.regs, g.freereg, WayOf(e, x, o.regs, Carried(g, o), g.ks), h, o2, rk) by { ListsApart(g1, v); }
    } else {
      OutsideStays(e, g, g1, v, o, h, o2, rk);
    }
  }

  lemma GenCode(g: Gen)
    requires GenWf(g)
    ensures Wf(g.code)
  {}

  lemma ListsApart(g: Gen, v: Desc)
    requires DescWf(g, v)
    ensures Apart(v.t, v.f)
  {}

  lemma OperandShape(g: Gen, v: Desc, h: Gen, d: Desc, rk: RK)
    requires OperandWf(g, v, h, d, rk)
    ensures d.t == [] && d.f == [] && h.freereg >= g.freereg
    ensures match rk
      case K(i) => d.k == VK(i) && i <= MAXINDEXRK && h.freereg == g.freereg
      case R(i) => d.k == VNonReloc(i) && (if i < g.nactvar then h.freereg == g.freereg else i == g.freereg && h.freereg == i + 1)
  {
    hide GenWf;
  }

  lemma ExprParts(e: Env, g: Gen, x: Exp, b: nat, r: Regs)
    requires ExprGood(e, g, x, b, r)
    ensures var (g1, v) := Expr(g, x);
      GenWf(g1) && DescWf(g1, v) && ExprWf(g, g1, v) && Start(g1, b, r) && Entry(Base(g1, v), b) && g1.freereg == g.freereg
  {}

  /** The comparison instruction and its jump, on settled operands. */
  lemma CompareEmitted(e: Env, h: Gen, i: Instr, b: nat, r: Regs)
    requires GenWf(h) && Start(h, b, r) && i.Cmp?
    ensures var y := CondJump(h, i); var v := Desc(VJmp(Pc(h) + 1), [], []);
      var o := Run(e, h.code, b, r); var o' := Run(e, y.code, b, r);
      && GenWf(y) && DescWf(y, v) && Kept(h, y) && Entry(Base(y, v), b) && Start(y, b, r) && |Base(y, v)| == Pc(h)
      && Carried(y, o') == None
      && (if Arrives(h, o) then o'.regs == o.regs && Reached(y, v, o') && MainValue(e, y, v, o') == Bool(Taken(e, i, o.regs)) else o' == o)
  {
    var y := CondJump(h, i);
    var v := Desc(VJmp(Pc(h) + 1), [], []);
    TestRun(e, h, i, b, r);
    DischargeRun(e, h, b, r);
    assert y.code[..Pc(h)] == Discharged(h);
    hide Wf, NoLanding, Run;
  }

  predicate Atom(x: Exp) { !x.ECmp? && !x.ENot? && !x.EAnd? && !x.EOr? }

  /** Constants and locals emit no code. */
  lemma AtomShape(e: Env, g: Gen, x: Exp)
    requires Atom(x) && Scoped(x, g.nactvar) && Expr(g, x).0.ks <= e.ks
    ensures var (y, v) := Expr(g, x);
      && y == g.(ks := y.ks) && g.ks <= y.ks && v.t == [] && v.f == [] && !v.k.VJmp? && !v.k.VReloc?
      && y.jpc == g.jpc && KindWf(y, v.k) && forall r :: KindValue(e, y, v.k, r) == Eval(e, x, r)
  {
    hide IndexOf, CodeComp, GoIfTrue, GoIfFalse, Exp2RK, CodeNot, Compare, Discharge;
    match x {
      case EStr(s) => AddKGives(e, g, Str(s));
      case _ =>
    }
  }

  lemma AtomWf(g: Gen, y: Gen, v: Desc)
    requires GenWf(g) && y == g.(ks := y.ks) && g.ks <= y.ks && v.t == [] && v.f == [] && KindWf(y, v.k)
    requires !v.k.VJmp? && !v.k.VReloc?
    ensures ExprWf(g, y, v) && Base(y, v) == g.code && Body(y, v) == g.code && forall o :: Reached(y, v, o) == Arrives(g, o)
  {
    hide Wf, NoLanding;
  }

  lemma AtomGood(e: Env, g: Gen, x: Exp, b: nat, r: Regs)
    requires GenWf(g) && Start(g, b, r) && Scoped(x, g.nactvar) && Expr(g, x).0.ks <= e.ks && Atom(x)
    ensures ExprGood(e, g, x, b, r)
  {
    var (y, v) := Expr(g, x);
    AtomShape(e, g, x);
    AtomWf(g, y, v);
    StartEntry(g, b, r);
    hide Run, GenWf, ExprWf, Base, Body, KindValue, Eval, Expr, KindWf, Reached;
    assert forall r, held :: WayOf(e, x, r, held, g.ks) == Ends(Eval(e, x, r), held);
  }

  lemma NotGood(e: Env, g: Gen, a: Exp, b: nat, r: Regs)
    requires GenWf(g) && ExprGood(e, g, a, b, r) && Expr(g, ENot(a)).0.ks <= e.ks
    ensures ExprGood(e, g, ENot(a), b, r)
  {
    var (g1, v1) := Expr(g, a);
    var (g2, v2) := CodeNot(g1, v1);
    NotKs(g1, v1);
    ExprParts(e, g, a, b, r);
    ExitHeld(e, g.code, b, r) by { GenCode(g); }
    assert Expr(g, ENot(a)) == (g2, v2);
    hide GenWf, DescWf, Run, Expr, CodeNot, Start, Entry, MainValue, Denotes, Opposite, Carried, NotWf;
    NotRun(e, g1, v1, b, r);
    BodyExit(e, g1, v1, b, r);
    NotStart(g1, v1, g2, v2, b, r);
    NotExprWf(g, g1, v1, g2, v2);
    var o := Run(e, g.code, b, r);
    var o1 := Run(e, Body(g1, v1), b, r);
    var o2 := Run(e, Body(g2, v2), b, r);
    if Arrives(g, o) {
      ShapeRight(g, a);
      NotDenotes(e, g1, v1, o1, o.regs, g.freereg, WayOf(e, a, o.regs, Carried(g, o), g.ks), g2, v2, o2);
    } else {
      assert SameControl(g, g1, o.at);
    }
  }

  lemma NotStart(g: Gen, v: Desc, g': Gen, v': Desc, b: nat, r: Regs)
    requires (g', v') == CodeNot(g, v) && NotWf(g, v, g', v') && Start(g, b, r) && Entry(Base(g', v'), b)
    requires GenWf(g) && DescWf(g, v) && Entry(Base(g, v), b)
    ensures Start(g', b, r)
  {
    NotSize(g, v);
    BodyEntry(g', v', b);
    if v'.k.VReloc? { EndNoTest(g'.code); EntryLonger(g', v', b); }
    hide GenWf, DescWf, CodeNot;
  }

  lemma EntryLonger(g: Gen, v: Desc, b: nat)
    requires Entry(Base(g, v), b) && v.k.VReloc? && DescWf(g, v)
    ensures Entry(g.code, b) && b < Pc(g)
  {}

  /** codenot emits code, or changes tests only. */
  lemma NotSize(g: Gen, v: Desc)
    requires GenWf(g) && DescWf(g, v)
    ensures var g' := CodeNot(g, v).0;
      Pc(g') > Pc(g) || (Pc(g') == Pc(g) && g'.lasttarget == g.lasttarget
        && forall j :: 0 <= j < Pc(g) ==> (g'.code[j].LoadNil? <==> g.code[j].LoadNil?))
  {
    ToRegSize(Reserve(g), Discharge(v), g.freereg);
    hide Wf, NoLanding, AllHeld, Apart, ToReg, PatchList;
  }

  lemma NotExprWf(g: Gen, g1: Gen, v1: Desc, g2: Gen, v2: Desc)
    requires ExprWf(g, g1, v1) && NotWf(g1, v1, g2, v2)
    ensures ExprWf(g, g2, v2)
  {
    hide GenWf, DescWf;
    forall j: nat | Held(g.code, j) && j !in g.jpc
      ensures SameControl(g, g2, j) && j !in v2.t && j !in v2.f && v2.k != VJmp(j)
    {
      assert SameControl(g, g1, j);
      assert SameControl(g1, g2, j);
    }
  }

  lemma NotDenotes(e: Env, g: Gen, v: Desc, o: Outcome, r: Regs, n: nat, w: Way, g': Gen, v': Desc, o': Outcome)
    requires Denotes(e, g, v, o, r, n, w) && Opposite(e, g, v, o, g', v', o') && NotWf(g, v, g', v') && n <= g.freereg
    ensures Denotes(e, g', v', o', r, n, Negation(w, Plain(v.k)))
  {
    hide GenWf, DescWf, MainValue;
  }

  /** The state in which a comparison is emitted: both operands settled, their registers freed. */
  lemma CompareShape(g: Gen, h: Gen, op: Rel, d1: Desc, rk1: RK, v2: Desc)
    requires d1.t == [] && d1.f == []
    requires match rk1 case K(i) => d1.k == VK(i) && i <= MAXINDEXRK case R(i) => d1.k == VNonReloc(i)
    ensures var (z, d2, rk2) := Exp2RK(h, v2); var w := FreeExp(FreeExp(z, d2), d1); var y := CondJump(w, CompInstr(op, rk1, rk2));
      CodeComp(h, op, d1, v2) == (y, Desc(VJmp(Pc(y) - 1), [], []))
  {
    OperandAgain(h, d1, rk1);
    hide Exp2RK, EmitAll;
  }

  /** Freeing gives back what settling the operands reserved. */
  lemma CompareFrees(g: Gen, h: Gen, d1: Desc, rk1: RK, z: Gen, d2: Desc, rk2: RK)
    requires g.nactvar <= g.freereg && h.nactvar == g.nactvar == z.nactvar
    requires match rk1 case K(i) => d1.k == VK(i) && h.freereg == g.freereg
             case R(i) => d1.k == VNonReloc(i) && (if i < g.nactvar then h.freereg == g.freereg else i == g.freereg && h.freereg == i + 1)
    requires match rk2 case K(i) => d2.k == VK(i) && z.freereg == h.freereg
             case R(i) => d2.k == VNonReloc(i) && (if i < h.nactvar then z.freereg == h.freereg else i == h.freereg && z.freereg == i + 1)
    ensures FreeExp(FreeExp(z, d2), d1) == z.(freereg := g.freereg)
  {}

  lemma WithRegs(g: Gen, n: nat, b: nat, r: Regs)
    requires GenWf(g) && Start(g, b, r) && g.nactvar <= n
    ensures GenWf(g.(freereg := n)) && Start(g.(freereg := n), b, r)
  {}

  lemma CompTaken(e: Env, op: Rel, rk1: RK, rk2: RK, r: Regs)
    ensures CompInstr(op, rk1, rk2).Cmp? && Taken(e, CompInstr(op, rk1, rk2), r) == Compare(e, op, Operand(e, r, rk1), Operand(e, r, rk2))
  {}

  /** What the registers hold when the comparison runs. */
  lemma CompareValue(e: Env, op: Rel, a: Exp, c: Exp, rk1: RK, rk2: RK, r: Regs, r1: Regs, r2: Regs, k: nat, n: nat, m: nat,
                     held: Option<Value>, ks: seq<Value>)
    requires k <= n <= m && Scoped(c, k) && (rk1.R? ==> rk1.reg < m)
    requires var w := WayOf(e, a, r, held, ks); var s := ShapeOf(a, ks);
      && Agree(r, r1, n) && Operand(e, r1, rk1) == Result(w)
      && Agree(r1, r2, m) && Operand(e, r2, rk2) == Result(WayOf(e, c, r1, HeldStill(w, s), OperandConsts(s)))
    ensures Agree(r, r2, n) && WayOf(e, ECmp(op, a, c), r, held, ks) == Ends(Bool(Taken(e, CompInstr(op, rk1, rk2), r2)), None)
  {
    WayAgree(e, c, r, r1, HeldStill(WayOf(e, a, r, held, ks), ShapeOf(a, ks)), OperandConsts(ShapeOf(a, ks)), k);
    SameRegister(e, rk1, r1, r2, m);
    CompTaken(e, op, rk1, rk2, r2);
    CompareWay(e, op, a, c, r, held, ks);
    hide WayOf, ShapeOf, Operand, Taken, CompInstr, Scoped;
  }

  /** The parts of `OperandDone` that concern runs. */
  lemma OperandRuns(e: Env, g: Gen, x: Exp, b: nat, r: Regs, h: Gen, d: Desc, rk: RK)
    requires OperandDone(e, g, x, b, r, h, d, rk)
    ensures var o := Run(e, g.code, b, r); var o' := Run(e, h.code, b, r);
      if Arrives(g, o)
      then Supplied(e, h, o', o.regs, g.freereg, WayOf(e, x, o.regs, Carried(g, o), g.ks), ShapeOf(x, g.ks), rk)
      else o' == o
  {
    hide GenWf, Start, Run, WayOf, ShapeOf, Supplied;
  }

  lemma OperandStates(e: Env, g: Gen, x: Exp, b: nat, r: Regs, h: Gen, d: Desc, rk: RK)
    requires OperandDone(e, g, x, b, r, h, d, rk) && g.nactvar <= g.freereg
    ensures GenWf(h) && Start(h, b, r) && Kept(g, h) && h.nactvar == g.nactvar && g.ks <= h.ks && Pc(h) >= Pc(g)
    ensures h.freereg >= g.freereg && (rk.R? ==> rk.reg < h.freereg) && h.ks == OperandConsts(ShapeOf(x, g.ks))
  {
    hide GenWf, Start, Run, WayOf, ShapeOf, Supplied, Kept;
  }

  /** Both operands in place, the comparison jumps exactly when the relation holds. */
  lemma CompareGood(e: Env, g: Gen, op: Rel, a: Exp, c: Exp, h: Gen, d1: Desc, rk1: RK, z: Gen, d2: Desc, rk2: RK, b: nat, r: Regs)
    requires GenWf(g) && Scoped(c, g.nactvar)
    requires OperandDone(e, g, a, b, r, h, d1, rk1) && OperandDone(e, h, c, b, r, z, d2, rk2)
    requires Expr(g, ECmp(op, a, c)) ==
      (var y := CondJump(z.(freereg := g.freereg), CompInstr(op, rk1, rk2)); (y, Desc(VJmp(Pc(y) - 1), [], [])))
    ensures ExprGood(e, g, ECmp(op, a, c), b, r)
  {
    hide OperandDone, GenWf, DescWf, Start, Run, Expr, EmitAll, WayOf, ShapeOf, Carried, MainValue, Reached, Kept, Base, ExprWf, Scoped, CompInstr, Taken, Operand;
    var w := z.(freereg := g.freereg);
    var i := CompInstr(op, rk1, rk2);
    var y := CondJump(w, i);
    var v := Desc(VJmp(Pc(w) + 1), [], []);
    RegsFit(g);
    OperandStates(e, g, a, b, r, h, d1, rk1);
    RegsFit(h);
    OperandStates(e, h, c, b, r, z, d2, rk2);
    WithRegs(z, g.freereg, b, r);
    CompTaken(e, op, rk1, rk2, r);
    EmittedSize(w, i);
    CompareEmitted(e, w, i, b, r);
    CompareStatic(g, h, z, w, y, v);
    OperandRuns(e, g, a, b, r, h, d1, rk1);
    OperandRuns(e, h, c, b, r, z, d2, rk2);
    var o := Run(e, g.code, b, r);
    if Arrives(g, o) {
      CompareValue(e, op, a, c, rk1, rk2, o.regs, Run(e, h.code, b, r).regs, Run(e, z.code, b, r).regs, g.nactvar, g.freereg, h.freereg,
                   Carried(g, o), g.ks);
    } else {
      StillOutside(e, g, h, b, r);
      StillOutside(e, g, z, b, r) by { KeptTrans(g, h, z); }
    }
  }

  lemma StillOutside(e: Env, g: Gen, h: Gen, b: nat, r: Regs)
    requires GenWf(g) && Kept(g, h)
    ensures var o := Run(e, g.code, b, r); !Arrives(g, o) ==> !Arrives(h, o)
  {
    ExitHeld(e, g.code, b, r);
    var o := Run(e, g.code, b, r);
    if !Arrives(g, o) { assert SameControl(g, h, o.at); }
  }

  lemma RegsFit(g: Gen)
    requires GenWf(g)
    ensures g.nactvar <= g.freereg
  {}

  lemma EmittedSize(g: Gen, i: Instr)
    ensures var y := CondJump(g, i); Pc(y) == Pc(g) + 2 && y.freereg == g.freereg && y.nactvar == g.nactvar && y.ks == g.ks
  {}

  lemma CompareWay(e: Env, op: Rel, a: Exp, c: Exp, r: Regs, held: Option<Value>, ks: seq<Value>)
    ensures var s := ShapeOf(a, ks); var w := WayOf(e, a, r, held, ks);
      WayOf(e, ECmp(op, a, c), r, held, ks) ==
        Ends(Bool(Compare(e, op, Result(w), Result(WayOf(e, c, r, HeldStill(w, s), OperandConsts(s))))), None)
  {}

  lemma SameRegister(e: Env, rk: RK, r: Regs, r': Regs, n: nat)
    requires Agree(r, r', n) && (rk.R? ==> rk.reg < n)
    ensures Operand(e, r, rk) == Operand(e, r', rk)
  {}

  lemma CompareStatic(g: Gen, h: Gen, z: Gen, w: Gen, y: Gen, v: Desc)
    requires Kept(g, h) && Kept(h, z) && Kept(w, y) && w == z.(freereg := g.freereg) && GenWf(y) && DescWf(y, v)
    requires h.nactvar == g.nactvar && z.nactvar == h.nactvar && g.ks <= h.ks <= z.ks && Pc(g) <= Pc(h) <= Pc(z)
    requires y.freereg == w.freereg && y.nactvar == w.nactvar && y.ks == w.ks && |Base(y, v)| == Pc(z)
    requires v == Desc(VJmp(Pc(w) + 1), [], [])
    ensures ExprWf(g, y, v)
  {
    hide GenWf, DescWf, Base;
    forall j: nat | Held(g.code, j) && j !in g.jpc ensures SameControl(g, y, j) && v.k != VJmp(j) {
      assert SameControl(g, h, j);
      assert SameControl(h, z, j);
      assert SameControl(w, y, j);
    }
  }
}
