/** Where the fault of luaK_jump can show, told by the source of an expression alone: whether the
    generator ever folds a TESTSET held in `jpc` into the list of a constant. */
module CodeMarks {
  import opened CodeVm
  import opened CodeGen
  import opened CodeSource
  import opened CodeInv
  import opened CodeDesc
  import opened CodeCond
  import opened CodeGo
  import opened CodeOper
  import opened CodeEval
  import opened CodeShape
  import opened CodeExpr
  import opened CodeLogic
  import opened CodeStatic

  /** Which of the lists, and of what `jpc` holds at the end, deliver a register; and whether such a
      jump was ever folded. */
  datatype Marks = Marks(t: bool, f: bool, on: bool, folds: bool)

  /** Whether the jump for the truth `!want` of kind `k` delivers a register, when `jpc` holds such a
      jump (`on`). */
  predicate MarkOut(k: Kind, want: bool, on: bool) {
    if NoTest(k, want) then false else if AlwaysJumps(k, want) then on else !k.VReloc? && !k.VJmp?
  }

  function LogicMarks(m: Marks, k: Kind, u: Marks, want: bool): Marks {
    var folds := m.folds || (AlwaysJumps(k, want) && m.on) || u.folds;
    if want then Marks(u.t, u.f || m.f || MarkOut(k, want, m.on), u.on, folds)
    else Marks(u.t || m.t || MarkOut(k, want, m.on), u.f, u.on, folds)
  }

  /** `jpc` behind luaK_goiftrue or luaK_goiffalse. */
  predicate MarkOn(m: Marks, k: Kind, want: bool) { (NoTest(k, want) && m.on) || (if want then m.t else m.f) }

  function MarksOf(x: Exp, on: bool, ks: seq<Value>): Marks
    decreases x
  {
    match x
    case ENot(a) =>
      var m := MarksOf(a, on, ks);
      Marks(false, false, ConstKind(ShapeOf(a, ks).k) && m.on, m.folds)
    case EAnd(a, b) =>
      var m, s := MarksOf(a, on, ks), ShapeOf(a, ks);
      LogicMarks(m, s.k, MarksOf(b, MarkOn(m, s.k, true), TestConsts(s, true)), true)
    case EOr(a, b) =>
      var m, s := MarksOf(a, on, ks), ShapeOf(a, ks);
      LogicMarks(m, s.k, MarksOf(b, MarkOn(m, s.k, false), TestConsts(s, false)), false)
    case ECmp(_, a, b) =>
      var m, s := MarksOf(a, on, ks), ShapeOf(a, ks);
      Marks(false, false, false, m.folds || MarksOf(b, Quiet(s) && m.on, OperandConsts(s)).folds)
    case _ => Marks(false, false, on, false)
  }

  predicate Delivering(g: Gen, q: seq<nat>) { exists j :: j in q && Delivers(g.code, j) }

  /** While the code of `x` is generated, an always-taken jump is emitted for an `and`/`or` on a
      constant when `jpc` holds a TESTSET. */
  predicate FoldsTest(g: Gen, x: Exp)
    decreases x
  {
    match x
    case ENot(a) => FoldsTest(g, a)
    case EAnd(a, b) =>
      var (g1, v1) := Expr(g, a);
      FoldsTest(g, a) || (AlwaysJumps(Discharge(v1).k, true) && Delivering(g1, g1.jpc)) || FoldsTest(GoIf(g1, v1, true).0, b)
    case EOr(a, b) =>
      var (g1, v1) := Expr(g, a);
      FoldsTest(g, a) || (AlwaysJumps(Discharge(v1).k, false) && Delivering(g1, g1.jpc)) || FoldsTest(GoIf(g1, v1, false).0, b)
    case ECmp(_, a, b) =>
      var (g1, v1) := Expr(g, a);
      FoldsTest(g, a) || FoldsTest(Exp2RK(g1, v1).0, b)
    case _ => false
  }

  /** The marks of the code generated. */
  function Marked(g: Gen, v: Desc, folds: bool): Marks {
    Marks(Delivering(g, v.t), Delivering(g, v.f), Delivering(g, g.jpc), folds)
  }

  ghost predicate MarkedRight(g: Gen, x: Exp) {
    var (g', v) := Expr(g, x);
    Marked(g', v, FoldsTest(g, x)) == MarksOf(x, Delivering(g, g.jpc), g.ks)
  }

  lemma AtomMarked(g: Gen, x: Exp)
    requires Atom(x)
    ensures MarkedRight(g, x)
  {
    var (g', v) := Expr(g, x);
    assert g'.code == g.code && g'.jpc == g.jpc && v.t == [] && v.f == [] by { hide IndexOf; }
    hide Expr;
  }

  lemma NotMarked(g: Gen, v: Desc)
    requires GenWf(g) && DescWf(g, v)
    ensures var (g', v') := CodeNot(g, v);
      Marked(g', v', false) == Marks(false, false, ConstKind(v.k) && Delivering(g, g.jpc), false)
  {
    var d := Discharge(v);
    var (g', v') := CodeNot(g, v);
    NotStatic(g, v);
    assert forall j :: j in v'.t || j in v'.f ==> !Delivers(g'.code, j) by { hide GenWf, DescWf, CodeNot; }
    if ConstKind(v.k) {
      hide GenWf, Wf, NoLanding;
      assert g'.jpc == g.jpc;
      forall j | j in g.jpc ensures Delivers(g'.code, j) == Delivers(g.code, j) {}
    } else {
      NegEmpties(g, d);
      assert g'.jpc == [] by { hide GenWf, DescWf, Negated; }
    }
  }

  lemma NegEmpties(g: Gen, d: Desc)
    requires DescWf(g, d) && !ConstKind(d.k) && !d.k.VLocal?
    ensures Negated(g, d).0.jpc == []
  {
    hide PatchList, AllHeld, Apart, ToReg;
  }

  lemma JumpsMarked(g: Gen, d: Desc, want: bool)
    requires GenWf(g) && DescWf(g, d) && !d.k.VLocal?
    ensures var (y, q) := Jumps(g, d, want);
      && (Delivering(y, q) <==> MarkOut(d.k, want, Delivering(g, g.jpc)))
      && y.jpc == (if NoTest(d.k, want) then g.jpc else []) && (NoTest(d.k, want) ==> y.code == g.code)
  {
    var (y, q) := Jumps(g, d, want);
    if NoTest(d.k, want) {
    } else if AlwaysJumps(d.k, want) {
      EndNoTest(g.code);
      hide GenWf, DescWf;
      forall j | j in g.jpc && Delivers(g.code, j) ensures j in q && Delivers(y.code, j) {}
      forall j | j in q && Delivers(y.code, j) ensures j in g.jpc && Delivers(g.code, j) {}
    } else if d.k.VJmp? {
      hide Wf, NoLanding;
    } else {
      TestMarked(g, d, !want);
      hide GenWf, DescWf, JumpOnCond;
      var p := Pc(y) - 1;
      assert q == [p] && p in q;
    }
  }

  lemma TestMarked(g: Gen, d: Desc, cond: bool)
    requires GenWf(g) && DescWf(g, d) && !d.k.VLocal? && !d.k.VJmp?
    ensures var y := JumpOnCond(g, d, cond); Pc(y) > 0 && y.jpc == [] && (Delivers(y.code, Pc(y) - 1) <==> !d.k.VReloc?)
  {
    hide PatchList, Wf, NoLanding, ToReg;
    if !d.k.VReloc? && !d.k.VNonReloc? { JumpOnLoadedIs(g, d, cond); }
  }

  lemma GoIfMarked(g: Gen, v: Desc, want: bool)
    requires GenWf(g) && DescWf(g, v)
    ensures var (g', d) := GoIf(g, v, want); var m := Marked(g, v, false); var k := Plain(v.k);
      && (Delivering(g', Out(d, want)) <==> Delivering(g, Out(v, want)) || MarkOut(k, want, m.on))
      && (Delivering(g', g'.jpc) <==> MarkOn(m, k, want))
  {
    var w := Discharge(v);
    var (y, q) := Jumps(g, w, want);
    var (g', d) := GoIf(g, v, want);
    assert DescWf(g, w) by { hide AllHeld, Apart; }
    JumpsMarked(g, w, want);
    GoIfStatic(g, v, want);
    GoIfParts(g, v, want);
    hide GenWf, DescWf, Jumps, GoIf, GoneWf, Delivering;
    GoneDelivers(g, v, g', d, want);
    DeliveringJoin(g', Out(v, want), q);
    DeliveringJoin(g', y.jpc, Out(v, !want));
    SameDelivering(g, g', Out(v, want));
    SameDelivering(g, g', Out(v, !want));
    SameCode(y, g', q);
    if NoTest(w.k, want) { SameCode(g, g', g.jpc); } else { NoneDelivering(g'); }
  }

  lemma GoIfParts(g: Gen, v: Desc, want: bool)
    ensures var (y, q) := Jumps(g, Discharge(v), want); var (g', d) := GoIf(g, v, want);
      g'.code == y.code && g'.jpc == y.jpc + Out(v, !want) && Out(d, want) == Out(v, want) + q
  {
    hide FalseJumps, TrueJumps;
  }

  lemma GoneDelivers(g: Gen, v: Desc, g': Gen, d: Desc, want: bool)
    requires GoneWf(g, v, g', d, want)
    ensures forall j :: j in Out(v, want) || j in Out(v, !want) ==> (Delivers(g'.code, j) <==> Delivers(g.code, j))
  {
    hide GenWf;
    forall j | j in Out(v, want) || j in Out(v, !want) ensures Delivers(g'.code, j) <==> Delivers(g.code, j) {
      assert SameTest(g, g', j);
    }
  }

  lemma SameCode(g: Gen, g': Gen, q: seq<nat>)
    requires g'.code == g.code
    ensures Delivering(g', q) <==> Delivering(g, q)
  {}

  lemma NoneDelivering(g: Gen)
    ensures !Delivering(g, [])
  {}

  lemma DeliveringJoin(g: Gen, p: seq<nat>, q: seq<nat>)
    ensures Delivering(g, p + q) <==> Delivering(g, p) || Delivering(g, q)
  {
    if j :| j in p && Delivers(g.code, j) { assert j in p + q; }
    if j :| j in q && Delivers(g.code, j) { assert j in p + q; }
  }

  lemma SameDelivering(g: Gen, g': Gen, q: seq<nat>)
    requires forall j :: j in q ==> (Delivers(g'.code, j) <==> Delivers(g.code, j))
    ensures Delivering(g', q) <==> Delivering(g, q)
  {}

  lemma AgainMarked(g: Gen, g': Gen, q: seq<nat>)
    requires forall j :: j in q ==> SameTest(g, g', j)
    ensures Delivering(g', q) <==> Delivering(g, q)
  {}

  lemma OutStays(g: Gen, g': Gen, v: Desc, d: Desc, want: bool)
    requires ExprWf(g, g', v) && AllHeld(g.code, Out(d, want)) && Apart(g.jpc, Out(d, want))
    ensures Delivering(g', Out(d, want)) <==> Delivering(g, Out(d, want))
  {
    hide GenWf, DescWf;
    AgainMarked(g, g', Out(d, want));
  }

  lemma JoinedMarked(g: Gen, d: Desc, v: Desc, want: bool)
    requires Out(d, !want) == []
    ensures var u := Joined(d, v, want); var m := Marked(g, v, false); var out := Delivering(g, Out(d, want));
      Marked(g, u, false) == (if want then m.(f := m.f || out) else m.(t := m.t || out))
  {
    DeliveringJoin(g, Out(v, want), Out(d, want));
    hide Delivering;
  }

  /** What the definitions say of `and` and `or`, in one form. */
  lemma LogicMarksOf(a: Exp, c: Exp, want: bool, on: bool, ks: seq<Value>)
    ensures var m, s := MarksOf(a, on, ks), ShapeOf(a, ks);
      MarksOf(Logic(a, c, want), on, ks) == LogicMarks(m, s.k, MarksOf(c, MarkOn(m, s.k, want), TestConsts(s, want)), want)
  {
    hide LogicMarks, MarkOn, ShapeOf, TestConsts;
  }

  lemma LogicFolds(g: Gen, a: Exp, c: Exp, want: bool)
    ensures var (g1, v1) := Expr(g, a);
      FoldsTest(g, Logic(a, c, want)) <==>
        FoldsTest(g, a) || (AlwaysJumps(Plain(v1.k), want) && Delivering(g1, g1.jpc)) || FoldsTest(GoIf(g1, v1, want).0, c)
  {
    hide Expr, GoIf, Delivering;
  }

  lemma GoneList(g: Gen, v: Desc, g': Gen, d: Desc, want: bool)
    requires GoneWf(g, v, g', d, want)
    ensures AllHeld(g'.code, Out(d, want)) && Apart(g'.jpc, Out(d, want)) && Out(d, !want) == []
  {
    hide GenWf;
  }

  lemma LogicCombined(g: Gen, a: Exp, c: Exp, want: bool, g1: Gen, v1: Desc, g2: Gen, d1: Desc, g3: Gen, v2: Desc)
    requires (g1, v1) == Expr(g, a) && (g2, d1) == GoIf(g1, v1, want) && (g3, v2) == Expr(g2, c)
    requires Seen(g1, v1) == ShapeOf(a, g.ks) && g2.ks == TestConsts(ShapeOf(a, g.ks), want) && Out(d1, !want) == []
    requires MarkedRight(g, a) && MarkedRight(g2, c)
    requires var m := Marked(g1, v1, false); var k := Plain(v1.k);
      && (Delivering(g3, Out(d1, want)) <==> Delivering(g1, Out(v1, want)) || MarkOut(k, want, m.on))
      && (Delivering(g2, g2.jpc) <==> MarkOn(m, k, want))
    ensures MarkedRight(g, Logic(a, c, want))
  {
    hide Expr, GoIf, MarksOf, ShapeOf, FoldsTest, Delivering, TestConsts, Joined, MarkOut, Plain;
    LogicIs(g, a, c, want);
    LogicMarksOf(a, c, want, Delivering(g, g.jpc), g.ks);
    LogicFolds(g, a, c, want);
    JoinedMarked(g3, d1, v2, want);
  }

  lemma LogicMarked(g: Gen, a: Exp, c: Exp, want: bool)
    requires GenWf(g) && Scoped(a, g.nactvar) && Scoped(c, g.nactvar) && MarkedRight(g, a)
    requires var (g1, v1) := Expr(g, a); var g2 := GoIf(g1, v1, want).0;
      GenWf(g2) && g2.nactvar == g.nactvar ==> MarkedRight(g2, c)
    ensures MarkedRight(g, Logic(a, c, want))
  {
    hide GenWf, DescWf, Expr, GoIf, ExprWf, GoneWf, ShapeOf, Delivering, TestConsts, MarkedRight, Marked, AllHeld, Apart, MarkOut, MarkOn, Seen, Scoped;
    var (g1, v1) := Expr(g, a);
    var (g2, d1) := GoIf(g1, v1, want);
    var (g3, v2) := Expr(g2, c);
    ExprStatic(g, a);
    Parts(g, g1, v1);
    GoIfStatic(g1, v1, want);
    GoneParts(g1, v1, g2, d1, want);
    GoIfMarked(g1, v1, want);
    ShapeRight(g, a);
    GoIfSeen(g1, v1, want);
    GoneList(g1, v1, g2, d1, want);
    ExprStatic(g2, c);
    OutStays(g2, g3, v2, d1, want);
    LogicCombined(g, a, c, want, g1, v1, g2, d1, g3, v2);
  }

  lemma {:induction false} MarksExact(g: Gen, x: Exp)
    requires GenWf(g) && Scoped(x, g.nactvar)
    ensures MarkedRight(g, x)
    decreases x
  {
    hide GenWf, Expr, GoIf, MarkedRight;
    match x {
      case ENot(a) => MarksExact(g, a); NotMarks(g, a);
      case EAnd(a, c) => MarksExact(g, a); LogicNext(g, a, c, true);
      case EOr(a, c) => MarksExact(g, a); LogicNext(g, a, c, false);
      case ECmp(op, a, c) => MarksExact(g, a); CompareNext(g, op, a, c);
      case _ => AtomMarked(g, x);
    }
  }

  lemma LogicNext(g: Gen, a: Exp, c: Exp, want: bool)
    requires GenWf(g) && Scoped(a, g.nactvar) && Scoped(c, g.nactvar) && MarkedRight(g, a)
    ensures MarkedRight(g, Logic(a, c, want))
    decreases Logic(a, c, want), 0
  {
    hide GenWf, Expr, GoIf, MarkedRight;
    var (g1, v1) := Expr(g, a);
    var g2 := GoIf(g1, v1, want).0;
    if GenWf(g2) && g2.nactvar == g.nactvar { MarksExact(g2, c); }
    LogicMarked(g, a, c, want);
  }

  lemma NotMarks(g: Gen, a: Exp)
    requires GenWf(g) && Scoped(a, g.nactvar) && MarkedRight(g, a)
    ensures MarkedRight(g, ENot(a))
  {
    hide GenWf, DescWf, Expr, CodeNot, Delivering, ExprWf;
    var (g1, v1) := Expr(g, a);
    NotStep(g, a);
    ExprStatic(g, a);
    Parts(g, g1, v1);
    NotMarked(g1, v1);
    ShapeRight(g, a);
  }

  /** A settled operand leaves in `jpc` what was there, or nothing that delivers. */
  lemma OperandMarked(g: Gen, v: Desc)
    requires GenWf(g) && DescWf(g, v)
    ensures var h := Exp2RK(g, v).0; Delivering(h, h.jpc) <==> Quiet(Seen(g, v)) && Delivering(g, g.jpc)
  {
    var u := Discharge(v);
    SameOperand(g, v);
    if Quiet(Seen(g, v)) {
      hide GenWf, DescWf, IndexOf, Exp2Reg, Exp2NextReg;
      assert Exp2RK(g, u).0.code == g.code && Exp2RK(g, u).0.jpc == g.jpc;
    } else {
      NextRegOperand(g, u);
      NextRegIs(g, u);
      StartAnywhere(g);
      Reserved(g, u, 0, map[]);
      hide GenWf, DescWf, Exp2RK, Exp2Reg, Exp2NextReg, Start;
      FreshSilent(g, u);
    }
  }

  lemma FreshSilent(g: Gen, u: Desc)
    requires GenWf(Reserve(g)) && DescWf(Reserve(g), u) && (u.k.VLocal? || u.k.VNonReloc? ==> u.k.reg != g.freereg)
    ensures var h := Exp2Reg(Reserve(g), u, g.freereg); !Delivering(h, h.jpc)
  {
    var h := Exp2Reg(Reserve(g), u, g.freereg);
    StartAnywhere(Reserve(g));
    BaseEntry(Reserve(g), u);
    hide GenWf, DescWf, Exp2Reg, Start;
    if j :| j in h.jpc && Delivers(h.code, j) {
      RegSilent(AnyEnv(h.ks), Reserve(g), u, g.freereg, 0, map[], Exit(j, map[]));
    }
  }

  lemma CompareNext(g: Gen, op: Rel, a: Exp, c: Exp)
    requires GenWf(g) && Scoped(a, g.nactvar) && Scoped(c, g.nactvar) && MarkedRight(g, a)
    ensures MarkedRight(g, ECmp(op, a, c))
    decreases ECmp(op, a, c), 0
  {
    hide GenWf, DescWf, Expr, Exp2RK, Delivering, ExprWf, OperandWf, CodeComp, Seen;
    var (g1, v1) := Expr(g, a);
    var (h, d1, rk1) := Exp2RK(g1, v1);
    var (g3, v2) := Expr(h, c);
    ExprStatic(g, a);
    Parts(g, g1, v1);
    OperandStaticWf(g1, v1);
    OperandStatic(g, g1, v1, h, d1, rk1);
    OperandMarked(g1, v1);
    ShapeRight(g, a);
    OperandSeen(g1, v1);
    MarksExact(h, c);
    CompStep(g, op, a, c);
    CompareMarked(g3, op, d1, v2);
  }

  lemma CompareMarked(g: Gen, op: Rel, v1: Desc, v2: Desc)
    ensures var (g', d) := CodeComp(g, op, v1, v2); Marked(g', d, false) == Marks(false, false, false, false)
  {
    hide Exp2RK, PatchList;
  }
}
