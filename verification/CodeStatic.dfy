/** What generating code keeps, whatever runs do: the static half of the theorems. */
module CodeStatic {
  import opened CodeVm
  import opened CodeGen
  import opened CodeInv
  import opened CodeDesc
  import opened CodeCond
  import opened CodeGo
  import opened CodeNeg
  import opened CodeReg
  import opened CodeSource
  import opened CodeShape
  import opened CodeEval
  import opened CodeOper
  import opened CodeConsts
  import opened CodeExpr
  import opened CodeLogic

  /** Any comparisons will do where only the code matters. */
  function AnyEnv(ks: seq<Value>): Env { Env((op, a, b) => false, ks) }

  lemma StartAnywhere(g: Gen)
    ensures Start(g, 0, map[])
  {}

  lemma BaseEntry(g: Gen, v: Desc)
    ensures Entry(Base(g, v), 0)
  {}

  lemma ToRegStatic(g: Gen, v: Desc, reg: nat)
    requires GenWf(g) && DescWf(g, v)
    ensures Kept(g, ToReg(g, v, reg)) && GenWf(ToReg(g, v, reg))
  {
    var e := AnyEnv(ToReg(g, v, reg).ks);
    StartAnywhere(g);
    BaseEntry(g, v);
    if v.k.VJmp? { KeptSelf(g); } else { ToRegRun(e, g, v, reg, 0, map[]); }
    hide GenWf, Kept, DescWf, KindValue, Run;
  }

  lemma PreparedStatic(g: Gen, v: Desc, reg: nat)
    requires GenWf(g) && DescWf(g, v)
    ensures PreparedWf(g, v, BeforePatch(g, v, reg), reg)
  {
    hide GenWf, DescWf, BeforePatch, PreparedWf, Prepared;
    var e := AnyEnv(ToReg(g, v, reg).ks);
    StartAnywhere(g);
    BaseEntry(g, v);
    StartEntry(g, 0, map[]);
    if v.k.VJmp? { PrepareCompare(e, g, v, reg, 0, map[]); } else { PrepareLoaded(e, g, v, reg, 0, map[]); }
  }

  lemma Exp2RegStatic(g: Gen, v: Desc, reg: nat)
    requires GenWf(g) && DescWf(g, v)
    ensures GenWf(Exp2Reg(g, v, reg)) && Entry(Exp2Reg(g, v, reg).code, 0)
  {
    hide DescWf, Exp2Reg, InRegister, KindValue, Run;
    StartAnywhere(g);
    BaseEntry(g, v);
    Exp2RegRun(AnyEnv(Exp2Reg(g, v, reg).ks), g, v, reg, 0, map[]);
  }

  /** Reserving a register first makes no difference to exp2reg. */
  lemma Exp2RegReserve(g: Gen, v: Desc, reg: nat)
    ensures Exp2Reg(Reserve(g), v, reg) == Reserve(Exp2Reg(g, v, reg))
  {
    ToRegReserve(g, v, reg);
    LoadsReserve(ToReg(g, v, reg), !v.k.VJmp?, reg);
    hide ToReg, Loads, NeedValue, PatchBoth;
  }

  lemma LoadsReserve(y: Gen, jump: bool, reg: nat)
    ensures Loads(Reserve(y), jump, reg) == Reserve(Loads(y, jump, reg))
  {
    hide PatchList;
  }

  lemma BranchStatic(g: Gen, d: Desc, want: bool)
    requires GenWf(g) && DescWf(g, d) && !d.k.VLocal?
    ensures var (y, q) := Jumps(g, d, want); BranchWf(g, d, y, q)
  {
    hide GenWf, DescWf, Jumps, BranchWf, Branched;
    var e := AnyEnv(Jumps(g, d, want).0.ks);
    JumpsKs(g, d, want);
    StartAnywhere(g);
    BaseEntry(g, d);
    BranchRun(e, g, d, want, 0, map[]);
  }

  lemma JumpsKs(g: Gen, d: Desc, want: bool)
    ensures g.ks <= Jumps(g, d, want).0.ks
  {
    JumpKs(g, d, !want);
    hide JumpOnCond;
  }

  lemma NegStatic(g: Gen, d: Desc)
    requires GenWf(g) && DescWf(g, d) && !d.k.VLocal?
    ensures var (y, k) := Negated(g, d); NegWf(g, d, y, d.(k := k))
  {
    hide GenWf, DescWf, Negated, NegWf, Opposite;
    StartAnywhere(g);
    BaseEntry(g, d);
    NegRun(AnyEnv(g.ks), g, d, 0, map[]);
  }

  lemma GoIfStatic(g: Gen, v: Desc, want: bool)
    requires GenWf(g) && DescWf(g, v)
    ensures var (g', v') := GoIf(g, v, want); GoneWf(g, v, g', v', want)
  {
    hide GenWf, DescWf, GoIf, GoneWf, Gone;
    var e := AnyEnv(GoIf(g, v, want).0.ks);
    GoIfKs(g, v, want);
    StartAnywhere(g);
    BaseEntry(g, v);
    GoIfRun(e, g, v, want, 0, map[]);
  }

  lemma NotStatic(g: Gen, v: Desc)
    requires GenWf(g) && DescWf(g, v)
    ensures var (g', v') := CodeNot(g, v); NotWf(g, v, g', v')
  {
    hide GenWf, DescWf, CodeNot, NotWf, Opposite;
    var e := AnyEnv(g.ks);
    StartAnywhere(g);
    BaseEntry(g, v);
    NotRun(e, g, v, 0, map[]);
  }

  lemma OperandStaticWf(g: Gen, v: Desc)
    requires GenWf(g) && DescWf(g, v)
    ensures var (g', d, rk) := Exp2RK(g, v); OperandWf(g, v, g', d, rk)
  {
    hide GenWf, DescWf, Exp2RK, OperandWf, OperandIs;
    var e := AnyEnv(Exp2RK(g, v).0.ks);
    OperandKs(g, v);
    StartAnywhere(g);
    BaseEntry(g, v);
    OperandRun(e, g, v, 0, map[]);
  }

  /** What each step of compiling an expression keeps. */
  lemma {:induction false} ExprStatic(g: Gen, x: Exp)
    requires GenWf(g) && Scoped(x, g.nactvar)
    ensures var (g', v) := Expr(g, x); ExprWf(g, g', v)
    decreases x
  {
    match x {
      case ENot(a) =>
        ExprStatic(g, a);
        NotStaticCase(g, a);
      case EAnd(a, c) => ExprStatic(g, a); LogicStatic(g, a, c, true);
      case EOr(a, c) => ExprStatic(g, a); LogicStatic(g, a, c, false);
      case ECmp(op, a, c) => ExprStatic(g, a); CompareStaticCase(g, op, a, c);
      case _ => AtomStatic(g, x);
    }
  }

  lemma AtomStatic(g: Gen, x: Exp)
    requires GenWf(g) && Scoped(x, g.nactvar) && Atom(x)
    ensures var (g', v) := Expr(g, x); ExprWf(g, g', v)
  {
    var (g', v) := Expr(g, x);
    AtomShape(AnyEnv(g'.ks), g, x);
    hide GenWf, Expr, Eval, KindValue, ExprWf, KindWf;
    AtomWf(g, g', v);
  }

  lemma Parts(g: Gen, g': Gen, v: Desc)
    requires ExprWf(g, g', v)
    ensures GenWf(g') && DescWf(g', v) && g'.nactvar == g.nactvar && g'.freereg == g.freereg
  {}

  lemma NotStaticCase(g: Gen, a: Exp)
    requires var (g1, v1) := Expr(g, a); ExprWf(g, g1, v1)
    ensures var (g', v) := Expr(g, ENot(a)); ExprWf(g, g', v)
  {
    var (g1, v1) := Expr(g, a);
    var (g2, v2) := CodeNot(g1, v1);
    NotStep(g, a);
    hide Expr, CodeNot, ExprWf, NotWf;
    Parts(g, g1, v1);
    NotStatic(g1, v1);
    NotExprWf(g, g1, v1, g2, v2);
  }

  lemma LogicStatic(g: Gen, a: Exp, c: Exp, want: bool)
    requires Scoped(c, g.nactvar)
    requires var (g1, v1) := Expr(g, a); ExprWf(g, g1, v1)
    ensures var (g', v) := Expr(g, Logic(a, c, want)); ExprWf(g, g', v)
    decreases Logic(a, c, want), 0
  {
    var (g1, v1) := Expr(g, a);
    var (g2, d1) := GoIf(g1, v1, want);
    var (g3, v2) := Expr(g2, c);
    LogicIs(g, a, c, want);
    hide Expr, GoIf, ExprWf, GoneWf;
    Parts(g, g1, v1);
    GoIfStatic(g1, v1, want);
    GoneParts(g1, v1, g2, d1, want);
    ExprStatic(g2, c);
    LogicWf(g, g1, v1, g2, d1, g3, v2, want);
  }

  lemma CompareStaticCase(g: Gen, op: Rel, a: Exp, c: Exp)
    requires GenWf(g) && Scoped(c, g.nactvar)
    requires var (g1, v1) := Expr(g, a); ExprWf(g, g1, v1)
    ensures var (g', v) := Expr(g, ECmp(op, a, c)); ExprWf(g, g', v)
    decreases ECmp(op, a, c), 0
  {
    hide Expr, Exp2RK, ExprWf, OperandWf, CodeComp, EmitAll, CompInstr, GenWf, DescWf, Kept;
    var (g1, v1) := Expr(g, a);
    var (h, d1, rk1) := Exp2RK(g1, v1);
    var (g3, v2) := Expr(h, c);
    var (z, d2, rk2) := Exp2RK(g3, v2);
    var w := z.(freereg := g.freereg);
    var i := CompInstr(op, rk1, rk2);
    var y := CondJump(w, i);
    var v := Desc(VJmp(Pc(w) + 1), [], []);
    Parts(g, g1, v1);
    OperandStaticWf(g1, v1);
    OperandStatic(g, g1, v1, h, d1, rk1);
    OperandShape(g1, v1, h, d1, rk1);
    ExprStatic(h, c);
    Parts(h, g3, v2);
    OperandStaticWf(g3, v2);
    OperandStatic(h, g3, v2, z, d2, rk2);
    OperandShape(g3, v2, z, d2, rk2);
    CompStep(g, op, a, c);
    RegsFit(g);
    CompareShape(g, g3, op, d1, rk1, v2);
    CompareFrees(g, h, d1, rk1, z, d2, rk2);
    StartAnywhere(z);
    WithRegs(z, g.freereg, 0, map[]);
    CompTaken(AnyEnv(w.ks), op, rk1, rk2, map[]);
    CompareEmitted(AnyEnv(w.ks), w, i, 0, map[]);
    EmittedSize(w, i);
    CompareStatic(g, h, z, w, y, v);
  }
}
