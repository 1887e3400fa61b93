/** Conditions once their jumps are patched: where control comes, for luaK_patchlist and for
    luaK_patchtohere, and what happens instead when luaK_jump takes the list along. */
module CodePatch {
  import opened Wrappers
  import opened CodeVm
  import opened CodeRun
  import opened CodeGen
  import opened CodeSource
  import opened CodeInv
  import opened CodeDesc
  import opened CodeCond
  import opened CodeGo
  import opened CodeConsts
  import opened CodeShape
  import opened CodeExpr
  import opened CodeLogic
  import opened CodeTheorems

  /** Code `c`, generated later, resolves the jumps of `z` that lead on to its end and those of the
      false list to `target`, keeping no values. */
  ghost predicate Resolves(z: Gen, f: seq<nat>, c: seq<Instr>, target: nat) {
    && Patch(z.code, c)
    && (forall j :: j in z.jpc ==> j < Pc(z) && c[j] == Jmp(Pc(z)) && !Delivers(c, j))
    && (forall j :: j in f ==> j < Pc(z) && c[j] == Jmp(target) && !Delivers(c, j))
  }

  /** luaK_patchlist and then any instruction: the end of `repeat ... until`, or a list closed here. */
  lemma PatchedResolves(z: Gen, f: seq<nat>, target: nat, i: Instr)
    requires GenWf(z) && AllHeld(z.code, f) && Apart(z.jpc, f)
    ensures Resolves(z, f, Emit(PatchTo(z, f, target), i).code, target)
  {
    var w := PatchTo(z, f, target);
    var c := Emit(w, i).code;
    hide NoLanding;
    forall j | 0 <= j < Pc(z)
      ensures PatchAt(z.code, c, j) && (0 < j && z.code[j - 1].TestSet? && (j in z.jpc || j in f) ==> !c[j - 1].TestSet?)
    {
      assert WfAt(z.code, j);
      assert j > 0 ==> WfAt(z.code, j - 1);
    }
    forall j | j in z.jpc || j in f ensures c[j] == Jmp(if j in f then target else Pc(z)) && !Delivers(c, j) {
      assert Held(z.code, j);
    }
  }

  /** A body of any instructions, then luaK_patchtohere and any instruction: the end of `if`. */
  lemma BodyResolves(z: Gen, f: seq<nat>, q: seq<Instr>, i: Instr)
    requires GenWf(z) && AllHeld(z.code, f) && Apart(z.jpc, f)
    ensures var w := EmitAll(z, q); Resolves(z, f, Emit(Here(w, f), i).code, Pc(w))
  {
    var w := EmitAll(z, q);
    var c := Emit(Here(w, f), i).code;
    hide NoLanding;
    forall j | 0 <= j < Pc(z)
      ensures PatchAt(z.code, c, j) && (0 < j && z.code[j - 1].TestSet? && (j in z.jpc || j in f) ==> !c[j - 1].TestSet?)
    {
      assert WfAt(z.code, j);
      assert j > 0 ==> WfAt(z.code, j - 1);
      assert w.code[j] == PatchedAt(z.code, z.jpc, Pc(z), None, Pc(z), j);
    }
    forall j | j in z.jpc || j in f ensures c[j] == Jmp(if j in f then Pc(w) else Pc(z)) && !Delivers(c, j) {
      assert Held(z.code, j);
    }
  }

  /** More code changes nothing of that. */
  lemma ResolvesStays(z: Gen, f: seq<nat>, c: seq<Instr>, c': seq<Instr>, target: nat)
    requires Resolves(z, f, c, target) && Patch(c, c')
    ensures Resolves(z, f, c', target)
  {
    forall j | 0 <= j < Pc(z) ensures PatchAt(z.code, c', j) { assert PatchAt(z.code, c, j) && PatchAt(c, c', j); }
    forall j | j in z.jpc || j in f ensures c'[j] == c[j] && !Delivers(c', j) {
      assert PatchAt(c, c', j);
      if j > 0 { assert PatchAt(c, c', j - 1); }
    }
  }

  /** The run is that of a jump to `d`, with registers `r'`. */
  ghost predicate ComesTo(e: Env, c: seq<Instr>, b: nat, r: Regs, d: nat, r': Regs) {
    exists j: nat :: j < |c| && c[j] == Jmp(d) && Run(e, c, b, r) == Run(e, c, j, r')
  }

  /** Wherever the false list is patched to, forward or back: on the right ways control jumps there
      exactly when the condition is false, and comes right behind it exactly when it is true; on
      all others it takes the other branch. */
  lemma ConditionPatched(e: Env, g: Gen, x: Exp, b: nat, r: Regs, c: seq<Instr>, target: nat)
    requires GenWf(g) && Start(g, b, r) && Scoped(x, g.nactvar) && CondExp(g, x).0.ks <= e.ks
    requires Arrives(g, Run(e, g.code, b, r))
    requires var (z, f) := CondExp(g, x); Resolves(z, f, c, target)
    ensures var (z, _) := CondExp(g, x); var o := Run(e, g.code, b, r); var r' := Run(e, z.code, b, r).regs;
      && Agree(o.regs, r', g.freereg)
      && (if IsFalse(Eval(e, x, o.regs)) == RightTurn(e, x, o.regs, Carried(g, o), g.ks) then ComesTo(e, c, b, r, target, r')
          else Run(e, c, b, r) == Run(e, c, Pc(z), r'))
  {
    var (z, f) := CondExp(g, x);
    ConditionRight(e, g, x, b, r);
    StartEntry(z, b, r);
    var o' := Run(e, z.code, b, r);
    assert Wf(z.code);
    hide GenWf, Start, CondExp, Expr, Eval, WayOf, ShapeOf, Wf, Carried, Patch;
    RunPatch(e, z.code, c, b, r);
  }

  /** The exception: luaK_jump right behind luaK_patchtohere takes the list along instead. When the
      list it makes is patched as a value, the jumps of `f` go where that jump goes if and only if
      none of them has a TESTSET; those that have one go with its register to `vtarget`. */
  lemma JumpTakesAlong(z: Gen, f: seq<nat>, reg: nat, vtarget: nat, dtarget: nat)
    requires AllHeld(z.code, f) && vtarget != dtarget
    ensures var (y, q) := Jump(Here(z, f)); var c := PatchList(y.code, q, vtarget, Some(reg), dtarget);
      && c[Pc(z)] == Jmp(if Delivers(y.code, Pc(z)) then vtarget else dtarget)
      && ((forall j :: j in f ==> j < |c| && c[j] == Jmp(dtarget)) <==> (forall j :: j in f ==> !Delivers(z.code, j)))
  {
    var (y, q) := Jump(Here(z, f));
    var c := PatchList(y.code, q, vtarget, Some(reg), dtarget);
    assert q[0] == Pc(z);
    forall j | j in f ensures j < |c| && c[j] == Jmp(if Delivers(z.code, j) then vtarget else dtarget) {
      assert Held(z.code, j) && j in q;
    }
  }

  lemma HereStart(z: Gen, f: seq<nat>, b: nat, r: Regs)
    requires GenWf(z) && AllHeld(z.code, f) && Start(z, b, r)
    ensures GenWf(Here(z, f)) && Start(Here(z, f), b, r)
  {}

  lemma TurnedHere(z: Gen, f: seq<nat>, o: Outcome, w: Way)
    requires Turned(z, f, o, w)
    ensures Arrives(Here(z, f), o) && Carried(Here(z, f), o) == w.held
  {}

  /** `if c then end` and the value of `x` behind it. Nothing is emitted between the two, so the
      false list of `c` is still in `jpc`, with the registers it delivers, when the code of `x` is
      generated: the value is right exactly on the ways that are right with these. */
  lemma ValueAfterIf(e: Env, g: Gen, c: Exp, x: Exp, reg: nat, b: nat, r: Regs)
    requires GenWf(g) && Start(g, b, r) && Scoped(c, g.nactvar) && Scoped(x, g.nactvar)
    requires var (z, f) := CondExp(g, c); var (y, v) := Expr(Here(z, f), x); Exp2Reg(y, v, reg).ks <= e.ks
    requires Arrives(g, Run(e, g.code, b, r))
    ensures var (z, f) := CondExp(g, c); var (y, v) := Expr(Here(z, f), x);
      var o := Run(e, g.code, b, r); var o' := Run(e, Exp2Reg(y, v, reg).code, b, r);
      var held := CondWay(e, c, o.regs, Carried(g, o), g.ks).held;
      && Arrives(Exp2Reg(y, v, reg), o') && Get(o'.regs, reg) == Result(WayOf(e, x, o.regs, held, z.ks))
      && (Get(o'.regs, reg) == Eval(e, x, o.regs) <==> RightValue(e, x, o.regs, held, z.ks))
  {
    var (z, f) := CondExp(g, c);
    var (y, v) := Expr(Here(z, f), x);
    ExprKs(Here(z, f), x);
    Exp2RegKs(y, v, reg);
    hide GenWf, Start, CondExp, Expr, Exp2Reg, Eval, WayOf, ShapeOf, Run, Carried, Scoped, Turned;
    ConditionRight(e, g, c, b, r);
    HereStart(z, f, b, r);
    ValueInRegister(e, Here(z, f), x, reg, b, r);
    var o := Run(e, g.code, b, r);
    var o1 := Run(e, z.code, b, r);
    var w := CondWay(e, c, o.regs, Carried(g, o), g.ks);
    TurnedHere(z, f, o1, w);
    RegsFit(g);
    WayAgree(e, x, o.regs, o1.regs, w.held, z.ks, g.nactvar);
  }

  /** A function of two locals, at its beginning. */
  function TwoLocals(): Gen { Gen([], [], -1, 2, 2, []) }

  /** The code of `if x then end local a = true or z`. */
  function IfThenCode(): Gen {
    var (z, f) := CondExp(TwoLocals(), ELocal(0));
    var (y, v) := Expr(Here(z, f), EOr(ETrue, ELocal(1)));
    Exp2Reg(y, v, 2)
  }

  /** Its value is true, and what it leaves in `a` is true exactly when `x` is; else it is `x`. */
  lemma IfThenFault(e: Env, r: Regs)
    requires forall i :: 2 <= i ==> Get(r, i) == Nil
    ensures var o := Run(e, IfThenCode().code, 0, r);
      && Eval(e, EOr(ETrue, ELocal(1)), r) == Bool(true)
      && Arrives(IfThenCode(), o) && Get(o.regs, 2) == if IsFalse(Get(r, 0)) then Get(r, 0) else Bool(true)
  {
    hide CondExp, Expr, Exp2Reg, WayOf, ShapeOf, Eval, Run;
    var g := TwoLocals();
    var (z, f) := CondExp(g, ELocal(0));
    var x := EOr(ETrue, ELocal(1));
    TwoStart(e, r);
    IfThenConsts();
    ValueAfterIf(e, g, ELocal(0), x, 2, 0, r);
    IfThenWay(e, r);
  }

  lemma TwoStart(e: Env, r: Regs)
    requires forall i :: 2 <= i ==> Get(r, i) == Nil
    ensures var g := TwoLocals(); GenWf(g) && Start(g, 0, r) && Run(e, g.code, 0, r) == Fall(r) && Carried(g, Fall(r)) == None
  {}

  lemma IfThenConsts()
    ensures var (z, f) := CondExp(TwoLocals(), ELocal(0)); z.ks == [] && IfThenCode().ks == []
  {
    var g := TwoLocals();
    var x := EOr(ETrue, ELocal(1));
    var (z, f) := CondExp(g, ELocal(0));
    GoIfSeen(g, Desc(VLocal(0), [], []), true);
    assert z.ks == [] by { hide GoIfTrue; }
    hide CondExp, Expr, Exp2Reg;
    ShapeRight(Here(z, f), x);
    var (y, v) := Expr(Here(z, f), x);
    Exp2RegConsts(y, v, 2);
    assert ShapeOf(x, []) == Shape(VNonReloc(1), true, false, []);
  }

  lemma IfThenWay(e: Env, r: Regs)
    ensures var x := EOr(ETrue, ELocal(1)); var held := CondWay(e, ELocal(0), r, None, []).held;
      && Eval(e, x, r) == Bool(true)
      && Result(WayOf(e, x, r, held, [])) == (if IsFalse(Get(r, 0)) then Get(r, 0) else Bool(true))
  {
    LogicEval(e, ETrue, ELocal(1), false, r);
    LogicWay(e, ETrue, ELocal(1), false, r, CondWay(e, ELocal(0), r, None, []).held, []);
    assert WayOf(e, ELocal(0), r, None, []) == Ends(Get(r, 0), None) && ShapeOf(ELocal(0), []).k == VNonReloc(0);
    assert forall h :: WayOf(e, ETrue, r, h, []) == Ends(Bool(true), h);
    assert ShapeOf(ETrue, []).k == VTrue;
    hide WayOf, ShapeOf, Eval;
  }
}
