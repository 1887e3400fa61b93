/** Jumping on a condition: luaK_goiftrue, luaK_goiffalse and what they rest on. */
module CodeCond {
  import opened Wrappers
  import opened CodeVm
  import opened CodeGen
  import opened CodeInv
  import opened CodeDesc

  /** A test and its pending jump have been emitted. */
  lemma TestRun(e: Env, g: Gen, i: Instr, b: nat, r: Regs)
    requires GenWf(g) && Entry(g.code, b) && TMode(i) && (i.TestSet? ==> i.dst.None?)
    ensures var o := Run(e, g.code, b, r); var y := CondJump(g, i); var o' := Run(e, y.code, b, r);
      && (if Arrives(g, o) then o' == (if Taken(e, i, o.regs) then Exit(Pc(g) + 1, o.regs) else Fall(o.regs)) else o' == o)
      && GenWf(y) && NoLanding(y.code) && Kept(g, y) && Pc(y) == Pc(g) + 2 && Held(y.code, Pc(g) + 1) && y.code[Pc(g)] == i && Entry(y.code, b)
  {
    hide Wf, NoLanding;
    EmitRun(e, g, [i, Jmp(HOLD)], b, r);
    EmitWf(g, [i, Jmp(HOLD)]);
    EmitKept(g, [i, Jmp(HOLD)]);
    var o := Run(e, g.code, b, r);
    var c' := CondJump(g, i).code;
    assert c'[Pc(g)] == i && c'[Pc(g) + 1] == Jmp(HOLD) && |c'| == Pc(g) + 2;
    RunEnd(e, c', o.regs);
  }

  /** The value an expression has where its end is reached. */
  function MainValue(e: Env, g: Gen, v: Desc, o: Outcome): Value {
    if v.k.VJmp? then Bool(o.Exit? && o.at == v.k.pc) else KindValue(e, g, v.k, o.regs)
  }

  /** The register that leaving through jump `o.at` delivers, if a TESTSET controls it. */
  function Tested(g: Gen, o: Outcome): Option<Value> {
    if o.Exit? && Delivers(g.code, o.at) then Some(Get(o.regs, g.code[o.at - 1].b)) else None
  }

  /** That of a run which comes to the end of the code on a jump held in `jpc`. */
  function Carried(g: Gen, o: Outcome): Option<Value> { if o.Exit? && o.at in g.jpc then Tested(g, o) else None }

  /** The new jump, at `j`, is taken exactly when the truth of `x` is `cond`. */
  ghost predicate JumpsOn(g: Gen, v: Desc, o: Outcome, y: Gen, o': Outcome, x: Value, cond: bool) {
    if Reached(g, v, o) then
      && Agree(o.regs, o'.regs, g.freereg)
      && (if !IsFalse(x) == cond then Pc(y) > 0 && o' == Exit(Pc(y) - 1, o'.regs) && Tested(y, o') == (if v.k.VReloc? then None else Some(x))
          else o'.Fall?)
    else o' == o
  }

  ghost predicate Grown(g: Gen, y: Gen) {
    && GenWf(y) && Kept(g, y) && y.freereg == g.freereg && y.nactvar == g.nactvar
    && g.ks <= y.ks && Pc(y) > Pc(g) && Held(y.code, Pc(y) - 1) && y.jpc == []
  }

  /** jumponcond on a NOT: the NOT goes, the test is inverted. */
  lemma JumpOnNot(e: Env, g: Gen, v: Desc, cond: bool, b: nat, r: Regs)
    requires GenWf(g) && DescWf(g, v) && v.k.VReloc? && Entry(Base(g, v), b)
    ensures var o := Run(e, Body(g, v), b, r); var y := JumpOnCond(g, v, cond);
      && JumpsOn(g, v, o, y, Run(e, y.code, b, r), MainValue(e, g, v, o), cond) && Grown(g, y) && Entry(y.code, b)
  {
    var z := g.(code := g.code[..Pc(g) - 1]);
    assert GenWf(z) && z.code == Base(g, v) by { hide Wf, NoLanding; CutHeld(g); }
    TestRun(e, z, Test(g.code[v.k.pc].b, !cond), b, r);
    var y := JumpOnCond(g, v, cond);
    CutKept(g, z, y);
    hide Wf, NoLanding, Run, Kept;
  }

  lemma CutHeld(g: Gen)
    requires GenWf(g) && Pc(g) > 0 && !g.code[Pc(g) - 1].Jmp?
    ensures AllHeld(g.code[..Pc(g) - 1], g.jpc)
  {}

  lemma CutKept(g: Gen, z: Gen, y: Gen)
    requires Pc(g) > 0 && z == g.(code := g.code[..Pc(g) - 1]) && !g.code[Pc(g) - 1].Jmp? && Kept(z, y)
    ensures Kept(g, y)
  {
    forall j: nat | Held(g.code, j) && j !in g.jpc ensures SameControl(g, y, j) { assert SameControl(z, y, j); }
  }

  /** Reserving a register changes nothing that emitting code looks at. */
  lemma EmitReserve(g: Gen, i: Instr)
    ensures Emit(Reserve(g), i) == Reserve(Emit(g, i))
  {
    hide PatchList;
  }

  lemma NilReserve(g: Gen, from: nat)
    ensures CodeNil(Reserve(g), from, 1) == Reserve(CodeNil(g, from, 1))
  {
    EmitReserve(g, LoadNil(from, from));
    hide EmitAll;
  }

  lemma NumReserve(g: Gen, v: Desc, reg: nat)
    requires v.k.VKNum?
    ensures ToReg(Reserve(g), v, reg) == Reserve(ToReg(g, v, reg))
  {
    var (y, i) := AddK(g, Num(v.k.nval));
    EmitReserve(y, LoadK(reg, i));
    hide EmitAll, IndexOf;
  }

  lemma ToRegReserve(g: Gen, v: Desc, reg: nat)
    ensures ToReg(Reserve(g), v, reg) == Reserve(ToReg(g, v, reg))
  {
    match v.k {
      case VNil => NilReserve(g, reg);
      case VTrue => EmitReserve(g, LoadBool(reg, true, false));
      case VFalse => EmitReserve(g, LoadBool(reg, false, false));
      case VK(i) => EmitReserve(g, LoadK(reg, i));
      case VKNum(_) => NumReserve(g, v, reg);
      case VNonReloc(i) => EmitReserve(g, Move(reg, i));
      case VLocal(i) => EmitReserve(g, Move(reg, i));
      case _ =>
    }
  }

  lemma LoadTemp(g: Gen, v: Desc)
    requires g.nactvar <= g.freereg
    ensures FreeExp(ToReg(Reserve(g), v, g.freereg), InReg(g.freereg)) == ToReg(g, v, g.freereg)
  {
    ToRegReserve(g, v, g.freereg);
    ToRegFrame(g, v, g.freereg);
    hide ToReg;
  }

  lemma ToRegFrame(g: Gen, v: Desc, reg: nat)
    ensures ToReg(g, v, reg).freereg == g.freereg && ToReg(g, v, reg).nactvar == g.nactvar
  {
    hide PatchList, IndexOf;
  }

  lemma JumpOnLoadedIs(g: Gen, v: Desc, cond: bool)
    requires g.nactvar <= g.freereg && !v.k.VReloc? && !v.k.VNonReloc?
    ensures JumpOnCond(g, v, cond) == CondJump(ToReg(g, v, g.freereg), TestSet(None, g.freereg, cond))
  {
    LoadTemp(g, v);
    hide ToReg, EmitAll;
  }

  /** The value is in register `reg` when the test on it runs. */
  lemma JumpsOnLoaded(g: Gen, v: Desc, o: Outcome, z: Gen, oz: Outcome, y: Gen, o': Outcome, reg: nat, x: Value, cond: bool)
    requires Loaded(g, v, o, z, oz, reg, x) && !v.k.VReloc? && reg >= g.freereg && GenWf(z) && (!Reached(g, v, o) ==> oz.Exit? && oz.at !in z.jpc)
    requires Pc(y) == Pc(z) + 2 && y.code[Pc(z)] == TestSet(None, reg, cond)
    requires if Arrives(z, oz)
      then o' == (if !IsFalse(Get(oz.regs, reg)) == cond then Exit(Pc(z) + 1, oz.regs) else Fall(oz.regs)) else o' == oz
    ensures JumpsOn(g, v, o, y, o', x, cond)
  {
    hide Wf, AllHeld;
  }

  lemma JumpOnLoaded(e: Env, g: Gen, v: Desc, cond: bool, b: nat, r: Regs)
    requires GenWf(g) && DescWf(g, v) && !v.k.VReloc? && !v.k.VJmp? && !v.k.VNonReloc? && Start(g, b, r)
    requires JumpOnCond(g, v, cond).ks <= e.ks
    ensures var o := Run(e, Body(g, v), b, r); var y := JumpOnCond(g, v, cond);
      && JumpsOn(g, v, o, y, Run(e, y.code, b, r), MainValue(e, g, v, o), cond) && Grown(g, y) && Entry(y.code, b)
  {
    JumpOnLoadedIs(g, v, cond);
    hide Wf, NoLanding, Run, Kept, ToReg, Loaded, JumpsOn, JumpOnCond, KindWf, Apart, KindValue;
    var z := ToReg(g, v, g.freereg);
    var y := CondJump(z, TestSet(None, g.freereg, cond));
    var o := Run(e, g.code, b, r);
    ToRegRun(e, g, v, g.freereg, b, r);
    TestRun(e, z, TestSet(None, g.freereg, cond), b, r);
    KeptTrans(g, z, y);
    NotArrived(e, g, v, b, r, z);
    JumpsOnLoaded(g, v, o, z, Run(e, z.code, b, r), y, Run(e, y.code, b, r), g.freereg, KindValue(e, g, v.k, o.regs), cond);
  }

  lemma NotArrived(e: Env, g: Gen, v: Desc, b: nat, r: Regs, z: Gen)
    requires GenWf(g) && !v.k.VReloc? && !v.k.VJmp? && Kept(g, z)
    ensures var o := Run(e, g.code, b, r); !Reached(g, v, o) ==> o.Exit? && o.at !in z.jpc
  {
    hide NoLanding;
    ExitHeld(e, g.code, b, r);
    var o := Run(e, g.code, b, r);
    if o.Exit? && o.at !in g.jpc { assert SameControl(g, z, o.at); }
  }

  lemma JumpOnLocal(e: Env, g: Gen, v: Desc, cond: bool, b: nat, r: Regs)
    requires GenWf(g) && DescWf(g, v) && v.k.VNonReloc? && Entry(g.code, b)
    ensures var o := Run(e, Body(g, v), b, r); var y := JumpOnCond(g, v, cond);
      && JumpsOn(g, v, o, y, Run(e, y.code, b, r), MainValue(e, g, v, o), cond) && Grown(g, y) && Entry(y.code, b)
  {
    hide Wf, NoLanding, Run, Kept;
    TestRun(e, g, TestSet(None, v.k.reg, cond), b, r);
  }
}
