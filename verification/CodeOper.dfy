/** Operands of comparisons (luaK_exp2RK) and the comparison itself (codecomp). */
module CodeOper {
  import opened Wrappers
  import opened CodeVm
  import opened CodeGen
  import opened CodeInv
  import opened CodeDesc
  import opened CodeCond
  import opened CodeGo
  import opened CodeReg
  import opened CodeSource

  /** The operand is settled: a constant, a local, or the register reserved for it. */
  ghost predicate OperandWf(g: Gen, v: Desc, g': Gen, d: Desc, rk: RK) {
    && RegWf(g, v, g'.(freereg := g.freereg)) && g'.nactvar == g.nactvar && g'.freereg >= g.freereg
    && d.t == [] && d.f == []
    && match rk
       case K(i) => d.k == VK(i) && i <= MAXINDEXRK && g'.freereg == g.freereg
       case R(i) => d.k == VNonReloc(i) && (if i < g.nactvar then g'.freereg == g.freereg else i == g.freereg && g'.freereg == i + 1)
  }

  /** Control arrives with the value of the expression as the operand. */
  ghost predicate OperandIs(e: Env, g: Gen, v: Desc, o: Outcome, g': Gen, o': Outcome, rk: RK) {
    if Reached(g, v, o) then
      && Arrives(g', o') && Agree(o.regs, o'.regs, g.freereg) && Operand(e, o'.regs, rk) == MainValue(e, g, v, o)
      && Carried(g', o') == (if Quiet(Seen(g, v)) then Carried(g, o) else None)
    else if o.at in v.t || o.at in v.f then
      && Arrives(g', o') && Agree(o.regs, o'.regs, g.freereg)
      && Operand(e, o'.regs, rk) == Delivered(g.code, o, o.at in v.t) && Carried(g', o') == None
    else o' == o
  }

  ghost predicate OperandGood(e: Env, g: Gen, v: Desc, b: nat, r: Regs, g': Gen, d: Desc, rk: RK) {
    && OperandWf(g, v, g', d, rk) && Start(g', b, r)
    && OperandIs(e, g, v, Run(e, Body(g, v), b, r), g', Run(e, g'.code, b, r), rk)
  }

  lemma Reserved(g: Gen, v: Desc, b: nat, r: Regs)
    requires GenWf(g) && DescWf(g, v) && Start(g, b, r)
    ensures GenWf(Reserve(g)) && DescWf(Reserve(g), v) && Start(Reserve(g), b, r)
    ensures Base(Reserve(g), v) == Base(g, v) && Body(Reserve(g), v) == Body(g, v)
  {}

  /** luaK_exp2nextreg. */
  lemma NextReg(e: Env, g: Gen, v: Desc, b: nat, r: Regs)
    requires GenWf(g) && DescWf(g, v) && Start(g, b, r) && Entry(Base(g, v), b) && Exp2NextReg(g, v).0.ks <= e.ks
    requires !Quiet(Seen(g, v))
    ensures var (g', d) := Exp2NextReg(g, v);
      d == InReg(g.freereg) && OperandGood(e, g, v, b, r, g', d, R(g.freereg))
  {
    Reserved(g, v, b, r);
    NextRegIs(g, v);
    var h := Reserve(g);
    var g' := Exp2Reg(h, v, g.freereg);
    assert g'.ks <= e.ks;
    StartEntry(g, b, r);
    hide GenWf, DescWf, Start, Run, Exp2Reg, Entry, InRegister, RegWf, OperandIs;
    Exp2RegRun(e, h, v, g.freereg, b, r);
    Exp2RegStart(h, v, g.freereg, b, r);
    NextRegWf(g, v, g');
    RegSilent(e, h, v, g.freereg, b, r, Run(e, g'.code, b, r)) by { FreshReg(g, v); }
    NextRegValue(e, g, v, Run(e, Body(g, v), b, r), g', Run(e, g'.code, b, r));
  }

  lemma FreshReg(g: Gen, v: Desc)
    requires GenWf(g) && DescWf(g, v)
    ensures v.k.VLocal? || v.k.VNonReloc? ==> v.k.reg != g.freereg
  {}

  lemma NextRegIs(g: Gen, v: Desc)
    requires GenWf(g) && DescWf(g, v)
    ensures Exp2NextReg(g, v) == (Exp2Reg(Reserve(g), v, g.freereg), InReg(g.freereg))
  {
    hide Exp2Reg, AllHeld, Wf, NoLanding, Apart;
  }

  lemma ToRegEmpties(g: Gen, v: Desc, reg: nat)
    requires GenWf(g) && DescWf(g, v) && (v.k.VLocal? || v.k.VNonReloc? ==> v.k.reg != reg)
    ensures ToReg(g, v, reg).jpc == []
  {
    hide Wf, NoLanding, PatchList, IndexOf, Apart;
  }

  lemma LoadsSilent(y: Gen, jump: bool, reg: nat, o: Outcome)
    requires y.jpc == [] && (Pc(y) > 0 ==> !TMode(y.code[Pc(y) - 1]))
    ensures Carried(Loads(y, jump, reg), o) == None
  {
    hide PatchList;
  }

  lemma PatchSilent(z: Gen, v: Desc, reg: nat, o: Outcome)
    requires Patchable(z.code, v.f, TrueList(v), reg) && Carried(z, o) == None
    ensures Carried(z.(code := PatchBoth(z.code, v.f, TrueList(v), reg)), o) == None
  {
    hide GenWf, NeedValue;
    if o.Exit? && 0 < o.at < Pc(z) { BothIs(z.code, v.f, TrueList(v), reg, o.at - 1); }
  }

  lemma CarriedNothing(y: Gen, o: Outcome)
    requires y.jpc == []
    ensures Carried(y, o) == None
  {}

  lemma LoadedEnd(e: Env, g: Gen, v: Desc, reg: nat, b: nat, r: Regs)
    requires GenWf(g) && DescWf(g, v) && Start(g, b, r) && Entry(Base(g, v), b) && ToReg(g, v, reg).ks <= e.ks
    ensures var y := ToReg(g, v, reg); Pc(y) > 0 ==> !TMode(y.code[Pc(y) - 1])
  {
    hide Run, KindValue, Kept, Loaded;
    if !v.k.VJmp? { ToRegRun(e, g, v, reg, b, r); }
    hide ToReg;
    EndNoTest(ToReg(g, v, reg).code);
  }

  /** With the value loaded into a fresh register no jump in `jpc` delivers a value. */
  lemma RegSilent(e: Env, g: Gen, v: Desc, reg: nat, b: nat, r: Regs, o: Outcome)
    requires GenWf(g) && DescWf(g, v) && Start(g, b, r) && Entry(Base(g, v), b) && Exp2Reg(g, v, reg).ks <= e.ks
    requires v.k.VLocal? || v.k.VNonReloc? ==> v.k.reg != reg
    ensures Carried(Exp2Reg(g, v, reg), o) == None
  {
    var y := ToReg(g, v, reg);
    var z := BeforePatch(g, v, reg);
    Exp2RegIs(g, v, reg);
    SameConsts(g, v, reg);
    StartEntry(g, b, r);
    ToRegEmpties(g, v, reg);
    LoadedEnd(e, g, v, reg, b, r);
    LoadsSilent(y, !v.k.VJmp?, reg, o);
    assert Carried(z, o) == None by { hide ToReg, Loads, NeedValue; }
    hide GenWf, DescWf, Start, Run, ToReg, Exp2Reg, BeforePatch, PatchBoth, Prepared, PreparedWf, Entry, Carried;
    if TrueList(v) == [] && v.f == [] {
      CarriedNothing(y, o);
    } else {
      if v.k.VJmp? { PrepareCompare(e, g, v, reg, b, r); } else { PrepareLoaded(e, g, v, reg, b, r); }
      ReadyToPatch(g, v, z, reg);
      PatchSilent(z, v, reg, o);
    }
  }

  lemma NextRegWf(g: Gen, v: Desc, g': Gen)
    requires RegWf(Reserve(g), v, g') && GenWf(g)
    ensures OperandWf(g, v, g', InReg(g.freereg), R(g.freereg))
  {
    hide Wf, NoLanding, AllHeld;
  }

  lemma NextRegValue(e: Env, g: Gen, v: Desc, o: Outcome, g': Gen, o': Outcome)
    requires InRegister(e, Reserve(g), v, o, g', o', g.freereg) && (!Reached(g, v, o) ==> o.Exit?)
    requires !Quiet(Seen(g, v)) && Carried(g', o') == None
    ensures OperandIs(e, g, v, o, g', o', R(g.freereg))
  {}

  predicate SmallConst(g: Gen, d: Desc) { Quiet(Seen(g, d)) && !d.k.VLocal? && !d.k.VNonReloc? }

  /** A constant that fits the operand. */
  lemma ConstOperand(e: Env, g: Gen, d: Desc, b: nat, r: Regs)
    requires GenWf(g) && DescWf(g, d) && Start(g, b, r) && SmallConst(g, d) && Exp2RK(g, d).0.ks <= e.ks && g.ks <= e.ks
    ensures var (g', u, rk) := Exp2RK(g, d); OperandGood(e, g, d, b, r, g', u, rk)
  {
    hide Wf, NoLanding, AllHeld, Run, IndexOf;
    if d.k.VK? {
    } else {
      AddKGives(e, g, ConstOf(d.k));
      AddKWf(g, ConstOf(d.k));
    }
  }

  lemma LocalOperand(e: Env, g: Gen, d: Desc, b: nat, r: Regs)
    requires GenWf(g) && DescWf(g, d) && Start(g, b, r) && d.t == [] && d.f == [] && d.k.VNonReloc?
    ensures var (g', u, rk) := Exp2RK(g, d); OperandGood(e, g, d, b, r, g', u, rk)
  {
    hide Wf, NoLanding, AllHeld, Run, Exp2Reg;
  }

  lemma NextRegOperand(g: Gen, d: Desc)
    requires GenWf(g) && DescWf(g, d) && !d.k.VLocal? && !SmallConst(g, d) && !(d.t == [] && d.f == [] && d.k.VNonReloc?)
    ensures var (g', u) := Exp2NextReg(g, d); Exp2RK(g, d) == (g', u, R(g.freereg)) && u == InReg(g.freereg)
  {
    NextRegIs(g, d);
    hide AllHeld, Wf, NoLanding, Exp2NextReg, Exp2Reg;
  }

  lemma SettledOperand(e: Env, g: Gen, d: Desc, b: nat, r: Regs)
    requires GenWf(g) && DescWf(g, d) && !d.k.VLocal? && Start(g, b, r) && Entry(Base(g, d), b)
    requires Exp2RK(g, d).0.ks <= e.ks && g.ks <= e.ks
    ensures var (g', u, rk) := Exp2RK(g, d); OperandGood(e, g, d, b, r, g', u, rk)
  {
    hide GenWf, DescWf, Start, OperandGood, Exp2RK, Entry;
    if SmallConst(g, d) { ConstOperand(e, g, d, b, r); }
    else if d.t == [] && d.f == [] && d.k.VNonReloc? { LocalOperand(e, g, d, b, r); }
    else {
      NextRegOperand(g, d);
      NextReg(e, g, d, b, r);
    }
  }

  /** luaK_exp2RK. */
  lemma OperandRun(e: Env, g: Gen, v: Desc, b: nat, r: Regs)
    requires GenWf(g) && DescWf(g, v) && Start(g, b, r) && Entry(Base(g, v), b)
    requires Exp2RK(g, v).0.ks <= e.ks && g.ks <= e.ks
    ensures var (g', d, rk) := Exp2RK(g, v); OperandGood(e, g, v, b, r, g', d, rk)
  {
    var u := Discharge(v);
    SameOperand(g, v);
    var (g', d, rk) := Exp2RK(g, u);
    hide GenWf, DescWf, Start, Exp2RK, Entry, OperandGood;
    SettledOperand(e, g, u, b, r);
    DischargedOperand(e, g, v, b, r, g', d, rk);
  }

  lemma SameOperand(g: Gen, v: Desc)
    requires DescWf(g, v)
    ensures Exp2RK(g, v) == Exp2RK(g, Discharge(v)) && DescWf(g, Discharge(v)) && Base(g, Discharge(v)) == Base(g, v)
  {
    hide AllHeld, Apart, Exp2NextReg, Exp2Reg;
  }

  lemma DischargedOperand(e: Env, g: Gen, v: Desc, b: nat, r: Regs, g': Gen, d: Desc, rk: RK)
    requires OperandGood(e, g, Discharge(v), b, r, g', d, rk)
    ensures OperandGood(e, g, v, b, r, g', d, rk)
  {
    hide GenWf, Start, Run;
  }

  /** A settled operand is not touched again. */
  lemma OperandAgain(g: Gen, d: Desc, rk: RK)
    requires d.t == [] && d.f == []
    requires match rk case K(i) => d.k == VK(i) && i <= MAXINDEXRK case R(i) => d.k == VNonReloc(i)
    ensures Exp2RK(g, d) == (g, d, rk)
  {
    hide Exp2NextReg, Exp2Reg;
  }
}
