/** exp2reg: the value of an expression ends up in a register, whichever way control came. */
module CodeReg {
  import opened Wrappers
  import opened CodeVm
  import opened CodeRun
  import opened CodeGen
  import opened CodeInv
  import opened CodeDesc
  import opened CodeCond
  import opened CodeGo
  import opened CodeNeg

  /** The code ends with LOADBOOL false (skipping) and LOADBOOL true. */
  predicate EndsWithLoads(c: seq<Instr>, reg: nat) {
    |c| >= 2 && c[|c| - 2] == LoadBool(reg, false, true) && c[|c| - 1] == LoadBool(reg, true, false) && Entry(c, |c| - 2)
  }

  ghost predicate Patchable(c: seq<Instr>, f: seq<nat>, t: seq<nat>, reg: nat) {
    && Wf(c) && AllHeld(c, f) && AllHeld(c, t) && Apart(f, t)
    && (EndsWithLoads(c, reg) || (!NeedValue(c, f) && !NeedValue(c, t)))
  }

  /** What leaving through jump `o.at` of the `side` list delivers. */
  function Delivered(c: seq<Instr>, o: Outcome, side: bool): Value
    requires o.Exit?
  {
    if Delivers(c, o.at) then Get(o.regs, c[o.at - 1].b) else Bool(side)
  }

  /** Instruction `j` once both lists are patched. */
  function BothAt(c: seq<Instr>, f: seq<nat>, t: seq<nat>, reg: nat, j: nat): Instr
    requires j < |c|
  {
    if j in f then Jmp(if Delivers(c, j) then |c| else |c| - 2)
    else if j in t then Jmp(if Delivers(c, j) then |c| else |c| - 1)
    else if (j + 1 in f || j + 1 in t) && c[j].TestSet? then PatchedTest(c[j], Some(reg))
    else c[j]
  }

  lemma BothIs(c: seq<Instr>, f: seq<nat>, t: seq<nat>, reg: nat, j: nat)
    requires Patchable(c, f, t, reg) && j < |c|
    ensures |PatchBoth(c, f, t, reg)| == |c| && PatchBoth(c, f, t, reg)[j] == BothAt(c, f, t, reg, j)
  {
    hide NeedValue, Wf;
    var d := PatchList(c, f, |c|, Some(reg), |c| - 2);
    assert d[j] == PatchedAt(c, f, |c|, Some(reg), |c| - 2, j);
    assert j > 0 ==> d[j - 1] == PatchedAt(c, f, |c|, Some(reg), |c| - 2, j - 1);
    assert j in t ==> Held(c, j);
    assert j > 0 && c[j - 1].TestSet? ==> j - 1 !in f;
  }

  lemma BothPatch(c: seq<Instr>, f: seq<nat>, t: seq<nat>, reg: nat)
    requires Patchable(c, f, t, reg)
    ensures Patch(c, PatchBoth(c, f, t, reg))
  {
    hide NeedValue;
    forall j | 0 <= j < |c| ensures PatchAt(c, PatchBoth(c, f, t, reg), j) {
      BothIs(c, f, t, reg, j);
      assert WfAt(c, j);
    }
  }

  /** Where a patched jump of either list leads, and with what in the register. */
  lemma LandBoth(e: Env, c: seq<Instr>, f: seq<nat>, t: seq<nat>, reg: nat, o: Outcome)
    requires Patchable(c, f, t, reg) && o.Exit? && (o.at in f || o.at in t)
    ensures var c' := PatchBoth(c, f, t, reg); var o' := Run(e, c', o.at, Landing(c', o.at, o.regs));
      o'.Fall? && Assigned(o.regs, o'.regs, reg, Delivered(c, o, o.at in t))
  {
    var c' := PatchBoth(c, f, t, reg);
    var j := o.at;
    assert Held(c, j);
    BothIs(c, f, t, reg, j);
    if j > 0 { BothIs(c, f, t, reg, j - 1); }
    if Delivers(c, j) {
      RunEnd(e, c', Landing(c', j, o.regs));
    } else {
      assert EndsWithLoads(c, reg);
      LoadsRun(e, c, f, t, reg, o.regs);
    }
  }

  lemma LoadsRun(e: Env, c: seq<Instr>, f: seq<nat>, t: seq<nat>, reg: nat, r: Regs)
    requires Patchable(c, f, t, reg) && EndsWithLoads(c, reg)
    ensures var c' := PatchBoth(c, f, t, reg);
      && Run(e, c', |c| - 2, r) == Fall(r[reg := Bool(false)]) && Run(e, c', |c| - 1, r) == Fall(r[reg := Bool(true)])
  {
    hide Wf, NeedValue;
    var c' := PatchBoth(c, f, t, reg);
    BothIs(c, f, t, reg, |c| - 2);
    BothIs(c, f, t, reg, |c| - 1);
    RunEnd(e, c', r[reg := Bool(false)]);
    RunEnd(e, c', r[reg := Bool(true)]);
  }

  /** All ways through the expression, once its lists are patched. */
  lemma BothRun(e: Env, c: seq<Instr>, f: seq<nat>, t: seq<nat>, reg: nat, b: nat, r: Regs)
    requires Patchable(c, f, t, reg) && Entry(c, b)
    ensures var o := Run(e, c, b, r); var o' := Run(e, PatchBoth(c, f, t, reg), b, r);
      if o.Exit? && (o.at in f || o.at in t) then o'.Fall? && Assigned(o.regs, o'.regs, reg, Delivered(c, o, o.at in t))
      else o' == o
  {
    var c' := PatchBoth(c, f, t, reg);
    var o := Run(e, c, b, r);
    BothPatch(c, f, t, reg);
    RunPatch(e, c, c', b, r);
    ExitHeld(e, c, b, r);
    if o.Fall? { RunEnd(e, c', o.regs); }
    else if o.at in f || o.at in t { LandBoth(e, c, f, t, reg, o); }
    else { LeftHeld(e, c, f, t, reg, o); }
  }

  lemma LeftHeld(e: Env, c: seq<Instr>, f: seq<nat>, t: seq<nat>, reg: nat, o: Outcome)
    requires Patchable(c, f, t, reg) && o.Exit? && Held(c, o.at) && o.at !in f && o.at !in t
    ensures var c' := PatchBoth(c, f, t, reg); Run(e, c', o.at, Landing(c', o.at, o.regs)) == o
  {
    BothIs(c, f, t, reg, o.at);
    if o.at > 0 {
      BothIs(c, f, t, reg, o.at - 1);
      assert WfAt(c, o.at - 1);
    }
  }

  lemma BothWfAt(c: seq<Instr>, f: seq<nat>, t: seq<nat>, reg: nat, j: nat)
    requires Patchable(c, f, t, reg) && j < |c|
    ensures var c' := PatchBoth(c, f, t, reg); |c'| == |c| && WfAt(c', j)
  {
    hide NeedValue;
    var c' := PatchBoth(c, f, t, reg);
    BothIs(c, f, t, reg, j);
    assert WfAt(c, j);
    if j + 1 < |c| { BothIs(c, f, t, reg, j + 1); }
    if j in f || j in t { NeedsLoads(c, f, t, reg, j); }
    BothEntry(c, f, t, reg, |c|) by { EndNoTest(c); }
    if j in f || j in t {
      if !Delivers(c, j) {
        BothEntry(c, f, t, reg, |c| - 2);
        BothEntry(c, f, t, reg, |c| - 1);
      }
    } else if c[j].Jmp? && c[j].dest != HOLD { BothEntry(c, f, t, reg, c[j].dest); }
    else if c[j].LoadBool? && c[j].skip { BothEntry(c, f, t, reg, j + 2); }
  }

  lemma NeedsLoads(c: seq<Instr>, f: seq<nat>, t: seq<nat>, reg: nat, j: nat)
    requires Patchable(c, f, t, reg) && (j in f || j in t)
    ensures Delivers(c, j) || EndsWithLoads(c, reg)
  {
    hide Wf, AllHeld, Apart;
  }

  lemma BothEntry(c: seq<Instr>, f: seq<nat>, t: seq<nat>, reg: nat, d: nat)
    requires Patchable(c, f, t, reg) && Entry(c, d)
    ensures Entry(PatchBoth(c, f, t, reg), d)
  {
    hide Wf, NeedValue;
    if d > 0 { BothIs(c, f, t, reg, d - 1); }
  }

  lemma JumpWf(g: Gen)
    requires GenWf(g)
    ensures var (y, q) := Jump(g); GenWf(y) && AllHeld(y.code, q) && y.jpc == [] && Pc(y) == Pc(g) + 1
    ensures var (y, q) := Jump(g); forall j: nat :: Held(g.code, j) && j !in g.jpc ==> SameControl(g, y, j) && j !in q
    ensures forall b :: Entry(g.code, b) ==> Entry(Jump(g).0.code, b)
  {
    JumpBranch(g);
    hide Wf;
  }

  /** The LOADBOOLs have been emitted behind code with nothing held in `jpc`. */
  lemma LoadsEmitted(e: Env, y: Gen, reg: nat, b: nat, r: Regs)
    requires GenWf(y) && y.jpc == [] && Entry(y.code, b)
    ensures var z := EmitAll(y, [LoadBool(reg, false, true), LoadBool(reg, true, false)]);
      var o := Run(e, y.code, b, r); var oz := Run(e, z.code, b, r);
      && GenWf(z.(lasttarget := Pc(z))) && EndsWithLoads(z.code, reg) && Entry(z.code, b) && Kept(y, z)
      && oz == if o.Fall? then Fall(o.regs[reg := Bool(false)]) else o
  {
    hide NoLanding;
    var q := [LoadBool(reg, false, true), LoadBool(reg, true, false)];
    var z := EmitAll(y, q);
    EmitRun(e, y, q, b, r);
    EmitKept(y, q);
    assert Block(q) by { LoadsBlock(reg); }
    forall j | 0 <= j < Pc(z) ensures WfAt(z.code, j) { EmitWfAt(y, q, j); }
    EndNoTest(y.code);
    EntryKept(y, q, Pc(y));
    var o := Run(e, y.code, b, r);
    assert z.code[Pc(y)] == q[0] && Pc(z) == Pc(y) + 2;
    RunEnd(e, z.code, o.regs[reg := Bool(false)]);
  }

  lemma LoadsBlock(reg: nat)
    ensures Block([LoadBool(reg, false, true), LoadBool(reg, true, false)])
  {}

  lemma HoldThere(y: Gen, q: seq<nat>)
    requires GenWf(y.(lasttarget := Pc(y))) && AllHeld(y.code, q) && y.jpc == []
    ensures GenWf(Here(y, q)) && Here(y, q).jpc == q
  {}

  /** Behind the value itself, a jump over the two LOADBOOLs. */
  lemma LoadsJump(e: Env, y: Gen, reg: nat, b: nat, r: Regs)
    requires GenWf(y) && Entry(y.code, b)
    ensures var z := Loads(y, true, reg); var o := Run(e, y.code, b, r); var oz := Run(e, z.code, b, r);
      && GenWf(z) && z.lasttarget == Pc(z) && EndsWithLoads(z.code, reg) && Entry(z.code, b) && Kept(y, z)
      && (if Arrives(y, o) then Arrives(z, oz) && oz.regs == o.regs else oz == o)
  {
    var (y1, fj) := Jump(y);
    var z1 := EmitAll(y1, [LoadBool(reg, false, true), LoadBool(reg, true, false)]);
    JumpWf(y);
    JumpRun(e, y, b, r);
    hide GenWf, EmitAll, Run, Jump;
    LoadsEmitted(e, y1, reg, b, r);
    assert AllHeld(z1.code, fj) by { forall j | j in fj ensures Held(z1.code, j) { assert SameControl(y1, z1, j); } }
    EmitJpc(y1, reg);
    HoldThere(z1, fj);
    forall j: nat | Held(y.code, j) && j !in y.jpc ensures SameControl(y, Here(z1, fj), j) {
      assert SameControl(y, y1, j) && SameControl(y1, z1, j);
    }
    JumpList(y);
  }

  lemma EmitJpc(y: Gen, reg: nat)
    ensures EmitAll(y, [LoadBool(reg, false, true), LoadBool(reg, true, false)]).jpc == []
  {}

  lemma JumpList(y: Gen)
    ensures Jump(y).1 == [Pc(y)] + y.jpc
  {}

  lemma LoadsFall(e: Env, y: Gen, reg: nat, b: nat, r: Regs)
    requires GenWf(y) && y.jpc == [] && Entry(y.code, b)
    ensures var z := Loads(y, false, reg); var o := Run(e, y.code, b, r); var oz := Run(e, z.code, b, r);
      && GenWf(z) && z.lasttarget == Pc(z) && z.jpc == [] && EndsWithLoads(z.code, reg) && Entry(z.code, b) && Kept(y, z)
      && oz == if o.Fall? then Fall(o.regs[reg := Bool(false)]) else o
  {
    var z1 := EmitAll(y, [LoadBool(reg, false, true), LoadBool(reg, true, false)]);
    LoadsEmitted(e, y, reg, b, r);
    EmitJpc(y, reg);
    hide GenWf, EmitAll, Run;
    HoldThere(z1, []);
    forall j: nat | Held(y.code, j) && j !in y.jpc ensures SameControl(y, Here(z1, []), j) {
      assert SameControl(y, z1, j);
    }
  }

  function TrueList(v: Desc): seq<nat> { if v.k.VJmp? then v.t + [v.k.pc] else v.t }

  /** The state before the lists are patched. */
  function BeforePatch(g: Gen, v: Desc, reg: nat): Gen {
    var y := ToReg(g, v, reg);
    Label(if NeedValue(y.code, TrueList(v)) || NeedValue(y.code, v.f) then Loads(y, !v.k.VJmp?, reg) else y)
  }

  lemma Exp2RegIs(g: Gen, v: Desc, reg: nat)
    ensures var z := BeforePatch(g, v, reg);
      Exp2Reg(g, v, reg) ==
        if TrueList(v) == [] && v.f == [] then ToReg(g, v, reg) else z.(code := PatchBoth(z.code, v.f, TrueList(v), reg))
  {
    hide ToReg, NeedValue, Loads, PatchBoth;
  }

  /** Where control is when the lists are about to be patched. */
  ghost predicate Prepared(e: Env, g: Gen, v: Desc, o: Outcome, z: Gen, oz: Outcome, reg: nat) {
    if v.k.VJmp? then oz == (if o.Fall? then Fall(o.regs[reg := Bool(false)]) else o)
    else if Reached(g, v, o) then Arrives(z, oz) && Assigned(o.regs, oz.regs, reg, MainValue(e, g, v, o))
    else oz == o
  }

  ghost predicate PreparedWf(g: Gen, v: Desc, z: Gen, reg: nat) {
    && GenWf(z) && z.lasttarget == Pc(z) && Patchable(z.code, v.f, TrueList(v), reg)
    && Apart(z.jpc, v.f) && Apart(z.jpc, TrueList(v)) && Pc(z) >= |Base(g, v)|
    && z.freereg == g.freereg && z.nactvar == g.nactvar && g.ks <= z.ks
    && (forall j: nat :: Held(g.code, j) && j !in g.jpc ==> SameControl(g, z, j))
  }

  lemma KeptLists(g: Gen, v: Desc, z: Gen, reg: nat)
    requires DescWf(g, v) && Kept(g, z) && GenWf(z) && z.lasttarget == Pc(z) && Pc(z) >= Pc(g)
    requires EndsWithLoads(z.code, reg) || (!NeedValue(z.code, v.f) && !NeedValue(z.code, TrueList(v)))
    requires z.freereg == g.freereg && z.nactvar == g.nactvar && g.ks <= z.ks
    ensures PreparedWf(g, v, z, reg)
  {
    hide Wf, NoLanding, NeedValue;
    forall j | j in v.f || j in TrueList(v) ensures Held(z.code, j) && j !in z.jpc { assert SameControl(g, z, j); }
  }

  lemma PrepareCompare(e: Env, g: Gen, v: Desc, reg: nat, b: nat, r: Regs)
    requires GenWf(g) && DescWf(g, v) && v.k.VJmp? && Entry(g.code, b)
    ensures var z := BeforePatch(g, v, reg);
      && PreparedWf(g, v, z, reg) && Entry(z.code, b)
      && Prepared(e, g, v, Run(e, g.code, b, r), z, Run(e, z.code, b, r), reg)
  {
    var z := Loads(g, false, reg);
    assert v.k.pc in TrueList(v) && !Delivers(g.code, v.k.pc);
    assert NeedValue(g.code, TrueList(v));
    LoadsFall(e, g, reg, b, r);
    LoadsSize(g, false, reg);
    assert BeforePatch(g, v, reg) == z by { hide GenWf, DescWf, Loads, Run; }
    hide GenWf, DescWf, Loads, Run;
    KeptLists(g, v, z, reg);
  }

  lemma LoadsSize(g: Gen, jump: bool, reg: nat)
    ensures var z := Loads(g, jump, reg);
      && Pc(z) >= Pc(g) && z.freereg == g.freereg && z.nactvar == g.nactvar && z.ks == g.ks
      && z.lasttarget == Pc(z)
  {
    hide PatchList;
  }

  lemma PrepareLoaded(e: Env, g: Gen, v: Desc, reg: nat, b: nat, r: Regs)
    requires GenWf(g) && DescWf(g, v) && !v.k.VJmp? && Start(g, b, r) && Entry(Base(g, v), b)
    requires ToReg(g, v, reg).ks <= e.ks
    ensures var z := BeforePatch(g, v, reg);
      && PreparedWf(g, v, z, reg) && Entry(z.code, b)
      && Prepared(e, g, v, Run(e, Body(g, v), b, r), z, Run(e, z.code, b, r), reg)
  {
    var y := ToReg(g, v, reg);
    ToRegRun(e, g, v, reg, b, r);
    LoadsJump(e, y, reg, b, r);
    LoadsSize(y, true, reg);
    hide GenWf, DescWf, Loads, Run, ToReg, Kept, KindValue, NeedValue, Entry, Base, Body;
    var z := BeforePatch(g, v, reg);
    if NeedValue(y.code, TrueList(v)) || NeedValue(y.code, v.f) {
      assert z == Loads(y, true, reg);
      KeptTrans(g, y, z);
      PreparedChain(e, g, v, Run(e, Body(g, v), b, r), y, Run(e, y.code, b, r), z, Run(e, z.code, b, r), reg, b, r);
    } else {
      HereAgain(y);
    }
    PreparedSize(g, v, reg);
    KeptLists(g, v, z, reg) by { LabelKept(g, y); }
  }

  lemma HereAgain(y: Gen)
    requires GenWf(y)
    ensures GenWf(Label(y))
  {}

  lemma LabelKept(g: Gen, y: Gen)
    requires Kept(g, y)
    ensures Kept(g, Label(y))
  {
    forall j: nat | Held(g.code, j) && j !in g.jpc ensures SameControl(g, Label(y), j) { assert SameControl(g, y, j); }
  }

  lemma PreparedSize(g: Gen, v: Desc, reg: nat)
    requires !v.k.VJmp?
    ensures var z := BeforePatch(g, v, reg); Pc(z) >= Pc(ToReg(g, v, reg)) && z.lasttarget == Pc(z)
  {
    LoadsSize(ToReg(g, v, reg), true, reg);
    hide Loads, ToReg, NeedValue;
  }

  lemma PreparedChain(e: Env, g: Gen, v: Desc, o: Outcome, y: Gen, oy: Outcome, z: Gen, oz: Outcome, reg: nat, b: nat, r: Regs)
    requires !v.k.VJmp? && Loaded(g, v, o, y, oy, reg, MainValue(e, g, v, o))
    requires if Arrives(y, oy) then Arrives(z, oz) && oz.regs == oy.regs else oz == oy
    requires !Reached(g, v, o) ==> !Arrives(y, oy)
    ensures Prepared(e, g, v, o, z, oz, reg)
  {
    hide KindValue;
  }

  /** Control arrives behind the expression, with its value in `reg` and no other register changed:
      the value itself, or what the jump it left through delivers. */
  ghost predicate InRegister(e: Env, g: Gen, v: Desc, o: Outcome, g': Gen, o': Outcome, reg: nat) {
    if Reached(g, v, o) then Arrives(g', o') && Assigned(o.regs, o'.regs, reg, MainValue(e, g, v, o))
    else if o.at in v.t || o.at in v.f then
      Arrives(g', o') && Assigned(o.regs, o'.regs, reg, Delivered(g.code, o, o.at in v.t))
    else o' == o
  }

  ghost predicate RegWf(g: Gen, v: Desc, g': Gen) {
    && GenWf(g') && g'.freereg == g.freereg && g'.nactvar == g.nactvar && g.ks <= g'.ks
    && Pc(g') >= |Base(g, v)|
    && (forall j: nat :: Held(g.code, j) && j !in g.jpc && v.k != VJmp(j) && j !in v.t && j !in v.f ==> SameControl(g, g', j))
  }

  lemma PatchedWf(g: Gen, v: Desc, z: Gen, reg: nat)
    requires PreparedWf(g, v, z, reg)
    ensures var y := z.(code := PatchBoth(z.code, v.f, TrueList(v), reg)); GenWf(y) && RegWf(g, v, y)
  {
    hide NeedValue, NoLanding, Wf, Apart;
    var t := TrueList(v);
    var y := z.(code := PatchBoth(z.code, v.f, t, reg));
    forall j | 0 <= j < Pc(z) ensures |y.code| == Pc(z) && y.code[j] == BothAt(z.code, v.f, t, reg, j) { BothIs(z.code, v.f, t, reg, j); }
    assert |y.code| == |z.code|;
    assert Wf(y.code) by { PatchedAllWf(z.code, v.f, t, reg); }
    assert AllHeld(y.code, z.jpc) by { forall j | j in z.jpc ensures Held(y.code, j) { NotIn(z.jpc, v.f, t, j); } }
    forall j: nat | Held(g.code, j) && j !in g.jpc && v.k != VJmp(j) && j !in v.t && j !in v.f ensures SameControl(g, y, j) {
      assert SameControl(g, z, j);
    }
  }

  lemma NotIn(p: seq<nat>, f: seq<nat>, t: seq<nat>, j: nat)
    requires Apart(p, f) && Apart(p, t) && j in p
    ensures j !in f && j !in t
  {}

  lemma PatchedAllWf(c: seq<Instr>, f: seq<nat>, t: seq<nat>, reg: nat)
    requires Patchable(c, f, t, reg) && |PatchBoth(c, f, t, reg)| == |c|
    ensures Wf(PatchBoth(c, f, t, reg))
  {
    hide WfAt, BothAt, PatchBoth;
    var c' := PatchBoth(c, f, t, reg);
    forall j | 0 <= j < |c'| ensures WfAt(c', j) { BothWfAt(c, f, t, reg, j); }
  }

  lemma PatchedValue(e: Env, g: Gen, v: Desc, o: Outcome, z: Gen, oz: Outcome, y: Gen, o': Outcome, reg: nat)
    requires PreparedWf(g, v, z, reg) && DescWf(g, v) && Prepared(e, g, v, o, z, oz, reg) && y == z.(code := y.code)
    requires o.Exit? && !Reached(g, v, o) ==> Held(g.code, o.at) && o.at !in g.jpc
    requires if oz.Exit? && (oz.at in v.f || oz.at in TrueList(v))
      then o'.Fall? && Assigned(oz.regs, o'.regs, reg, Delivered(z.code, oz, oz.at in TrueList(v))) else o' == oz
    ensures InRegister(e, g, v, o, y, o', reg)
  {
    hide GenWf, Patchable, KindValue;
    if v.k.VJmp? {
      assert SameControl(g, z, v.k.pc);
      assert v.k.pc in TrueList(v);
      if o.Exit? && o.at != v.k.pc { assert SameControl(g, z, o.at); }
    } else if !Reached(g, v, o) {
      assert o.Exit?;
      assert SameControl(g, z, o.at);
    }
  }

  lemma BodyExit(e: Env, g: Gen, v: Desc, b: nat, r: Regs)
    requires GenWf(g) && DescWf(g, v)
    ensures var o := Run(e, Body(g, v), b, r); !Reached(g, v, o) ==> o.Exit? && Held(g.code, o.at) && o.at !in g.jpc
  {
    BodyHeld(g, v);
    ExitHeld(e, Body(g, v), b, r);
  }

  /** exp2reg. */
  lemma Exp2RegRun(e: Env, g: Gen, v: Desc, reg: nat, b: nat, r: Regs)
    requires GenWf(g) && DescWf(g, v) && Start(g, b, r) && Entry(Base(g, v), b) && Exp2Reg(g, v, reg).ks <= e.ks
    ensures var g' := Exp2Reg(g, v, reg);
      && RegWf(g, v, g') && Entry(g'.code, b)
      && InRegister(e, g, v, Run(e, Body(g, v), b, r), g', Run(e, g'.code, b, r), reg)
  {
    var z := BeforePatch(g, v, reg);
    var o := Run(e, Body(g, v), b, r);
    Exp2RegIs(g, v, reg);
    SameConsts(g, v, reg);
    BodyExit(e, g, v, b, r);
    StartEntry(g, b, r);
    hide GenWf, DescWf, Start, Run, ToReg, Exp2Reg, BeforePatch, KindValue, Kept, PatchBoth, Prepared, PreparedWf, InRegister, RegWf, Entry;
    if TrueList(v) == [] && v.f == [] {
      ToRegRun(e, g, v, reg, b, r);
      NoLists(e, g, v, reg, o, b, r);
    } else {
      if v.k.VJmp? { PrepareCompare(e, g, v, reg, b, r); } else { PrepareLoaded(e, g, v, reg, b, r); }
      var y := z.(code := PatchBoth(z.code, v.f, TrueList(v), reg));
      PatchedWf(g, v, z, reg);
      ReadyToPatch(g, v, z, reg);
      BothRun(e, z.code, v.f, TrueList(v), reg, b, r);
      BothEntry(z.code, v.f, TrueList(v), reg, b);
      PatchedValue(e, g, v, o, z, Run(e, z.code, b, r), y, Run(e, y.code, b, r), reg);
    }
  }

  lemma ReadyToPatch(g: Gen, v: Desc, z: Gen, reg: nat)
    requires PreparedWf(g, v, z, reg)
    ensures Patchable(z.code, v.f, TrueList(v), reg)
  {}

  lemma SameConsts(g: Gen, v: Desc, reg: nat)
    ensures Exp2Reg(g, v, reg).ks == ToReg(g, v, reg).ks
  {
    hide PatchList, NeedValue, ToReg, PatchBoth;
  }

  lemma NoLists(e: Env, g: Gen, v: Desc, reg: nat, o: Outcome, b: nat, r: Regs)
    requires v.t == [] && v.f == [] && !v.k.VJmp? && o == Run(e, Body(g, v), b, r) && ToRegGood(e, g, v, reg, b, r)
    requires !Reached(g, v, o) ==> o.Exit?
    ensures var y := ToReg(g, v, reg); RegWf(g, v, y) && Entry(y.code, b) && InRegister(e, g, v, o, y, Run(e, y.code, b, r), reg)
  {
    hide GenWf, Run, ToReg, KindValue;
  }

  /** A value in a register leaves a state from which more can be generated. */
  lemma Exp2RegStart(g: Gen, v: Desc, reg: nat, b: nat, r: Regs)
    requires GenWf(g) && DescWf(g, v) && Start(g, b, r) && Entry(Base(g, v), b) && Entry(Exp2Reg(g, v, reg).code, b)
    ensures Start(Exp2Reg(g, v, reg), b, r)
  {
    Exp2RegIs(g, v, reg);
    var y := Exp2Reg(g, v, reg);
    if TrueList(v) == [] && v.f == [] {
      ToRegStart(g, v, reg, b, r);
    } else {
      LastLabel(g, v, reg);
      assert y.lasttarget == Pc(y) && Pc(y) >= Pc(g) && y.nactvar == g.nactvar;
      hide GenWf, DescWf, Exp2Reg;
    }
  }

  lemma LastLabel(g: Gen, v: Desc, reg: nat)
    requires GenWf(g) && DescWf(g, v) && !(TrueList(v) == [] && v.f == [])
    ensures var y := Exp2Reg(g, v, reg); y.lasttarget == Pc(y) && Pc(y) >= Pc(g) && y.nactvar == g.nactvar
  {
    Exp2RegIs(g, v, reg);
    ToRegSize(g, v, reg);
    LoadsSize(ToReg(g, v, reg), !v.k.VJmp?, reg);
    hide GenWf, DescWf, ToReg, Loads, NeedValue;
  }

  lemma ToRegSize(g: Gen, v: Desc, reg: nat)
    ensures var y := ToReg(g, v, reg); Pc(y) >= Pc(g) && y.nactvar == g.nactvar
  {
    hide PatchList, IndexOf;
  }

  lemma ToRegStart(g: Gen, v: Desc, reg: nat, b: nat, r: Regs)
    requires DescWf(g, v) && Start(g, b, r) && Entry(Base(g, v), b) && Entry(ToReg(g, v, reg).code, b)
    ensures Start(ToReg(g, v, reg), b, r)
  {
    hide PatchList, IndexOf, AllHeld, Wf, NoLanding, Apart;
  }
}
