/** codenot: negation by swapping the jump lists. */
module CodeNeg {
  import opened Wrappers
  import opened CodeVm
  import opened CodeRun
  import opened CodeGen
  import opened CodeSource
  import opened CodeInv
  import opened CodeDesc
  import opened CodeCond
  import opened CodeGo

  /** Where the end of `v` was reached, now `v'` has the opposite truth value. */
  ghost predicate Opposite(e: Env, g: Gen, v: Desc, o: Outcome, g': Gen, v': Desc, o': Outcome) {
    if Reached(g, v, o) then
      && Reached(g', v', o') && Agree(o.regs, o'.regs, g.freereg)
      && MainValue(e, g', v', o') == Bool(IsFalse(MainValue(e, g, v, o)))
      && Carried(g', o') == (if ConstKind(v.k) then Carried(g, o) else None)
    else o' == o && !Reached(g', v', o')
  }

  /** The description is well formed, with the same lists; other jumps are untouched. */
  ghost predicate NegWf(g: Gen, v: Desc, g': Gen, v': Desc) {
    && GenWf(g') && DescWf(g', v') && g'.freereg == g.freereg && g'.nactvar == g.nactvar && g.ks <= g'.ks
    && Pc(g') >= |Base(g, v)| && |Base(g', v')| >= |Base(g, v)|
    && (forall j: nat :: Held(g.code, j) && j !in g.jpc && v.k != VJmp(j) ==> SameControl(g, g', j) && v'.k != VJmp(j))
  }

  ghost predicate NegGood(e: Env, g: Gen, v: Desc, g': Gen, v': Desc, b: nat, r: Regs) {
    && NegWf(g, v, g', v') && Entry(Base(g', v'), b)
    && Opposite(e, g, v, Run(e, Body(g, v), b, r), g', v', Run(e, Body(g', v'), b, r))
  }

  lemma NegConst(e: Env, g: Gen, d: Desc, b: nat, r: Regs)
    requires GenWf(g) && DescWf(g, d) && Entry(g.code, b) && g.ks <= e.ks
    requires d.k.VNil? || d.k.VFalse? || d.k.VK? || d.k.VKNum? || d.k.VTrue?
    ensures NegGood(e, g, d, Negated(g, d).0, d.(k := Negated(g, d).1), b, r)
  {
    hide Wf, NoLanding, Run;
  }

  lemma NegCompare(e: Env, g: Gen, d: Desc, b: nat, r: Regs)
    requires GenWf(g) && DescWf(g, d) && d.k.VJmp? && Entry(Base(g, d), b)
    ensures NegGood(e, g, d, Negated(g, d).0, d, b, r)
  {
    var p := d.k.pc;
    var y := Invert(g, p);
    CompareRun(e, g, d, b, r);
    InvertWf(g, d);
    assert Base(y, d) == Base(g, d);
    hide Wf, NoLanding, Run, Entry;
  }

  /** A NOT on the register `reg` has been emitted. */
  lemma NotEmitted(e: Env, z: Gen, reg: nat, b: nat, r: Regs, t: seq<nat>, f: seq<nat>)
    requires GenWf(z) && Entry(z.code, b) && AllHeld(z.code, t) && AllHeld(z.code, f)
    requires Apart(z.jpc, t) && Apart(z.jpc, f) && Apart(t, f)
    ensures var y := Emit(z, Not(0, reg)); var u := Desc(VReloc(Pc(z)), t, f);
      var o := Run(e, z.code, b, r); var o' := Run(e, Body(y, u), b, r);
      && GenWf(y) && DescWf(y, u) && Kept(z, y) && Entry(Base(y, u), b)
      && (if Arrives(z, o) then o' == Fall(o.regs) && MainValue(e, y, u, o') == Bool(IsFalse(Get(o.regs, reg))) else o' == o)
  {
    var y := Emit(z, Not(0, reg));
    var u := Desc(VReloc(Pc(z)), t, f);
    WriteRun(e, z, Not(0, reg), b, r);
    DischargeRun(e, z, b, r);
    assert Base(y, u) == Discharged(z);
    assert AllHeld(y.code, t) && AllHeld(y.code, f) by {
      forall j | j in t || j in f ensures Held(y.code, j) { assert SameControl(z, y, j); }
    }
  }

  /** The code before an emitted instruction, with what `jpc` held now leading to its end. */
  lemma DischargeRun(e: Env, g: Gen, b: nat, r: Regs)
    requires GenWf(g) && Entry(g.code, b)
    ensures var o := Run(e, g.code, b, r);
      Run(e, Discharged(g), b, r) == if Arrives(g, o) then Fall(o.regs) else o
    ensures Wf(Discharged(g)) && Entry(Discharged(g), b) && (g.lasttarget < Pc(g) ==> NoLanding(Discharged(g)))
  {
    var c' := Discharged(g);
    var x := EmitAll(g, [Not(0, 0)]);
    DischargedPatch(g, [Not(0, 0)]);
    assert Patch(g.code, c') by {
      forall j | 0 <= j < Pc(g) ensures PatchAt(g.code, c', j) { assert PatchAt(g.code, x.code, j) && x.code[j] == c'[j]; }
    }
    RunPatch(e, g.code, c', b, r);
    ExitHeld(e, g.code, b, r);
    var o := Run(e, g.code, b, r);
    EntryKept(g, [Not(0, 0)], b);
    assert Entry(c', b) by { if b > 0 { assert x.code[b - 1] == c'[b - 1]; } }
    RunEnd(e, c', o.regs);
    if o.Exit? {
      HeldLanding(g, [Not(0, 0)], o.at, o.regs);
      assert o.at > 0 ==> x.code[o.at - 1] == c'[o.at - 1];
      assert c'[o.at] == PatchedAt(g.code, g.jpc, Pc(g), None, Pc(g), o.at);
    }
    forall j | 0 <= j < Pc(g) ensures WfAt(c', j) { DischargedWfAt(g, j); }
  }

  lemma DischargedWfAt(g: Gen, j: nat)
    requires GenWf(g) && j < Pc(g)
    ensures WfAt(Discharged(g), j)
  {
    var x := EmitAll(g, [Not(0, 0)]);
    var c' := Discharged(g);
    var q := [Not(0, 0)];
    OneBlock(Not(0, 0));
    EmitWfAt(g, q, j);
    assert forall k :: 0 <= k < Pc(g) ==> x.code[k] == c'[k];
    EndNoTest(g.code);
    assert TMode(g.code[j]) ==> j + 1 < Pc(g) by { assert WfAt(g.code, j); }
    assert c'[j] == PatchedAt(g.code, g.jpc, Pc(g), None, Pc(g), j);
    assert WfAt(g.code, j);
  }

  lemma NegLocal(e: Env, g: Gen, d: Desc, b: nat, r: Regs)
    requires GenWf(g) && DescWf(g, d) && d.k.VNonReloc? && Entry(g.code, b)
    ensures NegGood(e, g, d, Negated(g, d).0, d.(k := Negated(g, d).1), b, r)
  {
    hide Wf, NoLanding, Run;
    NotEmitted(e, g, d.k.reg, b, r, d.t, d.f);
  }

  lemma NegRelocIs(g: Gen, d: Desc)
    requires d.k.VReloc? && g.nactvar <= g.freereg
    ensures var z := ToReg(g, d, g.freereg); Negated(g, d) == (Emit(z, Not(0, g.freereg)), VReloc(Pc(z)))
  {
    LoadTemp(g, d);
    hide EmitAll, ToReg;
  }

  lemma RelocLists(g: Gen, d: Desc)
    requires GenWf(g) && DescWf(g, d) && d.k.VReloc?
    ensures var z := ToReg(g, d, g.freereg);
      z.jpc == [] && Pc(z) == Pc(g) && AllHeld(z.code, d.t) && AllHeld(z.code, d.f) && Apart(d.t, d.f)
  {}

  lemma NegReloc(e: Env, g: Gen, d: Desc, b: nat, r: Regs)
    requires GenWf(g) && DescWf(g, d) && d.k.VReloc? && Start(g, b, r) && Entry(Base(g, d), b) && g.ks <= e.ks
    ensures NegGood(e, g, d, Negated(g, d).0, d.(k := Negated(g, d).1), b, r)
  {
    var z := ToReg(g, d, g.freereg);
    var y := Emit(z, Not(0, g.freereg));
    var u := Desc(VReloc(Pc(z)), d.t, d.f);
    NegRelocIs(g, d);
    RelocLists(g, d);
    RelocConsts(g, d);
    ToRegRun(e, g, d, g.freereg, b, r);
    hide GenWf, DescWf, Run, EmitAll, ToReg, Negated, AllHeld, Kept, KindValue, Entry, Base, Body;
    NotEmitted(e, z, g.freereg, b, r, d.t, d.f);
    KeptTrans(g, z, y);
    RelocExit(e, g, d, b, r);
    EmitSize(z, Not(0, g.freereg));
    NegRelocWf(g, d, z, y, u);
    NegRelocOpposite(e, g, d, z, y, u, Run(e, Body(g, d), b, r), Run(e, z.code, b, r), Run(e, Body(y, u), b, r));
  }

  lemma RelocConsts(g: Gen, d: Desc)
    requires d.k.VReloc?
    ensures ToReg(g, d, g.freereg).ks == g.ks
  {}

  lemma NegRelocWf(g: Gen, d: Desc, z: Gen, y: Gen, u: Desc)
    requires SameOrEmptied(g, z) && GenWf(y) && DescWf(y, u) && Kept(g, y) && d.k.VReloc?
    requires Pc(z) == Pc(g) && Pc(y) == Pc(z) + 1 && y.freereg == z.freereg && y.nactvar == z.nactvar && y.ks == z.ks
    requires u.k == VReloc(Pc(z))
    ensures NegWf(g, d, y, u)
  {
    hide GenWf, DescWf, SameControl;
  }

  lemma NegRelocOpposite(e: Env, g: Gen, d: Desc, z: Gen, y: Gen, u: Desc, o: Outcome, oz: Outcome, o': Outcome)
    requires d.k.VReloc? && u.k.VReloc? && Loaded(g, d, o, z, oz, g.freereg, KindValue(e, g, d.k, o.regs)) && z.jpc == []
    requires if Arrives(z, oz)
      then o' == Fall(oz.regs) && MainValue(e, y, u, o') == Bool(IsFalse(Get(oz.regs, g.freereg))) else o' == oz
    ensures Opposite(e, g, d, o, y, u, o')
  {
    hide KindValue;
  }

  lemma EmitSize(g: Gen, i: Instr)
    ensures var y := Emit(g, i); Pc(y) == Pc(g) + 1 && y.freereg == g.freereg && y.nactvar == g.nactvar && y.ks == g.ks
  {}

  lemma RelocExit(e: Env, g: Gen, d: Desc, b: nat, r: Regs)
    requires GenWf(g) && DescWf(g, d) && d.k.VReloc?
    ensures var o := Run(e, Body(g, d), b, r); o.Exit? ==> Held(g.code, o.at) && o.at < d.k.pc
  {
    ExitHeld(e, Base(g, d), b, r);
  }

  lemma NegRun(e: Env, g: Gen, d: Desc, b: nat, r: Regs)
    requires GenWf(g) && DescWf(g, d) && !d.k.VLocal? && Start(g, b, r) && Entry(Base(g, d), b) && g.ks <= e.ks
    ensures NegGood(e, g, d, Negated(g, d).0, d.(k := Negated(g, d).1), b, r)
  {
    hide GenWf, DescWf, NegGood, Start, Entry, Negated, Run;
    StartEntry(g, b, r);
    match d.k {
      case VJmp(_) =>
        NegCompare(e, g, d, b, r);
        assert Negated(g, d).1 == d.k by { JumpKind(g, d); }
      case VNonReloc(_) => NegLocal(e, g, d, b, r);
      case VReloc(_) => NegReloc(e, g, d, b, r);
      case VLocal(_) =>
      case _ => NegConst(e, g, d, b, r);
    }
  }

  lemma JumpKind(g: Gen, d: Desc)
    requires d.k.VJmp?
    ensures Negated(g, d).1 == d.k
  {}

  /** removevalues changes no run. */
  lemma RemoveRun(e: Env, c: seq<Instr>, q: seq<nat>, b: nat, r: Regs)
    requires Wf(c) && AllHeld(c, q) && Entry(c, b)
    ensures var c' := RemoveValues(c, q); Wf(c') && Entry(c', b) && Run(e, c', b, r) == Run(e, c, b, r)
  {
    var c' := RemoveValues(c, q);
    forall j | 0 <= j < |c| ensures PatchAt(c, c', j) && WfAt(c', j) { assert WfAt(c, j); }
    RunPatch(e, c, c', b, r);
    ExitHeld(e, c, b, r);
    var o := Run(e, c, b, r);
    if o.Exit? && o.at > 0 { assert WfAt(c, o.at - 1); }
  }

  function Removed(g: Gen, d: Desc): Gen { g.(code := RemoveValues(RemoveValues(g.code, d.f), d.t)) }

  lemma RemoveBody(g: Gen, d: Desc)
    requires GenWf(g) && DescWf(g, d)
    ensures Base(Removed(g, d), d) == RemoveValues(RemoveValues(Base(g, d), d.f), d.t)
    ensures Body(Removed(g, d), d) == RemoveValues(RemoveValues(Body(g, d), d.f), d.t)
  {
    hide Wf, NoLanding;
  }

  lemma BodyHeld(g: Gen, d: Desc)
    requires GenWf(g) && DescWf(g, d)
    ensures Wf(Body(g, d)) && Wf(Base(g, d)) && AllHeld(Body(g, d), d.t) && AllHeld(Body(g, d), d.f)
    ensures AllHeld(Base(g, d), d.t) && AllHeld(Base(g, d), d.f)
  {
    hide Wf, NoLanding;
    forall j | j in d.t || j in d.f ensures Held(Body(g, d), j) && Held(Base(g, d), j) { assert Held(g.code, j); }
  }

  lemma RemovedRun(e: Env, g: Gen, d: Desc, b: nat, r: Regs)
    requires GenWf(g) && DescWf(g, d) && Entry(Base(g, d), b) && Entry(Body(g, d), b)
    ensures var y := Removed(g, d); Entry(Base(y, d), b) && Run(e, Body(y, d), b, r) == Run(e, Body(g, d), b, r)
    ensures Wf(Removed(g, d).code) && Wf(Base(Removed(g, d), d))
  {
    var y := Removed(g, d);
    RemoveBody(g, d);
    BodyHeld(g, d);
    RemoveTwice(e, Body(g, d), d, b, r);
    RemoveTwice(e, Base(g, d), d, b, r);
    assert Entry(g.code, 0) && AllHeld(g.code, d.t) && AllHeld(g.code, d.f) && Wf(g.code);
    RemoveTwice(e, g.code, d, 0, r);
  }

  lemma RemoveTwice(e: Env, c: seq<Instr>, d: Desc, b: nat, r: Regs)
    requires Wf(c) && AllHeld(c, d.t) && AllHeld(c, d.f) && Entry(c, b)
    ensures var c' := RemoveValues(RemoveValues(c, d.f), d.t); Wf(c') && Entry(c', b) && Run(e, c', b, r) == Run(e, c, b, r)
  {
    RemoveRun(e, c, d.f, b, r);
    var c' := RemoveValues(c, d.f);
    assert AllHeld(c', d.t) by { forall j | j in d.t ensures Held(c', j) {} }
    RemoveRun(e, c', d.t, b, r);
  }

  /** The lists no longer deliver values; other jumps are as they were. */
  lemma RemovedWf(g: Gen, d: Desc)
    requires GenWf(g) && DescWf(g, d) && Wf(Removed(g, d).code) && Wf(Base(Removed(g, d), d))
    ensures var y := Removed(g, d);
      && GenWf(y) && DescWf(y, d) && (forall j :: j in d.t || j in d.f ==> !Delivers(y.code, j))
      && (forall j: nat :: Held(g.code, j) && j !in g.jpc && j !in d.t && j !in d.f ==> SameControl(g, y, j))
  {
    hide Wf;
    var y := Removed(g, d);
    assert NoLanding(g.code) ==> NoLanding(y.code);
    assert d.k.VReloc? && NoLanding(Base(g, d)) ==> NoLanding(Base(y, d)) by { RemoveBody(g, d); }
  }

  ghost predicate NotWf(g: Gen, v: Desc, g': Gen, v': Desc) {
    && GenWf(g') && DescWf(g', v') && v'.t == v.f && v'.f == v.t
    && g'.freereg == g.freereg && g'.nactvar == g.nactvar && g.ks <= g'.ks && |Base(g', v')| >= |Base(g, v)|
    && (forall j :: j in v.t || j in v.f ==> !Delivers(g'.code, j))
    && (forall j: nat :: Held(g.code, j) && j !in g.jpc && v.k != VJmp(j) && j !in v.t && j !in v.f ==>
          SameControl(g, g', j) && v'.k != VJmp(j))
  }

  lemma NotSwap(g: Gen, v: Desc, y: Gen, u: Desc, z: Gen)
    requires NegWf(g, Discharge(v), y, u) && u.t == v.t && u.f == v.f && z == Removed(y, Desc(u.k, u.f, u.t))
    requires GenWf(z) && DescWf(z, Desc(u.k, u.f, u.t))
    requires forall j :: j in v.t || j in v.f ==> !Delivers(z.code, j)
    requires forall j: nat :: Held(y.code, j) && j !in y.jpc && j !in u.t && j !in u.f ==> SameControl(y, z, j)
    ensures NotWf(g, v, z, Desc(u.k, u.f, u.t))
  {
    hide GenWf, DescWf, RemoveValues;
    var d := Discharge(v);
    forall j: nat | Held(g.code, j) && j !in g.jpc && v.k != VJmp(j) && j !in v.t && j !in v.f
      ensures SameControl(g, z, j) && u.k != VJmp(j)
    {
      assert SameControl(g, y, j);
    }
    assert |Base(g, d)| == |Base(g, v)|;
  }

  /** codenot: the end is reached with the opposite value, and the lists have changed places. */
  lemma NotRun(e: Env, g: Gen, v: Desc, b: nat, r: Regs)
    requires GenWf(g) && DescWf(g, v) && Start(g, b, r) && Entry(Base(g, v), b) && g.ks <= e.ks
    ensures var (g', v') := CodeNot(g, v);
      && NotWf(g, v, g', v') && Entry(Base(g', v'), b)
      && Opposite(e, g, v, Run(e, Body(g, v), b, r), g', v', Run(e, Body(g', v'), b, r))
  {
    var d := Discharge(v);
    var (y, k) := Negated(g, d);
    var u := Desc(k, v.t, v.f);
    var w := Desc(k, v.f, v.t);
    assert DescWf(g, d) && Base(g, d) == Base(g, v) && Body(g, d) == Body(g, v) by { hide AllHeld, Apart; }
    NegRun(e, g, d, b, r);
    assert DescWf(y, w) by { hide GenWf, AllHeld, KindWf; }
    hide GenWf, DescWf, Run, Negated, Entry, RemoveValues, KindValue;
    assert Base(y, w) == Base(y, u) && Body(y, w) == Body(y, u);
    BodyEntry(y, w, b);
    RemovedRun(e, y, w, b, r);
    RemovedWf(y, w);
    var z := Removed(y, w);
    NotSwap(g, v, y, u, z);
    NotOpposite(e, g, v, d, y, u, z, w, Run(e, Body(g, v), b, r), Run(e, Body(y, u), b, r));
  }

  lemma BodyEntry(y: Gen, w: Desc, b: nat)
    requires GenWf(y) && DescWf(y, w) && Entry(Base(y, w), b)
    ensures Entry(Body(y, w), b)
  {
    if w.k.VJmp? { EndNoTest(Base(y, w)); }
  }

  lemma NotOpposite(e: Env, g: Gen, v: Desc, d: Desc, y: Gen, u: Desc, z: Gen, w: Desc, o: Outcome, o': Outcome)
    requires d == Discharge(v) && Opposite(e, g, d, o, y, u, o') && w.k == u.k && z == Removed(y, w)
    requires DescWf(y, w)
    ensures Opposite(e, g, v, o, z, w, o')
  {
    RemovedCarries(y, w, o');
    hide DescWf, Carried;
  }

  /** What jumps in `jpc` deliver is not removed. */
  lemma RemovedCarries(y: Gen, w: Desc, o: Outcome)
    requires DescWf(y, w)
    ensures Carried(Removed(y, w), o) == Carried(y, o)
  {}
}
