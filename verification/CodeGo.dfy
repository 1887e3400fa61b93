/** luaK_goiftrue and luaK_goiffalse: control goes on where the value has the wanted truth, and
    leaves through the list of the other truth where it has not. */
module CodeGo {
  import opened CodeVm
  import opened CodeRun
  import opened CodeGen
  import opened CodeSource
  import opened CodeInv
  import opened CodeDesc
  import opened CodeCond

  function Jumps(g: Gen, d: Desc, want: bool): (Gen, seq<nat>) { if want then FalseJumps(g, d) else TrueJumps(g, d) }

  function GoIf(g: Gen, v: Desc, want: bool): (Gen, Desc) { if want then GoIfTrue(g, v) else GoIfFalse(g, v) }

  /** After the switch: where the truth is as wanted the end is reached, else a jump of `q`. */
  ghost predicate Branched(e: Env, g: Gen, d: Desc, o: Outcome, y: Gen, q: seq<nat>, o': Outcome, want: bool) {
    if !Reached(g, d, o) then o' == o
    else
      && Agree(o.regs, o'.regs, g.freereg)
      && (if !IsFalse(MainValue(e, g, d, o)) == want
          then Arrives(y, o') && Carried(y, o') == HeldOn(d.k, want, Carried(g, o))
          else o'.Exit? && o'.at in q && Tested(y, o') == HeldOut(d.k, want, MainValue(e, g, d, o), Carried(g, o)))
  }

  /** Jumps held elsewhere are untouched; those of `q` are held, apart from them. */
  ghost predicate BranchWf(g: Gen, d: Desc, y: Gen, q: seq<nat>) {
    && GenWf(y) && y.freereg == g.freereg && y.nactvar == g.nactvar && g.ks <= y.ks && Pc(y) >= Pc(g)
    && AllHeld(y.code, q) && Apart(y.jpc, q)
    && (forall j: nat :: Held(g.code, j) && j !in g.jpc && d.k != VJmp(j) ==> SameControl(g, y, j) && j !in q)
  }

  ghost predicate BranchGood(e: Env, g: Gen, d: Desc, y: Gen, q: seq<nat>, want: bool, b: nat, r: Regs) {
    && BranchWf(g, d, y, q) && Entry(y.code, b)
    && Branched(e, g, d, Run(e, Body(g, d), b, r), y, q, Run(e, y.code, b, r), want)
  }

  /** Nothing to do: the truth of a constant is known. */
  lemma BranchConst(e: Env, g: Gen, d: Desc, want: bool, b: nat, r: Regs)
    requires GenWf(g) && DescWf(g, d) && Entry(g.code, b) && g.ks <= e.ks
    requires NoTest(d.k, want)
    ensures BranchGood(e, g, d, g, [], want, b, r)
  {
    hide Wf, NoLanding, Run;
  }

  /** The always-taken jump: it and whatever `jpc` held are the list. */
  lemma BranchFold(e: Env, g: Gen, d: Desc, want: bool, b: nat, r: Regs)
    requires GenWf(g) && AlwaysJumps(d.k, want) && Entry(g.code, b)
    ensures BranchGood(e, g, d, Jump(g).0, Jump(g).1, want, b, r)
  {
    var (y, q) := Jump(g);
    JumpRun(e, g, b, r);
    JumpBranch(g);
    var o := Run(e, g.code, b, r);
    ExitHeld(e, g.code, b, r);
    if Arrives(g, o) {
      hide Wf, NoLanding, Run;
      assert o.Fall? ==> !Delivers(y.code, Pc(g)) by { EndNoTest(g.code); }
    }
  }

  lemma EndNoTest(c: seq<Instr>)
    requires Wf(c)
    ensures c != [] ==> !TMode(c[|c| - 1])
  {
    if c != [] { assert WfAt(c, |c| - 1); }
  }

  lemma JumpBranch(g: Gen)
    requires GenWf(g)
    ensures BranchWf(g, Desc(VTrue, [], []), Jump(g).0, Jump(g).1)
    ensures forall b :: Entry(g.code, b) ==> Entry(Jump(g).0.code, b)
  {
    var (y, q) := Jump(g);
    EndNoTest(g.code);
    forall j | 0 <= j < |y.code| ensures WfAt(y.code, j) { if j < Pc(g) { assert WfAt(g.code, j); } }
    assert NoLanding(y.code) by {
      forall j | 0 <= j < Pc(g)
        ensures (y.code[j].Jmp? ==> y.code[j].dest != |y.code|) && (y.code[j].LoadBool? && y.code[j].skip ==> j + 2 != |y.code|)
      { assert WfAt(g.code, j); }
    }
  }

  lemma BranchCompare(e: Env, g: Gen, d: Desc, b: nat, r: Regs)
    requires GenWf(g) && DescWf(g, d) && d.k.VJmp? && Entry(Base(g, d), b)
    ensures BranchGood(e, g, d, Invert(g, d.k.pc), [d.k.pc], true, b, r)
    ensures BranchGood(e, g, d, g, [d.k.pc], false, b, r)
  {
    var p := d.k.pc;
    var y := Invert(g, p);
    CompareRun(e, g, d, b, r);
    InvertWf(g, d);
    hide Wf, NoLanding, Run, AllHeld;
    var o := Run(e, g.code, b, r);
    assert o.Exit? && o.at != p ==> Run(e, y.code, b, r) == o;
  }

  lemma CompareRun(e: Env, g: Gen, d: Desc, b: nat, r: Regs)
    requires GenWf(g) && DescWf(g, d) && d.k.VJmp? && Entry(Base(g, d), b)
    ensures var p := d.k.pc; var o := Run(e, g.code, b, r);
      Run(e, Invert(g, p).code, b, r) == if o.Fall? then Exit(p, o.regs) else if o.at == p then Fall(o.regs) else o
    ensures Entry(g.code, b) && Entry(Invert(g, d.k.pc).code, b)
  {
    var p := d.k.pc;
    var c := g.code[..p - 1];
    var c' := Invert(g, p).code;
    RunPatch(e, c, g.code, b, r);
    RunPatch(e, c, c', b, r);
    ExitHeld(e, c, b, r);
    var o := Run(e, c, b, r);
    if o.Exit? {
      if o.at > 0 { assert WfAt(c, o.at - 1) && g.code[o.at - 1] == c[o.at - 1] == c'[o.at - 1]; }
      assert g.code[o.at] == c[o.at] == c'[o.at];
    }
    EndNoTest(c);
    assert WfAt(g.code, p - 1);
    assert c'[p] == Jmp(HOLD) && c'[p - 1] == g.code[p - 1].(cond := !g.code[p - 1].cond);
    RunEnd(e, g.code, o.regs);
    RunEnd(e, c', o.regs);
  }

  lemma InvertWf(g: Gen, d: Desc)
    requires GenWf(g) && DescWf(g, d) && d.k.VJmp?
    ensures BranchWf(g, d, Invert(g, d.k.pc), [d.k.pc]) && BranchWf(g, d, g, [d.k.pc])
  {
    var y := Invert(g, d.k.pc);
    forall j | 0 <= j < |y.code| ensures WfAt(y.code, j) { assert WfAt(g.code, j); }
  }

  lemma BranchTest(e: Env, g: Gen, d: Desc, want: bool, b: nat, r: Regs)
    requires GenWf(g) && DescWf(g, d) && Start(g, b, r) && Entry(Base(g, d), b)
    requires !NoTest(d.k, want) && !AlwaysJumps(d.k, want)
    requires !d.k.VJmp? && !d.k.VLocal? && JumpOnCond(g, d, !want).ks <= e.ks
    ensures var y := JumpOnCond(g, d, !want); Pc(y) > 0 && BranchGood(e, g, d, y, [Pc(y) - 1], want, b, r)
  {
    hide GenWf, Run, Kept, JumpOnCond, KindWf, Apart, KindValue, Start, Tested;
    if d.k.VReloc? { JumpOnNot(e, g, d, !want, b, r); }
    else if d.k.VNonReloc? { JumpOnLocal(e, g, d, !want, b, r); }
    else { JumpOnLoaded(e, g, d, !want, b, r); }
    GrownBranch(g, d, JumpOnCond(g, d, !want));
  }

  lemma GrownBranch(g: Gen, d: Desc, y: Gen)
    requires Grown(g, y)
    ensures BranchWf(g, d, y, [Pc(y) - 1])
  {}

  /** The switch of luaK_goiftrue or luaK_goiffalse, all kinds. */
  lemma BranchRun(e: Env, g: Gen, d: Desc, want: bool, b: nat, r: Regs)
    requires GenWf(g) && DescWf(g, d) && Start(g, b, r) && Entry(Base(g, d), b)
    requires !d.k.VLocal? && g.ks <= e.ks && Jumps(g, d, want).0.ks <= e.ks
    ensures var (y, q) := Jumps(g, d, want); BranchGood(e, g, d, y, q, want, b, r)
  {
    hide GenWf, DescWf, BranchGood, JumpOnCond, Start, Entry, Base, Jump, Invert;
    StartEntry(g, b, r);
    if d.k.VJmp? { BranchCompare(e, g, d, b, r); }
    else if NoTest(d.k, want) { BranchConst(e, g, d, want, b, r); }
    else if AlwaysJumps(d.k, want) { BranchFold(e, g, d, want, b, r); }
    else { BranchTest(e, g, d, want, b, r); }
  }

  lemma StartEntry(g: Gen, b: nat, r: Regs)
    requires Start(g, b, r)
    ensures Entry(g.code, b)
  {}

  /** The list through which control leaves for the truth `!want`. */
  function Out(v: Desc, want: bool): seq<nat> { if want then v.f else v.t }

  /** Where the truth is as wanted control goes on, else it leaves through the other list. */
  ghost predicate Gone(e: Env, g: Gen, v: Desc, o: Outcome, g': Gen, v': Desc, o': Outcome, want: bool) {
    if !Reached(g, v, o) then o' == o
    else
      && Agree(o.regs, o'.regs, g.freereg)
      && (if !IsFalse(MainValue(e, g, v, o)) == want
          then Arrives(g', o') && Carried(g', o') == HeldOn(v.k, want, Carried(g, o))
          else o'.Exit? && o'.at in Out(v', want) && Tested(g', o') == HeldOut(v.k, want, MainValue(e, g, v, o), Carried(g, o)))
  }

  ghost predicate GoneWf(g: Gen, v: Desc, g': Gen, v': Desc, want: bool) {
    && GenWf(g') && g'.freereg == g.freereg && g'.nactvar == g.nactvar && g.ks <= g'.ks && Pc(g') >= |Base(g, v)|
    && Out(v', !want) == [] && AllHeld(g'.code, Out(v', want)) && Apart(g'.jpc, Out(v', want))
    && (forall j :: j in Out(v, want) ==> j in Out(v', want) && SameControl(g, g', j))
    && (forall j :: j in Out(v, !want) ==> j in g'.jpc && SameTest(g, g', j))
    && (forall j: nat :: Held(g.code, j) && j !in g.jpc && v.k != VJmp(j) && j !in v.t && j !in v.f ==>
          SameControl(g, g', j) && j !in Out(v', want))
  }

  lemma HereWf(y: Gen, q: seq<nat>)
    requires GenWf(y) && AllHeld(y.code, q)
    ensures GenWf(Here(y, q))
  {}

  lemma GoIfWf(g: Gen, v: Desc, want: bool)
    requires GenWf(g) && DescWf(g, v)
    requires var (y, q) := Jumps(g, Discharge(v), want); BranchWf(g, Discharge(v), y, q)
    ensures var (g', v') := GoIf(g, v, want); GoneWf(g, v, g', v', want)
  {
    hide Wf, NoLanding, FalseJumps, TrueJumps;
    var d := Discharge(v);
    var (y, q) := Jumps(g, d, want);
    var (g', v') := GoIf(g, v, want);
    forall j | j in Out(v, !want) ensures Held(y.code, j) { assert SameControl(g, y, j); }
    hide GenWf;
    HereWf(y, Out(v, !want));
    forall j | j in Out(v', want) ensures Held(g'.code, j) && j !in g'.jpc {
      if j in Out(v, want) { assert SameControl(g, y, j); }
    }
    forall j | j in Out(v, want) ensures SameControl(g, g', j) { assert SameControl(g, y, j); }
    forall j | j in Out(v, !want) ensures SameTest(g, g', j) { assert SameControl(g, y, j); }
    forall j: nat | Held(g.code, j) && j !in g.jpc && v.k != VJmp(j) && j !in v.t && j !in v.f
      ensures SameControl(g, g', j) && j !in Out(v', want) { assert SameControl(g, y, j); }
  }

  lemma GoIfStep(e: Env, g: Gen, v: Desc, want: bool, y: Gen, q: seq<nat>, o: Outcome, o': Outcome)
    requires (y, q) == Jumps(g, Discharge(v), want) && Branched(e, g, Discharge(v), o, y, q, o', want)
    ensures var (g', v') := GoIf(g, v, want); Gone(e, g, v, o, g', v', o', want)
  {
    hide FalseJumps, TrueJumps;
  }

  /** luaK_goiftrue and luaK_goiffalse. */
  lemma GoIfRun(e: Env, g: Gen, v: Desc, want: bool, b: nat, r: Regs)
    requires GenWf(g) && DescWf(g, v) && Start(g, b, r) && Entry(Base(g, v), b)
    requires g.ks <= e.ks && GoIf(g, v, want).0.ks <= e.ks
    ensures var (g', v') := GoIf(g, v, want);
      && GoneWf(g, v, g', v', want) && Start(g', b, r)
      && Gone(e, g, v, Run(e, Body(g, v), b, r), g', v', Run(e, g'.code, b, r), want)
  {
    var d := Discharge(v);
    var (y, q) := Jumps(g, d, want);
    assert y.ks == GoIf(g, v, want).0.ks && DescWf(g, d) && Base(g, d) == Base(g, v) && Body(g, d) == Body(g, v) by {
      hide FalseJumps, TrueJumps, Apart, AllHeld;
    }
    hide GenWf, DescWf, FalseJumps, TrueJumps, Run, Gone, GoneWf, Branched, BranchWf;
    BranchRun(e, g, d, want, b, r);
    GoIfWf(g, v, want);
    GoIfStep(e, g, v, want, y, q, Run(e, Body(g, v), b, r), Run(e, y.code, b, r));
    BranchStart(g, d, y, q, b, r);
  }

  lemma BranchStart(g: Gen, d: Desc, y: Gen, q: seq<nat>, b: nat, r: Regs)
    requires BranchWf(g, d, y, q) && Entry(y.code, b) && Start(g, b, r)
    ensures forall p :: Start(Here(y, p), b, r)
  {}
}
