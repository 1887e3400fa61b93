/** What an expression description means while code is being generated, and loading one into a
    register. */
module CodeDesc {
  import opened Wrappers
  import opened CodeVm
  import opened CodeRun
  import opened CodeGen
  import opened CodeInv

  /** The code before the instructions that are still open to change. */
  function Base(g: Gen, v: Desc): seq<Instr> {
    match v.k
    case VReloc(pc) => if pc < Pc(g) then g.code[..pc] else g.code
    case VJmp(pc) => if 0 < pc < Pc(g) then g.code[..pc - 1] else g.code
    case _ => g.code
  }

  /** The code whose run tells what the expression is: without a NOT that has no register yet. */
  function Body(g: Gen, v: Desc): seq<Instr> { if v.k.VReloc? then Base(g, v) else g.code }

  ghost predicate KindWf(g: Gen, k: Kind) {
    match k
    case VK(i) => i < |g.ks| && !IsFalse(g.ks[i])
    case VLocal(r) => r < g.nactvar
    case VNonReloc(r) => r < g.nactvar
    case VReloc(pc) =>
      && Pc(g) == pc + 1 && g.code[pc].Not? && Wf(g.code[..pc]) && g.jpc == [] && g.lasttarget <= pc
      && (g.lasttarget < pc ==> NoLanding(g.code[..pc]))
    case VJmp(pc) =>
      && Pc(g) == pc + 1 && pc > 0 && Held(g.code, pc) && g.code[pc - 1].Cmp? && Wf(g.code[..pc - 1]) && g.jpc == []
    case _ => true
  }

  ghost predicate DescWf(g: Gen, v: Desc) {
    && KindWf(g, v.k) && AllHeld(g.code, v.t) && AllHeld(g.code, v.f)
    && Apart(g.jpc, v.t) && Apart(g.jpc, v.f) && Apart(v.t, v.f)
    && (v.k.VJmp? ==> v.k.pc !in v.t && v.k.pc !in v.f)
  }

  /** Runs begin at `b`, before the expression; registers above the locals are clean at the start
      of a function, which luaK_nil relies on. */
  ghost predicate Start(g: Gen, b: nat, r: Regs) {
    && Entry(g.code, b)
    && (g.lasttarget < Pc(g) && b == Pc(g) > 0 ==> !g.code[b - 1].LoadNil?)
    && (g.code == [] ==> forall i :: g.nactvar <= i ==> Get(r, i) == Nil)
  }

  function KindValue(e: Env, g: Gen, k: Kind, r: Regs): Value {
    match k
    case VNil => Nil
    case VTrue => Bool(true)
    case VFalse => Bool(false)
    case VK(i) => Const(e, i)
    case VKNum(n) => Num(n)
    case VLocal(i) => Get(r, i)
    case VNonReloc(i) => Get(r, i)
    case VReloc(pc) => if pc < Pc(g) && g.code[pc].Not? then Bool(IsFalse(Get(r, g.code[pc].b))) else Nil
    case VJmp(_) => Nil
  }

  /** Jump `j` is pending, and delivers the register it did. */
  ghost predicate SameTest(g: Gen, g': Gen, j: nat) {
    && Held(g'.code, j) && Delivers(g'.code, j) == Delivers(g.code, j)
    && (Delivers(g.code, j) ==> g'.code[j - 1].b == g.code[j - 1].b)
  }

  /** Jumps held elsewhere stay held, with the values they deliver. */
  ghost predicate SameControl(g: Gen, g': Gen, j: nat) { SameTest(g, g', j) && j !in g'.jpc }

  ghost predicate Kept(g: Gen, g': Gen) {
    forall j :: Held(g.code, j) && j !in g.jpc ==> SameControl(g, g', j)
  }

  ghost predicate Assigned(r: Regs, r': Regs, reg: nat, x: Value) {
    forall i: nat :: Get(r', i) == if i == reg then x else Get(r, i)
  }

  /** The state is the same, or the jumps in `jpc` have been discharged. */
  ghost predicate SameOrEmptied(g: Gen, g': Gen) {
    && g'.nactvar == g.nactvar && g'.freereg == g.freereg && g'.lasttarget == g.lasttarget
    && g.ks <= g'.ks && Pc(g) <= Pc(g') && (g'.jpc == [] || g' == g)
  }

  lemma EmitKept(g: Gen, q: seq<Instr>)
    requires Wf(g.code) && AllHeld(g.code, g.jpc)
    ensures Kept(g, EmitAll(g, q))
  {
    var c := g.code;
    var c' := EmitAll(g, q).code;
    forall j: nat | Held(c, j) && j !in g.jpc ensures SameControl(g, EmitAll(g, q), j) {
      assert c'[j] == PatchedAt(c, g.jpc, Pc(g), None, Pc(g), j);
      if j > 0 { assert c'[j - 1] == PatchedAt(c, g.jpc, Pc(g), None, Pc(g), j - 1); }
    }
  }

  lemma KeptTrans(g: Gen, h: Gen, k: Gen)
    requires Kept(g, h) && Kept(h, k)
    ensures Kept(g, k)
  {
    forall j: nat | Held(g.code, j) && j !in g.jpc ensures SameControl(g, k, j) {
      assert SameControl(g, h, j);
      assert SameControl(h, k, j);
    }
  }

  /** One instruction that writes a register has been emitted. */
  lemma WriteRun(e: Env, g: Gen, i: Instr, b: nat, r: Regs)
    requires GenWf(g) && Entry(g.code, b) && !TMode(i) && !i.Jmp? && !(i.LoadBool? && i.skip)
    requires i.LoadNil? ==> i.a <= i.b
    ensures var o := Run(e, g.code, b, r);
      Run(e, Emit(g, i).code, b, r) == if Arrives(g, o) then Fall(Write(e, i, o.regs)) else o
    ensures Entry(Emit(g, i).code, b) && GenWf(Emit(g, i)) && NoLanding(Emit(g, i).code) && Kept(g, Emit(g, i)) && SameOrEmptied(g, Emit(g, i))
  {
    hide Write, Wf, NoLanding;
    EmitRun(e, g, [i], b, r);
    EmitWf(g, [i]);
    EmitKept(g, [i]);
    var o := Run(e, g.code, b, r);
    var c' := Emit(g, i).code;
    assert c'[Pc(g)] == i && |c'| == Pc(g) + 1;
    RunEnd(e, c', Write(e, i, o.regs));
  }

  lemma RunEnd(e: Env, c: seq<Instr>, r: Regs)
    ensures Run(e, c, |c|, r) == Fall(r)
  {}

  /** A prefix that nothing jumps over is well formed. */
  lemma CutWf(c: seq<Instr>)
    requires Wf(c) && c != [] && NoLanding(c) && !c[|c| - 1].Jmp?
    ensures Wf(c[..|c| - 1]) && Patch(c[..|c| - 1], c)
  {
    var d := c[..|c| - 1];
    forall j | 0 <= j < |d| ensures WfAt(d, j) {
      assert WfAt(c, j) && d[j] == c[j];
      if j + 1 < |d| { assert d[j + 1] == c[j + 1]; }
    }
  }

  /** The `n` registers from `from` on hold nil, the others what they held. */
  ghost predicate Cleared(r: Regs, r': Regs, from: nat, n: nat) {
    forall i: nat :: Get(r', i) == if from <= i < from + n then Nil else Get(r, i)
  }

  lemma NilWider(r: Regs, a: nat, b: nat, from: nat, n: nat)
    requires a <= from <= b + 1 && a <= b && n > 0
    ensures Cleared(SetNil(r, a, b), SetNil(r, a, if from + n - 1 > b then from + n - 1 else b), from, n)
  {}

  lemma RunLast(e: Env, c: seq<Instr>, r: Regs)
    requires c != [] && c[|c| - 1].LoadNil?
    ensures Run(e, c, |c| - 1, r) == Fall(SetNil(r, c[|c| - 1].a, c[|c| - 1].b))
  {
    hide SetNil;
    RunEnd(e, c, SetNil(r, c[|c| - 1].a, c[|c| - 1].b));
  }

  /** LOADNIL reaching further. */
  lemma NilMerge(e: Env, g: Gen, from: nat, n: nat, b: nat, r: Regs)
    requires n > 0 && GenWf(g) && Entry(g.code, b) && Connects(g, from) && b < Pc(g)
    ensures var o := Run(e, g.code, b, r); var o' := Run(e, CodeNil(g, from, n).code, b, r);
      if o.Fall? then o'.Fall? && Cleared(o.regs, o'.regs, from, n) else o' == o
    ensures Entry(CodeNil(g, from, n).code, b)
  {
    var c := g.code;
    var d := c[..|c| - 1];
    var c' := CodeNil(g, from, n).code;
    CutWf(c);
    assert Entry(d, b) && Patch(d, c');
    RunPatch(e, d, c, b, r);
    RunPatch(e, d, c', b, r);
    ExitHeld(e, d, b, r);
    var o := Run(e, d, b, r);
    assert WfAt(c, |d|);
    NilWider(o.regs, c[|d|].a, c[|d|].b, from, n);
    RunLast(e, c, o.regs);
    RunLast(e, c', o.regs);
    hide SetNil;
    if o.Exit? {
      if o.at > 0 { assert WfAt(d, o.at - 1) && c[o.at - 1] == d[o.at - 1] == c'[o.at - 1]; }
      assert c[o.at] == d[o.at] == c'[o.at];
    }
  }

  lemma NilMergeWf(g: Gen, from: nat, n: nat)
    requires n > 0 && GenWf(g) && Connects(g, from)
    ensures var g' := CodeNil(g, from, n);
      GenWf(g') && Kept(g, g') && SameOrEmptied(g, g') && g'.jpc == []
  {
    var g' := CodeNil(g, from, n);
    forall j | 0 <= j < |g.code| ensures WfAt(g'.code, j) { assert WfAt(g.code, j); }
    forall j: nat | Held(g.code, j) && j !in g.jpc ensures SameControl(g, g', j) {}
  }

  /** luaK_nil: the registers are cleared, whichever instruction does it, and none if they are clean. */
  lemma NilRun(e: Env, g: Gen, from: nat, n: nat, b: nat, r: Regs)
    requires n > 0 && GenWf(g) && Start(g, b, r)
    ensures var o := Run(e, g.code, b, r); var g' := CodeNil(g, from, n); var o' := Run(e, g'.code, b, r);
      && (if Arrives(g, o) then o'.Fall? && Cleared(o.regs, o'.regs, from, n) else o' == o)
      && Entry(g'.code, b) && GenWf(g') && Kept(g, g') && SameOrEmptied(g, g') && g'.jpc == []
  {
    hide Wf, NoLanding, Kept;
    if Pc(g) > g.lasttarget && g.code == [] && from >= g.nactvar {
      KeptSelf(g);
    } else if Connects(g, from) {
      NilMerge(e, g, from, n, b, r);
      NilMergeWf(g, from, n);
    } else {
      WriteRun(e, g, LoadNil(from, from + n - 1), b, r);
    }
  }

  lemma KeptSelf(g: Gen)
    ensures Kept(g, g)
  {}

  /** The end of an expression is reached, rather than one of its jumps. */
  ghost predicate Reached(g: Gen, v: Desc, o: Outcome) {
    match v.k
    case VReloc(_) => o.Fall?
    case VJmp(pc) => o.Fall? || o.at == pc
    case _ => Arrives(g, o)
  }

  /** The end of `g'` is reached as the end of `v` in `g` was, with `x` in register `reg`. */
  ghost predicate Loaded(g: Gen, v: Desc, o: Outcome, g': Gen, o': Outcome, reg: nat, x: Value) {
    if Reached(g, v, o) then Arrives(g', o') && Assigned(o.regs, o'.regs, reg, x) else o' == o
  }

  lemma RelocRun(e: Env, g: Gen, v: Desc, reg: nat, b: nat, r: Regs)
    requires GenWf(g) && DescWf(g, v) && v.k.VReloc? && Entry(Base(g, v), b)
    ensures var o := Run(e, Body(g, v), b, r); var g' := ToReg(g, v, reg);
      && Loaded(g, v, o, g', Run(e, g'.code, b, r), reg, KindValue(e, g, v.k, o.regs))
      && Entry(g'.code, b) && GenWf(g') && Kept(g, g') && SameOrEmptied(g, g') && g'.jpc == []
  {
    var d := Base(g, v);
    var c' := ToReg(g, v, reg).code;
    assert Patch(d, c');
    RunPatch(e, d, c', b, r);
    ExitHeld(e, d, b, r);
    var o := Run(e, d, b, r);
    if o.Exit? {
      if o.at > 0 { assert WfAt(d, o.at - 1) && c'[o.at - 1] == d[o.at - 1]; }
      assert c'[o.at] == d[o.at];
    } else {
      RunEnd(e, c', Write(e, c'[v.k.pc], o.regs));
    }
    forall j | 0 <= j < |c'| ensures WfAt(c', j) { assert WfAt(g.code, j); }
    forall j: nat | Held(g.code, j) && j !in g.jpc ensures SameControl(g, ToReg(g, v, reg), j) {}
  }

  /** addk only adds, and the index is that of the constant. */
  lemma AddKGives(e: Env, g: Gen, x: Value)
    requires AddK(g, x).0.ks <= e.ks
    ensures var (y, i) := AddK(g, x);
      y == g.(ks := y.ks) && g.ks <= y.ks && i < |y.ks| && y.ks[i] == x && Const(e, i) == x
  {}

  ghost predicate ToRegGood(e: Env, g: Gen, v: Desc, reg: nat, b: nat, r: Regs) {
    var o := Run(e, Body(g, v), b, r);
    var g' := ToReg(g, v, reg);
    && Loaded(g, v, o, g', Run(e, g'.code, b, r), reg, KindValue(e, g, v.k, o.regs))
    && Entry(g'.code, b) && GenWf(g') && Kept(g, g') && SameOrEmptied(g, g')
  }

  lemma ToRegLoad(e: Env, g: Gen, v: Desc, reg: nat, b: nat, r: Regs)
    requires GenWf(g) && (v.k.VTrue? || v.k.VFalse? || v.k.VK?) && Entry(g.code, b)
    ensures ToRegGood(e, g, v, reg, b, r)
  {
    hide GenWf, Kept, AllHeld, Entry, Run, EmitAll, NoLanding;
    var i := match v.k case VK(k) => LoadK(reg, k) case _ => LoadBool(reg, v.k.VTrue?, false);
    WriteRun(e, g, i, b, r);
  }

  lemma ToRegNum(e: Env, g: Gen, v: Desc, reg: nat, b: nat, r: Regs)
    requires GenWf(g) && v.k.VKNum? && Entry(g.code, b) && ToReg(g, v, reg).ks <= e.ks
    ensures ToRegGood(e, g, v, reg, b, r)
  {
    AddKWf(g, Num(v.k.nval));
    var (y, i) := AddK(g, Num(v.k.nval));
    assert y.ks == ToReg(g, v, reg).ks;
    AddKGives(e, g, Num(v.k.nval));
    hide GenWf, Kept, AllHeld, Entry, Run, EmitAll, NoLanding, AddK;
    WriteRun(e, y, LoadK(reg, i), b, r);
  }

  lemma ToRegNil(e: Env, g: Gen, v: Desc, reg: nat, b: nat, r: Regs)
    requires GenWf(g) && v.k.VNil? && Start(g, b, r)
    ensures ToRegGood(e, g, v, reg, b, r)
  {
    hide GenWf, Kept, AllHeld, Run, CodeNil, NoLanding, Start;
    NilRun(e, g, reg, 1, b, r);
  }

  /** discharge2reg puts the value into the register. */
  lemma ToRegRun(e: Env, g: Gen, v: Desc, reg: nat, b: nat, r: Regs)
    requires GenWf(g) && DescWf(g, v) && !v.k.VJmp? && Start(g, b, r) && Entry(Base(g, v), b)
    requires ToReg(g, v, reg).ks <= e.ks
    ensures ToRegGood(e, g, v, reg, b, r)
  {
    match v.k {
      case VNil => ToRegNil(e, g, v, reg, b, r);
      case VKNum(n) => ToRegNum(e, g, v, reg, b, r);
      case VReloc(_) => ToRegReloc(e, g, v, reg, b, r);
      case VLocal(_) => ToRegMove(e, g, v, reg, b, r);
      case VNonReloc(_) => ToRegMove(e, g, v, reg, b, r);
      case _ => ToRegLoad(e, g, v, reg, b, r);
    }
  }

  lemma ToRegReloc(e: Env, g: Gen, v: Desc, reg: nat, b: nat, r: Regs)
    requires GenWf(g) && DescWf(g, v) && v.k.VReloc? && Entry(Base(g, v), b)
    ensures ToRegGood(e, g, v, reg, b, r)
  {
    hide GenWf, DescWf, Kept, Run, ToReg, KindValue;
    RelocRun(e, g, v, reg, b, r);
  }

  lemma AddKWf(g: Gen, x: Value)
    requires GenWf(g)
    ensures GenWf(AddK(g, x).0) && forall h :: Kept(AddK(g, x).0, h) ==> Kept(g, h)
  {}

  lemma ToRegMove(e: Env, g: Gen, v: Desc, reg: nat, b: nat, r: Regs)
    requires GenWf(g) && (v.k.VLocal? || v.k.VNonReloc?) && Entry(g.code, b)
    ensures ToRegGood(e, g, v, reg, b, r)
  {
    hide GenWf, Kept, Run, Assigned, EmitAll;
    MoveRun(e, g, v.k.reg, reg, b, r);
  }

  lemma MoveRun(e: Env, g: Gen, i: nat, reg: nat, b: nat, r: Regs)
    requires GenWf(g) && Entry(g.code, b)
    ensures var o := Run(e, g.code, b, r); var g' := if reg != i then Emit(g, Move(reg, i)) else g;
      var o' := Run(e, g'.code, b, r);
      && (if Arrives(g, o) then Arrives(g', o') && Assigned(o.regs, o'.regs, reg, Get(o.regs, i)) else o' == o)
      && Entry(g'.code, b) && GenWf(g') && Kept(g, g') && SameOrEmptied(g, g')
  {
    hide Wf, NoLanding, Kept, Held, SetNil, AllHeld, Entry;
    if reg != i { WriteRun(e, g, Move(reg, i), b, r); } else { KeptSelf(g); }
  }
}
