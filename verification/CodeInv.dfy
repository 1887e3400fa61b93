/** What the code generator keeps about its state, and how emitting code changes runs. */
module CodeInv {
  import opened Wrappers
  import opened CodeVm
  import opened CodeRun
  import opened CodeGen

  /** No resolved jump lands at the end of the code. */
  ghost predicate NoLanding(c: seq<Instr>) {
    forall j :: 0 <= j < |c| ==>
      (c[j].Jmp? ==> c[j].dest != |c|) && (c[j].LoadBool? && c[j].skip ==> j + 2 != |c|)
  }

  ghost predicate AllHeld(c: seq<Instr>, q: seq<nat>) { forall j :: j in q ==> Held(c, j) }

  ghost predicate Apart(p: seq<nat>, q: seq<nat>) { forall j :: j in p ==> j !in q }

  ghost predicate GenWf(g: Gen) {
    && Wf(g.code) && AllHeld(g.code, g.jpc) && g.nactvar <= g.freereg && g.lasttarget <= Pc(g)
    && (g.jpc != [] ==> g.lasttarget == Pc(g))
    && (g.lasttarget < Pc(g) ==> NoLanding(g.code))
  }

  /** The end of the code is reached, directly or by a jump held in `jpc`. */
  ghost predicate Arrives(g: Gen, o: Outcome) { o.Fall? || o.at in g.jpc }

  lemma {:induction false} ExitHeld(e: Env, c: seq<Instr>, i: nat, r: Regs)
    requires Wf(c)
    ensures var o := Run(e, c, i, r); o.Exit? ==> Held(c, o.at)
    decreases |c| - i
  {
    hide SetNil;
    if i < |c| {
      assert WfAt(c, i);
      if c[i].Jmp? {
        if c[i].dest > i { ExitHeld(e, c, c[i].dest, r); }
      } else if TMode(c[i]) {
        ExitHeld(e, c, i + 1, AtJump(c[i], r));
        ExitHeld(e, c, i + 2, r);
      } else {
        ExitHeld(e, c, if c[i].LoadBool? && c[i].skip then i + 2 else i + 1, Write(e, c[i], r));
      }
    }
  }

  lemma DischargedPatch(g: Gen, q: seq<Instr>)
    requires Wf(g.code) && AllHeld(g.code, g.jpc)
    ensures Patch(g.code, EmitAll(g, q).code)
  {
    var c := g.code;
    var c' := EmitAll(g, q).code;
    forall j | 0 <= j < |c| ensures PatchAt(c, c', j) {
      assert WfAt(c, j);
      assert c'[j] == PatchedAt(c, g.jpc, Pc(g), None, Pc(g), j);
    }
  }

  lemma EntryKept(g: Gen, q: seq<Instr>, d: nat)
    requires Wf(g.code) && Entry(g.code, d)
    ensures Entry(EmitAll(g, q).code, d)
  {
    if d > 0 {
      assert WfAt(g.code, d - 1);
      assert EmitAll(g, q).code[d - 1] == PatchedAt(g.code, g.jpc, Pc(g), None, Pc(g), d - 1);
    }
  }

  /** Running code after more has been emitted. */
  lemma EmitRun(e: Env, g: Gen, q: seq<Instr>, b: nat, r: Regs)
    requires Wf(g.code) && AllHeld(g.code, g.jpc) && Entry(g.code, b) && q != []
    ensures var o := Run(e, g.code, b, r);
      Run(e, EmitAll(g, q).code, b, r) == if Arrives(g, o) then Run(e, EmitAll(g, q).code, Pc(g), o.regs) else o
    ensures Entry(EmitAll(g, q).code, b)
  {
    EntryKept(g, q, b);
    var c := g.code;
    var c' := EmitAll(g, q).code;
    var o := Run(e, c, b, r);
    DischargedPatch(g, q);
    RunPatch(e, c, c', b, r);
    ExitHeld(e, c, b, r);
    if o.Exit? {
      assert c'[o.at] == PatchedAt(c, g.jpc, Pc(g), None, Pc(g), o.at);
      HeldLanding(g, q, o.at, o.regs);
    }
  }

  lemma HeldLanding(g: Gen, q: seq<Instr>, j: nat, r: Regs)
    requires Wf(g.code) && Held(g.code, j)
    ensures Landing(EmitAll(g, q).code, j, r) == r
  {
    if j > 0 {
      assert WfAt(g.code, j - 1);
      assert EmitAll(g, q).code[j - 1] == PatchedAt(g.code, g.jpc, Pc(g), None, Pc(g), j - 1);
    }
  }

  /** Running code after a held jump has been emitted. */
  lemma JumpRun(e: Env, g: Gen, b: nat, r: Regs)
    requires Wf(g.code) && Entry(g.code, b)
    ensures var o := Run(e, g.code, b, r);
      Run(e, Jump(g).0.code, b, r) == if o.Fall? then Exit(Pc(g), o.regs) else o
  {
    var c := g.code;
    var c' := c + [Jmp(HOLD)];
    var o := Run(e, c, b, r);
    RunPatch(e, c, c', b, r);
    ExitHeld(e, c, b, r);
    if o.Exit? && o.at > 0 { assert WfAt(c, o.at - 1); }
  }

  /** Instructions that may be emitted together: tests with their jumps, pending. */
  ghost predicate BlockAt(q: seq<Instr>, k: nat)
    requires k < |q|
  {
    && (TMode(q[k]) ==> k + 1 < |q| && q[k + 1].Jmp?)
    && (q[k].Jmp? ==> q[k].dest == HOLD)
    && (q[k].TestSet? ==> q[k].dst.None?)
    && (q[k].LoadNil? ==> q[k].a <= q[k].b)
    && (q[k].LoadBool? && q[k].skip ==> k + 2 <= |q| && !TMode(q[k + 1]))
  }

  ghost predicate Block(q: seq<Instr>) { q != [] && forall k :: 0 <= k < |q| ==> BlockAt(q, k) }

  lemma OneBlock(i: Instr)
    requires !TMode(i) && !i.Jmp? && !i.LoadNil? && !(i.LoadBool? && i.skip)
    ensures Block([i])
  {}

  lemma OldWfAt(g: Gen, q: seq<Instr>, j: nat)
    requires Wf(g.code) && AllHeld(g.code, g.jpc) && q != [] && j < Pc(g)
    ensures WfAt(EmitAll(g, q).code, j)
  {
    var c := g.code;
    var c' := EmitAll(g, q).code;
    assert WfAt(c, j);
    assert c'[j] == PatchedAt(c, g.jpc, Pc(g), None, Pc(g), j);
    if j + 1 < |c| { assert c'[j + 1] == PatchedAt(c, g.jpc, Pc(g), None, Pc(g), j + 1); }
    assert WfAt(c, Pc(g) - 1);
    EntryKept(g, q, Pc(g));
    if c[j].Jmp? && c[j].dest != HOLD { EntryKept(g, q, c[j].dest); }
    if c[j].LoadBool? && c[j].skip { EntryKept(g, q, j + 2); }
  }

  lemma NewWfAt(g: Gen, q: seq<Instr>, k: nat)
    requires Block(q) && k < |q|
    ensures WfAt(EmitAll(g, q).code, Pc(g) + k)
  {
    var c' := EmitAll(g, q).code;
    assert BlockAt(q, k) && c'[Pc(g) + k] == q[k];
    if k + 1 < |q| { assert BlockAt(q, k + 1) && c'[Pc(g) + k + 1] == q[k + 1]; }
  }

  lemma EmitWfAt(g: Gen, q: seq<Instr>, j: nat)
    requires Wf(g.code) && AllHeld(g.code, g.jpc) && Block(q) && j < Pc(g) + |q|
    ensures WfAt(EmitAll(g, q).code, j)
  {
    hide Wf, WfAt, AllHeld;
    if j < Pc(g) { OldWfAt(g, q, j); } else { NewWfAt(g, q, j - Pc(g)); }
  }

  /** Emitting keeps the state well formed, and nothing lands behind what was emitted. */
  lemma EmitWf(g: Gen, q: seq<Instr>)
    requires GenWf(g) && Block(q)
    requires |q| >= 2 ==> !(q[|q| - 2].LoadBool? && q[|q| - 2].skip)
    ensures GenWf(EmitAll(g, q)) && NoLanding(EmitAll(g, q).code)
  {
    var c := g.code;
    var c' := EmitAll(g, q).code;
    forall j | 0 <= j < |c'| ensures WfAt(c', j) { EmitWfAt(g, q, j); }
    forall j | 0 <= j < |c'|
      ensures (c'[j].Jmp? ==> c'[j].dest != |c'|) && (c'[j].LoadBool? && c'[j].skip ==> j + 2 != |c'|)
    {
      if j < |c| {
        assert WfAt(c, j);
        assert c'[j] == PatchedAt(c, g.jpc, Pc(g), None, Pc(g), j);
      } else {
        assert BlockAt(q, j - |c|) && c'[j] == q[j - |c|];
      }
    }
  }
}
