/** The interpreter on code with relative offsets (the arms of luaV_execute), and the whole way:
    an expression compiled by the code generator, run by the interpreter. */
module CodeMachine {
  import opened Wrappers
  import opened CodeVm
  import opened CodeGen
  import opened CodeInv
  import opened CodeDesc
  import opened CodeNeg
  import opened CodeSource
  import opened CodeTheorems
  import opened CodeCond
  import opened CodeMarks
  import opened CodeFault
  import opened CodeStatic
  import opened CodeHeld
  import opened CodeOper
  import opened CodeThread

  /** luaV_execute from `pc` until it leaves the code at the end. A test that succeeds executes the
      jump behind it in the same step; `None` for a jump that does not go forward. */
  function Execute(e: Env, c: seq<Instr>, pc: nat, r: Regs): Option<Regs>
    decreases |c| - pc
  {
    if pc >= |c| then Some(r)
    else
      var i := c[pc];
      if i.Jmp? then (if i.dest >= 0 then Execute(e, c, pc + 1 + i.dest, r) else None)
      else if TMode(i) then
        if !Taken(e, i, r) then Execute(e, c, pc + 2, r)
        else if pc + 1 < |c| && c[pc + 1].Jmp? && c[pc + 1].dest >= 0 then Execute(e, c, pc + 2 + c[pc + 1].dest, AtJump(i, r))
        else None
      else Execute(e, c, if i.LoadBool? && i.skip then pc + 2 else pc + 1, Write(e, i, r))
  }

  ghost predicate NoneHeld(a: seq<Instr>) { forall j: nat :: !Held(a, j) }

  /** On resolved code the interpreter computes what `Run` does. */
  lemma {:induction false} ExecuteRuns(e: Env, c: seq<Instr>, a: seq<Instr>, i: nat, r: Regs)
    requires Encodes(c, a) && Wf(a) && NoneHeld(a) && Entry(a, i)
    ensures var o := Run(e, a, i, r); o.Fall? && Execute(e, c, i, r) == Some(o.regs)
    decreases |a| - i
  {
    hide SetNil;
    if i < |a| {
      assert WfAt(a, i) && EncodesAt(c, a, i) && !Held(a, i);
      if a[i].Jmp? {
        ExecuteRuns(e, c, a, a[i].dest, r);
      } else if TMode(a[i]) {
        assert WfAt(a, i + 1) && EncodesAt(c, a, i + 1) && !Held(a, i + 1);
        if Taken(e, a[i], r) { ExecuteRuns(e, c, a, a[i + 1].dest, AtJump(a[i], r)); } else { ExecuteRuns(e, c, a, i + 2, r); }
      } else {
        ExecuteRuns(e, c, a, if a[i].LoadBool? && a[i].skip then i + 2 else i + 1, Write(e, a[i], r));
      }
    }
  }

  /** Code whose lists have all been patched, once `jpc` is discharged. */
  lemma DischargedResolved(g: Gen)
    requires GenWf(g) && forall j: nat :: Held(g.code, j) ==> j in g.jpc
    ensures NoneHeld(Discharged(g))
  {
    forall j: nat | j < Pc(g) ensures !Held(Discharged(g), j) {
      assert Discharged(g)[j] == PatchedAt(g.code, g.jpc, Pc(g), None, Pc(g), j);
    }
  }

  function Fresh(locals: nat): Gen { Gen([], [], -1, locals, locals, []) }

  /** A function begins with its locals set and all other registers nil. */
  ghost predicate Clean(r: Regs, locals: nat) { forall i :: locals <= i ==> Get(r, i) == Nil }

  lemma FreshStarts(locals: nat, r: Regs)
    requires Clean(r, locals)
    ensures GenWf(Fresh(locals)) && Start(Fresh(locals), 0, r)
  {}

  /** After exp2reg on the first expression of a function, only `jpc` holds jumps. */
  lemma OnlyJpc(x: Exp, locals: nat, reg: nat)
    requires Scoped(x, locals)
    ensures var (y, v) := Expr(Fresh(locals), x); var z := Exp2Reg(y, v, reg);
      GenWf(z) && NoneHeld(Discharged(z)) && Wf(Discharged(z)) && Entry(Discharged(z), 0)
  {
    var g := Fresh(locals);
    var (y, v) := Expr(g, x);
    var z := Exp2Reg(y, v, reg);
    assert GenWf(g);
    ExprStatic(g, x);
    Parts(g, y, v);
    ExprAccounted(g, x);
    Exp2RegHeir(y, v, reg);
    Exp2RegStatic(y, v, reg);
    assert forall j: nat :: Held(z.code, j) ==> j in z.jpc by { hide GenWf, DescWf, Expr, Exp2Reg; }
    hide DescWf, Expr, Exp2Reg;
    DischargedResolved(z);
    DischargeRun(AnyEnv([]), z, 0, map[]) by { assert Entry(z.code, 0); }
  }

  /** A method body `local a1..an = ...; r = x`: the expression compiled into the next register of
      a fresh function, and what holds jumps to its end resolved, as any next instruction does. */
  method CompileValue(x: Exp, locals: nat) returns (code: seq<Instr>, reg: nat, ks: seq<Value>)
    requires Scoped(x, locals)
    ensures reg == locals
    ensures forall cmp, r :: Clean(r, locals) ==> Computes(Env(cmp, ks), x, locals, code, r)
  {
    FreshStarts(locals, map[]);
    var fs := new FuncState(locals);
    ghost var g := fs.gen;
    ExprStatic(g, x);
    var d := fs.Expr(x);
    ghost var y := fs.gen;
    ghost var v := CodeGen.Expr(g, x).1;
    Parts(g, y, v);
    reg := fs.freereg;
    NextRegIs(y, v);
    Exp2RegReserve(y, v, reg);
    var _ := fs.NextReg(d, v);
    ghost var z := Exp2Reg(y, v, reg);
    fs.DischargeJpc();
    code, ks := fs.code, fs.ks;
    OnlyJpc(x, locals, reg);
    forall cmp, r | Clean(r, locals) ensures Computes(Env(cmp, ks), x, locals, code, r) {
      CompiledRight(Env(cmp, ks), x, locals, code, r);
    }
  }

  /** The interpreter ends behind the code with the locals unchanged, and in the next register what
      the way through the source leaves: the value exactly on the right ways, and always if no
      TESTSET is folded. */
  ghost predicate Computes(e: Env, x: Exp, locals: nat, code: seq<Instr>, r: Regs) {
    var end := Execute(e, code, 0, r);
    && end.Some? && Agree(r, end.val, locals)
    && Get(end.val, locals) == Result(WayOf(e, x, r, None, []))
    && (Get(end.val, locals) == Eval(e, x, r) <==> RightValue(e, x, r, None, []))
    && (!MarksOf(x, false, []).folds ==> Get(end.val, locals) == Eval(e, x, r))
  }

  lemma CompiledRight(e: Env, x: Exp, locals: nat, code: seq<Instr>, r: Regs)
    requires Scoped(x, locals) && Clean(r, locals)
    requires var (y, v) := Expr(Fresh(locals), x); var z := Exp2Reg(y, v, locals);
      z.ks <= e.ks && Encodes(code, Discharged(z)) && GenWf(z)
    requires var (y, v) := Expr(Fresh(locals), x); var z := Exp2Reg(y, v, locals);
      NoneHeld(Discharged(z)) && Wf(Discharged(z)) && Entry(Discharged(z), 0)
    ensures Computes(e, x, locals, code, r)
  {
    hide GenWf, Start, Expr, Exp2Reg, Eval, WayOf, MarksOf, Wf, Discharged, Clean, Fresh;
    var g := Fresh(locals);
    var (y, v) := Expr(g, x);
    var z := Exp2Reg(y, v, locals);
    FreshStarts(locals, r);
    FreshScope(locals);
    FreshArrives(e, locals, r);
    ExecuteRuns(e, code, Discharged(z), 0, r);
    DischargeRun(e, z, 0, r) by { assert Entry(z.code, 0); }
    ValueInRegister(e, g, x, locals, 0, r);
    if !MarksOf(x, false, []).folds { NoFoldRight(e, x, r, None, false, []); }
  }

  lemma FreshArrives(e: Env, locals: nat, r: Regs)
    ensures var g := Fresh(locals); Run(e, g.code, 0, r) == Fall(r) && Arrives(g, Fall(r)) && Carried(g, Fall(r)) == None
  {}

  lemma FreshScope(locals: nat)
    ensures Fresh(locals).nactvar == locals && Fresh(locals).freereg == locals && Fresh(locals).ks == []
  {}
}
