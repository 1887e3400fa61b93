/** Where the fault shows and where it cannot: expressions that fold no TESTSET are always right;
    others are right on some runs, and an example is wrong. */
module CodeFault {
  import opened Wrappers
  import opened CodeVm
  import opened CodeGen
  import opened CodeSource
  import opened CodeInv
  import opened CodeDesc
  import opened CodeCond
  import opened CodeGo
  import opened CodeLogic
  import opened CodeReg
  import opened CodeMarks
  import opened CodeTheorems

  /** The kind of an expression tells of the value at its end; it leaves through lists with jumps. */
  predicate Tells(s: Shape, w: Way) { match w case Ends(x, _) => Fits(s.k, x) case Leaves(side, _) => if side then s.t else s.f }

  predicate Fits(k: Kind, x: Value) {
    match k
    case VNil => x == Nil
    case VTrue => x == Bool(true)
    case VFalse => x == Bool(false)
    case VK(_) => !IsFalse(x)
    case VKNum(_) => !IsFalse(x)
    case VJmp(_) => x.Bool?
    case VReloc(_) => x.Bool?
    case _ => true
  }

  lemma {:induction false} KindTells(e: Env, x: Exp, r: Regs, held: Option<Value>, ks: seq<Value>)
    ensures Tells(ShapeOf(x, ks), WayOf(e, x, r, held, ks))
    decreases x
  {
    match x {
      case ENot(a) => KindTells(e, a, r, held, ks);
      case EAnd(a, c) => LogicTells(e, a, c, true, r, held, ks);
      case EOr(a, c) => LogicTells(e, a, c, false, r, held, ks);
      case _ =>
    }
  }

  lemma LogicTells(e: Env, a: Exp, c: Exp, want: bool, r: Regs, held: Option<Value>, ks: seq<Value>)
    ensures Tells(ShapeOf(Logic(a, c, want), ks), WayOf(e, Logic(a, c, want), r, held, ks))
    decreases Logic(a, c, want), 0
  {
    var s := ShapeOf(a, ks);
    var w := Branch(WayOf(e, a, r, held, ks), s.k, want);
    LogicWay(e, a, c, want, r, held, ks);
    KindTells(e, a, r, held, ks);
    KindTells(e, c, r, w.held, TestConsts(s, want));
  }

  /** The way has the value and truth of `x`, and delivers at most what the marks say. */
  predicate Truthful(w: Way, x: Value, m: Marks) {
    match w
    case Ends(y, held) => y == x && (held.Some? ==> m.on)
    case Leaves(side, held) =>
      side == !IsFalse(x) && (held.Some? ==> if side then m.t else m.f) && x == (if held.Some? then held.val else Bool(side))
  }

  /** If nothing is folded, every way leaves the value and has the truth of the expression. */
  lemma {:induction false} NoFoldRight(e: Env, x: Exp, r: Regs, held: Option<Value>, on: bool, ks: seq<Value>)
    requires !MarksOf(x, on, ks).folds && (held.Some? ==> on)
    ensures Truthful(WayOf(e, x, r, held, ks), Eval(e, x, r), MarksOf(x, on, ks))
    decreases x
  {
    hide ShapeOf;
    match x {
      case ENot(a) => NoFoldRight(e, a, r, held, on, ks);
      case EAnd(a, c) => NoFoldLogic(e, a, c, true, r, held, on, ks);
      case EOr(a, c) => NoFoldLogic(e, a, c, false, r, held, on, ks);
      case ECmp(op, a, c) =>
        var m, s := MarksOf(a, on, ks), ShapeOf(a, ks);
        KindTells(e, a, r, held, ks);
        NoFoldRight(e, a, r, held, on, ks);
        NoFoldRight(e, c, r, HeldStill(WayOf(e, a, r, held, ks), s), Quiet(s) && m.on, OperandConsts(s));
      case _ =>
    }
  }

  lemma NoFoldLogic(e: Env, a: Exp, c: Exp, want: bool, r: Regs, held: Option<Value>, on: bool, ks: seq<Value>)
    requires !MarksOf(Logic(a, c, want), on, ks).folds && (held.Some? ==> on)
    ensures Truthful(WayOf(e, Logic(a, c, want), r, held, ks), Eval(e, Logic(a, c, want), r), MarksOf(Logic(a, c, want), on, ks))
    decreases Logic(a, c, want), 0
  {
    var m, s := MarksOf(a, on, ks), ShapeOf(a, ks);
    var w := Branch(WayOf(e, a, r, held, ks), s.k, want);
    LogicWay(e, a, c, want, r, held, ks);
    LogicEval(e, a, c, want, r);
    LogicMarksOf(a, c, want, on, ks);
    KindTells(e, a, r, held, ks);
    hide WayOf, Eval, MarksOf, ShapeOf, TestConsts;
    NoFoldRight(e, a, r, held, on, ks);
    if w.Ends? { NoFoldRight(e, c, r, w.held, MarkOn(m, s.k, want), TestConsts(s, want)); }
  }

  lemma CarriedDelivers(g: Gen, o: Outcome)
    ensures Carried(g, o).Some? ==> Delivering(g, g.jpc)
  {}

  /** The value is right on all runs if no TESTSET is folded; and the source tells whether one is. */
  lemma PlainValueRight(e: Env, g: Gen, x: Exp, reg: nat, b: nat, r: Regs)
    requires GenWf(g) && Start(g, b, r) && Scoped(x, g.nactvar) && !FoldsTest(g, x)
    requires var (y, v) := Expr(g, x); Exp2Reg(y, v, reg).ks <= e.ks
    ensures var (y, v) := Expr(g, x); var z := Exp2Reg(y, v, reg);
      var o := Run(e, g.code, b, r); var o' := Run(e, z.code, b, r);
      Arrives(g, o) ==> Arrives(z, o') && Get(o'.regs, reg) == Eval(e, x, o.regs)
  {
    hide GenWf, Start, Run, Expr, Exp2Reg, Eval, WayOf, MarksOf, Carried, Delivering;
    var o := Run(e, g.code, b, r);
    MarksExact(g, x);
    ValueInRegister(e, g, x, reg, b, r);
    CarriedDelivers(g, o);
    if Arrives(g, o) { NoFoldRight(e, x, o.regs, Carried(g, o), Delivering(g, g.jpc), g.ks); }
  }

  /** So is the way that a condition goes. */
  lemma PlainConditionRight(e: Env, g: Gen, x: Exp, b: nat, r: Regs)
    requires GenWf(g) && Start(g, b, r) && Scoped(x, g.nactvar) && CondExp(g, x).0.ks <= e.ks && !FoldsTest(g, x)
    ensures var (z, f) := CondExp(g, x); var o := Run(e, g.code, b, r); var o' := Run(e, z.code, b, r);
      Arrives(g, o) ==> if IsFalse(Eval(e, x, o.regs)) then o'.Exit? && o'.at in f else Arrives(z, o')
  {
    hide GenWf, Start, Run, Expr, CondExp, Eval, WayOf, MarksOf, Carried, Delivering;
    var o := Run(e, g.code, b, r);
    MarksExact(g, x);
    ConditionRight(e, g, x, b, r);
    CarriedDelivers(g, o);
    if Arrives(g, o) { NoFoldRight(e, x, o.regs, Carried(g, o), Delivering(g, g.jpc), g.ks); }
  }

  /** `(((p or y) and z) or true) or z`. */
  function Around(p: Exp, y: nat, z: nat): Exp {
    EOr(EOr(EAnd(EOr(p, ELocal(y)), ELocal(z)), ETrue), ELocal(z))
  }

  /** Around any `p` without folds, the value is wrong exactly when `p` and `y` are both false. So it
      is right for all registers exactly if `p` is never false: to tell that from the source is to
      decide whether a formula over the locals is valid. */
  lemma RightIfValid(e: Env, p: Exp, y: nat, z: nat, r: Regs, ks: seq<Value>)
    requires !MarksOf(p, false, ks).folds
    ensures RightValue(e, Around(p, y, z), r, None, ks) <==> !IsFalse(Eval(e, p, r)) || !IsFalse(Get(r, y))
    ensures MarksOf(Around(p, y, z), false, ks).folds
  {
    hide MarksOf, ShapeOf;
    AroundFolds(p, y, z, ks);
    var q := EOr(p, ELocal(y));
    var a := EAnd(q, ELocal(z));
    var t := EOr(a, ETrue);
    NoFoldRight(e, p, r, None, false, ks);
    AroundShapes(p, y, z, ks);
    LogicWay(e, p, ELocal(y), false, r, None, ks);
    LogicWay(e, q, ELocal(z), true, r, None, ks);
    LogicWay(e, a, ETrue, false, r, None, ks);
    LogicWay(e, t, ELocal(z), false, r, None, ks);
    LogicEval(e, p, ELocal(y), false, r);
    LogicEval(e, q, ELocal(z), true, r);
    LogicEval(e, a, ETrue, false, r);
    LogicEval(e, t, ELocal(z), false, r);
    LeafWay(e, r, y);
    LeafWay(e, r, z);
    hide WayOf, Eval, TestConsts, HeldOn;
  }

  /** `true or x` is compiled rightly exactly where nothing that delivers is held in `jpc`. */
  lemma TrueOrFolds(x: Exp, on: bool, ks: seq<Value>)
    ensures MarksOf(EOr(ETrue, x), on, ks).folds <==> on || MarksOf(x, false, ks).folds
  {}

  lemma AroundFolds(p: Exp, y: nat, z: nat, ks: seq<Value>)
    ensures MarksOf(Around(p, y, z), false, ks).folds
  {
    var q := EOr(p, ELocal(y));
    var a := EAnd(q, ELocal(z));
    AroundShapes(p, y, z, ks);
    LogicMarksOf(q, ELocal(z), true, false, ks);
    LogicMarksOf(a, ETrue, false, false, ks);
    LogicMarksOf(EOr(a, ETrue), ELocal(z), false, false, ks);
    hide ShapeOf;
  }

  lemma AroundShapes(p: Exp, y: nat, z: nat, ks: seq<Value>)
    ensures var q := EOr(p, ELocal(y)); var a := EAnd(q, ELocal(z));
      ShapeOf(q, ks).k == VNonReloc(y) && ShapeOf(a, ks).k == VNonReloc(z) && ShapeOf(EOr(a, ETrue), ks).k == VTrue
  {}

  lemma LeafWay(e: Env, r: Regs, i: nat)
    ensures forall held, ks :: WayOf(e, ELocal(i), r, held, ks) == Ends(Get(r, i), held)
    ensures forall held, ks :: WayOf(e, ETrue, r, held, ks) == Ends(Bool(true), held)
    ensures Eval(e, ELocal(i), r) == Get(r, i) && Eval(e, ETrue, r) == Bool(true)
  {}

  /** `((x and y) or true) or z` on three locals. */
  const FAULTY: Exp := EOr(EOr(EAnd(ELocal(0), ELocal(1)), ETrue), ELocal(2))

  function ThreeLocals(): Gen { Gen([], [], -1, 3, 3, []) }

  const TESTS: seq<Instr> :=
    [TestSet(None, 0, false), Jmp(HOLD), TestSet(None, 1, true), Jmp(HOLD), Jmp(HOLD)]

  lemma TestLocal(g: Gen, r: nat, t: seq<nat>, f: seq<nat>, want: bool)
    requires r < g.nactvar <= g.freereg && g.jpc == []
    ensures var c := g.code + [TestSet(None, r, !want), Jmp(HOLD)]; var j := [Pc(g) + 1];
      GoIf(g, Desc(VNonReloc(r), t, f), want) ==
        (g.(code := c, lasttarget := |c|, jpc := if want then t else f),
         if want then Desc(VNonReloc(r), [], f + j) else Desc(VNonReloc(r), t + j, []))
  {
    assert Discharged(g) == g.code && [] + t == t && [] + f == f;
  }

  lemma LocalSame(g: Gen, r: nat, t: seq<nat>, f: seq<nat>, want: bool)
    ensures GoIf(g, Desc(VLocal(r), t, f), want) == GoIf(g, Desc(VNonReloc(r), t, f), want)
  {
    hide JumpOnCond;
  }

  lemma LeafLocal(g: Gen, r: nat)
    ensures Expr(g, ELocal(r)) == (g, Desc(VLocal(r), [], [])) && Expr(g, ETrue) == (g, Desc(VTrue, [], []))
  {}

  lemma FaultyFirst()
    ensures Expr(ThreeLocals(), EAnd(ELocal(0), ELocal(1))) == (Gen(TESTS[..2], [], 2, 3, 3, []), Desc(VNonReloc(1), [], [1]))
  {
    var g := ThreeLocals();
    LogicIs(g, ELocal(0), ELocal(1), true);
    LeafLocal(g, 0);
    LocalSame(g, 0, [], [], true);
    TestLocal(g, 0, [], [], true);
    var y := GoIf(g, Desc(VNonReloc(0), [], []), true).0;
    LeafLocal(y, 1);
    hide Expr, GoIf;
    assert TESTS[..2] == [TestSet(None, 0, false), Jmp(HOLD)] && y.code == TESTS[..2];
    assert [] + [1] == [1];
  }

  lemma FaultySecond()
    ensures Expr(ThreeLocals(), EOr(EAnd(ELocal(0), ELocal(1)), ETrue)) == (Gen(TESTS[..4], [1], 4, 3, 3, []), Desc(VTrue, [3], []))
  {
    var a := EAnd(ELocal(0), ELocal(1));
    FaultyFirst();
    LogicIs(ThreeLocals(), a, ETrue, false);
    var g1 := Gen(TESTS[..2], [], 2, 3, 3, []);
    TestLocal(g1, 1, [], [1], false);
    var y := GoIf(g1, Desc(VNonReloc(1), [], [1]), false).0;
    LeafLocal(y, 0);
    hide Expr, GoIf;
    assert TESTS[..4] == TESTS[..2] + [TestSet(None, 1, true), Jmp(HOLD)] && y.code == TESTS[..4];
    assert [] + [3] == [3];
  }

  lemma FoldStep(g: Gen, v: Desc)
    requires v.k.VTrue?
    ensures GoIf(g, v, false) == (Here(Jump(g).0, v.f), v.(f := [], t := v.t + Jump(g).1))
  {
    hide Jump;
  }

  lemma FoldSecond()
    ensures GoIf(Gen(TESTS[..4], [1], 4, 3, 3, []), Desc(VTrue, [3], []), false) ==
      (Gen(TESTS, [], 5, 3, 3, []), Desc(VTrue, [3, 4, 1], []))
  {
    var g := Gen(TESTS[..4], [1], 4, 3, 3, []);
    assert TESTS[..4] + [Jmp(HOLD)] == TESTS && [4] + [1] == [4, 1] && [3] + [4, 1] == [3, 4, 1];
    assert Jump(g) == (Gen(TESTS, [], 4, 3, 3, []), [4, 1]);
    FoldStep(g, Desc(VTrue, [3], []));
    hide GoIf, Jump;
    var none: seq<nat> := [];
    assert none + none == none && |TESTS| == 5;
  }

  lemma FaultyDesc()
    ensures Expr(ThreeLocals(), FAULTY) == (Gen(TESTS, [], 5, 3, 3, []), Desc(VNonReloc(2), [3, 4, 1], []))
  {
    FaultySecond();
    FoldSecond();
    LogicIs(ThreeLocals(), EOr(EAnd(ELocal(0), ELocal(1)), ETrue), ELocal(2), false);
    LeafLocal(Gen(TESTS, [], 5, 3, 3, []), 2);
    hide Expr, GoIf;
    assert [] + [3, 4, 1] == [3, 4, 1];
  }

  const LOADED: seq<Instr> := TESTS + [Move(3, 2)]

  const BEFORE: seq<Instr> := LOADED + [Jmp(HOLD), LoadBool(3, false, true), LoadBool(3, true, false)]

  const FAULTY_CODE: seq<Instr> :=
    [TestSet(Some(3), 0, false), Jmp(9), TestSet(Some(3), 1, true), Jmp(9), Jmp(8), Move(3, 2), Jmp(HOLD),
     LoadBool(3, false, true), LoadBool(3, true, false)]

  lemma FaultyPatch()
    ensures PatchBoth(BEFORE, [], [3, 4, 1], 3) == FAULTY_CODE
  {
    assert PatchList(BEFORE, [], 9, Some(3), 7) == BEFORE;
    assert |BEFORE| == 9;
    forall j | 0 <= j < 9 ensures PatchedAt(BEFORE, [3, 4, 1], 9, Some(3), 8, j) == FAULTY_CODE[j] {}
  }

  lemma FaultyLoads(m: Gen)
    requires m.code == LOADED && m.jpc == []
    ensures Loads(m, true, 3).code == BEFORE
  {
    var j := Jump(m).0;
    assert j.code == LOADED + [Jmp(HOLD)] && Discharged(j) == j.code;
  }

  lemma FaultyMove()
    ensures var m := ToReg(Gen(TESTS, [], 5, 3, 3, []), Desc(VNonReloc(2), [3, 4, 1], []), 3);
      m.code == LOADED && m.jpc == [] && NeedValue(LOADED, [3, 4, 1])
  {
    assert Discharged(Gen(TESTS, [], 5, 3, 3, [])) == TESTS;
    assert LOADED[3] == Jmp(HOLD) && LOADED[4] == Jmp(HOLD) && 4 in [3, 4, 1] && !Delivers(LOADED, 4);
  }

  lemma FaultyCode()
    ensures var (y, v) := Expr(ThreeLocals(), FAULTY); Exp2Reg(y, v, 3).code == FAULTY_CODE
  {
    FaultyDesc();
    hide Expr, ToReg, Loads, PatchBoth, Exp2Reg, NeedValue;
    var y := Gen(TESTS, [], 5, 3, 3, []);
    var v := Desc(VNonReloc(2), [3, 4, 1], []);
    var m := ToReg(y, v, 3);
    FaultyMove();
    Exp2RegIs(y, v, 3);
    FaultyLoads(m);
    FaultyPatch();
  }

  /** With `x` nil the value is true, but the code leaves nil in the register. */
  lemma FaultyValue(e: Env)
    ensures var (y, v) := Expr(ThreeLocals(), FAULTY); var r: Regs := map[];
      var o := Run(e, Exp2Reg(y, v, 3).code, 0, r);
      o.Fall? && Get(o.regs, 3) == Nil && Eval(e, FAULTY, r) == Bool(true)
  {
    FaultyCode();
    hide Expr, Exp2Reg;
    var c := FAULTY_CODE;
    var r: Regs := map[];
    var r3 := r[3 := Nil];
    assert Run(e, c, 9, r3) == Fall(r3);
    assert Run(e, c, 1, r3) == Fall(r3);
    assert Taken(e, c[0], r) && AtJump(c[0], r) == r3;
    assert Run(e, c, 0, r) == Fall(r3);
    FaultyMeaning(e, r);
  }

  lemma FaultyMeaning(e: Env, r: Regs)
    ensures Eval(e, FAULTY, map[]) == Bool(true)
  {
    LogicEval(e, ELocal(0), ELocal(1), true, map[]);
    LogicEval(e, EAnd(ELocal(0), ELocal(1)), ETrue, false, map[]);
    LogicEval(e, EOr(EAnd(ELocal(0), ELocal(1)), ETrue), ELocal(2), false, map[]);
    assert Eval(e, ELocal(0), map[]) == Nil && Eval(e, ETrue, map[]) == Bool(true);
    hide Eval;
  }
}
