/** A condition that leaves by the wrong way: a comparison whose operand was caught. */
module CodeWrong {
  import opened Wrappers
  import opened CodeVm
  import opened CodeGen
  import opened CodeSource
  import opened CodeReg
  import opened CodeFault
  import opened CodeStatic

  /** `(((x and y) or true) or z) == true`. */
  const WRONG: Exp := ECmp(EQ, FAULTY, ETrue)

  const OPERAND: Gen := Gen(FAULTY_CODE, [6], 9, 4, 3, [])

  const WRONG_CODE: seq<Instr> :=
    [TestSet(Some(3), 0, false), Jmp(9), TestSet(Some(3), 1, true), Jmp(9), Jmp(8), Move(3, 2), Jmp(9),
     LoadBool(3, false, true), LoadBool(3, true, false), Cmp(Eq, false, R(3), K(0)), Jmp(HOLD)]

  lemma FaultyGen()
    ensures Exp2Reg(Gen(TESTS, [], 5, 3, 3, []), Desc(VNonReloc(2), [3, 4, 1], []), 3) == OPERAND.(freereg := 3)
  {
    hide ToReg, Loads, PatchBoth, Exp2Reg, NeedValue;
    var y, v := Gen(TESTS, [], 5, 3, 3, []), Desc(VNonReloc(2), [3, 4, 1], []);
    var m := ToReg(y, v, 3);
    FaultyMove();
    Exp2RegIs(y, v, 3);
    FaultyPatch();
    LoadsAll(m);
    MoveOnly(y);
  }

  lemma MoveOnly(y: Gen)
    ensures ToReg(y, Desc(VNonReloc(2), [3, 4, 1], []), 3) == Emit(y, Move(3, 2))
  {}

  lemma LoadsAll(m: Gen)
    requires m.code == LOADED && m.jpc == []
    ensures Loads(m, true, 3) == m.(code := BEFORE, jpc := [6], lasttarget := 9)
  {
    var j := Jump(m).0;
    assert j.code == LOADED + [Jmp(HOLD)] && Discharged(j) == j.code;
    assert Jump(m).1 == [6];
  }

  lemma OperandGen()
    ensures var (y, v) := Expr(ThreeLocals(), FAULTY); Exp2RK(y, v) == (OPERAND, InReg(3), R(3))
  {
    hide Expr, Exp2Reg;
    FaultyDesc();
    FaultyGen();
    var y, v := Gen(TESTS, [], 5, 3, 3, []), Desc(VNonReloc(2), [3, 4, 1], []);
    Exp2RegReserve(y, v, 3);
    assert Exp2AnyReg(y, v) == (Reserve(OPERAND.(freereg := 3)), InReg(3));
  }

  lemma CompareGen()
    ensures CodeComp(OPERAND, EQ, InReg(3), Desc(VTrue, [], []))
      == (Gen(WRONG_CODE[9 := Cmp(Eq, true, R(3), K(0))], [], 9, 3, 3, [Bool(true)]), Desc(VJmp(10), [], []))
  {
    var z := OPERAND.(ks := [Bool(true)]);
    assert Exp2RK(OPERAND, InReg(3)) == (OPERAND, InReg(3), R(3));
    assert IndexOf([], Bool(true)) == 0 && [] + [Bool(true)] == [Bool(true)];
    assert Exp2RK(OPERAND, Desc(VTrue, [], [])) == (z, Desc(VK(0), [], []), K(0));
    var w := z.(freereg := 3);
    assert Discharged(w) == FAULTY_CODE[6 := Jmp(9)];
    assert FAULTY_CODE[6 := Jmp(9)] + [Cmp(Eq, true, R(3), K(0)), Jmp(HOLD)] == WRONG_CODE[9 := Cmp(Eq, true, R(3), K(0))];
    hide Exp2RK, Discharged;
    assert CondJump(w, CompInstr(EQ, R(3), K(0))) == Gen(WRONG_CODE[9 := Cmp(Eq, true, R(3), K(0))], [], 9, 3, 3, [Bool(true)]);
  }

  lemma WrongGen()
    ensures var (z, f) := CondExp(ThreeLocals(), WRONG); z.code == WRONG_CODE && f == [10]
  {
    hide CodeComp, Exp2RK;
    CompareOf();
    OperandGen();
    CompareGen();
    assert [] + [10] == [10];
  }

  lemma CompareOf()
    ensures var (y, v) := Expr(ThreeLocals(), FAULTY);
      Expr(ThreeLocals(), WRONG) == CodeComp(Exp2RK(y, v).0, EQ, Exp2RK(y, v).1, Desc(VTrue, [], []))
  {}

  /** With `x` nil and `==` as equality the condition is true, but its code leaves through the false list. */
  lemma WrongCondition(e: Env)
    requires e.ks == [Bool(true)] && e.cmp(Eq, Bool(true), Bool(true)) && !e.cmp(Eq, Nil, Bool(true))
    ensures var (z, f) := CondExp(ThreeLocals(), WRONG); var r: Regs := map[];
      var o := Run(e, z.code, 0, r);
      o.Exit? && o.at in f && Eval(e, WRONG, r) == Bool(true)
  {
    WrongGen();
    hide CondExp;
    var c := WRONG_CODE;
    var r: Regs := map[];
    var r3 := r[3 := Nil];
    assert Run(e, c, 10, r3) == Exit(10, r3);
    assert Taken(e, c[9], r3);
    assert Run(e, c, 9, r3) == Exit(10, r3);
    assert Run(e, c, 1, r3) == Exit(10, r3);
    assert Taken(e, c[0], r) && AtJump(c[0], r) == r3;
    assert Run(e, c, 0, r) == Exit(10, r3);
    FaultyMeaning(e, r);
  }
}
