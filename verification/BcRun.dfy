/** What the interpreter (lvm.c) does with code the checker has accepted. */
module BcRun {
  import opened Wrappers
  import opened LuaProto
  import opened BcCheck

  /** Where the interpreter is in a function; `open` if the last instruction left an open list of values. */
  datatype Point = Point(pc: int, open: bool)

  /** One turn of the main loop of luaV_execute, within one function; the values in registers decide
      which of the possible points is next. */
  predicate Steps(p: Proto, x: Point, y: Point) {
    0 <= x.pc < |p.code| &&
    var pc, i := x.pc, p.code[x.pc];
    var op := Opcode(i);
    && y.open == ((op == OP_CALL && ArgC(i) == 0) || op == OP_TAILCALL || (op == OP_VARARG && ArgB(i) == 0))
    && if op == OP_LOADBOOL then y.pc == pc + (if ArgC(i) != 0 then 2 else 1)
      else if op == OP_JMP || op == OP_FORPREP then y.pc == pc + 1 + ArgSBx(i)
      else if op == OP_FORLOOP then y.pc == pc + 1 || y.pc == pc + 1 + ArgSBx(i)
      else if IsTest(op) then y.pc == pc + 2 || (pc + 1 < |p.code| && y.pc == pc + 2 + ArgSBx(p.code[pc + 1]))
      else if op == OP_SETLIST then y.pc == pc + (if ArgC(i) == 0 then 2 else 1)
      else if op == OP_CLOSURE then ArgBx(i) < |p.p| && y.pc == pc + 1 + p.p[ArgBx(i)].nups
      else op != OP_RETURN && y.pc == pc + 1
  }

  ghost predicate IsRun(p: Proto, run: seq<Point>) {
    |run| > 0 && run[0] == Point(0, false) && forall n :: 0 < n < |run| ==> Steps(p, run[n - 1], run[n])
  }

  ghost predicate Reachable(p: Proto, x: Point) { exists run :: IsRun(p, run) && run[|run| - 1] == x }

  /** The point is at an instruction of the function. */
  predicate OnInstruction(p: Proto, x: Point) { 0 <= x.pc < |p.code| && Start(p.code, x.pc) }

  /** What the checker tests of LOADBOOL when C is 1. */
  predicate SkipOk(p: Proto, pc: int) { 0 <= pc && pc + 2 < |p.code| && !WideSetList(p.code[pc + 1]) }

  predicate SkipsAt(p: Proto, pc: int) { 0 <= pc < |p.code| && Opcode(p.code[pc]) == OP_LOADBOOL && ArgC(p.code[pc]) != 0 }

  predicate RK(x: nat, r: int) { x < BITRK && r == x }

  /** Instruction `i` names register `r`. */
  predicate Names(i: Word, r: int) {
    var op := Opcode(i);
    var a, b, c := ArgA(i), ArgB(i), ArgC(i);
    if op == OP_MOVE || OP_UNM <= op <= OP_LEN || op == OP_TESTSET then r == a || r == b
    else if op == OP_LOADNIL then r == b || a <= r <= b
    else if op == OP_GETTABLE then r == a || r == b || RK(c, r)
    else if op == OP_SETTABLE || OP_ADD <= op <= OP_POW then r == a || RK(b, r) || RK(c, r)
    else if op == OP_SELF then r == a || r == a + 1 || r == b || RK(c, r)
    else if op == OP_CONCAT then r == a || b <= r <= c
    else if op == OP_JMP then false
    else if OP_EQ <= op <= OP_LE then RK(b, r) || RK(c, r)
    else if op == OP_CALL then r == a || a <= r < a + b || a <= r < a + c - 1
    else if op == OP_TAILCALL then r == a || a <= r < a + b
    else if op == OP_RETURN || op == OP_VARARG then a <= r < a + b - 1
    else if op == OP_FORLOOP then a <= r <= a + 3
    else if op == OP_FORPREP then a <= r <= a + 2
    else if op == OP_TFORLOOP then a <= r <= a + 2 + c
    else if op == OP_SETLIST then a <= r <= a + b
    else r == a
  }

  /** Instruction `i` uses constant `x`. */
  predicate UsesConstant(i: Word, x: int) {
    var op := Opcode(i);
    if op == OP_LOADK || op == OP_GETGLOBAL || op == OP_SETGLOBAL then x == ArgBx(i)
    else if op == OP_GETTABLE || op == OP_SELF then x == ArgC(i) - BITRK
    else if op == OP_SETTABLE || OP_ADD <= op <= OP_POW || OP_EQ <= op <= OP_LE then x == ArgB(i) - BITRK || x == ArgC(i) - BITRK
    else false
  }

  predicate UsesUpvalue(i: Word, x: int) { (Opcode(i) == OP_GETUPVAL || Opcode(i) == OP_SETUPVAL) && x == ArgB(i) }

  /** The explicit operands of one instruction word are in bounds. */
  ghost predicate OperandsOk(p: Proto, i: Word) {
    && (forall r :: Names(i, r) ==> r < p.maxstacksize)
    && (forall x :: UsesConstant(i, x) ==> x < |p.k|)
    && (forall x :: UsesUpvalue(i, x) ==> x < p.nups)
    && ((Opcode(i) == OP_GETGLOBAL || Opcode(i) == OP_SETGLOBAL) ==> ArgBx(i) < |p.k| && p.k[ArgBx(i)].CString?)
  }

  /** The words after `pc` that the instruction there reads itself. */
  predicate Extra(p: Proto, pc: nat, q: int)
    requires pc < |p.code|
  {
    var i := p.code[pc];
    if IsTest(Opcode(i)) || WideSetList(i) then q == pc + 1
    else Opcode(i) == OP_CLOSURE && ArgBx(i) < |p.p| && pc < q <= pc + p.p[ArgBx(i)].nups
  }

  /** The `n` words after `pc` are pseudo-instructions that capture registers and upvalues. */
  ghost predicate CapturesOk(p: Proto, pc: nat, n: nat) {
    forall q :: pc < q <= pc + n ==> q < |p.code| && Pseudo(p.code[q]) && OperandsOk(p, p.code[q])
  }

  /** All that the interpreter does with the instruction at `pc` stays in bounds. */
  ghost predicate SafeAt(p: Proto, pc: nat)
    requires pc < |p.code|
  {
    var i := p.code[pc];
    && Opcode(i) < NUM_OPCODES && OperandsOk(p, i)
    && (forall q :: Extra(p, pc, q) ==> q < |p.code|)
    && (IsTest(Opcode(i)) ==> pc + 1 < |p.code| && Opcode(p.code[pc + 1]) == OP_JMP)
    && (Opcode(i) == OP_CLOSURE ==> ArgBx(i) < |p.p| && CapturesOk(p, pc, p.p[ArgBx(i)].nups))
  }

  /** The operands of an instruction that has passed the checker. */
  lemma CheckedOperands(p: Proto, pc: nat)
    requires pc < |p.code| && InstrOk(p, pc)
    ensures OperandsOk(p, p.code[pc])
  {}

  lemma Checked(p: Proto, pc: nat)
    requires Accepts(p) && pc < |p.code| && Start(p.code, pc)
    ensures InstrOk(p, pc) && Prechecked(p)
  {}

  /** The words after an instruction that is no wide SETLIST are instructions too, while they are pseudo-instructions. */
  lemma {:induction false} PseudoStarts(code: seq<Word>, pc: nat, q: nat)
    requires pc < q <= |code| && Start(code, pc) && !WideSetList(code[pc]) && forall x :: pc < x < q ==> Pseudo(code[x])
    ensures Start(code, q)
    decreases q
  {
    StartNext(code, q - 1);
    if pc + 1 < q { PseudoStarts(code, pc, q - 1); }
  }

  /** At an instruction of accepted code the interpreter stays in bounds. */
  lemma AcceptedSafe(p: Proto, pc: nat)
    requires Accepts(p) && pc < |p.code| && Start(p.code, pc)
    ensures SafeAt(p, pc)
  {
    var i := p.code[pc];
    assert InstrOk(p, pc);
    CheckedOperands(p, pc);
    if Opcode(i) == OP_CLOSURE {
      forall q | pc < q <= pc + p.p[ArgBx(i)].nups ensures Pseudo(p.code[q]) && OperandsOk(p, p.code[q]) {
        PseudoStarts(p.code, pc, q);
        assert InstrOk(p, q);
        CheckedOperands(p, q);
      }
    }
  }

  /** The code after a checked instruction that is neither RETURN nor a wide SETLIST. */
  lemma StepAfter(p: Proto, pc: nat)
    requires Accepts(p) && pc < |p.code| && Start(p.code, pc) && Opcode(p.code[pc]) != OP_RETURN
    ensures pc + 1 < |p.code| && (!WideSetList(p.code[pc]) ==> Start(p.code, pc + 1))
    ensures WideSetList(p.code[pc]) ==> pc + 2 < |p.code| && Start(p.code, pc + 2)
  {
    StartNext(p.code, pc);
    StartNext(p.code, pc + 1);
    assert InstrOk(p, pc);
  }

  /** A jump in accepted code. */
  lemma StepJump(p: Proto, pc: nat)
    requires Accepts(p) && pc < |p.code| && Start(p.code, pc) && ModeOf(Opcode(p.code[pc])) == AsBx
    ensures OnInstruction(p, Point(pc + 1 + ArgSBx(p.code[pc]), false))
  {
    hide Accepts, Opcode, ArgBx, OpOk, Start, IsTest;
    Checked(p, pc);
    assert DestOk(p.code, pc + 1 + ArgSBx(p.code[pc]));
    EvenRun(p.code, pc + 1 + ArgSBx(p.code[pc]));
  }

  /** The jump after a test. */
  lemma StepTest(p: Proto, pc: nat)
    requires Accepts(p) && pc < |p.code| && Start(p.code, pc) && IsTest(Opcode(p.code[pc]))
    ensures pc + 2 < |p.code| && Start(p.code, pc + 2) && OnInstruction(p, Point(pc + 2 + ArgSBx(p.code[pc + 1]), false))
  {
    hide Accepts, Opcode, ArgBx, ArgSBx, OpOk, FormatOk, Start;
    Checked(p, pc);
    StepAfter(p, pc);
    StepAfter(p, pc + 1);
    StepJump(p, pc + 1);
  }

  /** The code after a CLOSURE and its pseudo-instructions. */
  lemma StepClosure(p: Proto, pc: nat)
    requires Accepts(p) && pc < |p.code| && Start(p.code, pc) && Opcode(p.code[pc]) == OP_CLOSURE
    ensures ArgBx(p.code[pc]) < |p.p| && OnInstruction(p, Point(pc + 1 + p.p[ArgBx(p.code[pc])].nups, false))
  {
    hide Accepts, Opcode, ArgA, ArgB, ArgC, ArgBx, FormatOk, Start;
    Checked(p, pc);
    var q := pc + 1 + p.p[ArgBx(p.code[pc])].nups;
    assert pc < q - 1 ==> Pseudo(p.code[q - 1]);
    PseudoStarts(p.code, pc, q);
  }

  /** One step from an instruction of accepted code comes to another, if it is no unchecked skip. */
  lemma StepOn(p: Proto, x: Point, y: Point)
    requires Accepts(p) && OnInstruction(p, x) && Steps(p, x, y) && (SkipsAt(p, x.pc) ==> SkipOk(p, x.pc))
    ensures OnInstruction(p, y)
  {
    hide Accepts, Opcode, ArgA, ArgB, ArgC, ArgBx, ArgSBx, Start;
    var pc, op := x.pc, Opcode(p.code[x.pc]);
    if op != OP_RETURN { StepAfter(p, pc); }
    if ModeOf(op) == AsBx { StepJump(p, pc); }
    else if IsTest(op) { StepTest(p, pc); }
    else if op == OP_CLOSURE { StepClosure(p, pc); }
    else if SkipsAt(p, pc) { StartNext(p.code, pc + 1); }
  }

  /** Every LOADBOOL that the interpreter comes to and that skips satisfies what the checker demands of it
      for C = 1. */
  ghost predicate SkipsOk(p: Proto) {
    forall x :: Reachable(p, x) && OnInstruction(p, x) && SkipsAt(p, x.pc) ==> SkipOk(p, x.pc)
  }

  /** The prefix of a run is a run. */
  lemma {:induction false} RunOn(p: Proto, run: seq<Point>, n: nat)
    requires Accepts(p) && IsRun(p, run) && n < |run|
    requires SkipsOk(p)
    ensures OnInstruction(p, run[n])
    decreases n
  {
    if n > 0 {
      RunOn(p, run, n - 1);
      assert IsRun(p, run[..n]) && run[..n][n - 1] == run[n - 1];
      StepOn(p, run[n - 1], run[n]);
    }
  }

  lemma ReachNext(p: Proto, x: Point, y: Point)
    requires Reachable(p, x) && Steps(p, x, y)
    ensures Reachable(p, y)
  {
    var run: seq<Point> :| IsRun(p, run) && run[|run| - 1] == x;
    var longer := run + [y];
    assert IsRun(p, longer) && longer[|longer| - 1] == y;
  }

  lemma OkSkipsStay(p: Proto, x: Point)
    requires Accepts(p) && SkipsOk(p) && Reachable(p, x)
    ensures OnInstruction(p, x)
  {
    hide Accepts, Steps, SkipOk, SkipsAt, OnInstruction;
    var run: seq<Point> :| IsRun(p, run) && run[|run| - 1] == x;
    RunOn(p, run, |run| - 1);
  }

  lemma StayingSkips(p: Proto, x: Point)
    requires Reachable(p, x) && OnInstruction(p, x) && SkipsAt(p, x.pc) && forall y :: Reachable(p, y) ==> OnInstruction(p, y)
    ensures SkipOk(p, x.pc)
  {
    hide Reachable, Start, Opcode, ArgC;
    ReachNext(p, x, Point(x.pc + 2, false));
    assert OnInstruction(p, Point(x.pc + 2, false));
    StartNext(p.code, x.pc);
    StartNext(p.code, x.pc + 1);
  }

  /** The interpreter always stands at an instruction of accepted code, exactly if its skips are such. */
  lemma AlwaysOnInstruction(p: Proto)
    requires Accepts(p)
    ensures SkipsOk(p) <==> forall x :: Reachable(p, x) ==> OnInstruction(p, x)
  {
    hide Accepts, Reachable, OnInstruction, SkipsAt, SkipOk;
    if SkipsOk(p) {
      forall x | Reachable(p, x) ensures OnInstruction(p, x) { OkSkipsStay(p, x); }
    }
    if forall x :: Reachable(p, x) ==> OnInstruction(p, x) {
      forall x | Reachable(p, x) && OnInstruction(p, x) && SkipsAt(p, x.pc) ensures SkipOk(p, x.pc) { StayingSkips(p, x); }
    }
  }

  /** LOADBOOL as the compiler emits it, with 0 or 1 as its skip flag. */
  predicate PlainSkips(code: seq<Word>) {
    forall pc :: 0 <= pc < |code| && Start(code, pc) && Opcode(code[pc]) == OP_LOADBOOL ==> ArgC(code[pc]) <= 1
  }

  /** Accepted code with plain skips is safe to run: every point the interpreter comes to is an
      instruction, never a count word, and what it does there stays in bounds. */
  lemma RunsSafely(p: Proto, x: Point)
    requires Accepts(p) && PlainSkips(p.code) && Reachable(p, x)
    ensures OnInstruction(p, x) && SafeAt(p, x.pc)
  {
    forall y | Reachable(p, y) && OnInstruction(p, y) && SkipsAt(p, y.pc) ensures SkipOk(p, y.pc) {
      assert InstrOk(p, y.pc);
    }
    AlwaysOnInstruction(p);
    AcceptedSafe(p, x.pc);
  }

  /** The next instruction takes the open list of values. */
  predicate Taken(p: Proto, x: Point) { 0 <= x.pc < |p.code| && TakesOpen(p.code[x.pc]) }

  predicate TailCalls(p: Proto, pc: int) { 0 <= pc < |p.code| && Opcode(p.code[pc]) == OP_TAILCALL }

  /** The checker demands this of a tail call only if C is 0. */
  ghost predicate TailCallsOk(p: Proto) {
    forall x :: Reachable(p, x) && TailCalls(p, x.pc) ==> OpenOk(p, x.pc)
  }

  lemma OpenStep(p: Proto, x: Point)
    requires Accepts(p) && PlainSkips(p.code) && TailCallsOk(p) && Reachable(p, x) && x.open
    ensures Taken(p, x)
  {
    hide Accepts, PlainSkips, Opcode, ArgB, ArgC, SafeAt, FormatOk, Reachable;
    var y := Before(p, x);
    RunsSafely(p, y);
    Checked(p, y.pc);
  }

  /** The point before a reachable point that is not the first. */
  lemma Before(p: Proto, x: Point) returns (y: Point)
    requires Reachable(p, x) && x.open
    ensures Reachable(p, y) && Steps(p, y, x)
  {
    hide Steps;
    var run: seq<Point> :| IsRun(p, run) && run[|run| - 1] == x;
    var n := |run| - 1;
    assert IsRun(p, run[..n]) && run[..n][n - 1] == run[n - 1];
    y := run[n - 1];
  }

  lemma TakenAfter(p: Proto, x: Point)
    requires Reachable(p, x) && TailCalls(p, x.pc) && forall y :: Reachable(p, y) && y.open ==> Taken(p, y)
    ensures OpenOk(p, x.pc)
  {
    ReachNext(p, x, Point(x.pc + 1, true));
    assert Taken(p, Point(x.pc + 1, true));
  }

  /** An open list of values is always taken by the next instruction, exactly if that holds after the
      tail calls the interpreter comes to. */
  lemma OpenIsTaken(p: Proto)
    requires Accepts(p) && PlainSkips(p.code)
    ensures TailCallsOk(p) <==> forall x :: Reachable(p, x) && x.open ==> Taken(p, x)
  {
    hide Accepts, PlainSkips, Reachable, Taken, OpenOk, Opcode;
    if TailCallsOk(p) {
      forall x | Reachable(p, x) && x.open ensures Taken(p, x) { OpenStep(p, x); }
    }
    if forall x :: Reachable(p, x) && x.open ==> Taken(p, x) {
      forall x | Reachable(p, x) && TailCalls(p, x.pc) ensures OpenOk(p, x.pc) { TakenAfter(p, x); }
    }
  }

  /** Tail calls as the compiler emits them, with 0 as C, are such. */
  lemma PlainTailCalls(p: Proto)
    requires Accepts(p) && PlainSkips(p.code)
    requires forall pc :: 0 <= pc < |p.code| && Start(p.code, pc) && Opcode(p.code[pc]) == OP_TAILCALL ==> ArgC(p.code[pc]) == 0
    ensures TailCallsOk(p)
  {
    forall x | Reachable(p, x) && TailCalls(p, x.pc) ensures OpenOk(p, x.pc) {
      RunsSafely(p, x);
      Checked(p, x.pc);
    }
  }

  /** LOADBOOL with 2 as its skip flag, then RETURN. */
  const OUTSIDE: Proto := Proto(None, 0, 0, 0, 0, 0, 2, [0x8002, 0x80_001E], [], [], [], [], [])

  /** The checker accepts it, and the interpreter leaves the code. */
  lemma LeavesCode()
    ensures Accepts(OUTSIDE) && Reachable(OUTSIDE, Point(2, false)) && |OUTSIDE.code| == 2 && !PlainSkips(OUTSIDE.code)
  {
    var run := [Point(0, false), Point(2, false)];
    assert Start(OUTSIDE.code, 0) && Start(OUTSIDE.code, 1);
    assert Opcode(0x8002) == OP_LOADBOOL && ArgC(0x8002) == 2;
    assert IsRun(OUTSIDE, run) && run[|run| - 1] == Point(2, false);
  }

  /** TAILCALL with 1 as C, then MOVE and RETURN. */
  const LEFT_OPEN: Proto := Proto(None, 0, 0, 0, 0, 0, 2, [0x80_401D, 0, 0x80_001E], [], [], [], [], [])

  lemma OpenAccepted()
    ensures Accepts(LEFT_OPEN) && PlainSkips(LEFT_OPEN.code)
  {
    assert Start(LEFT_OPEN.code, 0) && Start(LEFT_OPEN.code, 1) && Start(LEFT_OPEN.code, 2);
    assert Opcode(0x80_401D) == OP_TAILCALL;
  }

  /** The checker accepts it, and after the tail call nothing takes the results. */
  lemma LeavesOpen()
    ensures Accepts(LEFT_OPEN) && PlainSkips(LEFT_OPEN.code)
    ensures Reachable(LEFT_OPEN, Point(1, true)) && !Taken(LEFT_OPEN, Point(1, true))
  {
    hide Accepts, PlainSkips;
    OpenAccepted();
    var run := [Point(0, false), Point(1, true)];
    assert IsRun(LEFT_OPEN, run) && run[|run| - 1] == Point(1, true);
  }
}
