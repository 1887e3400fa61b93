/** The bytecode checker (ldebug.c). */
module BcCheck {
  import opened LuaProto

  const MAXSTACK := 250
  const NO_REG := 255

  // is_vararg is a bit set: 1 has an arg table, 2 is vararg, 4 needs the arg table.
  predicate HasArg(v: Byte) { v % 2 == 1 }
  predicate IsVararg(v: Byte) { v / 2 % 2 == 1 }
  predicate NeedsArg(v: Byte) { v / 4 % 2 == 1 }

  /** precheck. */
  predicate Prechecked(p: Proto) {
    && p.maxstacksize <= MAXSTACK
    && p.numparams + (if HasArg(p.isVararg) then 1 else 0) <= p.maxstacksize
    && (NeedsArg(p.isVararg) ==> HasArg(p.isVararg))
    && |p.upvalues| <= p.nups && (|p.lineinfo| == |p.code| || |p.lineinfo| == 0)
    && |p.code| > 0 && Opcode(p.code[|p.code| - 1]) == OP_RETURN
  }

  /** luaG_checkopenop: an instruction that takes an open list of values. */
  predicate TakesOpen(i: Word) {
    (Opcode(i) == OP_CALL || Opcode(i) == OP_TAILCALL || Opcode(i) == OP_RETURN || Opcode(i) == OP_SETLIST) && ArgB(i) == 0
  }

  /** checkArgMode. */
  predicate ArgOk(p: Proto, r: nat, mode: ArgMode) {
    match mode
    case ArgN => r == 0
    case ArgU => true
    case ArgR => r < p.maxstacksize
    case ArgK => if r >= BITRK then r - BITRK < |p.k| else r < p.maxstacksize
  }

  /** The words before `dest` that look like a wide SETLIST, as far as they are adjacent. */
  function RunBefore(code: seq<Word>, dest: nat): (j: nat)
    requires dest <= |code|
    ensures j <= dest && forall i :: dest - j <= i < dest ==> WideSetList(code[i])
    ensures j < dest ==> !WideSetList(code[dest - j - 1])
  {
    if dest == 0 || !WideSetList(code[dest - 1]) then 0 else RunBefore(code, dest - 1) + 1
  }

  /** A jump may go to `dest`: it is in the code, after an even run of wide SETLISTs. */
  predicate DestOk(code: seq<Word>, dest: int) { 0 <= dest < |code| && RunBefore(code, dest) % 2 == 0 }

  /** What the instruction formats demand of the instruction at `pc`. */
  predicate FormatOk(p: Proto, pc: nat)
    requires pc < |p.code|
  {
    var i := p.code[pc];
    var op := Opcode(i);
    match ModeOf(op)
    case ABC => ArgOk(p, ArgB(i), ModeB(op)) && ArgOk(p, ArgC(i), ModeC(op))
    case ABx => ModeB(op) == ArgK ==> ArgBx(i) < |p.k|
    case AsBx => ModeB(op) == ArgR ==> DestOk(p.code, pc + 1 + ArgSBx(i))
  }

  predicate OpenOk(p: Proto, pc: nat) { pc + 1 < |p.code| && TakesOpen(p.code[pc + 1]) }

  predicate Pseudo(i: Word) { Opcode(i) == OP_GETUPVAL || Opcode(i) == OP_MOVE }

  /** What the opcodes demand of the instruction at `pc`. */
  predicate OpOk(p: Proto, pc: nat)
    requires pc < |p.code|
  {
    var i := p.code[pc];
    var op := Opcode(i);
    var a, b, c, bx, m := ArgA(i), ArgB(i), ArgC(i), ArgBx(i), p.maxstacksize;
    if op == OP_LOADBOOL then c == 1 ==> pc + 2 < |p.code| && !WideSetList(p.code[pc + 1])
    else if op == OP_GETUPVAL || op == OP_SETUPVAL then b < p.nups
    else if op == OP_GETGLOBAL || op == OP_SETGLOBAL then bx < |p.k| && p.k[bx].CString?
    else if op == OP_SELF then a + 1 < m
    else if op == OP_CONCAT then b < c
    else if op == OP_TFORLOOP then c >= 1 && a + 2 + c < m
    else if op == OP_FORLOOP || op == OP_FORPREP then a + 3 < m
    else if op == OP_CALL || op == OP_TAILCALL then
      (b != 0 ==> a + b - 1 < m) && (if c == 0 then OpenOk(p, pc) else c > 1 ==> a + c - 2 < m)
    else if op == OP_RETURN then b > 1 ==> a + b - 2 < m
    else if op == OP_SETLIST then (b > 0 ==> a + b < m) && (c == 0 ==> pc + 2 < |p.code|)
    else if op == OP_CLOSURE then
      bx < |p.p| && pc + p.p[bx].nups < |p.code| && forall q :: pc < q <= pc + p.p[bx].nups ==> Pseudo(p.code[q])
    else if op == OP_VARARG then
      IsVararg(p.isVararg) && !NeedsArg(p.isVararg) && (b == 0 ==> OpenOk(p, pc)) && a + b - 2 < m
    else true
  }

  /** Everything symbexec checks of the instruction at `pc`. */
  predicate InstrOk(p: Proto, pc: nat)
    requires pc < |p.code|
  {
    var i := p.code[pc];
    && Opcode(i) < NUM_OPCODES && ArgA(i) < p.maxstacksize && FormatOk(p, pc)
    && (IsTest(Opcode(i)) ==> pc + 2 < |p.code| && Opcode(p.code[pc + 1]) == OP_JMP)
    && OpOk(p, pc)
  }

  /** `pc` is where an instruction begins, not the count word of a SETLIST: reading the code from its
      beginning, one instruction after the other, comes to it. */
  predicate Start(code: seq<Word>, pc: nat)
    requires pc <= |code|
  {
    pc == 0 || (Start(code, pc - 1) && !WideSetList(code[pc - 1])) || (pc >= 2 && Start(code, pc - 2) && WideSetList(code[pc - 2]))
  }

  /** luaG_checkcode. */
  predicate Accepts(p: Proto) {
    Prechecked(p) && forall pc :: 0 <= pc < |p.code| && Start(p.code, pc) ==> InstrOk(p, pc)
  }

  /** Of two adjacent words, the second begins an instruction unless the first is a wide SETLIST that does. */
  lemma {:induction false} StartNext(code: seq<Word>, pc: nat)
    requires pc < |code|
    ensures Start(code, pc + 1) <==> !(Start(code, pc) && WideSetList(code[pc]))
  {
    if pc > 0 { StartNext(code, pc - 1); }
  }

  /** The even-run test finds exactly the places where instructions begin. */
  lemma {:induction false} EvenRun(code: seq<Word>, dest: nat)
    requires dest <= |code|
    ensures RunBefore(code, dest) % 2 == 0 <==> Start(code, dest)
  {
    if dest > 0 {
      EvenRun(code, dest - 1);
      StartNext(code, dest - 1);
    }
  }
}
