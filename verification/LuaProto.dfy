/** Function prototypes (lobject.h) and instruction words (lopcodes.h, lopcodes.c). */
module LuaProto {
  import opened Wrappers

  type Byte = x: int | 0 <= x < 256

  type Str = seq<Byte>

  type Word = x: int | 0 <= x < 0x1_0000_0000

  /** Constants; a loaded string constant may be NULL. */
  datatype Constant = CNil | CBoolean(b: bool) | CNumber(n: int) | CString(s: Option<Str>)

  datatype LocVar = LocVar(varname: Option<Str>, startpc: int, endpc: int)

  datatype Proto = Proto(
    source: Option<Str>, linedefined: int, lastlinedefined: int,
    nups: Byte, numparams: Byte, isVararg: Byte, maxstacksize: Byte,
    code: seq<Word>, k: seq<Constant>, p: seq<Proto>,
    lineinfo: seq<int>, locvars: seq<LocVar>, upvalues: seq<Option<Str>>)

  const OP_MOVE := 0
  const OP_LOADK := 1
  const OP_LOADBOOL := 2
  const OP_LOADNIL := 3
  const OP_GETUPVAL := 4
  const OP_GETGLOBAL := 5
  const OP_GETTABLE := 6
  const OP_SETGLOBAL := 7
  const OP_SETUPVAL := 8
  const OP_SETTABLE := 9
  const OP_NEWTABLE := 10
  const OP_SELF := 11
  const OP_ADD := 12
  const OP_POW := 17
  const OP_UNM := 18
  const OP_LEN := 20
  const OP_CONCAT := 21
  const OP_JMP := 22
  const OP_EQ := 23
  const OP_LE := 25
  const OP_TEST := 26
  const OP_TESTSET := 27
  const OP_CALL := 28
  const OP_TAILCALL := 29
  const OP_RETURN := 30
  const OP_FORLOOP := 31
  const OP_FORPREP := 32
  const OP_TFORLOOP := 33
  const OP_SETLIST := 34
  const OP_CLOSE := 35
  const OP_CLOSURE := 36
  const OP_VARARG := 37
  const NUM_OPCODES := 38

  const MAXARG_SBX := 131071
  const BITRK := 256

  // The fields of an instruction: 6 bits of opcode, 8 of A, 9 of C, 9 of B; Bx is B and C together.
  function Opcode(i: Word): (o: nat)
    ensures o < 64
  { i % 64 }

  function ArgA(i: Word): (a: nat)
    ensures a < 256
  { i / 64 % 256 }

  function ArgC(i: Word): (c: nat)
    ensures c < 512
  { i / 0x4000 % 512 }

  function ArgB(i: Word): (b: nat)
    ensures b < 512
  { i / 0x80_0000 }

  function ArgBx(i: Word): (b: nat)
    ensures b < 0x4_0000
  { i / 0x4000 }

  function ArgSBx(i: Word): int { ArgBx(i) - MAXARG_SBX }

  datatype OpMode = ABC | ABx | AsBx

  datatype ArgMode = ArgN | ArgU | ArgR | ArgK

  // The table of opcode properties.
  function ModeOf(op: nat): OpMode {
    if op == OP_LOADK || op == OP_GETGLOBAL || op == OP_SETGLOBAL || op == OP_CLOSURE then ABx
    else if op == OP_JMP || op == OP_FORLOOP || op == OP_FORPREP then AsBx
    else ABC
  }

  function ModeB(op: nat): ArgMode {
    if op == OP_LOADK || op == OP_GETGLOBAL || op == OP_SETGLOBAL || op == OP_SETTABLE || OP_ADD <= op <= OP_POW || OP_EQ <= op <= OP_LE then ArgK
    else if op == OP_MOVE || op == OP_LOADNIL || op == OP_GETTABLE || op == OP_SELF || OP_UNM <= op <= OP_JMP
         || op == OP_TEST || op == OP_TESTSET || op == OP_FORLOOP || op == OP_FORPREP then ArgR
    else if op == OP_TFORLOOP || op == OP_CLOSE then ArgN
    else ArgU
  }

  function ModeC(op: nat): ArgMode {
    if op == OP_GETTABLE || op == OP_SETTABLE || op == OP_SELF || OP_ADD <= op <= OP_POW || OP_EQ <= op <= OP_LE then ArgK
    else if op == OP_CONCAT then ArgR
    else if op == OP_LOADBOOL || op == OP_NEWTABLE || OP_TEST <= op <= OP_TAILCALL || op == OP_TFORLOOP || op == OP_SETLIST then ArgU
    else ArgN
  }

  /** The instruction sets register A. */
  predicate SetsA(op: nat) {
    !(op == OP_SETGLOBAL || op == OP_SETUPVAL || op == OP_SETTABLE || OP_JMP <= op <= OP_LE
      || op == OP_RETURN || OP_TFORLOOP <= op <= OP_CLOSE)
  }

  /** The instruction is a test: the next one is a jump. */
  predicate IsTest(op: nat) { OP_EQ <= op <= OP_TESTSET || op == OP_TFORLOOP }

  /** An instruction whose C operand is the next word, a count. */
  predicate WideSetList(i: Word) { Opcode(i) == OP_SETLIST && ArgC(i) == 0 }
}
