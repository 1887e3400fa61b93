/** The loop of symbexec, as luaG_checkcode and getobjname use it (ldebug.c). */
module BcSymb {
  import opened Wrappers
  import opened LuaProto
  import opened BcCheck
  import opened BcRun

  /** The test of the words before a jump target. */
  method JumpTest(code: seq<Word>, dest: nat) returns (ok: bool)
    requires dest < |code|
    ensures ok == DestOk(code, dest)
  {
    hide Opcode, ArgC;
    var j := 0;
    while j < dest && WideSetList(code[dest - 1 - j])
      invariant 0 <= j <= dest && RunBefore(code, dest) == j + RunBefore(code, dest - j)
    {
      j := j + 1;
    }
    ok := j % 2 == 0;
  }

  /** The words after a CLOSURE. */
  method PseudoTest(code: seq<Word>, pc: nat, nup: nat) returns (ok: bool)
    requires pc + nup < |code|
    ensures ok == forall q :: pc < q <= pc + nup ==> Pseudo(code[q])
  {
    hide Opcode;
    var j := 1;
    while j <= nup
      invariant 1 <= j <= nup + 1 && forall q :: pc < q < pc + j ==> Pseudo(code[q])
    {
      if !Pseudo(code[pc + j]) { return false; }
      j := j + 1;
    }
    ok := true;
  }

  /** The checks of one instruction. */
  method CheckInstruction(p: Proto, pc: nat) returns (ok: bool)
    requires pc < |p.code|
    ensures ok == InstrOk(p, pc)
  {
    hide Opcode, ArgA, ArgB, ArgC, ArgBx, ArgSBx, HasArg, IsVararg, NeedsArg, RunBefore;
    var i := p.code[pc];
    var op := Opcode(i);
    if op >= NUM_OPCODES || ArgA(i) >= p.maxstacksize { return false; }
    if ModeOf(op) == AsBx && ModeB(op) == ArgR {
      var dest := pc + 1 + ArgSBx(i);
      if !(0 <= dest < |p.code|) { return false; }
      var even := JumpTest(p.code, dest);
      if !even { return false; }
    } else if !FormatOk(p, pc) { return false; }
    if IsTest(op) && !(pc + 2 < |p.code| && Opcode(p.code[pc + 1]) == OP_JMP) { return false; }
    if op == OP_CLOSURE {
      if ArgBx(i) >= |p.p| || pc + p.p[ArgBx(i)].nups >= |p.code| { return false; }
      ok := PseudoTest(p.code, pc, p.p[ArgBx(i)].nups);
    } else {
      ok := OpOk(p, pc);
    }
  }

  /** The instruction changes register `reg`, as far as symbexec tells. */
  predicate Affects(i: Word, reg: nat) {
    var op, a := Opcode(i), ArgA(i);
    || (SetsA(op) && a == reg) || (op == OP_LOADNIL && a <= reg <= ArgB(i)) || (op == OP_SELF && reg == a + 1)
    || (op == OP_TFORLOOP && reg >= a + 2) || ((op == OP_CALL || op == OP_TAILCALL) && reg >= a)
  }

  /** `last` is the final RETURN, or an instruction before `pc` that changes `reg`. */
  predicate Changer(code: seq<Word>, last: int, pc: int, reg: nat) {
    0 <= last < |code| && (last == |code| - 1 || (last < pc && Start(code, last) && Affects(code[last], reg)))
  }

  ghost predicate CheckedTo(p: Proto, pc: nat) {
    forall s :: 0 <= s < pc && s < |p.code| && Start(p.code, s) ==> InstrOk(p, s)
  }

  /** Where symbexec goes on after a checked instruction; while it traces, it takes forward jumps and
      skips pseudo-instructions. */
  function Onward(p: Proto, pc: nat, lastpc: nat, reg: nat): (next: int)
    requires pc < |p.code|
  {
    var i := p.code[pc];
    if ModeOf(Opcode(i)) == AsBx && reg != NO_REG && pc < pc + 1 + ArgSBx(i) <= lastpc then pc + 1 + ArgSBx(i)
    else if WideSetList(i) then pc + 2
    else if Opcode(i) == OP_CLOSURE && reg != NO_REG && ArgBx(i) < |p.p| then pc + 1 + p.p[ArgBx(i)].nups
    else pc + 1
  }

  lemma OnwardStart(p: Proto, pc: nat, lastpc: nat, reg: nat)
    requires Prechecked(p) && lastpc <= |p.code| && pc < lastpc && Start(p.code, pc) && InstrOk(p, pc)
    ensures pc < Onward(p, pc, lastpc, reg) <= |p.code| && Start(p.code, Onward(p, pc, lastpc, reg))
  {
    hide Opcode, ArgC, ArgBx, ArgSBx, ArgA, ArgB;
    var i := p.code[pc];
    StartNext(p.code, pc);
    if ModeOf(Opcode(i)) == AsBx && reg != NO_REG && pc < pc + 1 + ArgSBx(i) <= lastpc {
      EvenRun(p.code, pc + 1 + ArgSBx(i));
    } else if WideSetList(i) {
      StartNext(p.code, pc + 1);
    } else if Opcode(i) == OP_CLOSURE && reg != NO_REG {
      PseudoStarts(p.code, pc, pc + 1 + p.p[ArgBx(i)].nups);
    }
  }

  lemma CheckedOn(p: Proto, pc: nat, lastpc: nat)
    requires pc < |p.code| && Start(p.code, pc) && InstrOk(p, pc) && CheckedTo(p, pc)
    ensures CheckedTo(p, Onward(p, pc, lastpc, NO_REG))
  {
    hide InstrOk, Opcode, ArgC, ArgBx, ArgSBx;
    StartNext(p.code, pc);
  }

  /** No instruction of code that passes changes the register that does not exist, but calls and loops
      may be taken for one: the word is never 0. */
  lemma NotZero(p: Proto, last: int)
    requires Prechecked(p) && CheckedTo(p, |p.code|) && Changer(p.code, last, |p.code|, NO_REG)
    ensures p.code[last] != 0
  {
    if last < |p.code| - 1 { assert InstrOk(p, last); }
  }

  /** The places that symbexec visits from `pc` on. */
  ghost function Path(p: Proto, pc: nat, lastpc: nat, reg: nat): seq<nat>
    requires lastpc <= |p.code|
    decreases lastpc - pc
  {
    if pc >= lastpc then [] else
    var next := Onward(p, pc, lastpc, reg);
    [pc] + if next > pc then Path(p, next, lastpc, reg) else []
  }

  /** `last` is the last place of the path whose instruction changes `reg`, or the final RETURN if there is none. */
  ghost predicate LastChange(code: seq<Word>, path: seq<nat>, last: int, reg: nat) {
    0 <= last < |code| &&
    ((last == |code| - 1 && forall k :: 0 <= k < |path| && path[k] < |code| ==> !Affects(code[path[k]], reg))
     || exists k :: 0 <= k < |path| && ChangesAt(code, path, k, last, reg))
  }

  ghost predicate ChangesAt(code: seq<Word>, path: seq<nat>, k: nat, last: int, reg: nat)
    requires k < |path|
  {
    path[k] == last < |code| && Affects(code[last], reg)
    && forall j :: k < j < |path| && path[j] < |code| ==> !Affects(code[path[j]], reg)
  }

  /** That place, from the end of the path. */
  ghost function LastOn(code: seq<Word>, path: seq<nat>, reg: nat): (last: int)
    ensures code != [] ==> 0 <= last < |code|
  {
    if path == [] then |code| - 1 else
    var k := |path| - 1;
    if path[k] < |code| && Affects(code[path[k]], reg) then path[k] else LastOn(code, path[..k], reg)
  }

  lemma {:induction false} LastOnIs(code: seq<Word>, path: seq<nat>, reg: nat)
    requires code != []
    ensures LastChange(code, path, LastOn(code, path, reg), reg)
    decreases |path|
  {
    hide Affects;
    if path != [] {
      var k, last := |path| - 1, LastOn(code, path, reg);
      if path[k] < |code| && Affects(code[path[k]], reg) {
        assert ChangesAt(code, path, k, last, reg);
      } else {
        LastOnIs(code, path[..k], reg);
        if j :| 0 <= j < k && ChangesAt(code, path[..k], j, last, reg) { assert ChangesAt(code, path, j, last, reg); }
      }
    }
  }

  lemma LastMore(code: seq<Word>, done: seq<nat>, pc: nat, reg: nat)
    requires pc < |code|
    ensures LastOn(code, done + [pc], reg) == if Affects(code[pc], reg) then pc else LastOn(code, done, reg)
  {
    assert (done + [pc])[..|done|] == done;
  }

  lemma PathOn(p: Proto, done: seq<nat>, pc: nat, lastpc: nat, reg: nat)
    requires pc < lastpc <= |p.code| && pc < Onward(p, pc, lastpc, reg)
    ensures done + Path(p, pc, lastpc, reg) == (done + [pc]) + Path(p, Onward(p, pc, lastpc, reg), lastpc, reg)
  {
    PathStep(p, pc, lastpc, reg);
    hide Affects, Onward, Path;
    var rest := Path(p, Onward(p, pc, lastpc, reg), lastpc, reg);
    assert done + ([pc] + rest) == (done + [pc]) + rest;
  }

  lemma PathStep(p: Proto, pc: nat, lastpc: nat, reg: nat)
    requires pc < lastpc <= |p.code| && pc < Onward(p, pc, lastpc, reg)
    ensures Path(p, pc, lastpc, reg) == [pc] + Path(p, Onward(p, pc, lastpc, reg), lastpc, reg)
  {
    hide Onward;
  }

  ghost predicate AllStarts(p: Proto, path: seq<nat>, lastpc: nat)
    requires lastpc <= |p.code|
  {
    forall k :: 0 <= k < |path| ==> path[k] < lastpc && Start(p.code, path[k])
  }

  /** In accepted code symbexec visits beginnings of instructions. */
  lemma {:induction false} PathStarts(p: Proto, pc: nat, lastpc: nat, reg: nat)
    requires Accepts(p) && pc <= |p.code| && Start(p.code, pc) && lastpc <= |p.code|
    ensures AllStarts(p, Path(p, pc, lastpc, reg), lastpc)
    decreases lastpc - pc
  {
    hide InstrOk, Onward, Start;
    if pc < lastpc {
      assert InstrOk(p, pc);
      OnwardStart(p, pc, lastpc, reg);
      PathStep(p, pc, lastpc, reg);
      PathStarts(p, Onward(p, pc, lastpc, reg), lastpc, reg);
    }
  }

  /** The place whose instruction symbexec returns. */
  ghost function Last(p: Proto, lastpc: nat, reg: nat): int
    requires lastpc <= |p.code|
  { LastOn(p.code, Path(p, 0, lastpc, reg), reg) }

  lemma LastIs(p: Proto, lastpc: nat, reg: nat)
    requires Accepts(p) && lastpc <= |p.code|
    ensures LastChange(p.code, Path(p, 0, lastpc, reg), Last(p, lastpc, reg), reg)
    ensures Changer(p.code, Last(p, lastpc, reg), lastpc, reg)
  {
    hide Path, Affects, InstrOk;
    StartZero(p.code);
    PathStarts(p, 0, lastpc, reg);
    LastOnIs(p.code, Path(p, 0, lastpc, reg), reg);
    hide LastOn, Start, Accepts;
  }

  /** symbexec: 0 if a check fails. While it traces, it gives the last instruction on its path that
      changes the register. */
  method Symbexec(p: Proto, lastpc: nat, reg: nat) returns (i: Word)
    requires lastpc <= |p.code|
    ensures reg == NO_REG && lastpc == |p.code| ==> (i != 0 <==> Accepts(p))
    ensures reg != NO_REG && Accepts(p) ==> 0 <= Last(p, lastpc, reg) < |p.code| && i == p.code[Last(p, lastpc, reg)]
  {
    hide InstrOk, Opcode, ArgA, ArgB, ArgC, ArgBx, ArgSBx, Start, Affects, Onward, LastOn, Path;
    if !Prechecked(p) { return 0; }
    var last := |p.code| - 1;
    var pc := 0;
    ghost var done: seq<nat> := [];
    StartZero(p.code);
    PathStart(p, lastpc, reg);
    while pc < lastpc
      invariant 0 <= pc <= |p.code| && Start(p.code, pc) && 0 <= last < |p.code|
      invariant done + Path(p, pc, lastpc, reg) == Path(p, 0, lastpc, reg) && last == LastOn(p.code, done, reg)
      invariant reg == NO_REG ==> CheckedTo(p, pc)
    {
      var ok := CheckInstruction(p, pc);
      if !ok { return 0; }
      OnwardStart(p, pc, lastpc, reg);
      PathOn(p, done, pc, lastpc, reg);
      LastMore(p.code, done, pc, reg);
      done := done + [pc];
      if Affects(p.code[pc], reg) { last := pc; }
      if reg == NO_REG { CheckedOn(p, pc, lastpc); }
      pc := Onward(p, pc, lastpc, reg);
    }
    i := p.code[last];
    PathEnd(p, done, pc, lastpc, reg);
    if reg == NO_REG && lastpc == |p.code| {
      LastIs(p, lastpc, reg);
      NotZero(p, last);
    }
  }

  lemma PathStart(p: Proto, lastpc: nat, reg: nat)
    requires lastpc <= |p.code| && p.code != []
    ensures [] + Path(p, 0, lastpc, reg) == Path(p, 0, lastpc, reg) && LastOn(p.code, [], reg) == |p.code| - 1
  {}

  lemma PathEnd(p: Proto, done: seq<nat>, pc: nat, lastpc: nat, reg: nat)
    requires lastpc <= |p.code| && pc >= lastpc
    ensures done + Path(p, pc, lastpc, reg) == done
  {}

  lemma StartZero(code: seq<Word>)
    ensures Start(code, 0)
  {}

  /** luaG_checkcode. */
  method CheckCode(p: Proto) returns (ok: bool)
    ensures ok == Accepts(p)
  {
    var i := Symbexec(p, |p.code|, NO_REG);
    ok := i != 0;
  }

  /** A name: a string, which may be missing, or "?". */
  datatype Name = Known(s: Option<Str>) | Question

  datatype ObjName = NoName | Local(name: Name) | Global(name: Name) | Field(name: Name) | Method(name: Name) | Upvalue(name: Name)
    | Outside

  /** The variables active at `pc`, in the order of their declarations. */
  function ActiveAt(vs: seq<LocVar>, pc: int): seq<LocVar> {
    if vs == [] then [] else (if vs[0].startpc <= pc < vs[0].endpc then [vs[0]] else []) + ActiveAt(vs[1..], pc)
  }

  /** The variables up to the first that starts behind `pc`. */
  function Begun(vs: seq<LocVar>, pc: int): seq<LocVar> {
    if vs == [] || vs[0].startpc > pc then [] else [vs[0]] + Begun(vs[1..], pc)
  }

  /** The name of register `reg` as a local variable: variables are in registers in the order in which
      they are active. */
  function LocalAt(vs: seq<LocVar>, reg: nat, pc: int): Option<Option<Str>> {
    var active := ActiveAt(Begun(vs, pc), pc);
    if reg < |active| then Some(active[reg].varname) else None
  }

  /** With the variables sorted by where they start, as the parser leaves them, none is missed. */
  lemma {:induction false} NoneMissed(vs: seq<LocVar>, pc: int)
    requires forall i, j :: 0 <= i < j < |vs| ==> vs[i].startpc <= vs[j].startpc
    ensures ActiveAt(Begun(vs, pc), pc) == ActiveAt(vs, pc)
  {
    if vs != [] {
      if vs[0].startpc > pc { NotActive(vs, pc); } else { NoneMissed(vs[1..], pc); }
    }
  }

  lemma {:induction false} NotActive(vs: seq<LocVar>, pc: int)
    requires forall i :: 0 <= i < |vs| ==> vs[i].startpc > pc
    ensures ActiveAt(vs, pc) == []
  {
    if vs != [] { NotActive(vs[1..], pc); }
  }

  /** luaF_getlocalname: the variable number `number` of those active at `pc`, counted from 1. */
  method LocalName(p: Proto, number: nat, pc: int) returns (name: Option<Option<Str>>)
    requires number > 0
    ensures name == LocalAt(p.locvars, number - 1, pc)
  {
    var i, left := 0, number;
    ghost var active := ActiveAt(Begun(p.locvars, pc), pc);
    assert p.locvars[0..] == p.locvars;
    while i < |p.locvars| && p.locvars[i].startpc <= pc
      invariant 0 <= i <= |p.locvars| && 0 < left <= number && number - left <= |active|
      invariant active[number - left..] == ActiveAt(Begun(p.locvars[i..], pc), pc)
    {
      assert p.locvars[i..][1..] == p.locvars[i + 1..];
      if pc < p.locvars[i].endpc {
        assert active[number - left..][1..] == active[number - left + 1..];
        left := left - 1;
        if left == 0 { return Some(p.locvars[i].varname); }
      }
      i := i + 1;
    }
    name := None;
  }

  /** kname. */
  function KName(p: Proto, c: nat): Name
    requires c >= BITRK ==> c - BITRK < |p.k|
  {
    if c >= BITRK && p.k[c - BITRK].CString? then Known(p.k[c - BITRK].s) else Question
  }

  /** The instruction that last changes a register before `pc`. */
  ghost function Changing(p: Proto, pc: nat, reg: nat): Word
    requires Accepts(p) && pc <= |p.code|
  { p.code[Last(p, pc, reg)] }

  /** The register a value comes from: back along moves from lower registers, as far as they have no
      local name. */
  ghost function Origin(p: Proto, pc: nat, reg: nat): (o: nat)
    requires Accepts(p) && pc <= |p.code|
    ensures o <= reg
  {
    var i := Changing(p, pc, reg);
    if LocalAt(p.locvars, reg, pc).None? && Opcode(i) == OP_MOVE && ArgB(i) < ArgA(i) == reg then Origin(p, pc, ArgB(i)) else reg
  }

  /** The name of the value that is made in register `o`. */
  ghost function NameAt(p: Proto, pc: nat, o: nat): ObjName
    requires Accepts(p) && pc <= |p.code|
  {
    hide Opcode, ArgA, ArgB, ArgC, ArgBx, Accepts, Last;
    Named(p, pc, o);
    var local, i := LocalAt(p.locvars, o, pc), Changing(p, pc, o);
    if local.Some? then Local(Known(local.val))
    else if Opcode(i) == OP_GETGLOBAL then Global(Known(p.k[ArgBx(i)].s))
    else if Opcode(i) == OP_GETTABLE then Field(KName(p, ArgC(i)))
    else if Opcode(i) == OP_SELF then Method(KName(p, ArgC(i)))
    else if Opcode(i) == OP_GETUPVAL then
      if p.upvalues == [] then Upvalue(Question)
      else if ArgB(i) < |p.upvalues| then Upvalue(Known(p.upvalues[ArgB(i)]))
      else Outside
    else NoName
  }

  /** The value comes from an upvalue whose name would lie behind the last one. */
  ghost predicate AsksOutside(p: Proto, pc: nat, reg: nat)
    requires Accepts(p) && pc <= |p.code|
  {
    var o := Origin(p, pc, reg);
    var i := Changing(p, pc, o);
    LocalAt(p.locvars, o, pc).None? && Opcode(i) == OP_GETUPVAL && 0 < |p.upvalues| <= ArgB(i)
  }

  /** getobjname, for accepted code: the name of the value where it comes from. Every index is in range
      but that of an upvalue name, exactly if the value asks outside; for that some upvalues must have
      names and some none. */
  method GetObjName(p: Proto, pc: nat, reg: nat) returns (name: ObjName)
    requires Accepts(p) && pc <= |p.code| && reg < p.maxstacksize
    ensures name == NameAt(p, pc, Origin(p, pc, reg))
    ensures name.Outside? <==> AsksOutside(p, pc, reg)
    ensures name.Outside? ==> 0 < |p.upvalues| < p.nups
    decreases reg
  {
    hide Opcode, ArgA, ArgB, ArgC, ArgBx, Accepts, Last, LocalAt;
    var local := LocalName(p, reg + 1, pc);
    if local.Some? { return Local(Known(local.val)); }
    Named(p, pc, reg);
    var i := Symbexec(p, pc, reg) by { RegisterExists(p, reg); }
    if Opcode(i) == OP_GETGLOBAL { return Global(Known(p.k[ArgBx(i)].s)); }
    if Opcode(i) == OP_MOVE {
      if ArgB(i) < ArgA(i) { name := GetObjName(p, pc, ArgB(i)); return; }
    } else if Opcode(i) == OP_GETTABLE { return Field(KName(p, ArgC(i))); }
    else if Opcode(i) == OP_GETUPVAL {
      if p.upvalues == [] { return Upvalue(Question); }
      if ArgB(i) >= |p.upvalues| { return Outside; }
      return Upvalue(Known(p.upvalues[ArgB(i)]));
    } else if Opcode(i) == OP_SELF { return Method(KName(p, ArgC(i))); }
    name := NoName;
  }

  lemma RegisterExists(p: Proto, reg: nat)
    requires Accepts(p) && reg < p.maxstacksize
    ensures reg != NO_REG
  {
    hide InstrOk, Start;
  }

  /** What the checks say of the instruction that symbexec finds. */
  lemma Named(p: Proto, pc: nat, reg: nat)
    requires Accepts(p) && pc <= |p.code|
    ensures var i := Changing(p, pc, reg); var op := Opcode(i);
      && (op == OP_GETGLOBAL ==> ArgBx(i) < |p.k| && p.k[ArgBx(i)].CString?)
      && (op == OP_GETTABLE || op == OP_SELF ==> (ArgC(i) >= BITRK ==> ArgC(i) - BITRK < |p.k|))
      && (op == OP_GETUPVAL ==> ArgB(i) < p.nups)
      && (op == OP_MOVE ==> ArgA(i) == reg)
      && |p.upvalues| <= p.nups
  {
    LastIs(p, pc, reg);
    hide Opcode, ArgA, ArgB, ArgC, ArgBx, Start, Last, LastChange;
    if Last(p, pc, reg) < |p.code| - 1 { assert InstrOk(p, Last(p, pc, reg)); }
  }

  /** A function of two upvalues that has a name for the first one and calls the second one. */
  const HALF_NAMED: Proto :=
    Proto(None, 0, 0, 2, 0, 0, 2, [OP_GETUPVAL + 0x80_0000, OP_CALL + 0x80_4000, OP_RETURN + 0x80_0000], [], [], [], [], [None])

  /** The checker accepts it; asked, at the call, for the name of what is called, getobjname looks
      behind the only name there is. */
  lemma NameOutside()
    ensures Accepts(HALF_NAMED) && AsksOutside(HALF_NAMED, 1, 0) && NameAt(HALF_NAMED, 1, Origin(HALF_NAMED, 1, 0)) == Outside
  {
    var p := HALF_NAMED;
    HalfAccepted();
    assert Onward(p, 0, 1, 0) == 1;
    assert Path(p, 0, 1, 0) == [0] && Affects(p.code[0], 0);
    assert Last(p, 1, 0) == 0;
    assert LocalAt([], 0, 1) == None;
  }

  lemma HalfWord(pc: nat)
    requires pc < 3
    ensures var i := HALF_NAMED.code[pc];
      Opcode(i) == [OP_GETUPVAL, OP_CALL, OP_RETURN][pc] && ArgA(i) == 0 && ArgB(i) == 1 && ArgC(i) == [0, 1, 0][pc]
  {}

  lemma HalfAccepted()
    ensures Accepts(HALF_NAMED)
  {
    hide Start, RunBefore, Opcode, ArgA, ArgB, ArgC, ArgBx, ArgSBx;
    var p := HALF_NAMED;
    HalfWord(2);
    assert Prechecked(p);
    forall pc | 0 <= pc < 3 ensures InstrOk(p, pc) { HalfWord(pc); }
    hide InstrOk;
  }
}
