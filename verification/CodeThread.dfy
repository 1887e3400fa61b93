/** Jump lists as the source keeps them: threaded through the offsets of the pending jumps
    themselves (getjump, fixjump, luaK_concat and patchlistaux in lcode.c). */
module CodeThread {
  import opened Wrappers
  import opened CodeVm
  import opened CodeGen
  import opened CodeInv
  import opened CodeDesc
  import opened CodeCond
  import opened CodeGo
  import opened CodeNeg
  import opened CodeReg
  import opened CodeSource
  import opened CodeShape
  import opened CodeEval
  import opened CodeOper
  import opened CodeExpr
  import opened CodeLogic
  import opened CodeStatic

  const NO_JUMP: int := -1

  /** getjump: the next jump of the list; a jump to itself ends it. */
  function GetJump(c: seq<Instr>, pc: nat): int
    requires pc < |c| && c[pc].Jmp?
  {
    if c[pc].dest == NO_JUMP then NO_JUMP else pc + 1 + c[pc].dest
  }

  /** The list that starts at `head` consists of the jumps `q`. */
  ghost predicate IsList(c: seq<Instr>, head: int, q: seq<nat>)
    decreases |q|
  {
    if q == [] then head == NO_JUMP
    else head == q[0] && q[0] < |c| && c[q[0]].Jmp? && IsList(c, GetJump(c, q[0]), q[1..])
  }

  /** The code `c` of the source, with relative offsets, is `a`: resolved jumps go where they go
      there; the offsets of pending ones are links. */
  ghost predicate Encodes(c: seq<Instr>, a: seq<Instr>) {
    |c| == |a| && forall i :: 0 <= i < |a| ==> EncodesAt(c, a, i)
  }

  ghost predicate EncodesAt(c: seq<Instr>, a: seq<Instr>, i: nat)
    requires i < |a| && |c| == |a|
  {
    if a[i].Jmp? then c[i].Jmp? && (a[i].dest != HOLD ==> c[i].dest == a[i].dest - (i + 1)) else c[i] == a[i]
  }

  /** A list is determined by its head. */
  lemma {:induction false} ListUnique(c: seq<Instr>, head: int, p: seq<nat>, q: seq<nat>)
    requires IsList(c, head, p) && IsList(c, head, q)
    ensures p == q
    decreases |p|
  {
    if p != [] && q != [] {
      ListUnique(c, GetJump(c, p[0]), p[1..], q[1..]);
      assert p == [p[0]] + p[1..] && q == [q[0]] + q[1..];
    }
  }

  lemma {:induction false} ListFrom(c: seq<Instr>, head: int, q: seq<nat>, i: nat)
    requires IsList(c, head, q) && i < |q|
    ensures IsList(c, q[i], q[i..])
    decreases i
  {
    if i == 0 { assert q[0..] == q; }
    else {
      ListFrom(c, GetJump(c, q[0]), q[1..], i - 1);
      assert q[1..][i - 1..] == q[i..];
    }
  }

  /** No jump is on a list twice. */
  lemma ListDistinct(c: seq<Instr>, head: int, q: seq<nat>, i: nat, j: nat)
    requires IsList(c, head, q) && i < j < |q|
    ensures q[i] != q[j]
  {
    ListFrom(c, head, q, i);
    ListFrom(c, head, q, j);
    if q[i] == q[j] { ListUnique(c, q[i], q[i..], q[j..]); }
  }

  /** Lists whose jumps are not written stay. */
  lemma {:induction false} ListStays(c: seq<Instr>, c': seq<Instr>, head: int, q: seq<nat>)
    requires IsList(c, head, q) && forall j :: j in q && j < |c| ==> j < |c'| && c'[j] == c[j]
    ensures IsList(c', head, q)
    decreases |q|
  {
    if q != [] {
      assert q[0] in q;
      forall j | j in q[1..] ensures j in q {}
      ListStays(c, c', GetJump(c, q[0]), q[1..]);
    }
  }

  lemma ListNext(c: seq<Instr>, head: int, q: seq<nat>, i: nat)
    requires IsList(c, head, q) && i < |q|
    ensures q[i] < |c| && c[q[i]].Jmp? && GetJump(c, q[i]) == if i + 1 < |q| then q[i + 1] else NO_JUMP
  {
    ListFrom(c, head, q, i);
    assert q[i..][1..] == q[i + 1..];
    if i + 1 < |q| { assert q[i..][1..][0] == q[i + 1]; }
  }

  /** fixjump, for the last element of a list: the second list is appended. */
  lemma {:induction false} ListAppend(c: seq<Instr>, head: int, p: seq<nat>, l2: int, q: seq<nat>)
    requires IsList(c, head, p) && IsList(c, l2, q) && p != [] && q != [] && Apart(p, q)
    ensures var last := p[|p| - 1]; last < |c| && IsList(c[last := Jmp(l2 - (last + 1))], head, p + q)
    decreases |p|
  {
    var last := p[|p| - 1];
    ListNext(c, head, p, |p| - 1);
    var c' := c[last := Jmp(l2 - (last + 1))];
    if |p| == 1 {
      assert last !in q && q[0] in q;
      ListStays(c, c', l2, q);
      assert (p + q)[1..] == q;
    } else {
      ListDistinct(c, head, p, 0, |p| - 1);
      ListAppend(c, GetJump(c, p[0]), p[1..], l2, q);
      assert (p + q)[1..] == p[1..] + q && p[1..][|p[1..]| - 1] == last;
    }
  }

  /** Patching the first `i` jumps of a list, then the next one. */
  lemma PatchNext(a: seq<Instr>, c: seq<Instr>, q: seq<nat>, i: nat, vt: nat, reg: Option<nat>, dt: int, c': seq<Instr>)
    requires i < |q| && AllHeld(a, q) && (forall k :: 0 <= k < i ==> q[k] != q[i]) && q[i] < |a| == |c|
    requires Encodes(c, PatchList(a, q[..i], vt, reg, dt))
    requires var j := q[i]; var tested := j > 0 && c[j - 1].TestSet?;
      c' == (if tested then c[j - 1 := PatchedTest(c[j - 1], reg)] else c)[j := Jmp((if tested then vt else dt) - (j + 1))]
    ensures Encodes(c', PatchList(a, q[..i + 1], vt, reg, dt))
  {
    var d := PatchList(a, q[..i], vt, reg, dt);
    var d' := PatchList(a, q[..i + 1], vt, reg, dt);
    var j := q[i];
    assert Held(a, j) && j !in q[..i];
    assert q[..i + 1] == q[..i] + [j];
    if j > 0 {
      assert EncodesAt(c, d, j - 1) && d[j - 1] == PatchedAt(a, q[..i], vt, reg, dt, j - 1);
      assert j - 1 in q[..i] ==> Held(a, j - 1);
    }
    forall k | 0 <= k < |a| ensures EncodesAt(c', d', k) {
      assert EncodesAt(c, d, k) && d[k] == PatchedAt(a, q[..i], vt, reg, dt, k) && d'[k] == PatchedAt(a, q[..i + 1], vt, reg, dt, k);
    }
  }

  lemma EncodesPatchNone(a: seq<Instr>, vt: nat, reg: Option<nat>, dt: int)
    ensures PatchList(a, [], vt, reg, dt) == a
  {}

  lemma HeadOf(c: seq<Instr>, head: int, q: seq<nat>)
    requires IsList(c, head, q)
    ensures head == if q == [] then NO_JUMP else q[0]
  {}

  /** expdesc: the heads of the lists. */
  datatype ExpDesc = ExpDesc(k: Kind, t: int, f: int)

  /** The lists of `d` in the code `c` are those of `v`. */
  ghost predicate Has(c: seq<Instr>, d: ExpDesc, v: Desc) {
    && d.k == v.k && IsList(c, d.t, v.t) && IsList(c, d.f, v.f) && (v.k.VJmp? ==> IsList(c, v.k.pc, [v.k.pc]))
  }

  /** Lists on hold survive what leaves their links alone. */
  lemma HasStays(c: seq<Instr>, g: Gen, c': seq<Instr>, d: ExpDesc, v: Desc)
    requires Keeps(c, g, c') && Has(c, d, v) && DescWf(g, v) && |c| == Pc(g)
    ensures Has(c', d, v)
  {
    hide GenWf, Wf, NoLanding;
    ListStays(c, c', d.t, v.t);
    ListStays(c, c', d.f, v.f);
    if v.k.VJmp? { ListStays(c, c', v.k.pc, [v.k.pc]); }
  }

  lemma ListKept(c: seq<Instr>, g: Gen, c': seq<Instr>, head: int, q: seq<nat>)
    requires Keeps(c, g, c') && IsList(c, head, q) && AllHeld(g.code, q) && Apart(g.jpc, q)
    ensures IsList(c', head, q)
  {
    ListStays(c, c', head, q);
  }

  /** `h` maps each constant to its index. */
  ghost predicate Constants(ks: seq<Value>, h: map<Value, nat>) {
    && (forall i :: 0 <= i < |ks| ==> ks[i] in h && h[ks[i]] == i)
    && (forall v :: v in h ==> h[v] < |ks| && ks[h[v]] == v)
  }

  class FuncState {
    var code: seq<Instr>       // f->code, up to pc
    var jpc: int
    var lasttarget: int
    var freereg: nat
    var nactvar: nat
    var ks: seq<Value>         // f->k
    var h: map<Value, nat>     // the index of each constant
    ghost var gen: Gen         // the same state with its lists as sequences

    ghost predicate Valid()
      reads this
    {
      && Encodes(code, gen.code) && IsList(code, jpc, gen.jpc) && AllHeld(gen.code, gen.jpc)
      && lasttarget == gen.lasttarget && freereg == gen.freereg && nactvar == gen.nactvar && ks == gen.ks && Constants(ks, h)
    }

    constructor (locals: nat)
      ensures Valid() && gen == Gen([], [], -1, locals, locals, [])
    {
      code, jpc, lasttarget, freereg, nactvar, ks, h := [], NO_JUMP, -1, locals, locals, [], map[];
      gen := Gen([], [], -1, locals, locals, []);
    }

    /** patchlistaux: TESTSETs get the register, or become TESTs, and every jump its target. */
    method PatchListAux(head: int, vtarget: nat, reg: Option<nat>, dtarget: int, ghost q: seq<nat>)
      requires Encodes(code, gen.code) && IsList(code, head, q) && AllHeld(gen.code, q)
      modifies `code, `gen
      ensures gen == old(gen).(code := PatchList(old(gen.code), q, vtarget, reg, dtarget)) && Encodes(code, gen.code)
      ensures forall j :: 0 <= j < |old(code)| && j !in q && old(code)[j].Jmp? ==> code[j] == old(code)[j]
    {
      ghost var a := gen.code;
      assert |code| == |a|;
      hide IsList, Encodes, PatchedTest;
      var list := head;
      ghost var i := 0;
      HeadOf(code, head, q);
      EncodesPatchNone(a, vtarget, reg, dtarget);
      assert q[..0] == [];
      while list != NO_JUMP
        invariant i <= |q| && list == (if i < |q| then q[i] else NO_JUMP) && |code| == |a| == |old(code)|
        invariant Encodes(code, PatchList(a, q[..i], vtarget, reg, dtarget)) && gen == old(gen)
        invariant forall j :: 0 <= j < |a| && j !in q[..i] && old(code)[j].Jmp? ==> code[j] == old(code)[j]
        decreases |q| - i
      {
        assert Held(a, q[i]);
        NodeUnpatched(old(code), code, a, head, q, i);
        var next := GetJump(code, list);
        var tested := list > 0 && code[list - 1].TestSet?;
        ghost var before := code;
        if tested { code := code[list - 1 := PatchedTest(code[list - 1], reg)]; }
        code := code[list := Jmp((if tested then vtarget else dtarget) - (list + 1))];
        PatchNext(a, before, q, i, vtarget, reg, dtarget, code);
        assert q[..i + 1] == q[..i] + [q[i]];
        list := next;
        i := i + 1;
      }
      assert q[..i] == q;
      gen := gen.(code := PatchList(a, q, vtarget, reg, dtarget));
    }

    /** dischargejpc. */
    method DischargeJpc()
      requires Valid()
      modifies `code, `jpc, `gen
      ensures Valid() && gen == old(gen).(code := Discharged(old(gen)), jpc := [])
      ensures Keeps(old(code), old(gen), code)
    {
      hide Encodes, PatchList, Constants;
      PatchListAux(jpc, |code|, None, |code|, gen.jpc) by { EncodesSize(code, gen.code); }
      jpc := NO_JUMP;
      gen := gen.(jpc := []);
      EncodesSize(old(code), old(gen.code));
      EncodesSize(code, gen.code);
      HeldJumps(old(code), old(gen.code));
    }

    /** luaK_code. */
    method Code(i: Instr) returns (pc: nat)
      requires Valid() && !i.Jmp?
      modifies `code, `jpc, `gen
      ensures Valid() && gen == Emit(old(gen), i) && Keeps(old(code), old(gen), code)
      ensures pc == |old(code)| && |code| == pc + 1
    {
      hide PatchList, Constants;
      DischargeJpc();
      pc := |code|;
      EncodesPush(code, gen.code, i);
      EncodesSize(old(code), old(gen.code));
      code := code + [i];
      gen := gen.(code := gen.code + [i]);
    }

    /** luaK_jump: the jumps held in `jpc` go on hold with the new one. */
    method Jump() returns (j: int)
      requires Valid()
      modifies `code, `jpc, `gen
      ensures Valid() && gen == CodeGen.Jump(old(gen)).0 && IsList(code, j, CodeGen.Jump(old(gen)).1)
      ensures Keeps(old(code), old(gen), code)
    {
      hide PatchList, Constants;
      ghost var q := gen.jpc;
      var held := jpc;
      jpc := NO_JUMP;
      j := |code|;
      ListStays(code, code + [Jmp(NO_JUMP)], held, q);
      EncodesPush(code, gen.code, Jmp(HOLD));
      code := code + [Jmp(NO_JUMP)];
      gen := gen.(code := gen.code + [Jmp(HOLD)], jpc := []);
      OneJump(code);
      j := Concat(j, held, [j as nat], q);
    }

    /** luaK_concat: the second list goes to the end of the first. */
    method Concat(l1: int, l2: int, ghost p: seq<nat>, ghost q: seq<nat>) returns (l: int)
      requires Encodes(code, gen.code) && IsList(code, l1, p) && IsList(code, l2, q) && Apart(p, q) && AllHeld(gen.code, p)
      modifies `code
      ensures Encodes(code, gen.code) && IsList(code, l, p + q)
      ensures forall j :: 0 <= j < |old(code)| && j !in p ==> code[j] == old(code)[j]
    {
      HeadOf(code, l1, p);
      HeadOf(code, l2, q);
      if l2 == NO_JUMP { assert p + q == p; return l1; }
      if l1 == NO_JUMP { assert p + q == q; return l2; }
      var list: nat := l1;
      ghost var i := 0;
      ListNext(code, l1, p, 0);
      while GetJump(code, list) != NO_JUMP
        invariant code == old(code) && i < |p| && list == p[i] && list < |code| && code[list].Jmp?
        invariant GetJump(code, list) == if i + 1 < |p| then p[i + 1] else NO_JUMP
        decreases |p| - i
      {
        i := i + 1;
        ListNext(code, l1, p, i);
        list := GetJump(code, list);
      }
      ListAppend(code, l1, p, l2, q);
      assert Held(gen.code, list);
      EncodesLink(code, gen.code, list, Jmp(l2 - (list + 1)));
      code := code[list := Jmp(l2 - (list + 1))];
      return l1;
    }

    /** luaK_getlabel. */
    method GetLabel()
      requires Valid()
      modifies `lasttarget, `gen
      ensures Valid() && gen == Label(old(gen))
    {
      lasttarget := |code|;
      gen := Label(gen);
    }

    /** luaK_patchtohere. */
    method PatchToHere(list: int, ghost q: seq<nat>)
      requires Valid() && IsList(code, list, q) && AllHeld(gen.code, q) && Apart(gen.jpc, q)
      modifies `code, `jpc, `lasttarget, `gen
      ensures Valid() && gen == Here(old(gen), q)
      ensures forall j :: 0 <= j < |old(code)| && j !in old(gen.jpc) ==> j < |code| && code[j] == old(code)[j]
    {
      hide Constants;
      GetLabel();
      ghost var p := gen.jpc;
      jpc := Concat(jpc, list, p, q);
      gen := gen.(jpc := p + q);
    }

    /** luaK_patchlist. */
    method PatchTo(list: int, target: nat, ghost q: seq<nat>)
      requires Valid() && IsList(code, list, q) && AllHeld(gen.code, q) && Apart(gen.jpc, q)
      modifies `code, `jpc, `lasttarget, `gen
      ensures Valid() && gen == CodeGen.PatchTo(old(gen), q, target)
    {
      hide PatchList, Constants;
      EncodesSize(code, gen.code);
      if target == |code| {
        PatchToHere(list, q);
      } else {
        ghost var c := code;
        ghost var g := gen;
        HeldJumps(c, g.code);
        PatchListAux(list, target, None, target, q);
        ListStays(c, code, jpc, g.jpc);
        assert AllHeld(gen.code, g.jpc) by { HeldElsewhere(g, q, target); }
      }
    }

    /** condjump. */
    method CondJump(i: Instr) returns (j: int)
      requires Valid() && !i.Jmp?
      modifies `code, `jpc, `gen
      ensures Valid() && gen == CodeGen.CondJump(old(gen), i) && Keeps(old(code), old(gen), code)
      ensures IsList(code, j, [Pc(gen) - 1]) && j == |code| - 1
    {
      hide PatchList, Constants, IsList;
      ghost var g := gen;
      var _ := Code(i);
      ghost var mid := code;
      ghost var g1 := gen;
      j := Jump();
      CondJumpIs(g, i);
      KeepsTwice(old(code), g, mid, g1, code);
      HeadOf(code, j, [Pc(gen) - 1]);
    }

    /** need_value: whether some jump of the list delivers no register. */
    method NeedsValue(head: int, ghost q: seq<nat>) returns (need: bool)
      requires Encodes(code, gen.code) && IsList(code, head, q) && AllHeld(gen.code, q)
      ensures need == NeedValue(gen.code, q)
    {
      hide Encodes;
      var list := head;
      ghost var i := 0;
      HeadOf(code, head, q);
      while list != NO_JUMP
        invariant i <= |q| && list == (if i < |q| then q[i] else NO_JUMP)
        invariant forall k :: 0 <= k < i ==> Delivers(gen.code, q[k])
        decreases |q| - i
      {
        ListNext(code, head, q, i);
        assert q[i] in q && Held(gen.code, q[i]);
        ThreadTest(code, gen.code, q[i]);
        if !(list > 0 && code[list - 1].TestSet?) { assert q[i] in q; return true; }
        list := GetJump(code, list);
        i := i + 1;
      }
      return false;
    }

    /** removevalues. */
    method RemoveListValues(head: int, ghost q: seq<nat>)
      requires Encodes(code, gen.code) && IsList(code, head, q) && AllHeld(gen.code, q)
      modifies `code, `gen
      ensures gen == old(gen).(code := RemoveValues(old(gen.code), q)) && Encodes(code, gen.code)
      ensures forall j :: 0 <= j < |old(code)| && old(code)[j].Jmp? ==> code[j] == old(code)[j]
    {
      ghost var a := gen.code;
      EncodesSize(code, a);
      hide IsList, Encodes, RemoveValues;
      var list := head;
      ghost var i := 0;
      HeadOf(code, head, q);
      RemoveNone(a);
      assert q[..0] == [];
      while list != NO_JUMP
        invariant i <= |q| && list == (if i < |q| then q[i] else NO_JUMP) && |code| == |a| == |old(code)| && gen == old(gen)
        invariant Encodes(code, RemoveValues(a, q[..i]))
        invariant forall j :: 0 <= j < |a| && old(code)[j].Jmp? ==> code[j] == old(code)[j]
        decreases |q| - i
      {
        assert Held(a, q[i]);
        ListNext(old(code), head, q, i);
        ghost var before := code;
        if list > 0 && code[list - 1].TestSet? { code := code[list - 1 := Test(code[list - 1].b, code[list - 1].c)]; }
        RemoveNext(a, before, q, i, code);
        list := GetJump(code, list);
        i := i + 1;
      }
      assert q[..i] == q;
      gen := gen.(code := RemoveValues(a, q));
    }

    /** luaK_nil. */
    method CodeNil(from: nat, n: nat)
      requires Valid() && n > 0
      modifies `code, `jpc, `gen
      ensures Valid() && gen == CodeGen.CodeNil(old(gen), from, n) && Keeps(old(code), old(gen), code)
    {
      EncodesSize(code, gen.code);
      if |code| > lasttarget {
        if |code| == 0 {
          if from >= nactvar { return; }
        } else {
          assert EncodesAt(code, gen.code, |code| - 1);
          var previous := code[|code| - 1];
          if previous.LoadNil? && previous.a <= from <= previous.b + 1 {
            var i := LoadNil(previous.a, if from + n - 1 > previous.b then from + n - 1 else previous.b);
            EncodesPut(code, gen.code, |code| - 1, i);
            NilLists(code, gen, jpc, i);
            code := code[|code| - 1 := i];
            gen := gen.(code := gen.code[|code| - 1 := i]);
            return;
          }
        }
      }
      hide Encodes, IsList, EmitAll, Keeps;
      var _ := Code(LoadNil(from, from + n - 1));
    }

    /** addk. */
    method AddConst(v: Value) returns (i: nat)
      requires Valid()
      modifies `ks, `h, `gen
      ensures Valid() && (gen, i) == AddK(old(gen), v)
    {
      IndexIs(ks, h, v);
      hide Encodes, IsList;
      if v in h { return h[v]; }
      i := |ks|;
      ks, h := ks + [v], h[v := |ks|];
      gen := gen.(ks := ks);
    }

    /** discharge2reg. */
    method ToReg(d: ExpDesc, reg: nat, ghost v: Desc)
      requires Valid() && d.k == v.k && (v.k.VReloc? ==> RelocAt(gen, v))
      modifies `code, `jpc, `gen, `ks, `h
      ensures Valid() && gen == CodeGen.ToReg(old(gen), v, reg) && Keeps(old(code), old(gen), code)
    {
      hide Encodes, IsList, EmitAll, Keeps, Constants, CodeGen.CodeNil;
      match d.k {
        case VNil => CodeNil(reg, 1);
        case VTrue => var _ := Code(LoadBool(reg, true, false));
        case VFalse => var _ := Code(LoadBool(reg, false, false));
        case VK(i) => var _ := Code(LoadK(reg, i));
        case VKNum(n) =>
          ghost var g := gen;
          var i := AddConst(Num(n));
          KeepsSame(code, g, gen);
          var _ := Code(LoadK(reg, i));
        case VReloc(pc) => SetReg(pc, reg);
        case VNonReloc(r) => KeepsSelf(code, gen); if reg != r { var _ := Code(Move(reg, r)); }
        case VLocal(r) => KeepsSelf(code, gen); if reg != r { var _ := Code(Move(reg, r)); }
        case VJmp(_) => KeepsSelf(code, gen);
      }
    }

    /** SETARG_A on a NOT that has no register yet. */
    method SetReg(pc: nat, reg: nat)
      requires Valid() && pc < Pc(gen) && gen.code[pc].Not?
      modifies `code, `gen
      ensures Valid() && gen == old(gen).(code := old(gen.code)[pc := Not(reg, old(gen.code)[pc].b)])
      ensures Keeps(old(code), old(gen), code)
    {
      assert EncodesAt(code, gen.code, pc);
      ghost var i := Not(reg, gen.code[pc].b);
      EncodesPut(code, gen.code, pc, i);
      var c' := code[pc := Not(reg, code[pc].b)];
      ListStays(code, c', jpc, gen.jpc);
      code := c';
      gen := gen.(code := gen.code[pc := i]);
    }

    /** The two LOADBOOLs of exp2reg, and the jump over them. */
    method CodeLoads(jump: bool, reg: nat)
      requires Valid()
      modifies `code, `jpc, `gen, `lasttarget
      ensures Valid() && gen == Loads(old(gen), jump, reg) && Keeps(old(code), old(gen), code)
    {
      ghost var g := gen;
      ghost var c := code;
      EncodesSize(c, g.code);
      var fj := NO_JUMP;
      ghost var q: seq<nat> := [];
      if jump {
        fj := Jump();
        q := CodeGen.Jump(g).1;
      }
      ghost var y := gen;
      JumpHolds(g);
      LoadsSteps(g, jump, reg);
      hide Encodes, EmitAll, Constants, Loads;
      GetLabel();
      ghost var c1 := code;
      KeepsLabel(c1, y);
      var _ := Code(LoadBool(reg, false, true));
      ListKept(c1, Label(y), code, fj, q);
      EmitHolds(Label(y), LoadBool(reg, false, true), q);
      ghost var c2 := code;
      ghost var z := gen;
      GetLabel();
      var _ := Code(LoadBool(reg, true, false));
      ListKept(c2, Label(z), code, fj, q);
      EmitHolds(Label(z), LoadBool(reg, true, false), q);
      ghost var c3 := code;
      PatchToHere(fj, q);
      KeepsLoads(c, g, c1, y, c2, z, c3, code);
    }

    /** exp2reg, its end: both lists are patched. */
    method PatchLists(t: int, f: int, reg: nat, ghost v: Desc, ghost g: Gen)
      requires Valid() && PreparedWf(g, v, gen, reg) && IsList(code, t, TrueList(v)) && IsList(code, f, v.f)
      modifies `code, `gen
      ensures Valid() && gen == old(gen).(code := PatchBoth(old(gen).code, v.f, TrueList(v), reg))
      ensures |code| == |old(code)|
      ensures forall j: nat :: j < |code| && j !in v.f && j !in TrueList(v) && old(code)[j].Jmp? ==> code[j] == old(code)[j]
    {
      hide Encodes, PreparedWf, PatchBoth, PatchList, Constants, IsList, Wf, Patchable;
      ghost var z := gen;
      ghost var c3 := code;
      PatchReady(g, v, z, reg);
      ApartLists(g, v, z, reg);
      EncodesSize(c3, z.code);
      HeldJumps(c3, z.code);
      PatchedHeld(g, v, z, reg);
      BothIsTwo(z.code, v.f, TrueList(v), reg);
      var final := |code|;
      PatchListAux(f, final, Some(reg), final - 2, v.f);
      ghost var c4 := code;
      StaysHeld(z.code, v.f, final, Some(reg), final - 2, TrueList(v));
      EncodesSize(c4, gen.code);
      ListStays(c3, c4, t, TrueList(v));
      PatchListAux(t, final, Some(reg), final - 1, TrueList(v));
      EncodesSize(code, gen.code);
      ListStays(c3, code, jpc, z.jpc);
    }

    /** exp2reg, its middle: the LOADBOOLs if any list needs them. */
    method Prepare(t: int, f: int, jump: bool, reg: nat, ghost v: Desc)
      requires Valid() && IsList(code, t, TrueList(v)) && IsList(code, f, v.f)
      requires AllHeld(gen.code, TrueList(v)) && AllHeld(gen.code, v.f) && Apart(gen.jpc, TrueList(v)) && Apart(gen.jpc, v.f)
      modifies `code, `jpc, `gen, `lasttarget
      ensures Valid() && Keeps(old(code), old(gen), code)
      ensures var y := old(gen);
        gen == Label(if NeedValue(y.code, TrueList(v)) || NeedValue(y.code, v.f) then Loads(y, jump, reg) else y)
      ensures IsList(code, t, TrueList(v)) && IsList(code, f, v.f)
    {
      hide Encodes, Loads, Constants, IsList, NeedValue;
      ghost var c2 := code;
      ghost var y := gen;
      var need := NeedsValue(t, TrueList(v));
      if !need { need := NeedsValue(f, v.f); }
      KeepsSelf(c2, y);
      if need { CodeLoads(jump, reg); }
      GetLabel();
      ListKept(c2, y, code, t, TrueList(v));
      ListKept(c2, y, code, f, v.f);
    }

    /** exp2reg, its beginning: the value in the register, and a comparison's jump in the list. */
    method Load(d: ExpDesc, reg: nat, ghost v: Desc) returns (t: int)
      requires Valid() && GenWf(gen) && DescWf(gen, v) && Has(code, d, v)
      modifies `code, `jpc, `gen, `ks, `h
      ensures Valid() && gen == CodeGen.ToReg(old(gen), v, reg)
      ensures IsList(code, t, TrueList(v)) && IsList(code, d.f, v.f) && KeepsBut(old(code), old(gen), v, code)
    {
      ghost var g := gen;
      ghost var c := code;
      ToRegStatic(g, v, reg);
      RelocFits(g, v);
      if d.k.VJmp? { JumpSame(g, v, reg); }
      hide Encodes, GenWf, DescWf, CodeGen.ToReg, Constants, IsList, Has, Kept;
      EncodesSize(c, g.code);
      ToReg(d, reg, v);
      HasStays(c, g, code, d, v);
      ghost var c1 := code;
      EncodesSize(c1, gen.code);
      SizeGrows(g, v, reg);
      t := JoinJump(d, v, g);
      EncodesSize(code, gen.code);
      KeepsJoined(c, g, v, c1, code);
    }

    /** exp2reg. */
    method Exp2Reg(d: ExpDesc, reg: nat, ghost v: Desc)
      requires Valid() && GenWf(gen) && DescWf(gen, v) && Has(code, d, v)
      modifies `code, `jpc, `gen, `ks, `h, `lasttarget
      ensures Valid() && gen == CodeGen.Exp2Reg(old(gen), v, reg) && KeepsBut(old(code), old(gen), v, code)
    {
      ghost var g := gen;
      ghost var c := code;
      Exp2RegIs(g, v, reg);
      ToRegStatic(g, v, reg);
      PreparedStatic(g, v, reg);
      BeforeIs(g, v, reg);
      SizeGrows(g, v, reg);
      hide Encodes, GenWf, DescWf, CodeGen.ToReg, CodeGen.Exp2Reg, Constants, Loads, PatchBoth, PreparedWf, IsList, NeedValue, Has, BeforePatch, Kept, KeepsBut;
      EncodesSize(c, g.code);
      HeldJumps(c, g.code);
      var t := Load(d, reg, v);
      ghost var y := gen;
      ghost var c2 := code;
      KeptHeld(g, v, y);
      NoHeads(code, t, d.f, v);
      if t != d.f {
        EncodesSize(c2, y.code);
        Prepare(t, d.f, !d.k.VJmp?, reg, v);
        ghost var c3 := code;
        PatchLists(t, d.f, reg, v, g);
        KeepsPatched(c, g, v, y, c2, c3, code);
      }
    }

    /** exp2reg, `luaK_concat(fs, &e->t, e->u.s.info)`: the jump of a comparison joins its true list. */
    method JoinJump(d: ExpDesc, ghost v: Desc, ghost g: Gen) returns (t: int)
      requires Encodes(code, gen.code) && Has(code, d, v) && DescWf(g, v) && Kept(g, gen) && IsList(code, jpc, gen.jpc)
      requires v.k.VJmp? ==> gen == g
      modifies `code
      ensures Encodes(code, gen.code) && IsList(code, t, TrueList(v)) && IsList(code, d.f, v.f) && IsList(code, jpc, gen.jpc)
      ensures forall j :: 0 <= j < |old(code)| && j !in v.t ==> j < |code| && code[j] == old(code)[j]
    {
      hide Encodes, GenWf;
      t := d.t;
      EncodesSize(code, gen.code);
      if d.k.VJmp? {
        t := Concat(d.t, d.k.pc, v.t, [v.k.pc]);
        EncodesSize(code, gen.code);
        ListStays(old(code), code, d.f, v.f);
        ListStays(old(code), code, jpc, gen.jpc);
      }
    }

    /** invertjump. */
    method InvertJump(pc: nat)
      requires Valid() && 0 < pc < Pc(gen) && gen.code[pc - 1].Cmp?
      modifies `code, `gen
      ensures Valid() && gen == Invert(old(gen), pc)
      ensures |code| == |old(code)| && forall j :: 0 <= j < |code| && old(code)[j].Jmp? ==> code[j] == old(code)[j]
    {
      assert EncodesAt(code, gen.code, pc - 1);
      ghost var i := gen.code[pc - 1].(cond := !gen.code[pc - 1].cond);
      EncodesPut(code, gen.code, pc - 1, i);
      HeldJumps(code, gen.code);
      var c' := code[pc - 1 := code[pc - 1].(cond := !code[pc - 1].cond)];
      ListStays(code, c', jpc, gen.jpc);
      code := c';
      gen := gen.(code := gen.code[pc - 1 := i]);
    }

    /** `fs->pc--`: a NOT is taken back. */
    method DropNot()
      requires Valid() && code != [] && gen.jpc == [] && !gen.code[Pc(gen) - 1].Jmp?
      modifies `code, `gen
      ensures Valid() && gen == old(gen).(code := old(gen).code[..Pc(old(gen)) - 1]) && code == old(code)[..|old(code)| - 1]
    {
      EncodesSize(code, gen.code);
      EncodesCut(code, gen.code);
      code := code[..|code| - 1];
      gen := gen.(code := gen.code[..Pc(gen) - 1]);
    }

    /** jumponcond. */
    method JumpIf(d: ExpDesc, cond: bool, ghost v: Desc) returns (j: int)
      requires Valid() && GenWf(gen) && DescWf(gen, v) && d.k == v.k && !v.k.VLocal? && !v.k.VJmp?
      modifies `code, `jpc, `gen, `ks, `h, `freereg
      ensures Valid() && gen == JumpOnCond(old(gen), v, cond) && Keeps(old(code), old(gen), code)
      ensures Pc(gen) > 0 && IsList(code, j, [Pc(gen) - 1])
    {
      ghost var g := gen;
      ghost var c := code;
      RelocFits(g, v);
      EncodesSize(c, g.code);
      if d.k.VReloc? {
        var pc := d.k.pc;
        assert EncodesAt(code, gen.code, pc);
        RelocLast(g, v);
        var b := code[pc].b;
        DropNot();
        ghost var z := gen;
        ghost var c1 := code;
        hide Encodes, Constants, EmitAll, IsList;
        j := CondJump(Test(b, !cond));
        KeepsCut(c, g, c1, z, code);
        CondJumpSize(z, Test(b, !cond));
      } else if d.k.VNonReloc? {
        hide Encodes, Constants, EmitAll, IsList;
        assert d.k.reg < nactvar;
        j := CondJump(TestSet(None, d.k.reg, cond));
        CondJumpSize(g, TestSet(None, d.k.reg, cond));
      } else {
        JumpOnLoadedIs(g, v, cond) by { RegsFit(g); }
        ToRegStatic(g, v, freereg);
        ToRegFrame(g, v, freereg);
        hide Encodes, Constants, EmitAll, IsList, CodeGen.ToReg, GenWf, DescWf;
        ToReg(d, freereg, v);
        ghost var y := gen;
        ghost var c1 := code;
        EncodesSize(c1, y.code);
        j := CondJump(TestSet(None, freereg, cond));
        KeepsKept(c, g, c1, y, code);
        CondJumpSize(y, TestSet(None, freereg, cond));
      }
    }

    /** The switches of luaK_goiftrue and luaK_goiffalse: the jumps for the other truth. */
    method Branch(d: ExpDesc, want: bool, ghost v: Desc) returns (pc: int)
      requires Valid() && GenWf(gen) && DescWf(gen, v) && Has(code, d, v) && !v.k.VLocal?
      modifies `code, `jpc, `gen, `ks, `h, `freereg
      ensures Valid() && gen == Jumps(old(gen), v, want).0 && IsList(code, pc, Jumps(old(gen), v, want).1)
      ensures KeepsAfter(old(code), old(gen), v, code)
    {
      ghost var g := gen;
      ghost var c := code;
      EncodesSize(c, g.code);
      HeldJumps(c, g.code);
      KeepsSelf(c, g);
      CompareThere(g, v);
      hide Encodes, Constants, IsList, GenWf, DescWf, JumpOnCond, CodeGen.Jump, Keeps;
      if (if want then d.k.VK? || d.k.VKNum? || d.k.VTrue? else d.k.VNil? || d.k.VFalse?) {
        pc := NO_JUMP;
        EmptyList(code);
      } else if (if want then d.k.VFalse? else d.k.VTrue?) {
        pc := Jump();
      } else if d.k.VJmp? {
        pc := d.k.pc;
        if want { InvertJump(d.k.pc); }
        JumpStays(c, g, code, v);
      } else {
        pc := JumpIf(d, !want, v);
      }
      KeepsWeak(c, g, v, code);
    }

    /** The switch, with the lists of `v` still in place. */
    method BranchBy(d: ExpDesc, out: int, other: int, want: bool, ghost v: Desc) returns (pc: int)
      requires Valid() && GenWf(gen) && DescWf(gen, v) && !v.k.VLocal? && Has(code, d, v)
      requires IsList(code, out, Out(v, want)) && IsList(code, other, Out(v, !want))
      modifies `code, `jpc, `gen, `ks, `h, `freereg
      ensures Valid() && gen == Jumps(old(gen), v, want).0 && IsList(code, pc, Jumps(old(gen), v, want).1)
      ensures IsList(code, out, Out(v, want)) && IsList(code, other, Out(v, !want))
      ensures KeepsAfter(old(code), old(gen), v, code) && |code| == Pc(gen) && |old(code)| == Pc(old(gen))
    {
      EncodesSize(code, gen.code);
      DischargedSame(v);
      hide Encodes, Constants, IsList, GenWf, DescWf, Jumps, KeepsAfter, Has;
      pc := Branch(d, want, v);
      EncodesSize(code, gen.code);
      OutStays(old(code), old(gen), v, want, code, out, other);
    }

    /** The new jumps at the end of the list for the other truth. */
    method BranchOut(d: ExpDesc, out: int, other: int, want: bool, ghost v: Desc) returns (l: int)
      requires Valid() && GenWf(gen) && DescWf(gen, v) && !v.k.VLocal? && Has(code, d, v)
      requires IsList(code, out, Out(v, want)) && IsList(code, other, Out(v, !want))
      modifies `code, `jpc, `gen, `ks, `h, `freereg
      ensures Valid() && gen == Jumps(old(gen), v, want).0 && IsList(code, other, Out(v, !want))
      ensures IsList(code, l, Out(v, want) + Jumps(old(gen), v, want).1) && KeepsBut(old(code), old(gen), v, code)
    {
      ghost var g := gen;
      ghost var c := code;
      hide Encodes, Constants, IsList, GenWf, DescWf, Jumps, KeepsAfter, BranchWf, Has, KeepsBut;
      BranchStatic(g, v, want);
      ghost var (y, q) := Jumps(g, v, want);
      DischargedSame(v);
      var pc := BranchBy(d, out, other, want, v);
      ghost var c1 := code;
      OutHeld(g, v, want, y, q);
      l := Concat(out, pc, Out(v, want), q);
      EncodesSize(code, gen.code);
      OutApart(g, v, want);
      ListStays(c1, code, other, Out(v, !want));
      ListStays(c1, code, jpc, gen.jpc);
      KeepsGone(c, g, v, want, y, c1, code, code, q);
    }

    /** luaK_goiftrue (`want`) and luaK_goiffalse. */
    method GoIf(d: ExpDesc, want: bool, ghost v: Desc) returns (u: ExpDesc)
      requires Valid() && GenWf(gen) && DescWf(gen, v) && Has(code, d, v)
      modifies `code, `jpc, `gen, `ks, `h, `freereg, `lasttarget
      ensures Valid() && gen == CodeGo.GoIf(old(gen), v, want).0 && KeepsBut(old(code), old(gen), v, code)
      ensures var v' := CodeGo.GoIf(old(gen), v, want).1;
        u.k == v'.k && IsList(code, u.t, v'.t) && IsList(code, u.f, v'.f)
    {
      ghost var g := gen;
      ghost var c := code;
      ghost var w := Discharge(v);
      DischargeHas(g, c, d, v);
      BranchStatic(g, w, want);
      ghost var (y, q) := Jumps(g, w, want);
      GoIfParts(g, v, want);
      OutHeld(g, v, want, y, q);
      EncodesSize(c, g.code);
      hide Encodes, Constants, IsList, GenWf, DescWf, Jumps, CodeGo.GoIf, BranchWf, KeepsBut;
      var dd := if d.k.VLocal? then d.(k := VNonReloc(d.k.reg)) else d;
      var other := if want then d.t else d.f;
      var out := BranchOut(dd, if want then d.f else d.t, other, want, w);
      ghost var c2 := code;
      EncodesSize(c2, y.code);
      PatchToHere(other, Out(v, !want));
      ListStays(c2, code, out, Out(v, want) + q);
      u := if want then ExpDesc(dd.k, NO_JUMP, out) else ExpDesc(dd.k, out, NO_JUMP);
      EmptyList(code);
      KeepsHere(c, g, v, w, y, c2, code, q);
    }

    /** discharge2anyreg and freeexp, for a value that is not in a register yet. */
    method Temporary(d: ExpDesc, ghost v: Desc) returns (reg: nat)
      requires Valid() && GenWf(gen) && DescWf(gen, v) && d.k == v.k && !v.k.VLocal? && !v.k.VJmp?
      modifies `code, `jpc, `gen, `ks, `h, `freereg
      ensures Valid() && Keeps(old(code), old(gen), code) && Kept(old(gen), gen) && |code| == Pc(gen)
      ensures var (y, u) := ToAnyReg(old(gen), v);
        gen == FreeExp(y, u) && u.k == VNonReloc(reg)
    {
      ghost var g := gen;
      EncodesSize(code, g.code);
      if d.k.VNonReloc? {
        KeepsSelf(code, g);
        KeptSelf(g);
        LocalNotFreed(g, v);
        return d.k.reg;
      }
      reg := freereg;
      LoadTemp(g, v) by { RegsFit(g); }
      ToRegStatic(g, v, reg);
      RelocFits(g, v);
      AnyRegIs(g, v);
      hide Encodes, Constants, IsList, GenWf, DescWf, CodeGen.ToReg, Kept;
      ToReg(d, reg, v);
      EncodesSize(code, gen.code);
    }

    /** The switch of codenot. */
    method Negate(d: ExpDesc, ghost v: Desc) returns (k: Kind)
      requires Valid() && GenWf(gen) && DescWf(gen, v) && Has(code, d, v) && !v.k.VLocal?
      modifies `code, `jpc, `gen, `ks, `h, `freereg
      ensures Valid() && (gen, k) == Negated(old(gen), v) && Has(code, d.(k := k), v.(k := k))
      ensures KeepsAfter(old(code), old(gen), v, code)
    {
      ghost var g := gen;
      ghost var c := code;
      EncodesSize(c, g.code);
      HeldJumps(c, g.code);
      KeepsSelf(c, g);
      CompareThere(g, v);
      NegatedIs(g, v);
      hide Encodes, Constants, IsList, GenWf, DescWf, Keeps, Negated, EmitAll, Has, Kept;
      if d.k.VNil? || d.k.VFalse? {
        k := VTrue;
      } else if d.k.VK? || d.k.VKNum? || d.k.VTrue? {
        k := VFalse;
      } else if d.k.VJmp? {
        k := d.k;
        InvertJump(d.k.pc);
        JumpStays(c, g, code, v) by { JumpAlone(c, d, v); }
      } else {
        var reg := Temporary(d, v);
        ghost var z := gen;
        ghost var c1 := code;
        var pc := Code(Not(0, reg));
        k := VReloc(pc);
        KeepsKept(c, g, c1, z, code);
      }
      KeepsWeak(c, g, v, code);
      HasKind(c, g, code, d, v, k);
    }

    /** removevalues on both lists. */
    method RemoveBoth(t: int, f: int, ghost p: seq<nat>, ghost q: seq<nat>)
      requires Valid() && IsList(code, t, p) && IsList(code, f, q) && AllHeld(gen.code, p) && AllHeld(gen.code, q)
      modifies `code, `gen
      ensures Valid() && gen == old(gen).(code := RemoveValues(RemoveValues(old(gen).code, p), q))
      ensures IsList(code, t, p) && IsList(code, f, q) && |code| == |old(code)| == Pc(gen)
      ensures forall j :: 0 <= j < |code| && old(code)[j].Jmp? ==> code[j] == old(code)[j]
    {
      ghost var y := gen;
      ghost var c1 := code;
      HeldJumps(c1, y.code);
      hide Encodes, Constants, IsList, RemoveValues;
      RemoveListValues(t, p);
      ghost var c2 := code;
      EncodesSize(c2, gen.code);
      AllRemoved(y.code, p, q);
      AllRemoved(y.code, p, y.jpc);
      JumpsKept(c1, c2, f, q, y.code);
      RemoveListValues(f, q);
      EncodesSize(code, gen.code);
      AllRemoved(RemoveValues(y.code, p), q, y.jpc);
      JumpsKept(c1, code, t, p, y.code);
      JumpsKept(c1, code, f, q, y.code);
      JumpsKept(c1, code, jpc, y.jpc, y.code);
    }

    /** codenot. */
    method CodeNot(d: ExpDesc, ghost v: Desc) returns (u: ExpDesc)
      requires Valid() && GenWf(gen) && DescWf(gen, v) && Has(code, d, v)
      modifies `code, `jpc, `gen, `ks, `h, `freereg
      ensures Valid() && gen == CodeGen.CodeNot(old(gen), v).0 && Has(code, u, CodeGen.CodeNot(old(gen), v).1)
      ensures KeepsBut(old(code), old(gen), v, code)
    {
      ghost var g := gen;
      ghost var c := code;
      ghost var w := Discharge(v);
      DischargeHas(g, c, d, v);
      NegStatic(g, w);
      NotIs(g, v);
      NegHeld(g, w);
      hide Encodes, Constants, IsList, GenWf, DescWf, Negated, RemoveValues, Has, NegWf, CodeGen.CodeNot;
      var dd := if d.k.VLocal? then d.(k := VNonReloc(d.k.reg)) else d;
      var k := Negate(dd, w);
      ghost var y := gen;
      ghost var c1 := code;
      HasLists(c1, dd.(k := k), w.(k := k));
      HeldJumps(c1, y.code);
      RemoveBoth(d.t, d.f, v.t, v.f);
      u := ExpDesc(k, d.f, d.t);
      NotHas(c1, y, code, dd.(k := k), w, u, k);
      NotKeeps(c, g, v, y, k, c1, code);
    }

    /** luaK_exp2nextreg. */
    method NextReg(d: ExpDesc, ghost v: Desc) returns (u: ExpDesc)
      requires Valid() && GenWf(gen) && DescWf(gen, v) && Has(code, d, v)
      modifies `code, `jpc, `gen, `ks, `h, `lasttarget, `freereg
      ensures Valid() && gen == Exp2NextReg(old(gen), v).0 && KeepsBut(old(code), old(gen), v, code)
      ensures u == ExpDesc(VNonReloc(old(freereg)), NO_JUMP, NO_JUMP)
    {
      ghost var g := gen;
      StartAnywhere(g);
      Reserved(g, v, 0, map[]);
      NextRegIs(g, v);
      hide Encodes, Constants, IsList, GenWf, DescWf, Has, KeepsBut, CodeGen.Exp2Reg, Exp2NextReg;
      var reg := freereg;
      freereg := freereg + 1;
      gen := Reserve(gen);
      ghost var c := code;
      Exp2Reg(d, reg, v);
      KeepsReserved(c, g, v, code);
      u := ExpDesc(VNonReloc(reg), NO_JUMP, NO_JUMP);
    }

    /** luaK_exp2anyreg. Expressions of this language rest in locals only, so a value with jumps
        always goes to the next register. */
    method AnyReg(d: ExpDesc, ghost v: Desc) returns (u: ExpDesc)
      requires Valid() && GenWf(gen) && Has(code, d, v) && (DescWf(gen, v) || (Settled(v) && v.k.VNonReloc?))
      modifies `code, `jpc, `gen, `ks, `h, `lasttarget, `freereg
      ensures Valid() && gen == Exp2AnyReg(old(gen), v).0 && KeepsBut(old(code), old(gen), v, code)
      ensures u == ExpDesc(Exp2AnyReg(old(gen), v).1.k, NO_JUMP, NO_JUMP) && (Settled(v) && v.k.VNonReloc? ==> code == old(code))
    {
      hide Encodes, Constants, IsList, GenWf, DescWf, Has, KeepsBut, Exp2AnyReg, Exp2NextReg;
      ghost var g := gen;
      KeepsButSelf(code, g, v);
      HeadsEmpty(code, d, v, g);
      AnyRegCases(g, v);
      var dd := if d.k.VLocal? then d.(k := VNonReloc(d.k.reg)) else d;
      if dd.k.VNonReloc? && d.t == d.f { return ExpDesc(dd.k, NO_JUMP, NO_JUMP); }
      DischargeHas(g, code, d, v);
      u := NextReg(dd, Discharge(v));
      KeepsDischarged(old(code), g, v, code);
      NextRegIs(g, Discharge(v));
    }

    /** luaK_exp2RK. */
    method ToRK(d: ExpDesc, ghost v: Desc) returns (u: ExpDesc, rk: RK)
      requires Valid() && GenWf(gen) && Has(code, d, v) && (DescWf(gen, v) || Settled(v))
      modifies `code, `jpc, `gen, `ks, `h, `lasttarget, `freereg
      ensures Valid() && gen == Exp2RK(old(gen), v).0 && rk == Exp2RK(old(gen), v).2
      ensures u == ExpDesc(Exp2RK(old(gen), v).1.k, NO_JUMP, NO_JUMP) && KeepsBut(old(code), old(gen), v, code)
      ensures Settled(v) ==> code == old(code)
    {
      ghost var g := gen;
      KeepsButSelf(code, g, v);
      HeadsEmpty(code, d, v, g);
      OperandCases(g, v);
      AnyRegShape(g, v);
      hide Encodes, Constants, IsList, GenWf, DescWf, Has, KeepsBut, Exp2AnyReg, Exp2RK, CodeGen.AddK, Settled;
      var dd := if d.k.VLocal? then d.(k := VNonReloc(d.k.reg)) else d;
      if d.t == d.f && (d.k.VNil? || d.k.VTrue? || d.k.VFalse? || d.k.VKNum?) && |ks| <= MAXINDEXRK {
        var i := AddConst(ConstOf(d.k));
        return ExpDesc(VK(i), NO_JUMP, NO_JUMP), K(i);
      }
      if d.t == d.f && d.k.VK? && d.k.info <= MAXINDEXRK {
        return ExpDesc(d.k, NO_JUMP, NO_JUMP), K(d.k.info);
      }
      u := AnyReg(d, v);
      rk := R(u.k.reg);
    }

    /** codecomp, its end: the registers of the operands are free, and the comparison is coded. */
    method CodeRelation(op: Rel, d1: ExpDesc, d2: ExpDesc, o1: RK, o2: RK, ghost v1: Desc, ghost v2: Desc) returns (u: ExpDesc)
      requires Valid() && d1.k == v1.k && d2.k == v2.k
      modifies `code, `jpc, `gen, `freereg
      ensures Valid() && gen == CodeGen.CondJump(FreeExp(FreeExp(old(gen), v2), v1), CompInstr(op, o1, o2))
      ensures Pc(gen) > 0 && Has(code, u, Desc(VJmp(Pc(gen) - 1), [], [])) && Keeps(old(code), old(gen), code)
    {
      hide Encodes, Constants, IsList, Has, EmitAll, CompInstr;
      ghost var g := gen;
      if d2.k.VNonReloc? && d2.k.reg >= nactvar && freereg > 0 { freereg := freereg - 1; }
      if d1.k.VNonReloc? && d1.k.reg >= nactvar && freereg > 0 { freereg := freereg - 1; }
      gen := FreeExp(FreeExp(gen, v2), v1);
      ghost var w := gen;
      CompIsCmp(op, o1, o2);
      KeepsSame(code, g, w);
      CondJumpSize(w, CompInstr(op, o1, o2));
      var j := CondJump(CompInstr(op, o1, o2));
      EncodesSize(code, gen.code);
      u := ExpDesc(VJmp(j as nat), NO_JUMP, NO_JUMP);
      CompHas(code, u, j as nat);
    }

    /** codecomp. */
    method CodeComp(op: Rel, d1: ExpDesc, d2: ExpDesc, ghost v1: Desc, ghost v2: Desc) returns (u: ExpDesc)
      requires Valid() && GenWf(gen) && Settled(v1) && Has(code, d1, v1) && DescWf(gen, v2) && Has(code, d2, v2)
      modifies `code, `jpc, `gen, `ks, `h, `lasttarget, `freereg
      ensures Valid() && gen == CodeGen.CodeComp(old(gen), op, v1, v2).0 && Has(code, u, CodeGen.CodeComp(old(gen), op, v1, v2).1)
      ensures KeepsBut(old(code), old(gen), v2, code)
    {
      ghost var g := gen;
      ghost var c := code;
      SettledAgain(g, v1);
      OperandStaticWf(g, v2);
      CompIs(g, op, v1, v2);
      hide Encodes, Constants, IsList, GenWf, DescWf, Has, KeepsBut, Exp2RK, Settled, CodeGen.CodeComp, EmitAll, CompInstr;
      var e1, o1 := ToRK(d1, v1);
      var e2, o2 := ToRK(d2, v2);
      ghost var z := gen;
      ghost var c2 := code;
      EncodesSize(c2, z.code);
      OperandKept(g, v2, z, Exp2RK(g, v2).1, o2);
      u := CodeRelation(op, e1, e2, o1, o2, v1, Exp2RK(g, v2).1);
      KeepsComp(c, g, v2, z, c2, z, code);
    }

    /** luaK_posfix for `and` and `or`. */
    method Join(d: ExpDesc, f: int, want: bool, ghost d1: Desc, ghost v: Desc) returns (u: ExpDesc)
      requires Valid() && Has(code, d, v) && DescWf(gen, v) && IsList(code, f, Out(d1, want))
      requires Apart(gen.jpc, Out(d1, want)) && Apart(Out(v, want), Out(d1, want))
      modifies `code
      ensures Valid() && Has(code, u, Joined(d1, v, want))
      ensures forall j :: 0 <= j < |old(code)| && j !in Out(v, want) ==> j < |code| && code[j] == old(code)[j]
    {
      ghost var c := code;
      EncodesSize(c, gen.code);
      DischargeHas(gen, c, d, v);
      JoinParts(gen, v, want);
      HasLists(c, d, v);
      hide Encodes, Constants, IsList, DescWf, Has;
      var l := Concat(if want then d.f else d.t, f, Out(v, want), Out(d1, want));
      EncodesSize(code, gen.code);
      u := if want then d.(f := l) else d.(t := l);
      if d.k.VLocal? { u := u.(k := VNonReloc(d.k.reg)); }
      ListStays(c, code, jpc, gen.jpc);
      JoinedHas(c, gen, code, d, u, d1, v, want, l);
    }

    method Logic(a: Exp, b: Exp, want: bool) returns (d: ExpDesc)
      requires Valid() && GenWf(gen) && Scoped(a, nactvar) && Scoped(b, nactvar)
      modifies `code, `jpc, `gen, `ks, `h, `lasttarget, `freereg
      ensures Valid() && gen == CodeGen.Expr(old(gen), CodeLogic.Logic(a, b, want)).0
      ensures Has(code, d, CodeGen.Expr(old(gen), CodeLogic.Logic(a, b, want)).1) && Keeps(old(code), old(gen), code)
      decreases CodeLogic.Logic(a, b, want), 0
    {
      hide Encodes, Constants, IsList, GenWf, DescWf, Has, CodeGen.Expr, CodeGo.GoIf, KeepsBut, Keeps, ExprWf, GoneWf, Scoped;
      ghost var g := gen;
      ghost var c := code;
      LogicIs(g, a, b, want);
      ghost var (g1, v1) := CodeGen.Expr(g, a);
      ghost var (g2, w1) := CodeGo.GoIf(g1, v1, want);
      ghost var (g3, v2) := CodeGen.Expr(g2, b);
      ExprStatic(g, a);
      Parts(g, g1, v1);
      GoIfStatic(g1, v1, want);
      GoneParts(g1, v1, g2, w1, want);
      ExprStatic(g2, b);
      Parts(g2, g3, v2);
      LogicApart(g1, v1, g2, w1, g3, v2, want);
      var d1 := Expr(a);
      ghost var c1 := code;
      EncodesSize(c1, g1.code);
      var u := GoIf(d1, want, v1);
      ghost var c2 := code;
      EncodesSize(c2, g2.code);
      var d2 := Expr(b);
      ghost var c3 := code;
      EncodesSize(c3, g3.code);
      var f := if want then u.f else u.t;
      ListKept(c2, g2, c3, f, Out(w1, want));
      d := Join(d2, f, want, w1, v2);
      KeepsLogic(c, g, c1, g1, v1, c2, g2, w1, c3, g3, v2, code, want);
    }

    method Relation(op: Rel, a: Exp, b: Exp) returns (d: ExpDesc)
      requires Valid() && GenWf(gen) && Scoped(a, nactvar) && Scoped(b, nactvar)
      modifies `code, `jpc, `gen, `ks, `h, `lasttarget, `freereg
      ensures Valid() && gen == CodeGen.Expr(old(gen), ECmp(op, a, b)).0
      ensures Has(code, d, CodeGen.Expr(old(gen), ECmp(op, a, b)).1) && Keeps(old(code), old(gen), code)
      decreases ECmp(op, a, b), 0
    {
      ghost var g := gen;
      ghost var c := code;
      CompStep(g, op, a, b);
      ghost var (g1, v1) := CodeGen.Expr(g, a);
      ghost var (h1, w1, rk1) := Exp2RK(g1, v1);
      ghost var (g3, v2) := CodeGen.Expr(h1, b);
      ExprStatic(g, a);
      Parts(g, g1, v1);
      OperandStaticWf(g1, v1);
      OperandStatic(g, g1, v1, h1, w1, rk1);
      OperandShape(g1, v1, h1, w1, rk1);
      OperandSettled(g1, v1);
      ExprStatic(h1, b);
      Parts(h1, g3, v2);
      hide Encodes, Constants, IsList, GenWf, DescWf, Has, CodeGen.Expr, Exp2RK, KeepsBut, Keeps, ExprWf, OperandWf, CodeGen.CodeComp, Scoped, Settled, Kept;
      var d1 := Expr(a);
      ghost var c1 := code;
      EncodesSize(c1, g1.code);
      var e1, o1 := ToRK(d1, v1);
      ghost var c2 := code;
      EncodesSize(c2, h1.code);
      var d2 := Expr(b);
      ghost var c3 := code;
      EncodesSize(c3, g3.code);
      SettledHas(c3, e1, w1);
      d := CodeComp(op, e1, d2, w1, v2);
      KeepsExpr(c, g, c1, g1, v1, c2);
      KeepsFrom(c, g, c2, h1, c3);
      ExprKept(h1, g3, v2);
      KeptTrans(g, h1, g3);
      KeepsLast(c, g, h1, c3, g3, v2, code);
    }

    /** subexpr, on an expression already parsed. */
    method Expr(x: Exp) returns (d: ExpDesc)
      requires Valid() && GenWf(gen) && Scoped(x, nactvar)
      modifies `code, `jpc, `gen, `ks, `h, `lasttarget, `freereg
      ensures Valid() && gen == CodeGen.Expr(old(gen), x).0 && Has(code, d, CodeGen.Expr(old(gen), x).1)
      ensures Keeps(old(code), old(gen), code)
      decreases x
    {
      match x {
        case ENot(a) => d := Negation(a);
        case EAnd(a, b) => d := Logic(a, b, true);
        case EOr(a, b) => d := Logic(a, b, false);
        case ECmp(op, a, b) => d := Relation(op, a, b);
        case _ => d := Leaf(x);
      }
    }

    /** cond: the list of jumps taken when the condition is false. */
    method Cond(x: Exp) returns (f: int)
      requires Valid() && GenWf(gen) && Scoped(x, nactvar)
      modifies `code, `jpc, `gen, `ks, `h, `lasttarget, `freereg
      ensures Valid() && gen == CondExp(old(gen), x).0 && IsList(code, f, CondExp(old(gen), x).1)
      ensures Keeps(old(code), old(gen), code)
    {
      ghost var g := gen;
      ghost var c := code;
      ghost var (y, v) := CodeGen.Expr(g, x);
      ghost var w := if v.k.VNil? then v.(k := VFalse) else v;
      ExprStatic(g, x);
      Parts(g, y, v);
      CondIs(g, x);
      hide Encodes, Constants, IsList, GenWf, DescWf, Has, CodeGen.Expr, CodeGo.GoIf, CondExp, KeepsBut, Keeps, ExprWf, Scoped;
      var d := Expr(x);
      ghost var c1 := code;
      FalseHas(c1, y, d, v);
      if d.k.VNil? { d := d.(k := VFalse); }
      var u := GoIf(d, true, w);
      f := u.f;
      KeepsCond(c1, y, v, w, code);
      KeepsExpr(c, g, c1, y, v, code);
    }

    method Negation(a: Exp) returns (d: ExpDesc)
      requires Valid() && GenWf(gen) && Scoped(a, nactvar)
      modifies `code, `jpc, `gen, `ks, `h, `lasttarget, `freereg
      ensures Valid() && gen == CodeGen.Expr(old(gen), ENot(a)).0 && Has(code, d, CodeGen.Expr(old(gen), ENot(a)).1)
      ensures Keeps(old(code), old(gen), code)
      decreases ENot(a), 0
    {
      ghost var g := gen;
      ghost var c := code;
      NotStep(g, a);
      ghost var (g1, v1) := CodeGen.Expr(g, a);
      ExprStatic(g, a);
      Parts(g, g1, v1);
      hide Encodes, Constants, IsList, GenWf, DescWf, Has, CodeGen.Expr, CodeGen.CodeNot, KeepsBut, Keeps, ExprWf, Scoped;
      var d1 := Expr(a);
      ghost var c1 := code;
      EncodesSize(c1, g1.code);
      d := CodeNot(d1, v1);
      KeepsExpr(c, g, c1, g1, v1, code);
    }

    /** simpleexp, on constants and locals. */
    method Leaf(x: Exp) returns (d: ExpDesc)
      requires Valid() && Atom(x)
      modifies `ks, `h, `gen
      ensures Valid() && gen == CodeGen.Expr(old(gen), x).0 && Has(code, d, CodeGen.Expr(old(gen), x).1)
      ensures Keeps(old(code), old(gen), code)
    {
      KeepsSelf(code, gen);
      EmptyList(code);
      LeafIs(gen, x);
      hide Encodes, Constants, CodeGen.Expr, Keeps, CodeGen.AddK;
      d := if x.ETrue? then ExpDesc(VTrue, NO_JUMP, NO_JUMP)
           else if x.EFalse? then ExpDesc(VFalse, NO_JUMP, NO_JUMP)
           else if x.ENum? then ExpDesc(VKNum(x.n), NO_JUMP, NO_JUMP)
           else if x.ELocal? then ExpDesc(VLocal(x.reg), NO_JUMP, NO_JUMP)
           else ExpDesc(VNil, NO_JUMP, NO_JUMP);
      if x.EStr? {
        var i := AddConst(Str(x.s));
        d := ExpDesc(VK(i), NO_JUMP, NO_JUMP);
      }
    }
  }

  lemma CondIs(g: Gen, x: Exp)
    ensures var (y, v) := Expr(g, x); var w := if v.k.VNil? then v.(k := VFalse) else v;
      var (z, d) := GoIf(y, w, true); CondExp(g, x) == (z, d.f)
  {
    hide GoIfTrue, Expr;
  }

  lemma FalseHas(c: seq<Instr>, y: Gen, d: ExpDesc, v: Desc)
    requires Has(c, d, v) && DescWf(y, v)
    ensures var w := if v.k.VNil? then v.(k := VFalse) else v;
      Has(c, if d.k.VNil? then d.(k := VFalse) else d, w) && DescWf(y, w)
  {
    hide AllHeld, Apart, IsList;
  }

  lemma KeepsCond(c: seq<Instr>, g: Gen, v: Desc, w: Desc, c': seq<Instr>)
    requires KeepsBut(c, g, w, c') && w.t == v.t && w.f == v.f && (w.k == v.k || (v.k.VNil? && w.k.VFalse?))
    ensures KeepsBut(c, g, v, c')
  {}

  function LeafDesc(g: Gen, x: Exp): Desc {
    match x
    case EStr(s) => Desc(VK(AddK(g, Str(s)).1), [], [])
    case ETrue => Desc(VTrue, [], [])
    case EFalse => Desc(VFalse, [], [])
    case ENum(n) => Desc(VKNum(n), [], [])
    case ELocal(r) => Desc(VLocal(r), [], [])
    case _ => Desc(VNil, [], [])
  }

  lemma LeafIs(g: Gen, x: Exp)
    requires Atom(x)
    ensures Expr(g, x) == (if x.EStr? then AddK(g, Str(x.s)).0 else g, LeafDesc(g, x))
  {
    hide AddK;
  }

  lemma JoinParts(g: Gen, v: Desc, want: bool)
    requires DescWf(g, v)
    ensures AllHeld(g.code, Out(v, want)) && Apart(g.jpc, Out(v, want))
  {
    hide KindWf;
  }

  lemma JoinedHas(c: seq<Instr>, g: Gen, c': seq<Instr>, d: ExpDesc, u: ExpDesc, d1: Desc, v: Desc, want: bool, l: int)
    requires Has(c, d, v) && DescWf(g, v) && IsList(c', l, Out(v, want) + Out(d1, want))
    requires forall j :: 0 <= j < |c| && j !in Out(v, want) ==> j < |c'| && c'[j] == c[j]
    requires u == (if want then d.(f := l) else d.(t := l)).(k := Discharge(v).k)
    ensures Has(c', u, Joined(d1, v, want))
  {
    hide GenWf, AllHeld;
    ListStays(c, c', if want then d.t else d.f, Out(v, !want));
    if v.k.VJmp? { assert [v.k.pc][0] == v.k.pc; ListStays(c, c', v.k.pc, [v.k.pc]); }
  }

  lemma LogicApart(g1: Gen, v1: Desc, g2: Gen, w1: Desc, g3: Gen, v2: Desc, want: bool)
    requires GoneWf(g1, v1, g2, w1, want) && ExprWf(g2, g3, v2)
    ensures AllHeld(g2.code, Out(w1, want)) && Apart(g2.jpc, Out(w1, want))
    ensures Apart(g3.jpc, Out(w1, want)) && Apart(Out(v2, want), Out(w1, want))
  {
    hide GenWf, DescWf;
    forall j | j in Out(w1, want) ensures j !in g3.jpc && j !in Out(v2, want) { assert SameControl(g2, g3, j); }
  }

  lemma OperandSettled(g: Gen, v: Desc)
    ensures Settled(Exp2RK(g, v).1)
  {
    OperandCases(g, v);
    AnyRegShape(g, v);
    IndexSmall(g, v);
    hide Exp2AnyReg;
  }

  lemma IndexSmall(g: Gen, v: Desc)
    ensures |g.ks| <= MAXINDEXRK ==> forall x :: AddK(g, x).1 <= MAXINDEXRK
  {}

  lemma SettledHas(c: seq<Instr>, d: ExpDesc, v: Desc)
    requires d == ExpDesc(v.k, NO_JUMP, NO_JUMP) && Settled(v)
    ensures Has(c, d, v)
  {}

  lemma ExprKept(g: Gen, g': Gen, v: Desc)
    requires ExprWf(g, g', v)
    ensures Kept(g, g')
  {}

  lemma KeepsExpr(c: seq<Instr>, g: Gen, c1: seq<Instr>, g1: Gen, v1: Desc, c2: seq<Instr>)
    requires Keeps(c, g, c1) && ExprWf(g, g1, v1) && KeepsBut(c1, g1, v1, c2)
    ensures Keeps(c, g, c2)
  {
    hide GenWf, DescWf;
    forall j: nat | Held(g.code, j) && j !in g.jpc && j < |c| ensures j < |c2| && c2[j] == c[j] { assert SameControl(g, g1, j); }
  }

  lemma KeepsFrom(c: seq<Instr>, g: Gen, c1: seq<Instr>, h: Gen, c2: seq<Instr>)
    requires Keeps(c, g, c1) && Kept(g, h) && Keeps(c1, h, c2)
    ensures Keeps(c, g, c2)
  {
    forall j: nat | Held(g.code, j) && j !in g.jpc && j < |c| ensures j < |c2| && c2[j] == c[j] { assert SameControl(g, h, j); }
  }

  lemma KeepsLast(c: seq<Instr>, g: Gen, h: Gen, c1: seq<Instr>, g3: Gen, v: Desc, c2: seq<Instr>)
    requires Keeps(c, g, c1) && Kept(g, h) && ExprWf(h, g3, v) && KeepsBut(c1, g3, v, c2)
    ensures Keeps(c, g, c2)
  {
    hide GenWf, DescWf;
    forall j: nat | Held(g.code, j) && j !in g.jpc && j < |c| ensures j < |c2| && c2[j] == c[j] {
      assert SameControl(g, h, j);
      assert SameControl(h, g3, j);
    }
  }

  lemma KeepsLogic(c: seq<Instr>, g: Gen, c1: seq<Instr>, g1: Gen, v1: Desc, c2: seq<Instr>, g2: Gen, w1: Desc,
                   c3: seq<Instr>, g3: Gen, v2: Desc, c4: seq<Instr>, want: bool)
    requires Keeps(c, g, c1) && ExprWf(g, g1, v1) && KeepsBut(c1, g1, v1, c2) && GoneWf(g1, v1, g2, w1, want)
    requires Keeps(c2, g2, c3) && ExprWf(g2, g3, v2)
    requires forall j :: 0 <= j < |c3| && j !in Out(v2, want) ==> j < |c4| && c4[j] == c3[j]
    ensures Keeps(c, g, c4)
  {
    hide GenWf, DescWf;
    forall j: nat | Held(g.code, j) && j !in g.jpc && j < |c| ensures j < |c4| && c4[j] == c[j] {
      assert SameControl(g, g1, j);
      assert SameControl(g1, g2, j);
      assert SameControl(g2, g3, j);
    }
  }

  lemma KeepsReserved(c: seq<Instr>, g: Gen, v: Desc, c': seq<Instr>)
    requires KeepsBut(c, Reserve(g), v, c')
    ensures KeepsBut(c, g, v, c')
  {}

  lemma KeepsButSelf(c: seq<Instr>, g: Gen, v: Desc)
    ensures KeepsBut(c, g, v, c)
  {}

  lemma KeepsDischarged(c: seq<Instr>, g: Gen, v: Desc, c': seq<Instr>)
    requires KeepsBut(c, g, Discharge(v), c')
    ensures KeepsBut(c, g, v, c')
  {}

  /** An operand of a comparison that luaK_exp2RK has dealt with. */
  ghost predicate Settled(v: Desc) {
    v.t == [] && v.f == [] && ((v.k.VK? && v.k.info <= MAXINDEXRK) || v.k.VNonReloc?)
  }

  lemma HeadsEmpty(c: seq<Instr>, d: ExpDesc, v: Desc, g: Gen)
    requires Has(c, d, v) && (DescWf(g, v) || Settled(v))
    ensures d.k == v.k && (d.t == d.f <==> v.t == [] && v.f == [])
  {
    hide GenWf, KindWf;
    HeadOf(c, d.t, v.t);
    HeadOf(c, d.f, v.f);
    if v.t != [] && v.f != [] { assert v.t[0] in v.t && v.f[0] in v.f; }
  }

  lemma AnyRegCases(g: Gen, v: Desc)
    requires DescWf(g, v) || (Settled(v) && v.k.VNonReloc?)
    ensures var w := Discharge(v); var here := w.k.VNonReloc? && v.t == [] && v.f == [];
      Exp2AnyReg(g, v) == (if here then (g, w) else Exp2NextReg(g, w)) && (here || DescWf(g, v))
  {
    hide Exp2NextReg, CodeGen.Exp2Reg, AllHeld, Apart;
  }

  lemma OperandCases(g: Gen, v: Desc)
    ensures var none := v.t == [] && v.f == [];
      var small := none && (v.k.VNil? || v.k.VTrue? || v.k.VFalse? || v.k.VKNum?) && |g.ks| <= MAXINDEXRK;
      var known := none && v.k.VK? && v.k.info <= MAXINDEXRK;
      && (small ==> (var (y, i) := AddK(g, ConstOf(v.k)); Exp2RK(g, v) == (y, v.(k := VK(i)), K(i))))
      && (known ==> Exp2RK(g, v) == (g, v, K(v.k.info)))
      && (!small && !known ==>
            (var (y, u) := Exp2AnyReg(g, v); u.k.VNonReloc? && Exp2RK(g, v) == (y, u, R(u.k.reg)) && (Settled(v) ==> v.k.VNonReloc?)))
  {
    AnyRegShape(g, v);
    AnyRegAgain(g, v);
    hide CodeGen.AddK;
  }

  lemma AnyRegAgain(g: Gen, v: Desc)
    ensures var (y, u) := Exp2AnyReg(g, v); Exp2AnyReg(y, u) == (y, u)
    ensures Exp2AnyReg(g, Discharge(v)) == Exp2AnyReg(g, v)
  {
    hide CodeGen.Exp2Reg;
  }

  lemma CompIs(g: Gen, op: Rel, v1: Desc, v2: Desc)
    requires Settled(v1)
    ensures var (z, d2, o2) := Exp2RK(g, v2); var o1 := if v1.k.VK? then K(v1.k.info) else R(v1.k.reg);
      var y := CondJump(FreeExp(FreeExp(z, d2), v1), CompInstr(op, o1, o2));
      CodeGen.CodeComp(g, op, v1, v2) == (y, Desc(VJmp(Pc(y) - 1), [], []))
  {
    SettledAgain(g, v1);
    hide Exp2RK, EmitAll;
  }

  lemma CompIsCmp(op: Rel, a: RK, b: RK)
    ensures CompInstr(op, a, b).Cmp?
  {}

  lemma CompHas(c: seq<Instr>, u: ExpDesc, j: nat)
    requires u == ExpDesc(VJmp(j), NO_JUMP, NO_JUMP) && IsList(c, j, [j])
    ensures Has(c, u, Desc(VJmp(j), [], []))
  {}

  lemma OperandKept(g: Gen, v: Desc, h: Gen, d: Desc, rk: RK)
    requires OperandWf(g, v, h, d, rk)
    ensures forall j: nat :: Held(g.code, j) && j !in g.jpc && v.k != VJmp(j) && j !in v.t && j !in v.f ==>
      Held(h.code, j) && j !in h.jpc
  {
    hide GenWf;
    forall j: nat | Held(g.code, j) && j !in g.jpc && v.k != VJmp(j) && j !in v.t && j !in v.f
      ensures Held(h.code, j) && j !in h.jpc
    {
      assert SameControl(g, h.(freereg := g.freereg), j);
    }
  }

  lemma HeldElsewhere(g: Gen, q: seq<nat>, target: nat)
    requires AllHeld(g.code, g.jpc) && Apart(g.jpc, q)
    ensures AllHeld(PatchList(g.code, q, target, None, target), g.jpc)
  {
    forall j | j in g.jpc ensures Held(PatchList(g.code, q, target, None, target), j) { assert Held(g.code, j); }
  }

  lemma KeepsComp(c: seq<Instr>, g: Gen, v: Desc, z: Gen, c2: seq<Instr>, w: Gen, c3: seq<Instr>)
    requires KeepsBut(c, g, v, c2) && |c2| == Pc(z) && Keeps(c2, w, c3) && w.code == z.code && w.jpc == z.jpc
    requires forall j: nat :: Held(g.code, j) && j !in g.jpc && v.k != VJmp(j) && j !in v.t && j !in v.f ==>
      Held(z.code, j) && j !in z.jpc
    ensures KeepsBut(c, g, v, c3)
  {}

  lemma SettledAgain(g: Gen, v: Desc)
    requires Settled(v)
    ensures Exp2RK(g, v) == (g, v, if v.k.VK? then K(v.k.info) else R(v.k.reg))
  {
    OperandAgain(g, v, if v.k.VK? then K(v.k.info) else R(v.k.reg));
  }

  lemma LocalNotFreed(g: Gen, v: Desc)
    requires DescWf(g, v) && v.k.VNonReloc?
    ensures FreeExp(g, v) == g && ToAnyReg(g, v) == (g, v)
  {}

  lemma AnyRegIs(g: Gen, v: Desc)
    requires !v.k.VNonReloc?
    ensures ToAnyReg(g, v) == (ToReg(Reserve(g), v, g.freereg), v.(k := VNonReloc(g.freereg)))
    ensures FreeExp(ToReg(Reserve(g), v, g.freereg), v.(k := VNonReloc(g.freereg))) ==
      FreeExp(ToReg(Reserve(g), v, g.freereg), InReg(g.freereg))
  {
    hide ToReg;
  }

  lemma NegatedIs(g: Gen, d: Desc)
    requires !d.k.VLocal?
    ensures d.k.VNil? || d.k.VFalse? ==> Negated(g, d) == (g, VTrue)
    ensures d.k.VK? || d.k.VKNum? || d.k.VTrue? ==> Negated(g, d) == (g, VFalse)
    ensures d.k.VJmp? ==> Negated(g, d) == (Invert(g, d.k.pc), d.k)
    ensures d.k.VReloc? || d.k.VNonReloc? ==>
      (var (y, u) := ToAnyReg(g, d); var z := FreeExp(y, u); u.k.VNonReloc? && Negated(g, d) == (Emit(z, Not(0, u.k.reg)), VReloc(Pc(z))))
  {
    hide ToReg, EmitAll;
  }

  lemma JumpAlone(c: seq<Instr>, d: ExpDesc, v: Desc)
    requires Has(c, d, v) && v.k.VJmp?
    ensures IsList(c, v.k.pc, [v.k.pc])
  {}

  lemma HasKind(c: seq<Instr>, g: Gen, c': seq<Instr>, d: ExpDesc, v: Desc, k: Kind)
    requires Has(c, d, v) && DescWf(g, v) && KeepsAfter(c, g, v, c') && |c| == Pc(g)
    requires k.VJmp? ==> k == v.k && IsList(c', k.pc, [k.pc])
    ensures Has(c', d.(k := k), v.(k := k))
  {
    hide GenWf;
    ListStays(c, c', d.t, v.t);
    ListStays(c, c', d.f, v.f);
  }

  lemma NotIs(g: Gen, v: Desc)
    ensures var w := Discharge(v); var (y, k) := Negated(g, w);
      CodeNot(g, v) == (y.(code := RemoveValues(RemoveValues(y.code, v.t), v.f)), Desc(k, v.f, v.t))
  {
    hide Negated;
  }

  lemma NegHeld(g: Gen, w: Desc)
    requires var (y, k) := Negated(g, w); NegWf(g, w, y, w.(k := k))
    ensures var y := Negated(g, w).0; AllHeld(y.code, w.t) && AllHeld(y.code, w.f)
  {
    hide GenWf, Negated;
  }

  lemma HasLists(c: seq<Instr>, d: ExpDesc, v: Desc)
    requires Has(c, d, v)
    ensures IsList(c, d.t, v.t) && IsList(c, d.f, v.f)
  {}

  lemma AllRemoved(a: seq<Instr>, q: seq<nat>, p: seq<nat>)
    requires AllHeld(a, p)
    ensures AllHeld(RemoveValues(a, q), p)
  {
    forall j | j in p ensures Held(RemoveValues(a, q), j) { assert Held(a, j); }
  }

  /** Lists of jumps on hold survive where only tests are written. */
  lemma JumpsKept(c: seq<Instr>, c': seq<Instr>, head: int, q: seq<nat>, a: seq<Instr>)
    requires IsList(c, head, q) && AllHeld(a, q) && |a| == |c| == |c'|
    requires forall j: nat :: Held(a, j) ==> c[j].Jmp?
    requires forall j :: 0 <= j < |c| && c[j].Jmp? ==> c'[j] == c[j]
    ensures IsList(c', head, q)
  {
    hide IsList;
    ListStays(c, c', head, q);
  }

  lemma NotHas(c: seq<Instr>, y: Gen, c': seq<Instr>, d: ExpDesc, w: Desc, u: ExpDesc, k: Kind)
    requires Has(c, d, w.(k := k)) && d.k == k && u == ExpDesc(k, d.f, d.t)
    requires IsList(c', d.t, w.t) && IsList(c', d.f, w.f) && |c'| == |c|
    requires forall j :: 0 <= j < |c| && c[j].Jmp? ==> c'[j] == c[j]
    ensures Has(c', u, Desc(k, w.f, w.t))
  {
    if k.VJmp? {
      assert [k.pc][0] == k.pc;
      ListStays(c, c', k.pc, [k.pc]);
    }
  }

  lemma NotKeeps(c: seq<Instr>, g: Gen, v: Desc, y: Gen, k: Kind, c1: seq<Instr>, c2: seq<Instr>)
    requires var w := Discharge(v); KeepsAfter(c, g, w, c1) && NegWf(g, w, y, w.(k := k))
    requires |c2| == |c1| == Pc(y) && (forall j: nat :: Held(y.code, j) ==> c1[j].Jmp?)
    requires forall j :: 0 <= j < |c1| && c1[j].Jmp? ==> c2[j] == c1[j]
    ensures KeepsBut(c, g, v, c2)
  {
    hide GenWf, DescWf;
    forall j: nat | Held(g.code, j) && j !in g.jpc && j !in v.t && j !in v.f && v.k != VJmp(j) && j < |c|
      ensures j < |c2| && c2[j] == c[j]
    {
      assert SameControl(g, y, j);
    }
  }

  lemma DischargedSame(v: Desc)
    requires !v.k.VLocal?
    ensures Discharge(v) == v
  {}

  lemma KeepsHere(c: seq<Instr>, g: Gen, v: Desc, w: Desc, y: Gen, c2: seq<Instr>, c3: seq<Instr>, q: seq<nat>)
    requires w == Discharge(v) && KeepsBut(c, g, w, c2) && BranchWf(g, w, y, q) && |c2| == Pc(y)
    requires forall j :: 0 <= j < |c2| && j !in y.jpc ==> j < |c3| && c3[j] == c2[j]
    ensures KeepsBut(c, g, v, c3)
  {
    hide GenWf;
    forall j: nat | Held(g.code, j) && j !in g.jpc && j !in v.t && j !in v.f && v.k != VJmp(j) && j < |c|
      ensures j < |c3| && c3[j] == c[j]
    {
      assert SameControl(g, y, j);
    }
  }

  lemma EmptyList(c: seq<Instr>)
    ensures IsList(c, NO_JUMP, [])
  {}

  /** After the switch, links on hold elsewhere and in the lists of `v` are as before. */
  ghost predicate KeepsAfter(c: seq<Instr>, g: Gen, v: Desc, c': seq<Instr>) {
    forall j: nat :: Held(g.code, j) && j !in g.jpc && v.k != VJmp(j) && j < |c| ==> j < |c'| && c'[j] == c[j]
  }

  lemma KeepsWeak(c: seq<Instr>, g: Gen, v: Desc, c': seq<Instr>)
    requires Keeps(c, g, c')
    ensures KeepsAfter(c, g, v, c')
  {}

  lemma CompareThere(g: Gen, v: Desc)
    requires DescWf(g, v)
    ensures v.k.VJmp? ==> 0 < v.k.pc < Pc(g) && g.code[v.k.pc - 1].Cmp?
  {}

  lemma JumpStays(c: seq<Instr>, g: Gen, c': seq<Instr>, v: Desc)
    requires v.k.VJmp? && IsList(c, v.k.pc, [v.k.pc]) && |c| == |c'| == Pc(g)
    requires forall j :: 0 <= j < |c| && c[j].Jmp? ==> c'[j] == c[j]
    requires forall j: nat :: Held(g.code, j) ==> c[j].Jmp?
    ensures IsList(c', v.k.pc, [v.k.pc]) && Keeps(c, g, c')
  {
    assert [v.k.pc][0] == v.k.pc;
    ListStays(c, c', v.k.pc, [v.k.pc]);
  }

  lemma DischargeHas(g: Gen, c: seq<Instr>, d: ExpDesc, v: Desc)
    requires DescWf(g, v) && Has(c, d, v)
    ensures DescWf(g, Discharge(v)) && !Discharge(v).k.VLocal?
    ensures Has(c, if d.k.VLocal? then d.(k := VNonReloc(d.k.reg)) else d, Discharge(v))
  {
    hide AllHeld, Apart, IsList;
  }

  lemma GoIfParts(g: Gen, v: Desc, want: bool)
    ensures var w := Discharge(v); var (y, q) := Jumps(g, w, want); var (g', v') := GoIf(g, v, want);
      g' == Here(y, Out(v, !want)) && v' == (if want then Desc(w.k, [], v.f + q) else Desc(w.k, v.t + q, []))
  {
    hide FalseJumps, TrueJumps;
  }

  /** The lists of `v` and the new jumps are on hold, apart from each other. */
  lemma OutHeld(g: Gen, v: Desc, want: bool, y: Gen, q: seq<nat>)
    requires DescWf(g, v) && BranchWf(g, Discharge(v), y, q)
    ensures AllHeld(y.code, Out(v, want)) && AllHeld(y.code, Out(v, !want)) && AllHeld(y.code, q)
    ensures Apart(Out(v, want), q) && Apart(y.jpc, Out(v, !want)) && Apart(y.jpc, Out(v, want)) && Apart(y.jpc, q)
    ensures Apart(y.jpc, Out(v, want) + q) && forall j :: j in y.jpc ==> j !in Out(v, want)
  {
    hide GenWf;
    forall j | j in v.t || j in v.f ensures Held(y.code, j) && j !in y.jpc && j !in q { assert SameControl(g, y, j); }
  }

  lemma OutApart(g: Gen, v: Desc, want: bool)
    requires DescWf(g, v)
    ensures forall j :: j in Out(v, !want) ==> j !in Out(v, want)
  {}

  lemma OutStays(c: seq<Instr>, g: Gen, v: Desc, want: bool, c': seq<Instr>, out: int, other: int)
    requires DescWf(g, v) && KeepsAfter(c, g, Discharge(v), c') && |c| == Pc(g)
    requires IsList(c, out, Out(v, want)) && IsList(c, other, Out(v, !want))
    ensures IsList(c', out, Out(v, want)) && IsList(c', other, Out(v, !want))
  {
    hide GenWf, IsList;
    assert AllHeld(g.code, v.t) && AllHeld(g.code, v.f);
    ListStays(c, c', out, Out(v, want));
    ListStays(c, c', other, Out(v, !want));
  }

  lemma KeepsGone(c: seq<Instr>, g: Gen, v: Desc, want: bool, y: Gen, c1: seq<Instr>, c2: seq<Instr>, c3: seq<Instr>, q: seq<nat>)
    requires KeepsAfter(c, g, Discharge(v), c1) && BranchWf(g, Discharge(v), y, q) && |c| == Pc(g) && |c1| == Pc(y) == |c2|
    requires forall j :: 0 <= j < |c1| && j !in Out(v, want) ==> c2[j] == c1[j]
    requires forall j :: 0 <= j < |c2| && j !in y.jpc ==> j < |c3| && c3[j] == c2[j]
    ensures KeepsBut(c, g, v, c3)
  {
    hide GenWf;
    forall j: nat | Held(g.code, j) && j !in g.jpc && j !in v.t && j !in v.f && v.k != VJmp(j) && j < |c|
      ensures j < |c3| && c3[j] == c[j]
    {
      assert SameControl(g, y, j);
    }
  }

  lemma CondJumpSize(g: Gen, i: Instr)
    ensures Pc(CondJump(g, i)) == Pc(g) + 2
  {}

  lemma RelocLast(g: Gen, v: Desc)
    requires DescWf(g, v) && v.k.VReloc?
    ensures Pc(g) == v.k.pc + 1 && g.jpc == [] && g.code[v.k.pc].Not?
    ensures JumpOnCond(g, v, true) == CondJump(g.(code := g.code[..Pc(g) - 1]), Test(g.code[v.k.pc].b, false))
    ensures JumpOnCond(g, v, false) == CondJump(g.(code := g.code[..Pc(g) - 1]), Test(g.code[v.k.pc].b, true))
  {
    hide EmitAll, GenWf;
  }

  lemma EncodesCut(c: seq<Instr>, a: seq<Instr>)
    requires Encodes(c, a) && c != []
    ensures a != [] && Encodes(c[..|c| - 1], a[..|a| - 1])
  {
    var c' := c[..|c| - 1];
    var a' := a[..|a| - 1];
    forall k | 0 <= k < |a'| ensures EncodesAt(c', a', k) { assert EncodesAt(c, a, k); }
  }

  lemma KeepsCut(c: seq<Instr>, g: Gen, c1: seq<Instr>, z: Gen, c2: seq<Instr>)
    requires |c| == Pc(g) > 0 && c1 == c[..|c| - 1] && z.code == g.code[..Pc(g) - 1] && z.jpc == g.jpc && !g.code[Pc(g) - 1].Jmp?
    requires Keeps(c1, z, c2)
    ensures Keeps(c, g, c2)
  {
    forall j: nat | Held(g.code, j) && j !in g.jpc && j < |c| ensures j < |c2| && c2[j] == c[j] { assert Held(z.code, j); }
  }

  lemma KeepsKept(c: seq<Instr>, g: Gen, c1: seq<Instr>, y: Gen, c2: seq<Instr>)
    requires Keeps(c, g, c1) && Kept(g, y) && Keeps(c1, y, c2) && |c1| == Pc(y)
    ensures Keeps(c, g, c2)
  {
    forall j: nat | Held(g.code, j) && j !in g.jpc && j < |c| ensures j < |c2| && c2[j] == c[j] { assert SameControl(g, y, j); }
  }

  /** Links on hold other than those of `v` are untouched. */
  ghost predicate KeepsBut(c: seq<Instr>, g: Gen, v: Desc, c': seq<Instr>) {
    forall j: nat :: Held(g.code, j) && j !in g.jpc && j !in v.t && j !in v.f && v.k != VJmp(j) && j < |c| ==>
      j < |c'| && c'[j] == c[j]
  }

  lemma RelocFits(g: Gen, v: Desc)
    requires DescWf(g, v)
    ensures v.k.VReloc? ==> RelocAt(g, v)
  {}

  lemma KeptHeld(g: Gen, v: Desc, y: Gen)
    requires DescWf(g, v) && Kept(g, y)
    ensures AllHeld(y.code, TrueList(v)) && AllHeld(y.code, v.f) && Apart(y.jpc, TrueList(v)) && Apart(y.jpc, v.f)
    ensures Apart(v.f, TrueList(v))
  {
    hide GenWf, Wf, NoLanding;
    forall j | j in TrueList(v) || j in v.f ensures Held(y.code, j) && j !in y.jpc { assert SameControl(g, y, j); }
  }

  lemma ApartLists(g: Gen, v: Desc, z: Gen, reg: nat)
    requires PreparedWf(g, v, z, reg)
    ensures Apart(v.f, TrueList(v)) && forall j :: j in TrueList(v) ==> j !in v.f
  {}

  lemma BeforeIs(g: Gen, v: Desc, reg: nat)
    ensures var y := ToReg(g, v, reg);
      var z := if NeedValue(y.code, TrueList(v)) || NeedValue(y.code, v.f) then Loads(y, !v.k.VJmp?, reg) else y;
      BeforePatch(g, v, reg) == Label(z)
  {}

  lemma JumpSame(g: Gen, v: Desc, reg: nat)
    requires v.k.VJmp?
    ensures ToReg(g, v, reg) == g
  {}

  lemma SizeGrows(g: Gen, v: Desc, reg: nat)
    ensures Pc(g) <= Pc(ToReg(g, v, reg))
  {
    hide PatchList, IndexOf;
  }

  lemma KeepsJoined(c: seq<Instr>, g: Gen, v: Desc, c1: seq<Instr>, c2: seq<Instr>)
    requires Keeps(c, g, c1) && |c| <= |c1| == |c2| && forall j :: 0 <= j < |c1| && j !in v.t ==> c2[j] == c1[j]
    ensures KeepsBut(c, g, v, c2)
  {}

  lemma PatchReady(g: Gen, v: Desc, z: Gen, reg: nat)
    requires PreparedWf(g, v, z, reg)
    ensures AllHeld(z.code, v.f) && AllHeld(z.code, TrueList(v)) && AllHeld(z.code, z.jpc)
    ensures Apart(z.jpc, v.f) && Apart(z.jpc, TrueList(v))
  {}

  lemma StaysHeld(a: seq<Instr>, f: seq<nat>, vt: nat, reg: Option<nat>, dt: int, t: seq<nat>)
    requires AllHeld(a, t) && Apart(f, t)
    ensures AllHeld(PatchList(a, f, vt, reg, dt), t)
  {
    forall j | j in t ensures Held(PatchList(a, f, vt, reg, dt), j) { assert Held(a, j); }
  }

  lemma BothIsTwo(c: seq<Instr>, f: seq<nat>, t: seq<nat>, reg: nat)
    ensures PatchBoth(c, f, t, reg) == PatchList(PatchList(c, f, |c|, Some(reg), |c| - 2), t, |c|, Some(reg), |c| - 1)
  {}

  lemma PatchedHeld(g: Gen, v: Desc, z: Gen, reg: nat)
    requires PreparedWf(g, v, z, reg)
    ensures AllHeld(PatchBoth(z.code, v.f, TrueList(v), reg), z.jpc)
  {
    PatchedWf(g, v, z, reg);
  }

  lemma KeepsPatched(c: seq<Instr>, g: Gen, v: Desc, y: Gen, c2: seq<Instr>, c3: seq<Instr>, c4: seq<Instr>)
    requires KeepsBut(c, g, v, c2) && Kept(g, y) && Keeps(c2, y, c3) && |c| <= |c2| == Pc(y) && |c| == Pc(g)
    requires |c3| == |c4| && forall j: nat :: j < |c3| && j !in v.f && j !in TrueList(v) && c3[j].Jmp? ==> c4[j] == c3[j]
    requires forall j: nat :: Held(g.code, j) ==> j < |c| && c[j].Jmp?
    ensures KeepsBut(c, g, v, c4)
  {
    forall j: nat | Held(g.code, j) && j !in g.jpc && j !in v.t && j !in v.f && v.k != VJmp(j) && j < |c|
      ensures j < |c4| && c4[j] == c[j]
    {
      assert SameControl(g, y, j);
      assert c2[j] == c[j] && c3[j] == c2[j];
    }
  }

  /** hasjumps: the heads differ exactly if some list is not empty. */
  lemma NoHeads(c: seq<Instr>, t: int, f: int, v: Desc)
    requires IsList(c, t, TrueList(v)) && IsList(c, f, v.f) && Apart(v.f, TrueList(v))
    ensures t != f <==> !(TrueList(v) == [] && v.f == [])
  {
    HeadOf(c, t, TrueList(v));
    HeadOf(c, f, v.f);
    if TrueList(v) != [] && v.f != [] { assert v.f[0] in v.f && TrueList(v)[0] in TrueList(v); }
  }

  lemma JumpHolds(g: Gen)
    requires AllHeld(g.code, g.jpc)
    ensures var (y, q) := Jump(g); AllHeld(y.code, q) && y.jpc == [] && forall j: nat :: Held(g.code, j) ==> Held(y.code, j)
  {}

  lemma EmitHolds(g: Gen, i: Instr, q: seq<nat>)
    requires AllHeld(g.code, q) && Apart(g.jpc, q)
    ensures AllHeld(Emit(g, i).code, q) && Emit(g, i).jpc == []
    ensures forall j: nat :: Held(g.code, j) && j !in g.jpc ==> Held(Emit(g, i).code, j)
  {
    forall j: nat | Held(g.code, j) && j !in g.jpc ensures Held(Emit(g, i).code, j) {
      assert Emit(g, i).code[j] == PatchedAt(g.code, g.jpc, Pc(g), None, Pc(g), j);
    }
  }

  lemma KeepsLabel(c: seq<Instr>, g: Gen)
    ensures forall c' :: Keeps(c, Label(g), c') <==> Keeps(c, g, c')
  {}

  lemma KeepsLoads(c: seq<Instr>, g: Gen, c1: seq<Instr>, y: Gen, c2: seq<Instr>, z: Gen, c3: seq<Instr>, c4: seq<Instr>)
    requires Keeps(c, g, c1) && Keeps(c1, y, c2) && Keeps(c2, z, c3) && z.jpc == []
    requires |c| == Pc(g) && |c1| == Pc(y) && |c2| == Pc(z)
    requires forall j: nat :: Held(g.code, j) && j !in g.jpc ==> Held(y.code, j) && j !in y.jpc
    requires forall j: nat :: Held(y.code, j) && j !in y.jpc ==> Held(z.code, j)
    requires forall j :: 0 <= j < |c3| ==> j < |c4| && c4[j] == c3[j]
    ensures Keeps(c, g, c4)
  {}

  lemma LoadsSteps(g: Gen, jump: bool, reg: nat)
    ensures var (y, q) := if jump then Jump(g) else (g, []);
      Here(Emit(Label(Emit(Label(y), LoadBool(reg, false, true))), LoadBool(reg, true, false)), q) == Loads(g, jump, reg)
  {
    var y := if jump then Jump(g).0 else g;
    var a := LoadBool(reg, false, true);
    var b := LoadBool(reg, true, false);
    var z := Label(Emit(Label(y), a));
    assert Discharged(z) == z.code;
    assert Discharged(y) + [a] + [b] == Discharged(y) + [a, b];
    var x := EmitAll(y, [a, b]);
    assert Emit(z, b) == x.(lasttarget := Pc(y) + 1);
    hide EmitAll;
  }

  lemma KeepsSelf(c: seq<Instr>, g: Gen)
    ensures Keeps(c, g, c)
  {}

  lemma KeepsSame(c: seq<Instr>, g: Gen, g': Gen)
    requires g'.code == g.code && g'.jpc == g.jpc
    ensures forall c' :: Keeps(c, g', c') ==> Keeps(c, g, c')
  {}

  lemma ThreadTest(c: seq<Instr>, a: seq<Instr>, j: nat)
    requires Encodes(c, a) && j < |a|
    ensures (j > 0 && c[j - 1].TestSet?) == Delivers(a, j)
  {
    if j > 0 { assert EncodesAt(c, a, j - 1); }
  }

  lemma RemoveNone(a: seq<Instr>)
    ensures RemoveValues(a, []) == a
  {}

  lemma RemoveNext(a: seq<Instr>, c: seq<Instr>, q: seq<nat>, i: nat, c': seq<Instr>)
    requires i < |q| && AllHeld(a, q) && q[i] < |a| == |c| && Encodes(c, RemoveValues(a, q[..i]))
    requires var j := q[i];
      c' == if j > 0 && c[j - 1].TestSet? then c[j - 1 := Test(c[j - 1].b, c[j - 1].c)] else c
    ensures Encodes(c', RemoveValues(a, q[..i + 1]))
  {
    var d := RemoveValues(a, q[..i]);
    var d' := RemoveValues(a, q[..i + 1]);
    assert q[..i + 1] == q[..i] + [q[i]];
    if q[i] > 0 { assert EncodesAt(c, d, q[i] - 1); }
    forall k | 0 <= k < |a| ensures EncodesAt(c', d', k) { assert EncodesAt(c, d, k); }
  }

  lemma EncodesPut(c: seq<Instr>, a: seq<Instr>, j: nat, i: Instr)
    requires Encodes(c, a) && j < |a| && !i.Jmp?
    ensures Encodes(c[j := i], a[j := i])
  {
    var c' := c[j := i];
    var a' := a[j := i];
    forall k | 0 <= k < |a| ensures EncodesAt(c', a', k) { assert EncodesAt(c, a, k); }
  }

  lemma NilLists(c: seq<Instr>, g: Gen, jpc: int, i: Instr)
    requires IsList(c, jpc, g.jpc) && AllHeld(g.code, g.jpc) && |c| == Pc(g) > 0 && !g.code[|c| - 1].Jmp?
    ensures var c' := c[|c| - 1 := i]; IsList(c', jpc, g.jpc) && Keeps(c, g, c')
    ensures AllHeld(g.code[|c| - 1 := i], g.jpc)
  {
    ListStays(c, c[|c| - 1 := i], jpc, g.jpc);
  }

  lemma {:induction false} IndexAt(ks: seq<Value>, v: Value, i: nat)
    requires i < |ks| && ks[i] == v && forall j :: 0 <= j < i ==> ks[j] != v
    ensures IndexOf(ks, v) == i
    decreases i
  {
    if i > 0 { IndexAt(ks[1..], v, i - 1); }
  }

  lemma {:induction false} IndexNone(ks: seq<Value>, v: Value)
    requires v !in ks
    ensures IndexOf(ks, v) == |ks|
    decreases |ks|
  {
    if ks != [] { IndexNone(ks[1..], v); }
  }

  lemma IndexIs(ks: seq<Value>, h: map<Value, nat>, v: Value)
    requires Constants(ks, h)
    ensures IndexOf(ks, v) == if v in h then h[v] else |ks|
  {
    if v in h {
      forall j | 0 <= j < h[v] ensures ks[j] != v {}
      IndexAt(ks, v, h[v]);
    } else {
      IndexNone(ks, v);
    }
  }

  lemma EncodesSize(c: seq<Instr>, a: seq<Instr>)
    requires Encodes(c, a)
    ensures |c| == |a|
  {}

  lemma HeldJumps(c: seq<Instr>, a: seq<Instr>)
    requires Encodes(c, a)
    ensures |c| == |a| && forall j: nat :: Held(a, j) ==> c[j].Jmp?
  {
    forall j: nat | Held(a, j) ensures c[j].Jmp? { assert EncodesAt(c, a, j); }
  }

  lemma EncodesPush(c: seq<Instr>, a: seq<Instr>, i: Instr)
    requires Encodes(c, a) && (i.Jmp? ==> i.dest == HOLD)
    ensures Encodes(c + [i], a + [i])
  {
    forall k | 0 <= k < |a + [i]| ensures EncodesAt(c + [i], a + [i], k) { if k < |a| { assert EncodesAt(c, a, k); } }
  }

  lemma EncodesLink(c: seq<Instr>, a: seq<Instr>, j: nat, i: Instr)
    requires Encodes(c, a) && Held(a, j) && i.Jmp?
    ensures Encodes(c[j := i], a)
  {
    var d := c[j := i];
    forall k | 0 <= k < |a| ensures EncodesAt(d, a, k) { assert EncodesAt(c, a, k); }
  }

  lemma OneJump(c: seq<Instr>)
    requires c != [] && c[|c| - 1] == Jmp(NO_JUMP)
    ensures IsList(c, |c| - 1, [|c| - 1])
  {
    assert [|c| - 1][1..] == [];
  }

  /** Links of jumps on hold elsewhere are untouched. */
  ghost predicate Keeps(c: seq<Instr>, g: Gen, c': seq<Instr>) {
    forall j: nat :: Held(g.code, j) && j !in g.jpc && j < |c| ==> j < |c'| && c'[j] == c[j]
  }

  lemma KeepsTwice(c: seq<Instr>, g: Gen, d: seq<Instr>, h: Gen, c': seq<Instr>)
    requires Keeps(c, g, d) && Keeps(d, h, c') && Encodes(c, g.code) && Encodes(d, h.code)
    requires forall j: nat :: Held(g.code, j) && j !in g.jpc ==> Held(h.code, j) && j !in h.jpc
    ensures Keeps(c, g, c')
  {}

  lemma CondJumpIs(g: Gen, i: Instr)
    requires AllHeld(g.code, g.jpc)
    ensures Jump(Emit(g, i)) == (CondJump(g, i), [Pc(g) + 1])
    ensures forall j: nat :: Held(g.code, j) && j !in g.jpc ==> Held(Emit(g, i).code, j) && j !in Emit(g, i).jpc
  {
    assert Discharged(g) + [i, Jmp(HOLD)] == Discharged(g) + [i] + [Jmp(HOLD)];
    var none: seq<nat> := [];
    assert [Pc(g) + 1] + none == [Pc(g) + 1];
  }

  /** The next node of a list still has its link. */
  lemma NodeUnpatched(c0: seq<Instr>, c: seq<Instr>, a: seq<Instr>, head: int, q: seq<nat>, i: nat)
    requires IsList(c0, head, q) && i < |q| && |c| == |a| == |c0|
    requires forall j :: 0 <= j < |a| && j !in q[..i] && c0[j].Jmp? ==> c[j] == c0[j]
    ensures forall k :: 0 <= k < i ==> q[k] != q[i]
    ensures q[i] < |c| && c[q[i]].Jmp? && GetJump(c, q[i]) == if i + 1 < |q| then q[i + 1] else NO_JUMP
  {
    forall k | 0 <= k < i ensures q[k] != q[i] { ListDistinct(c0, head, q, k, i); }
    ListNext(c0, head, q, i);
  }
}
