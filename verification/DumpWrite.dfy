/** The dumper and its writer (ldump.c), and the whole way from a function through chunks back to it. */
module DumpWrite {
  import opened Wrappers
  import opened LuaProto
  import opened DumpFormat
  import opened DumpStream
  import opened DumpTheorem

  /** Of the bytes `b`, all have been sent if the writer did not fail, and a prefix if it did; once it
      has failed, nothing is sent any more. */
  predicate Written(sent: Str, status: int, b: Str, sent': Str, status': int) {
    if status != 0 then sent' == sent && status' == status
    else sent <= sent' <= sent + b && (status' == 0 ==> sent' == sent + b)
  }

  lemma WrittenThen(s: Str, st: int, a: Str, s': Str, st': int, b: Str, s'': Str, st'': int)
    requires Written(s, st, a, s', st') && Written(s', st', b, s'', st'')
    ensures Written(s, st, a + b, s'', st'')
  {
    assert s + (a + b) == s + a + b;
    if st == 0 && st' != 0 { assert s'' == s' <= s + a; }
  }

  lemma WrittenNothing(s: Str, st: int)
    ensures Written(s, st, [], s, st)
  {
    assert s + [] == s;
  }

  class DumpState {
    const strip: bool
    var status: int
    var sent: Str           // what the writer has been given
    var answers: seq<int>   // what the writer returns, then 0

    constructor (strip: bool, answers: seq<int>)
      ensures this.strip == strip && status == 0 && sent == []
    {
      this.strip, status, sent, this.answers := strip, 0, [], answers;
    }

    method Block(b: Str)
      modifies this
      ensures Written(old(sent), old(status), b, sent, status)
    {
      if status == 0 {
        sent := sent + b;
        if answers != [] { status, answers := answers[0], answers[1..]; }
      }
    }

    method Int(x: int)
      requires IsInt(x)
      modifies this
      ensures Written(old(sent), old(status), DumpInt(x), sent, status)
    {
      Block(Bytes(ToWord(x)));
    }

    method String(s: Option<Str>)
      requires StringFits(s)
      modifies this
      ensures Written(old(sent), old(status), DumpString(s), sent, status)
    {
      hide Bytes, Written;
      if s.None? {
        Block(Bytes(0));
      } else {
        Block(Bytes(|s.val| + 1));
        ghost var s', st' := sent, status;
        Block(s.val + [0]);
        WrittenThen(old(sent), old(status), Bytes(|s.val| + 1), s', st', s.val + [0], sent, status);
        assert Bytes(|s.val| + 1) + (s.val + [0]) == DumpString(s);
      }
    }

    method Constant(c: Constant)
      requires ConstantFits(c)
      modifies this
      ensures Written(old(sent), old(status), DumpConstant(c), sent, status)
    {
      hide Written, DumpInt, DumpString;
      Block([if c.CNil? then 0 else if c.CBoolean? then 1 else if c.CNumber? then 3 else 4]);
      ghost var s', st' := sent, status;
      if c.CBoolean? {
        Block([if c.b then 1 else 0]);
        WrittenThen(old(sent), old(status), [1], s', st', [if c.b then 1 else 0], sent, status);
        assert DumpConstant(c) == [1] + [if c.b then 1 else 0];
      } else if c.CNumber? {
        Int(c.n);
        WrittenThen(old(sent), old(status), [3], s', st', DumpInt(c.n), sent, status);
      } else if c.CString? {
        String(c.s);
        WrittenThen(old(sent), old(status), [4], s', st', DumpString(c.s), sent, status);
      }
    }

    method Constants(k: seq<Constant>)
      requires NatFits(|k|) && forall c :: c in k ==> ConstantFits(c)
      modifies this
      ensures Written(old(sent), old(status), DumpList(DumpConstant, k), sent, status)
    {
      hide Written, DumpInt, DumpConstant, ConstantFits;
      Int(|k|);
      ghost var s, st := sent, status;
      WrittenNothing(s, st);
      var i := 0;
      while i < |k|
        invariant 0 <= i <= |k| && Written(s, st, Concat(DumpConstant, k[..i]), sent, status)
      {
        ghost var s', st' := sent, status;
        Constant(k[i]);
        WrittenThen(s, st, Concat(DumpConstant, k[..i]), s', st', DumpConstant(k[i]), sent, status);
        ConcatNext(DumpConstant, k, i);
        i := i + 1;
      }
      assert k[..i] == k;
      WrittenThen(old(sent), old(status), DumpInt(|k|), s, st, Concat(DumpConstant, k), sent, status);
    }

    method LocVars(vars: seq<LocVar>)
      requires NatFits(|vars|) && forall v :: v in vars ==> LocVarFits(v)
      modifies this
      ensures Written(old(sent), old(status), DumpList(DumpLocVar, vars), sent, status)
    {
      hide Written, DumpInt, DumpLocVar, LocVarFits;
      Int(|vars|);
      ghost var s, st := sent, status;
      WrittenNothing(s, st);
      var i := 0;
      while i < |vars|
        invariant 0 <= i <= |vars| && Written(s, st, Concat(DumpLocVar, vars[..i]), sent, status)
      {
        ghost var s', st' := sent, status;
        OneLocVar(vars[i]);
        WrittenThen(s, st, Concat(DumpLocVar, vars[..i]), s', st', DumpLocVar(vars[i]), sent, status);
        ConcatNext(DumpLocVar, vars, i);
        i := i + 1;
      }
      assert vars[..i] == vars;
      WrittenThen(old(sent), old(status), DumpInt(|vars|), s, st, Concat(DumpLocVar, vars), sent, status);
    }

    method OneLocVar(v: LocVar)
      requires LocVarFits(v)
      modifies this
      ensures Written(old(sent), old(status), DumpLocVar(v), sent, status)
    {
      hide Written, DumpInt, DumpString;
      String(v.varname);
      ghost var s, st := sent, status;
      Int(v.startpc);
      ghost var s', st' := sent, status;
      Int(v.endpc);
      WrittenThen(s, st, DumpInt(v.startpc), s', st', DumpInt(v.endpc), sent, status);
      WrittenThen(old(sent), old(status), DumpString(v.varname), s, st, DumpInt(v.startpc) + DumpInt(v.endpc), sent, status);
    }

    method Upvalues(names: seq<Option<Str>>)
      requires NatFits(|names|) && forall u :: u in names ==> StringFits(u)
      modifies this
      ensures Written(old(sent), old(status), DumpList(DumpString, names), sent, status)
    {
      hide Written, DumpInt, DumpString;
      Int(|names|);
      ghost var s, st := sent, status;
      WrittenNothing(s, st);
      var i := 0;
      while i < |names|
        invariant 0 <= i <= |names| && Written(s, st, Concat(DumpString, names[..i]), sent, status)
      {
        ghost var s', st' := sent, status;
        String(names[i]);
        WrittenThen(s, st, Concat(DumpString, names[..i]), s', st', DumpString(names[i]), sent, status);
        ConcatNext(DumpString, names, i);
        i := i + 1;
      }
      assert names[..i] == names;
      WrittenThen(old(sent), old(status), DumpInt(|names|), s, st, Concat(DumpString, names), sent, status);
    }

    /** DumpFunction, up to the nested functions. */
    method Head(f: Proto, source: Option<Str>)
      requires Fits(f) && StringFits(source)
      modifies this
      ensures Written(old(sent), old(status), DumpHead(f, source), sent, status)
    {
      hide Written, DumpInt, DumpString, DumpConstant, Bytes, Concat;
      ghost var s0, t0 := sent, status;
      String(source);
      ghost var s1, t1 := sent, status;
      Int(f.linedefined);
      ghost var s2, t2 := sent, status;
      Int(f.lastlinedefined);
      ghost var s3, t3 := sent, status;
      Limits(f);
      ghost var s4, t4 := sent, status;
      Int(|f.code|);
      ghost var s5, t5 := sent, status;
      Block(Concat(Bytes, f.code));
      ghost var s6, t6 := sent, status;
      Constants(f.k);
      ghost var s7, t7 := sent, status;
      Int(|f.p|);
      var limits := [f.nups] + [f.numparams] + ([f.isVararg] + [f.maxstacksize]);
      var code, k, n := DumpList(Bytes, f.code), DumpList(DumpConstant, f.k), DumpInt(|f.p|);
      WrittenThen(s4, t4, DumpInt(|f.code|), s5, t5, Concat(Bytes, f.code), s6, t6);
      WrittenThen(s4, t4, code, s6, t6, k, s7, t7);
      WrittenThen(s4, t4, code + k, s7, t7, n, sent, status);
      WrittenThen(s3, t3, limits, s4, t4, code + k + n, sent, status);
      WrittenThen(s1, t1, DumpInt(f.linedefined), s2, t2, DumpInt(f.lastlinedefined), s3, t3);
      WrittenThen(s1, t1, DumpInt(f.linedefined) + DumpInt(f.lastlinedefined), s3, t3, limits + (code + k + n), sent, status);
      WrittenThen(s0, t0, DumpString(source), s1, t1,
        DumpInt(f.linedefined) + DumpInt(f.lastlinedefined) + (limits + (code + k + n)), sent, status);
    }

    method Limits(f: Proto)
      modifies this
      ensures Written(old(sent), old(status), [f.nups] + [f.numparams] + ([f.isVararg] + [f.maxstacksize]), sent, status)
    {
      hide Written;
      Block([f.nups]);
      ghost var s1, t1 := sent, status;
      Block([f.numparams]);
      ghost var s2, t2 := sent, status;
      Block([f.isVararg]);
      ghost var s3, t3 := sent, status;
      Block([f.maxstacksize]);
      WrittenThen(old(sent), old(status), [f.nups], s1, t1, [f.numparams], s2, t2);
      WrittenThen(s2, t2, [f.isVararg], s3, t3, [f.maxstacksize], sent, status);
      WrittenThen(old(sent), old(status), [f.nups] + [f.numparams], s2, t2, [f.isVararg] + [f.maxstacksize], sent, status);
    }

    /** DumpDebug: empty vectors if the dump is stripped. */
    method DebugPart(f: Proto)
      requires Fits(f)
      modifies this
      ensures Written(old(sent), old(status), DumpFormat.DumpDebug(if strip then Bare(f) else f), sent, status)
    {
      hide Written, DumpInt, DumpString, DumpLocVar, Concat;
      var lines := if strip then [] else f.lineinfo;
      var vars := if strip then [] else f.locvars;
      var names := if strip then [] else f.upvalues;
      Int(|lines|);
      ghost var s1, t1 := sent, status;
      Block(Concat(DumpInt, lines));
      ghost var s2, t2 := sent, status;
      LocVars(vars);
      ghost var s3, t3 := sent, status;
      Upvalues(names);
      WrittenThen(old(sent), old(status), DumpInt(|lines|), s1, t1, Concat(DumpInt, lines), s2, t2);
      WrittenThen(s2, t2, DumpList(DumpLocVar, vars), s3, t3, DumpList(DumpString, names), sent, status);
      WrittenThen(old(sent), old(status), DumpList(DumpInt, lines), s2, t2,
        DumpList(DumpLocVar, vars) + DumpList(DumpString, names), sent, status);
    }

    /** DumpFunction. */
    method Function(f: Proto, parent: Option<Str>)
      requires AllFit(f)
      modifies this
      ensures Written(old(sent), old(status), DumpFunction(f, parent, strip), sent, status)
      decreases f, 1
    {
      hide Written, DumpHead, DumpFormat.DumpDebug, DumpProtos, Bare, Fits;
      FitsAlone(f);
      var source := if f.source == parent || strip then None else f.source;
      Head(f, source);
      ghost var s1, t1 := sent, status;
      Functions(f.p, f.source);
      ghost var s2, t2 := sent, status;
      DebugPart(f);
      ghost var debug := DumpFormat.DumpDebug(if strip then Bare(f) else f);
      WrittenThen(s1, t1, DumpProtos(f.p, f.source, strip), s2, t2, debug, sent, status);
      WrittenThen(old(sent), old(status), DumpHead(f, source), s1, t1, DumpProtos(f.p, f.source, strip) + debug, sent, status);
    }

    /** DumpConstants, its second part. */
    method Functions(fs: seq<Proto>, parent: Option<Str>)
      requires forall i :: 0 <= i < |fs| ==> AllFit(fs[i])
      modifies this
      ensures Written(old(sent), old(status), DumpProtos(fs, parent, strip), sent, status)
      decreases fs, 0
    {
      hide Written, DumpFunction, DumpProtos, AllFit;
      WrittenNothing(sent, status);
      NoProtos(parent, strip);
      var i := 0;
      while i < |fs|
        invariant 0 <= i <= |fs| && Written(old(sent), old(status), DumpProtos(fs[..i], parent, strip), sent, status)
      {
        ghost var s', st' := sent, status;
        Function(fs[i], parent);
        WrittenThen(old(sent), old(status), DumpProtos(fs[..i], parent, strip), s', st', DumpFunction(fs[i], parent, strip), sent, status);
        ProtosNext(fs, parent, strip, i);
        i := i + 1;
      }
      assert fs[..i] == fs;
    }
  }

  lemma FitsAlone(f: Proto)
    requires AllFit(f)
    ensures Fits(f) && StringFits(f.source) && StringFits(None) && Fits(Bare(f))
  {}

  lemma {:induction false} ConcatNext<T>(dump: T --> Str, xs: seq<T>, i: nat)
    requires i < |xs| && forall x :: x in xs ==> dump.requires(x)
    ensures Concat(dump, xs[..i + 1]) == Concat(dump, xs[..i]) + dump(xs[i])
  {
    if i == 0 {
      assert xs[..1][1..] == [];
    } else {
      ConcatNext(dump, xs[1..], i - 1);
      assert xs[..i + 1][1..] == xs[1..][..i] && xs[..i][1..] == xs[1..][..i - 1];
    }
  }

  lemma NoProtos(parent: Option<Str>, strip: bool)
    ensures DumpProtos([], parent, strip) == []
  {}

  lemma {:induction false} ProtosNext(fs: seq<Proto>, parent: Option<Str>, strip: bool, i: nat)
    requires i < |fs| && forall j :: 0 <= j < |fs| ==> AllFit(fs[j])
    ensures DumpProtos(fs[..i + 1], parent, strip) == DumpProtos(fs[..i], parent, strip) + DumpFunction(fs[i], parent, strip)
    decreases i
  {
    hide DumpFunction, AllFit;
    if i == 0 {
      assert fs[..1][1..] == [];
    } else {
      ProtosNext(fs[1..], parent, strip, i - 1);
      assert fs[..i + 1][1..] == fs[1..][..i] && fs[..i][1..] == fs[1..][..i - 1];
    }
  }

  /** luaU_dump. */
  method DumpTree(f: Proto, strip: bool, answers: seq<int>) returns (sent: Str, status: int)
    requires AllFit(f)
    ensures sent <= Dump(f, strip) && (status == 0 ==> sent == Dump(f, strip))
  {
    hide DumpFunction, AllFit;
    var d := new DumpState(strip, answers);
    d.Block(HEADER);
    ghost var s, st := d.sent, d.status;
    d.Function(f, None);
    WrittenThen([], 0, HEADER, s, st, DumpFunction(f, None, strip), d.sent, d.status);
    assert [] + Dump(f, strip) == Dump(f, strip);
    sent, status := d.sent, d.status;
  }

  function Flat(chunks: seq<Str>): Str { if chunks == [] then [] else chunks[0] + Flat(chunks[1..]) }

  lemma {:induction false} NoEarlyEnd(chunks: seq<Str>)
    requires [] !in chunks
    ensures Pending(chunks) == Flat(chunks)
  {
    if chunks != [] { NoEarlyEnd(chunks[1..]); }
  }

  /** A function is dumped, and what its writer was given comes back in chunks, split in any way: the
      function is loaded again if all was sent, and the input is rejected if the writer failed before
      the end. */
  method ThereAndBack(f: Proto, strip: bool, answers: seq<int>, split: Str -> seq<Str>, calls: nat)
    returns (o: Outcome<Proto>, sent: Str, status: int)
    requires Checked(f)
    requires forall s :: Flat(split(s)) == s && [] !in split(s)
    ensures status == 0 ==> sent == Dump(f, strip)
    ensures sent == Dump(f, strip) ==> o == if calls + Depth(f) <= MAXCCALLS then Got(Loaded(f, UNKNOWN, strip)) else Threw(TooDeep)
    ensures sent != Dump(f, strip) && calls + Depth(f) <= MAXCCALLS ==> sent < Dump(f, strip) && o == Threw(UnexpectedEnd)
  {
    hide Dump, Undump, Checked, AllFit, Loaded, Depth, Flat;
    sent, status := DumpTree(f, strip, answers);
    var chunks := split(sent);
    NoEarlyEnd(chunks);
    var z := new Zio(chunks);
    var s := new LoadState(z, calls);
    ghost var b := Dump(f, strip);
    RoundTrip(f, strip, calls, []);
    assert b + [] == b;
    if sent != b && calls + Depth(f) <= MAXCCALLS {
      assert sent == b[..|sent|];
      PrefixRejected(f, strip, calls, |sent|);
    }
    o := s.Load();
  }
}
