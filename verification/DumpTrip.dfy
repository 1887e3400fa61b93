/** Undump reads back what dump has written. */
module DumpTrip {
  import opened Wrappers
  import opened LuaProto
  import opened BcCheck
  import opened DumpFormat

  function Extend<T>(r: Result<T>, t: Str): Result<T> {
    match r case Ok(x, q) => Ok(x, q + t) case Err(e) => Err(e)
  }

  /** A loader that has not come to the end of its input does the same with more input. */
  ghost predicate Steady<T(!new)>(load: Loader<T>) {
    forall s, t :: load(s) != Err(UnexpectedEnd) ==> load(s + t) == Extend(load(s), t)
  }

  ghost predicate Trips<T(!new)>(load: Loader<T>, b: Str, x: T) {
    forall t :: load(b + t) == Ok(x, t)
  }

  lemma SteadyAt<T(!new)>(load: Loader<T>, s: Str, t: Str)
    requires Steady(load) && load(s) != Err(UnexpectedEnd)
    ensures load(s + t) == Extend(load(s), t)
  {}

  lemma SteadyThen<A(!new), B(!new)>(a: Loader<A>, b: Loader<B>)
    requires Steady(a) && Steady(b)
    ensures Steady(Then(a, b))
  {
    forall s, t | Then(a, b)(s) != Err(UnexpectedEnd) ensures Then(a, b)(s + t) == Extend(Then(a, b)(s), t) {
      assert a(s) != Err(UnexpectedEnd) && a(s + t) == Extend(a(s), t);
    }
  }

  lemma {:induction false} SteadyList<T(!new)>(load: Loader<T>, n: nat, s: Str, t: Str)
    requires Steady(load) && ListOf(load, n, s) != Err(UnexpectedEnd)
    ensures ListOf(load, n, s + t) == Extend(ListOf(load, n, s), t)
  {
    if n > 0 {
      assert load(s + t) == Extend(load(s), t);
      if load(s).Ok? { SteadyList(load, n - 1, load(s).rest, t); }
    }
  }

  lemma SteadyCounted<T(!new)>(load: Loader<T>)
    requires Steady(load)
    ensures Steady(Counted(load))
  {
    SteadyInt();
    forall s, t | Counted(load)(s) != Err(UnexpectedEnd) ensures Counted(load)(s + t) == Extend(Counted(load)(s), t) {
      assert LoadInt(s + t) == Extend(LoadInt(s), t);
      if LoadInt(s).Ok? { SteadyList(load, LoadInt(s).val, LoadInt(s).rest, t); }
    }
  }

  lemma SteadyBlock(n: nat, s: Str, t: Str)
    ensures LoadBlock(n, s) != Err(UnexpectedEnd) ==> LoadBlock(n, s + t) == Extend(LoadBlock(n, s), t)
  {
    if n <= |s| { assert (s + t)[..n] == s[..n] && (s + t)[n..] == s[n..] + t; }
  }

  lemma SteadyByte()
    ensures Steady(LoadByte)
  {
    hide LoadByte;
    forall s, t | LoadByte(s) != Err(UnexpectedEnd) ensures LoadByte(s + t) == Extend(LoadByte(s), t) { ByteMore(s, t); }
  }

  lemma ByteMore(s: Str, t: Str)
    requires LoadByte(s) != Err(UnexpectedEnd)
    ensures LoadByte(s + t) == Extend(LoadByte(s), t)
  {
    assert (s + t)[0] == s[0] && (s + t)[1..] == s[1..] + t;
  }

  lemma SteadyWord()
    ensures Steady(LoadWord)
  {
    forall s, t | LoadWord(s) != Err(UnexpectedEnd) ensures LoadWord(s + t) == Extend(LoadWord(s), t) { SteadyBlock(4, s, t); }
  }

  lemma SteadyInt()
    ensures Steady(LoadInt)
  {
    SteadyWord();
    forall s, t | LoadInt(s) != Err(UnexpectedEnd) ensures LoadInt(s + t) == Extend(LoadInt(s), t) {
      assert LoadWord(s + t) == Extend(LoadWord(s), t);
    }
  }

  lemma SteadyNumber()
    ensures Steady(LoadNumber)
  {
    SteadyWord();
    forall s, t | LoadNumber(s) != Err(UnexpectedEnd) ensures LoadNumber(s + t) == Extend(LoadNumber(s), t) {
      assert LoadWord(s + t) == Extend(LoadWord(s), t);
    }
  }

  lemma SteadyString()
    ensures Steady(LoadString)
  {
    SteadyWord();
    forall s, t | LoadString(s) != Err(UnexpectedEnd) ensures LoadString(s + t) == Extend(LoadString(s), t) {
      assert LoadWord(s + t) == Extend(LoadWord(s), t);
      if LoadWord(s).Ok? { SteadyBlock(LoadWord(s).val, LoadWord(s).rest, t); }
    }
  }

  lemma SteadyConstant()
    ensures Steady(LoadConstant)
  {
    SteadyByte();
    forall s, t | LoadConstant(s) != Err(UnexpectedEnd) ensures LoadConstant(s + t) == Extend(LoadConstant(s), t) {
      SteadyAt(LoadByte, s, t);
      if LoadByte(s).Ok? { SteadyPayload(LoadByte(s).val, LoadByte(s).rest, t); }
    }
  }

  /** What follows the type of a constant. */
  lemma SteadyPayload(tag: Byte, r: Str, t: Str)
    ensures tag == 1 && LoadByte(r) != Err(UnexpectedEnd) ==> LoadByte(r + t) == Extend(LoadByte(r), t)
    ensures tag == 3 && LoadNumber(r) != Err(UnexpectedEnd) ==> LoadNumber(r + t) == Extend(LoadNumber(r), t)
    ensures tag == 4 && LoadString(r) != Err(UnexpectedEnd) ==> LoadString(r + t) == Extend(LoadString(r), t)
  {
    hide LoadByte, LoadNumber, LoadString;
    if tag == 1 { SteadyByte(); } else if tag == 3 { SteadyNumber(); } else if tag == 4 { SteadyString(); }
  }

  lemma SteadyLocVar()
    ensures Steady(LoadLocVar)
  {
    SteadyString();
    SteadyInt();
    SteadyThen(LoadInt, LoadInt);
    SteadyThen(LoadString, Then(LoadInt, LoadInt));
    var load := Then(LoadString, Then(LoadInt, LoadInt));
    forall s, t | LoadLocVar(s) != Err(UnexpectedEnd) ensures LoadLocVar(s + t) == Extend(LoadLocVar(s), t) {
      assert load(s + t) == Extend(load(s), t);
    }
  }

  lemma SteadyHead()
    ensures Steady(LoadHead())
  {
    hide Steady, Then;
    SteadyString();
    SteadyInt();
    SteadyWord();
    SteadyByte();
    SteadyConstant();
    SteadyThen(LoadInt, LoadInt);
    SteadyThen(LoadByte, LoadByte);
    SteadyThen(Then(LoadByte, LoadByte), Then(LoadByte, LoadByte));
    SteadyCounted(LoadWord);
    SteadyCounted(LoadConstant);
    SteadyThen(Counted(LoadWord), Counted(LoadConstant));
    SteadyThen(Then(Counted(LoadWord), Counted(LoadConstant)), LoadInt);
    SteadyThen(LoadLimits(), Then(Then(Counted(LoadWord), Counted(LoadConstant)), LoadInt));
    SteadyThen(Then(LoadInt, LoadInt), Then(LoadLimits(), Then(Then(Counted(LoadWord), Counted(LoadConstant)), LoadInt)));
    SteadyThen(LoadString, Then(Then(LoadInt, LoadInt), Then(LoadLimits(), Then(Then(Counted(LoadWord), Counted(LoadConstant)), LoadInt))));
  }

  lemma SteadyDebug()
    ensures Steady(LoadDebug())
  {
    hide Steady, Then;
    SteadyNumber();
    SteadyLocVar();
    SteadyString();
    SteadyCounted(LoadNumber);
    SteadyCounted(LoadLocVar);
    SteadyCounted(LoadString);
    SteadyThen(Counted(LoadLocVar), Counted(LoadString));
    SteadyThen(Counted(LoadNumber), Then(Counted(LoadLocVar), Counted(LoadString)));
  }

  lemma {:induction false} SteadyFunction(parent: Option<Str>, calls: nat, s: Str, t: Str)
    requires LoadFunction(parent, calls, s) != Err(UnexpectedEnd)
    ensures LoadFunction(parent, calls, s + t) == Extend(LoadFunction(parent, calls, s), t)
    decreases MAXCCALLS - calls, 1, 0
  {
    hide Accepts, Assembled, Steady, LoadHead, LoadDebug, SourceOf, LoadProtos;
    if calls < MAXCCALLS {
      SteadyHead();
      SteadyDebug();
      SteadyAt(LoadHead(), s, t);
      if LoadHead()(s).Ok? {
        var h, r := LoadHead()(s).val, LoadHead()(s).rest;
        SteadyProtos(SourceOf(h, parent), calls + 1, h.1.1.1.1, r, t);
        var ps := LoadProtos(SourceOf(h, parent), calls + 1, h.1.1.1.1, r);
        if ps.Ok? { SteadyAt(LoadDebug(), ps.rest, t); }
      }
    }
  }

  lemma {:induction false} SteadyProtos(parent: Option<Str>, calls: nat, n: nat, s: Str, t: Str)
    requires LoadProtos(parent, calls, n, s) != Err(UnexpectedEnd)
    ensures LoadProtos(parent, calls, n, s + t) == Extend(LoadProtos(parent, calls, n, s), t)
    decreases MAXCCALLS - calls, 2, n
  {
    hide LoadFunction;
    if n > 0 {
      SteadyFunction(parent, calls, s, t);
      var f := LoadFunction(parent, calls, s);
      if f.Ok? { SteadyProtos(parent, calls, n - 1, f.rest, t); }
    }
  }

  lemma TripsThen<A(!new), B(!new)>(a: Loader<A>, b: Loader<B>, u: Str, v: Str, x: A, y: B)
    requires Trips(a, u, x) && Trips(b, v, y)
    ensures Trips(Then(a, b), u + v, (x, y))
  {
    forall t ensures Then(a, b)(u + v + t) == Ok((x, y), t) {
      assert u + v + t == u + (v + t);
      assert a(u + (v + t)) == Ok(x, v + t);
    }
  }

  lemma {:induction false} TripsList<T(!new)>(load: Loader<T>, dump: T --> Str, xs: seq<T>, t: Str)
    requires forall x :: x in xs ==> dump.requires(x) && Trips(load, dump(x), x)
    ensures ListOf(load, |xs|, Concat(dump, xs) + t) == Ok(xs, t)
  {
    if xs != [] {
      var rest := Concat(dump, xs[1..]);
      assert xs[0] in xs;
      assert dump(xs[0]) + rest + t == dump(xs[0]) + (rest + t);
      assert load(dump(xs[0]) + (rest + t)) == Ok(xs[0], rest + t);
      TripsList(load, dump, xs[1..], t);
      assert [xs[0]] + xs[1..] == xs;
    }
  }

  lemma TripsCounted<T(!new)>(load: Loader<T>, dump: T --> Str, xs: seq<T>)
    requires NatFits(|xs|) && forall x :: x in xs ==> dump.requires(x) && Trips(load, dump(x), x)
    ensures Trips(Counted(load), DumpList(dump, xs), xs)
  {
    TripsInt(|xs|);
    forall t ensures Counted(load)(DumpList(dump, xs) + t) == Ok(xs, t) {
      assert DumpList(dump, xs) + t == DumpInt(|xs|) + (Concat(dump, xs) + t);
      TripsList(load, dump, xs, t);
    }
  }

  lemma TripsByte(b: Byte)
    ensures Trips(LoadByte, [b], b)
  {
    forall t ensures LoadByte([b] + t) == Ok(b, t) { assert ([b] + t)[1..] == t; }
  }

  lemma BytesWord(w: Word)
    ensures WordOf(Bytes(w)) == w
  {
    var a, b := w / 0x100, w / 0x1_0000;
    assert a / 0x100 == b && b / 0x100 == w / 0x100_0000 < 0x100;
  }

  lemma TripsWord(w: Word)
    ensures Trips(LoadWord, Bytes(w), w)
  {
    hide Bytes, WordOf;
    BytesWord(w);
    forall t ensures LoadWord(Bytes(w) + t) == Ok(w, t) {
      assert (Bytes(w) + t)[..4] == Bytes(w) && (Bytes(w) + t)[4..] == t;
    }
  }

  lemma TripsNumber(n: int)
    requires IsInt(n)
    ensures Trips(LoadNumber, DumpInt(n), n)
  {
    TripsWord(ToWord(n));
  }

  lemma TripsInt(n: nat)
    requires NatFits(n)
    ensures Trips(LoadInt, DumpInt(n), n)
  {
    TripsWord(n);
  }

  lemma TripsString(s: Option<Str>)
    requires StringFits(s)
    ensures Trips(LoadString, DumpString(s), s)
  {
    if s.None? {
      TripsWord(0);
    } else {
      hide LoadWord;
      TripsWord(|s.val| + 1);
      forall t ensures LoadString(DumpString(s) + t) == Ok(s, t) {
        var b := s.val + [0];
        assert DumpString(s) + t == Bytes(|s.val| + 1) + (b + t);
        assert (b + t)[..|b|] == b && (b + t)[|b|..] == t && b[..|b| - 1] == s.val;
      }
    }
  }

  lemma TripsConstant(c: Constant)
    requires ConstantFits(c)
    ensures Trips(LoadConstant, DumpConstant(c), c)
  {
    hide LoadNumber, LoadString, DumpInt, DumpString;
    match c
    case CNil => TripsByte(0);
    case CBoolean(b) =>
      forall t ensures LoadConstant(DumpConstant(c) + t) == Ok(c, t) { assert DumpConstant(c) + t == [1] + ([if b then 1 else 0] + t); }
    case CNumber(n) =>
      TripsNumber(n);
      forall t ensures LoadConstant(DumpConstant(c) + t) == Ok(c, t) { assert DumpConstant(c) + t == [3] + (DumpInt(n) + t); }
    case CString(s) =>
      TripsString(s);
      forall t ensures LoadConstant(DumpConstant(c) + t) == Ok(c, t) { assert DumpConstant(c) + t == [4] + (DumpString(s) + t); }
  }

  lemma TripsLocVar(v: LocVar)
    requires LocVarFits(v)
    ensures Trips(LoadLocVar, DumpLocVar(v), v)
  {
    hide LoadString, LoadInt, DumpInt, DumpString, Then;
    TripsString(v.varname);
    TripsInt(v.startpc);
    TripsInt(v.endpc);
    TripsThen(LoadInt, LoadInt, DumpInt(v.startpc), DumpInt(v.endpc), v.startpc, v.endpc);
    TripsThen(LoadString, Then(LoadInt, LoadInt), DumpString(v.varname), DumpInt(v.startpc) + DumpInt(v.endpc), v.varname, (v.startpc, v.endpc));
  }

  function HeadOf(f: Proto, source: Option<Str>): Head
    requires Fits(f)
  {
    (source, ((f.linedefined, f.lastlinedefined), (((f.nups, f.numparams), (f.isVararg, f.maxstacksize)), ((f.code, f.k), |f.p|))))
  }

  lemma TripsHead(f: Proto, source: Option<Str>)
    requires Fits(f) && StringFits(source)
    ensures Trips(LoadHead(), DumpHead(f, source), HeadOf(f, source))
  {
    hide LoadString, LoadInt, LoadWord, LoadConstant, LoadByte, DumpInt, DumpString, Then, Counted, Bytes, DumpConstant, Trips, DumpList;
    TripsString(source);
    TripsInt(f.linedefined);
    TripsInt(f.lastlinedefined);
    TripsThen(LoadInt, LoadInt, DumpInt(f.linedefined), DumpInt(f.lastlinedefined), f.linedefined, f.lastlinedefined);
    TripsLimits(f);
    TripsCode(f);
    var limits := [f.nups] + [f.numparams] + ([f.isVararg] + [f.maxstacksize]);
    var rest := DumpList(Bytes, f.code) + DumpList(DumpConstant, f.k) + DumpInt(|f.p|);
    var load := Then(Then(Counted(LoadWord), Counted(LoadConstant)), LoadInt);
    TripsThen(LoadLimits(), load, limits, rest, ((f.nups, f.numparams), (f.isVararg, f.maxstacksize)), ((f.code, f.k), |f.p|));
    TripsThen(Then(LoadInt, LoadInt), Then(LoadLimits(), load), DumpInt(f.linedefined) + DumpInt(f.lastlinedefined), limits + rest,
      (f.linedefined, f.lastlinedefined), HeadOf(f, source).1.1);
    TripsThen(LoadString, Then(Then(LoadInt, LoadInt), Then(LoadLimits(), load)), DumpString(source),
      DumpInt(f.linedefined) + DumpInt(f.lastlinedefined) + (limits + rest), source, HeadOf(f, source).1);
  }

  lemma TripsLimits(f: Proto)
    ensures Trips(LoadLimits(), [f.nups] + [f.numparams] + ([f.isVararg] + [f.maxstacksize]), ((f.nups, f.numparams), (f.isVararg, f.maxstacksize)))
  {
    hide LoadByte, Then, Trips;
    TripsByte(f.nups);
    TripsByte(f.numparams);
    TripsByte(f.isVararg);
    TripsByte(f.maxstacksize);
    TripsThen(LoadByte, LoadByte, [f.nups], [f.numparams], f.nups, f.numparams);
    TripsThen(LoadByte, LoadByte, [f.isVararg], [f.maxstacksize], f.isVararg, f.maxstacksize);
    TripsThen(Then(LoadByte, LoadByte), Then(LoadByte, LoadByte), [f.nups] + [f.numparams], [f.isVararg] + [f.maxstacksize],
      (f.nups, f.numparams), (f.isVararg, f.maxstacksize));
  }

  lemma TripsCode(f: Proto)
    requires Fits(f)
    ensures Trips(Then(Then(Counted(LoadWord), Counted(LoadConstant)), LoadInt),
      DumpList(Bytes, f.code) + DumpList(DumpConstant, f.k) + DumpInt(|f.p|), ((f.code, f.k), |f.p|))
  {
    hide LoadWord, LoadConstant, LoadInt, Bytes, DumpConstant, DumpInt, Then, Counted, Trips, DumpList;
    forall w: Word | w in f.code ensures Trips(LoadWord, Bytes(w), w) { TripsWord(w); }
    forall c | c in f.k ensures Trips(LoadConstant, DumpConstant(c), c) { TripsConstant(c); }
    TripsCounted(LoadWord, Bytes, f.code);
    TripsCounted(LoadConstant, DumpConstant, f.k);
    TripsInt(|f.p|);
    TripsThen(Counted(LoadWord), Counted(LoadConstant), DumpList(Bytes, f.code), DumpList(DumpConstant, f.k), f.code, f.k);
    TripsThen(Then(Counted(LoadWord), Counted(LoadConstant)), LoadInt, DumpList(Bytes, f.code) + DumpList(DumpConstant, f.k), DumpInt(|f.p|),
      (f.code, f.k), |f.p|);
  }

  lemma TripsDebug(f: Proto)
    requires Fits(f)
    ensures Trips(LoadDebug(), DumpDebug(f), (f.lineinfo, (f.locvars, f.upvalues)))
  {
    hide LoadNumber, LoadLocVar, LoadString, DumpInt, DumpLocVar, DumpString, Then, Counted, Trips, DumpList;
    forall x | x in f.lineinfo ensures Trips(LoadNumber, DumpInt(x), x) { TripsNumber(x); }
    forall v | v in f.locvars ensures Trips(LoadLocVar, DumpLocVar(v), v) { TripsLocVar(v); }
    forall u | u in f.upvalues ensures Trips(LoadString, DumpString(u), u) { TripsString(u); }
    TripsCounted(LoadNumber, DumpInt, f.lineinfo);
    TripsCounted(LoadLocVar, DumpLocVar, f.locvars);
    TripsCounted(LoadString, DumpString, f.upvalues);
    TripsThen(Counted(LoadLocVar), Counted(LoadString), DumpList(DumpLocVar, f.locvars), DumpList(DumpString, f.upvalues), f.locvars, f.upvalues);
    TripsThen(Counted(LoadNumber), Then(Counted(LoadLocVar), Counted(LoadString)), DumpList(DumpInt, f.lineinfo),
      DumpList(DumpLocVar, f.locvars) + DumpList(DumpString, f.upvalues), f.lineinfo, (f.locvars, f.upvalues));
  }
}
