/** The format of precompiled chunks: what ldump.c writes and how lundump.c reads it, on the 32-bit
    little-endian target with integer numbers. */
module DumpFormat {
  import opened Wrappers
  import opened LuaProto
  import opened BcCheck

  datatype LoadError = UnexpectedEnd | BadInteger | BadConstant | TooDeep | BadCode | BadHeader

  datatype Result<T> = Ok(val: T, rest: Str) | Err(error: LoadError)

  type Loader<T> = Str -> Result<T>

  const MAXCCALLS := 200

  function Bytes(w: Word): (b: Str)
    ensures |b| == 4
  { [w % 0x100, w / 0x100 % 0x100, w / 0x1_0000 % 0x100, w / 0x100_0000] }

  function WordOf(b: Str): Word
    requires |b| == 4
  { b[0] as int + b[1] as int * 0x100 + b[2] as int * 0x1_0000 + b[3] as int * 0x100_0000 }

  predicate IsInt(x: int) { -0x8000_0000 <= x < 0x8000_0000 }

  // Two's complement.
  function ToWord(x: int): Word
    requires IsInt(x)
  { if x < 0 then x + 0x1_0000_0000 else x }

  function ToInt(w: Word): (x: int)
    ensures IsInt(x)
  { if w >= 0x8000_0000 then w - 0x1_0000_0000 else w }

  // Combinators: one loader after the other, a list of `n`, and a conversion of what was loaded.
  function Then<A, B>(a: Loader<A>, b: Loader<B>): Loader<(A, B)> {
    s => match a(s)
      case Err(e) => Err(e)
      case Ok(x, r) => match b(r)
        case Err(e) => Err(e)
        case Ok(y, q) => Ok((x, y), q)
  }

  function ListOf<T>(load: Loader<T>, n: nat, s: Str): Result<seq<T>> {
    if n == 0 then Ok([], s) else
    match load(s)
    case Err(e) => Err(e)
    case Ok(x, r) => match ListOf(load, n - 1, r)
      case Err(e) => Err(e)
      case Ok(xs, q) => Ok([x] + xs, q)
  }

  /** A count, then as many elements. */
  function Counted<T>(load: Loader<T>): Loader<seq<T>> {
    s => match LoadInt(s)
      case Err(e) => Err(e)
      case Ok(n, r) => ListOf(load, n, r)
  }

  function LoadBlock(n: nat, s: Str): (r: Result<Str>)
    ensures r.Ok? ==> |r.val| == n
  {
    if n <= |s| then Ok(s[..n], s[n..]) else Err(UnexpectedEnd)
  }

  function LoadByte(s: Str): Result<Byte> {
    if s == [] then Err(UnexpectedEnd) else Ok(s[0], s[1..])
  }

  function LoadWord(s: Str): Result<Word> {
    match LoadBlock(4, s)
    case Err(e) => Err(e)
    case Ok(b, r) => Ok(WordOf(b), r)
  }

  function LoadInt(s: Str): Result<nat> {
    match LoadWord(s)
    case Err(e) => Err(e)
    case Ok(w, r) => if ToInt(w) < 0 then Err(BadInteger) else Ok(ToInt(w), r)
  }

  /** A number, or a line number: there is no check of its sign. */
  function LoadNumber(s: Str): Result<int> {
    match LoadWord(s)
    case Err(e) => Err(e)
    case Ok(w, r) => Ok(ToInt(w), r)
  }

  function LoadString(s: Str): Result<Option<Str>> {
    match LoadWord(s)
    case Err(e) => Err(e)
    case Ok(size, r) => if size == 0 then Ok(None, r) else
      match LoadBlock(size, r)
      case Err(e) => Err(e)
      case Ok(b, q) => Ok(Some(b[..size - 1]), q)
  }

  function LoadConstant(s: Str): Result<Constant> {
    match LoadByte(s)
    case Err(e) => Err(e)
    case Ok(t, r) =>
      if t == 0 then Ok(CNil, r)
      else if t == 1 then (match LoadByte(r) case Err(e) => Err(e) case Ok(b, q) => Ok(CBoolean(b != 0), q))
      else if t == 3 then (match LoadNumber(r) case Err(e) => Err(e) case Ok(n, q) => Ok(CNumber(n), q))
      else if t == 4 then (match LoadString(r) case Err(e) => Err(e) case Ok(x, q) => Ok(CString(x), q))
      else Err(BadConstant)
  }

  function LoadLocVar(s: Str): Result<LocVar> {
    match Then(LoadString, Then(LoadInt, LoadInt))(s)
    case Err(e) => Err(e)
    case Ok(x, r) => Ok(LocVar(x.0, x.1.0, x.1.1), r)
  }

  /** All up to the nested functions; the last part is their number. */
  type Head = (Option<Str>, ((nat, nat), (((Byte, Byte), (Byte, Byte)), ((seq<Word>, seq<Constant>), nat))))

  function LoadHead(): Loader<Head> {
    Then(LoadString, Then(Then(LoadInt, LoadInt), Then(LoadLimits(), Then(Then(Counted(LoadWord), Counted(LoadConstant)), LoadInt))))
  }

  function LoadLimits(): Loader<((Byte, Byte), (Byte, Byte))> { Then(Then(LoadByte, LoadByte), Then(LoadByte, LoadByte)) }

  type Debug = (seq<int>, (seq<LocVar>, seq<Option<Str>>))

  function LoadDebug(): Loader<Debug> { Then(Counted(LoadNumber), Then(Counted(LoadLocVar), Counted(LoadString))) }

  function Assembled(h: Head, parent: Option<Str>, p: seq<Proto>, d: Debug): Proto {
    Proto(SourceOf(h, parent), h.1.0.0, h.1.0.1, h.1.1.0.0.0, h.1.1.0.0.1, h.1.1.0.1.0, h.1.1.0.1.1,
          h.1.1.1.0.0, h.1.1.1.0.1, p, d.0, d.1.0, d.1.1)
  }

  function SourceOf(h: Head, parent: Option<Str>): Option<Str> { if h.0.None? then parent else h.0 }

  /** LoadFunction, `calls` C calls deep. */
  function LoadFunction(parent: Option<Str>, calls: nat, s: Str): Result<Proto>
    decreases MAXCCALLS - calls, 1, 0
  {
    if calls >= MAXCCALLS then Err(TooDeep) else
    match LoadHead()(s)
    case Err(e) => Err(e)
    case Ok(h, r) => Finished(h, parent, LoadProtos(SourceOf(h, parent), calls + 1, h.1.1.1.1, r))
  }

  /** The rest of LoadFunction, after the nested functions. */
  function Finished(h: Head, parent: Option<Str>, ps: Result<seq<Proto>>): Result<Proto> {
    match ps
    case Err(e) => Err(e)
    case Ok(p, q) => match LoadDebug()(q)
      case Err(e) => Err(e)
      case Ok(d, t) => if Accepts(Assembled(h, parent, p, d)) then Ok(Assembled(h, parent, p, d), t) else Err(BadCode)
  }

  function LoadProtos(parent: Option<Str>, calls: nat, n: nat, s: Str): Result<seq<Proto>>
    decreases MAXCCALLS - calls, 2, n
  {
    if n == 0 then Ok([], s) else
    match LoadFunction(parent, calls, s)
    case Err(e) => Err(e)
    case Ok(f, r) => match LoadProtos(parent, calls, n - 1, r)
      case Err(e) => Err(e)
      case Ok(fs, q) => Ok([f] + fs, q)
  }

  const HEADER: Str := [0x1B, 0x4C, 0x75, 0x61, 0x51, 0, 1, 4, 4, 4, 4, 1]

  /** The source of a function that has none: "=?". */
  const UNKNOWN: Option<Str> := Some([0x3D, 0x3F])

  /** luaU_undump. */
  function Undump(calls: nat, s: Str): Result<Proto> {
    match LoadBlock(|HEADER|, s)
    case Err(e) => Err(e)
    case Ok(h, r) => if h != HEADER then Err(BadHeader) else LoadFunction(UNKNOWN, calls, r)
  }

  // What ldump.c writes.
  predicate StringFits(s: Option<Str>) { s.Some? ==> |s.val| < 0xFFFF_FFFF }

  function DumpString(s: Option<Str>): Str
    requires StringFits(s)
  { if s.None? then Bytes(0) else Bytes(|s.val| + 1) + s.val + [0] }

  function DumpInt(x: int): Str
    requires IsInt(x)
  { Bytes(ToWord(x)) }

  predicate NatFits(n: int) { 0 <= n < 0x8000_0000 }

  predicate ConstantFits(c: Constant) {
    match c
    case CNumber(n) => IsInt(n)
    case CString(s) => s.Some? && StringFits(s)
    case _ => true
  }

  predicate LocVarFits(v: LocVar) { StringFits(v.varname) && NatFits(v.startpc) && NatFits(v.endpc) }

  function DumpConstant(c: Constant): Str
    requires ConstantFits(c)
  {
    match c
    case CNil => [0]
    case CBoolean(b) => [1, if b then 1 else 0]
    case CNumber(n) => [3] + DumpInt(n)
    case CString(s) => [4] + DumpString(s)
  }

  function DumpLocVar(v: LocVar): Str
    requires LocVarFits(v)
  { DumpString(v.varname) + (DumpInt(v.startpc) + DumpInt(v.endpc)) }

  function Concat<T>(dump: T --> Str, xs: seq<T>): Str
    requires forall x :: x in xs ==> dump.requires(x)
  {
    if xs == [] then [] else dump(xs[0]) + Concat(dump, xs[1..])
  }

  function DumpList<T>(dump: T --> Str, xs: seq<T>): Str
    requires (forall x :: x in xs ==> dump.requires(x)) && NatFits(|xs|)
  { DumpInt(|xs|) + Concat(dump, xs) }

  /** What an int, a size_t and a string can hold, in this function alone. */
  predicate Fits(f: Proto) {
    && StringFits(f.source) && NatFits(f.linedefined) && NatFits(f.lastlinedefined)
    && NatFits(|f.code|) && NatFits(|f.k|) && NatFits(|f.p|) && NatFits(|f.lineinfo|) && NatFits(|f.locvars|) && NatFits(|f.upvalues|)
    && (forall c :: c in f.k ==> ConstantFits(c)) && (forall x :: x in f.lineinfo ==> IsInt(x))
    && (forall v :: v in f.locvars ==> LocVarFits(v)) && (forall u :: u in f.upvalues ==> StringFits(u))
  }

  predicate AllFit(f: Proto) { Fits(f) && forall i :: 0 <= i < |f.p| ==> AllFit(f.p[i]) }

  function DumpHead(f: Proto, source: Option<Str>): Str
    requires Fits(f) && StringFits(source)
  {
    DumpString(source) + ((DumpInt(f.linedefined) + DumpInt(f.lastlinedefined)) +
    ((([f.nups] + [f.numparams]) + ([f.isVararg] + [f.maxstacksize])) +
    ((DumpList(Bytes, f.code) + DumpList(DumpConstant, f.k)) + DumpInt(|f.p|))))
  }

  function DumpDebug(f: Proto): Str
    requires Fits(f)
  { DumpList(DumpInt, f.lineinfo) + (DumpList(DumpLocVar, f.locvars) + DumpList(DumpString, f.upvalues)) }

  /** The function without what only debugging needs. */
  function Bare(f: Proto): (g: Proto)
    ensures Fits(f) ==> Fits(g)
  { f.(lineinfo := [], locvars := [], upvalues := []) }

  function DumpFunction(f: Proto, parent: Option<Str>, strip: bool): Str
    requires AllFit(f)
  {
    DumpHead(f, if f.source == parent || strip then None else f.source) +
    (DumpProtos(f.p, f.source, strip) + DumpDebug(if strip then Bare(f) else f))
  }

  function DumpProtos(fs: seq<Proto>, parent: Option<Str>, strip: bool): Str
    requires forall i :: 0 <= i < |fs| ==> AllFit(fs[i])
  {
    if fs == [] then [] else DumpFunction(fs[0], parent, strip) + DumpProtos(fs[1..], parent, strip)
  }

  /** luaU_dump. */
  function Dump(f: Proto, strip: bool): Str
    requires AllFit(f)
  { HEADER + DumpFunction(f, None, strip) }
}
