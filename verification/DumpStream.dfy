/** Chunked input (lzio.c) and the loader that reads it (lundump.c). */
module DumpStream {
  import opened Wrappers
  import opened LuaProto
  import opened BcCheck
  import opened BcSymb
  import opened DumpFormat

  const EOZ := -1

  /** What the reader function still has to give; an empty chunk is the end. */
  ghost function Pending(chunks: seq<Str>): Str {
    if chunks == [] || chunks[0] == [] then [] else chunks[0] + Pending(chunks[1..])
  }

  lemma FirstByte(chunk: Str, p: nat, chunks: seq<Str>)
    requires p == |chunk|
    ensures if chunks == [] || chunks[0] == [] then chunk[p..] + Pending(chunks) == []
      else chunk[p..] + Pending(chunks) == [chunks[0][0]] + (chunks[0][1..] + Pending(chunks[1..]))
  {}

  /** `m` bytes of the chunk are copied. */
  lemma Moved(b: Str, chunk: Str, p: nat, m: nat, more: Str)
    requires p + m <= |chunk|
    ensures b + (chunk[p..] + more) == b + chunk[p..p + m] + (chunk[p + m..] + more)
  {
    assert chunk[p..] == chunk[p..p + m] + chunk[p + m..];
  }

  class Zio {
    var n: nat            // bytes still unread in the chunk
    var p: nat            // where they begin
    var chunk: Str
    var chunks: seq<Str>  // the answers of the reader

    ghost predicate Valid()
      reads this
    { p + n == |chunk| }

    ghost function Rest(): Str
      reads this
      requires Valid()
    { chunk[p..] + Pending(chunks) }

    /** luaZ_init. */
    constructor (chunks: seq<Str>)
      ensures Valid() && Rest() == Pending(chunks)
    {
      n, p, chunk, this.chunks := 0, 0, [], chunks;
    }

    /** luaZ_fill: a new chunk, and its first byte. */
    method Fill() returns (c: int)
      requires Valid() && n == 0
      modifies this
      ensures Valid()
      ensures c == EOZ ==> old(Rest()) == []
      ensures c != EOZ ==> p == 1 && c == chunk[0] && [chunk[0]] + Rest() == old(Rest())
    {
      hide Pending;
      FirstByte(chunk, p, chunks);
      if chunks == [] || chunks[0] == [] {
        chunks := if chunks == [] then [] else chunks[1..];
        return EOZ;
      }
      chunk, chunks := chunks[0], chunks[1..];
      n, p := |chunk| - 1, 1;
      c := chunk[0];
    }

    /** zgetc: the next byte, which is read. */
    method Getc() returns (c: int)
      requires Valid()
      modifies this
      ensures Valid() && (if c == EOZ then old(Rest()) == [] else 0 <= c < 256 && [c] + Rest() == old(Rest()))
    {
      if n > 0 {
        assert chunk[p..] == [chunk[p]] + chunk[p + 1..];
        c := chunk[p];
        n, p := n - 1, p + 1;
      } else {
        c := Fill();
      }
    }

    /** luaZ_lookahead: the next byte, still unread. */
    method Lookahead() returns (c: int)
      requires Valid()
      modifies this
      ensures Valid() && (if c == EOZ then old(Rest()) == [] else n > 0 && Rest() == old(Rest()) && c == Rest()[0])
    {
      if n == 0 {
        c := Fill();
        if c == EOZ { return EOZ; }
        n, p := n + 1, p - 1;
        assert chunk[0..] == [chunk[0]] + chunk[1..];
      }
      c := chunk[p];
    }

    /** The next `m` bytes of the chunk. */
    method Take(m: nat) returns (b: Str)
      requires Valid() && m <= n
      modifies this
      ensures Valid() && |b| == m && b + Rest() == old(Rest())
    {
      b := chunk[p..p + m];
      Moved([], chunk, p, m, Pending(chunks));
      assert [] + b == b && [] + old(Rest()) == old(Rest());
      n, p := n - m, p + m;
    }

    /** luaZ_read: `size` bytes, and how many of them are missing. */
    method Read(size: nat) returns (b: Str, missing: nat)
      requires Valid()
      modifies this
      ensures Valid() && missing == if size <= |old(Rest())| then 0 else size - |old(Rest())|
      ensures b == old(Rest())[..size - missing] && (missing == 0 ==> Rest() == old(Rest())[size..])
    {
      hide Rest, Valid;
      ghost var all, rest := Rest(), Rest();
      b, missing := [], size;
      while missing > 0
        invariant Valid() && |b| + missing == size && rest == Rest() && all == b + rest
      {
        var c := Lookahead();
        if c == EOZ {
          assert all == b;
          return;
        }
        var more := Take(if missing <= n then missing else n);
        assert b + (more + Rest()) == b + more + Rest();
        b, missing, rest := b + more, missing - |more|, Rest();
      }
    }
  }

  /** A loaded value, or the error that was thrown. */
  datatype Outcome<T> = Got(val: T) | Threw(error: LoadError) {
    predicate IsFailure() { Threw? }

    function PropagateFailure<U>(): Outcome<U>
      requires Threw?
    { Threw(error) }

    function Extract(): T
      requires Got?
    { val }
  }

  /** What a method has loaded is what the format says, and so is what is left to read. */
  ghost predicate Follows<T>(r: Result<T>, o: Outcome<T>, rest: Str) {
    match r
    case Ok(x, q) => o == Got(x) && rest == q
    case Err(e) => o == Threw(e)
  }

  class LoadState {
    const z: Zio
    var nCcalls: nat

    constructor (z: Zio, calls: nat)
      ensures this.z == z && nCcalls == calls
    {
      this.z, nCcalls := z, calls;
    }

    method Block(size: nat) returns (o: Outcome<Str>)
      requires z.Valid()
      modifies z
      ensures z.Valid() && Follows(LoadBlock(size, old(z.Rest())), o, z.Rest())
    {
      var b, r := z.Read(size);
      o := if r != 0 then Threw(UnexpectedEnd) else Got(b);
    }

    method Char() returns (o: Outcome<Byte>)
      requires z.Valid()
      modifies z
      ensures z.Valid() && Follows(LoadByte(old(z.Rest())), o, z.Rest())
    {
      var b :- Block(1);
      o := Got(b[0]);
    }

    method Variable() returns (o: Outcome<Word>)
      requires z.Valid()
      modifies z
      ensures z.Valid() && Follows(LoadWord(old(z.Rest())), o, z.Rest())
    {
      hide WordOf;
      var b :- Block(4);
      o := Got(WordOf(b));
    }

    method Int() returns (o: Outcome<nat>)
      requires z.Valid()
      modifies z
      ensures z.Valid() && Follows(LoadInt(old(z.Rest())), o, z.Rest())
    {
      hide LoadWord;
      var w :- Variable();
      var x := ToInt(w);
      if x < 0 { return Threw(BadInteger); }
      o := Got(x);
    }

    method Number() returns (o: Outcome<int>)
      requires z.Valid()
      modifies z
      ensures z.Valid() && Follows(LoadNumber(old(z.Rest())), o, z.Rest())
    {
      hide LoadWord;
      var w :- Variable();
      o := Got(ToInt(w));
    }

    method String() returns (o: Outcome<Option<Str>>)
      requires z.Valid()
      modifies z
      ensures z.Valid() && Follows(LoadString(old(z.Rest())), o, z.Rest())
    {
      hide LoadWord;
      var size :- Variable();
      if size == 0 { return Got(None); }
      var s :- Block(size);
      o := Got(Some(s[..size - 1]));
    }

    /** LoadCode; the format says word by word what this reads at once. */
    method Code() returns (o: Outcome<seq<Word>>)
      requires z.Valid()
      modifies z
      ensures z.Valid() && Follows(Counted(LoadWord)(old(z.Rest())), o, z.Rest())
    {
      hide LoadInt, LoadWord, LoadBlock, Converted;
      var n :- Int();
      ghost var s := z.Rest();
      VectorAtOnce(LoadWord, w => w, n, s);
      var b := Block(n * 4);
      if b.Threw? { return Threw(b.error); }
      o := Got(Converted(w => w, b.val));
    }

    method Lines() returns (o: Outcome<seq<int>>)
      requires z.Valid()
      modifies z
      ensures z.Valid() && Follows(Counted(LoadNumber)(old(z.Rest())), o, z.Rest())
    {
      hide LoadInt, LoadBlock, Converted;
      var n :- Int();
      ghost var s := z.Rest();
      VectorAtOnce(LoadNumber, ToInt, n, s);
      var b := Block(n * 4);
      if b.Threw? { return Threw(b.error); }
      o := Got(Converted(ToInt, b.val));
    }

    method Constants() returns (o: Outcome<seq<Constant>>)
      requires z.Valid()
      modifies z
      ensures z.Valid() && Follows(Counted(LoadConstant)(old(z.Rest())), o, z.Rest())
    {
      hide LoadInt, LoadConstant, ListOf;
      var n :- Int();
      var k: seq<Constant> := [];
      ghost var all := ListOf(LoadConstant, n, z.Rest());
      ListStart(LoadConstant, n, z.Rest());
      while |k| < n
        invariant z.Valid() && |k| <= n && all == Prepend(k, ListOf(LoadConstant, n - |k|, z.Rest()))
        decreases n - |k|
      {
        ListStep(LoadConstant, k, n - |k|, z.Rest());
        var c := OneConstant();
        if c.Threw? { return Threw(c.error); }
        k := k + [c.val];
      }
      ListEnd(LoadConstant, k, z.Rest());
      o := Got(k);
    }

    method LocVars() returns (o: Outcome<seq<LocVar>>)
      requires z.Valid()
      modifies z
      ensures z.Valid() && Follows(Counted(LoadLocVar)(old(z.Rest())), o, z.Rest())
    {
      hide LoadInt, LoadLocVar, ListOf;
      var n :- Int();
      var vars: seq<LocVar> := [];
      ghost var all := ListOf(LoadLocVar, n, z.Rest());
      ListStart(LoadLocVar, n, z.Rest());
      while |vars| < n
        invariant z.Valid() && |vars| <= n && all == Prepend(vars, ListOf(LoadLocVar, n - |vars|, z.Rest()))
        decreases n - |vars|
      {
        ListStep(LoadLocVar, vars, n - |vars|, z.Rest());
        var v := OneLocVar();
        if v.Threw? { return Threw(v.error); }
        vars := vars + [v.val];
      }
      ListEnd(LoadLocVar, vars, z.Rest());
      o := Got(vars);
    }

    method OneLocVar() returns (o: Outcome<LocVar>)
      requires z.Valid()
      modifies z
      ensures z.Valid() && Follows(LoadLocVar(old(z.Rest())), o, z.Rest())
    {
      hide LoadInt, LoadString;
      var name :- String();
      var start :- Int();
      var end :- Int();
      o := Got(LocVar(name, start, end));
    }

    method Upvalues() returns (o: Outcome<seq<Option<Str>>>)
      requires z.Valid()
      modifies z
      ensures z.Valid() && Follows(Counted(LoadString)(old(z.Rest())), o, z.Rest())
    {
      hide LoadInt, LoadString, ListOf;
      var n :- Int();
      var names: seq<Option<Str>> := [];
      ghost var all := ListOf(LoadString, n, z.Rest());
      ListStart(LoadString, n, z.Rest());
      while |names| < n
        invariant z.Valid() && |names| <= n && all == Prepend(names, ListOf(LoadString, n - |names|, z.Rest()))
        decreases n - |names|
      {
        ListStep(LoadString, names, n - |names|, z.Rest());
        var s := String();
        if s.Threw? { return Threw(s.error); }
        names := names + [s.val];
      }
      ListEnd(LoadString, names, z.Rest());
      o := Got(names);
    }

    method OneConstant() returns (o: Outcome<Constant>)
      requires z.Valid()
      modifies z
      ensures z.Valid() && Follows(LoadConstant(old(z.Rest())), o, z.Rest())
    {
      hide LoadByte, LoadNumber, LoadString;
      var t :- Char();
      if t == 0 { return Got(CNil); }
      if t == 1 {
        var b :- Char();
        return Got(CBoolean(b != 0));
      }
      if t == 3 {
        var x :- Number();
        return Got(CNumber(x));
      }
      if t == 4 {
        var s :- String();
        return Got(CString(s));
      }
      o := Threw(BadConstant);
    }

    method Limits() returns (o: Outcome<((Byte, Byte), (Byte, Byte))>)
      requires z.Valid()
      modifies z
      ensures z.Valid() && Follows(LoadLimits()(old(z.Rest())), o, z.Rest())
    {
      hide LoadByte;
      var nups :- Char();
      var numparams :- Char();
      var isVararg :- Char();
      var maxstacksize :- Char();
      o := Got(((nups, numparams), (isVararg, maxstacksize)));
    }

    /** LoadFunction, up to the nested functions. */
    method FunctionHead() returns (o: Outcome<Head>)
      requires z.Valid()
      modifies z
      ensures z.Valid() && Follows(LoadHead()(old(z.Rest())), o, z.Rest())
    {
      hide LoadInt, LoadString, LoadLimits, Counted;
      var source :- String();
      var linedefined :- Int();
      var lastlinedefined :- Int();
      var limits :- Limits();
      var code :- Code();
      var k :- Constants();
      var n :- Int();
      o := Got((source, ((linedefined, lastlinedefined), (limits, ((code, k), n)))));
    }

    method DebugPart() returns (o: Outcome<Debug>)
      requires z.Valid()
      modifies z
      ensures z.Valid() && Follows(LoadDebug()(old(z.Rest())), o, z.Rest())
    {
      hide Counted;
      var lines :- Lines();
      var vars :- LocVars();
      var names :- Upvalues();
      o := Got((lines, (vars, names)));
    }

    /** LoadFunction. */
    method Function(parent: Option<Str>) returns (o: Outcome<Proto>)
      requires z.Valid()
      modifies z, `nCcalls
      ensures z.Valid() && Follows(LoadFunction(parent, old(nCcalls), old(z.Rest())), o, z.Rest())
      ensures o.Got? ==> nCcalls == old(nCcalls)
      decreases MAXCCALLS - nCcalls, 0
    {
      hide LoadHead, LoadDebug, LoadProtos, Assembled, SourceOf, Accepts;
      nCcalls := nCcalls + 1;
      if nCcalls > MAXCCALLS { return Threw(TooDeep); }
      var h :- FunctionHead();
      var p :- Functions(SourceOf(h, parent), h.1.1.1.1);
      var d :- DebugPart();
      var f := Assembled(h, parent, p, d);
      var ok := CheckCode(f);
      if !ok { return Threw(BadCode); }
      nCcalls := nCcalls - 1;
      o := Got(f);
    }

    /** LoadConstants, its second part. */
    method Functions(parent: Option<Str>, n: nat) returns (o: Outcome<seq<Proto>>)
      requires z.Valid()
      modifies z, `nCcalls
      ensures z.Valid() && Follows(LoadProtos(parent, old(nCcalls), n, old(z.Rest())), o, z.Rest())
      ensures o.Got? ==> nCcalls == old(nCcalls)
      decreases MAXCCALLS - nCcalls, 1
    {
      hide LoadFunction, LoadProtos;
      var p: seq<Proto> := [];
      ghost var calls := nCcalls;
      ghost var all := LoadProtos(parent, calls, n, z.Rest());
      ProtosStart(parent, calls, n, z.Rest());
      while |p| < n
        invariant z.Valid() && |p| <= n && nCcalls == calls && all == Prepend(p, LoadProtos(parent, calls, n - |p|, z.Rest()))
        decreases n - |p|
      {
        ProtosStep(parent, calls, p, n - |p|, z.Rest());
        var f := Function(parent);
        if f.Threw? { return Threw(f.error); }
        p := p + [f.val];
      }
      ProtosEnd(parent, calls, p, z.Rest());
      o := Got(p);
    }

    /** luaU_undump. */
    method Load() returns (o: Outcome<Proto>)
      requires z.Valid()
      modifies z, `nCcalls
      ensures z.Valid() && Follows(Undump(old(nCcalls), old(z.Rest())), o, z.Rest())
    {
      hide LoadFunction;
      var h :- Block(|HEADER|);
      if h != HEADER { return Threw(BadHeader); }
      o := Function(UNKNOWN);
    }
  }

  /** Put what has been loaded before the rest of a list. */
  ghost function Prepend<T>(xs: seq<T>, r: Result<seq<T>>): Result<seq<T>> {
    match r case Ok(ys, q) => Ok(xs + ys, q) case Err(e) => Err(e)
  }

  ghost function Continued<T>(load: Loader<T>, xs: seq<T>, n: nat, r: Result<T>): Result<seq<T>> {
    match r case Ok(x, q) => Prepend(xs + [x], ListOf(load, n, q)) case Err(e) => Err(e)
  }

  lemma ListStart<T(!new)>(load: Loader<T>, n: nat, s: Str)
    ensures ListOf(load, n, s) == Prepend([], ListOf(load, n, s))
  {
    if ListOf(load, n, s).Ok? { assert [] + ListOf(load, n, s).val == ListOf(load, n, s).val; }
  }

  lemma ListStep<T(!new)>(load: Loader<T>, xs: seq<T>, n: nat, s: Str)
    requires n > 0
    ensures Prepend(xs, ListOf(load, n, s)) == Continued(load, xs, n - 1, load(s))
  {
    if load(s).Ok? && ListOf(load, n - 1, load(s).rest).Ok? {
      var ys := ListOf(load, n - 1, load(s).rest).val;
      assert xs + ([load(s).val] + ys) == xs + [load(s).val] + ys;
    }
  }

  lemma ListEnd<T(!new)>(load: Loader<T>, xs: seq<T>, s: Str)
    ensures Prepend(xs, ListOf(load, 0, s)) == Ok(xs, s)
  {
    assert xs + [] == xs;
  }

  ghost function MoreProtos(parent: Option<Str>, calls: nat, fs: seq<Proto>, n: nat, r: Result<Proto>): Result<seq<Proto>> {
    match r case Ok(f, q) => Prepend(fs + [f], LoadProtos(parent, calls, n, q)) case Err(e) => Err(e)
  }

  lemma ProtosStart(parent: Option<Str>, calls: nat, n: nat, s: Str)
    ensures LoadProtos(parent, calls, n, s) == Prepend([], LoadProtos(parent, calls, n, s))
  {
    hide LoadProtos;
    var r := LoadProtos(parent, calls, n, s);
    if r.Ok? { assert [] + r.val == r.val; }
  }

  lemma ProtosStep(parent: Option<Str>, calls: nat, fs: seq<Proto>, n: nat, s: Str)
    requires n > 0
    ensures Prepend(fs, LoadProtos(parent, calls, n, s)) == MoreProtos(parent, calls, fs, n - 1, LoadFunction(parent, calls, s))
  {
    hide LoadFunction;
    var f := LoadFunction(parent, calls, s);
    if f.Ok? && LoadProtos(parent, calls, n - 1, f.rest).Ok? {
      var gs := LoadProtos(parent, calls, n - 1, f.rest).val;
      assert fs + ([f.val] + gs) == fs + [f.val] + gs;
    }
  }

  lemma ProtosEnd(parent: Option<Str>, calls: nat, fs: seq<Proto>, s: Str)
    ensures Prepend(fs, LoadProtos(parent, calls, 0, s)) == Ok(fs, s)
  {
    assert fs + [] == fs;
  }

  /** The words of a block, each converted. */
  function Converted<T>(of: Word -> T, b: Str): seq<T>
    requires |b| % 4 == 0
  {
    if b == [] then [] else [of(WordOf(b[..4]))] + Converted(of, b[4..])
  }

  ghost function Vector<T>(of: Word -> T, n: nat, s: Str): Result<seq<T>> {
    match LoadBlock(n * 4, s) case Ok(b, r) => Ok(Converted(of, b), r) case Err(e) => Err(e)
  }

  ghost function ConvertedWord<T>(of: Word -> T, r: Result<Word>): Result<T> {
    match r case Ok(w, q) => Ok(of(w), q) case Err(e) => Err(e)
  }

  /** A vector read at once is the list of its words. */
  lemma {:induction false} VectorAtOnce<T(!new)>(load: Loader<T>, of: Word -> T, n: nat, s: Str)
    requires forall t :: load(t) == ConvertedWord(of, LoadWord(t))
    ensures ListOf(load, n, s) == Vector(of, n, s)
  {
    if n > 0 && 4 <= |s| {
      VectorAtOnce(load, of, n - 1, s[4..]);
      if n * 4 <= |s| {
        var b := s[..n * 4];
        assert b[..4] == s[..4] && b[4..] == s[4..][..(n - 1) * 4] && s[n * 4..] == s[4..][(n - 1) * 4..];
      }
    }
  }
}
