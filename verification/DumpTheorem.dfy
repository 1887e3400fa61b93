/** The round trip of a whole tree of functions through a precompiled chunk. */
module DumpTheorem {
  import opened Wrappers
  import opened LuaProto
  import opened BcCheck
  import opened BcRun
  import opened DumpFormat
  import opened DumpTrip

  /** Every function has passed the checker, has a source, and fits the fields of the format. */
  predicate Checked(f: Proto): (checked: bool)
    ensures checked ==> AllFit(f)
  {
    f.source.Some? && Fits(f) && Accepts(f) && forall i :: 0 <= i < |f.p| ==> Checked(f.p[i])
  }

  predicate AllChecked(fs: seq<Proto>): (checked: bool)
    ensures checked ==> forall i :: 0 <= i < |fs| ==> AllFit(fs[i])
  {
    forall i :: 0 <= i < |fs| ==> Checked(fs[i])
  }

  /** Nested functions, the function itself included. */
  function Depth(f: Proto): (d: nat)
    ensures d > 0
  { 1 + DepthOf(f.p) }

  function DepthOf(fs: seq<Proto>): nat {
    if fs == [] then 0 else
    var d, e := Depth(fs[0]), DepthOf(fs[1..]);
    if d > e then d else e
  }

  /** The tree without debug information, every function with the same source. */
  function Stripped(f: Proto, source: Option<Str>): Proto {
    Bare(f).(source := source, p := AllStripped(f.p, source))
  }

  function AllStripped(fs: seq<Proto>, source: Option<Str>): (gs: seq<Proto>)
    ensures |gs| == |fs| && forall i :: 0 <= i < |fs| ==> gs[i] == Stripped(fs[i], source)
  {
    if fs == [] then [] else [Stripped(fs[0], source)] + AllStripped(fs[1..], source)
  }

  function Loaded(f: Proto, source: Option<Str>, strip: bool): Proto { if strip then Stripped(f, source) else f }

  function AllLoaded(fs: seq<Proto>, source: Option<Str>, strip: bool): seq<Proto> { if strip then AllStripped(fs, source) else fs }

  /** The checker does not look at what stripping takes away. */
  lemma StrippedAccepted(f: Proto, source: Option<Str>)
    requires Accepts(f)
    ensures Accepts(Stripped(f, source))
  {
    var g := Stripped(f, source);
    assert g.code == f.code && g.k == f.k && |g.p| == |f.p| && Prechecked(g);
    forall pc | 0 <= pc < |g.code| && Start(g.code, pc) ensures InstrOk(g, pc) {
      hide Start, Opcode, ArgA, ArgB, ArgC, ArgBx, ArgSBx, RunBefore, Prechecked;
      assert InstrOk(f, pc);
    }
  }

  /** What the loader assembles from the parts that were written. */
  lemma AssembledIs(f: Proto, parent: Option<Str>, q: Option<Str>, strip: bool)
    requires Fits(f) && f.source.Some? && Accepts(f) && (!strip && f.source == parent ==> q == f.source)
    ensures var h := HeadOf(f, if f.source == parent || strip then None else f.source);
      var g := if strip then Bare(f) else f;
      var r := Loaded(f, q, strip);
      SourceOf(h, q) == r.source && Assembled(h, q, r.p, (g.lineinfo, (g.locvars, g.upvalues))) == r && Accepts(r)
  {
    hide Accepts;
    StrippedAccepted(f, q);
  }

  /** One function: if it is nested too deeply, it is rejected for that. */
  lemma {:induction false} FunctionTrip(f: Proto, parent: Option<Str>, q: Option<Str>, strip: bool, calls: nat, t: Str)
    requires Checked(f) && (!strip && f.source == parent ==> q == f.source)
    ensures LoadFunction(q, calls, DumpFunction(f, parent, strip) + t)
      == if calls + Depth(f) <= MAXCCALLS then Ok(Loaded(f, q, strip), t) else Err(TooDeep)
    decreases f, 1
  {
    hide Accepts, DumpHead, DumpDebug, LoadHead, LoadDebug, Fits, Finished, HeadOf, Bare, SourceOf, Loaded, StringFits, Trips, LoadProtos, DumpProtos, DepthOf;
    if calls < MAXCCALLS {
      var source := if f.source == parent || strip then None else f.source;
      var h, g, r := HeadOf(f, source), if strip then Bare(f) else f, Loaded(f, q, strip);
      HeadIs(f, source);
      var head, rest := DumpHead(f, source), DumpProtos(f.p, f.source, strip);
      LoadedParts(f, q, strip);
      TripsHead(f, source);
      TripAt(LoadHead(), head, h, rest + DumpDebug(g) + t);
      assert DumpFunction(f, parent, strip) + t == head + (rest + DumpDebug(g) + t);
      ProtosTrip(f.p, f.source, r.source, strip, calls + 1, DumpDebug(g) + t);
      assert rest + DumpDebug(g) + t == rest + (DumpDebug(g) + t);
      NoneDeep(f.p);
      FinishTrip(f, parent, q, strip, t);
    }
  }

  lemma NoneDeep(fs: seq<Proto>)
    ensures DepthOf(fs) == 0 <==> fs == []
  {}

  lemma FinishTrip(f: Proto, parent: Option<Str>, q: Option<Str>, strip: bool, t: Str)
    requires Fits(f) && f.source.Some? && Accepts(f) && (!strip && f.source == parent ==> q == f.source)
    ensures var h := HeadOf(f, if f.source == parent || strip then None else f.source);
      var r := Loaded(f, q, strip);
      SourceOf(h, q) == r.source
      && Finished(h, q, Ok(r.p, DumpDebug(if strip then Bare(f) else f) + t)) == Ok(r, t) && Finished(h, q, Err(TooDeep)) == Err(TooDeep)
  {
    hide Accepts, DumpDebug, LoadDebug, Trips, HeadOf, SourceOf, Assembled, Loaded;
    var g := if strip then Bare(f) else f;
    AssembledIs(f, parent, q, strip);
    TripsDebug(g);
    TripAt(LoadDebug(), DumpDebug(g), (g.lineinfo, (g.locvars, g.upvalues)), t);
  }

  lemma TripAt<T(!new)>(load: Loader<T>, b: Str, x: T, t: Str)
    requires Trips(load, b, x)
    ensures load(b + t) == Ok(x, t)
  {}

  lemma HeadIs(f: Proto, source: Option<Str>)
    requires Fits(f) && (source == None || source == f.source)
    ensures HeadOf(f, source).1.1.1.1 == |f.p| && Fits(Bare(f)) && StringFits(source)
  {}

  lemma LoadedParts(f: Proto, q: Option<Str>, strip: bool)
    ensures var r := Loaded(f, q, strip);
      r.p == AllLoaded(f.p, r.source, strip) && (if strip then r.source == q else r.source == f.source)
  {}

  lemma {:induction false} ProtosTrip(fs: seq<Proto>, parent: Option<Str>, q: Option<Str>, strip: bool, calls: nat, t: Str)
    requires AllChecked(fs) && (!strip ==> q == parent)
    ensures LoadProtos(q, calls, |fs|, DumpProtos(fs, parent, strip) + t)
      == if fs == [] || calls + DepthOf(fs) <= MAXCCALLS then Ok(AllLoaded(fs, q, strip), t) else Err(TooDeep)
    decreases fs, 0
  {
    hide DumpFunction, LoadFunction, Depth, Checked, AllFit, Stripped;
    if fs != [] {
      var first, rest := DumpFunction(fs[0], parent, strip), DumpProtos(fs[1..], parent, strip);
      assert first + rest + t == first + (rest + t);
      FunctionTrip(fs[0], parent, q, strip, calls, rest + t);
      ProtosTrip(fs[1..], parent, q, strip, calls, t);
      assert |fs[1..]| == |fs| - 1 && fs == [fs[0]] + fs[1..];
    }
  }

  lemma HeaderFirst(calls: nat, s: Str)
    ensures Undump(calls, HEADER + s) == LoadFunction(UNKNOWN, calls, s)
  {
    assert (HEADER + s)[..|HEADER|] == HEADER && (HEADER + s)[|HEADER|..] == s;
  }

  /** Undumping what was dumped gives the tree again, stripped if it was dumped so; nothing that follows
      is read. It fails exactly if the tree is nested too deeply for the C stack. */
  lemma RoundTrip(f: Proto, strip: bool, calls: nat, t: Str)
    requires Checked(f)
    ensures Undump(calls, Dump(f, strip) + t)
      == if calls + Depth(f) <= MAXCCALLS then Ok(Loaded(f, UNKNOWN, strip), t) else Err(TooDeep)
  {
    hide LoadFunction, DumpFunction, Checked, AllFit;
    var b := DumpFunction(f, None, strip);
    assert Dump(f, strip) + t == HEADER + (b + t);
    HeaderFirst(calls, b + t);
    SourceGiven(f);
    FunctionTrip(f, None, UNKNOWN, strip, calls, t);
  }

  lemma SourceGiven(f: Proto)
    requires Checked(f)
    ensures f.source.Some?
  {}

  lemma SteadyUndump(calls: nat, s: Str, t: Str)
    requires Undump(calls, s) != Err(UnexpectedEnd)
    ensures Undump(calls, s + t) == Extend(Undump(calls, s), t)
  {
    SteadyBlock(|HEADER|, s, t);
    if |HEADER| <= |s| && s[..|HEADER|] == HEADER { SteadyFunction(UNKNOWN, calls, s[|HEADER|..], t); }
  }

  /** Every strict prefix of a dump is rejected as incomplete. */
  lemma PrefixRejected(f: Proto, strip: bool, calls: nat, m: nat)
    requires Checked(f) && calls + Depth(f) <= MAXCCALLS && m < |Dump(f, strip)|
    ensures Undump(calls, Dump(f, strip)[..m]) == Err(UnexpectedEnd)
  {
    hide Undump, Checked, AllFit, Dump;
    var s, t := Dump(f, strip)[..m], Dump(f, strip)[m..];
    RoundTrip(f, strip, calls, []);
    assert Dump(f, strip) + [] == s + t;
    if Undump(calls, s) != Err(UnexpectedEnd) { SteadyUndump(calls, s, t); }
  }

  /** Whatever bytes are loaded, only functions that pass the checker come out. */
  lemma {:induction false} LoadedAccepted(parent: Option<Str>, calls: nat, s: Str)
    requires LoadFunction(parent, calls, s).Ok?
    ensures AllAccepted(LoadFunction(parent, calls, s).val)
    decreases MAXCCALLS - calls, 1, 0
  {
    hide Accepts, LoadHead, LoadDebug, SourceOf;
    var h, r := LoadHead()(s).val, LoadHead()(s).rest;
    ProtosAccepted(SourceOf(h, parent), calls + 1, h.1.1.1.1, r);
  }

  predicate AllAccepted(f: Proto) { Accepts(f) && forall i :: 0 <= i < |f.p| ==> AllAccepted(f.p[i]) }

  /** The function itself, or one nested in it. */
  ghost predicate Within(g: Proto, f: Proto) { g == f || exists i :: 0 <= i < |f.p| && Within(g, f.p[i]) }

  lemma {:induction false} WithinAccepted(g: Proto, f: Proto)
    requires AllAccepted(f) && Within(g, f)
    ensures Accepts(g)
  {
    hide Accepts;
    if g != f {
      var i :| 0 <= i < |f.p| && Within(g, f.p[i]);
      WithinAccepted(g, f.p[i]);
    }
  }

  /** Whatever bytes come in: what the loader lets pass is safe to run, with skip flags as the compiler
      emits them. */
  lemma LoadedRunsSafely(calls: nat, s: Str, g: Proto, x: Point)
    requires Undump(calls, s).Ok? && Within(g, Undump(calls, s).val) && PlainSkips(g.code) && Reachable(g, x)
    ensures OnInstruction(g, x) && SafeAt(g, x.pc)
  {
    hide Reachable, OnInstruction, SafeAt, LoadFunction, PlainSkips, AllAccepted, Accepts, Within;
    LoadedAccepted(UNKNOWN, calls, s[|HEADER|..]);
    WithinAccepted(g, Undump(calls, s).val);
    RunsSafely(g, x);
  }

  lemma {:induction false} ProtosAccepted(parent: Option<Str>, calls: nat, n: nat, s: Str)
    requires LoadProtos(parent, calls, n, s).Ok?
    ensures var fs := LoadProtos(parent, calls, n, s).val; forall i :: 0 <= i < |fs| ==> AllAccepted(fs[i])
    decreases MAXCCALLS - calls, 2, n
  {
    hide LoadFunction, AllAccepted;
    if n > 0 {
      LoadedAccepted(parent, calls, s);
      ProtosAccepted(parent, calls, n - 1, LoadFunction(parent, calls, s).rest);
    }
  }
}
