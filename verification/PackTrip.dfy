/** Unpacking gives back exactly the values that fit their codes. */
module PackTrip {
  import opened LuaProto
  import opened PackFormat

  lemma {:induction false} ReversedAt(b: Str, k: nat)
    requires k < |b|
    ensures Reversed(b)[k] == b[|b| - 1 - k]
  {
    if k < |b| - 1 { ReversedAt(b[1..], k); }
  }

  lemma ReversedTwice(b: Str)
    ensures Reversed(Reversed(b)) == b
  {
    forall k | 0 <= k < |b| ensures Reversed(Reversed(b))[k] == b[k] {
      ReversedAt(Reversed(b), k);
      ReversedAt(b, |b| - 1 - k);
    }
  }

  lemma {:induction false} WordBytes(w: nat, m: nat)
    requires w < Power(m)
    ensures WordOf(Bytes(w, m)) == w
  {
    if m > 0 {
      WordBytes(w / 0x100, m - 1);
      assert Bytes(w, m)[1..] == Bytes(w / 0x100, m - 1);
    }
  }

  /** A length or a number that was packed, in whatever order. */
  lemma WordBack(w: nat, m: nat, swap: bool)
    requires w < Power(m)
    ensures WordOf(Ordered(Ordered(Bytes(w, m), swap), swap)) == w
  {
    ReversedTwice(Bytes(w, m));
    WordBytes(w, m);
  }

  lemma Modulo(x: int, p: int)
    requires p > 0
    ensures 0 <= x < p ==> x % p == x
    ensures -p <= x < 0 ==> x % p == x + p
  {
    if 0 <= x < p { assert x / p == 0; }
    if -p <= x < 0 { assert (x + p) / p == 0 && x / p == -1; }
  }

  /** A number comes back exactly if its code can hold it. */
  lemma NumberBack(x: int, m: nat, signed: bool)
    ensures FromWord(ToWord(x, m), m, signed) == x <==> if signed then 0 <= 2 * x + Power(m) && 2 * x < Power(m) else 0 <= x < Power(m)
  {
    Modulo(x, Power(m));
  }

  lemma {:induction false} ZeroFound(s: Str, t: Str)
    ensures ZeroAt(s + [0] + t) == if 0 in s then ZeroAt(s) else |s|
    ensures 0 in s ==> ZeroAt(s) < |s|
  {
    var all := s + [0] + t;
    if s != [] {
      assert all[1..] == s[1..] + [0] + t && all[0] == s[0];
      ZeroFound(s[1..], t);
      assert s == [s[0]] + s[1..];
    }
  }

  lemma Middle(pre: Str, b: Str, post: Str)
    ensures (pre + b + post)[|pre|..|pre| + |b|] == b && (pre + b + post)[|pre|..] == b + post
  {}

  /** What unpacking must give for the value of one step. */
  predicate StepRight(u: Unpacked, args: seq<Value>, used: nat, fits: bool, i: nat, j: nat)
    requires used <= |args|
  {
    if fits then u == Unpacked(args[..used], j, false)
    else u.Unpacked? && used == 1 && (if u.stop then u.vals == [] else |u.vals| == 1 && u.vals[0] != args[0])
  }

  lemma ZeroStep(t: Step, args: seq<Value>, conv: Conversion, pre: Str, post: Str, charSigned: bool)
    requires t.code == 'z' && PackStep(t, args, conv).Packed?
    ensures var p := PackStep(t, args, conv); var s := pre + p.b + post;
      StepRight(UnpackStep(t, s, |pre|, charSigned), args, p.used, Fits(t.code, args[0], charSigned), |pre|, |pre| + |p.b|)
  {
    hide TestedStart, ZeroAt, UnpackStep;
    var x := TextOf(args[0], conv);
    ZeroUnpacked(t, pre, x, post, charSigned);
    ZeroFound(x, post);
    NoZeroBefore(x);
    assert args[..1] == [args[0]];
    assert 0 !in x ==> x[..|x|] == x;
  }

  /** The bytes before the first zero byte are read. */
  lemma ZeroUnpacked(t: Step, pre: Str, x: Str, post: Str, charSigned: bool)
    requires t.code == 'z'
    ensures var l := ZeroAt(x + [0] + post);
      l <= |x| && UnpackStep(t, pre + (x + [0]) + post, |pre|, charSigned) == Unpacked([Text(x[..l])], |pre| + l + 1, false)
  {
    hide ZeroAt, UnpackStep;
    ZeroFound(x, post);
    SliceOf(pre, x, post, ZeroAt(x + [0] + post));
    ZeroRead(t, pre + (x + [0]) + post, |pre|, charSigned);
  }

  lemma SliceOf(pre: Str, x: Str, post: Str, l: nat)
    requires l <= |x|
    ensures var s := pre + (x + [0]) + post;
      s[|pre|..] == x + [0] + post && s[|pre|..|pre| + l] == x[..l]
  {
    var s := pre + (x + [0]) + post;
    Middle(pre, x + [0], post);
    assert s[|pre|..][..l] == (x + [0] + post)[..l] == x[..l];
  }

  lemma ZeroRead(t: Step, s: Str, i: nat, charSigned: bool)
    requires t.code == 'z' && i < |s|
    ensures var l := ZeroAt(s[i..]);
      UnpackStep(t, s, i, charSigned) == Unpacked([Text(s[i..i + l])], i + l + 1, false)
  {
    hide TestedStart, ZeroAt;
    StartInside(i, |s|);
  }

  lemma {:induction false} NoZeroBefore(x: Str)
    ensures 0 !in x[..ZeroAt(x)]
  {
    if x != [] && x[0] != 0 {
      NoZeroBefore(x[1..]);
      assert x[..ZeroAt(x)] == [x[0]] + x[1..][..ZeroAt(x[1..])];
    }
  }

  lemma StartInside(i: nat, len: nat)
    requires i < len
    ensures TestedStart(i, len).Within?
  {}

  lemma LengthStep(t: Step, args: seq<Value>, conv: Conversion, pre: Str, post: Str, charSigned: bool)
    requires LengthSize(t.code) > 0 && PackStep(t, args, conv).Packed?
    ensures var p := PackStep(t, args, conv); var s := pre + p.b + post;
      StepRight(UnpackStep(t, s, |pre|, charSigned), args, p.used, Fits(t.code, args[0], charSigned), |pre|, |pre| + |p.b|)
  {
    var l, x := LengthSize(t.code), TextOf(args[0], conv);
    var n := ToWord(|x|, l);
    var field := Ordered(Bytes(n, l), t.swap);
    var s := pre + (field + x) + post;
    WordBack(n, l, t.swap);
    LengthOf(|x|, l);
    LengthUnpacked(t, pre, field, x, post, n, charSigned);
    LengthFits(t, args, conv, charSigned);
    assert args[..1] == [args[0]];
    hide LengthSize, NumberSize, Power, Bytes, WordOf, Ordered, ToWord, UnpackStep, TextOf, Fits;
    assert |x[..n]| == n;
    if n == |x| { assert x[..n] == x; }
  }

  /** Whether a text fits, for a code with a length. */
  lemma LengthFits(t: Step, args: seq<Value>, conv: Conversion, charSigned: bool)
    requires LengthSize(t.code) > 0 && args != []
    ensures Fits(t.code, args[0], charSigned) <==> args[0].Text? && ToWord(|TextOf(args[0], conv)|, LengthSize(t.code)) == |args[0].s|
  {
    if args[0].Text? { LengthOf(|args[0].s|, LengthSize(t.code)); }
  }

  lemma LengthOf(n: nat, l: nat)
    ensures ToWord(n, l) <= n && (ToWord(n, l) == n <==> n < Power(l))
  {
    Modulo(n, Power(l));
  }

  /** As many bytes are read as the length says. */
  lemma LengthUnpacked(t: Step, pre: Str, field: Str, x: Str, post: Str, n: nat, charSigned: bool)
    requires LengthSize(t.code) > 0 && |field| == LengthSize(t.code) && WordOf(Ordered(field, t.swap)) == n <= |x|
    ensures UnpackStep(t, pre + (field + x) + post, |pre|, charSigned) == Unpacked([Text(x[..n])], |pre| + |field| + n, false)
  {
    hide Power, Bytes, WordOf, Ordered, Tested;
    var s, l := pre + (field + x) + post, |field|;
    assert s == pre + field + (x + post) && s == (pre + field) + x + post;
    Middle(pre, field, x + post);
    Middle(pre + field, x, post);
    InsidePasses(|pre|, l, |s|);
    InsidePasses(|pre|, l + n, |s|);
    assert s[|pre|..|pre| + l] == field;
    assert s[|pre| + l..|pre| + l + n] == x[..n] by { assert s[|pre| + l..][..n] == (x + post)[..n] == x[..n]; }
  }

  lemma NumberStep(t: Step, args: seq<Value>, conv: Conversion, pre: Str, post: Str, charSigned: bool)
    requires NumberSize(t.code) > 0 && PackStep(t, args, conv).Packed?
    ensures var p := PackStep(t, args, conv); var s := pre + p.b + post;
      StepRight(UnpackStep(t, s, |pre|, charSigned), args, p.used, Fits(t.code, args[0], charSigned), |pre|, |pre| + |p.b|)
  {
    hide Power, Bytes, WordOf, Ordered, ToWord, FromWord, Tested;
    var m, x := NumberSize(t.code), NumberOf(args[0], conv).val;
    var b := Ordered(Bytes(ToWord(x, m), m), t.swap);
    Middle(pre, b, post);
    InsidePasses(|pre|, m, |pre + b + post|);
    WordBack(ToWord(x, m), m, t.swap);
    NumberBack(x, m, IsSigned(t.code, charSigned));
    assert args[..1] == [args[0]];
  }

  predicate StepFits(t: Step, args: seq<Value>, used: nat, charSigned: bool) { used == 1 && args != [] ==> Fits(t.code, args[0], charSigned) }

  /** One step: the value comes back exactly if it fits; otherwise another one does, or none. */
  lemma StepTrip(t: Step, args: seq<Value>, conv: Conversion, pre: Str, post: Str, charSigned: bool)
    requires t.code != 'A' && PackStep(t, args, conv).Packed?
    ensures var p := PackStep(t, args, conv); var s := pre + p.b + post;
      StepRight(UnpackStep(t, s, |pre|, charSigned), args, p.used, StepFits(t, args, p.used, charSigned), |pre|, |pre| + |p.b|)
  {
    hide Fits, UnpackStep, StepRight;
    if t.code == 'z' { ZeroStep(t, args, conv, pre, post, charSigned); }
    else if LengthSize(t.code) > 0 { LengthStep(t, args, conv, pre, post, charSigned); }
    else if NumberSize(t.code) > 0 { NumberStep(t, args, conv, pre, post, charSigned); }
    else { BlankStep(t, args, pre + [] + post, |pre|, charSigned); }
  }

  lemma BlankStep(t: Step, args: seq<Value>, s: Str, i: nat, charSigned: bool)
    requires t.code == ' ' || t.code == ','
    ensures StepRight(UnpackStep(t, s, i, charSigned), args, 0, true, i, i)
  {}

  ghost predicate NoA(ts: seq<Step>) { forall i :: 0 <= i < |ts| ==> ts[i].code != 'A' }

  predicate AllRight(u: Unpacked, args: seq<Value>, used: nat, fits: bool, j: nat)
    requires used <= |args|
  {
    if fits then u == Unpacked(args[..used], j, false) else u.Astray? || (u.Unpacked? && u.vals != args[..used])
  }

  /** What Unpack does after one step. */
  function After(u: Unpacked, more: Unpacked): Unpacked {
    if !u.Unpacked? || u.stop then u else if !more.Unpacked? then more else Unpacked(u.vals + more.vals, more.pos, more.stop)
  }

  lemma RightAfter(u: Unpacked, more: Unpacked, args: seq<Value>, used: nat, used': nat, fits: bool, fits': bool, i: nat, j: nat, k: nat)
    requires used + used' <= |args| && StepRight(u, args, used, fits, i, j)
    requires fits ==> AllRight(more, args[used..], used', fits', k)
    requires !fits && !u.stop ==> !more.UnknownCode?
    ensures AllRight(After(u, more), args, used + used', fits && fits', k)
  {
    assert args[..used + used'] == args[..used] + args[used..][..used'];
    if !fits && !u.stop && more.Unpacked? {
      assert (u.vals + more.vals)[0] == u.vals[0] && args[..used + used'][0] == args[0];
    }
  }

  lemma {:induction false} Known(ts: seq<Step>, args: seq<Value>, conv: Conversion, s: Str, i: int, charSigned: bool)
    requires NoA(ts) && Pack(ts, args, conv).Packed?
    ensures !Unpack(ts, s, i, charSigned).UnknownCode?
    decreases |ts|
  {
    if ts != [] {
      KnownStep(ts[0], args, conv, s, i, charSigned);
      var u := UnpackStep(ts[0], s, i, charSigned);
      if u.Unpacked? { Known(ts[1..], args[PackStep(ts[0], args, conv).used..], conv, s, u.pos, charSigned); }
    }
  }

  lemma KnownStep(t: Step, args: seq<Value>, conv: Conversion, s: Str, i: int, charSigned: bool)
    requires t.code != 'A' && PackStep(t, args, conv).Packed?
    ensures !UnpackStep(t, s, i, charSigned).UnknownCode?
  {}

  /** The first step, and the others after it. */
  lemma FirstStep(ts: seq<Step>, args: seq<Value>, conv: Conversion, s: Str, i: int, charSigned: bool)
    requires ts != [] && NoA(ts) && Pack(ts, args, conv).Packed?
    ensures PackStep(ts[0], args, conv).Packed? && NoA(ts[1..]) && !UnpackStep(ts[0], s, i, charSigned).UnknownCode?
    ensures var first := PackStep(ts[0], args, conv);
      var more := Pack(ts[1..], args[first.used..], conv);
      more.Packed? && Pack(ts, args, conv) == Packed(first.b + more.b, first.used + more.used)
      && AllFit(ts, args, conv, charSigned) == (StepFits(ts[0], args, first.used, charSigned) && AllFit(ts[1..], args[first.used..], conv, charSigned))
    ensures var u := UnpackStep(ts[0], s, i, charSigned);
      u.Unpacked? ==> Unpack(ts, s, i, charSigned) == After(u, Unpack(ts[1..], s, u.pos, charSigned))
  {
    hide PackStep, UnpackStep, Fits;
    KnownStep(ts[0], args, conv, s, i, charSigned);
  }

  /** Any steps, wherever in the data their bytes are. */
  lemma {:induction false} Trip(ts: seq<Step>, args: seq<Value>, conv: Conversion, pre: Str, post: Str, charSigned: bool)
    requires NoA(ts) && Pack(ts, args, conv).Packed?
    ensures var p := Pack(ts, args, conv);
      AllRight(Unpack(ts, pre + p.b + post, |pre|, charSigned), args, p.used, AllFit(ts, args, conv, charSigned), |pre| + |p.b|)
    decreases |ts|
  {
    hide PackStep, UnpackStep, Fits, StepRight, AllRight, Unpack, Pack, AllFit, NoA, StepFits, After;
    if ts != [] {
      FirstStep(ts, args, conv, [], 0, charSigned);
      var first := PackStep(ts[0], args, conv);
      var more := Pack(ts[1..], args[first.used..], conv);
      var s := pre + (first.b + more.b) + post;
      FirstStep(ts, args, conv, s, |pre|, charSigned);
      assert s == pre + first.b + (more.b + post) && s == (pre + first.b) + more.b + post;
      NotA(ts);
      StepTrip(ts[0], args, conv, pre, more.b + post, charSigned);
      Trip(ts[1..], args[first.used..], conv, pre + first.b, post, charSigned);
      var u := UnpackStep(ts[0], s, |pre|, charSigned);
      StepFound(u, args, first.used, StepFits(ts[0], args, first.used, charSigned), |pre|, |pre| + |first.b|);
      Known(ts[1..], args[first.used..], conv, s, u.pos, charSigned);
      var fits, fits' := StepFits(ts[0], args, first.used, charSigned), AllFit(ts[1..], args[first.used..], conv, charSigned);
      StepPosition(u, args, first.used, fits, |pre|, |pre| + |first.b|);
      RightAfter(u, Unpack(ts[1..], s, u.pos, charSigned), args, first.used, more.used, fits, fits', |pre|, |pre| + |first.b|, |pre| + |first.b + more.b|);
    } else {
      NothingTrips(args, conv, pre, post, charSigned);
    }
  }

  lemma NotA(ts: seq<Step>)
    requires NoA(ts) && ts != []
    ensures ts[0].code != 'A'
  {}

  lemma NothingTrips(args: seq<Value>, conv: Conversion, pre: Str, post: Str, charSigned: bool)
    ensures Pack([], args, conv) == Packed([], 0)
    ensures AllRight(Unpack([], pre + [] + post, |pre|, charSigned), args, 0, AllFit([], args, conv, charSigned), |pre|)
  {
    assert args[..0] == [];
  }

  lemma StepFound(u: Unpacked, args: seq<Value>, used: nat, fits: bool, i: nat, j: nat)
    requires used <= |args| && StepRight(u, args, used, fits, i, j)
    ensures u.Unpacked?
  {}

  lemma StepPosition(u: Unpacked, args: seq<Value>, used: nat, fits: bool, i: nat, j: nat)
    requires used <= |args| && StepRight(u, args, used, fits, i, j)
    ensures fits ==> u.Unpacked? && u.pos == j && !u.stop
  {}

  lemma {:induction false} StepsNoA(f: string, swap: bool)
    requires 'A' !in f
    ensures NoA(Steps(f, swap))
    decreases |f|
  {
    if f != "" {
      var (n, k) := if |f| > 1 && IsDigit(f[1]) then Count(f[1..], 0) else (1, 0);
      var rest := f[1 + k..];
      RepeatedNoA(f[0], swap, n);
      StepsNoA(rest, swap);
      StepsNoA(rest, Swaps(f[0]));
    }
  }

  lemma {:induction false} RepeatedNoA(code: char, swap: bool, n: nat)
    ensures code != 'A' ==> NoA(Repeated(code, swap, n))
    decreases n
  {
    if n > 0 { RepeatedNoA(code, swap, n - 1); }
  }

  /** For a format without `A`, unpacking what was packed gives the packed values, and the position after
      the data, exactly if every value fits its code. */
  lemma RoundTrip(f: string, args: seq<Value>, conv: Conversion, charSigned: bool)
    requires 'A' !in f && Pack(Steps(f, false), args, conv).Packed?
    ensures var p := Pack(Steps(f, false), args, conv);
      Unpack(Steps(f, false), p.b, 0, charSigned) == Unpacked(args[..p.used], |p.b|, false) <==> AllFit(Steps(f, false), args, conv, charSigned)
  {
    hide Unpack, Pack, AllFit, Steps;
    StepsNoA(f, false);
    Trip(Steps(f, false), args, conv, [], [], charSigned);
    var b := Pack(Steps(f, false), args, conv).b;
    assert [] + b + [] == b;
  }

  /** A number that does not fit: 256 comes back as 0 from a single byte. */
  lemma NumberCut(conv: Conversion, charSigned: bool)
    ensures var ts := Steps("b", false);
      !AllFit(ts, [Num(256)], conv, charSigned)
      && Pack(ts, [Num(256)], conv) == Packed([0], 1) && Unpack(ts, [0], 0, charSigned) == Unpacked([Num(0)], 1, false)
  {
    OneStep('b');
    var t := Step('b', false, 0);
    assert Bytes(0, 1) == [0] && WordOf([0]) == 0;
    assert PackStep(t, [Num(256)], conv) == Packed([0], 1) && UnpackStep(t, [0], 0, charSigned) == Unpacked([Num(0)], 1, false);
  }

  /** A string that does not fit: the one with a zero byte in it comes back without that byte and the ones after it. */
  lemma TextCut(conv: Conversion, charSigned: bool)
    ensures var ts := Steps("z", false);
      !AllFit(ts, [Text([65, 0, 66])], conv, charSigned)
      && Pack(ts, [Text([65, 0, 66])], conv) == Packed([65, 0, 66, 0], 1)
      && Unpack(ts, [65, 0, 66, 0], 0, charSigned) == Unpacked([Text([65])], 2, false)
  {
    OneStep('z');
    var t, s: Str := Step('z', false, 0), [65, 0, 66, 0];
    assert s[1..][0] == 0 && ZeroAt(s) == 1 && s[0..] == s && s[0..1] == [65];
    assert UnpackStep(t, s, 0, charSigned) == Unpacked([Text([65])], 2, false);
  }

  lemma OneStep(c: char)
    requires !IsEndian(c) && c != 'A'
    ensures Steps([c], false) == [Step(c, false, 0)]
  {
    assert Repeated(c, false, 1) == [Step(c, false, 0)] + Repeated(c, false, 0);
    assert Steps([], false) == [];
  }
}
