/** l_pack and l_unpack, and the swapping of bytes in place (lpack.c). */
module PackLib {
  import opened LuaProto
  import opened PackFormat
  import opened PackTrip

  /** doswap. */
  method DoSwap(swap: bool, a: array<Byte>)
    modifies a
    ensures a[..] == Ordered(old(a[..]), swap)
  {
    if swap {
      ghost var s := a[..];
      var i, j, n := 0, a.Length - 1, a.Length / 2;
      while n > 0
        invariant 0 <= n && i + n == a.Length / 2 && j == a.Length - 1 - i
        invariant forall k :: 0 <= k < i || j < k < a.Length ==> a[k] == s[a.Length - 1 - k]
        invariant forall k :: i <= k <= j ==> a[k] == s[k]
      {
        n := n - 1;
        a[i], a[j] := a[j], a[i];
        i, j := i + 1, j - 1;
      }
      forall k | 0 <= k < a.Length ensures a[k] == Reversed(s)[k] { ReversedAt(s, k); }
      assert a[..] == Reversed(s);
    }
  }

  /** A machine word, in the order asked for. */
  method WordBytes(w: nat, m: nat, swap: bool) returns (b: Str)
    ensures b == Ordered(PackFormat.Bytes(w, m), swap)
  {
    hide Ordered;
    var word := PackFormat.Bytes(w, m);
    var a := new Byte[m](i requires 0 <= i < m => word[i]);
    assert a[..] == word;
    DoSwap(swap, a);
    b := a[..];
  }

  method ReadWord(b: Str, swap: bool) returns (w: nat)
    ensures w == WordOf(Ordered(b, swap))
  {
    hide Ordered;
    var a := new Byte[|b|](i requires 0 <= i < |b| => b[i]);
    assert a[..] == b;
    DoSwap(swap, a);
    w := WordOf(a[..]);
  }

  /** The count after a code, and the position after it. */
  method ReadCount(f: string, start: nat) returns (n: nat, pos: nat)
    requires start <= |f|
    ensures start <= pos <= |f|
    ensures if start < |f| && IsDigit(f[start]) then (n, pos - start) == Count(f[start..], 0) else n == 1 && pos == start
  {
    n, pos := 1, start;
    if pos < |f| && IsDigit(f[pos]) {
      n := 0;
      while pos < |f| && IsDigit(f[pos])
        invariant start <= pos <= |f|
        invariant Count(f[start..], 0) == (Count(f[pos..], n).0, Count(f[pos..], n).1 + pos - start)
      {
        assert f[pos..][1..] == f[pos + 1..];
        n, pos := 10 * n + (f[pos] as int - '0' as int), pos + 1;
      }
    }
  }

  /** What is still to be done for a code. */
  function Left(c: char, swap: bool, n: nat): seq<Step> {
    if IsEndian(c) then [] else if c == 'A' then [Step('A', swap, n)] else Repeated(c, swap, n)
  }

  lemma StepsNext(f: string, pos: nat, swap: bool, n: nat, pos': nat)
    requires pos < |f| && pos + 1 <= pos' <= |f|
    requires if pos + 1 < |f| && IsDigit(f[pos + 1]) then (n, pos' - pos - 1) == Count(f[pos + 1..], 0) else n == 1 && pos' == pos + 1
    ensures var swap' := if IsEndian(f[pos]) && n > 0 then Swaps(f[pos]) else swap;
      Steps(f[pos..], swap) == Left(f[pos], swap, n) + Steps(f[pos'..], swap')
  {
    hide Count;
    var g := f[pos..];
    assert g[0] == f[pos] && g[1..] == f[pos + 1..] && (|g| > 1 ==> g[1] == f[pos + 1]);
    assert g[1 + (pos' - pos - 1)..] == f[pos'..];
  }

  /** What has been packed already, before the rest. */
  function Onto(b: Str, used: nat, p: Packed): Packed { match p case Packed(c, u) => Packed(b + c, used + u) case e => e }

  /** One more value for a code that is repeated. */
  lemma PackNext(c: char, swap: bool, n: nat, rest: seq<Step>, args: seq<Value>, conv: Conversion)
    requires n > 0 && !IsEndian(c)
    ensures var one := PackStep(Step(c, swap, 1), args, conv);
      Pack(Left(c, swap, n) + rest, args, conv)
        == if one.Packed? then Onto(one.b, one.used, Pack(Left(c, swap, n - 1) + rest, args[one.used..], conv)) else one
  {
    hide Pack, PackStep, Repeated, Strings;
    var ts, ts' := Left(c, swap, n) + rest, Left(c, swap, n - 1) + rest;
    if c != 'A' { RepeatedFirst(c, swap, n); }
    PackFirst(ts, args, conv);
    OneOf(c, swap, n, args, conv);
    if c == 'A' {
      assert ts[1..] == rest && ts'[1..] == rest;
      StringsNext(args, n, conv);
      OneOf(c, swap, n - 1, args, conv);
      OneOf(c, swap, 1, args, conv);
      var one := Strings(args, 1, conv);
      if one.Packed? {
        PackFirst(ts', args[one.used..], conv);
        OneOf(c, swap, n - 1, args[one.used..], conv);
        OntoDrop(args, one.b, one.used, Strings(args[one.used..], n - 1, conv), rest, conv);
      }
    } else {
      assert ts[0] == Step(c, swap, 0) && ts[1..] == ts';
    }
  }

  lemma RepeatedFirst(c: char, swap: bool, n: nat)
    requires n > 0
    ensures Repeated(c, swap, n) == [Step(c, swap, 0)] + Repeated(c, swap, n - 1)
  {}

  lemma PackFirst(ts: seq<Step>, args: seq<Value>, conv: Conversion)
    requires ts != []
    ensures var p := PackStep(ts[0], args, conv);
      Pack(ts, args, conv) == if p.Packed? then Onto(p.b, p.used, Pack(ts[1..], args[p.used..], conv)) else p
  {}

  lemma OneOf(c: char, swap: bool, n: nat, args: seq<Value>, conv: Conversion)
    ensures if c == 'A' then PackStep(Step(c, swap, n), args, conv) == Strings(args, n, conv)
      else PackStep(Step(c, swap, n), args, conv) == PackStep(Step(c, swap, 0), args, conv) && PackStep(Step(c, swap, 1), args, conv) == PackStep(Step(c, swap, 0), args, conv)
  {}

  lemma OntoDrop(args: seq<Value>, b: Str, used: nat, more: Packed, rest: seq<Step>, conv: Conversion)
    requires used <= |args| && (more.Packed? ==> used + more.used <= |args|)
    ensures var all := Onto(b, used, more);
      (if all.Packed? then Onto(all.b, all.used, Pack(rest, args[all.used..], conv)) else all)
      == Onto(b, used, if more.Packed? then Onto(more.b, more.used, Pack(rest, args[used..][more.used..], conv)) else more)
  {
    hide Pack;
    if more.Packed? {
      assert args[used..][more.used..] == args[used + more.used..];
      OntoOnto(b, used, more.b, more.used, Pack(rest, args[used + more.used..], conv));
    }
  }

  lemma StringsNext(args: seq<Value>, n: nat, conv: Conversion)
    requires n > 0
    ensures var one := Strings(args, 1, conv);
      Strings(args, n, conv) == if one.Packed? then Onto(one.b, one.used, Strings(args[one.used..], n - 1, conv)) else one
  {
    hide TextOf;
    if args != [] {
      var x := TextOf(args[0], conv);
      assert Strings(args[1..], 0, conv) == Packed([], 0) && x + [] == x;
    }
  }

  lemma OntoOnto(b: Str, used: nat, c: Str, used': nat, p: Packed)
    ensures Onto(b, used, Onto(c, used', p)) == Onto(b + c, used + used', p)
  {
    if p.Packed? { assert b + (c + p.b) == b + c + p.b; }
  }

  lemma NoneLeft(c: char, swap: bool, rest: seq<Step>, args: seq<Value>, conv: Conversion)
    ensures Pack(Left(c, swap, 0) + rest, args, conv) == Pack(rest, args, conv)
  {
    if c == 'A' {
      assert (Left(c, swap, 0) + rest)[1..] == rest && args[0..] == args;
      if Pack(rest, args, conv).Packed? { assert [] + Pack(rest, args, conv).b == Pack(rest, args, conv).b; }
    } else {
      assert Left(c, swap, 0) + rest == rest;
    }
  }

  lemma EndianLeft(c: char, swap: bool, n: nat, rest: seq<Step>)
    requires IsEndian(c)
    ensures Left(c, swap, n) + rest == rest
  {}

  /** One value for one code. */
  method PackOne(c: char, swap: bool, args: seq<Value>, conv: Conversion) returns (p: Packed)
    ensures p == PackStep(Step(c, swap, 1), args, conv)
  {
    if c == ' ' || c == ',' { return Packed([], 0); }
    var text := c == 'A' || c == 'z' || LengthSize(c) > 0;
    if !text && NumberSize(c) == 0 { return BadCode; }
    if args == [] { return BadArgument; }
    if text {
      var x := TextOf(args[0], conv);
      if c == 'A' {
        assert Strings(args[1..], 0, conv) == Packed([], 0) && x + [] == x;
        return Packed(x, 1);
      }
      if c == 'z' { return Packed(x + [0], 1); }
      var l := WordBytes(ToWord(|x|, LengthSize(c)), LengthSize(c), swap);
      return Packed(l + x, 1);
    }
    var n := NumberOf(args[0], conv);
    if n.None? { return BadArgument; }
    var b := WordBytes(ToWord(n.val, NumberSize(c)), NumberSize(c), swap);
    p := Packed(b, 1);
  }

  /** l_pack, where Lua converts between strings and numbers as `conv` does. */
  method LPack(f: string, args: seq<Value>, conv: Conversion) returns (p: Packed)
    ensures p == Pack(Steps(f, false), args, conv)
  {
    hide Pack, Steps, PackStep, Count, Repeated, Left, IsDigit, Onto;
    var b: Str, i, swap, pos := [], 0, false, 0;
    ghost var all := Pack(Steps(f, false), args, conv);
    PackStart(all);
    assert f[0..] == f && args[0..] == args;
    while pos < |f|
      invariant 0 <= pos <= |f| && 0 <= i <= |args| && all == Onto(b, i, Pack(Steps(f[pos..], swap), args[i..], conv))
    {
      var c := f[pos];
      var n, next := ReadCount(f, pos + 1);
      StepsNext(f, pos, swap, n, next);
      pos := next;
      if IsEndian(c) {
        EndianLeft(c, swap, n, Steps(f[pos..], if n > 0 then Swaps(c) else swap));
        if n > 0 { swap := Swaps(c); }
      } else {
        ghost var rest := Steps(f[pos..], swap);
        while n > 0
          invariant 0 <= n && 0 <= i <= |args| && all == Onto(b, i, Pack(Left(c, swap, n) + rest, args[i..], conv))
          decreases n
        {
          PackNext(c, swap, n, rest, args[i..], conv);
          n := n - 1;
          p := PackOne(c, swap, args[i..], conv);
          if !p.Packed? {
            OntoError(b, i, p);
            return;
          }
          UsedFits(Step(c, swap, 1), args[i..], conv);
          assert args[i..][p.used..] == args[i + p.used..];
          OntoOnto(b, i, p.b, p.used, Pack(Left(c, swap, n) + rest, args[i + p.used..], conv));
          b, i := b + p.b, i + p.used;
        }
        NoneLeft(c, swap, rest, args[i..], conv);
      }
    }
    assert f[pos..] == "";
    PackEnd(b, i, swap, args[i..], conv);
    p := Packed(b, i);
  }

  lemma PackStart(p: Packed)
    ensures p == Onto([], 0, p)
  {
    if p.Packed? { assert [] + p.b == p.b; }
  }

  lemma PackEnd(b: Str, i: nat, swap: bool, args: seq<Value>, conv: Conversion)
    ensures Onto(b, i, Pack(Steps("", swap), args, conv)) == Packed(b, i)
  {
    assert b + [] == b;
  }

  lemma OntoError(b: Str, i: nat, p: Packed)
    ensures !p.Packed? ==> Onto(b, i, p) == p
  {}

  lemma UsedFits(t: Step, args: seq<Value>, conv: Conversion)
    ensures PackStep(t, args, conv).Packed? ==> PackStep(t, args, conv).used <= |args|
  {}

  // Unpacking: an `A` is one step, whose count is its length.

  /** What has been unpacked already, before the rest. */
  function Joined(v: seq<Value>, u: Unpacked): Unpacked { if u.Unpacked? then u.(vals := v + u.vals) else u }

  function ToUnpack(c: char, swap: bool, n: nat): seq<Step> {
    if c == 'A' then if n == 0 then [] else [Step('A', swap, n)] else Repeated(c, swap, n)
  }

  lemma UnpackNext(c: char, swap: bool, n: nat, rest: seq<Step>, s: Str, i: int, charSigned: bool)
    requires n > 0
    ensures var one := UnpackStep(Step(c, swap, n), s, i, charSigned);
      Unpack(ToUnpack(c, swap, n) + rest, s, i, charSigned)
        == if one.Unpacked? && !one.stop then Joined(one.vals, Unpack(ToUnpack(c, swap, if c == 'A' then 0 else n - 1) + rest, s, one.pos, charSigned)) else one
  {
    hide Unpack, UnpackStep, Repeated;
    if c != 'A' { RepeatedFirst(c, swap, n); }
    var ts := ToUnpack(c, swap, n) + rest;
    UnpackFirst(ts, s, i, charSigned);
    SameStep(c, swap, n, s, i, charSigned);
    assert ts[1..] == ToUnpack(c, swap, if c == 'A' then 0 else n - 1) + rest;
  }

  lemma UnpackFirst(ts: seq<Step>, s: Str, i: int, charSigned: bool)
    requires ts != []
    ensures var one := UnpackStep(ts[0], s, i, charSigned);
      Unpack(ts, s, i, charSigned)
        == if one.Unpacked? && !one.stop then Joined(one.vals, Unpack(ts[1..], s, one.pos, charSigned)) else one
  {}

  lemma SameStep(c: char, swap: bool, n: nat, s: Str, i: int, charSigned: bool)
    ensures c != 'A' ==> UnpackStep(Step(c, swap, n), s, i, charSigned) == UnpackStep(Step(c, swap, 0), s, i, charSigned)
  {}

  /** A zero-length `A` gives an empty string; what follows is the loop over the count. */
  lemma UnpackLeft(c: char, swap: bool, n: nat, rest: seq<Step>, s: Str, i: int, charSigned: bool)
    requires !IsEndian(c)
    ensures Unpack(Left(c, swap, n) + rest, s, i, charSigned)
      == if c == 'A' && n == 0 then Joined([Text([])], Unpack(rest, s, i, charSigned)) else Unpack(ToUnpack(c, swap, n) + rest, s, i, charSigned)
  {
    if c == 'A' && n == 0 {
      var ts := Left(c, swap, n) + rest;
      assert ts[0] == Step('A', swap, 0) && ts[1..] == rest;
      UnpackFirst(ts, s, i, charSigned);
    }
  }

  lemma JoinedTwice(v: seq<Value>, w: seq<Value>, u: Unpacked)
    ensures Joined(v, Joined(w, u)) == Joined(v + w, u)
  {
    if u.Unpacked? { assert v + (w + u.vals) == v + w + u.vals; }
  }

  lemma JoinedNone(u: Unpacked)
    ensures Joined([], u) == u
  {
    if u.Unpacked? { assert [] + u.vals == u.vals; }
  }

  lemma NothingToUnpack(c: char, swap: bool, rest: seq<Step>)
    ensures ToUnpack(c, swap, 0) + rest == rest
  {}

  /** The bytes before the next zero byte (strlen). */
  method StringLength(s: Str, i: nat) returns (l: nat)
    requires i <= |s|
    ensures l == ZeroAt(s[i..])
  {
    l := 0;
    while i + l < |s| && s[i + l] != 0
      invariant i + l <= |s| && ZeroAt(s[i..]) == l + ZeroAt(s[i + l..])
    {
      assert s[i + l..][1..] == s[i + (l + 1)..];
      l := l + 1;
    }
  }

  /** One value for one code; an `A` takes all of its count. */
  method UnpackOne(c: char, swap: bool, n: nat, s: Str, i: int, charSigned: bool) returns (u: Unpacked)
    requires n > 0
    ensures u == UnpackStep(Step(c, swap, n), s, i, charSigned)
  {
    hide Ordered, FromWord, Tested, TestedStart;
    if c == ' ' || c == ',' { return Unpacked([], i, false); }
    var m, l := NumberSize(c), LengthSize(c);
    if c != 'A' && c != 'z' && l == 0 && m == 0 { return UnknownCode; }
    var access := if c == 'z' then TestedStart(i, |s|) else Tested(i, if c == 'A' then n else if l > 0 then l else m, |s|);
    if access.TooShort? { return Unpacked([], i, true); }
    if access.Outside? { return Astray; }
    if c == 'A' { return Unpacked([Text(s[i..i + n])], i + n, false); }
    if c == 'z' {
      var k := StringLength(s, i);
      return Unpacked([Text(s[i..i + k])], i + k + 1, false);
    }
    if l > 0 {
      var k := ReadWord(s[i..i + l], swap);
      access := Tested(i, l + k, |s|);
      if access.TooShort? { return Unpacked([], i, true); }
      if access.Outside? { return Astray; }
      return Unpacked([Text(s[i + l..i + l + k])], i + l + k, false);
    }
    var w := ReadWord(s[i..i + m], swap);
    u := Unpacked([Num(FromWord(w, m, IsSigned(c, charSigned)))], i + m, false);
  }

  /** l_unpack, from any position `init`, up to the first read that goes astray. */
  method LUnpack(s: Str, f: string, init: int, charSigned: bool) returns (u: Unpacked)
    ensures u == Unpack(Steps(f, false), s, init, charSigned)
  {
    hide Unpack, Steps, UnpackStep, Count, Repeated, Left, IsDigit, Joined, ToUnpack;
    var vals: seq<Value>, i, swap, pos := [], init, false, 0;
    ghost var all := Unpack(Steps(f, false), s, init, charSigned);
    JoinedNone(all);
    assert f[0..] == f;
    while pos < |f|
      invariant 0 <= pos <= |f| && all == Joined(vals, Unpack(Steps(f[pos..], swap), s, i, charSigned))
    {
      var c := f[pos];
      var n, next := ReadCount(f, pos + 1);
      StepsNext(f, pos, swap, n, next);
      pos := next;
      if IsEndian(c) {
        EndianLeft(c, swap, n, Steps(f[pos..], if n > 0 then Swaps(c) else swap));
        if n > 0 { swap := Swaps(c); }
      } else {
        ghost var rest := Steps(f[pos..], swap);
        UnpackLeft(c, swap, n, rest, s, i, charSigned);
        if n == 0 && c == 'A' {
          JoinedTwice(vals, [Text([])], Unpack(rest, s, i, charSigned));
          vals := vals + [Text([])];
        }
        NothingToUnpack(c, swap, rest);
        while n > 0
          invariant n >= 0 && all == Joined(vals, Unpack(ToUnpack(c, swap, n) + rest, s, i, charSigned))
          decreases n
        {
          UnpackNext(c, swap, n, rest, s, i, charSigned);
          u := UnpackOne(c, swap, n, s, i, charSigned);
          n := if c == 'A' then 0 else n - 1;
          if !u.Unpacked? || u.stop {
            Stopped(vals, u);
            return if u.Unpacked? then u.(vals := vals + u.vals) else u;
          }
          JoinedTwice(vals, u.vals, Unpack(ToUnpack(c, swap, n) + rest, s, u.pos, charSigned));
          vals, i := vals + u.vals, u.pos;
        }
      }
    }
    assert f[pos..] == "";
    UnpackEnd(vals, s, i, swap, charSigned);
    u := Unpacked(vals, i, false);
  }

  lemma Stopped(v: seq<Value>, u: Unpacked)
    ensures Joined(v, u) == if u.Unpacked? then u.(vals := v + u.vals) else u
  {}

  lemma UnpackEnd(v: seq<Value>, s: Str, i: int, swap: bool, charSigned: bool)
    ensures Joined(v, Unpack(Steps("", swap), s, i, charSigned)) == Unpacked(v, i, false)
  {
    assert v + [] == v;
  }

  /** Packing and unpacking with the same format, without an `A`. */
  method PackUnpack(f: string, args: seq<Value>, conv: Conversion, charSigned: bool) returns (p: Packed, u: Unpacked)
    requires 'A' !in f
    ensures p == Pack(Steps(f, false), args, conv)
    ensures p.Packed? ==> (u == Unpacked(args[..p.used], |p.b|, false) <==> AllFit(Steps(f, false), args, conv, charSigned))
  {
    hide Pack, Unpack, Steps, AllFit;
    p := LPack(f, args, conv);
    u := UnknownCode;
    if p.Packed? {
      u := LUnpack(p.b, f, 0, charSigned);
      RoundTrip(f, args, conv, charSigned);
    }
  }
}
