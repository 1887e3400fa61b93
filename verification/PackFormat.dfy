/** Packing and unpacking of binary data (lpack.c), with 32-bit integer numbers on a little-endian machine. */
module PackFormat {
  import opened Wrappers
  import opened LuaProto

  datatype Value = Num(n: int) | Text(s: Str)

  /** One thing to do for a format: a code, whether bytes are swapped, and the count of an `A`. */
  datatype Step = Step(code: char, swap: bool, count: nat)

  predicate IsDigit(c: char) { '0' <= c <= '9' }

  predicate IsEndian(c: char) { c == '<' || c == '>' || c == '=' }

  /** doendian: bytes are swapped if they are not in the order of the machine. */
  predicate Swaps(c: char) { c == '>' }

  /** The number that follows a code, and how many digits it has. */
  function Count(f: string, n: nat): (r: (nat, nat))
    ensures r.1 <= |f|
  {
    if f == "" || !IsDigit(f[0]) then (n, 0) else
    var (m, k) := Count(f[1..], 10 * n + (f[0] as int - '0' as int));
    (m, k + 1)
  }

  function Repeated(code: char, swap: bool, n: nat): seq<Step> {
    if n == 0 then [] else [Step(code, swap, 0)] + Repeated(code, swap, n - 1)
  }

  /** What a format asks for. An explicit count repeats a code; it is the length of an `A`. */
  function Steps(f: string, swap: bool): seq<Step>
    decreases |f|
  {
    if f == "" then [] else
    var (n, k) := if |f| > 1 && IsDigit(f[1]) then Count(f[1..], 0) else (1, 0);
    var rest := f[1 + k..];
    if IsEndian(f[0]) then Steps(rest, if n > 0 then Swaps(f[0]) else swap)
    else if f[0] == 'A' then [Step('A', swap, n)] + Steps(rest, swap)
    else Repeated(f[0], swap, n) + Steps(rest, swap)
  }

  /** The size of a number; 0 if the code is for none. */
  function NumberSize(c: char): nat {
    if c == 'c' || c == 'b' then 1 else if c == 'h' || c == 'H' then 2
    else if c == 'i' || c == 'I' || c == 'l' || c == 'L' || c == 'n' then 4 else 0
  }

  /** The size of the length before a string; 0 if the code is for none. */
  function LengthSize(c: char): nat { if c == 'p' then 1 else if c == 'P' then 2 else if c == 'a' then 4 else 0 }

  /** As `long`, four bytes are always signed; whether `char` is depends on the machine. */
  predicate IsSigned(c: char, charSigned: bool) { if c == 'c' then charSigned else !(c == 'b' || c == 'H') }

  function Power(m: nat): (p: nat)
    ensures p > 0
  { if m == 0 then 1 else 0x100 * Power(m - 1) }

  function Bytes(w: nat, m: nat): (b: Str)
    ensures |b| == m
  { if m == 0 then [] else [w % 0x100] + Bytes(w / 0x100, m - 1) }

  function WordOf(b: Str): nat { if b == [] then 0 else b[0] as int + 0x100 * WordOf(b[1..]) }

  function Reversed(b: Str): (r: Str)
    ensures |r| == |b|
  { if b == [] then [] else Reversed(b[1..]) + [b[0]] }

  function Ordered(b: Str, swap: bool): (r: Str)
    ensures |r| == |b|
  { if swap then Reversed(b) else b }

  /** The machine word of a number, and the number of a machine word. */
  function ToWord(x: int, m: nat): (w: nat)
    ensures w < Power(m)
  { x % Power(m) }

  function FromWord(w: nat, m: nat, signed: bool): int { if signed && 2 * w >= Power(m) then w - Power(m) else w }

  datatype Packed = Packed(b: Str, used: nat) | BadCode | BadArgument

  /** How Lua converts between strings and numbers where an argument is the other one of the two. */
  datatype Conversion = Conversion(number: Str -> Option<int>, text: int -> Str)

  /** luaL_checknumber and luaL_checklstring. */
  function NumberOf(v: Value, conv: Conversion): Option<int> { match v case Num(n) => Some(n) case Text(s) => conv.number(s) }

  function TextOf(v: Value, conv: Conversion): Str { match v case Num(n) => conv.text(n) case Text(s) => s }

  function Strings(args: seq<Value>, n: nat, conv: Conversion): (p: Packed)
    ensures p.Packed? ==> p.used <= |args|
  {
    if n == 0 then Packed([], 0)
    else if args == [] then BadArgument
    else match Strings(args[1..], n - 1, conv) case Packed(b, u) => Packed(TextOf(args[0], conv) + b, u + 1) case e => e
  }

  /** l_pack, for one step. */
  function PackStep(t: Step, args: seq<Value>, conv: Conversion): (p: Packed)
    ensures p.Packed? && t.code != 'A' ==> p.used <= 1
    ensures p.Packed? ==> p.used <= |args|
  {
    var m, l := NumberSize(t.code), LengthSize(t.code);
    if t.code == 'A' then Strings(args, t.count, conv)
    else if t.code == ' ' || t.code == ',' then Packed([], 0)
    else if t.code != 'z' && l == 0 && m == 0 then BadCode
    else if args == [] then BadArgument
    else if t.code == 'z' then Packed(TextOf(args[0], conv) + [0], 1)
    else if l > 0 then
      var x := TextOf(args[0], conv);
      Packed(Ordered(Bytes(ToWord(|x|, l), l), t.swap) + x, 1)
    else match NumberOf(args[0], conv)
      case None => BadArgument
      case Some(n) => Packed(Ordered(Bytes(ToWord(n, m), m), t.swap), 1)
  }

  function Pack(ts: seq<Step>, args: seq<Value>, conv: Conversion): (p: Packed)
    ensures p.Packed? ==> p.used <= |args|
    decreases |ts|
  {
    if ts == [] then Packed([], 0) else
    match PackStep(ts[0], args, conv)
    case Packed(b, u) => (match Pack(ts[1..], args[u..], conv) case Packed(c, v) => Packed(b + c, u + v) case e => e)
    case e => e
  }

  /** Unpacked values and the position after them; `stop` if the data ended too early; `Astray` for a
      read that is not within the data, whatever it gives. */
  datatype Unpacked = Unpacked(vals: seq<Value>, pos: int, stop: bool) | UnknownCode | Astray

  /** The bytes before the next zero byte, or all of them. */
  function ZeroAt(s: Str): (l: nat)
    ensures l <= |s|
  { if s == [] || s[0] == 0 then 0 else 1 + ZeroAt(s[1..]) }

  const UINT := 0x1_0000_0000

  /** The tests of l_unpack for data that ended too early, on unsigned numbers of 32 bits: position,
      sizes and length are added up modulo 2^32. */
  predicate Passes(i: int, n: nat, len: nat) { (i + n) % UINT <= len }

  /** A read of `n` bytes at position `i` that stays within the data. */
  predicate Inside(i: int, n: nat, len: nat) { 0 <= i && i + n <= len }

  /** The outcome of the test, and of the read if it is made and goes astray. */
  datatype Access = TooShort | Outside | Within

  function Tested(i: int, n: nat, len: nat): (a: Access)
    ensures a.Within? ==> Inside(i, n, len)
  {
    if !Passes(i, n, len) then TooShort else if Inside(i, n, len) then Within else Outside
  }

  /** The tests let through every read within the data, and another one exactly if it begins before
      the data and ends within it, or if the sum wraps around to a number not above the length: for a
      length before a string, one that is near to 2^32. */
  lemma TestExact(i: int, n: nat, len: nat)
    requires -0x8000_0000 <= i < 0x8000_0000 && n < 0x1_8000_0000 && len < 0x8000_0000
    ensures Tested(i, n, len).Outside? <==> (i < 0 <= i + n <= len) || 0 <= i + n - UINT <= len
    ensures Tested(i, n, len).Within? <==> Inside(i, n, len)
  {}

  lemma InsidePasses(i: int, n: nat, len: nat)
    requires Inside(i, n, len)
    ensures Tested(i, n, len).Within?
  {}

  /** strlen is called at every position before the end, as an unsigned number. */
  function TestedStart(i: int, len: nat): (a: Access)
    ensures a.Within? ==> 0 <= i < len
  {
    if i % UINT >= len then TooShort else if 0 <= i < len then Within else Outside
  }

  /** l_unpack, for one step, from position `i`. */
  function UnpackStep(t: Step, s: Str, i: int, charSigned: bool): Unpacked {
    var m, l := NumberSize(t.code), LengthSize(t.code);
    if t.code == 'A' then
      if t.count == 0 then Unpacked([Text([])], i, false)
      else (match Tested(i, t.count, |s|)
        case TooShort => Unpacked([], i, true)
        case Outside => Astray
        case Within => Unpacked([Text(s[i..i + t.count])], i + t.count, false))
    else if t.code == ' ' || t.code == ',' then Unpacked([], i, false)
    else if t.code == 'z' then
      (match TestedStart(i, |s|)
        case TooShort => Unpacked([], i, true)
        case Outside => Astray
        case Within => Unpacked([Text(s[i..i + ZeroAt(s[i..])])], i + ZeroAt(s[i..]) + 1, false))
    else if l > 0 then
      (match Tested(i, l, |s|)
        case TooShort => Unpacked([], i, true)
        case Outside => Astray
        case Within =>
          var n := WordOf(Ordered(s[i..i + l], t.swap));
          match Tested(i, l + n, |s|)
          case TooShort => Unpacked([], i, true)
          case Outside => Astray
          case Within => Unpacked([Text(s[i + l..i + l + n])], i + l + n, false))
    else if m > 0 then
      (match Tested(i, m, |s|)
        case TooShort => Unpacked([], i, true)
        case Outside => Astray
        case Within => Unpacked([Num(FromWord(WordOf(Ordered(s[i..i + m], t.swap)), m, IsSigned(t.code, charSigned)))], i + m, false))
    else UnknownCode
  }

  function Unpack(ts: seq<Step>, s: Str, i: int, charSigned: bool): Unpacked
    decreases |ts|
  {
    if ts == [] then Unpacked([], i, false) else
    match UnpackStep(ts[0], s, i, charSigned)
    case Unpacked(v, j, stop) => (if stop then Unpacked(v, j, true) else
      match Unpack(ts[1..], s, j, charSigned)
      case Unpacked(w, k, e) => Unpacked(v + w, k, e)
      case e => e)
    case e => e
  }

  /** The value can be told from what is packed for it. */
  predicate Fits(c: char, v: Value, charSigned: bool) {
    match v
    case Text(s) => if c == 'z' then 0 !in s else LengthSize(c) > 0 && |s| < Power(LengthSize(c))
    case Num(x) =>
      var p: int := Power(NumberSize(c));
      NumberSize(c) > 0 && if IsSigned(c, charSigned) then -p <= 2 * x < p else 0 <= x < p
  }

  predicate AllFit(ts: seq<Step>, args: seq<Value>, conv: Conversion, charSigned: bool)
    decreases |ts|
  {
    ts == [] || (match PackStep(ts[0], args, conv)
      case Packed(b, u) => (u == 1 && args != [] ==> Fits(ts[0].code, args[0], charSigned)) && AllFit(ts[1..], args[u..], conv, charSigned)
      case _ => false)
  }
}
