/** Table sizes in instructions: "floating point bytes" (luaO_int2fb and luaO_fb2int in lobject.c). */
module FloatingByte {
  import opened TabSizes

  const UINT_MAX := 0xFFFF_FFFF

  /** What a code stands for: eeeeexxx is xxx, or 1xxx shifted to the left. */
  function Scaled(q: nat): nat {
    var e := q / 8 % 32;
    if e == 0 then q else (q % 8 + 8) * Pow2(e - 1)
  }

  /** A number as an int of 32 bits. */
  function Int32(n: nat): int { var m := n % 0x1_0000_0000; if m < 0x8000_0000 then m else m - 0x1_0000_0000 }

  /** luaO_fb2int: the result is an int, past which the shift overflows. */
  function Fb2Int(q: nat): int { Int32(Scaled(q)) }

  lemma Parts(e: nat, x: nat)
    requires e < 31 && 8 <= x < 16
    ensures Scaled((e + 1) * 8 + (x - 8)) == x * Pow2(e)
  {
    hide Pow2;
    Fields(e + 1, x - 8);
  }

  lemma Fields(a: nat, b: nat)
    requires b < 8 && a < 32
    ensures (a * 8 + b) / 8 % 32 == a && (a * 8 + b) % 8 == b
  {}

  /** `x` is the original number, halved `e` times and rounded up each time. */
  ghost predicate Halved(x: nat, e: nat, original: nat) {
    x * Pow2(e) >= original && (x > 0 ==> (x - 1) * Pow2(e) < original)
  }

  lemma HalveOn(x: nat, e: nat, original: nat)
    requires Halved(x, e, original) && x > 0
    ensures Halved((x + 1) / 2, e + 1, original)
  {
    hide Pow2;
    var y, p := (x + 1) / 2, Pow2(e);
    PowNext(e);
    assert y * Pow2(e + 1) == (2 * y) * p;
    assert (y - 1) * Pow2(e + 1) == (2 * y - 2) * p;
    if x == 2 * y {
      assert (2 * y - 2) * p == (x - 1) * p - p;
    } else {
      assert x == 2 * y - 1;
      assert (2 * y) * p == x * p + p && (2 * y - 2) * p == (x - 1) * p;
    }
  }

  /** After halving, the code stands for the least number that a code can have and that is not smaller. */
  ghost predicate LeastCode(r: nat, x: nat) { Scaled(r) >= x && (r > 0 ==> Scaled(r - 1) < x) }

  lemma LeastHalved(x: nat, e: nat, original: nat)
    requires 0 < e < 31 && 8 <= x < 16 && Halved(x, e, original)
    requires x == 8 ==> Halved(16, e - 1, original)
    ensures LeastCode((e + 1) * 8 + (x - 8), original)
  {
    Parts(e, x);
    if x > 8 { Parts(e, x - 1); } else { Parts(e - 1, 15); }
  }

  /** Codes are in the order of what they stand for, so that no smaller one would do. */
  lemma {:induction false} ScaledOrdered(q: nat, r: nat)
    requires q < r < 248
    ensures Scaled(q) < Scaled(r)
    decreases r
  {
    NextLarger(r - 1);
    if q < r - 1 { ScaledOrdered(q, r - 1); }
  }

  lemma NextLarger(q: nat)
    requires q < 247
    ensures Scaled(q) < Scaled(q + 1)
  {
    var e, x := q / 8, q % 8 + 8;
    if e == 0 {
      if q == 7 { Parts(0, 8); PowZero(); }
    } else {
      Parts(e - 1, x);
      if x < 15 { Parts(e - 1, x + 1); MulLess(x, x + 1, Pow2(e - 1)); }
      else {
        Parts(e, 8);
        PowNext(e - 1);
      }
    }
  }

  lemma MulLess(a: nat, b: nat, p: nat)
    requires a < b && p > 0
    ensures a * p < b * p
  {}

  /** Half of an unsigned integer, rounded up: one more may wrap around to 0. */
  function Half(x: nat): nat { (x + 1) % 0x1_0000_0000 / 2 }

  lemma HalfIs(x: nat)
    requires x <= UINT_MAX
    ensures Half(x) == if x == UINT_MAX then 0 else (x + 1) / 2
  {}

  /** `r` is the least code that stands for `x` or more. */
  ghost predicate CodeOf(r: nat, x: nat) { r < 248 && Scaled(r) >= x && forall q :: 0 <= q < r ==> Scaled(q) < x }

  /** The largest number whose code is read back as an int that is not smaller. */
  const LARGEST := 0x7800_0000

  /** luaO_int2fb, on unsigned integers of 32 bits: it rounds up to the next code, but for the largest
      number, for which the sum overflows; luaO_fb2int reads that as a number which is not smaller
      exactly up to `LARGEST`. */
  method Int2Fb(x0: nat) returns (r: nat)
    requires x0 <= UINT_MAX
    ensures Fb2Int(r) >= x0 <==> x0 <= LARGEST
    ensures x0 <= LARGEST ==> r < 232 && forall q :: 0 <= q < r ==> Fb2Int(q) < x0
    ensures if x0 < UINT_MAX then CodeOf(r, x0) else r == 0
  {
    hide Scaled, Fb2Int, Pow2, Halved, Half;
    var x, e := x0, 0;
    HalvedStart(x0);
    ghost var before := 0;
    while x >= 16
      invariant e > 0 ==> (x0 == UINT_MAX ==> x == 0) && (x0 < UINT_MAX ==> 8 <= x && (before + 1) / 2 == x && before >= 16 && Halved(before, e - 1, x0))
      invariant e == 0 ==> x == x0
      invariant x0 < UINT_MAX ==> x < UINT_MAX && Halved(x, e, x0)
      decreases x
    {
      before := x;
      if x0 < UINT_MAX { HalveOn(x, e, x0); }
      HalfIs(x);
      x := Half(x);
      e := e + 1;
    }
    if x0 == UINT_MAX {
      ZeroCode();
      return 0;
    }
    Rounded(x, e, before, x0);
    r := if x < 8 then x else (e + 1) * 8 + (x - 8);
    ReadBack(r, x0);
  }

  lemma Rounded(x: nat, e: nat, before: nat, original: nat)
    requires original < UINT_MAX && x < 16 && Halved(x, e, original)
    requires if e == 0 then x == original else 8 <= x == (before + 1) / 2 && before >= 16 && Halved(before, e - 1, original)
    ensures var r := if x < 8 then x else (e + 1) * 8 + (x - 8);
      r < 248 && Scaled(r) >= original && forall q :: 0 <= q < r ==> Scaled(q) < original
  {
    hide Scaled, Pow2, Halved;
    Shallow(x, e, original);
    if e == 0 { SmallCodes(original); }
    else {
      LeastHalved(x, e, original);
      Least((e + 1) * 8 + (x - 8), original);
    }
  }

  lemma HalvedStart(x: nat)
    ensures Halved(x, 0, x)
  {
    PowZero();
  }

  lemma ZeroCode()
    ensures Scaled(0) == 0 && Fb2Int(0) == 0
  {
    hide Pow2;
  }

  /** Numbers of 32 bits are halved 28 times at most. */
  lemma Shallow(x: nat, e: nat, original: nat)
    requires Halved(x, e, original) && original < UINT_MAX && (e > 0 ==> x >= 8)
    ensures e < 30
  {
    hide Pow2;
    if e >= 30 {
      PowMono(30, e);
      Pow30();
      MulMono(7, x - 1, Pow2(e));
    }
  }

  lemma Pow30()
    ensures Pow2(30) == 0x4000_0000
  {
    hide Pow2;
    Pow8();
    PowAdd(8, 8);
    PowAdd(16, 8);
    PowAdd(24, 6);
  }

  lemma MulMono(a: nat, b: nat, p: nat)
    requires a <= b
    ensures a * p <= b * p
  {}

  lemma Least(r: nat, x: nat)
    requires LeastCode(r, x) && r < 248
    ensures forall q :: 0 <= q < r ==> Scaled(q) < x
  {
    forall q | 0 <= q < r ensures Scaled(q) < x { if q < r - 1 { ScaledOrdered(q, r - 1); } }
  }

  lemma SmallCodes(x: nat)
    requires x < 16
    ensures Scaled(x) == x && forall q :: 0 <= q < x ==> Scaled(q) < x
  {
    hide Pow2;
    PowZero();
    if x >= 8 { Parts(0, x); }
    forall q | 0 <= q < x ensures Scaled(q) < x { ScaledOrdered(q, x); }
  }

  lemma Powers()
    ensures Pow2(27) == 0x800_0000 && Pow2(28) == 0x1000_0000 && Pow2(29) == 0x2000_0000
  {
    hide Pow2;
    Pow30();
    PowNext(29);
    PowNext(28);
    PowNext(27);
  }

  /** The codes at which the int overflows: 232 to 239 are negative, 240 is 0. */
  lemma Overflown()
    ensures Scaled(231) == LARGEST && Scaled(232) == 0x8000_0000 && Scaled(239) == 0xF000_0000 && Scaled(240) == 0x1_0000_0000
    ensures forall q :: 232 <= q < 240 ==> Fb2Int(q) < 0
    ensures Fb2Int(240) == 0
  {
    hide Pow2, Scaled;
    Powers();
    Parts(27, 15);
    Parts(28, 8);
    Parts(28, 15);
    Parts(29, 8);
    forall q | 232 <= q < 240 ensures Fb2Int(q) < 0 { Parts(28, q - 224); }
  }

  /** Up to there the int is what the code stands for. */
  lemma InRange(q: nat)
    requires q < 232
    ensures Fb2Int(q) == Scaled(q) <= LARGEST
  {
    hide Scaled;
    Overflown();
    if q < 231 { ScaledOrdered(q, 231); }
  }

  /** luaO_fb2int is strictly increasing on the codes below 232, and not on one more. */
  lemma Ordered(r: nat)
    requires 0 < r < 248
    ensures (forall p, q :: 0 <= p < q <= r ==> Fb2Int(p) < Fb2Int(q)) <==> r < 232
  {
    hide Scaled;
    Overflown();
    InRange(231);
    if r < 232 {
      forall p, q | 0 <= p < q <= r ensures Fb2Int(p) < Fb2Int(q) {
        InRange(p);
        InRange(q);
        ScaledOrdered(p, q);
      }
    } else { assert Fb2Int(231) > Fb2Int(232); }
  }

  lemma ReadBack(r: nat, x: nat)
    requires CodeOf(r, x) && x < UINT_MAX
    ensures Fb2Int(r) >= x <==> x <= LARGEST
    ensures x <= LARGEST ==> r < 232 && forall q :: 0 <= q < r ==> Fb2Int(q) < x
  {
    hide Scaled, Fb2Int;
    Overflown();
    if r < 232 {
      InRange(r);
      forall q | 0 <= q < r ensures Fb2Int(q) < x { InRange(q); }
    }
  }

  /** Numbers that are not read back: as INT_MIN, and as 0. */
  lemma TooLarge()
    ensures CodeOf(232, 0x7800_0001) && Fb2Int(232) == -0x8000_0000
    ensures CodeOf(240, 0xFFFF_FFFE) && Fb2Int(240) == 0
  {
    hide Scaled;
    Overflown();
    forall q | 0 <= q < 240 ensures Scaled(q) <= Scaled(239) && (q < 232 ==> Scaled(q) <= Scaled(231)) {
      if q < 231 { ScaledOrdered(q, 231); }
      if q < 239 { ScaledOrdered(q, 239); }
    }
  }
}
