/** How many slots the array part of a table gets: the slice histogram and computesizes in ltable.c,
    with luaO_log2. */
module TabSizes {
  const MAXBITS: nat := 26

  function Pow2(n: nat): (r: nat)
    ensures r >= 1
  {
    if n == 0 then 1 else 2 * Pow2(n - 1)
  }

  lemma PowZero()
    ensures Pow2(0) == 1
  {}

  lemma {:induction false} PowMono(a: nat, b: nat)
    requires a <= b
    ensures Pow2(a) <= Pow2(b) && (a < b ==> 2 * Pow2(a) <= Pow2(b))
    decreases b - a
  {
    if a < b { PowMono(a, b - 1); }
  }

  lemma {:induction false} PowAdd(a: nat, b: nat)
    ensures Pow2(a + b) == Pow2(a) * Pow2(b)
    decreases a
  {
    if a > 0 { PowAdd(a - 1, b); }
  }

  /** The table log_2: the number of bits of a byte. */
  function Bits(x: nat): (b: nat)
    requires x < 256
    ensures b <= 8 && x < Pow2(b) && (x > 0 ==> b > 0 && Pow2(b - 1) <= x) && (x == 0 ==> b == 0)
  {
    Pow8();
    if x < 1 then 0 else if x < 2 then 1 else if x < 4 then 2 else if x < 8 then 3 else if x < 16 then 4
    else if x < 32 then 5 else if x < 64 then 6 else if x < 128 then 7 else 8
  }

  lemma Pow8()
    ensures Pow2(0) == 1 && Pow2(1) == 2 && Pow2(2) == 4 && Pow2(3) == 8 && Pow2(4) == 16
    ensures Pow2(5) == 32 && Pow2(6) == 64 && Pow2(7) == 128 && Pow2(8) == 256
  {
    assert Pow2(4) == 2 * Pow2(3) && Pow2(3) == 8;
    assert Pow2(6) == 2 * Pow2(5) && Pow2(5) == 2 * Pow2(4);
    assert Pow2(8) == 2 * Pow2(7) && Pow2(7) == 2 * Pow2(6);
  }

  /** luaO_log2: the logarithm, rounded down; -1 for 0. */
  method Log2(n: nat) returns (l: int)
    ensures n == 0 ==> l == -1
    ensures n > 0 ==> l >= 0 && Pow2(l) <= n < Pow2(l + 1)
  {
    var x := n;
    l := -1;
    while x >= 256
      invariant l >= -1 && x * Pow2(l + 1) <= n < (x + 1) * Pow2(l + 1) && (n == 0 ==> x == 0 && l == -1) && (n > 0 ==> x > 0)
    {
      LogStep(n, x, l + 1);
      x := x / 256;
      l := l + 8;
    }
    ghost var m: nat := l + 1;
    var b := Bits(x);
    LogEnd(n, x, m, b);
    l := l + b;
  }

  lemma LogStep(n: nat, x: nat, m: nat)
    requires x * Pow2(m) <= n < (x + 1) * Pow2(m)
    ensures x / 256 * Pow2(m + 8) <= n < (x / 256 + 1) * Pow2(m + 8)
  {
    PowAdd(8, m);
    Pow8();
    var p := Pow2(m);
    var q := x / 256;
    assert Pow2(m + 8) == 256 * p;
    assert 256 * q <= x && x + 1 <= 256 * (q + 1);
    MulMono(256 * q, x, p);
    MulMono(x + 1, 256 * (q + 1), p);
  }

  lemma MulMono(a: int, b: int, p: nat)
    requires a <= b
    ensures a * p <= b * p
  {}

  lemma LogEnd(n: nat, x: nat, m: nat, b: nat)
    requires x * Pow2(m) <= n < (x + 1) * Pow2(m) && x < 256 && b == Bits(x)
    ensures x > 0 ==> b > 0 && Pow2(m + b - 1) <= n < Pow2(m + b)
  {
    if x > 0 {
      PowAdd(b - 1, m);
      PowAdd(b, m);
      MulMono(Pow2(b - 1), x, Pow2(m));
      MulMono(x + 1, Pow2(b), Pow2(m));
    }
  }

  /** The slice of a positive key: the least `i` with `k <= 2^i`. */
  ghost predicate InSlice(k: int, i: nat) { k <= Pow2(i) && (if i == 0 then k >= 1 else Pow2(i - 1) < k) }

  /** ceillog2. */
  method CeilLog2(k: nat) returns (i: nat)
    requires k >= 1
    ensures InSlice(k, i)
  {
    var l := Log2(k - 1);
    i := l + 1;
  }

  lemma SliceUnique(k: int, i: nat, j: nat)
    requires InSlice(k, i) && InSlice(k, j)
    ensures i == j
  {
    if i < j { PowMono(i, j - 1); } else if j < i { PowMono(j, i - 1); }
  }

  ghost function Slice(s: set<int>, i: nat): set<int> { set k | k in s && InSlice(k, i) }

  /** The keys among 1..n. */
  ghost function UpTo(s: set<int>, n: int): set<int> { set k | k in s && 1 <= k <= n }

  /** `nums` is the slice histogram of `s`. */
  ghost predicate Histogram(nums: seq<nat>, s: set<int>) {
    |nums| == MAXBITS + 1 && forall i :: 0 <= i <= MAXBITS ==> nums[i] == |Slice(s, i)|
  }

  lemma EmptySlices()
    ensures forall i: nat :: Slice({}, i) == {}
  {}

  /** Counting one more key. */
  lemma SliceAdd(s: set<int>, k: int, i: nat, j: nat)
    requires k !in s && InSlice(k, i)
    ensures |Slice(s + {k}, j)| == |Slice(s, j)| + if i == j then 1 else 0
  {
    if i == j {
      assert Slice(s + {k}, j) == Slice(s, j) + {k};
    } else {
      if InSlice(k, j) { SliceUnique(k, i, j); }
      assert Slice(s + {k}, j) == Slice(s, j);
    }
  }

  lemma UpToSlice(s: set<int>, i: nat)
    ensures |UpTo(s, Pow2(i))| == (if i == 0 then 0 else |UpTo(s, Pow2(i - 1))|) + |Slice(s, i)|
  {
    if i == 0 {
      assert UpTo(s, Pow2(0)) == Slice(s, 0);
    } else {
      var a := UpTo(s, Pow2(i - 1));
      var b := Slice(s, i);
      assert UpTo(s, Pow2(i)) == a + b;
      assert a !! b;
    }
  }

  lemma {:induction false} UpToBound(s: set<int>, n: nat)
    ensures |UpTo(s, n)| <= n
    decreases n
  {
    if n == 0 {
      assert UpTo(s, 0) == {};
    } else {
      UpToBound(s, n - 1);
      assert UpTo(s, n) <= UpTo(s, n - 1) + {n};
      SubsetSize(UpTo(s, n), UpTo(s, n - 1) + {n});
    }
  }

  lemma {:induction false} SubsetSize<T>(a: set<T>, b: set<T>)
    requires a <= b
    ensures |a| <= |b|
    decreases |a|
  {
    if a != {} {
      var x :| x in a;
      SubsetSize(a - {x}, b - {x});
    }
  }

  lemma AllUpTo(s: set<int>, n: int)
    requires forall k :: k in s ==> 1 <= k
    ensures |UpTo(s, n)| <= |s| && (|UpTo(s, n)| == |s| ==> UpTo(s, n) == s)
  {
    SubsetSize(UpTo(s, n), s);
    if UpTo(s, n) != s {
      var x :| x in s && x !in UpTo(s, n);
      SubsetSize(UpTo(s, n), s - {x});
    }
  }

  /** More than half of the slots 1..n would be in use. */
  ghost predicate HalfUsed(s: set<int>, n: nat) { 2 * |UpTo(s, n)| > n }

  /** The largest power of two more than half in use, or 0. */
  ghost predicate BestSize(s: set<int>, n: nat) {
    && (n == 0 || (HalfUsed(s, n) && exists i: nat :: n == Pow2(i)))
    && (forall i: nat :: HalfUsed(s, Pow2(i)) ==> Pow2(i) <= n)
  }

  ghost predicate PowerBelow(n: nat, i: nat) { n == 0 || exists j: nat :: j < i && n == Pow2(j) }

  /** `n` is the best size of those below 2^i. */
  ghost predicate BestBelow(s: set<int>, i: nat, n: nat) {
    && PowerBelow(n, i) && (n > 0 ==> HalfUsed(s, n))
    && (forall j: nat :: j < i && HalfUsed(s, Pow2(j)) ==> Pow2(j) <= n)
  }

  /** One turn of the loop: 2^i is taken if more than half of it is in use. */
  lemma NextSize(s: set<int>, i: nat, n: nat, a: nat)
    requires BestBelow(s, i, n) && a == |UpTo(s, Pow2(i))|
    ensures BestBelow(s, i + 1, if a > Pow2(i) / 2 then Pow2(i) else n)
  {
    HalfOdd(i);
    forall j: nat | j < i + 1 && HalfUsed(s, Pow2(j)) ensures Pow2(j) <= if a > Pow2(i) / 2 then Pow2(i) else n {
      PowMono(j, i);
    }
  }

  lemma HalfOdd(i: nat)
    ensures forall a: nat :: a > Pow2(i) / 2 <==> 2 * a > Pow2(i)
  {}

  /** An empty slice changes nothing. */
  lemma EmptySlice(s: set<int>, i: nat)
    requires |Slice(s, i)| == 0
    ensures |UpTo(s, Pow2(i))| <= Pow2(i) / 2
  {
    UpToSlice(s, i);
    if i > 0 { UpToBound(s, Pow2(i - 1)); }
  }

  /** computesizes: its early exits miss no larger size. */
  method ComputeSizes(nums: seq<nat>, narray: nat, ghost s: set<int>) returns (n: nat, na: nat)
    requires Histogram(nums, s) && narray == |s| && forall k :: k in s ==> 1 <= k <= Pow2(MAXBITS)
    ensures BestSize(s, n) && na == |UpTo(s, n)| && n <= Pow2(MAXBITS)
  {
    hide HalfUsed, Slice, UpTo, InSlice, BestBelow, BestSize, Pow2;
    var i := 0;
    var twotoi := 1;
    var a := 0;
    n, na := 0, 0;
    NoneUpTo(s);
    PowNext(0);
    while twotoi / 2 < narray
      invariant twotoi == Pow2(i) && i <= MAXBITS + 1
      invariant a == (if i == 0 then 0 else |UpTo(s, Pow2(i - 1))|) && na == |UpTo(s, n)| && BestBelow(s, i, n)
      decreases MAXBITS + 1 - i
    {
      InBounds(s, i);
      UpToSlice(s, i);
      NextSize(s, i, n, |UpTo(s, Pow2(i))|);
      if nums[i] > 0 {
        a := a + nums[i];
        if a > twotoi / 2 { n, na := twotoi, a; }
      } else {
        EmptySlice(s, i);
      }
      if a == narray {
        CountedAll(s, i, n);
        return;
      }
      PowNext(i);
      i := i + 1;
      twotoi := twotoi * 2;
    }
    NoneLarger(s, i, n);
  }

  lemma PowNext(i: nat)
    ensures Pow2(0) == 1 && Pow2(i + 1) == 2 * Pow2(i)
  {}

  lemma CountedAll(s: set<int>, i: nat, n: nat)
    requires BestBelow(s, i + 1, n) && |UpTo(s, Pow2(i))| == |s| && i <= MAXBITS && forall k :: k in s ==> 1 <= k
    ensures BestSize(s, n) && n <= Pow2(MAXBITS)
  {
    hide HalfUsed, Pow2, UpTo;
    forall j: nat | HalfUsed(s, Pow2(j)) ensures Pow2(j) <= n { Counted(s, i, j, n); }
    SizeBound(n, i + 1);
  }

  lemma NoneLarger(s: set<int>, i: nat, n: nat)
    requires BestBelow(s, i, n) && Pow2(i) / 2 >= |s| && i <= MAXBITS + 1 && forall k :: k in s ==> 1 <= k
    ensures BestSize(s, n) && n <= Pow2(MAXBITS)
  {
    hide HalfUsed, Pow2, UpTo;
    forall j: nat | HalfUsed(s, Pow2(j)) ensures Pow2(j) <= n { TooLarge(s, i, j, n); }
    SizeBound(n, i);
  }

  lemma NoneUpTo(s: set<int>)
    ensures UpTo(s, 0) == {} && BestBelow(s, 0, 0)
  {}

  lemma InBounds(s: set<int>, i: nat)
    requires Pow2(i) / 2 < |s| && forall k :: k in s ==> 1 <= k <= Pow2(MAXBITS)
    ensures i <= MAXBITS
  {
    assert s == UpTo(s, Pow2(MAXBITS));
    UpToBound(s, Pow2(MAXBITS));
    PowMono(MAXBITS, if i > MAXBITS then i - 1 else MAXBITS);
  }

  lemma SizeBound(n: nat, i: nat)
    requires i <= MAXBITS + 1 && PowerBelow(n, i)
    ensures n <= Pow2(MAXBITS)
  {
    hide Pow2;
    if n > 0 { var j: nat :| j < i && n == Pow2(j); PowMono(j, MAXBITS); }
  }

  /** Once all keys are counted, no larger size is more than half in use. */
  lemma Counted(s: set<int>, i: nat, j: nat, n: nat)
    requires |UpTo(s, Pow2(i))| == |s| && (forall k :: k in s ==> 1 <= k) && HalfUsed(s, Pow2(j))
    requires forall m: nat :: m <= i && HalfUsed(s, Pow2(m)) ==> Pow2(m) <= n
    ensures Pow2(j) <= n
  {
    if j > i {
      UpToBound(s, Pow2(i));
      AllUpTo(s, Pow2(j));
      PowMono(i, j);
    }
  }

  lemma TooLarge(s: set<int>, i: nat, j: nat, n: nat)
    requires Pow2(i) / 2 >= |s| && (forall k :: k in s ==> 1 <= k) && HalfUsed(s, Pow2(j))
    requires forall m: nat :: m < i && HalfUsed(s, Pow2(m)) ==> Pow2(m) <= n
    ensures Pow2(j) <= n
  {
    if j >= i { AllUpTo(s, Pow2(j)); PowMono(i, j); }
  }
}
