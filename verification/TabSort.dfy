/** table.sort (ltablib.c): quicksort that calls itself for the smaller part only. */
module TabSort {
  import opened TabSizes

  /** What the comparison function must be: a strict weak order. */
  ghost predicate StrictWeak<T(!new)>(less: (T, T) -> bool) {
    && (forall x :: !less(x, x))
    && (forall x, y, z :: less(x, y) && less(y, z) ==> less(x, z))
    && (forall x, y, z :: !less(x, y) && !less(y, x) && !less(y, z) && !less(z, y) ==> !less(x, z) && !less(z, x))
  }

  predicate Le<T>(less: (T, T) -> bool, x: T, y: T) { !less(y, x) }

  lemma LeThen<T(!new)>(less: (T, T) -> bool, x: T, y: T, z: T)
    requires StrictWeak(less) && Le(less, x, y) && Le(less, y, z)
    ensures Le(less, x, z)
  {}

  lemma LessLe<T(!new)>(less: (T, T) -> bool, x: T, y: T)
    requires StrictWeak(less) && less(x, y)
    ensures Le(less, x, y)
  {}

  ghost predicate Sorted<T>(less: (T, T) -> bool, s: seq<T>, l: int, u: int)
    requires 0 <= l && u < |s|
  { forall p, q :: l <= p < q <= u ==> Le(less, s[p], s[q]) }

  /** `t` is `s` with the elements from `l` to `u` in another order. */
  ghost predicate Rearranged<T>(s: seq<T>, t: seq<T>, l: nat, u: int) {
    && |s| == |t| && l - 1 <= u < |s| && (forall k :: 0 <= k < |s| && !(l <= k <= u) ==> s[k] == t[k])
    && multiset(s[l..u + 1]) == multiset(t[l..u + 1])
  }

  lemma RearrangedMember<T>(s: seq<T>, t: seq<T>, l: nat, u: int, k: int) returns (n: int)
    requires Rearranged(s, t, l, u) && l <= k <= u
    ensures l <= n <= u && s[n] == t[k]
  {
    assert t[l..u + 1][k - l] == t[k];
    assert t[k] in multiset(t[l..u + 1]);
    assert t[k] in s[l..u + 1];
    var m :| 0 <= m < |s[l..u + 1]| && s[l..u + 1][m] == t[k];
    n := l + m;
  }

  lemma RearrangedThen<T>(s: seq<T>, t: seq<T>, v: seq<T>, l: nat, u: int)
    requires Rearranged(s, t, l, u) && Rearranged(t, v, l, u)
    ensures Rearranged(s, v, l, u)
  {}

  lemma RearrangedWithin<T>(s: seq<T>, t: seq<T>, l: nat, u: int, l': nat, u': int)
    requires Rearranged(s, t, l, u) && l' <= l && u <= u' < |s|
    ensures Rearranged(s, t, l', u')
  {
    assert s[l'..u' + 1] == s[l'..l] + s[l..u + 1] + s[u + 1..u' + 1];
    assert t[l'..u' + 1] == t[l'..l] + t[l..u + 1] + t[u + 1..u' + 1];
    assert s[l'..l] == t[l'..l] && s[u + 1..u' + 1] == t[u + 1..u' + 1];
  }

  lemma Unmoved<T>(s: seq<T>, l: nat, u: int)
    requires l - 1 <= u < |s|
    ensures Rearranged(s, s, l, u)
  {}

  function Swapped<T>(s: seq<T>, i: nat, j: nat): seq<T>
    requires i < |s| && j < |s|
  { s[i := s[j]][j := s[i]] }

  lemma SwapRearranges<T>(s: seq<T>, i: nat, j: nat, l: nat, u: int)
    requires l <= i <= u < |s| && l <= j <= u
    ensures Rearranged(s, Swapped(s, i, j), l, u)
  {
    var t := Swapped(s, i, j);
    if i == j { assert t == s; }
    else if i < j { SwapApart(s, i, j, l, u); }
    else {
      SwapApart(s, j, i, l, u);
      assert t == Swapped(s, j, i);
    }
  }

  lemma SwapApart<T>(s: seq<T>, i: nat, j: nat, l: nat, u: int)
    requires l <= i < j <= u < |s|
    ensures Rearranged(s, Swapped(s, i, j), l, u)
  {
    var t := Swapped(s, i, j);
    assert s[l..u + 1] == s[l..i] + [s[i]] + s[i + 1..j] + [s[j]] + s[j + 1..u + 1];
    assert t[l..u + 1] == s[l..i] + [s[j]] + s[i + 1..j] + [s[i]] + s[j + 1..u + 1];
  }

  /** set2: the two elements change places. */
  method Set2<T>(a: array<T>, i: nat, j: nat, ghost l: nat, ghost u: int)
    requires l <= i <= u < a.Length && l <= j <= u
    modifies a
    ensures a[i] == old(a[j]) && a[j] == old(a[i]) && forall k :: 0 <= k < a.Length && k != i && k != j ==> a[k] == old(a[k])
    ensures Rearranged(old(a[..]), a[..], l, u)
  {
    hide Rearranged;
    SwapRearranges(a[..], i, j, l, u);
    ghost var s := a[..];
    a[i], a[j] := a[j], a[i];
    assert a[..] == Swapped(s, i, j);
  }

  /** The first and the last element are sorted. */
  method SortEnds<T(!new)>(a: array<T>, l: nat, u: nat, less: (T, T) -> bool)
    requires StrictWeak(less) && l < u < a.Length
    modifies a
    ensures Rearranged(old(a[..]), a[..], l, u) && Le(less, a[l], a[u])
  {
    hide Rearranged, StrictWeak, Swapped;
    Unmoved(a[..], l, u);
    if less(a[u], a[l]) {
      LessLe(less, a[u], a[l]);
      Set2(a, l, u, l, u);
    }
  }

  /** The middle element is put between them. */
  method SortMiddle<T(!new)>(a: array<T>, l: nat, u: nat, less: (T, T) -> bool)
    requires StrictWeak(less) && l + 2 <= u < a.Length && Le(less, a[l], a[u])
    modifies a
    ensures Rearranged(old(a[..]), a[..], l, u)
    ensures Le(less, a[l], a[(l + u) / 2]) && Le(less, a[(l + u) / 2], a[u]) && Le(less, a[l], a[u])
  {
    hide Rearranged, StrictWeak, Swapped;
    Unmoved(a[..], l, u);
    var i := (l + u) / 2;
    if less(a[i], a[l]) {
      LessLe(less, a[i], a[l]);
      LeThen(less, a[i], a[l], a[u]);
      Set2(a, i, l, l, u);
    } else if less(a[u], a[i]) {
      LessLe(less, a[u], a[i]);
      Set2(a, i, u, l, u);
    }
  }

  ghost predicate Below<T>(less: (T, T) -> bool, s: seq<T>, l: int, i: int, pivot: T)
    requires 0 <= l && i < |s|
  { forall k :: l <= k <= i ==> Le(less, s[k], pivot) }

  ghost predicate Above<T>(less: (T, T) -> bool, s: seq<T>, j: int, u: int, pivot: T)
    requires 0 <= j && u < |s|
  { forall k :: j <= k <= u ==> Le(less, pivot, s[k]) }

  /** The pivot comes to place `i`, with smaller elements before it and larger ones after it. */
  method Partition<T(!new)>(a: array<T>, l: nat, u: nat, less: (T, T) -> bool) returns (i: int)
    requires StrictWeak(less) && l + 3 <= u < a.Length
    requires Le(less, a[l], a[(l + u) / 2]) && Le(less, a[(l + u) / 2], a[u])
    modifies a
    ensures Rearranged(old(a[..]), a[..], l, u) && l < i < u
    ensures Below(less, a[..], l, i - 1, a[i]) && Above(less, a[..], i + 1, u, a[i])
  {
    hide Rearranged, StrictWeak, Swapped;
    ghost var s := a[..];
    var pivot := a[(l + u) / 2];
    Irreflexive(less, pivot);
    Set2(a, (l + u) / 2, u - 1, l, u);
    i := l;
    var j: int := u - 1;
    while true
      invariant l <= i <= j <= u - 1 && (i == j ==> l < i && j <= u - 2)
      invariant Rearranged(s, a[..], l, u) && a[u - 1] == pivot
      invariant Below(less, a[..], l, i, pivot) && Above(less, a[..], j, u, pivot)
      decreases j - i
    {
      ghost var i0, j0, t := i, j, a[..];
      i := i + 1;
      while less(a[i], pivot)
        invariant a[..] == t && l < i <= u - 1 && i0 < i && (i0 < j0 ==> i <= j0) && (i0 == j0 ==> i == j0 + 1) && Below(less, a[..], l, i - 1, pivot)
        decreases u - i
      {
        if i > u { assert false; }  // invalid order function for sorting
        LessLe(less, a[i], pivot);
        i := i + 1;
      }
      j := j - 1;
      while less(pivot, a[j])
        invariant a[..] == t && l <= j < j0 && (i0 < j0 ==> i0 <= j) && (i0 == j0 ==> j == i0 - 1) && Above(less, a[..], j + 1, u, pivot)
        decreases j
      {
        if j < l { assert false; }  // invalid order function for sorting
        LessLe(less, pivot, a[j]);
        j := j - 1;
      }
      if j < i { break; }
      Set2(a, i, j, l, u);
      RearrangedThen(s, t, a[..], l, u);
    }
    ghost var t := a[..];
    Set2(a, u - 1, i, l, u);
    RearrangedThen(s, t, a[..], l, u);
  }

  lemma Irreflexive<T(!new)>(less: (T, T) -> bool, x: T)
    requires StrictWeak(less)
    ensures Le(less, x, x)
  {}

  /** Of two elements in `l0`..`u0` that are not both in `l`..`u`, the first is not greater. */
  ghost predicate Placed<T>(less: (T, T) -> bool, s: seq<T>, l0: int, u0: int, l: int, u: int)
    requires 0 <= l0 && u0 < |s|
  { forall p, q :: l0 <= p < q <= u0 && !(l <= p && q <= u) ==> Le(less, s[p], s[q]) }

  lemma PlacedRearranged<T(!new)>(less: (T, T) -> bool, s: seq<T>, t: seq<T>, l0: nat, u0: int, l: nat, u: int)
    requires u0 < |s| && Rearranged(s, t, l, u) && l0 <= l && u <= u0 && Placed(less, s, l0, u0, l, u)
    ensures Placed(less, t, l0, u0, l, u)
  {
    hide StrictWeak;
    forall p, q | l0 <= p < q <= u0 && !(l <= p && q <= u) ensures Le(less, t[p], t[q]) {
      if l <= p <= u {
        var n := RearrangedMember(s, t, l, u, p);
      } else if l <= q <= u {
        var n := RearrangedMember(s, t, l, u, q);
      }
    }
  }

  lemma BelowRearranged<T(!new)>(less: (T, T) -> bool, s: seq<T>, t: seq<T>, l: nat, u: int, pivot: T)
    requires Rearranged(s, t, l, u) && Below(less, s, l, u, pivot)
    ensures Below(less, t, l, u, pivot)
  {
    forall k | l <= k <= u ensures Le(less, t[k], pivot) { var n := RearrangedMember(s, t, l, u, k); }
  }

  lemma AboveRearranged<T(!new)>(less: (T, T) -> bool, s: seq<T>, t: seq<T>, l: nat, u: int, pivot: T)
    requires Rearranged(s, t, l, u) && Above(less, s, l, u, pivot)
    ensures Above(less, t, l, u, pivot)
  {
    forall k | l <= k <= u ensures Le(less, pivot, t[k]) { var n := RearrangedMember(s, t, l, u, k); }
  }

  /** The part before the pivot has been sorted. */
  lemma LeftDone<T(!new)>(less: (T, T) -> bool, t: seq<T>, l0: nat, u0: int, l: nat, i: int, u: int)
    requires StrictWeak(less) && l0 <= l < i < u <= u0 < |t| && Placed(less, t, l0, u0, l, u)
    requires Sorted(less, t, l, i - 1) && Below(less, t, l, i - 1, t[i]) && Above(less, t, i + 1, u, t[i])
    ensures Placed(less, t, l0, u0, i + 1, u)
  {
    hide StrictWeak;
    forall p, q | l0 <= p < q <= u0 && !(i + 1 <= p && q <= u) ensures Le(less, t[p], t[q]) {
      if l <= p < i < q <= u { LeThen(less, t[p], t[i], t[q]); }
    }
  }

  /** The part after the pivot has been sorted. */
  lemma RightDone<T(!new)>(less: (T, T) -> bool, t: seq<T>, l0: nat, u0: int, l: nat, i: int, u: int)
    requires StrictWeak(less) && l0 <= l < i < u <= u0 < |t| && Placed(less, t, l0, u0, l, u)
    requires Sorted(less, t, i + 1, u) && Below(less, t, l, i - 1, t[i]) && Above(less, t, i + 1, u, t[i])
    ensures Placed(less, t, l0, u0, l, i - 1)
  {
    hide StrictWeak;
    forall p, q | l0 <= p < q <= u0 && !(l <= p && q <= i - 1) ensures Le(less, t[p], t[q]) {
      if l <= p < i < q <= u { LeThen(less, t[p], t[i], t[q]); }
    }
  }

  function AtLeastOne(n: int): nat { if n < 1 then 1 else n }

  /** One round of auxsort: what is left to do lies in the larger part, between the results. */
  method Round<T(!new)>(a: array<T>, l0: nat, u0: int, l: nat, u: nat, less: (T, T) -> bool) returns (l': nat, u': int, ghost depth: nat)
    requires StrictWeak(less) && l0 <= l < u <= u0 < a.Length && Placed(less, a[..], l0, u0, l, u)
    modifies a
    ensures Rearranged(old(a[..]), a[..], l0, u0) && Placed(less, a[..], l0, u0, l', u')
    ensures l <= l' && u' <= u && l' - 1 <= u' && u' - l' < u - l
    ensures Pow2(depth) <= u - l + 1
    decreases u - l + 1, 0
  {
    hide StrictWeak, Rearranged, Pow2, Placed, Sorted;
    ghost var s := a[..];
    depth := 0;
    PowZero();
    SortEnds(a, l, u, less);
    PlacedRearranged(less, s, a[..], l0, u0, l, u);
    RearrangedWithin(s, a[..], l, u, l0, u0);
    if u - l == 1 {
      TwoDone(less, a[..], l0, u0, l, u);
      return l, l, 0;
    }
    ghost var s1 := a[..];
    SortMiddle(a, l, u, less);
    PlacedRearranged(less, s1, a[..], l0, u0, l, u);
    RearrangedWithin(s1, a[..], l, u, l0, u0);
    RearrangedThen(s, s1, a[..], l0, u0);
    if u - l == 2 {
      ThreeDone(less, a[..], l0, u0, l, u);
      return l, l, 0;
    }
    ghost var s2 := a[..];
    var i := Partition(a, l, u, less);
    PlacedRearranged(less, s2, a[..], l0, u0, l, u);
    RearrangedWithin(s2, a[..], l, u, l0, u0);
    RearrangedThen(s, s2, a[..], l0, u0);
    l', u', depth := SmallerPart(a, l0, u0, l, u, i, less, s);
  }

  lemma TwoDone<T>(less: (T, T) -> bool, t: seq<T>, l0: nat, u0: int, l: nat, u: nat)
    requires l0 <= l && u == l + 1 && u <= u0 < |t| && Placed(less, t, l0, u0, l, u) && Le(less, t[l], t[u])
    ensures Placed(less, t, l0, u0, l, l)
  {}

  lemma ThreeDone<T>(less: (T, T) -> bool, t: seq<T>, l0: nat, u0: int, l: nat, u: nat)
    requires l0 <= l && u == l + 2 && u <= u0 < |t| && Placed(less, t, l0, u0, l, u)
    requires Le(less, t[l], t[(l + u) / 2]) && Le(less, t[(l + u) / 2], t[u]) && Le(less, t[l], t[u])
    ensures Placed(less, t, l0, u0, l, l)
  {}

  /** The smaller of the two parts beside the pivot is sorted by a recursive call. */
  method SmallerPart<T(!new)>(a: array<T>, l0: nat, u0: int, l: nat, u: nat, i: int, less: (T, T) -> bool, ghost s: seq<T>)
    returns (l': nat, u': int, ghost depth: nat)
    requires StrictWeak(less) && l0 <= l < i < u <= u0 < a.Length && Placed(less, a[..], l0, u0, l, u)
    requires Rearranged(s, a[..], l0, u0) && Below(less, a[..], l, i - 1, a[i]) && Above(less, a[..], i + 1, u, a[i])
    modifies a
    ensures Rearranged(s, a[..], l0, u0) && Placed(less, a[..], l0, u0, l', u')
    ensures l <= l' && u' <= u && l' - 1 <= u' && u' - l' < u - l
    ensures Pow2(depth) <= u - l + 1
    decreases u - l, 1
  {
    hide StrictWeak, Rearranged, Placed, Sorted, Below, Above, Pow2;
    ghost var t := a[..];
    if i - l < u - i {
      depth := AuxSort(a, l, i - 1, less);
      OutsideKept(t, a[..], l, i - 1);
      BelowRearranged(less, t, a[..], l, i - 1, a[i]);
      AboveKept(less, t, a[..], i + 1, u, a[i]);
      RearrangedWithin(t, a[..], l, i - 1, l, u);
      PlacedRearranged(less, t, a[..], l0, u0, l, u);
      LeftDone(less, a[..], l0, u0, l, i, u);
      l', u' := i + 1, u;
    } else {
      depth := AuxSort(a, i + 1, u, less);
      OutsideKept(t, a[..], i + 1, u);
      AboveRearranged(less, t, a[..], i + 1, u, a[i]);
      BelowKept(less, t, a[..], l, i - 1, a[i]);
      RearrangedWithin(t, a[..], i + 1, u, l, u);
      PlacedRearranged(less, t, a[..], l0, u0, l, u);
      RightDone(less, a[..], l0, u0, l, i, u);
      l', u' := l, i - 1;
    }
    PowNext(depth - 1);
    RearrangedWithin(t, a[..], l, u, l0, u0);
    RearrangedThen(s, t, a[..], l0, u0);
  }

  lemma OutsideKept<T>(s: seq<T>, t: seq<T>, l: nat, u: int)
    requires Rearranged(s, t, l, u)
    ensures forall k :: 0 <= k < |s| && !(l <= k <= u) ==> s[k] == t[k]
  {}

  lemma AboveKept<T>(less: (T, T) -> bool, s: seq<T>, t: seq<T>, j: nat, u: int, pivot: T)
    requires u < |s| == |t| && Above(less, s, j, u, pivot) && forall k :: j <= k <= u ==> s[k] == t[k]
    ensures Above(less, t, j, u, pivot)
  {}

  lemma BelowKept<T>(less: (T, T) -> bool, s: seq<T>, t: seq<T>, l: nat, i: int, pivot: T)
    requires i < |s| == |t| && Below(less, s, l, i, pivot) && forall k :: l <= k <= i ==> s[k] == t[k]
    ensures Below(less, t, l, i, pivot)
  {}

  /** auxsort. The depth of nested activations is at most one more than the logarithm of the length. */
  method AuxSort<T(!new)>(a: array<T>, l0: nat, u0: int, less: (T, T) -> bool) returns (ghost depth: nat)
    requires StrictWeak(less) && l0 - 1 <= u0 < a.Length
    modifies a
    ensures Rearranged(old(a[..]), a[..], l0, u0) && Sorted(less, a[..], l0, u0)
    ensures depth > 0 && Pow2(depth - 1) <= AtLeastOne(u0 - l0 + 1)
    decreases u0 - l0 + 1, 1
  {
    hide StrictWeak, Rearranged, Pow2;
    ghost var s := a[..];
    var l, u := l0, u0;
    depth := 1;
    PowZero();
    Unmoved(s, l0, u0);
    while l < u
      invariant l0 <= l && u <= u0 && l - 1 <= u && Rearranged(s, a[..], l0, u0) && Placed(less, a[..], l0, u0, l, u)
      invariant depth > 0 && Pow2(depth - 1) <= AtLeastOne(u0 - l0 + 1)
      decreases u - l
    {
      ghost var t := a[..];
      ghost var d;
      l, u, d := Round(a, l0, u0, l, u, less);
      RearrangedThen(s, t, a[..], l0, u0);
      if d + 1 > depth { depth := d + 1; }
    }
  }

  /** table.sort, on the elements from 1 on. */
  method Sort<T(!new)>(a: array<T>, less: (T, T) -> bool) returns (ghost depth: nat)
    requires StrictWeak(less) && a.Length > 0
    modifies a
    ensures Sorted(less, a[..], 1, a.Length - 1)
    ensures multiset(a[1..]) == multiset(old(a[1..])) && a[0] == old(a[0])
    ensures depth > 0 && Pow2(depth - 1) <= AtLeastOne(a.Length - 1)
  {
    ghost var s := a[..];
    depth := AuxSort(a, 1, a.Length - 1, less);
    assert s[1..a.Length - 1 + 1] == old(a[1..]) && a[..][1..a.Length - 1 + 1] == a[1..];
  }
}
