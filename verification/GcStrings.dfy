/** The string table: sweeping one list, resizing and interning (lstring.c, lgc.c). */
module GcStrings {
  import opened GcHeap
  import opened GcPropagate
  import opened GcState
  import opened GcFree
  import opened GcClose
  import opened GcSweep

  /** sweepwholelist on one list of the string table, from position `k`. */
  function SweepList(s: State, i: nat, k: nat): State
    decreases (if i < |s.strt| then |s.strt[i]| else 0) - k
  {
    if i >= |s.strt| || k >= |s.strt[i]| then s
    else if Condemned(s, s.strt[i][k]) then SweepList(FreeString(s, i, k), i, k)
    else SweepList(Whiten(s, s.strt[i][k]), i, k + 1)
  }

  lemma FreeStringSwept(s: State, i: nat, k: nat, strings: nat)
    requires Sweeping(s, strings) && strings <= i < |s.strt| && k < |s.strt[i]|
    ensures Swept(FreeString(s, i, k), strings) && StacksNotBlack(FreeString(s, i, k))
  {
    hide NoDangling, NoDup, OpenSorted, UvHead, Threads;
    var r := s.strt[i][k];
    assert r in s.strt[i];
    var z := FreeString(s, i, k);
    forall j | 0 <= j < z.sweepgc ensures SweptObject(z, z.rootgc[j]) {
      var x := s.rootgc[j];
      assert SweptObject(s, x) && x in s.rootgc;
      forall u | x in z.openupval && u in z.openupval[x] ensures IsFresh(z, u) { assert IsFresh(s, u) && s.objs[u].Open?; }
    }
    forall j, x | 0 <= j < strings && j < |z.strt| && x in z.strt[j] ensures IsFresh(z, x) {
      assert x in s.strt[j] && IsFresh(s, x);
    }
  }

  /** The strings of a list before place `k` are swept. */
  ghost predicate SweptTo(s: State, i: nat, k: nat) {
    i < |s.strt| && k <= |s.strt[i]| && forall j :: 0 <= j < k ==> IsFresh(s, s.strt[i][j])
  }

  ghost predicate SamePhase(s: State, z: State) {
    |z.strt| == |s.strt| && z.phase == s.phase && z.sweepgc == s.sweepgc && z.sweepstrgc == s.sweepstrgc
  }

  lemma FreeOne(s: State, i: nat, k: nat)
    requires Sweeping(s, i) && SweptTo(s, i, k) && k < |s.strt[i]| && Condemned(s, s.strt[i][k])
    ensures var z := FreeString(s, i, k);
      Sweeping(z, i) && SweptTo(z, i, k) && SamePhase(s, z) && |z.strt[i]| == |s.strt[i]| - 1
  {
    hide NoDangling, NoDup, OpenMembers, OpenSorted, UvHead, Threads, RootList, SweptRoots, StacksNotBlack;
    assert s.strt[i][k] in s.strt[i];
    FreeStringSwept(s, i, k, i);
    FreeStringInv(s, i, k);
    FreeFresh(s, i, k);
  }

  lemma KeepOne(s: State, i: nat, k: nat)
    requires Sweeping(s, i) && SweptTo(s, i, k) && k < |s.strt[i]| && !Condemned(s, s.strt[i][k])
    ensures var z := Whiten(s, s.strt[i][k]);
      Sweeping(z, i) && SweptTo(z, i, k + 1) && SamePhase(s, z) && z.strt == s.strt
  {
    hide NoDangling, NoDup, OpenMembers, OpenSorted, UvHead, Threads, RootList, SweptRoots, StacksNotBlack;
    assert s.strt[i][k] in s.strt[i];
    WhitenSweeping(s, s.strt[i][k], i);
  }

  lemma ListDone(s: State, i: nat)
    requires Sweeping(s, i) && i < |s.strt| && SweptTo(s, i, |s.strt[i]|)
    ensures Sweeping(s, i + 1)
  {
    hide Wf, NoDangling, SweptRoots, StacksNotBlack;
  }

  lemma {:induction false} SweepListKeeps(s: State, i: nat, k: nat)
    requires Sweeping(s, i) && SweptTo(s, i, k)
    ensures var z := SweepList(s, i, k); Sweeping(z, i + 1) && SamePhase(s, z)
    decreases |s.strt[i]| - k
  {
    hide Sweeping, IsFresh, Condemned, FreeString, Whiten;
    if k == |s.strt[i]| { ListDone(s, i); return; }
    if Condemned(s, s.strt[i][k]) {
      FreeOne(s, i, k);
      SweepListKeeps(FreeString(s, i, k), i, k);
    } else {
      KeepOne(s, i, k);
      SweepListKeeps(Whiten(s, s.strt[i][k]), i, k + 1);
    }
  }

  lemma FreeFresh(s: State, i: nat, k: nat)
    requires i < |s.strt| && k < |s.strt[i]| && NoDup(s.strt[i]) && forall j :: 0 <= j < k ==> IsFresh(s, s.strt[i][j])
    ensures forall j :: 0 <= j < k ==> IsFresh(FreeString(s, i, k), FreeString(s, i, k).strt[i][j])
    ensures |FreeString(s, i, k).strt[i]| == |s.strt[i]| - 1
  {}

  /** The inner loop of luaS_resize: each string goes to the front of its new list. */
  function RehashList(objs: Objects, q: seq<Ref>, new_: seq<seq<Ref>>): seq<seq<Ref>>
    requires |new_| > 0
    decreases |q|
  {
    if q == [] then new_
    else
      var h := if q[0] in objs && objs[q[0]].Str? then Bucket(objs[q[0]].chars, |new_|) else 0;
      RehashList(objs, q[1..], new_[h := [q[0]] + new_[h]])
  }

  /** The outer loop: over the old lists. */
  function Rehash(objs: Objects, old_: seq<seq<Ref>>, new_: seq<seq<Ref>>): (r: seq<seq<Ref>>)
    requires |new_| > 0
    ensures |r| == |new_|
    decreases |old_|
  {
    if old_ == [] then new_
    else
      RehashListSize(objs, old_[0], new_);
      Rehash(objs, old_[1..], RehashList(objs, old_[0], new_))
  }

  lemma {:induction false} RehashListSize(objs: Objects, q: seq<Ref>, new_: seq<seq<Ref>>)
    requires |new_| > 0
    ensures |RehashList(objs, q, new_)| == |new_|
    decreases |q|
  {
    if q != [] {
      var h := if q[0] in objs && objs[q[0]].Str? then Bucket(objs[q[0]].chars, |new_|) else 0;
      RehashListSize(objs, q[1..], new_[h := [q[0]] + new_[h]]);
    }
  }

  /** A table under construction holds exactly the strings of `seen`, each in its place. */
  ghost predicate Partial(objs: Objects, new_: seq<seq<Ref>>, seen: set<Ref>) {
    && |new_| > 0
    && (forall i :: 0 <= i < |new_| ==> NoDup(new_[i]))
    && (forall i, r :: 0 <= i < |new_| && r in new_[i] ==>
          r in seen && r in objs && objs[r].Str? && i == Bucket(objs[r].chars, |new_|))
    && (forall r :: r in seen ==> r in objs && objs[r].Str? && r in new_[Bucket(objs[r].chars, |new_|)])
  }

  lemma PartialAdd(objs: Objects, new_: seq<seq<Ref>>, seen: set<Ref>, r: Ref)
    requires Partial(objs, new_, seen) && r !in seen && r in objs && objs[r].Str?
    ensures var h := Bucket(objs[r].chars, |new_|); Partial(objs, new_[h := [r] + new_[h]], seen + {r})
  {
    hide NoDup;
    NoDupCons(r, new_[Bucket(objs[r].chars, |new_|)]);
  }

  lemma {:induction false} RehashListKeeps(objs: Objects, q: seq<Ref>, new_: seq<seq<Ref>>, seen: set<Ref>)
    requires Partial(objs, new_, seen) && NoDup(q)
    requires forall r :: r in q ==> r !in seen && r in objs && objs[r].Str?
    ensures Partial(objs, RehashList(objs, q, new_), seen + (set r | r in q))
    decreases |q|
  {
    hide NoDup, Partial, Bucket;
    if q == [] { assert seen + (set r | r in q) == seen; return; }
    NoDupTail(q);
    HeadNotIn(q);
    PartialSize(objs, new_, seen);
    PartialAdd(objs, new_, seen, q[0]);
    var h := Bucket(objs[q[0]].chars, |new_|);
    RehashListKeeps(objs, q[1..], new_[h := [q[0]] + new_[h]], seen + {q[0]});
    assert seen + {q[0]} + (set r | r in q[1..]) == seen + (set r | r in q);
  }

  ghost predicate Buckets(objs: Objects, old_: seq<seq<Ref>>) {
    && (forall i :: 0 <= i < |old_| ==> NoDup(old_[i]))
    && (forall i, r :: 0 <= i < |old_| && r in old_[i] ==> r in objs && objs[r].Str?)
    && (forall i, j, r :: 0 <= i < j < |old_| && r in old_[i] ==> r !in old_[j])
  }

  ghost function Members(old_: seq<seq<Ref>>): set<Ref> { set i, r | 0 <= i < |old_| && r in old_[i] :: r }

  lemma {:induction false} RehashKeeps(objs: Objects, old_: seq<seq<Ref>>, new_: seq<seq<Ref>>, seen: set<Ref>)
    requires Partial(objs, new_, seen) && Buckets(objs, old_) && forall i, r :: 0 <= i < |old_| && r in old_[i] ==> r !in seen
    ensures Partial(objs, Rehash(objs, old_, new_), seen + Members(old_))
    decreases |old_|
  {
    hide NoDup, Partial, Buckets, Members;
    PartialSize(objs, new_, seen);
    if old_ == [] { NoMembers(seen); return; }
    BucketsTail(objs, old_, seen);
    RehashListKeeps(objs, old_[0], new_, seen);
    RehashListSize(objs, old_[0], new_);
    var first := set r | r in old_[0];
    RehashKeeps(objs, old_[1..], RehashList(objs, old_[0], new_), seen + first);
    assert seen + (first + Members(old_[1..])) == seen + first + Members(old_[1..]);
  }

  lemma NoMembers(seen: set<Ref>)
    ensures seen + Members([]) == seen
  {}

  lemma HeadNotIn(q: seq<Ref>)
    requires NoDup(q) && q != []
    ensures q[0] !in q[1..]
  {}

  lemma PartialSize(objs: Objects, new_: seq<seq<Ref>>, seen: set<Ref>)
    requires Partial(objs, new_, seen)
    ensures |new_| > 0
  {}

  lemma BucketsTail(objs: Objects, old_: seq<seq<Ref>>, seen: set<Ref>)
    requires Buckets(objs, old_) && old_ != [] && forall i, r :: 0 <= i < |old_| && r in old_[i] ==> r !in seen
    ensures NoDup(old_[0]) && (forall r :: r in old_[0] ==> r !in seen && r in objs && objs[r].Str?) && Buckets(objs, old_[1..])
    ensures var first := set r | r in old_[0];
      (forall i, r :: 0 <= i < |old_[1..]| && r in old_[1..][i] ==> r !in seen + first) && Members(old_) == first + Members(old_[1..])
  {
    hide NoDup;
    var first := set r | r in old_[0];
    var rest := old_[1..];
    forall i, r | 0 <= i < |rest| && r in rest[i] ensures r !in seen + first && r in objs && objs[r].Str? { assert r in old_[i + 1]; }
    forall i, j, r | 0 <= i < j < |rest| && r in rest[i] ensures r !in rest[j] { assert r in old_[i + 1]; }
    forall r ensures r in Members(old_) <==> r in first || r in Members(rest) {
      if r in Members(old_) && r !in first {
        var i :| 0 <= i < |old_| && r in old_[i];
        assert r in rest[i - 1];
      }
      if r in Members(rest) {
        var i :| 0 <= i < |rest| && r in rest[i];
        assert r in old_[i + 1];
      }
    }
  }

  /** A table of `n` empty buckets. */
  function NewHash(n: nat): (t: seq<seq<Ref>>)
    ensures |t| == n
  {
    seq(n, _ => [])
  }

  /** luaS_resize, which leaves the table alone while its lists are being swept. */
  function Resize(s: State, newsize: nat): State
    requires newsize > 0
  {
    if s.phase.SweepString? then s
    else s.(strt := Rehash(s.objs, s.strt, NewHash(newsize)))
  }

  lemma ResizeTable(objs: Objects, strt: seq<seq<Ref>>, newsize: nat)
    requires StringTable(objs, strt) && newsize > 0
    ensures StringTable(objs, Rehash(objs, strt, NewHash(newsize)))
  {
    var new_ := NewHash(newsize);
    forall i, j, r | 0 <= i < j < |strt| && r in strt[i] ensures r !in strt[j] {
      assert i == Bucket(objs[r].chars, |strt|);
    }
    RehashKeeps(objs, strt, new_, {});
    var z := Rehash(objs, strt, new_);
    assert Partial(objs, z, {} + Members(strt));
    forall r | r in objs && objs[r].Str? ensures r in z[Bucket(objs[r].chars, |z|)] {
      var b := Bucket(objs[r].chars, |strt|);
      assert 0 <= b < |strt| && r in strt[b];
      assert r in Members(strt);
    }
  }

  lemma StrtOnly(s: State, z: State)
    requires Wf(s) && NoDangling(s) && z == s.(strt := z.strt) && StringTable(z.objs, z.strt)
    ensures Wf(z) && NoDangling(z)
  {
    hide Holds, NoDup, StringTable, Decreasing;
    forall v | v in Roots(z) ensures Alive(z, v) { assert Alive(s, v); }
    forall x, v | x in z.objs && !IsDead(z, x) && v in Holds(z.objs, z.objs[x]) ensures Alive(z, v) {
      assert !IsDead(s, x) && Alive(s, v);
    }
  }

  lemma StrtSwept(s: State, z: State)
    requires Swept(s, |s.strt|) && StacksNotBlack(s) && StringTable(s.objs, s.strt) && StringTable(z.objs, z.strt) && z == s.(strt := z.strt)
    ensures Swept(z, |z.strt|) && StacksNotBlack(z)
  {
    hide NoDup;
    forall j | 0 <= j < z.sweepgc ensures SweptObject(z, z.rootgc[j]) { assert SweptObject(s, s.rootgc[j]); }
    forall j, x | 0 <= j < |z.strt| && x in z.strt[j] ensures IsFresh(z, x) {
      assert x in s.strt[Bucket(s.objs[x].chars, |s.strt|)] && IsFresh(s, x);
    }
  }

  /** Resizing keeps the invariant: the same strings, in the lists of their new hashes. */
  lemma ResizeInv(s: State, newsize: nat)
    requires Inv(s) && newsize > 0
    ensures Inv(Resize(s, newsize))
  {
    hide NoDangling, OpenLists, RootList, Threads, StringTable, Swept, StacksNotBlack, TricolorBut;
    if s.phase.SweepString? { return; }
    var z := Resize(s, newsize);
    ResizeTable(s.objs, s.strt, newsize);
    StrtOnly(s, z);
    if s.phase.Sweep? { StrtSwept(s, z); }
  }

  /** The search loop of luaS_newlstr. */
  function FindString(objs: Objects, q: seq<Ref>, chars: seq<Byte>): seq<Ref>
    ensures |FindString(objs, q, chars)| <= 1
    decreases |q|
  {
    if q == [] then []
    else if q[0] in objs && objs[q[0]] == Str(chars) then [q[0]]
    else FindString(objs, q[1..], chars)
  }

  function Total(strt: seq<seq<Ref>>): nat
    decreases |strt|
  { if strt == [] then 0 else |strt[0]| + Total(strt[1..]) }

  const MAX_INT: nat := 0x7FFF_FFFD
  const MIN_STRT_SIZE: nat := 32

  /** newlstr: a new string object at `r`, in front of its list; a crowded table grows. */
  function NewString(s: State, chars: seq<Byte>, r: Ref): State
    requires |s.strt| > 0
  {
    var h := Bucket(chars, |s.strt|);
    var z := s.(objs := s.objs[r := Str(chars)], m := Paint(s.m, r, White(s.currentwhite)),
                strt := s.strt[h := [r] + s.strt[h]]);
    if Total(z.strt) > |z.strt| && |z.strt| <= MAX_INT / 2 then Resize(z, 2 * |z.strt|) else z
  }

  /** luaS_newlstr: the string object for `chars`, found and revived, or new at `r`. */
  function Intern(s: State, chars: seq<Byte>, r: Ref): (State, Ref)
    requires |s.strt| > 0
  {
    var found := FindString(s.objs, s.strt[Bucket(chars, |s.strt|)], chars);
    if found == [] then (NewString(s, chars, r), r)
    else if IsDead(s, found[0]) then (Whiten(s, found[0]), found[0])
    else (s, found[0])
  }

  lemma {:induction false} FoundString(objs: Objects, q: seq<Ref>, chars: seq<Byte>)
    ensures var f := FindString(objs, q, chars);
      && (f != [] ==> f[0] in q && f[0] in objs && objs[f[0]] == Str(chars))
      && (f == [] ==> forall x :: x in q && x in objs ==> objs[x] != Str(chars))
    decreases |q|
  {
    if q != [] && !(q[0] in objs && objs[q[0]] == Str(chars)) {
      FoundString(objs, q[1..], chars);
      assert q == [q[0]] + q[1..];
    }
  }
}
