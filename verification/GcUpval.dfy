/** Finding or creating the open upvalue of a stack slot (luaF_findupval in lfunc.c). */
module GcUpval {
  import opened GcHeap
  import opened GcPropagate
  import opened GcState
  import opened GcFree
  import opened GcClose
  import opened GcMutator
  import opened GcAlloc

  /** The loop of luaF_findupval: how many upvalues lie strictly above `level`. */
  function Above(objs: Objects, q: seq<Ref>, level: nat): (i: nat)
    ensures i <= |q|
    decreases |q|
  {
    if q == [] || Level(objs, q[0]) <= level then 0 else 1 + Above(objs, q[1..], level)
  }

  /** A new open upvalue, in its place in the list of `t` and at the head of `uvhead`. */
  function AddOpen(s: State, t: Ref, level: nat, r: Ref): State
    requires t in s.openupval
  {
    var q := s.openupval[t];
    s.(objs := s.objs[r := Open(t, level)], m := Paint(s.m, r, White(s.currentwhite)),
       openupval := s.openupval[t := InsertAt(q, Above(s.objs, q, level), r)], uvhead := [r] + s.uvhead)
  }

  /** luaF_findupval: the upvalue of the slot, revived if dead, or a new one at `r`. */
  function FindUpval(s: State, t: Ref, level: nat, r: Ref): (State, Ref)
    requires t in s.openupval
  {
    var q := s.openupval[t];
    var i := Above(s.objs, q, level);
    if i < |q| && Level(s.objs, q[i]) == level then
      (if IsDead(s, q[i]) then Whiten(s, q[i]) else s, q[i])
    else (AddOpen(s, t, level, r), r)
  }

  /** In a decreasing list, everything before the place is above the level, the rest not. */
  lemma {:induction false} AbovePlace(objs: Objects, q: seq<Ref>, level: nat)
    requires Decreasing(objs, q)
    ensures var i := Above(objs, q, level);
      && (forall j :: 0 <= j < i ==> Level(objs, q[j]) > level)
      && (forall j :: i <= j < |q| ==> Level(objs, q[j]) <= level)
      && (forall j :: i < j < |q| ==> Level(objs, q[j]) < level)
    decreases |q|
  {
    if q == [] { return; }
    if Level(objs, q[0]) <= level {
      forall j | 0 < j < |q| ensures Level(objs, q[j]) < level { assert Level(objs, q[0]) > Level(objs, q[j]); }
    } else {
      DecreasingTail(objs, q);
      AbovePlace(objs, q[1..], level);
    }
  }

  ghost predicate Descending(a: seq<int>) { forall j, k :: 0 <= j < k < |a| ==> a[j] > a[k] }

  lemma DescendingInsert(a: seq<int>, i: nat, x: int)
    requires i <= |a| && Descending(a) && (forall j :: 0 <= j < i ==> a[j] > x) && (forall j :: i <= j < |a| ==> a[j] < x)
    ensures Descending(a[..i] + [x] + a[i..])
  {}

  function Levels(objs: Objects, q: seq<Ref>): seq<int> { seq(|q|, j requires 0 <= j < |q| => Level(objs, q[j])) }

  lemma LevelsInsert(objs: Objects, q: seq<Ref>, i: nat, objs': Objects, r: Ref)
    requires i <= |q| && forall u :: u in q ==> Level(objs', u) == Level(objs, u)
    ensures Levels(objs', InsertAt(q, i, r)) == Levels(objs, q)[..i] + [Level(objs', r)] + Levels(objs, q)[i..]
  {
    hide Level;
  }

  lemma LevelsPlace(objs: Objects, q: seq<Ref>, level: nat)
    requires Decreasing(objs, q)
    requires var i := Above(objs, q, level); !(i < |q| && Level(objs, q[i]) == level)
    ensures var i := Above(objs, q, level); var a := Levels(objs, q);
      && Descending(a) && (forall j :: 0 <= j < i ==> a[j] > level) && (forall j :: i <= j < |a| ==> a[j] < level)
  {
    AbovePlace(objs, q, level);
    hide Level, Above;
  }

  lemma DecreasingInsert(objs: Objects, q: seq<Ref>, level: nat, objs': Objects, r: Ref)
    requires Decreasing(objs, q) && Level(objs', r) == level && forall u :: u in q ==> Level(objs', u) == Level(objs, u)
    requires var i := Above(objs, q, level); !(i < |q| && Level(objs, q[i]) == level)
    ensures Decreasing(objs', InsertAt(q, Above(objs, q, level), r))
  {
    hide Level, Above, Levels, Descending, InsertAt, Decreasing;
    var i := Above(objs, q, level);
    LevelsPlace(objs, q, level);
    LevelsInsert(objs, q, i, objs', r);
    assert |Levels(objs, q)| == |q| by { LevelsSize(objs, q); }
    DescendingInsert(Levels(objs, q), i, level);
    DescendingLevels(objs', InsertAt(q, i, r));
  }

  lemma LevelsSize(objs: Objects, q: seq<Ref>)
    ensures |Levels(objs, q)| == |q|
  {}

  lemma DescendingLevels(objs: Objects, q: seq<Ref>)
    requires Descending(Levels(objs, q))
    ensures Decreasing(objs, q)
  {
    forall j, k | 0 <= j < k < |q| ensures Level(objs, q[j]) > Level(objs, q[k]) {
      assert Levels(objs, q)[j] > Levels(objs, q)[k];
    }
  }

  lemma AddOpenMember(s: State, t: Ref, level: nat, r: Ref)
    requires OpenMembers(s) && r !in s.objs && t in s.openupval && level < |s.objs[t].stack|
    ensures OpenMembers(AddOpen(s, t, level, r))
  {
    hide Above;
    var z := AddOpen(s, t, level, r);
    var q := s.openupval[t];
    var i := Above(s.objs, q, level);
    InsertMembers(q, i, r);
  }

  lemma InsertMembers(q: seq<Ref>, i: nat, r: Ref)
    requires i <= |q|
    ensures forall x :: x in InsertAt(q, i, r) <==> x == r || x in q
  {
    var p := InsertAt(q, i, r);
    assert p[i] == r;
    forall x | x in q ensures x in p {
      var k :| 0 <= k < |q| && q[k] == x;
      assert p[if k < i then k else k + 1] == x;
    }
  }

  lemma AddOpenUvHead(s: State, t: Ref, level: nat, r: Ref)
    requires UvHead(s) && r !in s.objs && t in s.openupval
    ensures UvHead(AddOpen(s, t, level, r))
  {
    hide NoDup, Above;
    NoDupCons(r, s.uvhead);
  }

  lemma AddOpenSorted(s: State, t: Ref, level: nat, r: Ref)
    requires OpenMembers(s) && OpenSorted(s) && r !in s.objs && t in s.openupval
    requires var q := s.openupval[t]; var i := Above(s.objs, q, level); !(i < |q| && Level(s.objs, q[i]) == level)
    ensures OpenSorted(AddOpen(s, t, level, r))
  {
    hide Decreasing, Above, InsertAt;
    var z := AddOpen(s, t, level, r);
    forall x | x in z.openupval ensures Decreasing(z.objs, z.openupval[x]) {
      if x == t { DecreasingInsert(s.objs, s.openupval[t], level, z.objs, r); }
      else { DecreasingFrame(s.objs, z.objs, s.openupval[x]); }
    }
  }

  lemma AddOpenSwept(s: State, t: Ref, level: nat, r: Ref, strings: nat)
    requires Swept(s, strings) && RootList(s) && OpenMembers(s) && StringTable(s.objs, s.strt) && r !in s.objs && t in s.openupval
    ensures Swept(AddOpen(s, t, level, r), strings)
  {
    hide NoDup, Above, InsertAt;
    var z := AddOpen(s, t, level, r);
    InsertMembers(s.openupval[t], Above(s.objs, s.openupval[t], level), r);
    forall j | 0 <= j < z.sweepgc ensures SweptObject(z, z.rootgc[j]) {
      var x := s.rootgc[j];
      assert SweptObject(s, x) && x in s.rootgc;
      forall u | x in z.openupval && u in z.openupval[x] ensures IsFresh(z, u) {
        if u != r { assert u in s.openupval[x] && IsFresh(s, u); }
      }
    }
    forall j, x | 0 <= j < strings && j < |z.strt| && x in z.strt[j] ensures IsFresh(z, x) { assert x in s.strt[j] && IsFresh(s, x); }
  }

  lemma AddOpenOthers(s: State, t: Ref, level: nat, r: Ref)
    requires Threads(s) && RootList(s) && StringTable(s.objs, s.strt) && r !in s.objs && t in s.openupval
    ensures var z := AddOpen(s, t, level, r);
      Threads(z) && RootList(z) && StringTable(z.objs, z.strt) && Added(s, z, r, Open(t, level))
  {
    hide Above, NoDup, StringTable;
    AddStringTable(s.objs, s.strt, r, Open(t, level));
  }

  lemma SlotHolds(s: State, t: Ref, level: nat)
    requires NoDangling(s) && t in s.objs && s.objs[t].Thread? && !IsDead(s, t)
    ensures HoldsAlive(s, Open(t, level))
  {
    forall v | v in Holds(s.objs, Open(t, level)) ensures Alive(s, v) {
      assert v in Holds(s.objs, s.objs[t]);
    }
  }

  lemma AddOpenInv(s: State, t: Ref, level: nat, r: Ref)
    requires Inv(s) && r !in s.objs && t in s.openupval && t in s.objs && s.objs[t].Thread? && level < |s.objs[t].stack| && !IsDead(s, t)
    requires var q := s.openupval[t]; var i := Above(s.objs, q, level); !(i < |q| && Level(s.objs, q[i]) == level)
    ensures Inv(AddOpen(s, t, level, r))
  {
    hide OpenMembers, OpenSorted, UvHead, RootList, StringTable, Threads, NoDangling, HoldsAlive, Swept, TricolorBut, AddOpen;
    var z := AddOpen(s, t, level, r);
    AddOpenOthers(s, t, level, r);
    AddOpenMember(s, t, level, r);
    AddOpenUvHead(s, t, level, r);
    AddOpenSorted(s, t, level, r);
    SlotHolds(s, t, level);
    AddNoDangling(s, z, r, Open(t, level));
    AddOpenFrame(s, t, level, r);
    if s.phase.Sweep? || s.phase.SweepString? {
      AddOpenSwept(s, t, level, r, if s.phase.Sweep? then |s.strt| else s.sweepstrgc);
    }
    AddPhase(s, z, r, Open(t, level));
  }

  lemma AddOpenFrame(s: State, t: Ref, level: nat, r: Ref)
    requires t in s.openupval
    ensures AddOpen(s, t, level, r).sweepgc == s.sweepgc && AddOpen(s, t, level, r).strt == s.strt
  {}

  /** luaF_findupval keeps the invariant and returns a live open upvalue of that very slot. */
  lemma FindUpvalInv(s: State, t: Ref, level: nat, r: Ref)
    requires Inv(s) && r !in s.objs && t in s.objs && s.objs[t].Thread? && level < |s.objs[t].stack| && !IsDead(s, t)
    ensures t in s.openupval
    ensures var (z, u) := FindUpval(s, t, level, r);
      Inv(z) && u in z.objs && z.objs[u] == Open(t, level) && !IsDead(z, u)
  {
    OpenOf(s, t);
    hide Inv, Above;
    var q := s.openupval[t];
    var i := Above(s.objs, q, level);
    if i < |q| && Level(s.objs, q[i]) == level {
      ListedOpen(s, t, i);
      SlotHoldsInv(s, t, level);
      if IsDead(s, q[i]) { ReviveInv(s, q[i]); }
    } else {
      AddOpenInv(s, t, level, r);
    }
  }

  lemma SlotHoldsInv(s: State, t: Ref, level: nat)
    requires Inv(s) && t in s.objs && s.objs[t].Thread? && !IsDead(s, t)
    ensures HoldsAlive(s, Open(t, level))
  {
    hide Wf, PhaseInv, HoldsAlive, NoDangling;
    SlotHolds(s, t, level);
  }

  lemma OpenOf(s: State, t: Ref)
    requires Inv(s) && t in s.objs && s.objs[t].Thread?
    ensures t in s.openupval
  {
    hide NoDangling, PhaseInv, RootList, StringTable, Threads, OpenSorted, UvHead;
  }

  lemma ListedOpen(s: State, t: Ref, i: nat)
    requires Inv(s) && t in s.openupval && i < |s.openupval[t]|
    ensures var u := s.openupval[t][i]; u in s.objs && s.objs[u].Open? && s.objs[u] == Open(t, Level(s.objs, u))
  {
    hide NoDangling, PhaseInv, RootList, StringTable, Threads, OpenSorted, UvHead;
    assert s.openupval[t][i] in s.openupval[t];
  }
}
