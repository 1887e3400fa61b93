/** Freeing and whitening one object during the sweep (sweeplist, freeobj in lgc.c). */
module GcFree {
  import opened GcHeap
  import opened GcState

  function RemoveAt(q: seq<Ref>, i: nat): seq<Ref>
    requires i < |q|
  { q[..i] + q[i + 1..] }

  /** Unlinking from a doubly linked list. */
  function Remove(q: seq<Ref>, x: Ref): seq<Ref> {
    if q == [] then [] else if q[0] == x then q[1..] else [q[0]] + Remove(q[1..], x)
  }

  lemma RemoveAtKeeps(q: seq<Ref>, i: nat)
    requires i < |q| && NoDup(q)
    ensures NoDup(RemoveAt(q, i)) && forall x :: x in RemoveAt(q, i) <==> x in q && x != q[i]
  {
    var p := RemoveAt(q, i);
    forall x | x in q && x != q[i] ensures x in p {
      var k :| 0 <= k < |q| && q[k] == x;
      assert p[if k < i then k else k - 1] == x;
    }
  }

  lemma {:induction false} RemoveKeeps(q: seq<Ref>, x: Ref)
    requires NoDup(q)
    ensures NoDup(Remove(q, x)) && forall y :: y in Remove(q, x) <==> y in q && y != x
    ensures x in q ==> |Remove(q, x)| == |q| - 1
  {
    if q == [] { return; }
    NoDupTail(q);
    hide NoDup;
    if q[0] != x {
      RemoveKeeps(q[1..], x);
      NoDupCons(q[0], Remove(q[1..], x));
    }
  }

  function Forget(m: Marks, r: Ref): Marks { m.(color := m.color - {r}) }

  /** makewhite */
  function Whiten(s: State, r: Ref): State { s.(m := Paint(s.m, r, White(s.currentwhite))) }

  /** freeobj of an open upvalue: off its thread's list and off `uvhead`. */
  function FreeOpen(s: State, t: Ref, i: nat): State
    requires t in s.openupval && i < |s.openupval[t]|
  {
    var u := s.openupval[t][i];
    s.(objs := s.objs - {u}, m := Forget(s.m, u),
       openupval := s.openupval[t := RemoveAt(s.openupval[t], i)], uvhead := Remove(s.uvhead, u))
  }

  /** freeobj of an object of rootgc; a thread has no open upvalue left. */
  function FreeRoot(s: State, i: nat): State
    requires i < |s.rootgc|
  {
    var r := s.rootgc[i];
    s.(objs := s.objs - {r}, m := Forget(s.m, r), rootgc := RemoveAt(s.rootgc, i), openupval := s.openupval - {r})
  }

  /** freeobj of a string. */
  function FreeString(s: State, i: nat, k: nat): State
    requires i < |s.strt| && k < |s.strt[i]|
  {
    var r := s.strt[i][k];
    s.(objs := s.objs - {r}, m := Forget(s.m, r), strt := s.strt[i := RemoveAt(s.strt[i], k)])
  }

  /** Freeing a dead object that is no thread with open upvalues leaves no dangling reference. */
  lemma FreedNoDangling(s: State, t: State, r: Ref)
    requires Wf(s) && NoDangling(s) && r in s.objs && IsDead(s, r)
    requires s.objs[r].Thread? ==> r in s.openupval && s.openupval[r] == []
    requires t.objs == s.objs - {r} && t.m == Forget(s.m, r) && t.currentwhite == s.currentwhite && Roots(t) == Roots(s)
    ensures NoDangling(t)
  {
    hide StringTable, RootList, TabRefs, Threads;
    forall v | v in Roots(t) ensures Alive(t, v) { assert Alive(s, v); }
    forall x, v | x in t.objs && !IsDead(t, x) && v in Holds(t.objs, t.objs[x]) ensures Alive(t, v) {
      assert !IsDead(s, x);
      FreedHolds(s, r, x);
      assert Alive(s, v);
    }
  }

  lemma FreedHolds(s: State, r: Ref, x: Ref)
    requires Wf(s) && r in s.objs && x in s.objs && x != r
    requires s.objs[r].Thread? ==> r in s.openupval && s.openupval[r] == []
    ensures Holds(s.objs - {r}, s.objs[x]) == Holds(s.objs, s.objs[x])
  {
    hide StringTable, RootList, TabRefs, Threads, NoDup;
  }

  /** What stays in place when one object leaves the heap. */
  lemma DropThreads(s: State, t: State, r: Ref)
    requires Threads(s) && r !in s.fixed && r != s.running && t.objs == s.objs - {r}
    requires t.mainthread == s.mainthread && t.running == s.running && t.fixed == s.fixed
    ensures Threads(t)
  {}

  lemma DropNonRoot(s: State, t: State, r: Ref)
    requires RootList(s) && r in s.objs && (s.objs[r].Str? || s.objs[r].Open?) && t.objs == s.objs - {r} && t.rootgc == s.rootgc
    ensures RootList(t)
  {
    hide NoDup;
  }

  lemma DropNonString(objs: Objects, strt: seq<seq<Ref>>, r: Ref)
    requires StringTable(objs, strt) && r in objs && !objs[r].Str?
    ensures StringTable(objs - {r}, strt)
  {
    hide NoDup;
  }

  lemma DecreasingFrame(objs: Objects, objs': Objects, q: seq<Ref>)
    requires Decreasing(objs, q) && forall u :: u in q ==> Level(objs', u) == Level(objs, u)
    ensures Decreasing(objs', q)
  {}

  /** An object that is no open upvalue leaves; a thread has no open upvalue left. */
  lemma DropNonOpen(s: State, t: State, r: Ref)
    requires OpenLists(s) && r in s.objs && !s.objs[r].Open? && t.objs == s.objs - {r}
    requires s.objs[r].Thread? ==> r in s.openupval && s.openupval[r] == []
    requires t.openupval == s.openupval - {r} && t.uvhead == s.uvhead
    ensures OpenLists(t)
  {
    hide UvHead, OpenMembers, OpenSorted;
    DropUvHead(s, t, r);
    DropMembers(s, t, r);
    DropSorted(s, t, r);
  }

  lemma DropUvHead(s: State, t: State, r: Ref)
    requires UvHead(s) && r in s.objs && !s.objs[r].Open? && t.objs == s.objs - {r} && t.uvhead == s.uvhead
    ensures UvHead(t)
  {
    hide NoDup;
  }

  lemma DropMembers(s: State, t: State, r: Ref)
    requires OpenMembers(s) && r in s.objs && !s.objs[r].Open? && t.objs == s.objs - {r} && t.openupval == s.openupval - {r}
    requires s.objs[r].Thread? ==> r in s.openupval && s.openupval[r] == []
    ensures OpenMembers(t)
  {}

  lemma DropSorted(s: State, t: State, r: Ref)
    requires OpenMembers(s) && OpenSorted(s) && r in s.objs && !s.objs[r].Open? && t.objs == s.objs - {r} && t.openupval == s.openupval - {r}
    ensures OpenSorted(t)
  {
    hide Decreasing;
    forall x | x in t.openupval ensures Decreasing(t.objs, t.openupval[x]) {
      DecreasingFrame(s.objs, t.objs, t.openupval[x]);
    }
  }

  lemma NoLists(s: State, r: Ref)
    requires OpenMembers(s) && r in s.objs && !s.objs[r].Thread?
    ensures s.openupval - {r} == s.openupval
  {}

  lemma DropString(objs: Objects, strt: seq<seq<Ref>>, i: nat, k: nat)
    requires StringTable(objs, strt) && i < |strt| && k < |strt[i]|
    ensures StringTable(objs - {strt[i][k]}, strt[i := RemoveAt(strt[i], k)])
  {
    RemoveAtKeeps(strt[i], k);
    hide NoDup, RemoveAt;
    var r := strt[i][k];
    assert r in strt[i];
    var objs', strt' := objs - {r}, strt[i := RemoveAt(strt[i], k)];
    forall p | p in objs' && objs'[p].Str? ensures p in strt'[Bucket(objs'[p].chars, |strt'|)] {
      assert p in strt[Bucket(objs[p].chars, |strt|)];
    }
    forall j, p | 0 <= j < |strt'| && p in strt'[j]
      ensures p in objs' && objs'[p].Str? && j == Bucket(objs'[p].chars, |strt'|)
    {
      assert p in strt[j];
      assert j == Bucket(objs[p].chars, |strt|) && i == Bucket(objs[r].chars, |strt|);
    }
  }

  lemma FreeStringInv(s: State, i: nat, k: nat)
    requires Wf(s) && NoDangling(s) && i < |s.strt| && k < |s.strt[i]| && Condemned(s, s.strt[i][k])
    ensures Wf(FreeString(s, i, k)) && NoDangling(FreeString(s, i, k))
  {
    var r := s.strt[i][k];
    var t := FreeString(s, i, k);
    assert r in s.objs && s.objs[r].Str? by { assert r in s.strt[i]; }
    assert s.objs[s.running].Thread?;
    hide StringTable, OpenMembers, OpenSorted, UvHead, RootList, Threads, NoDangling;
    FreedNoDangling(s, t, r);
    DropString(s.objs, s.strt, i, k);
    DropThreads(s, t, r);
    DropNonRoot(s, t, r);
    NoLists(s, r);
    DropNonOpen(s, t, r);
  }

  lemma FreeOpenMembers(s: State, t: Ref, i: nat)
    requires OpenLists(s) && t in s.openupval && i < |s.openupval[t]|
    ensures OpenMembers(FreeOpen(s, t, i)) && UvHead(FreeOpen(s, t, i))
  {
    var u := s.openupval[t][i];
    assert u in s.openupval[t];
    LevelsDistinct(s.objs, s.openupval[t]);
    RemoveAtKeeps(s.openupval[t], i);
    RemoveKeeps(s.uvhead, u);
    hide NoDup, Remove, RemoveAt, OpenSorted;
  }

  lemma FreeOpenLists(s: State, t: Ref, i: nat)
    requires OpenLists(s) && t in s.openupval && i < |s.openupval[t]|
    ensures OpenLists(FreeOpen(s, t, i))
  {
    FreeOpenMembers(s, t, i);
    hide UvHead, NoDup, Decreasing, Remove, RemoveAt;
    var z := FreeOpen(s, t, i);
    forall x | x in z.openupval ensures Decreasing(z.objs, z.openupval[x]) {
      if x == t { DecreasingRemove(s.objs, s.openupval[t], i); }
      DecreasingFrame(s.objs, z.objs, z.openupval[x]);
    }
  }

  lemma DecreasingRemove(objs: Objects, q: seq<Ref>, i: nat)
    requires i < |q| && Decreasing(objs, q)
    ensures Decreasing(objs, RemoveAt(q, i))
  {}

  /** Strictly decreasing levels: no upvalue is listed twice. */
  lemma LevelsDistinct(objs: Objects, q: seq<Ref>)
    requires Decreasing(objs, q)
    ensures NoDup(q)
  {
    forall i, j | 0 <= i < j < |q| ensures q[i] != q[j] {
      assert Level(objs, q[i]) > Level(objs, q[j]);
    }
  }

  lemma FreeOpenInv(s: State, t: Ref, i: nat)
    requires Wf(s) && NoDangling(s) && t in s.openupval && i < |s.openupval[t]| && Condemned(s, s.openupval[t][i])
    ensures Wf(FreeOpen(s, t, i)) && NoDangling(FreeOpen(s, t, i))
  {
    var r := s.openupval[t][i];
    var z := FreeOpen(s, t, i);
    assert r in s.objs && s.objs[r].Open? by { assert r in s.openupval[t]; }
    assert s.objs[s.running].Thread?;
    hide StringTable, OpenLists, RootList, Threads, NoDangling;
    FreedNoDangling(s, z, r);
    FreeOpenLists(s, t, i);
    DropThreads(s, z, r);
    DropNonRoot(s, z, r);
    DropNonString(s.objs, s.strt, r);
  }

  lemma FreeRootList(s: State, i: nat)
    requires RootList(s) && i < |s.rootgc|
    ensures RootList(FreeRoot(s, i))
  {
    RemoveAtKeeps(s.rootgc, i);
    hide NoDup, RemoveAt;
  }

  lemma FreeRootInv(s: State, i: nat)
    requires Wf(s) && NoDangling(s) && i < |s.rootgc| && Condemned(s, s.rootgc[i])
    requires s.rootgc[i] in s.openupval ==> s.openupval[s.rootgc[i]] == []
    ensures Wf(FreeRoot(s, i)) && NoDangling(FreeRoot(s, i))
  {
    var r := s.rootgc[i];
    var z := FreeRoot(s, i);
    assert r in s.rootgc;
    assert Gc(s.running) in Roots(s) && Alive(s, Gc(s.running));
    assert r in s.objs && !s.objs[r].Str? && !s.objs[r].Open? && (s.objs[r].Thread? ==> r in s.openupval);
    hide StringTable, OpenLists, RootList, Threads, NoDangling;
    FreedNoDangling(s, z, r);
    FreeRootList(s, i);
    DropThreads(s, z, r);
    DropNonString(s.objs, s.strt, r);
    DropNonOpen(s, z, r);
  }

  lemma WhitenWf(s: State, r: Ref)
    requires Wf(s) && r in s.objs
    ensures Wf(Whiten(s, r))
  {
    hide StringTable, NoDup;
  }

  /** Recolouring that kills nothing, and revives only what refers to nothing dead. */
  lemma RecoloredNoDangling(s: State, t: State)
    requires NoDangling(s) && t.objs == s.objs && Roots(t) == Roots(s)
    requires forall x :: x in s.objs && !IsDead(s, x) ==> !IsDead(t, x)
    requires forall x, v :: x in s.objs && IsDead(s, x) && !IsDead(t, x) && v in Holds(s.objs, s.objs[x]) ==> Alive(s, v)
    ensures NoDangling(t)
  {
    hide Holds;
    forall v | v in Roots(t) ensures Alive(t, v) { assert Alive(s, v); }
    forall x, v | x in t.objs && !IsDead(t, x) && v in Holds(t.objs, t.objs[x]) ensures Alive(t, v) {
      assert Alive(s, v);
    }
  }

  /** Only a string can be dead and yet not condemned: the main thread is a root. */
  lemma FixedDead(s: State, r: Ref)
    requires Threads(s) && NoDangling(s) && r in s.objs && IsDead(s, r) && r in s.fixed
    ensures Holds(s.objs, s.objs[r]) == []
  {
    assert Gc(s.mainthread) in Roots(s) && Alive(s, Gc(s.mainthread));
  }

  /** makewhite keeps the invariant: what it revives refers to nothing. */
  lemma WhitenInv(s: State, r: Ref)
    requires Wf(s) && NoDangling(s) && r in s.objs && !Condemned(s, r)
    ensures Wf(Whiten(s, r)) && NoDangling(Whiten(s, r))
  {
    hide NoDangling, Holds, RootList, StringTable, OpenLists, Threads;
    WhitenWf(s, r);
    if IsDead(s, r) { FixedDead(s, r); }
    RecoloredNoDangling(s, Whiten(s, r));
  }
}
