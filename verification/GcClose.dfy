/** Closing upvalues (luaF_close in lfunc.c, luaC_linkupval in lgc.c). */
module GcClose {
  import opened GcHeap
  import opened GcMark
  import opened GcPropagate
  import opened GcState
  import opened GcCycle
  import opened GcFree

  function SlotValue(s: State, u: Ref): Value
    requires u in s.objs && s.objs[u].Open?
  {
    var q := SlotOf(s.objs, s.objs[u].thread, s.objs[u].level);
    if q == [] then Plain else q[0]
  }

  /** The first open upvalue of `t` leaves the lists, with a copy of its value, and joins rootgc. */
  function Detach(s: State, t: Ref): State
    requires t in s.openupval && s.openupval[t] != [] && s.openupval[t][0] in s.objs && s.objs[s.openupval[t][0]].Open?
  {
    var u := s.openupval[t][0];
    LinkAt(s.(objs := s.objs[u := Closed(SlotValue(s, u))],
              openupval := s.openupval[t := s.openupval[t][1..]], uvhead := Remove(s.uvhead, u)), 0, u)
  }

  /** luaC_linkupval, the colour: a gray upvalue turns black under a barrier, or white. */
  function Relink(s: State, u: Ref): State
    requires u in s.objs && s.objs[u].Closed?
  {
    if !IsGray(s.m, u) then s
    else if s.phase.Propagate? then s.(m := MarkAll(s.objs, Paint(s.m, u, Black), [s.objs[u].value]))
    else Whiten(s, u)
  }

  /** One round of the loop of luaF_close. */
  function CloseOne(s: State, t: Ref): State
    requires t in s.openupval && s.openupval[t] != [] && s.openupval[t][0] in s.objs && s.objs[s.openupval[t][0]].Open?
  {
    var u := s.openupval[t][0];
    if IsDead(s, u) then FreeOpen(s, t, 0) else Relink(Detach(s, t), u)
  }

  lemma DetachOpen(s: State, t: Ref)
    requires OpenLists(s) && t in s.openupval && s.openupval[t] != []
    ensures s.openupval[t][0] in s.objs && s.objs[s.openupval[t][0]].Open? && s.objs[s.openupval[t][0]].thread == t
    ensures t in s.objs && s.objs[t].Thread? && OpenMembers(Detach(s, t)) && UvHead(Detach(s, t))
  {
    var u := s.openupval[t][0];
    assert u in s.openupval[t];
    LevelsDistinct(s.objs, s.openupval[t]);
    NoDupTail(s.openupval[t]);
    RemoveKeeps(s.uvhead, u);
    hide NoDup, Remove, OpenSorted;
  }

  lemma DetachOpenLists(s: State, t: Ref)
    requires OpenLists(s) && t in s.openupval && s.openupval[t] != []
    ensures s.openupval[t][0] in s.objs && s.objs[s.openupval[t][0]].Open? && OpenLists(Detach(s, t))
  {
    DetachOpen(s, t);
    hide UvHead, NoDup, Decreasing, Remove;
    var z := Detach(s, t);
    forall x | x in z.openupval ensures Decreasing(z.objs, z.openupval[x]) {
      if x == t { DecreasingTail(s.objs, s.openupval[t]); }
      DecreasingFrame(s.objs, z.objs, z.openupval[x]);
    }
  }

  lemma DecreasingTail(objs: Objects, q: seq<Ref>)
    requires q != [] && Decreasing(objs, q)
    ensures Decreasing(objs, q[1..]) && forall u :: u in q[1..] ==> u != q[0]
  {}

  /** Frame facts for an object that turns from an open into a closed upvalue. */
  lemma DetachStrings(objs: Objects, strt: seq<seq<Ref>>, u: Ref, v: Value)
    requires StringTable(objs, strt) && u in objs && objs[u].Open?
    ensures StringTable(objs[u := Closed(v)], strt)
  {
    hide NoDup;
  }

  lemma DetachRoots(s: State, z: State, u: Ref, v: Value)
    requires RootList(s) && u in s.objs && s.objs[u].Open? && z.objs == s.objs[u := Closed(v)] && z.rootgc == [u] + s.rootgc
    ensures RootList(z)
  {
    hide NoDup;
    NoDupCons(u, s.rootgc);
  }

  lemma DetachThreads(s: State, z: State, u: Ref, v: Value)
    requires Threads(s) && u in s.objs && s.objs[u].Open? && z.objs == s.objs[u := Closed(v)]
    requires z.mainthread == s.mainthread && z.running == s.running && z.fixed == s.fixed
    ensures Threads(z)
  {}

  lemma DetachWf(s: State, t: Ref)
    requires Wf(s) && t in s.openupval && s.openupval[t] != []
    ensures s.openupval[t][0] in s.objs && s.objs[s.openupval[t][0]].Open? && Wf(Detach(s, t))
  {
    hide RootList, StringTable, OpenLists, Threads, Remove;
    DetachOpenLists(s, t);
    var u := s.openupval[t][0];
    DetachStrings(s.objs, s.strt, u, SlotValue(s, u));
    DetachRoots(s, Detach(s, t), u, SlotValue(s, u));
    DetachThreads(s, Detach(s, t), u, SlotValue(s, u));
  }

  lemma DetachHolds(objs: Objects, u: Ref, v: Value, x: Ref)
    requires u in objs && objs[u].Open? && x in objs
    ensures x != u ==> Holds(objs[u := Closed(v)], objs[x]) == Holds(objs, objs[x])
    ensures Holds(objs[u := Closed(v)], Closed(v)) == [v]
  {
    hide TabRefs;
  }

  lemma DetachNoDangling(s: State, t: Ref)
    requires Wf(s) && NoDangling(s) && t in s.openupval && s.openupval[t] != [] && !IsDead(s, s.openupval[t][0])
    ensures s.openupval[t][0] in s.objs && s.objs[s.openupval[t][0]].Open? && NoDangling(Detach(s, t))
  {
    hide RootList, StringTable, OpenLists, Threads, Remove, Holds;
    DetachOpenLists(s, t);
    var u := s.openupval[t][0];
    var v := SlotValue(s, u);
    var z := Detach(s, t);
    assert Alive(s, v) by { SlotAlive(s, u); }
    forall w | w in Roots(z) ensures Alive(z, w) { assert Alive(s, w); }
    forall x, w | x in z.objs && !IsDead(z, x) && w in Holds(z.objs, z.objs[x]) ensures Alive(z, w) {
      DetachHolds(s.objs, u, v, x);
      if x != u { assert Alive(s, w); }
    }
  }

  lemma SlotAlive(s: State, u: Ref)
    requires NoDangling(s) && u in s.objs && s.objs[u].Open? && !IsDead(s, u)
    ensures Alive(s, SlotValue(s, u))
  {
    var q := SlotOf(s.objs, s.objs[u].thread, s.objs[u].level);
    assert Holds(s.objs, s.objs[u]) == q;
    if q != [] { assert q[0] in q; }
  }

  /** The invariant of the sweep phases, with the number of string lists already swept. */
  ghost predicate Sweeping(s: State, strings: nat) {
    Wf(s) && NoDangling(s) && Swept(s, strings) && StacksNotBlack(s)
  }

  /** Colours of strings and of objects of rootgc do not change with an open upvalue. */
  lemma StringsUnchanged(s: State, z: State, u: Ref, strings: nat)
    requires SweptStrings(s, strings) && StringTable(s.objs, s.strt) && u in s.objs && !s.objs[u].Str?
    requires z.strt == s.strt && z.currentwhite == s.currentwhite
    requires forall r :: r in s.m.color && r != u ==> r in z.m.color && z.m.color[r] == s.m.color[r]
    ensures SweptStrings(z, strings)
  {
    hide NoDup;
    forall i, r | 0 <= i < strings && i < |z.strt| && r in z.strt[i] ensures IsFresh(z, r) {
      assert r in s.strt[i] && IsFresh(s, r);
    }
  }

  lemma FreeOpenSweptRoots(s: State, t: Ref, i: nat)
    requires SweptRoots(s) && OpenLists(s) && RootList(s) && t in s.openupval && i < |s.openupval[t]|
    ensures SweptRoots(FreeOpen(s, t, i))
  {
    hide NoDup, Remove, RemoveAt, Decreasing, UvHead;
    LevelsDistinct(s.objs, s.openupval[t]);
    RemoveAtKeeps(s.openupval[t], i);
    var z := FreeOpen(s, t, i);
    var u := s.openupval[t][i];
    assert u in s.openupval[t];
    forall j | 0 <= j < z.sweepgc ensures SweptObject(z, z.rootgc[j]) {
      var r := s.rootgc[j];
      assert SweptObject(s, r) && r in s.rootgc;
      forall x | r in z.openupval && x in z.openupval[r] ensures IsFresh(z, x) {
        if r == t { assert x in RemoveAt(s.openupval[t], i); } else { assert s.objs[x].thread == r; }
        assert x in s.openupval[r] && IsFresh(s, x) && x != u;
      }
    }
  }

  lemma FreeOpenSwept(s: State, t: Ref, i: nat, strings: nat)
    requires Swept(s, strings) && StacksNotBlack(s) && OpenLists(s) && StringTable(s.objs, s.strt) && RootList(s)
    requires t in s.openupval && i < |s.openupval[t]|
    ensures Swept(FreeOpen(s, t, i), strings) && StacksNotBlack(FreeOpen(s, t, i))
  {
    hide RootList, StringTable, OpenSorted, UvHead, SweptRoots, SweptStrings, Remove, RemoveAt;
    FreeOpenSweptRoots(s, t, i);
    assert s.openupval[t][i] in s.openupval[t];
    StringsUnchanged(s, FreeOpen(s, t, i), s.openupval[t][i], strings);
  }

  lemma FirstOpen(s: State, t: Ref)
    requires OpenMembers(s) && t in s.openupval && s.openupval[t] != []
    ensures s.openupval[t][0] in s.objs && s.objs[s.openupval[t][0]].Open? && s.objs[s.openupval[t][0]].thread == t
  {
    assert s.openupval[t][0] in s.openupval[t];
  }

  /** The upvalue that joins rootgc is current-white, so it may stand before the sweep position. */
  lemma DetachSweptRoots(s: State, z: State, t: Ref)
    requires SweptRoots(s) && OpenMembers(s) && RootList(s) && t in s.openupval && s.openupval[t] != []
    requires z.rootgc == [s.openupval[t][0]] + s.rootgc && z.sweepgc == (if s.sweepgc > 0 then s.sweepgc + 1 else 0)
    requires z.openupval == s.openupval[t := s.openupval[t][1..]] && z.currentwhite == s.currentwhite
    requires IsFresh(z, s.openupval[t][0])
    requires forall r :: r in s.m.color && r != s.openupval[t][0] ==> r in z.m.color && z.m.color[r] == s.m.color[r]
    ensures SweptRoots(z)
  {
    hide NoDup;
    var u := s.openupval[t][0];
    assert u in s.openupval[t];
    forall j | 0 <= j < z.sweepgc ensures SweptObject(z, z.rootgc[j]) {
      if j > 0 {
        var r := s.rootgc[j - 1];
        assert SweptObject(s, r) && r in s.rootgc;
        forall x | r in z.openupval && x in z.openupval[r] ensures IsFresh(z, x) {
          assert x in s.openupval[r] && IsFresh(s, x);
        }
      }
    }
  }

  lemma DetachSwept(s: State, t: Ref, strings: nat)
    requires Sweeping(s, strings) && t in s.openupval && s.openupval[t] != [] && !IsDead(s, s.openupval[t][0])
    requires !s.phase.Propagate?
    ensures s.openupval[t][0] in s.objs && s.objs[s.openupval[t][0]].Open?
    ensures Swept(CloseOne(s, t), strings) && StacksNotBlack(CloseOne(s, t))
  {
    hide NoDup, Remove, OpenMembers, OpenSorted, UvHead, NoDangling, StringTable, RootList, SweptRoots, SweptStrings;
    FirstOpen(s, t);
    var u := s.openupval[t][0];
    var z := CloseOne(s, t);
    assert IsFresh(z, u);
    DetachSweptRoots(s, z, t);
    StringsUnchanged(s, z, u, strings);
  }

  lemma CloseOneSweeping(s: State, t: Ref, strings: nat)
    requires Sweeping(s, strings) && t in s.openupval && s.openupval[t] != [] && !s.phase.Propagate?
    ensures s.openupval[t][0] in s.objs && s.objs[s.openupval[t][0]].Open?
    ensures Sweeping(CloseOne(s, t), strings)
  {
    hide RootList, StringTable, OpenSorted, UvHead, Threads, Remove, NoDangling, Swept, StacksNotBlack;
    var u := s.openupval[t][0];
    FirstOpen(s, t);
    if IsDead(s, u) {
      assert Condemned(s, u) by { FixedKinds(s, u); }
      FreeOpenInv(s, t, 0);
      FreeOpenSwept(s, t, 0, strings);
    } else {
      DetachSwept(s, t, strings);
      DetachWf(s, t);
      DetachNoDangling(s, t);
      if IsGray(s.m, u) { WhitenInv(Detach(s, t), u); }
    }
  }

  lemma FixedKinds(s: State, u: Ref)
    requires Threads(s) && u in s.objs && s.objs[u].Open?
    ensures u !in s.fixed
  {}

  /** A gray upvalue that closes is painted black; only its value may then break the invariant. */
  lemma TricolorDetach(objs: Objects, m: Marks, u: Ref, v: Value)
    requires Tricolor(objs, m) && u in objs && objs[u].Open?
    ensures IsWhite(m, u) ==> Tricolor(objs[u := Closed(v)], m)
    ensures IsGray(m, u) ==> TricolorBut(objs[u := Closed(v)], Paint(m, u, Black), {u})
    ensures !IsBlack(m, u)
  {
    hide GrayLists, Holds;
    var objs' := objs[u := Closed(v)];
    DetachGray(objs, m, u, v);
    forall r | IsBlack(m, r) ensures Holds(objs', objs'[r]) == Holds(objs, objs[r]) { DetachHolds(objs, u, v, r); }
  }

  lemma DetachGray(objs: Objects, m: Marks, u: Ref, v: Value)
    requires GrayLists(objs, m) && u in objs && objs[u].Open?
    ensures GrayLists(objs[u := Closed(v)], m) && (IsGray(m, u) ==> GrayLists(objs[u := Closed(v)], Paint(m, u, Black)))
  {
    hide NoDup;
  }

  lemma TricolorRelink(objs: Objects, m: Marks, u: Ref, v: Value)
    requires TricolorBut(objs, Paint(m, u, Black), {u}) && u in objs && objs[u] == Closed(v) && IsGray(m, u)
    ensures var t := MarkAll(objs, Paint(m, u, Black), [v]); Tricolor(objs, t) && MoreMarked(m, t)
  {
    hide TricolorBut, Tricolor, MarkAll, Holds, Ext, MoreMarked;
    var p := Paint(m, u, Black);
    PaintedExt(objs, m, u, v);
    ExtTricolor(objs, p, MarkAll(objs, p, [v]), {u});
    ClosedHolds(objs, v);
    SkipNone(objs, MarkAll(objs, p, [v]), u);
  }

  lemma PaintedExt(objs: Objects, m: Marks, u: Ref, v: Value)
    requires TricolorBut(objs, Paint(m, u, Black), {u}) && IsGray(m, u)
    ensures var p := Paint(m, u, Black); var t := MarkAll(objs, p, [v]);
      Ext(objs, p, t) && AllMarked(t, [v]) && MoreMarked(m, t)
  {
    hide MarkAll, GrayLists, Holds, NoDup;
    MarkAllExt(objs, Paint(m, u, Black), [v]);
  }

  lemma ClosedHolds(objs: Objects, v: Value)
    ensures Holds(objs, Closed(v)) == [v]
  {}

  lemma ClosePropagate(s: State, t: Ref)
    requires Inv(s) && s.phase.Propagate? && t in s.openupval && s.openupval[t] != []
    ensures s.openupval[t][0] in s.objs && s.objs[s.openupval[t][0]].Open? && Inv(CloseOne(s, t))
  {
    hide TricolorBut, NoDangling, RootList, StringTable, OpenSorted, UvHead, Threads, MoreMarked, MarkAll;
    FirstOpen(s, t);
    var u := s.openupval[t][0];
    var z := Detach(s, t);
    DetachWf(s, t);
    DetachNoDangling(s, t);
    TricolorDetach(s.objs, s.m, u, SlotValue(s, u));
    if IsGray(s.m, u) {
      TricolorRelink(z.objs, s.m, u, SlotValue(s, u));
      MarkedStays(z.objs, s.m, CloseOne(s, t).m, [Gc(s.mainthread), s.registry]);
      PropagatePhase(z, CloseOne(s, t));
    }
  }

  lemma CloseFresh(s: State, t: Ref)
    requires Wf(s) && NoDangling(s) && AllFresh(s) && t in s.openupval && s.openupval[t] != []
    ensures s.openupval[t][0] in s.objs && s.objs[s.openupval[t][0]].Open?
    ensures var z := CloseOne(s, t); Wf(z) && NoDangling(z) && AllFresh(z)
  {
    hide NoDangling, RootList, StringTable, OpenSorted, UvHead, Threads;
    FirstOpen(s, t);
    DetachWf(s, t);
    DetachNoDangling(s, t);
  }

  /** Closing an upvalue keeps the invariant in every phase. */
  lemma CloseOneInv(s: State, t: Ref)
    requires Inv(s) && t in s.openupval && s.openupval[t] != []
    ensures s.openupval[t][0] in s.objs && s.objs[s.openupval[t][0]].Open? && Inv(CloseOne(s, t))
  {
    hide Wf, NoDangling, TricolorBut, Swept, StacksNotBlack;
    match s.phase {
      case Propagate => ClosePropagate(s, t);
      case SweepString => CloseOneSweeping(s, t, s.sweepstrgc);
      case Sweep => CloseOneSweeping(s, t, |s.strt|);
      case _ => CloseFresh(s, t);
    }
  }

  function OpenCount(s: State, t: Ref): nat { if t in s.openupval then |s.openupval[t]| else 0 }

  /** Whether the loop of luaF_close goes on: the first open upvalue is at or above `level`. */
  predicate MustClose(s: State, t: Ref, level: nat) {
    t in s.openupval && s.openupval[t] != [] && s.openupval[t][0] in s.objs && s.objs[s.openupval[t][0]].Open?
    && s.objs[s.openupval[t][0]].level >= level
  }

  lemma CloseOneShorter(s: State, t: Ref)
    requires MustClose(s, t, 0)
    ensures t in CloseOne(s, t).openupval && CloseOne(s, t).openupval[t] == s.openupval[t][1..]
  {}

  /** luaF_close: closes the upvalues of thread `t` at or above `level`. */
  function Close(s: State, t: Ref, level: nat): State
    decreases OpenCount(s, t)
  {
    if MustClose(s, t, level) then
      CloseOneShorter(s, t);
      Close(CloseOne(s, t), t, level)
    else s
  }

  lemma {:induction false} CloseInv(s: State, t: Ref, level: nat)
    requires Inv(s)
    ensures Inv(Close(s, t, level))
    decreases OpenCount(s, t)
  {
    hide Inv, CloseOne;
    if MustClose(s, t, level) {
      CloseOneShorter(s, t);
      CloseOneInv(s, t);
      CloseInv(CloseOne(s, t), t, level);
    }
  }

  /** No open upvalue at or above `level` is left. */
  lemma {:induction false} CloseAll(s: State, t: Ref, level: nat)
    requires Inv(s) && t in s.openupval
    ensures var z := Close(s, t, level);
      t in z.openupval && forall u :: u in z.openupval[t] ==> u in z.objs && z.objs[u].Open? && z.objs[u].level < level
    decreases OpenCount(s, t)
  {
    hide Inv, CloseOne;
    if MustClose(s, t, level) {
      CloseOneShorter(s, t);
      CloseOneInv(s, t);
      CloseAll(CloseOne(s, t), t, level);
    } else {
      BelowFirst(s, t, level);
    }
  }

  lemma BelowFirst(s: State, t: Ref, level: nat)
    requires Inv(s) && t in s.openupval && !MustClose(s, t, level)
    ensures forall u :: u in s.openupval[t] ==> u in s.objs && s.objs[u].Open? && s.objs[u].level < level
  {
    hide NoDangling, PhaseInv, RootList, StringTable, UvHead, Threads;
    var q := s.openupval[t];
    forall u | u in q ensures u in s.objs && s.objs[u].Open? && s.objs[u].level < level {
      var i :| 0 <= i < |q| && q[i] == u;
      assert q[0] in q && Decreasing(s.objs, q);
      assert i > 0 ==> Level(s.objs, q[0]) > Level(s.objs, q[i]);
    }
  }
}
