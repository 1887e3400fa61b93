/** What the sweep frees: condemned objects, and nothing else. */
module GcSurvive {
  import opened GcHeap
  import opened GcState
  import opened GcFree
  import opened GcClose
  import opened GcSweep
  import opened GcStrings
  import opened GcStep

  /** The object is as it was, or it is an upvalue that has closed over the value of its slot. */
  ghost predicate SameObject(s: State, z: State, r: Ref)
    requires r in s.objs && r in z.objs
  {
    z.objs[r] == s.objs[r] || (s.objs[r].Open? && z.objs[r] == Closed(SlotValue(s, r)))
  }

  /** Between two states of one sweep: everything not condemned is still there, nothing is new,
      and colours change to current-white only, on objects that were not condemned. */
  ghost predicate OnlyFreed(s: State, z: State) {
    && z.currentwhite == s.currentwhite && z.fixed == s.fixed && Roots(z) == Roots(s)
    && s.m.color.Keys == s.objs.Keys && z.m.color.Keys == z.objs.Keys
    && (forall r :: r in s.objs && !Condemned(s, r) ==> r in z.objs)
    && (forall r :: r in z.objs ==> r in s.objs && SameObject(s, z, r))
    && (forall r :: r in z.objs ==> z.m.color[r] == s.m.color[r] || (IsFresh(z, r) && !Condemned(s, r)))
  }

  lemma OnlyFreedRefl(s: State)
    requires s.m.color.Keys == s.objs.Keys
    ensures OnlyFreed(s, s)
  {}

  lemma FreedCondemned(s: State, z: State, r: Ref)
    requires OnlyFreed(s, z) && r in z.objs
    ensures Condemned(z, r) ==> Condemned(s, r)
    ensures Condemned(s, r) ==> z.m.color[r] == s.m.color[r]
  {}

  lemma SameObjectTrans(s: State, y: State, z: State, r: Ref)
    requires r in s.objs && r in y.objs && r in z.objs && SameObject(s, y, r) && SameObject(y, z, r)
    requires OpenMembers(y) && forall x :: x in y.objs ==> x in s.objs && SameObject(s, y, x)
    ensures SameObject(s, z, r)
  {
    if y.objs[r].Open? {
      var t := y.objs[r].thread;
      assert r in y.openupval[t] && t in y.objs && SameObject(s, y, t);
    }
  }

  lemma OnlyFreedTrans(s: State, y: State, z: State)
    requires OnlyFreed(s, y) && OnlyFreed(y, z) && OpenMembers(y)
    ensures OnlyFreed(s, z)
  {
    hide SameObject, OpenMembers;
    forall r | r in s.objs && !Condemned(s, r) ensures r in z.objs { FreedCondemned(s, y, r); }
    forall r | r in z.objs ensures r in s.objs && SameObject(s, z, r) { SameObjectTrans(s, y, z, r); }
    forall r | r in z.objs ensures z.m.color[r] == s.m.color[r] || (IsFresh(z, r) && !Condemned(s, r)) {
      FreedCondemned(s, y, r);
    }
  }

  lemma FreedOpen(s: State, t: Ref, i: nat)
    requires s.m.color.Keys == s.objs.Keys && t in s.openupval && i < |s.openupval[t]| && Condemned(s, s.openupval[t][i])
    ensures OnlyFreed(s, FreeOpen(s, t, i))
  {
    hide Remove, RemoveAt;
  }

  lemma FreedRoot(s: State, i: nat)
    requires s.m.color.Keys == s.objs.Keys && i < |s.rootgc| && Condemned(s, s.rootgc[i])
    ensures OnlyFreed(s, FreeRoot(s, i))
  {
    hide RemoveAt;
  }

  lemma FreedString(s: State, i: nat, k: nat)
    requires s.m.color.Keys == s.objs.Keys && i < |s.strt| && k < |s.strt[i]| && Condemned(s, s.strt[i][k])
    ensures OnlyFreed(s, FreeString(s, i, k))
  {
    hide RemoveAt;
  }

  lemma FreedWhiten(s: State, r: Ref)
    requires s.m.color.Keys == s.objs.Keys && r in s.objs && !Condemned(s, r)
    ensures OnlyFreed(s, Whiten(s, r))
  {}

  lemma FreedDetach(s: State, t: Ref)
    requires s.m.color.Keys == s.objs.Keys && MustClose(s, t, 0)
    ensures OnlyFreed(s, Detach(s, t))
  {
    hide Remove;
  }

  lemma FreedCloseOne(s: State, t: Ref)
    requires Wf(s) && MustClose(s, t, 0) && !s.phase.Propagate?
    ensures OnlyFreed(s, CloseOne(s, t))
  {
    hide RootList, StringTable, OpenLists, Threads, Detach, OnlyFreed;
    var u := s.openupval[t][0];
    if IsDead(s, u) {
      FixedKinds(s, u);
      FreedOpen(s, t, 0);
    } else {
      FreedDetach(s, t);
      DetachFrame(s, t);
      if IsGray(s.m, u) {
        DetachWf(s, t) by { Nonempty(s, t); }
        FreedWhiten(Detach(s, t), u);
        OnlyFreedTrans(s, Detach(s, t), CloseOne(s, t)) by { WfOpens(Detach(s, t)); }
      }
    }
  }

  lemma WfOpens(s: State)
    requires Wf(s)
    ensures OpenMembers(s)
  {}

  lemma Nonempty(s: State, t: Ref)
    requires MustClose(s, t, 0)
    ensures t in s.openupval && s.openupval[t] != []
  {}

  lemma DetachFrame(s: State, t: Ref)
    requires MustClose(s, t, 0)
    ensures var z := Detach(s, t); var u := s.openupval[t][0];
      z.m == s.m && z.currentwhite == s.currentwhite && z.fixed == s.fixed && z.phase == s.phase && u in z.objs && z.objs[u].Closed?
  {}

  lemma {:induction false} FreedClose(s: State, t: Ref, strings: nat)
    requires Sweeping(s, strings) && !s.phase.Propagate?
    ensures OnlyFreed(s, Close(s, t, 0))
    decreases OpenCount(s, t)
  {
    hide OnlyFreed, CloseOne, NoDangling, Swept, StacksNotBlack, RootList, StringTable, OpenSorted, UvHead, Threads;
    if !MustClose(s, t, 0) { OnlyFreedRefl(s); return; }
    CloseOneShorter(s, t);
    FreedCloseOne(s, t);
    CloseOneSweeping(s, t, strings);
    CloseOneOnly(s, t);
    var y := CloseOne(s, t);
    FreedClose(y, t, strings);
    OnlyFreedTrans(s, y, Close(s, t, 0));
  }

  lemma {:induction false} FreedSweepOpen(s: State, t: Ref, i: nat, strings: nat)
    requires Sweeping(s, strings)
    ensures OnlyFreed(s, SweepOpen(s, t, i))
    decreases OpenCount(s, t) - i
  {
    hide OnlyFreed, NoDangling, Swept, StacksNotBlack, RootList, StringTable, OpenSorted, UvHead, Threads, FreeOpen;
    if t !in s.openupval || i >= |s.openupval[t]| { OnlyFreedRefl(s); return; }
    var (y, k) := SweepOneOpen(s, t, i);
    assert s.openupval[t][i] in s.openupval[t];
    SweepOneOpenKeeps(s, t, i, strings);
    if Condemned(s, s.openupval[t][i]) { FreedOpen(s, t, i); } else { FreedWhiten(s, s.openupval[t][i]); }
    SweepShorter(s, t, i);
    FreedSweepOpen(y, t, k, strings);
    OnlyFreedTrans(s, y, SweepOpen(s, t, i));
  }

  lemma FreedPositions(s: State, z: State)
    requires s.m.color.Keys == s.objs.Keys
    requires z == s.(sweepgc := z.sweepgc, sweepstrgc := z.sweepstrgc, phase := z.phase, strt := z.strt)
    ensures OnlyFreed(s, z)
  {}

  lemma FreedAlive(s: State, r: Ref)
    requires s.m.color.Keys == s.objs.Keys && r in s.objs && !Condemned(s, r)
    ensures var b := Whiten(s, r); OnlyFreed(s, b.(sweepgc := b.sweepgc + 1))
  {}

  /** One round of sweeplist frees nothing but condemned objects. */
  lemma FreedSweepObject(s: State, strings: nat)
    requires Sweeping(s, strings) && !s.phase.Propagate? && s.sweepgc < |s.rootgc|
    ensures OnlyFreed(s, SweepObject(s))
  {
    hide OnlyFreed, NoDangling, Swept, StacksNotBlack, StringTable, OpenSorted, UvHead, Threads, SweepOpen, Close, NoDup;
    var r := s.rootgc[s.sweepgc];
    assert r in s.rootgc;
    var a := SweepOpen(s, r, 0);
    FreedSweepOpen(s, r, 0, strings);
    SweepOpenOrNot(s, r, strings);
    if !Condemned(a, r) {
      FreedAlive(a, r);
    } else {
      FreedDead(a, strings);
    }
    OnlyFreedTrans(s, a, SweepObject(s));
  }

  lemma FreedDead(s: State, strings: nat)
    requires Sweeping(s, strings) && !s.phase.Propagate? && s.sweepgc < |s.rootgc| && Condemned(s, s.rootgc[s.sweepgc])
    ensures var r := s.rootgc[s.sweepgc]; var b := Close(s, r, 0); var i := s.sweepgc + |b.rootgc| - |s.rootgc|;
      0 <= i < |b.rootgc| && OnlyFreed(s, FreeRoot(b, i))
  {
    hide OnlyFreed, NoDangling, Swept, StacksNotBlack, StringTable, RootList, OpenSorted, UvHead, Threads, Close;
    var r := s.rootgc[s.sweepgc];
    var b := Close(s, r, 0);
    SweepDeadClosed(s, strings);
    FreedClose(s, r, strings);
    var i := s.sweepgc + |b.rootgc| - |s.rootgc|;
    FreedRoot(b, i);
    OnlyFreedTrans(s, b, FreeRoot(b, i));
  }

  lemma {:induction false} FreedSweepList(s: State, i: nat, k: nat)
    requires Sweeping(s, i) && i < |s.strt| && k <= |s.strt[i]| && forall j :: 0 <= j < k ==> IsFresh(s, s.strt[i][j])
    ensures OnlyFreed(s, SweepList(s, i, k))
    decreases |s.strt[i]| - k
  {
    hide OnlyFreed, NoDangling, NoDup, OpenMembers, OpenSorted, UvHead, Threads, RootList, SweptRoots, StacksNotBlack, SweptStrings;
    if k == |s.strt[i]| { OnlyFreedRefl(s); return; }
    var r := s.strt[i][k];
    assert r in s.strt[i];
    if Condemned(s, r) {
      FreedString(s, i, k);
      FreeStringSwept(s, i, k, i);
      FreeStringInv(s, i, k);
      FreeFresh(s, i, k);
      FreedSweepList(FreeString(s, i, k), i, k);
      OnlyFreedTrans(s, FreeString(s, i, k), SweepList(s, i, k)) by { WfOpens(FreeString(s, i, k)); }
    } else {
      FreedWhiten(s, r);
      WhitenSweeping(s, r, i);
      FreedSweepList(Whiten(s, r), i, k + 1);
      OnlyFreedTrans(s, Whiten(s, r), SweepList(s, i, k)) by { WfOpens(Whiten(s, r)); }
    }
  }

  lemma {:induction false} FreedSweepSome(s: State, count: nat)
    requires Sweeping(s, |s.strt|) && s.phase.Sweep?
    ensures OnlyFreed(s, SweepSome(s, count))
    decreases count
  {
    hide OnlyFreed, NoDangling, Swept, StacksNotBlack, Threads, RootList, StringTable, OpenLists, SweepObject;
    if count == 0 || s.sweepgc >= |s.rootgc| { OnlyFreedRefl(s); return; }
    var y := SweepObject(s);
    SweepObjectKeeps(s, |s.strt|);
    SweepObjectFrame(s, |s.strt|);
    FreedSweepObject(s, |s.strt|);
    FreedSweepSome(y, count - 1);
    OnlyFreedTrans(s, y, SweepSome(s, count)) by { WfOpens(y); }
  }

  /** A step of a sweep phase frees nothing but condemned objects. */
  lemma FreedStep(s: State)
    requires Inv(s) && (s.phase.SweepString? || s.phase.Sweep?)
    ensures OnlyFreed(s, SingleStep(s))
  {
    hide OnlyFreed, Wf, NoDangling, Swept, StacksNotBlack, SweepList, SweepSome, Rehash;
    if s.phase.SweepString? {
      var y := SweepList(s, s.sweepstrgc, 0);
      FreedSweepList(s, s.sweepstrgc, 0);
      SweepListKeeps(s, s.sweepstrgc, 0);
      FreedFinish(s, y, SingleStep(s));
    } else {
      var y := SweepSome(s, GCSWEEPMAX);
      FreedSweepSome(s, GCSWEEPMAX);
      SweepSomeKeeps(s, GCSWEEPMAX);
      FreedFinish(s, y, SingleStep(s));
    }
  }

  lemma FreedFinish(s: State, y: State, z: State)
    requires OnlyFreed(s, y) && Wf(y) && z == y.(sweepgc := z.sweepgc, sweepstrgc := z.sweepstrgc, phase := z.phase, strt := z.strt)
    ensures OnlyFreed(s, z)
  {
    hide OnlyFreed, RootList, StringTable, OpenSorted, UvHead, Threads;
    FreedPositions(y, z);
    OnlyFreedTrans(s, y, z);
  }
}
