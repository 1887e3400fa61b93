/** The sweep phases (sweeplist and singlestep in lgc.c). */
module GcSweep {
  import opened GcHeap
  import opened GcState
  import opened GcFree
  import opened GcClose

  /** sweepwholelist on the open upvalues of a thread, from position `i`. */
  function SweepOpen(s: State, t: Ref, i: nat): State
    decreases OpenCount(s, t) - i
  {
    if t !in s.openupval || i >= |s.openupval[t]| then s
    else
      var u := s.openupval[t][i];
      if Condemned(s, u) then SweepOpen(FreeOpen(s, t, i), t, i) else SweepOpen(Whiten(s, u), t, i + 1)
  }

  /** One round of sweeplist on rootgc. A dead thread closes its upvalues before it is freed. */
  function SweepObject(s: State): State
    requires s.sweepgc < |s.rootgc|
  {
    var r := s.rootgc[s.sweepgc];
    var a := SweepOpen(s, r, 0);
    if !Condemned(a, r) then
      var b := Whiten(a, r);
      b.(sweepgc := b.sweepgc + 1)
    else
      var b := Close(a, r, 0);
      var i := a.sweepgc + |b.rootgc| - |a.rootgc|;
      if 0 <= i < |b.rootgc| then FreeRoot(b, i) else b
  }

  lemma WhitenSwept(s: State, r: Ref, strings: nat)
    requires Swept(s, strings) && StacksNotBlack(s)
    ensures Swept(Whiten(s, r), strings) && StacksNotBlack(Whiten(s, r))
  {
    var z := Whiten(s, r);
    forall j | 0 <= j < z.sweepgc ensures SweptObject(z, z.rootgc[j]) { assert SweptObject(s, s.rootgc[j]); }
    forall j, x | 0 <= j < strings && j < |z.strt| && x in z.strt[j] ensures IsFresh(z, x) { assert IsFresh(s, x); }
  }

  lemma WhitenSweeping(s: State, r: Ref, strings: nat)
    requires Sweeping(s, strings) && r in s.objs && !Condemned(s, r)
    ensures Sweeping(Whiten(s, r), strings)
  {
    hide Wf, NoDangling, Swept, StacksNotBlack;
    WhitenInv(s, r);
    WhitenSwept(s, r, strings);
  }

  /** Sweeping or closing upvalues leaves every other object, its colour and its place alone. */
  ghost predicate OnlyOpen(s: State, z: State) {
    && z.currentwhite == s.currentwhite && z.fixed == s.fixed && z.phase == s.phase && z.strt == s.strt
    && Roots(z) == Roots(s) && z.openupval.Keys == s.openupval.Keys
    && (forall x :: x in s.objs && !s.objs[x].Open? ==> x in z.objs && z.objs[x] == s.objs[x])
    && (forall x :: x in s.objs && !s.objs[x].Open? && x in s.m.color ==> x in z.m.color && z.m.color[x] == s.m.color[x])
  }

  lemma OnlyOpenTrans(s: State, y: State, z: State)
    requires OnlyOpen(s, y) && OnlyOpen(y, z)
    ensures OnlyOpen(s, z)
  {}

  /** One round of the sweep of a thread's open upvalues. */
  function SweepOneOpen(s: State, t: Ref, i: nat): (State, nat)
    requires t in s.openupval && i < |s.openupval[t]|
  {
    var u := s.openupval[t][i];
    if Condemned(s, u) then (FreeOpen(s, t, i), i) else (Whiten(s, u), i + 1)
  }

  lemma SweepOneOpenKeeps(s: State, t: Ref, i: nat, strings: nat)
    requires Sweeping(s, strings) && t in s.openupval && i < |s.openupval[t]|
    ensures var (z, _) := SweepOneOpen(s, t, i); Sweeping(z, strings) && |z.uvhead| <= |s.uvhead|
  {
    hide NoDangling, RootList, StringTable, OpenSorted, Threads, Swept, StacksNotBlack, Remove;
    var u := s.openupval[t][i];
    assert u in s.openupval[t];
    if Condemned(s, u) {
      FreeOpenInv(s, t, i);
      FreeOpenSwept(s, t, i, strings);
      RemoveKeeps(s.uvhead, u);
    } else {
      WhitenSweeping(s, u, strings);
    }
  }

  lemma SweepOneOpenOnly(s: State, t: Ref, i: nat)
    requires OpenMembers(s) && t in s.openupval && i < |s.openupval[t]|
    ensures OnlyOpen(s, SweepOneOpen(s, t, i).0)
  {
    hide Remove, RemoveAt;
    assert s.openupval[t][i] in s.openupval[t];
  }

  lemma SweepOneOpenFresh(s: State, t: Ref, i: nat)
    requires OpenMembers(s) && t in s.openupval && i < |s.openupval[t]| && NoDup(s.openupval[t])
    requires forall j :: 0 <= j < i ==> IsFresh(s, s.openupval[t][j])
    ensures var (z, k) := SweepOneOpen(s, t, i);
      && z.rootgc == s.rootgc && z.sweepgc == s.sweepgc && t in z.openupval && k <= |z.openupval[t]|
      && forall j :: 0 <= j < k ==> IsFresh(z, z.openupval[t][j])
  {
    hide Remove, OpenMembers;
  }

  lemma {:induction false} SweepOpenKeeps(s: State, t: Ref, i: nat, strings: nat)
    requires Sweeping(s, strings)
    requires t in s.openupval && i <= |s.openupval[t]| && forall j :: 0 <= j < i ==> IsFresh(s, s.openupval[t][j])
    ensures var z := SweepOpen(s, t, i);
      && Sweeping(z, strings) && OnlyOpen(s, z) && z.rootgc == s.rootgc && z.sweepgc == s.sweepgc
      && |z.uvhead| <= |s.uvhead| && t in z.openupval && forall u :: u in z.openupval[t] ==> IsFresh(z, u)
    decreases OpenCount(s, t) - i
  {
    if i == |s.openupval[t]| { return; }
    hide NoDangling, RootList, StringTable, OpenMembers, UvHead, Decreasing, Threads, Swept, StacksNotBlack, OnlyOpen, SweepOneOpen, NoDup;
    var (z, k) := SweepOneOpen(s, t, i);
    SweepOneOpenKeeps(s, t, i, strings);
    SweepOneOpenOnly(s, t, i);
    LevelsDistinct(s.objs, s.openupval[t]);
    SweepOneOpenFresh(s, t, i);
    SweepShorter(s, t, i);
    SweepOpenKeeps(z, t, k, strings);
    OnlyOpenTrans(s, z, SweepOpen(s, t, i));
  }

  lemma SweepShorter(s: State, t: Ref, i: nat)
    requires t in s.openupval && i < |s.openupval[t]|
    ensures var (z, k) := SweepOneOpen(s, t, i);
      t in z.openupval && |z.openupval[t]| - k < |s.openupval[t]| - i && SweepOpen(s, t, i) == SweepOpen(z, t, k)
  {}

  /** Closing puts upvalues in front of rootgc, at most as many as were open. */
  ghost predicate Prepended(s: State, z: State) {
    var d := |z.rootgc| - |s.rootgc|;
    && d >= 0 && z.rootgc[d..] == s.rootgc && z.sweepgc == (if s.sweepgc > 0 then s.sweepgc + d else 0)
    && d + |z.uvhead| <= |s.uvhead|
  }

  lemma PrependedTrans(s: State, y: State, z: State)
    requires Prepended(s, y) && Prepended(y, z)
    ensures Prepended(s, z)
  {
    var d, e := |y.rootgc| - |s.rootgc|, |z.rootgc| - |y.rootgc|;
    assert z.rootgc[d + e..] == z.rootgc[e..][d..];
  }

  lemma CloseOneOnly(s: State, t: Ref)
    requires OpenMembers(s) && MustClose(s, t, 0) && !s.phase.Propagate?
    ensures OnlyOpen(s, CloseOne(s, t))
  {
    hide RemoveAt, Remove;
    assert s.openupval[t][0] in s.openupval[t];
  }

  lemma CloseOnePrepends(s: State, t: Ref)
    requires OpenMembers(s) && UvHead(s) && MustClose(s, t, 0) && !s.phase.Propagate?
    ensures Prepended(s, CloseOne(s, t))
  {
    hide RemoveAt, Remove, OpenMembers, NoDup;
    var u := s.openupval[t][0];
    RemoveKeeps(s.uvhead, u);
    assert ([u] + s.rootgc)[1..] == s.rootgc;
  }

  lemma {:induction false} CloseSweeping(s: State, t: Ref, strings: nat)
    requires Sweeping(s, strings) && !s.phase.Propagate? && t in s.openupval
    ensures var z := Close(s, t, 0);
      Sweeping(z, strings) && OnlyOpen(s, z) && Prepended(s, z) && t in z.openupval && z.openupval[t] == []
    decreases OpenCount(s, t)
  {
    hide NoDangling, RootList, StringTable, OpenSorted, OpenMembers, UvHead, Threads, Swept, StacksNotBlack, CloseOne, Prepended;
    if s.openupval[t] == [] { assert Prepended(s, s) by { PrependedRefl(s); } return; }
    FirstOpen(s, t);
    CloseOneShorter(s, t);
    CloseOneSweeping(s, t, strings);
    CloseOneOnly(s, t);
    CloseOnePrepends(s, t);
    CloseSweeping(CloseOne(s, t), t, strings);
    OnlyOpenTrans(s, CloseOne(s, t), Close(s, t, 0));
    PrependedTrans(s, CloseOne(s, t), Close(s, t, 0));
  }

  lemma PrependedRefl(s: State)
    ensures Prepended(s, s)
  {}

  /** What is left to sweep, counting the upvalues that closing may yet add. */
  function Rest(s: State): int { |s.rootgc| - s.sweepgc + |s.uvhead| }

  /** Before a dead object of rootgc is freed its open upvalues are closed. */
  lemma SweepDeadClosed(s: State, strings: nat)
    requires Sweeping(s, strings) && !s.phase.Propagate? && s.sweepgc < |s.rootgc| && Condemned(s, s.rootgc[s.sweepgc])
    ensures var r := s.rootgc[s.sweepgc]; var b := Close(s, r, 0); var i := s.sweepgc + |b.rootgc| - |s.rootgc|;
      && Sweeping(b, strings) && Prepended(s, b) && b.sweepgc <= i < |b.rootgc| && b.rootgc[i] == r && Condemned(b, r)
      && (r in b.openupval ==> b.openupval[r] == [])
  {
    hide NoDangling, StringTable, OpenSorted, OpenMembers, UvHead, Threads, Swept, StacksNotBlack, NoDup;
    var r := s.rootgc[s.sweepgc];
    var b := Close(s, r, 0);
    assert r in s.rootgc;
    if r in s.openupval { CloseSweeping(s, r, strings); } else { PrependedRefl(s); }
    var d := |b.rootgc| - |s.rootgc|;
    assert b.rootgc[d..][s.sweepgc] == b.rootgc[s.sweepgc + d];
  }

  /** A dead object of rootgc is freed. */
  lemma SweepDead(s: State, strings: nat)
    requires Sweeping(s, strings) && !s.phase.Propagate? && s.sweepgc < |s.rootgc| && Condemned(s, s.rootgc[s.sweepgc])
    ensures var r := s.rootgc[s.sweepgc]; var b := Close(s, r, 0); var i := s.sweepgc + |b.rootgc| - |s.rootgc|;
      0 <= i < |b.rootgc| && b.rootgc[i] == r && Sweeping(FreeRoot(b, i), strings) && Rest(FreeRoot(b, i)) < Rest(s)
  {
    hide Sweeping, Close, Condemned;
    SweepDeadClosed(s, strings);
    var b := Close(s, s.rootgc[s.sweepgc], 0);
    FreeRootSweeping(b, s.sweepgc + |b.rootgc| - |s.rootgc|, strings);
  }

  lemma FreeRootSweeping(s: State, i: nat, strings: nat)
    requires Sweeping(s, strings) && s.sweepgc <= i < |s.rootgc| && Condemned(s, s.rootgc[i])
    requires s.rootgc[i] in s.openupval ==> s.openupval[s.rootgc[i]] == []
    ensures Sweeping(FreeRoot(s, i), strings)
  {
    hide NoDangling, OpenSorted, UvHead, Threads, SweptRoots, SweptStrings;
    var r := s.rootgc[i];
    assert r in s.rootgc;
    FreeRootInv(s, i);
    FreeRootSwept(s, i);
    StringsUnchanged(s, FreeRoot(s, i), r, strings);
  }

  lemma FreeRootSwept(s: State, i: nat)
    requires SweptRoots(s) && RootList(s) && OpenMembers(s) && s.sweepgc <= i < |s.rootgc|
    ensures SweptRoots(FreeRoot(s, i))
  {
    var r := s.rootgc[i];
    var z := FreeRoot(s, i);
    assert r in s.rootgc;
    forall j | 0 <= j < z.sweepgc ensures SweptObject(z, z.rootgc[j]) {
      var x := s.rootgc[j];
      assert SweptObject(s, x) && x != r;
      forall u | x in z.openupval && u in z.openupval[x] ensures IsFresh(z, u) { assert IsFresh(s, u) && u in s.openupval[x]; }
    }
  }

  /** The sweep positions and the phase matter to no other part of the invariant. */
  lemma PositionsOnly(s: State, z: State)
    requires Wf(s) && NoDangling(s) && z == s.(sweepgc := z.sweepgc, sweepstrgc := z.sweepstrgc, phase := z.phase)
    ensures Wf(z) && NoDangling(z)
  {
    hide Holds, NoDup, StringTable, Decreasing;
    forall v | v in Roots(z) ensures Alive(z, v) { assert Alive(s, v); }
    forall x, v | x in z.objs && !IsDead(z, x) && v in Holds(z.objs, z.objs[x]) ensures Alive(z, v) {
      assert !IsDead(s, x) && Alive(s, v);
    }
  }

  lemma SweepAliveSwept(s: State, strings: nat)
    requires Swept(s, strings) && StacksNotBlack(s) && s.sweepgc < |s.rootgc| && SweptObject(s, s.rootgc[s.sweepgc])
    ensures Swept(s.(sweepgc := s.sweepgc + 1), strings) && StacksNotBlack(s.(sweepgc := s.sweepgc + 1))
  {
    var z := s.(sweepgc := s.sweepgc + 1);
    forall j | 0 <= j < z.sweepgc ensures SweptObject(z, z.rootgc[j]) { assert SweptObject(s, s.rootgc[j]); }
    forall j, x | 0 <= j < strings && j < |z.strt| && x in z.strt[j] ensures IsFresh(z, x) { assert IsFresh(s, x); }
  }

  lemma SweepAlive(s: State, strings: nat)
    requires Sweeping(s, strings) && s.sweepgc < |s.rootgc| && s.rootgc[s.sweepgc] in s.objs && !Condemned(s, s.rootgc[s.sweepgc])
    requires var r := s.rootgc[s.sweepgc]; r in s.openupval ==> forall u :: u in s.openupval[r] ==> IsFresh(s, u)
    ensures var b := Whiten(s, s.rootgc[s.sweepgc]); Sweeping(b.(sweepgc := b.sweepgc + 1), strings)
  {
    hide NoDangling, Wf, StacksNotBlack, Swept;
    var b := Whiten(s, s.rootgc[s.sweepgc]);
    WhitenSweeping(s, s.rootgc[s.sweepgc], strings);
    SweepAliveSwept(b, strings);
    PositionsOnly(b, b.(sweepgc := b.sweepgc + 1));
  }

  /** One round of sweeplist keeps the invariant and leaves less to sweep. */
  lemma SweepObjectKeeps(s: State, strings: nat)
    requires Sweeping(s, strings) && !s.phase.Propagate? && s.sweepgc < |s.rootgc|
    ensures Sweeping(SweepObject(s), strings) && Rest(SweepObject(s)) < Rest(s)
  {
    hide NoDangling, StringTable, OpenSorted, OpenMembers, UvHead, Threads, StacksNotBlack, NoDup, Close, SweepOpen;
    var r := s.rootgc[s.sweepgc];
    assert r in s.rootgc;
    var a := SweepOpen(s, r, 0);
    SweepOpenOrNot(s, r, strings);
    if !Condemned(a, r) { SweepAlive(a, strings); } else { SweepDead(a, strings); }
  }

  lemma SweepOpenOrNot(s: State, r: Ref, strings: nat)
    requires Sweeping(s, strings) && r in s.objs && !s.objs[r].Open?
    ensures var a := SweepOpen(s, r, 0);
      && Sweeping(a, strings) && a.rootgc == s.rootgc && a.sweepgc == s.sweepgc && |a.uvhead| <= |s.uvhead|
      && r in a.objs && OnlyOpen(s, a) && (r in a.openupval ==> forall u :: u in a.openupval[r] ==> IsFresh(a, u))
  {
    hide Sweeping;
    if r in s.openupval { SweepOpenKeeps(s, r, 0, strings); }
  }
}
