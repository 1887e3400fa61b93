/** The start of a cycle and the end of its mark phase, on the global state (markroot and atomic
    in lgc.c). */
module GcCycle {
  import opened GcHeap
  import opened GcMark
  import opened GcPropagate
  import opened GcAtomic
  import opened GcClear
  import opened GcState

  function Globals(s: State): seq<Value> {
    if s.mainthread in s.objs && s.objs[s.mainthread].Thread? then [s.objs[s.mainthread].globals] else []
  }

  /** markroot: a new cycle, with the root set marked. */
  function MarkRoot(s: State): State {
    var m := s.m.(gray := [], grayagain := [], weak := []);
    s.(m := MarkAll(s.objs, m, [Gc(s.mainthread)] + Globals(s) + [s.registry] + s.mt), phase := Propagate)
  }

  /** Marking from an all-white heap establishes the tri-colour invariant. */
  lemma FirstMarks(objs: Objects, m: Marks, vs: seq<Value>)
    requires m.color.Keys == objs.Keys && m.gray == [] && m.grayagain == [] && m.weak == []
    requires forall r :: r in objs ==> IsWhite(m, r)
    ensures var t := MarkAll(objs, m, vs);
      Tricolor(objs, t) && MoreMarked(m, t) && AllMarked(t, vs) && t.color.Keys == objs.Keys
  {
    assert Tricolor(objs, m);
    MarkAllExt(objs, m, vs);
    ExtTricolor(objs, m, MarkAll(objs, m, vs), {});
  }

  lemma MarkedNoDangling(s: State, t: State)
    requires NoDangling(s) && NoDead(s) && MoreMarked(s.m, t.m) && t == s.(m := t.m, phase := t.phase)
    ensures NoDangling(t) && NoDead(t)
  {
    hide Holds;
    forall r, v | r in t.objs && v in Holds(t.objs, t.objs[r]) ensures Alive(t, v) {
      assert !IsDead(s, r);
      assert Alive(s, v);
    }
    forall v | v in Roots(t) ensures Alive(t, v) { assert Alive(s, v); }
  }

  lemma MarkedWf(s: State, t: State)
    requires Wf(s) && t == s.(m := t.m, phase := t.phase) && MoreMarked(s.m, t.m)
    ensures Wf(t)
  {
    hide StringTable, NoDup;
  }

  /** Marking alone keeps the invariant of GCSpropagate. */
  lemma PropagatePhase(s: State, t: State)
    requires Wf(s) && NoDangling(s) && NoDead(s) && MoreMarked(s.m, t.m)
    requires t == s.(m := t.m, phase := Propagate) && Tricolor(t.objs, t.m) && RootsMarked(t)
    ensures Inv(t)
  {
    hide Wf, NoDangling, TricolorBut, MoreMarked, NoDead;
    MarkedWf(s, t);
    MarkedNoDangling(s, t);
  }

  lemma MarkRootInv(s: State)
    requires Wf(s) && NoDangling(s) && AllFresh(s)
    ensures Inv(MarkRoot(s))
  {
    var t := MarkRoot(s);
    var m := s.m.(gray := [], grayagain := [], weak := []);
    var vs := [Gc(s.mainthread)] + Globals(s) + [s.registry] + s.mt;
    FirstMarks(s.objs, m, vs);
    assert MoreMarked(s.m, t.m) && NoDead(s);
    hide Wf, NoDangling, TricolorBut, MarkAll, MoreMarked, NoDead, AllFresh;
    assert Gc(s.mainthread) in vs && s.registry in vs;
    PropagatePhase(s, t);
  }

  /** One step of GCSpropagate while objects are queued. */
  function PropagateStep(s: State): State
    requires s.m.gray != [] && s.m.gray[0] in s.objs
  { s.(m := PropagateMark(s.objs, s.m)) }

  lemma PropagateInv(s: State)
    requires Inv(s) && s.phase.Propagate? && s.m.gray != []
    ensures s.m.gray[0] in s.objs && Inv(PropagateStep(s))
  {
    PropagateKeeps(s.objs, s.m);
    var t := PropagateStep(s);
    MarkedStays(s.objs, s.m, t.m, [Gc(s.mainthread), s.registry]) by { hide TricolorBut, NoDangling, PropagateMark; }
    hide PropagateMark, TricolorBut, NoDangling, Wf, MoreMarked, NoDead;
    PropagatePhase(s, t);
  }

  /** What `atomic` marks again: the running thread and the basic metatables. */
  function Again(s: State): seq<Value> { [Gc(s.running)] + s.mt }

  /** atomic: the last marks, the weak tables cleared, and the whites flipped. */
  function Atomic(s: State): State {
    var m := AtomicMarks(s.objs, s.m, s.uvhead, Again(s));
    var (objs, m') := ClearTable(s.objs, m, m.weak);
    s.(objs := objs, m := m', currentwhite := !s.currentwhite,
       sweepstrgc := 0, sweepgc := 0, phase := SweepString)
  }

  lemma SameHolds(objs: Objects, m: Marks, objs': Objects, r: Ref)
    requires OnlyTables(objs, objs', m.weak) && r in objs && r !in m.weak
    requires forall w :: w in m.weak ==> w in objs && objs[w].Tab?
    ensures r in objs' && objs'[r] == objs[r] && Holds(objs', objs'[r]) == Holds(objs, objs[r])
    ensures Strong(objs', objs'[r]) == Strong(objs, objs[r])
  {
    hide TabRefs;
    if objs[r].Open? && objs[r].thread in objs {
      assert Shrunk(objs[objs[r].thread], objs'[objs[r].thread]);
    }
  }

  lemma TabRefsOf(mt: Value, es: seq<Entry>, v: Value)
    requires v in TabRefs(mt, false, false, es)
    ensures v == mt || exists e :: e in es && (v == e.key || v == e.val)
  {
    var ks := seq(|es|, i requires 0 <= i < |es| => es[i].key);
    var vs := seq(|es|, i requires 0 <= i < |es| => es[i].val);
    assert TabRefs(mt, false, false, es) == [mt] + ks + vs;
    if v in ks { var i :| 0 <= i < |es| && ks[i] == v; assert es[i] in es; }
    else if v in vs { var i :| 0 <= i < |es| && vs[i] == v; assert es[i] in es; }
  }

  lemma ListedWeak(objs: Objects, m: Marks, r: Ref)
    requires Tricolor(objs, m) && r in m.weak
    ensures r in objs && objs[r].Tab? && IsGray(m, r)
  {}

  lemma KeptEntry(objs: Objects, m: Marks, l: seq<Ref>, r: Ref, e: Entry)
    requires AllKept(objs, m, l) && r in l && r in objs && objs[r].Tab? && e in objs[r].entries
    ensures AllMarked(m, [e.key, e.val])
  {
    assert Kept(m, e);
  }

  /** A listed weak table holds no white object once it is cleared. */
  lemma ClearedHolds(objs: Objects, m: Marks, objs': Objects, t: Marks, r: Ref)
    requires Settled(objs, m) && ClearedTables(objs, m, objs', t, m.weak) && r in m.weak
    ensures r in objs' && AllMarked(t, Holds(objs', objs'[r]))
  {
    ListedWeak(objs, m, r);
    var b := objs[r];
    assert r in objs' && Shrunk(b, objs'[r]);
    var c := objs'[r];
    assert Traversed(objs, m, r) && b.metatable in Strong(objs, b);
    assert AllMarked(t, [c.metatable]) by { assert !b.metatable.Gc? || !IsWhite(m, b.metatable.ref); }
    hide TricolorBut, OpenTraversed, OnlyCollected, StringsMarked, OnlyTables, AllKept, Traversed, Strong, Shrunk;
    forall v | v in Holds(objs', c) && v.Gc? ensures !IsWhite(t, v.ref) {
      TabRefsOf(c.metatable, c.entries, v);
      if v != c.metatable {
        var e :| e in c.entries && (v == e.key || v == e.val);
        KeptEntry(objs', t, m.weak, r, e);
      }
    }
  }

  lemma NoReferents(objs: Objects, b: Body)
    requires b.Str?
    ensures Holds(objs, b) == []
  {}

  lemma StrongOrTable(objs: Objects, m: Marks, r: Ref)
    requires Settled(objs, m) && r in objs && !IsWhite(m, r) && r !in m.weak && r in m.color
    ensures AllMarked(m, Holds(objs, objs[r]))
  {
    SettledTraversed(objs, m, r);
    if IsGray(m, r) { assert !objs[r].Tab?; StrongIsAll(objs, objs[r]); }
  }

  /** After clearing, nothing marked holds a white object, weakly or strongly. */
  lemma ClearedClosed(objs: Objects, m: Marks, objs': Objects, t: Marks, r: Ref)
    requires Settled(objs, m) && ClearedTables(objs, m, objs', t, m.weak) && r in objs && !IsWhite(t, r)
    ensures r in objs' && AllMarked(t, Holds(objs', objs'[r]))
  {
    if r in m.weak {
      ClearedHolds(objs, m, objs', t, r);
    } else {
      forall w | w in m.weak ensures w in objs && objs[w].Tab? { ListedWeak(objs, m, w); }
      hide TricolorBut, OnlyCollected, AllKept, Holds, Strong;
      SameHolds(objs, m, objs', r);
      if !IsWhite(m, r) { SettledTraversed(objs, m, r); StrongOrTable(objs, m, r); }
      else { NoReferents(objs, objs[r]); }
    }
  }

  /** The two stages of `atomic` together. */
  lemma AtomicStages(s: State)
    requires Inv(s) && s.phase.Propagate? && s.m.gray == []
    ensures var m := AtomicMarks(s.objs, s.m, s.uvhead, Again(s)); var t := Atomic(s);
      && Settled(s.objs, m) && MoreMarked(s.m, m) && AllMarked(m, Again(s))
      && ClearedTables(s.objs, m, t.objs, t.m, m.weak)
  {
    var m := AtomicMarks(s.objs, s.m, s.uvhead, Again(s));
    hide AtomicMarks, TricolorBut, StringTable, RootList, NoDangling, Settled, MoreMarked;
    AtomicSettled(s.objs, s.m, s.uvhead, Again(s));
    assert Tricolor(s.objs, m) && GrayLists(s.objs, m) && NoDup(m.weak) by { SettledLists(s.objs, m); }
    ClearTableKeeps(s.objs, m, m.weak) by { SettledLists(s.objs, m); }
  }

  lemma SettledLists(objs: Objects, m: Marks)
    requires Settled(objs, m)
    ensures Tricolor(objs, m) && GrayLists(objs, m) && NoDup(m.weak) && m.color.Keys == objs.Keys
  {}

  /** After the flip, what is not dead is what was marked. */
  lemma FlippedDead(s: State, t: State, r: Ref)
    requires NoDead(s) && s.m.color.Keys == s.objs.Keys && t.m.color.Keys == s.m.color.Keys
    requires forall x :: IsWhite(t.m, x) ==> t.m.color[x] == s.m.color[x]
    requires t.currentwhite == !s.currentwhite && r in t.m.color
    ensures IsDead(t, r) <==> IsWhite(t.m, r)
  {
    if IsWhite(t.m, r) { assert !IsDead(s, r); }
  }

  lemma StagesMarked(s: State, m: Marks, t: Marks)
    requires MoreMarked(s.m, m) && StringsMarked(s.objs, m, t)
    ensures MoreMarked(s.m, t) && forall x :: IsWhite(t, x) ==> t.color[x] == s.m.color[x]
  {}

  /** The atomic step changes no white to the other one, and forgets no object. */
  lemma AtomicMarked(s: State)
    requires Inv(s) && s.phase.Propagate? && s.m.gray == []
    ensures var t := Atomic(s);
      && t.objs.Keys == s.objs.Keys == s.m.color.Keys && MoreMarked(s.m, t.m)
      && AllMarked(t.m, Roots(t)) && forall r :: r in s.objs ==> (IsDead(t, r) <==> IsWhite(t.m, r))
  {
    var t := Atomic(s);
    var m := AtomicMarks(s.objs, s.m, s.uvhead, Again(s));
    AtomicStages(s);
    StagesMarked(s, m, t.m);
    StringsAdd(s.objs, m, t.m);
    hide Settled, TricolorBut, NoDangling, OnlyTables, AllKept, OnlyCollected, AtomicMarks, StringTable, RootList, OpenLists;
    MarkedStays(s.objs, m, t.m, Again(s));
    MarkedStays(s.objs, s.m, t.m, [Gc(s.mainthread), s.registry]);
    forall r | r in s.objs ensures IsDead(t, r) <==> IsWhite(t.m, r) {
      hide MoreMarked, StringsMarked, AllMarked;
      FlippedDead(s, t, r);
    }
  }

  lemma AtomicHeld(s: State, r: Ref, v: Value)
    requires Inv(s) && s.phase.Propagate? && s.m.gray == [] && r in Atomic(s).objs && !IsDead(Atomic(s), r)
    requires v in Holds(Atomic(s).objs, Atomic(s).objs[r])
    ensures Alive(Atomic(s), v)
  {
    var t := Atomic(s);
    var m := AtomicMarks(s.objs, s.m, s.uvhead, Again(s));
    AtomicMarked(s);
    AtomicStages(s);
    assert NoDead(s);
    hide AtomicMarks, Atomic, TricolorBut, Wf, Settled, ClearedTables, Holds, MoreMarked;
    ClearedClosed(s.objs, m, t.objs, t.m, r);
    ShrunkHolds(s.objs, m, t.objs, t.m, r, v);
    assert Alive(s, v);
  }

  lemma AtomicRoots(s: State)
    requires Inv(s) && s.phase.Propagate? && s.m.gray == []
    ensures forall v :: v in Roots(Atomic(s)) ==> Alive(Atomic(s), v)
  {
    hide Wf, PhaseInv, MoreMarked;
    var t := Atomic(s);
    AtomicMarked(s);
    forall v | v in Roots(t) ensures Alive(t, v) { assert v in Roots(s) && Alive(s, v); }
  }

  lemma AtomicNoDangling(s: State)
    requires Inv(s) && s.phase.Propagate? && s.m.gray == []
    ensures NoDangling(Atomic(s))
  {
    hide Inv, Holds, Atomic, Alive, Roots;
    var t := Atomic(s);
    AtomicRoots(s);
    forall r, v | r in t.objs && !IsDead(t, r) && v in Holds(t.objs, t.objs[r]) ensures Alive(t, v) {
      AtomicHeld(s, r, v);
    }
  }

  /** Clearing weak tables changes neither the kinds of objects nor threads and strings. */
  lemma AtomicWf(s: State)
    requires Inv(s) && s.phase.Propagate? && s.m.gray == []
    ensures Wf(Atomic(s))
  {
    var t := Atomic(s);
    AtomicStages(s);
    AtomicMarked(s);
    assert SameKinds(s.objs, t.objs) by {
      hide Inv, AtomicMarks, Atomic, MoreMarked;
      forall r | r in s.objs ensures t.objs[r] == s.objs[r] || (t.objs[r].Tab? && s.objs[r].Tab?) {
        assert Shrunk(s.objs[r], t.objs[r]);
      }
    }
    assert Wf(s) && t.m.color.Keys == t.objs.Keys;
    hide Settled, ClearedTables, AtomicMarks, NoDangling, PhaseInv, MoreMarked, AllMarked, Wf;
    SameTables(s, t);
  }

  ghost predicate SameKinds(a: Objects, b: Objects) {
    a.Keys == b.Keys && forall r :: r in a ==> b[r] == a[r] || (b[r].Tab? && a[r].Tab?)
  }

  lemma SameStrings(a: Objects, b: Objects, strt: seq<seq<Ref>>)
    requires StringTable(a, strt) && SameKinds(a, b)
    ensures StringTable(b, strt)
  {
    hide NoDup;
  }

  lemma SameOpens(s: State, t: State)
    requires OpenLists(s) && SameKinds(s.objs, t.objs) && t.openupval == s.openupval && t.uvhead == s.uvhead
    ensures OpenLists(t)
  {
    hide NoDup;
  }

  lemma SameRoots(s: State, t: State)
    requires RootList(s) && SameKinds(s.objs, t.objs) && t.rootgc == s.rootgc
    ensures RootList(t)
  {
    hide NoDup;
  }

  lemma SameThreads(s: State, t: State)
    requires Threads(s) && SameKinds(s.objs, t.objs)
    requires t.mainthread == s.mainthread && t.running == s.running && t.fixed == s.fixed
    ensures Threads(t)
  {}

  lemma SameTables(s: State, t: State)
    requires Wf(s) && t == s.(objs := t.objs, m := t.m, currentwhite := t.currentwhite,
                              sweepstrgc := t.sweepstrgc, sweepgc := t.sweepgc, phase := t.phase)
    requires SameKinds(s.objs, t.objs) && t.m.color.Keys == t.objs.Keys
    ensures Wf(t)
  {
    hide StringTable, OpenLists, NoDup, RootList, Threads, SameKinds;
    SameStrings(s.objs, t.objs, s.strt);
    SameOpens(s, t);
    SameRoots(s, t);
    SameThreads(s, t);
  }

  lemma SweepStart(s: State)
    requires Wf(s) && NoDangling(s) && s.phase.SweepString? && s.sweepgc == 0 && s.sweepstrgc == 0 && StacksNotBlack(s)
    ensures Inv(s)
  {
    hide NoDangling, OpenLists, RootList;
    assert Swept(s, 0);
  }

  lemma SettledNotBlack(objs: Objects, m: Marks, objs': Objects, t: Marks)
    requires Settled(objs, m) && ClearedTables(objs, m, objs', t, m.weak)
    ensures forall u :: u in objs' && (objs'[u].Open? || objs'[u].Thread?) ==> !IsBlack(t, u)
  {
    hide NoDup, OpenTraversed, AllKept, OnlyCollected;
    forall u | u in objs' && (objs'[u].Open? || objs'[u].Thread?) ensures !IsBlack(t, u) {
      assert Shrunk(objs[u], objs'[u]);
      assert !IsBlack(m, u);
    }
  }

  lemma AtomicOpen(s: State)
    requires Inv(s) && s.phase.Propagate? && s.m.gray == []
    ensures StacksNotBlack(Atomic(s))
  {
    hide AtomicMarks, Inv, Settled, ClearedTables;
    AtomicStages(s);
    var t := Atomic(s);
    SettledNotBlack(s.objs, AtomicMarks(s.objs, s.m, s.uvhead, Again(s)), t.objs, t.m);
  }

  lemma AtomicInv(s: State)
    requires Inv(s) && s.phase.Propagate? && s.m.gray == []
    ensures Inv(Atomic(s))
  {
    hide Inv, Wf, NoDangling, AtomicMarks, ClearTable, StacksNotBlack;
    AtomicWf(s);
    AtomicNoDangling(s);
    AtomicOpen(s);
    SweepStart(Atomic(s));
  }

  lemma StringsAdd(objs: Objects, m: Marks, t: Marks)
    requires StringsMarked(objs, m, t)
    ensures MoreMarked(m, t)
  {}

  lemma TabRefsHas(mt: Value, es: seq<Entry>, v: Value)
    requires v == mt || exists e :: e in es && (v == e.key || v == e.val)
    ensures v in TabRefs(mt, false, false, es)
  {
    var ks := seq(|es|, i requires 0 <= i < |es| => es[i].key);
    var vs := seq(|es|, i requires 0 <= i < |es| => es[i].val);
    assert TabRefs(mt, false, false, es) == [mt] + ks + vs;
    if v != mt {
      var e :| e in es && (v == e.key || v == e.val);
      var i :| 0 <= i < |es| && es[i] == e;
      assert ks[i] == e.key && vs[i] == e.val;
    }
  }

  /** Clearing only removes references. */
  lemma ShrunkHolds(objs: Objects, m: Marks, objs': Objects, t: Marks, r: Ref, v: Value)
    requires Settled(objs, m) && ClearedTables(objs, m, objs', t, m.weak) && r in objs && r in objs'
    requires v in Holds(objs', objs'[r])
    ensures v in Holds(objs, objs[r])
  {
    hide OnlyCollected, AllKept, StringsMarked, TabRefs;
    forall w | w in m.weak ensures w in objs && objs[w].Tab? { ListedWeak(objs, m, w); }
    if r !in m.weak {
      SameHolds(objs, m, objs', r);
    } else {
      assert Shrunk(objs[r], objs'[r]);
      TabRefsOf(objs'[r].metatable, objs'[r].entries, v);
      TabRefsHas(objs[r].metatable, objs[r].entries, v);
    }
  }
}
