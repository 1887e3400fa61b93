/** The atomic step that ends the mark phase (atomic, remarkupvals, cleartable in lgc.c). */
module GcAtomic {
  import opened GcHeap
  import opened GcMark
  import opened GcPropagate

  /** remarkupvals: marks the value of every gray open upvalue, whose thread may be dead. */
  function RemarkUpvals(objs: Objects, m: Marks, q: seq<Ref>): Marks
    decreases |q|
  {
    if q == [] then m
    else
      var t := if IsGray(m, q[0]) && q[0] in objs then MarkAll(objs, m, Strong(objs, objs[q[0]])) else m;
      RemarkUpvals(objs, t, q[1..])
  }

  lemma {:induction false} RemarkExt(objs: Objects, m: Marks, q: seq<Ref>)
    requires m.color.Keys == objs.Keys
    ensures var t := RemarkUpvals(objs, m, q);
      Ext(objs, m, t) && forall u :: u in q && IsGray(m, u) ==> Traversed(objs, t, u)
    decreases |q|
  {
    if q == [] { return; }
    var u := q[0];
    var t := if IsGray(m, u) && u in objs then MarkAll(objs, m, Strong(objs, objs[u])) else m;
    hide Strong, NoDup, GrayGrown;
    if IsGray(m, u) { MarkAllExt(objs, m, Strong(objs, objs[u])); }
    RemarkExt(objs, t, q[1..]);
    var z := RemarkUpvals(objs, t, q[1..]);
    ExtTrans(objs, m, t, z, {});
    assert q == [u] + q[1..];
    if IsGray(m, u) { MarkedStays(objs, t, z, Strong(objs, objs[u])); }
  }

  /** The marking done by `atomic`, up to the clearing of weak tables. */
  function AtomicMarks(objs: Objects, m: Marks, uvhead: seq<Ref>, again: seq<Value>): Marks {
    var m1 := PropagateAll(objs, RemarkUpvals(objs, m, uvhead));
    var m2 := PropagateAll(objs, MarkAll(objs, m1.(gray := m1.weak, weak := []), again));
    PropagateAll(objs, m2.(gray := m2.grayagain, grayagain := []))
  }

  /** Nothing is left to traverse: the two other lists hold traversed objects only. */
  ghost predicate Settled(objs: Objects, m: Marks) {
    && Tricolor(objs, m) && m.gray == [] && OpenTraversed(objs, m)
    && (forall r :: r in m.grayagain ==> r in objs && objs[r].Thread? && Traversed(objs, m, r))
    && (forall r :: r in m.weak ==> Traversed(objs, m, r) && WeakTable(objs[r]))
  }

  lemma MovedWeak(objs: Objects, m: Marks)
    requires Tricolor(objs, m) && m.gray == []
    ensures Tricolor(objs, m.(gray := m.weak, weak := []))
  {
    hide Holds, Strong;
    var t := m.(gray := m.weak, weak := []);

    forall r | IsBlack(t, r) ensures IsBlack(m, r) {}
    forall r | IsGray(t, r) ensures IsGray(m, r) {}
  }

  lemma MovedAgain(objs: Objects, m: Marks)
    requires Tricolor(objs, m) && m.gray == []
    ensures Tricolor(objs, m.(gray := m.grayagain, grayagain := []))
  {
    hide Holds, Strong;
    var t := m.(gray := m.grayagain, grayagain := []);
    forall r | IsBlack(t, r) ensures IsBlack(m, r) {}
    forall r | IsGray(t, r) ensures IsGray(m, r) {}
  }

  lemma MovedProgress(objs: Objects, m: Marks, t: Marks)
    requires OpenTraversed(objs, m) && t.color == m.color
    ensures OpenTraversed(objs, t)
  {
    forall u | IsGray(t, u) && u in objs && objs[u].Open? ensures Traversed(objs, t, u) { assert IsGray(m, u); }
  }

  lemma RemarkedOpen(objs: Objects, m: Marks, uvhead: seq<Ref>)
    requires m.color.Keys == objs.Keys && forall u :: u in objs && objs[u].Open? ==> u in uvhead
    ensures OpenTraversed(objs, RemarkUpvals(objs, m, uvhead))
  {
    RemarkExt(objs, m, uvhead);
    var t := RemarkUpvals(objs, m, uvhead);
    forall u | IsGray(t, u) && u in objs && objs[u].Open? ensures Traversed(objs, t, u) {
      if IsWhite(m, u) { assert Done(objs, t, u); }
    }
  }

  lemma MoreMarkedTrans(m: Marks, p: Marks, t: Marks)
    requires MoreMarked(m, p) && MoreMarked(p, t)
    ensures MoreMarked(m, t)
  {}

  /** First propagation of `atomic`: open upvalues are up to date from here on. */
  lemma AtomicFirst(objs: Objects, m: Marks, uvhead: seq<Ref>)
    requires Tricolor(objs, m) && m.gray == [] && forall u :: u in objs && objs[u].Open? ==> u in uvhead
    ensures var t := PropagateAll(objs, RemarkUpvals(objs, m, uvhead));
      Tricolor(objs, t) && OpenTraversed(objs, t) && t.gray == [] && MoreMarked(m, t)
  {
    RemarkExt(objs, m, uvhead);
    RemarkedOpen(objs, m, uvhead);
    var p := RemarkUpvals(objs, m, uvhead);
    ExtTricolor(objs, m, p, {});
    hide TricolorBut, OpenTraversed;
    PropagateAllKeeps(objs, p);
    MoreMarkedTrans(m, p, PropagateAll(objs, p));
  }

  /** Second propagation: weak tables, running thread and basic metatables. */
  lemma AtomicSecond(objs: Objects, m: Marks, again: seq<Value>)
    requires Tricolor(objs, m) && OpenTraversed(objs, m) && m.gray == []
    ensures var p := MarkAll(objs, m.(gray := m.weak, weak := []), again); var t := PropagateAll(objs, p);
      && Tricolor(objs, t) && OpenTraversed(objs, t) && t.gray == [] && MoreMarked(m, t)
      && AllMarked(t, again) && forall r :: r in t.weak ==> Traversed(objs, t, r) && WeakTable(objs[r])
  {
    var w := m.(gray := m.weak, weak := []);
    MovedWeak(objs, m);
    MovedProgress(objs, m, w);
    MarkAllExt(objs, w, again);
    var p := MarkAll(objs, w, again);
    ExtTricolor(objs, w, p, {});
    ExtOpenTraversed(objs, w, p);
    PropagateAllKeeps(objs, p);
    hide TricolorBut, OpenTraversed, Traversed;
    MarkedStays(objs, p, PropagateAll(objs, p), again);
    MoreMarkedTrans(m, p, PropagateAll(objs, p));
  }

  /** Third propagation: what the barriers and the stacks left for the end. */
  lemma AtomicThird(objs: Objects, m: Marks)
    requires Tricolor(objs, m) && OpenTraversed(objs, m) && m.gray == []
    requires forall r :: r in m.weak ==> Traversed(objs, m, r) && WeakTable(objs[r])
    ensures var t := PropagateAll(objs, m.(gray := m.grayagain, grayagain := [])); Settled(objs, t) && MoreMarked(m, t)
  {
    var p := m.(gray := m.grayagain, grayagain := []);
    MovedAgain(objs, m);
    MovedProgress(objs, m, p);
    PropagateAllKeeps(objs, p);
    var t := PropagateAll(objs, p);
    hide TricolorBut, OpenTraversed, PropagateAll;
    forall r | r in t.weak ensures Traversed(objs, t, r) {
      if r in m.weak { MarkedStays(objs, p, t, Strong(objs, objs[r])); }
    }
  }

  /** After the marking of `atomic` nothing is left to traverse, and the roots are marked. */
  lemma AtomicSettled(objs: Objects, m: Marks, uvhead: seq<Ref>, again: seq<Value>)
    requires Tricolor(objs, m) && m.gray == [] && forall u :: u in objs && objs[u].Open? ==> u in uvhead
    ensures var t := AtomicMarks(objs, m, uvhead, again);
      Settled(objs, t) && MoreMarked(m, t) && AllMarked(t, again)
  {
    assert m.color.Keys == objs.Keys;
    hide TricolorBut, OpenTraversed, PropagateAll, Settled, Traversed;
    AtomicFirst(objs, m, uvhead);
    var m1 := PropagateAll(objs, RemarkUpvals(objs, m, uvhead));
    AtomicSecond(objs, m1, again);
    var m2 := PropagateAll(objs, MarkAll(objs, m1.(gray := m1.weak, weak := []), again));
    AtomicThird(objs, m2);
    MoreMarkedTrans(m, m1, m2);
    MoreMarkedTrans(m, m2, AtomicMarks(objs, m, uvhead, again));
    MarkedStays(objs, m2, AtomicMarks(objs, m, uvhead, again), again);
  }

  /** A settled marking is closed under strong references. */
  lemma SettledTraversed(objs: Objects, m: Marks, r: Ref)
    requires Settled(objs, m) && r in objs && !IsWhite(m, r)
    ensures Traversed(objs, m, r)
    ensures IsBlack(m, r) ==> AllMarked(m, Holds(objs, objs[r]))
    ensures IsGray(m, r) && objs[r].Tab? ==> r in m.weak
  {
    if IsBlack(m, r) {
      forall v | v in Strong(objs, objs[r]) && v.Gc? ensures !IsWhite(m, v.ref) { StrongInHolds(objs, objs[r], v); }
    } else {
      assert IsGray(m, r);
    }
  }
}
