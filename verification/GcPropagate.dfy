/** Propagation (propagatemark, propagateall in lgc.c) under the tri-colour invariant. */
module GcPropagate {
  import opened GcHeap
  import opened GcMark

  ghost predicate Disjoint(a: seq<Ref>, b: seq<Ref>) { forall x :: x in a ==> x !in b }

  /** Each listed object is gray and on one list only: the lists share one link field. */
  ghost predicate GrayLists(objs: Objects, m: Marks) {
    && NoDup(m.gray) && NoDup(m.grayagain) && NoDup(m.weak)
    && Disjoint(m.gray, m.grayagain) && Disjoint(m.gray, m.weak) && Disjoint(m.grayagain, m.weak)
    && (forall r :: r in m.gray ==> IsGray(m, r) && r in objs && Traversable(objs[r]))
    && (forall r :: r in m.grayagain ==> IsGray(m, r) && r in objs && (objs[r].Thread? || objs[r].Tab?))
    && (forall r :: r in m.weak ==> IsGray(m, r) && r in objs && objs[r].Tab?)
  }

  ghost predicate Listed(m: Marks, r: Ref) { r in m.gray || r in m.grayagain || r in m.weak }

  /** No black object, those in `skip` aside, holds a white one, and every gray object that still
      has to be traversed is on a list. */
  ghost predicate TricolorBut(objs: Objects, m: Marks, skip: set<Ref>) {
    && m.color.Keys == objs.Keys && GrayLists(objs, m)
    && (forall r :: IsBlack(m, r) ==> !objs[r].Thread? && !objs[r].Open? && !objs[r].Str?)
    && (forall r :: IsBlack(m, r) && r !in skip ==> AllMarked(m, Holds(objs, objs[r])))
    && (forall r :: IsGray(m, r) ==> objs[r].Str? || objs[r].Open? || (Traversable(objs[r]) && Listed(m, r)))
  }

  /** The tri-colour invariant of GCSpropagate. */
  ghost predicate Tricolor(objs: Objects, m: Marks) { TricolorBut(objs, m, {}) }

  lemma ExtGrayLists(objs: Objects, m: Marks, t: Marks)
    requires GrayLists(objs, m) && Ext(objs, m, t)
    ensures GrayLists(objs, t)
  {
    hide NoDup;
    forall r | r in t.gray
      ensures IsGray(t, r) && r in objs && Traversable(objs[r]) && r !in t.grayagain && r !in t.weak
    {
      if r in m.gray { assert IsGray(m, r); }
    }
  }

  /** Marking keeps the tri-colour invariant. */
  lemma ExtTricolor(objs: Objects, m: Marks, t: Marks, skip: set<Ref>)
    requires TricolorBut(objs, m, skip) && Ext(objs, m, t)
    ensures TricolorBut(objs, t, skip)
  {
    hide NoDup, GrayLists;
    ExtGrayLists(objs, m, t);
    forall r | IsGray(t, r)
      ensures objs[r].Str? || objs[r].Open? || (Traversable(objs[r]) && Listed(t, r))
    {
      if IsWhite(m, r) { assert Done(objs, t, r); } else { assert IsGray(m, r); }
    }
    forall r | IsBlack(t, r)
      ensures !objs[r].Thread? && !objs[r].Open? && !objs[r].Str?
      ensures r in skip || AllMarked(t, Holds(objs, objs[r]))
    {
      if IsWhite(m, r) { assert Done(objs, t, r); }
      else { assert IsBlack(m, r); }
    }
  }

  /** propagatemark, up to the marking: the first gray object leaves its list. */
  function Popped(objs: Objects, m: Marks): Marks
    requires m.gray != [] && m.gray[0] in objs
  {
    var o := m.gray[0];
    var p := m.(gray := m.gray[1..]);
    if objs[o].Thread? then p.(grayagain := [o] + m.grayagain) else Paint(p, o, Black)
  }

  /** black2gray for a weak table, which goes on the list `weak`. */
  function Requeued(m: Marks, o: Ref): Marks { Paint(m, o, Gray).(weak := [o] + m.weak) }

  /** propagatemark: takes the first gray object and traverses it. */
  function PropagateMark(objs: Objects, m: Marks): (m': Marks)
    requires m.gray != [] && m.gray[0] in objs
    ensures Work(m') < Work(m)
  {
    var o := m.gray[0];
    var p := Popped(objs, m);
    FewerWhites(m, p);
    var t := MarkAll(objs, p, Strong(objs, objs[o]));
    if WeakTable(objs[o]) then
      FewerWhites(t, Requeued(t, o));
      Requeued(t, o)
    else t
  }

  lemma FewerWhites(m: Marks, t: Marks)
    requires Whites(t) <= Whites(m)
    ensures |Whites(t)| <= |Whites(m)|
  {
    assert Whites(m) == Whites(t) + (Whites(m) - Whites(t));
  }

  /** propagateall: until no object is queued. */
  function PropagateAll(objs: Objects, m: Marks): Marks
    decreases Work(m)
  {
    if m.gray == [] || m.gray[0] !in objs then m else PropagateAll(objs, PropagateMark(objs, m))
  }

  lemma PoppedLists(objs: Objects, m: Marks)
    requires GrayLists(objs, m) && m.gray != []
    ensures m.gray[0] in m.gray && m.gray[0] in objs && IsGray(m, m.gray[0]) && Traversable(objs[m.gray[0]])
    ensures GrayLists(objs, Popped(objs, m))
    ensures forall r :: r in m.gray <==> r in Popped(objs, m).gray || r == m.gray[0]
  {
    hide NoDup;
    NoDupTail(m.gray);
    NoDupCons(m.gray[0], m.grayagain);
  }

  lemma PoppedTricolor(objs: Objects, m: Marks)
    requires Tricolor(objs, m) && m.gray != []
    ensures m.gray[0] in objs && MoreMarked(m, Popped(objs, m)) && Whites(Popped(objs, m)) == Whites(m)
    ensures TricolorBut(objs, Popped(objs, m), if objs[m.gray[0]].Thread? then {} else {m.gray[0]})
  {
    hide NoDup, Strong, TabRefs;
    PoppedLists(objs, m);
    hide GrayLists;
    var o := m.gray[0];
    var p := Popped(objs, m);
    forall r | IsBlack(p, r) && r != o ensures AllMarked(p, Holds(objs, objs[r])) { assert IsBlack(m, r); }
    forall r | IsGray(p, r)
      ensures objs[r].Str? || objs[r].Open? || (Traversable(objs[r]) && Listed(p, r))
    {
      assert IsGray(m, r);
    }
  }

  lemma RequeueLists(objs: Objects, m: Marks, o: Ref)
    requires GrayLists(objs, m) && o in objs && objs[o].Tab? && IsBlack(m, o)
    ensures GrayLists(objs, Requeued(m, o))
  {
    hide NoDup;
    NoDupCons(o, m.weak);
    assert !IsGray(m, o);
  }

  lemma RequeueTricolor(objs: Objects, m: Marks, o: Ref)
    requires TricolorBut(objs, m, {o}) && o in objs && objs[o].Tab? && IsBlack(m, o)
    ensures Tricolor(objs, Requeued(m, o)) && Whites(Requeued(m, o)) == Whites(m) && MoreMarked(m, Requeued(m, o))
  {
    RequeueLists(objs, m, o);
    hide NoDup, Strong, TabRefs, GrayLists;
    var u := Requeued(m, o);
    forall r | IsBlack(u, r) ensures AllMarked(u, Holds(objs, objs[r])) { assert IsBlack(m, r); }
    forall r | IsGray(u, r)
      ensures objs[r].Str? || objs[r].Open? || (Traversable(objs[r]) && Listed(u, r))
    {
      if r != o { assert IsGray(m, r); }
    }
  }

  /** An object whose strong references are all marked. */
  ghost predicate Traversed(objs: Objects, m: Marks, r: Ref) {
    r in objs && AllMarked(m, Strong(objs, objs[r]))
  }

  /** Every gray open upvalue has its current value marked. */
  ghost predicate OpenTraversed(objs: Objects, m: Marks) {
    forall u :: IsGray(m, u) && u in objs && objs[u].Open? ==> Traversed(objs, m, u)
  }

  lemma MarkedStays(objs: Objects, m: Marks, t: Marks, vs: seq<Value>)
    requires MoreMarked(m, t) && m.color.Keys == objs.Keys && AllMarked(m, vs)
    ensures AllMarked(t, vs)
  {}

  /** Popping and marking, before a weak table is requeued. */
  lemma PropagateMarks(objs: Objects, m: Marks)
    requires Tricolor(objs, m) && m.gray != []
    ensures m.gray[0] in objs
    ensures var o := m.gray[0]; var p := Popped(objs, m); var t := MarkAll(objs, p, Strong(objs, objs[o]));
      && TricolorBut(objs, t, if objs[o].Thread? then {} else {o}) && MoreMarked(m, t)
      && AllMarked(t, Strong(objs, objs[o])) && Work(t) < Work(m)
      && (objs[o].Thread? || IsBlack(t, o))
      && t.grayagain == (if objs[o].Thread? then [o] else []) + m.grayagain && t.weak == m.weak
  {
    PoppedTricolor(objs, m);
    hide NoDup, TabRefs, GrayLists, Strong;
    var o := m.gray[0];
    var p := Popped(objs, m);
    MarkAllExt(objs, p, Strong(objs, objs[o]));
    ExtTricolor(objs, p, MarkAll(objs, p, Strong(objs, objs[o])), if objs[o].Thread? then {} else {o});
  }

  lemma SkipNone(objs: Objects, m: Marks, o: Ref)
    requires TricolorBut(objs, m, {o}) && o in objs && AllMarked(m, Holds(objs, objs[o]))
    ensures Tricolor(objs, m)
  {
    hide GrayLists, Holds, Strong;
  }

  lemma StrongIsAll(objs: Objects, b: Body)
    requires !WeakTable(b)
    ensures Strong(objs, b) == Holds(objs, b)
  {}

  /** One propagation step keeps the tri-colour invariant, traverses the object it takes, and
      leaves less work. */
  lemma PropagateKeeps(objs: Objects, m: Marks)
    requires Tricolor(objs, m) && m.gray != []
    ensures m.gray[0] in objs
    ensures var o := m.gray[0]; var t := PropagateMark(objs, m);
      && Tricolor(objs, t) && MoreMarked(m, t) && Traversed(objs, t, o) && Work(t) < Work(m)
      && t.grayagain == (if objs[o].Thread? then [o] else []) + m.grayagain
      && t.weak == (if WeakTable(objs[o]) then [o] else []) + m.weak
  {
    PropagateMarks(objs, m);
    hide NoDup, TabRefs, GrayLists, MarkAll, Strong, Holds, TricolorBut, Popped;
    var o := m.gray[0];
    var vs := Strong(objs, objs[o]);
    var t := MarkAll(objs, Popped(objs, m), vs);
    if WeakTable(objs[o]) {
      RequeueTricolor(objs, t, o);
      MarkedStays(objs, t, Requeued(t, o), vs);
    } else if !objs[o].Thread? {
      StrongIsAll(objs, objs[o]);
      SkipNone(objs, t, o);
    }
  }

  lemma ExtOpenTraversed(objs: Objects, m: Marks, t: Marks)
    requires OpenTraversed(objs, m) && Ext(objs, m, t)
    ensures OpenTraversed(objs, t)
  {
    hide NoDup, GrayGrown, TabRefs;
    forall u | IsGray(t, u) && u in objs && objs[u].Open? ensures Traversed(objs, t, u) {
      if IsWhite(m, u) { assert Done(objs, t, u); }
      else { assert IsGray(m, u); MarkedStays(objs, m, t, Strong(objs, objs[u])); }
    }
  }

  lemma PropagateOpenTraversed(objs: Objects, m: Marks)
    requires Tricolor(objs, m) && m.gray != [] && OpenTraversed(objs, m)
    ensures m.gray[0] in objs && OpenTraversed(objs, PropagateMark(objs, m))
  {
    PoppedTricolor(objs, m);
    PoppedLists(objs, m);
    hide NoDup, TabRefs, GrayLists, Strong, Holds, TricolorBut, GrayGrown;
    var o := m.gray[0];
    var p := Popped(objs, m);
    forall u | IsGray(p, u) && u in objs && objs[u].Open? ensures Traversed(objs, p, u) {
      assert IsGray(m, u);
      MarkedStays(objs, m, p, Strong(objs, objs[u]));
    }
    MarkAllExt(objs, p, Strong(objs, objs[o]));
    var t := MarkAll(objs, p, Strong(objs, objs[o]));
    ExtOpenTraversed(objs, p, t);
    if WeakTable(objs[o]) {
      forall u | IsGray(Requeued(t, o), u) && u in objs && objs[u].Open? ensures Traversed(objs, Requeued(t, o), u) {
        assert IsGray(t, u);
      }
    }
  }

  /** What propagation adds to the two other lists: threads, and weak tables, both traversed. */
  ghost predicate Gained(objs: Objects, m: Marks, t: Marks) {
    && (forall r :: r in t.grayagain ==> r in m.grayagain || (Traversed(objs, t, r) && objs[r].Thread?))
    && (forall r :: r in t.weak ==> r in m.weak || (Traversed(objs, t, r) && WeakTable(objs[r])))
  }

  lemma GainedTrans(objs: Objects, m: Marks, p: Marks, t: Marks)
    requires Gained(objs, m, p) && Gained(objs, p, t) && MoreMarked(p, t) && p.color.Keys == objs.Keys
    ensures Gained(objs, m, t)
  {
    hide Strong, MoreMarked, AllMarked;
    forall r | r in p.grayagain || r in p.weak
      ensures Traversed(objs, p, r) ==> Traversed(objs, t, r)
    {
      if Traversed(objs, p, r) { MarkedStays(objs, p, t, Strong(objs, objs[r])); }
    }
  }

  ghost predicate Progress(objs: Objects, m: Marks, t: Marks) {
    && Tricolor(objs, t) && MoreMarked(m, t) && Gained(objs, m, t)
    && (OpenTraversed(objs, m) ==> OpenTraversed(objs, t))
  }

  lemma PropagateProgress(objs: Objects, m: Marks)
    requires Tricolor(objs, m) && m.gray != []
    ensures m.gray[0] in objs && Progress(objs, m, PropagateMark(objs, m))
  {
    PropagateKeeps(objs, m);
    if OpenTraversed(objs, m) { PropagateOpenTraversed(objs, m); }
    hide TricolorBut, PropagateMark, Strong, Holds, OpenTraversed, MoreMarked, AllMarked;
  }

  lemma ProgressTrans(objs: Objects, m: Marks, p: Marks, t: Marks)
    requires Progress(objs, m, p) && Progress(objs, p, t)
    ensures Progress(objs, m, t)
  {
    GainedTrans(objs, m, p, t);
    hide GrayLists, OpenTraversed, Gained, Traversed, AllMarked, Holds;
  }

  /** propagateall empties the gray list; what it adds to the two other lists has been traversed. */
  lemma {:induction false} PropagateAllKeeps(objs: Objects, m: Marks)
    requires Tricolor(objs, m)
    ensures Progress(objs, m, PropagateAll(objs, m)) && PropagateAll(objs, m).gray == []
    decreases Work(m)
  {
    if m.gray == [] { return; }
    PropagateProgress(objs, m);
    var p := PropagateMark(objs, m);
    assert Tricolor(objs, p);
    hide Progress, PropagateMark, TricolorBut;
    PropagateAllKeeps(objs, p);
    ProgressTrans(objs, m, p, PropagateAll(objs, p));
  }
}
