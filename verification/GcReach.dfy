/** Marking marks strongly reachable objects, and no others. */
module GcReach {
  import opened GcHeap
  import opened GcMark
  import opened GcPropagate
  import opened GcAtomic
  import opened GcClear
  import opened GcState

  /** A path from a root along strong references only. */
  ghost predicate StrongPath(s: State, path: seq<Ref>) {
    && |path| > 0 && Gc(path[0]) in Roots(s) && path[|path| - 1] in s.objs
    && forall i :: 0 <= i < |path| - 1 ==> path[i] in s.objs && Gc(path[i + 1]) in Strong(s.objs, s.objs[path[i]])
  }

  ghost predicate StronglyReachable(s: State, r: Ref) { exists path :: StrongPath(s, path) && path[|path| - 1] == r }

  /** `k` is closed under strong references. */
  ghost predicate ClosedSet(objs: Objects, k: set<Ref>) {
    forall r, v :: r in k && r in objs && v in Strong(objs, objs[r]) && v.Gc? && v.ref in objs ==> v.ref in k
  }

  /** Only members of `k` are marked. */
  ghost predicate MarkedIn(objs: Objects, m: Marks, k: set<Ref>) {
    m.color.Keys == objs.Keys && forall r :: r in objs && !IsWhite(m, r) ==> r in k
  }

  ghost predicate ValuesIn(objs: Objects, vs: seq<Value>, k: set<Ref>) {
    forall v :: v in vs && v.Gc? && v.ref in objs ==> v.ref in k
  }

  lemma MarkIn(objs: Objects, m: Marks, r: Ref, k: set<Ref>)
    requires ClosedSet(objs, k) && MarkedIn(objs, m, k) && (r in objs ==> r in k)
    ensures MarkedIn(objs, Mark(objs, m, r), k)
    decreases Whites(m), 0
  {
    if r !in objs || !IsWhite(m, r) { return; }
    hide Strong;
    var b := objs[r];
    var p := Painted(objs, m, r);
    MarkUnfold(objs, m, r);
    PaintedExt(objs, m, r);
    if !(Traversable(b) || b.Str?) {
      assert ValuesIn(objs, Strong(objs, b), k);
      MarkAllIn(objs, p, Strong(objs, b), k);
    }
  }

  lemma MarkAllIn(objs: Objects, m: Marks, vs: seq<Value>, k: set<Ref>)
    requires ClosedSet(objs, k) && MarkedIn(objs, m, k) && ValuesIn(objs, vs, k)
    ensures MarkedIn(objs, MarkAll(objs, m, vs), k)
    decreases Whites(m), |vs|
  {
    if vs == [] { return; }
    hide ClosedSet;
    if vs[0].Gc? { MarkIn(objs, m, vs[0].ref, k); }
    MarkAllIn(objs, if vs[0].Gc? then Mark(objs, m, vs[0].ref) else m, vs[1..], k);
  }

  lemma PropagateIn(objs: Objects, m: Marks, k: set<Ref>)
    requires ClosedSet(objs, k) && MarkedIn(objs, m, k) && m.gray != [] && m.gray[0] in objs && !IsWhite(m, m.gray[0])
    ensures MarkedIn(objs, PropagateMark(objs, m), k)
  {
    hide Strong;
    var o := m.gray[0];
    assert ValuesIn(objs, Strong(objs, objs[o]), k);
    MarkAllIn(objs, Popped(objs, m), Strong(objs, objs[o]), k);
  }

  lemma {:induction false} PropagateAllIn(objs: Objects, m: Marks, k: set<Ref>)
    requires ClosedSet(objs, k) && MarkedIn(objs, m, k) && Tricolor(objs, m)
    ensures MarkedIn(objs, PropagateAll(objs, m), k)
    decreases Work(m)
  {
    if m.gray == [] { return; }
    PropagateKeeps(objs, m);
    FirstGray(objs, m);
    hide TricolorBut, PropagateMark, ClosedSet, MarkedIn;
    PropagateIn(objs, m, k);
    PropagateAllIn(objs, PropagateMark(objs, m), k);
  }

  lemma FirstGray(objs: Objects, m: Marks)
    requires Tricolor(objs, m) && m.gray != []
    ensures m.gray[0] in objs && !IsWhite(m, m.gray[0])
  {
    assert m.gray[0] in m.gray;
  }

  lemma {:induction false} RemarkIn(objs: Objects, m: Marks, q: seq<Ref>, k: set<Ref>)
    requires ClosedSet(objs, k) && MarkedIn(objs, m, k)
    ensures MarkedIn(objs, RemarkUpvals(objs, m, q), k)
    decreases |q|
  {
    if q == [] { return; }
    hide Strong;
    var t := if IsGray(m, q[0]) && q[0] in objs then MarkAll(objs, m, Strong(objs, objs[q[0]])) else m;
    if IsGray(m, q[0]) && q[0] in objs {
      assert ValuesIn(objs, Strong(objs, objs[q[0]]), k);
      MarkAllIn(objs, m, Strong(objs, objs[q[0]]), k);
    }
    RemarkIn(objs, t, q[1..], k);
  }

  /** The marks of `atomic` stay within every closed set that holds the roots. */
  lemma AtomicIn(objs: Objects, m: Marks, uvhead: seq<Ref>, again: seq<Value>, k: set<Ref>)
    requires ClosedSet(objs, k) && MarkedIn(objs, m, k) && ValuesIn(objs, again, k)
    requires Tricolor(objs, m) && m.gray == [] && forall u :: u in objs && objs[u].Open? ==> u in uvhead
    ensures MarkedIn(objs, AtomicMarks(objs, m, uvhead, again), k)
  {
    hide TricolorBut, OpenTraversed, PropagateAll, Traversed, ClosedSet, MarkedIn, ValuesIn;
    AtomicFirst(objs, m, uvhead);
    AtomicFirstIn(objs, m, uvhead, k);
    var m1 := PropagateAll(objs, RemarkUpvals(objs, m, uvhead));
    AtomicSecond(objs, m1, again);
    AtomicSecondIn(objs, m1, again, k);
    var m2 := PropagateAll(objs, MarkAll(objs, m1.(gray := m1.weak, weak := []), again));
    AtomicThirdIn(objs, m2, k);
  }

  lemma MovedIn(objs: Objects, m: Marks, t: Marks, k: set<Ref>)
    requires MarkedIn(objs, m, k) && t.color == m.color
    ensures MarkedIn(objs, t, k)
  {}

  lemma AtomicFirstIn(objs: Objects, m: Marks, uvhead: seq<Ref>, k: set<Ref>)
    requires ClosedSet(objs, k) && MarkedIn(objs, m, k) && Tricolor(objs, m)
    ensures MarkedIn(objs, PropagateAll(objs, RemarkUpvals(objs, m, uvhead)), k)
  {
    RemarkExt(objs, m, uvhead) by { assert m.color.Keys == objs.Keys; }
    hide TricolorBut, ClosedSet, MarkedIn;
    RemarkIn(objs, m, uvhead, k);
    ExtTricolor(objs, m, RemarkUpvals(objs, m, uvhead), {});
    PropagateAllIn(objs, RemarkUpvals(objs, m, uvhead), k);
  }

  lemma AtomicSecondIn(objs: Objects, m: Marks, again: seq<Value>, k: set<Ref>)
    requires ClosedSet(objs, k) && MarkedIn(objs, m, k) && Tricolor(objs, m) && m.gray == [] && ValuesIn(objs, again, k)
    ensures MarkedIn(objs, PropagateAll(objs, MarkAll(objs, m.(gray := m.weak, weak := []), again)), k)
  {
    var w := m.(gray := m.weak, weak := []);
    MarkAllExt(objs, w, again) by { assert m.color.Keys == objs.Keys; }
    hide TricolorBut, ClosedSet, MarkedIn, ValuesIn;
    MovedWeak(objs, m);
    MovedIn(objs, m, w, k);
    MarkAllIn(objs, w, again, k);
    ExtTricolor(objs, w, MarkAll(objs, w, again), {});
    PropagateAllIn(objs, MarkAll(objs, w, again), k);
  }

  lemma AtomicThirdIn(objs: Objects, m: Marks, k: set<Ref>)
    requires ClosedSet(objs, k) && MarkedIn(objs, m, k) && Tricolor(objs, m) && m.gray == []
    ensures MarkedIn(objs, PropagateAll(objs, m.(gray := m.grayagain, grayagain := [])), k)
  {
    hide TricolorBut, ClosedSet, MarkedIn;
    MovedAgain(objs, m);
    MovedIn(objs, m, m.(gray := m.grayagain, grayagain := []), k);
    PropagateAllIn(objs, m.(gray := m.grayagain, grayagain := []), k);
  }

  /** Everything strongly reachable is marked once nothing is left to traverse. */
  lemma {:induction false} SettledReach(s: State, m: Marks, path: seq<Ref>)
    requires Settled(s.objs, m) && AllMarked(m, Roots(s)) && StrongPath(s, path)
    ensures !IsWhite(m, path[|path| - 1])
  {
    hide Settled, Strong;
    if |path| == 1 { assert Gc(path[0]) in Roots(s); return; }
    var front := path[..|path| - 1];
    forall i | 0 <= i < |front| - 1 ensures front[i] in s.objs && Gc(front[i + 1]) in Strong(s.objs, s.objs[front[i]]) {
      assert front[i] == path[i] && front[i + 1] == path[i + 1];
    }
    SettledReach(s, m, front);
    var r := path[|path| - 2];
    SettledTraversed(s.objs, m, r);
    assert Gc(path[|path| - 1]) in Strong(s.objs, s.objs[r]);
  }

  /** The set of strongly reachable objects is closed and holds the roots. */
  ghost function ReachSet(s: State): set<Ref> { set r | r in s.objs && StronglyReachable(s, r) }

  lemma ReachClosed(s: State)
    ensures ClosedSet(s.objs, ReachSet(s)) && ValuesIn(s.objs, Roots(s), ReachSet(s))
  {
    hide Strong;
    var k := ReachSet(s);
    forall r, v | r in k && r in s.objs && v in Strong(s.objs, s.objs[r]) && v.Gc? && v.ref in s.objs ensures v.ref in k {
      var path :| StrongPath(s, path) && path[|path| - 1] == r;
      var longer := path + [v.ref];
      assert StrongPath(s, longer) && longer[|longer| - 1] == v.ref;
    }
    forall v | v in Roots(s) && v.Gc? && v.ref in s.objs ensures v.ref in k {
      var path := [v.ref];
      assert StrongPath(s, path) && path[|path| - 1] == v.ref;
    }
  }

  /** A key for which its entry goes: a white object that is no string. */
  predicate KeyGone(objs: Objects, m: Marks, v: Value) { v.Gc? && IsWhite(m, v.ref) && !(v.ref in objs && objs[v.ref].Str?) }

  /** Clearing examines the value only if the key stays. */
  predicate Examined(objs: Objects, m: Marks, e: Entry, r: Ref) { e.key == Gc(r) || (e.val == Gc(r) && !KeyGone(objs, m, e.key)) }

  ghost predicate EntryOf(objs: Objects, m: Marks, es: seq<Entry>, r: Ref) { exists e :: e in es && Examined(objs, m, e, r) }

  /** Some listed table has an entry in which clearing examines `r`. */
  ghost predicate InTables(objs: Objects, m: Marks, l: seq<Ref>, r: Ref) {
    exists h :: h in l && h in objs && objs[h].Tab? && EntryOf(objs, m, objs[h].entries, r)
  }

  lemma SameExamined(objs: Objects, m: Marks, t: Marks, r: Ref)
    requires StringsMarked(objs, m, t)
    ensures forall e :: Examined(objs, t, e, r) == Examined(objs, m, e, r)
  {
    forall v ensures KeyGone(objs, t, v) == KeyGone(objs, m, v) {
      if v.Gc? && v.ref in objs && !objs[v.ref].Str? { assert IsWhite(t, v.ref) == IsWhite(m, v.ref); }
    }
  }

  /** Clearing marks the strings that it examines, and no others. */
  lemma {:induction false} ClearEntriesMarks(objs: Objects, m: Marks, es: seq<Entry>, r: Ref)
    requires m.color.Keys == objs.Keys && IsWhite(m, r) && objs[r].Str?
    ensures !IsWhite(ClearEntries(objs, m, es).0, r) <==> EntryOf(objs, m, es, r)
    decreases |es|
  {
    if es == [] { return; }
    var (m1, keyGone) := IsCleared(objs, m, es[0].key);
    var (m2, _) := if keyGone then (m1, false) else IsCleared(objs, m1, es[0].val);
    ClearedOne(objs, m, es[0].key);
    if !keyGone { ClearedOne(objs, m1, es[0].val); StringsTrans(objs, m, m1, m2); }
    assert IsWhite(m2, r) <==> !Examined(objs, m, es[0], r);
    ClearEntriesKeeps(objs, m2, es[1..]);
    SameExamined(objs, m, m2, r);
    assert forall e :: e in es <==> e == es[0] || e in es[1..];
    hide KeyGone, IsCleared, Examined;
    if IsWhite(m2, r) { ClearEntriesMarks(objs, m2, es[1..], r); }
  }

  lemma {:induction false} ClearTableMarks(objs: Objects, m: Marks, l: seq<Ref>, r: Ref)
    requires m.color.Keys == objs.Keys && NoDup(l) && IsWhite(m, r) && objs[r].Str?
    ensures !IsWhite(ClearTable(objs, m, l).1, r) <==> InTables(objs, m, l, r)
    decreases |l|
  {
    if l == [] { return; }
    NoDupTail(l);
    hide NoDup, ClearEntries, EntryOf;
    if l[0] in objs && objs[l[0]].Tab? {
      var (m1, es) := ClearEntries(objs, m, objs[l[0]].entries);
      var o1 := objs[l[0] := objs[l[0]].(entries := es)];
      ClearEntriesKeeps(objs, m, objs[l[0]].entries);
      ClearEntriesMarks(objs, m, objs[l[0]].entries, r);
      ClearTableKeeps(o1, m1, l[1..]);
      if IsWhite(m1, r) {
        ClearTableMarks(o1, m1, l[1..], r);
        forall h | h in l[1..] && h in objs && objs[h].Tab?
          ensures o1[h] == objs[h] && (EntryOf(o1, m1, o1[h].entries, r) <==> EntryOf(objs, m, objs[h].entries, r))
        {
          EntryLater(objs, m, o1, m1, objs[h].entries, r);
        }
      }
    } else {
      ClearTableMarks(objs, m, l[1..], r);
    }
  }

  /** Earlier clearing makes no difference to what is examined. */
  lemma EntryLater(objs: Objects, m: Marks, o1: Objects, m1: Marks, es: seq<Entry>, r: Ref)
    requires StringsMarked(objs, m, m1) && o1.Keys == objs.Keys && forall x :: x in objs ==> objs[x].Str? == o1[x].Str?
    ensures EntryOf(o1, m1, es, r) <==> EntryOf(objs, m, es, r)
  {
    SameExamined(objs, m, m1, r);
    assert forall v :: KeyGone(o1, m1, v) == KeyGone(objs, m1, v);
    assert forall e :: Examined(o1, m1, e, r) == Examined(objs, m1, e, r);
    hide Examined;
  }
}
