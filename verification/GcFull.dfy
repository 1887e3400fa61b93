/** A full collection (luaC_fullgc in lgc.c): it ends, from any state, and what survives it was
    reachable or fixed. */
module GcFull {
  import opened GcHeap
  import opened GcMark
  import opened GcPropagate
  import opened GcAtomic
  import opened GcClear
  import opened GcState
  import opened GcCycle
  import opened GcSweep
  import opened GcStrings
  import opened GcStep
  import opened GcSurvive
  import opened GcReach

  function Rank(p: Phase): nat {
    match p case Propagate => 4 case SweepString => 3 case Sweep => 2 case Finalize => 1 case Pause => 0
  }

  function Inner(s: State): int {
    match s.phase
    case Propagate => Work(s.m)
    case SweepString => |s.strt| - s.sweepstrgc
    case Sweep => Rest(s)
    case _ => 0
  }

  lemma AtomicPhase(s: State)
    ensures Atomic(s).phase.SweepString?
  {
    hide AtomicMarks, ClearTable;
  }

  /** Every step of the collector comes closer to the end of the cycle. */
  lemma StepProgress(s: State)
    requires Inv(s) && !s.phase.Pause?
    ensures var z := SingleStep(s);
      Inner(s) >= 0 && (Rank(z.phase) < Rank(s.phase) || (z.phase == s.phase && 0 <= Inner(z) < Inner(s)))
  {
    hide Wf, NoDangling, TricolorBut, StacksNotBlack, SweptStrings, Atomic, SweepList, SweepSome, CheckSizes, AllFresh, PropagateMark;
    SingleStepInv(s);
    match s.phase {
      case Propagate => if s.m.gray != [] { PropagateInv(s); } else { AtomicPhase(s); }
      case SweepString => SweepListKeeps(s, s.sweepstrgc, 0);
      case Sweep => SweepRootInv(s);
      case _ =>
    }
  }

  /** singlestep, repeated until the phase is `stop`. */
  ghost function Drive(s: State, stop: Phase): State
    requires Inv(s) && Rank(stop) <= Rank(s.phase) && (stop.Pause? || stop.Finalize?)
    decreases Rank(s.phase), Inner(s)
  {
    hide Inv, SingleStep, Inner;
    if s.phase == stop then s
    else
      StepProgress(s);
      SingleStepInv(s);
      DriveOn(s, stop);
      Drive(SingleStep(s), stop)
  }

  lemma DriveOn(s: State, stop: Phase)
    requires Inv(s) && Rank(stop) <= Rank(s.phase) && (stop.Pause? || stop.Finalize?) && s.phase != stop
    ensures Rank(stop) <= Rank(SingleStep(s).phase)
  {
    hide Inv, Atomic, MarkRoot, SweepList, SweepSome, CheckSizes, PropagateMark;
    AtomicPhase(s);
    if s.phase.Sweep? { SweepRootInv(s); }
  }

  /** luaC_fullgc, first part: a mark phase under way is abandoned, so that the sweep can return
      everything to white. */
  function Restart(s: State): State {
    if s.phase.Pause? || s.phase.Propagate? then
      s.(sweepstrgc := 0, sweepgc := 0, m := s.m.(gray := [], grayagain := [], weak := []), phase := SweepString)
    else s
  }

  lemma RestartInv(s: State)
    requires Inv(s)
    ensures Inv(Restart(s)) && Rank(Finalize) <= Rank(Restart(s).phase)
    ensures s.phase.Pause? || s.phase.Propagate? ==> NoDead(Restart(s))
  {
    hide Wf, NoDangling, TricolorBut;
    if s.phase.Pause? || s.phase.Propagate? {
      var z := Restart(s);
      RestartKeeps(s, z);
      assert |z.strt| > 0 by { WfStrings(z); }
      assert Swept(z, 0);
    }
  }

  lemma WfStrings(s: State)
    requires Wf(s)
    ensures |s.strt| > 0
  {}

  lemma RestartKeeps(s: State, z: State)
    requires Inv(s) && (s.phase.Pause? || s.phase.Propagate?) && z == Restart(s)
    ensures Wf(z) && NoDangling(z) && NoDead(z) && StacksNotBlack(z)
  {
    hide Holds, PhaseInv, Wf, NoDangling, StacksNotBlack, NoDead;
    RestartColors(s);
    var y := s.(m := s.m.(gray := [], grayagain := [], weak := []));
    SameColors(s, y);
    MarkedWf(s, y);
    MarkedNoDangling(s, y);
    PositionsOnly(y, z);
    SameColors(y, z);
  }

  lemma SameColors(s: State, z: State)
    requires z.objs == s.objs && z.m.color == s.m.color && z.currentwhite == s.currentwhite
    ensures MoreMarked(s.m, z.m) && (NoDead(s) ==> NoDead(z)) && (StacksNotBlack(s) ==> StacksNotBlack(z))
  {
    if NoDead(s) { forall r | r in z.objs ensures !IsDead(z, r) { assert !IsDead(s, r); } }
  }

  lemma RestartColors(s: State)
    requires Inv(s) && (s.phase.Pause? || s.phase.Propagate?)
    ensures NoDead(s) && StacksNotBlack(s)
  {
    hide Wf, NoDangling, Holds, GrayLists;
    if s.phase.Pause? {
      forall r | r in s.objs ensures !IsDead(s, r) && !IsBlack(s.m, r) { assert IsFresh(s, r); }
    }
  }

  lemma {:induction false} DriveInv(s: State, stop: Phase)
    requires Inv(s) && Rank(stop) <= Rank(s.phase) && (stop.Pause? || stop.Finalize?)
    ensures Inv(Drive(s, stop)) && Drive(s, stop).phase == stop
    decreases Rank(s.phase), Inner(s)
  {
    hide Inv, SingleStep;
    if s.phase != stop {
      StepProgress(s);
      SingleStepInv(s);
      DriveOn(s, stop);
      DriveInv(SingleStep(s), stop);
    }
  }

  /** The state in which the collection proper starts: all pending sweeping done, roots marked. */
  ghost function Clean(s: State): State
    requires Inv(s)
  {
    RestartInv(s);
    Drive(Restart(s), Finalize)
  }

  /** luaC_fullgc. */
  ghost function FullGc(s: State): State
    requires Inv(s)
  {
    CleanInv(s);
    Drive(MarkRoot(Clean(s)), Pause)
  }

  lemma CleanInv(s: State)
    requires Inv(s)
    ensures Inv(Clean(s)) && AllFresh(Clean(s)) && Inv(MarkRoot(Clean(s)))
  {
    hide Wf, NoDangling, MarkRoot, AllFresh, Restart;
    RestartInv(s);
    DriveInv(Restart(s), Finalize);
    MarkRootInv(Clean(s));
  }

  /** A sweep driven to its end frees nothing but condemned objects. */
  lemma {:induction false} SweepPhase(s: State, stop: Phase)
    requires Inv(s) && (s.phase.SweepString? || s.phase.Sweep? || s.phase.Finalize? || s.phase == stop)
    requires stop.Pause? || stop.Finalize?
    requires Rank(stop) <= Rank(s.phase)
    ensures OnlyFreed(s, Drive(s, stop))
    decreases Rank(s.phase), Inner(s)
  {
    hide OnlyFreed, SingleStep, Wf, NoDangling, TricolorBut, Swept, StacksNotBlack, AllFresh;
    assert s.m.color.Keys == s.objs.Keys && OpenMembers(s) by { InvKeys(s); }
    if s.phase == stop { OnlyFreedRefl(s); return; }
    StepProgress(s);
    SingleStepInv(s);
    DriveOn(s, stop);
    var y := SingleStep(s);
    if s.phase.Finalize? { FinalStep(s); } else { FreedStep(s); }
    SweepPhase(y, stop);
    InvKeys(y);
    OnlyFreedTrans(s, y, Drive(s, stop));
  }

  lemma InvKeys(s: State)
    requires Inv(s)
    ensures s.m.color.Keys == s.objs.Keys && OpenMembers(s)
  {
    hide NoDangling, PhaseInv, RootList, StringTable, OpenSorted, UvHead, Threads;
  }

  lemma FinalStep(s: State)
    requires s.phase.Finalize? && s.m.color.Keys == s.objs.Keys
    ensures SingleStep(s).phase.Pause? && OnlyFreed(s, SingleStep(s))
  {
    FreedPositions(s, SingleStep(s));
  }

  /** A key whose entry goes: an object out of reach, other than a string. */
  ghost predicate Lost(s: State, v: Value) {
    v.Gc? && v.ref in s.objs && !s.objs[v.ref].Str? && !StronglyReachable(s, v.ref)
  }

  ghost predicate StaysIn(s: State, e: Entry, r: Ref) { e.key == Gc(r) || (e.val == Gc(r) && !Lost(s, e.key)) }

  /** A string that a weak table within reach keeps: as a key, or as the value of a key that stays. */
  ghost predicate WeakString(s: State, r: Ref) {
    r in s.objs && s.objs[r].Str?
    && exists w, e :: w in s.objs && WeakTable(s.objs[w]) && StronglyReachable(s, w) && e in s.objs[w].entries && StaysIn(s, e, r)
  }

  /** The result of the mark phase: what is alive afterwards is what is strongly reachable, plus
      strings that weak tables keep. */
  ghost predicate MarkedExactly(s: State, a: State) {
    && a.objs.Keys == s.objs.Keys && a.fixed == s.fixed
    && (forall r :: r in s.objs ==> (!IsDead(a, r) <==> StronglyReachable(s, r) || WeakString(s, r)))
    && (forall r :: r in s.objs && !WeakTable(s.objs[r]) ==> a.objs[r] == s.objs[r])
  }

  /** The mark phase, run to its end with no program step in between. */
  lemma {:induction false} MarkPhase(s: State, k: set<Ref>) returns (a: State)
    requires Inv(s) && s.phase.Propagate? && k == ReachSet(s) && MarkedIn(s.objs, s.m, k)
    ensures Inv(a) && a.phase.SweepString? && Drive(s, Pause) == Drive(a, Pause) && MarkedExactly(s, a)
    decreases Work(s.m)
  {
    hide Wf, NoDangling, TricolorBut, ClosedSet, MarkedIn, ReachSet, MarkedExactly, Atomic, PropagateMark;
    ReachClosed(s);
    StepProgress(s);
    SingleStepInv(s);
    DriveOn(s, Pause);
    if s.m.gray != [] {
      PropagateInv(s);
      FirstGray(s.objs, s.m);
      PropagateIn(s.objs, s.m, k);
      var y := PropagateStep(s);
      SameReach(s, y);
      a := MarkPhase(y, k);
      SameExactly(s, y, a);
    } else {
      a := Atomic(s);
      AtomicPhase(s);
      AtomicExactly(s, k);
    }
  }

  lemma SameReach(s: State, y: State)
    requires y.objs == s.objs && Roots(y) == Roots(s)
    ensures ReachSet(y) == ReachSet(s) && forall r :: StronglyReachable(y, r) <==> StronglyReachable(s, r)
  {
    hide Strong;
    forall path: seq<Ref> ensures StrongPath(y, path) <==> StrongPath(s, path) {}
    forall r ensures StronglyReachable(y, r) <==> StronglyReachable(s, r) {
      if StronglyReachable(y, r) { var p :| StrongPath(y, p) && p[|p| - 1] == r; assert StrongPath(s, p); }
      if StronglyReachable(s, r) { var p :| StrongPath(s, p) && p[|p| - 1] == r; assert StrongPath(y, p); }
    }
  }

  lemma SameExactly(s: State, y: State, a: State)
    requires y.objs == s.objs && y.fixed == s.fixed && MarkedExactly(y, a)
    requires forall r :: StronglyReachable(y, r) <==> StronglyReachable(s, r)
    ensures MarkedExactly(s, a)
  {
    SameWeak(s, y);
    hide StronglyReachable, WeakString;
  }

  lemma SameWeak(s: State, y: State)
    requires y.objs == s.objs && forall r :: StronglyReachable(y, r) <==> StronglyReachable(s, r)
    ensures forall r :: WeakString(y, r) <==> WeakString(s, r)
  {
    hide StronglyReachable;
    forall e, r ensures StaysIn(y, e, r) <==> StaysIn(s, e, r) {}
    forall r ensures WeakString(y, r) <==> WeakString(s, r) {
      hide StaysIn;
      if WeakString(y, r) {
        var w, e :| w in y.objs && WeakTable(y.objs[w]) && StronglyReachable(y, w) && e in y.objs[w].entries && StaysIn(y, e, r);
        assert StaysIn(s, e, r);
      }
      if WeakString(s, r) {
        var w, e :| w in s.objs && WeakTable(s.objs[w]) && StronglyReachable(s, w) && e in s.objs[w].entries && StaysIn(s, e, r);
        assert StaysIn(y, e, r);
      }
    }
  }

  lemma AtomicExactly(s: State, k: set<Ref>)
    requires Inv(s) && s.phase.Propagate? && s.m.gray == [] && k == ReachSet(s) && MarkedIn(s.objs, s.m, k) && ClosedSet(s.objs, k)
    requires ValuesIn(s.objs, Roots(s), k)
    ensures MarkedExactly(s, Atomic(s))
  {
    hide TricolorBut, NoDangling, StringTable, RootList, OpenMembers, OpenSorted, ClosedSet, Settled, AtomicMarks, Atomic, MoreMarked, AllMarked, OnlyCollected, AllKept, StronglyReachable, WeakString;
    var m := AtomicMarks(s.objs, s.m, s.uvhead, Again(s));
    var a := Atomic(s);
    AtomicStages(s);
    AtomicMarked(s);
    AtomicFixed(s);
    AgainIn(s, k);
    AtomicIn(s.objs, s.m, s.uvhead, Again(s), k);
    MarkedRoots(s, m);
    MarkedIsReached(s, m, k);
    SettledLists(s.objs, m);
    forall r | r in s.objs ensures !IsDead(a, r) <==> StronglyReachable(s, r) || WeakString(s, r) { AliveExactly(s, m, r); }
    forall r | r in s.objs && !WeakTable(s.objs[r]) ensures a.objs[r] == s.objs[r] { WeakListed(s.objs, m, r); }
  }

  /** Once nothing is left to traverse, what is marked is what is strongly reachable. */
  lemma MarkedIsReached(s: State, m: Marks, k: set<Ref>)
    requires Settled(s.objs, m) && AllMarked(m, Roots(s)) && MarkedIn(s.objs, m, k) && k == ReachSet(s)
    ensures forall r :: r in s.objs ==> (!IsWhite(m, r) <==> StronglyReachable(s, r))
  {
    hide Settled, AllMarked;
    forall r | r in s.objs && StronglyReachable(s, r) ensures !IsWhite(m, r) {
      var path :| StrongPath(s, path) && path[|path| - 1] == r;
      SettledReach(s, m, path);
    }
    hide StronglyReachable;
  }

  lemma AliveExactly(s: State, m: Marks, r: Ref)
    requires Settled(s.objs, m) && r in s.objs && m.color.Keys == s.objs.Keys && NoDup(m.weak)
    requires forall x :: x in s.objs ==> (!IsWhite(m, x) <==> StronglyReachable(s, x))
    ensures !IsWhite(ClearTable(s.objs, m, m.weak).1, r) <==> StronglyReachable(s, r) || WeakString(s, r)
  {
    hide Settled, NoDup, StronglyReachable, WeakString, ClearTable;
    if s.objs[r].Str? && IsWhite(m, r) { ClearedString(s, m, r); } else { NoWeakString(s, m, r); }
  }

  lemma NoWeakString(s: State, m: Marks, r: Ref)
    requires r in s.objs && m.color.Keys == s.objs.Keys && (forall x :: x in s.objs ==> (!IsWhite(m, x) <==> StronglyReachable(s, x)))
    requires !(s.objs[r].Str? && IsWhite(m, r)) && NoDup(m.weak)
    ensures IsWhite(ClearTable(s.objs, m, m.weak).1, r) == IsWhite(m, r)
    ensures StronglyReachable(s, r) || WeakString(s, r) <==> !IsWhite(m, r)
  {
    hide StronglyReachable, OnlyTables, AllKept, OnlyCollected;
    ClearTableKeeps(s.objs, m, m.weak);
  }

  /** Clearing marks a string exactly if a weak table within reach keeps it. */
  lemma ClearedString(s: State, m: Marks, r: Ref)
    requires Settled(s.objs, m) && r in s.objs && s.objs[r].Str? && IsWhite(m, r)
    requires forall x :: x in s.objs ==> (!IsWhite(m, x) <==> StronglyReachable(s, x))
    ensures !IsWhite(ClearTable(s.objs, m, m.weak).1, r) <==> WeakString(s, r)
  {
    hide Settled, TricolorBut, GrayLists, ClearTable, NoDup, StronglyReachable;
    SettledLists(s.objs, m);
    ClearTableMarks(s.objs, m, m.weak, r);
    forall e ensures Examined(s.objs, m, e, r) <==> StaysIn(s, e, r) {}
    hide Examined, StaysIn;
    if InTables(s.objs, m, m.weak, r) {
      var h :| h in m.weak && h in s.objs && s.objs[h].Tab? && EntryOf(s.objs, m, s.objs[h].entries, r);
      var e :| e in s.objs[h].entries && Examined(s.objs, m, e, r);
      OnWeakList(s.objs, m, h);
      assert StaysIn(s, e, r);
    }
    if WeakString(s, r) {
      var w, e :| w in s.objs && WeakTable(s.objs[w]) && StronglyReachable(s, w) && e in s.objs[w].entries && StaysIn(s, e, r);
      ListedWeak(s.objs, m, w, e, r) by { ExaminedHeld(s.objs, m, e, r); }
      assert EntryOf(s.objs, m, s.objs[w].entries, r);
    }
  }

  lemma ExaminedHeld(objs: Objects, m: Marks, e: Entry, r: Ref)
    requires Examined(objs, m, e, r)
    ensures e.key == Gc(r) || e.val == Gc(r)
  {}

  lemma OnWeakList(objs: Objects, m: Marks, h: Ref)
    requires Settled(objs, m) && h in m.weak
    ensures h in objs && WeakTable(objs[h]) && !IsWhite(m, h)
  {
    hide Holds, NoDup;
  }

  /** A marked weak table that holds something white is on the list `weak`. */
  lemma ListedWeak(objs: Objects, m: Marks, w: Ref, e: Entry, r: Ref)
    requires Settled(objs, m) && w in objs && WeakTable(objs[w]) && !IsWhite(m, w) && m.color.Keys == objs.Keys
    requires e in objs[w].entries && (e.key == Gc(r) || e.val == Gc(r)) && IsWhite(m, r)
    ensures w in m.weak
  {
    hide NoDup, GrayLists, Holds;
    if IsBlack(m, w) {
      EntryHeld(objs, w, e, r);
      assert false;
    }
  }

  lemma EntryHeld(objs: Objects, w: Ref, e: Entry, r: Ref)
    requires w in objs && objs[w].Tab? && e in objs[w].entries && (e.key == Gc(r) || e.val == Gc(r))
    ensures Gc(r) in Holds(objs, objs[w])
  {
    TabRefsHas(objs[w].metatable, objs[w].entries, Gc(r));
  }

  lemma WeakListed(objs: Objects, m: Marks, r: Ref)
    requires Settled(objs, m) && r in objs && !WeakTable(objs[r])
    ensures r !in m.weak
  {
    hide TricolorBut, Traversed;
  }

  lemma AtomicFixed(s: State)
    ensures Atomic(s).fixed == s.fixed
    ensures var m := AtomicMarks(s.objs, s.m, s.uvhead, Again(s)); Atomic(s).m == ClearTable(s.objs, m, m.weak).1
  {}

  lemma AgainIn(s: State, k: set<Ref>)
    requires ValuesIn(s.objs, Roots(s), k)
    ensures ValuesIn(s.objs, Again(s), k)
  {
    forall v | v in Again(s) && v.Gc? && v.ref in s.objs ensures v.ref in k { assert v in Roots(s); }
  }

  lemma MarkedRoots(s: State, m: Marks)
    requires RootsMarked(s) && MoreMarked(s.m, m) && AllMarked(m, Again(s)) && s.m.color.Keys == s.objs.Keys
    ensures AllMarked(m, Roots(s))
  {
    MarkedStays(s.objs, s.m, m, [Gc(s.mainthread), s.registry]);
    forall v | v in Roots(s) && v.Gc? ensures !IsWhite(m, v.ref) {
      assert v in Again(s) || v in [Gc(s.mainthread), s.registry];
    }
  }

  /** What an object holds strongly is the same before and after sweeping. */
  lemma StrongSame(s: State, z: State, r: Ref)
    requires OnlyFreed(s, z) && OpenMembers(s) && OpenMembers(z) && r in z.objs
    ensures r in s.objs && Strong(z.objs, z.objs[r]) == Strong(s.objs, s.objs[r])
  {
    hide TabRefs;
    if z.objs[r].Open? {
      var t := z.objs[r].thread;
      assert t in z.openupval && t in z.objs && SameObject(s, z, t);
    }
  }

  /** Sweeping changes nothing about reachability. */
  lemma {:induction false} SweptPath(s: State, z: State, path: seq<Ref>)
    requires OnlyFreed(s, z) && NoDangling(s) && OpenMembers(s) && OpenMembers(z)
    ensures StrongPath(z, path) ==> StrongPath(s, path)
    ensures StrongPath(s, path) ==> StrongPath(z, path) && !IsDead(s, path[|path| - 1])
    decreases |path|
  {
    hide Strong, OpenMembers, NoDangling, OnlyFreed;
    OnlyFreedIn(s, z);
    if |path| == 0 { return; }
    if StrongPath(z, path) {
      forall i | 0 <= i < |path| - 1 ensures path[i] in s.objs && Gc(path[i + 1]) in Strong(s.objs, s.objs[path[i]]) {
        StrongSame(s, z, path[i]);
      }
    }
    if StrongPath(s, path) {
      if |path| == 1 {
        RootAlive(s, path[0]);
      } else {
        var front := path[..|path| - 1];
        forall i | 0 <= i < |front| - 1 ensures front[i] in s.objs && Gc(front[i + 1]) in Strong(s.objs, s.objs[front[i]]) {
          assert front[i] == path[i] && front[i + 1] == path[i + 1];
        }
        SweptPath(s, z, front);
        var r := path[|path| - 2];
        HeldAlive(s, r, Gc(path[|path| - 1]));
        forall i | 0 <= i < |path| - 1 ensures path[i] in z.objs && Gc(path[i + 1]) in Strong(z.objs, z.objs[path[i]]) {
          assert path[i] in z.objs by { if i < |path| - 2 { assert front[i] in z.objs; } else { assert front[|front| - 1] in z.objs; } }
          StrongSame(s, z, path[i]);
        }
      }
    }
  }

  lemma OnlyFreedIn(s: State, z: State)
    requires OnlyFreed(s, z)
    ensures Roots(z) == Roots(s) && (forall r :: r in z.objs ==> r in s.objs)
    ensures forall r :: r in s.objs && !IsDead(s, r) ==> r in z.objs
  {}

  lemma RootAlive(s: State, r: Ref)
    requires NoDangling(s) && Gc(r) in Roots(s)
    ensures r in s.objs && !IsDead(s, r)
  {
    assert Alive(s, Gc(r));
  }

  lemma HeldAlive(s: State, r: Ref, v: Value)
    requires NoDangling(s) && r in s.objs && !IsDead(s, r) && v in Strong(s.objs, s.objs[r])
    ensures Alive(s, v)
  {
    hide Strong, Holds;
    StrongInHolds(s.objs, s.objs[r], v);
  }

  lemma SweptReach(s: State, z: State, r: Ref)
    requires OnlyFreed(s, z) && NoDangling(s) && OpenMembers(s) && OpenMembers(z)
    ensures StronglyReachable(z, r) <==> StronglyReachable(s, r)
  {
    hide OnlyFreed, NoDangling, OpenMembers, Strong, Roots;
    if StronglyReachable(z, r) { var p :| StrongPath(z, p) && p[|p| - 1] == r; SweptPath(s, z, p); }
    if StronglyReachable(s, r) { var p :| StrongPath(s, p) && p[|p| - 1] == r; SweptPath(s, z, p); }
  }

  lemma FirstMarkedIn(s: State)
    requires Wf(s) && AllFresh(s)
    ensures MarkRoot(s).objs == s.objs && Roots(MarkRoot(s)) == Roots(s) && MarkedIn(s.objs, MarkRoot(s).m, ReachSet(s))
  {
    hide ReachSet, RootList, StringTable, OpenLists;
    ReachClosed(s);
    var m := s.m.(gray := [], grayagain := [], weak := []);
    var vs := [Gc(s.mainthread)] + Globals(s) + [s.registry] + s.mt;
    forall v | v in vs && v.Gc? && v.ref in s.objs ensures v.ref in ReachSet(s) {
      if v in Globals(s) {
        assert Gc(s.mainthread) in Roots(s) && v in Strong(s.objs, s.objs[s.mainthread]);
      } else {
        assert v in Roots(s);
      }
    }
    MarkAllIn(s.objs, m, vs, ReachSet(s));
  }

  /** A full collection, from any state: it ends in the pause state with every object current-white,
      and what is left is exactly what was strongly reachable or fixed, plus the strings that weak
      tables within reach keep. */
  lemma FullGcExact(s: State)
    requires Inv(s)
    ensures var z := FullGc(s);
      && Inv(z) && z.phase.Pause? && AllFresh(z)
      && forall r :: r in z.objs <==> r in s.objs && (StronglyReachable(s, r) || r in s.fixed || WeakString(s, r))
  {
    hide Inv, OnlyFreed, MarkRoot, StronglyReachable, WeakString, Restart, Clean;
    var c := Clean(s);
    var b := MarkRoot(c);
    var z := FullGc(s);
    CleanInv(s);
    CleanReach(s);
    FirstFacts(c);
    SameReach(c, b);
    SameWeak(c, b);
    var a := MarkPhase(b, ReachSet(b));
    SweepPhase(a, Pause);
    DriveInv(a, Pause);
    Survivors(a, z);
    PauseFresh(z);
  }

  lemma PauseFresh(s: State)
    requires Inv(s) && s.phase.Pause?
    ensures AllFresh(s)
  {
    hide Wf, NoDangling;
  }

  lemma FirstFacts(c: State)
    requires Inv(c) && AllFresh(c)
    ensures var b := MarkRoot(c);
      && b.objs == c.objs && Roots(b) == Roots(c) && b.phase.Propagate? && b.fixed == c.fixed
      && MarkedIn(b.objs, b.m, ReachSet(c))
  {
    hide NoDangling, ReachSet, AllFresh;
    FirstMarkedIn(c);
  }

  lemma Survivors(a: State, z: State)
    requires OnlyFreed(a, z) && Inv(z) && z.phase.Pause?
    ensures forall r :: r in z.objs ==> r in a.objs && (!IsDead(a, r) || r in a.fixed)
    ensures forall r :: r in a.objs && (!IsDead(a, r) || r in a.fixed) ==> r in z.objs
  {
    hide Wf, NoDangling, SameObject;
    forall r | r in z.objs ensures r in a.objs && (!IsDead(a, r) || r in a.fixed) { assert IsFresh(z, r); }
  }

  /** Finishing the pending sweep changes nothing about what is reachable. */
  lemma CleanReach(s: State)
    requires Inv(s)
    ensures var c := Clean(s);
      && c.fixed == s.fixed && (forall r :: r in c.objs ==> r in s.objs)
      && (forall r :: StronglyReachable(c, r) <==> StronglyReachable(s, r))
      && (forall r :: WeakString(c, r) <==> WeakString(s, r))
      && (forall r :: r in s.objs && (StronglyReachable(s, r) || r in s.fixed || WeakString(s, r)) ==> r in c.objs)
  {
    hide StronglyReachable, WeakString, Wf, PhaseInv, NoDangling, SingleStep;
    RestartInv(s);
    var b := Restart(s);
    var c := Clean(s);
    SweepPhase(b, Finalize);
    DriveInv(b, Finalize);
    InvKeys(b);
    InvKeys(c);
    SameReach(s, b);
    SameWeak(s, b);
    forall r ensures StronglyReachable(c, r) <==> StronglyReachable(s, r) { SweptReach(b, c, r); }
    forall r ensures WeakString(c, r) <==> WeakString(s, r) { SweptWeak(b, c, r); }
    forall r | StronglyReachable(s, r) ensures r in c.objs { ReachIn(c, r); }
    forall r | WeakString(s, r) ensures r in c.objs { WeakIn(c, r); }
  }

  lemma ReachIn(s: State, r: Ref)
    requires StronglyReachable(s, r)
    ensures r in s.objs
  {}

  lemma WeakIn(s: State, r: Ref)
    requires WeakString(s, r)
    ensures r in s.objs
  {}

  /** What a table within reach holds is not freed. */
  lemma HeldStays(s: State, z: State, w: Ref, v: Value)
    requires OnlyFreed(s, z) && NoDangling(s) && OpenMembers(s) && OpenMembers(z) && StronglyReachable(s, w)
    requires w in s.objs && v in Holds(s.objs, s.objs[w]) && v.Gc?
    ensures v.ref in z.objs && v.ref in s.objs && w in z.objs
  {
    hide Holds, OpenMembers;
    var p :| StrongPath(s, p) && p[|p| - 1] == w;
    SweptPath(s, z, p);
    assert Alive(s, v);
  }

  lemma StaysSame(s: State, z: State, r: Ref)
    requires OnlyFreed(s, z) && r in z.objs
    ensures r in s.objs && (z.objs[r].Str? || z.objs[r].Tab? || s.objs[r].Str? || s.objs[r].Tab? ==> z.objs[r] == s.objs[r])
  {}

  /** Nor about which strings weak tables keep. */
  lemma SweptWeak(s: State, z: State, r: Ref)
    requires OnlyFreed(s, z) && NoDangling(s) && OpenMembers(s) && OpenMembers(z)
    requires forall x :: StronglyReachable(z, x) <==> StronglyReachable(s, x)
    ensures WeakString(z, r) <==> WeakString(s, r)
  {
    hide OnlyFreed, NoDangling, OpenMembers, StronglyReachable;
    if WeakString(z, r) {
      var w, e :| w in z.objs && WeakTable(z.objs[w]) && StronglyReachable(z, w) && e in z.objs[w].entries && StaysIn(z, e, r);
      StaysSame(s, z, w);
      StaysSame(s, z, r);
      SweptLost(s, z, w, e);
      assert StaysIn(s, e, r);
    }
    if WeakString(s, r) {
      var w, e :| w in s.objs && WeakTable(s.objs[w]) && StronglyReachable(s, w) && e in s.objs[w].entries && StaysIn(s, e, r);
      EntryHeld(s.objs, w, e, r);
      HeldStays(s, z, w, Gc(r));
      StaysSame(s, z, w);
      StaysSame(s, z, r);
      SweptLost(s, z, w, e);
      assert StaysIn(z, e, r);
    }
  }

  lemma SweptLost(s: State, z: State, w: Ref, e: Entry)
    requires OnlyFreed(s, z) && NoDangling(s) && OpenMembers(s) && OpenMembers(z)
    requires forall x :: StronglyReachable(z, x) <==> StronglyReachable(s, x)
    requires w in s.objs && s.objs[w].Tab? && StronglyReachable(s, w) && e in s.objs[w].entries
    ensures Lost(z, e.key) <==> Lost(s, e.key)
  {
    hide OnlyFreed, NoDangling, OpenMembers, StronglyReachable;
    if e.key.Gc? {
      EntryHeld(s.objs, w, e, e.key.ref);
      HeldStays(s, z, w, e.key);
      StaysSame(s, z, e.key.ref);
    }
  }
}
