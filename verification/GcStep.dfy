/** The collector's step function (singlestep in lgc.c), without weak-table finalizers. */
module GcStep {
  import opened GcHeap
  import opened GcPropagate
  import opened GcState
  import opened GcCycle
  import opened GcClose
  import opened GcSweep
  import opened GcStrings

  const GCSWEEPMAX: nat := 40

  /** sweeplist on rootgc, at most `count` objects. */
  function SweepSome(s: State, count: nat): State
    decreases count
  {
    if count == 0 || s.sweepgc >= |s.rootgc| then s else SweepSome(SweepObject(s), count - 1)
  }

  /** checkSizes, the string table: halved when less than a quarter full. */
  function CheckSizes(s: State): State {
    if Total(s.strt) < |s.strt| / 4 && |s.strt| > MIN_STRT_SIZE * 2 then Resize(s, |s.strt| / 2) else s
  }

  /** singlestep: one step of the collector, by phase. */
  function SingleStep(s: State): State {
    match s.phase
    case Pause => MarkRoot(s)
    case Propagate =>
      if s.m.gray != [] then (if s.m.gray[0] in s.objs then PropagateStep(s) else s) else Atomic(s)
    case SweepString =>
      var z := SweepList(s, s.sweepstrgc, 0);
      z.(sweepstrgc := s.sweepstrgc + 1, phase := if s.sweepstrgc + 1 >= |z.strt| then Sweep else SweepString)
    case Sweep =>
      var z := SweepSome(s, GCSWEEPMAX);
      if z.sweepgc >= |z.rootgc| then CheckSizes(z).(phase := Finalize) else z
    case Finalize => s.(phase := Pause)
  }

  lemma {:induction false} SweepSomeKeeps(s: State, count: nat)
    requires Sweeping(s, |s.strt|) && s.phase.Sweep?
    decreases count
    ensures var z := SweepSome(s, count); Sweeping(z, |z.strt|) && z.phase.Sweep? && Rest(z) <= Rest(s)
    ensures count > 0 && s.sweepgc < |s.rootgc| ==> Rest(SweepSome(s, count)) < Rest(s)
  {
    hide Sweeping, SweepObject;
    if count == 0 || s.sweepgc >= |s.rootgc| { return; }
    SweepObjectKeeps(s, |s.strt|);
    SweepObjectFrame(s, |s.strt|);
    SweepSomeKeeps(SweepObject(s), count - 1);
  }

  lemma SweepObjectFrame(s: State, strings: nat)
    requires Sweeping(s, strings) && s.phase.Sweep? && s.sweepgc < |s.rootgc|
    ensures SweepObject(s).phase == s.phase && SweepObject(s).strt == s.strt
  {
    hide NoDangling, StringTable, OpenSorted, OpenMembers, UvHead, Threads, StacksNotBlack, NoDup, SweepOpen, Swept, CloseOne;
    var r := s.rootgc[s.sweepgc];
    assert r in s.rootgc;
    var a := SweepOpen(s, r, 0);
    SweepOpenOrNot(s, r, strings);
    if Condemned(a, r) && r in a.openupval { CloseSweeping(a, r, strings); }
  }

  /** When the sweep has passed everything, everything is current-white. */
  lemma SweptAll(s: State)
    requires Sweeping(s, |s.strt|) && s.sweepgc == |s.rootgc|
    ensures AllFresh(s)
  {
    hide NoDangling, NoDup, OpenSorted, UvHead, Threads;
    forall r | r in s.objs ensures IsFresh(s, r) {
      var b := s.objs[r];
      if b.Str? {
        assert r in s.strt[Bucket(b.chars, |s.strt|)];
      } else if b.Open? {
        assert b.thread in s.rootgc;
        var i :| 0 <= i < |s.rootgc| && s.rootgc[i] == b.thread;
        assert SweptObject(s, s.rootgc[i]);
      } else {
        assert r in s.rootgc;
        var i :| 0 <= i < |s.rootgc| && s.rootgc[i] == r;
        assert SweptObject(s, s.rootgc[i]);
      }
    }
  }

  lemma SweepStringInv(s: State)
    requires Inv(s) && s.phase.SweepString?
    ensures Inv(SingleStep(s))
  {
    hide Wf, NoDangling, StacksNotBlack, SweptRoots, SweptStrings;
    var z := SweepList(s, s.sweepstrgc, 0);
    SweepListKeeps(s, s.sweepstrgc, 0);
    SweptPositions(z, SingleStep(s), s.sweepstrgc + 1);
    PositionsOnly(z, SingleStep(s));
  }

  lemma SweptPositions(s: State, z: State, strings: nat)
    requires Swept(s, strings) && StacksNotBlack(s)
    requires z == s.(sweepstrgc := z.sweepstrgc, phase := z.phase)
    ensures Swept(z, strings) && StacksNotBlack(z)
  {
    forall j | 0 <= j < z.sweepgc ensures SweptObject(z, z.rootgc[j]) { assert SweptObject(s, s.rootgc[j]); }
    forall j, x | 0 <= j < strings && j < |z.strt| && x in z.strt[j] ensures IsFresh(z, x) { assert IsFresh(s, x); }
  }

  lemma SweepRootInv(s: State)
    requires Inv(s) && s.phase.Sweep?
    ensures Inv(SingleStep(s))
    ensures SingleStep(s).phase.Finalize? || (SingleStep(s).phase.Sweep? && Rest(SingleStep(s)) < Rest(s))
  {
    hide Wf, NoDangling, StacksNotBlack, Swept, Resize, SweepSome;
    var z := SweepSome(s, GCSWEEPMAX);
    SweepSomeKeeps(s, GCSWEEPMAX);
    if z.sweepgc >= |z.rootgc| {
      FinishSweep(z);
    } else {
      assert s.sweepgc < |s.rootgc| by { SweepSomeDone(s, GCSWEEPMAX); }
    }
  }

  lemma SweepSomeDone(s: State, count: nat)
    ensures s.sweepgc >= |s.rootgc| ==> SweepSome(s, count) == s
  {}

  lemma FinishSweep(s: State)
    requires Sweeping(s, |s.strt|) && s.phase.Sweep? && s.sweepgc >= |s.rootgc|
    ensures Inv(CheckSizes(s).(phase := Finalize))
  {
    hide Wf, NoDangling, StacksNotBlack, SweptRoots, SweptStrings, Rehash;
    var z := CheckSizes(s);
    assert Inv(s);
    if z != s { ResizeInv(s, |s.strt| / 2); }
    assert z.sweepgc == z.sweepgc;
    AtEnd(s, z);
    SweptAll(z);
    PositionsOnly(z, z.(phase := Finalize));
  }

  lemma AtEnd(s: State, z: State)
    requires Inv(z) && z.phase.Sweep? && z.sweepgc >= |z.rootgc|
    ensures Sweeping(z, |z.strt|) && z.sweepgc == |z.rootgc|
  {
    hide Wf, NoDangling, StacksNotBlack, SweptStrings;
  }

  /** Every step of the collector keeps the invariant. */
  lemma SingleStepInv(s: State)
    requires Inv(s)
    ensures Inv(SingleStep(s))
  {
    hide Wf, NoDangling, TricolorBut, Swept, StacksNotBlack, MarkRoot, Atomic, PropagateStep, SweepList, SweepSome, CheckSizes, AllFresh;
    match s.phase {
      case Pause => MarkRootInv(s);
      case Propagate => if s.m.gray == [] { AtomicInv(s); } else { PropagateInv(s); }
      case SweepString => SweepStringInv(s);
      case Sweep => SweepRootInv(s);
      case Finalize => PositionsOnly(s, s.(phase := Pause)); FreshPhase(s, s.(phase := Pause));
    }
  }

  lemma FreshPhase(s: State, z: State)
    requires AllFresh(s) && z == s.(phase := z.phase)
    ensures AllFresh(z)
  {
    forall r | r in z.objs ensures IsFresh(z, r) { assert IsFresh(s, r); }
  }
}
