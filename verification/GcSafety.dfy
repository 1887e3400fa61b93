/** Safety of the incremental collector over every run: nothing reachable is ever freed. */
module GcSafety {
  import opened GcHeap
  import opened GcMark
  import opened GcPropagate
  import opened GcState
  import opened GcAtomic
  import opened GcClear
  import opened GcCycle
  import opened GcFree
  import opened GcClose
  import opened GcStrings
  import opened GcStep
  import opened GcFull
  import opened GcSurvive
  import opened GcMutator
  import opened GcAlloc
  import opened GcUpval
  import opened GcProgram

  /** Changing a root to a live value keeps the invariant. */
  lemma RootsInv(s: State, z: State)
    requires Inv(s) && z == s.(mt := z.mt, running := z.running)
    requires Alive(s, Gc(z.running)) && z.running in s.objs && s.objs[z.running].Thread? && forall v :: v in z.mt ==> Alive(s, v)
    ensures Inv(z)
  {
    hide NoDangling, StringTable, Decreasing, TricolorBut, Swept, StacksNotBlack, NoDup;
    RootsNoDangling(s, z);
    RootsPhase(s, z);
  }

  lemma RootsNoDangling(s: State, z: State)
    requires NoDangling(s) && z == s.(mt := z.mt, running := z.running)
    requires Alive(s, Gc(z.running)) && forall v :: v in z.mt ==> Alive(s, v)
    ensures NoDangling(z)
  {
    hide Holds;
    forall v | v in Roots(z) ensures Alive(z, v) {
      if v in z.mt { assert Alive(s, v); }
      else if v != Gc(z.running) { assert v in Roots(s) && Alive(s, v); }
    }
    forall x, v | x in z.objs && !IsDead(z, x) && v in Holds(z.objs, z.objs[x]) ensures Alive(z, v) { assert Alive(s, v); }
  }

  lemma RootsPhase(s: State, z: State)
    requires PhaseInv(s) && z == s.(mt := z.mt, running := z.running, fixed := z.fixed)
    ensures PhaseInv(z)
  {
    hide TricolorBut;
    if s.phase.Sweep? || s.phase.SweepString? {
      forall j | 0 <= j < z.sweepgc ensures SweptObject(z, z.rootgc[j]) { assert SweptObject(s, s.rootgc[j]); }
      forall r | IsFresh(s, r) ensures IsFresh(z, r) {}
      var strings := if s.phase.Sweep? then |s.strt| else s.sweepstrgc;
      forall j, x | 0 <= j < strings && j < |z.strt| && x in z.strt[j] ensures IsFresh(z, x) { assert IsFresh(s, x); }
    } else if !s.phase.Propagate? {
      forall r | r in z.objs ensures IsFresh(z, r) { assert IsFresh(s, r); }
    } else {
      forall r | r in z.objs ensures !IsDead(z, r) { assert !IsDead(s, r); }
    }
  }

  lemma NewBodyAlive(s: State, b: Body)
    requires NoDangling(s) && KnownBody(s, b)
    ensures HoldsAlive(s, b) && !b.Str? && !b.Open?
  {
    hide NoDangling, Holds;
    forall v | v in Holds(s.objs, b) ensures Alive(s, v) { KnownAlive(s, v); }
  }

  lemma NewAlive(s: State, r: Ref, b: Body)
    requires r !in s.objs
    ensures Alive(NewObject(s, r, b), Gc(r))
  {}

  lemma CreateInv(s: State, r: Ref, b: Body)
    requires Inv(s) && r !in s.objs && KnownBody(s, b)
    ensures Inv(Push(NewObject(s, r, b), Gc(r)))
  {
    hide Wf, PhaseInv, NoDangling, NewObject, KnownBody, HoldsAlive;
    NewBodyAlive(s, b);
    NewObjectInv(s, r, b);
    NewAlive(s, r, b);
    PushInv(NewObject(s, r, b), Gc(r));
  }

  lemma CreateStringInv(s: State, chars: seq<Byte>, r: Ref)
    requires Inv(s) && r !in s.objs
    ensures Inv(Apply(s, CreateString(chars, r)))
  {
    hide Inv, Intern, Push;
    Running(s);
    InternInv(s, chars, r);
    PushInv(Intern(s, chars, r).0, Gc(Intern(s, chars, r).1));
  }

  lemma CreateClosureInv(s: State, r: Ref, refs: seq<Value>, caps: seq<(nat, Ref)>)
    requires Inv(s) && Enabled(s, CreateClosure(r, refs, caps))
    ensures Inv(Apply(s, CreateClosure(r, refs, caps)))
  {
    hide Wf, PhaseInv, NoDangling, Capture, Push, NewObject;
    var (z, us) := Capture(s, caps);
    CaptureInv(s, caps);
    forall v | v in refs ensures Alive(z, v) { KnownAlive(s, v); }
    assert r !in z.objs;
    NewObjectInv(z, r, Func(refs + us));
    NewAlive(z, r, Func(refs + us));
    PushInv(NewObject(z, r, Func(refs + us)), Gc(r));
  }

  lemma SetUpvalueInv(s: State, u: Ref, v: Value)
    requires Inv(s) && Enabled(s, SetUpvalue(u, v))
    ensures Inv(Apply(s, SetUpvalue(u, v)))
  {
    hide Wf, PhaseInv, NoDangling, SameKind, StoreForward, StackUpdate;
    KnownAlive(s, Gc(u));
    KnownAlive(s, v);
    match s.objs[u] {
      case Closed(w) =>
        ClosedKind(s, u, v);
        StoreForwardInv(s, u, Closed(v), v);
      case Open(t, l) =>
        if t in s.objs && s.objs[t].Thread? && l < |s.objs[t].stack| {
          SlotKind(s, t, l, v);
          StackInv(s, t, Thread(s.objs[t].globals, s.objs[t].stack[l := v]), v);
        }
    }
  }

  lemma ClosedKind(s: State, u: Ref, v: Value)
    requires u in s.objs && s.objs[u].Closed?
    ensures SameKind(s, u, Closed(v)) && Extends(s, u, Closed(v), [v])
  {}

  lemma SlotKind(s: State, t: Ref, l: nat, v: Value)
    requires Inv(s) && t in s.objs && s.objs[t].Thread? && l < |s.objs[t].stack|
    ensures var b := Thread(s.objs[t].globals, s.objs[t].stack[l := v]); SameKind(s, t, b) && StackUpdate(s, t, b, v)
  {
    hide PhaseInv, NoDangling, RootList, StringTable, OpenSorted, UvHead, Threads;
  }

  lemma SetBasicMtInv(s: State, i: nat, v: Value)
    requires Inv(s) && i < |s.mt| && Alive(s, v)
    ensures Inv(s.(mt := s.mt[i := v]))
  {
    hide Wf, PhaseInv;
    Running(s);
    assert Alive(s, Gc(s.running));
    forall w | w in s.mt[i := v] ensures Alive(s, w) { assert w == v || w in Roots(s); }
    hide NoDangling;
    RootsInv(s, s.(mt := s.mt[i := v]));
  }

  lemma ResumeInv(s: State, t: Ref)
    requires Inv(s) && Alive(s, Gc(t)) && t in s.objs && s.objs[t].Thread?
    ensures Inv(s.(running := t))
  {
    hide Wf, PhaseInv;
    forall w | w in s.mt ensures Alive(s, w) { assert w in Roots(s); }
    RootsInv(s, s.(running := t));
  }

  /** luaS_fix: a fixed string need not be alive, as the sweep passes it by. */
  lemma FixStringInv(s: State, r: Ref)
    requires Inv(s) && r in s.objs && s.objs[r].Str?
    ensures Inv(s.(fixed := s.fixed + {r}))
  {
    hide Holds, StringTable, Decreasing, PhaseInv, NoDangling, NoDup;
    RootsPhase(s, s.(fixed := s.fixed + {r}));
    FixDangling(s, r);
  }

  lemma FixDangling(s: State, r: Ref)
    requires NoDangling(s)
    ensures NoDangling(s.(fixed := s.fixed + {r}))
  {
    hide Holds;
    var z := s.(fixed := s.fixed + {r});
    forall v | v in Roots(z) ensures Alive(z, v) { assert v in Roots(s) && Alive(s, v); }
    forall x, v | x in z.objs && !IsDead(z, x) && v in Holds(z.objs, z.objs[x]) ensures Alive(z, v) { assert Alive(s, v); }
  }

  lemma StartInv(s: State)
    requires Inv(s) && s.phase.Finalize?
    ensures Inv(MarkRoot(s))
  {
    hide Wf, NoDangling, MarkRoot, AllFresh;
    MarkRootInv(s);
  }

  /** Every command, of the program or of the collector, keeps the invariant. */
  lemma ApplyInv(s: State, c: Cmd)
    requires Inv(s) && Enabled(s, c)
    ensures Inv(Apply(s, c))
  {
    hide Wf, PhaseInv, NoDangling, SingleStep, StoreForward, StoreBack, Close, WriteUpvalue, MarkRoot, Restart, KnownBody, SameKind, Extends, StackUpdate, Capture, Push;
    match c {
      case Collect => SingleStepInv(s);
      case Abandon => RestartInv(s);
      case StartCycle => StartInv(s);
      case Create(r, b) => CreateInv(s, r, b);
      case CreateString(chars, r) => CreateStringInv(s, chars, r);
      case CreateClosure(r, refs, caps) => CreateClosureInv(s, r, refs, caps);
      case SetField(o, b, v) => KnownAlive(s, v); KnownAlive(s, Gc(o)); StoreForwardInv(s, o, b, v);
      case SetTable(t, b, k, v) => KnownAlive(s, k); KnownAlive(s, v); KnownAlive(s, Gc(t)); StoreBackInv(s, t, b, k, v);
      case SetUpvalue(u, v) => SetUpvalueInv(s, u, v);
      case SetStack(b, v) => KnownAlive(s, v); StackInv(s, s.running, b, v);
      case CloseUpvalues(level) => CloseInv(s, s.running, level);
      case SetBasicMt(i, v) => KnownAlive(s, v); SetBasicMtInv(s, i, v);
      case FixString(r) => FixStringInv(s, r);
      case Resume(t) => KnownAlive(s, Gc(t)); ResumeInv(s, t);
    }
  }

  /** An entry that the collector removed held an object that is dead afterwards. */
  ghost predicate Lost(z: State, e: Entry) {
    (e.key.Gc? && IsDead(z, e.key.ref)) || (e.val.Gc? && IsDead(z, e.val.ref))
  }

  /** What a collector step may do to a living object: nothing, close an upvalue over the value of
      its slot, or drop collected entries of a weak table. */
  ghost predicate Kept(s: State, z: State, r: Ref) {
    && r in s.objs && r in z.objs
    && (SameObject(s, z, r)
        || (WeakTable(s.objs[r]) && z.objs[r].Tab? && z.objs[r] == s.objs[r].(entries := z.objs[r].entries)
            && (forall e :: e in z.objs[r].entries ==> e in s.objs[r].entries)
            && (forall e :: e in s.objs[r].entries && e !in z.objs[r].entries ==> Lost(z, e))))
  }

  lemma AtomicKept(s: State, r: Ref)
    requires Inv(s) && s.phase.Propagate? && s.m.gray == [] && r in s.objs
    ensures Kept(s, Atomic(s), r)
  {
    hide Wf, NoDangling, PhaseInv, AtomicMarks, Atomic, TricolorBut, OpenTraversed, AllKept, Traversed, MoreMarked;
    var m := AtomicMarks(s.objs, s.m, s.uvhead, Again(s));
    var z := Atomic(s);
    AtomicStages(s);
    AtomicMarked(s);
    if r in m.weak {
      assert WeakTable(s.objs[r]) && Shrunk(s.objs[r], z.objs[r]);
      forall e | e in s.objs[r].entries && e !in z.objs[r].entries ensures Lost(z, e) {
        assert Collected(s.objs, z.m, e);
      }
    }
  }

  /** A step of the collector keeps every object that is reachable. */
  lemma CollectKeeps(s: State, r: Ref)
    requires Inv(s) && Reachable(s, r)
    ensures r in s.objs && Kept(s, SingleStep(s), r)
  {
    hide Wf, NoDangling, TricolorBut, Swept, StacksNotBlack, MarkRoot, Atomic, SweepList, SweepSome, CheckSizes, AllFresh, Reachable;
    ReachableIsAlive(s, r);
    match s.phase {
      case Propagate => if s.m.gray == [] { AtomicKept(s, r); }
      case SweepString => FreedStep(s);
      case Sweep => FreedStep(s);
      case Pause => MarkRootFrame(s);
      case _ =>
    }
  }

  lemma MarkRootFrame(s: State)
    ensures MarkRoot(s).objs == s.objs
  {}

  lemma CloseOneAlive(s: State, t: Ref, r: Ref)
    requires Inv(s) && MustClose(s, t, 0) && r in s.objs && !IsDead(s, r)
    ensures r in CloseOne(s, t).objs && !IsDead(CloseOne(s, t), r)
  {
    hide NoDangling, RootList, StringTable, OpenLists, Threads, TricolorBut, Swept, StacksNotBlack, Remove, RemoveAt;
    var u := s.openupval[t][0];
    var y := Detach(s, t);
    if !IsDead(s, u) && IsGray(s.m, u) && s.phase.Propagate? {
      MarkAllExt(y.objs, Paint(s.m, u, Black), [y.objs[u].value]);
    }
  }

  lemma {:induction false} CloseAlive(s: State, t: Ref, level: nat, r: Ref)
    requires Inv(s) && r in s.objs && !IsDead(s, r)
    ensures r in Close(s, t, level).objs
    decreases OpenCount(s, t)
  {
    hide Inv, CloseOne;
    if MustClose(s, t, level) {
      CloseOneShorter(s, t);
      CloseOneInv(s, t);
      CloseOneAlive(s, t, r);
      CloseAlive(CloseOne(s, t), t, level, r);
    }
  }

  lemma FindUpvalKeeps(s: State, t: Ref, level: nat, r: Ref)
    requires t in s.openupval
    ensures s.objs.Keys <= FindUpval(s, t, level, r).0.objs.Keys
  {
    hide Above;
  }

  lemma {:induction false} CaptureKeeps(s: State, caps: seq<(nat, Ref)>)
    ensures s.objs.Keys <= Capture(s, caps).0.objs.Keys
    decreases |caps|
  {
    hide FindUpval;
    if caps != [] && s.running in s.openupval {
      FindUpvalKeeps(s, s.running, caps[0].0, caps[0].1);
      CaptureKeeps(FindUpval(s, s.running, caps[0].0, caps[0].1).0, caps[1..]);
    }
  }

  lemma PushKeeps(s: State, v: Value)
    ensures s.objs.Keys <= Push(s, v).objs.Keys
  {}

  lemma NewKeeps(s: State, r: Ref, b: Body)
    ensures s.objs.Keys <= NewObject(s, r, b).objs.Keys
  {}

  lemma InternKeeps(s: State, chars: seq<Byte>, r: Ref)
    requires |s.strt| > 0
    ensures s.objs.Keys <= Intern(s, chars, r).0.objs.Keys
  {
    hide FindString, Rehash;
  }

  lemma StoreKeeps(s: State, o: Ref, b: Body, k: Value, v: Value)
    ensures s.objs.Keys <= StoreForward(s, o, b, v).objs.Keys && s.objs.Keys <= StoreBack(s, o, b, k, v).objs.Keys
  {
    hide Mark;
    StoreBackUnfold(s, o, b, k, v);
  }

  lemma WriteKeeps(s: State, u: Ref, v: Value)
    ensures s.objs.Keys <= WriteUpvalue(s, u, v).objs.Keys
  {
    hide StoreForward, StoreBack;
    StoreKeeps(s, u, Closed(v), v, v);
  }

  /** A command of the program frees no reachable object. */
  lemma ProgramKeeps(s: State, c: Cmd, r: Ref)
    requires Inv(s) && Enabled(s, c) && !c.Collect? && Reachable(s, r)
    ensures r in Apply(s, c).objs
  {
    hide Inv, Reachable, SingleStep, Close, Capture, Intern, Push, NewObject, StoreForward, StoreBack, WriteUpvalue, MarkRoot, Known, KnownBody, SameKind, Extends, StackUpdate;
    Alive1(s, r);
    match c {
      case CloseUpvalues(level) => CloseAlive(s, s.running, level, r);
      case StartCycle => MarkRootFrame(s);
      case Create(n, b) => NewKeeps(s, n, b); PushKeeps(NewObject(s, n, b), Gc(n));
      case CreateString(chars, n) =>
        if |s.strt| > 0 { InternKeeps(s, chars, n); PushKeeps(Intern(s, chars, n).0, Gc(Intern(s, chars, n).1)); }
      case CreateClosure(n, refs, caps) =>
        CaptureKeeps(s, caps);
        var (z, us) := Capture(s, caps);
        NewKeeps(z, n, Func(refs + us));
        PushKeeps(NewObject(z, n, Func(refs + us)), Gc(n));
      case SetField(o, b, v) => StoreKeeps(s, o, b, v, v);
      case SetTable(t, b, k, v) => StoreKeeps(s, t, b, k, v);
      case SetUpvalue(u, v) => WriteKeeps(s, u, v);
      case _ =>
    }
  }

  lemma Alive1(s: State, r: Ref)
    requires Inv(s) && Reachable(s, r)
    ensures r in s.objs && !IsDead(s, r)
  {
    hide Wf, PhaseInv, NoDangling, Reachable;
    ReachableIsAlive(s, r);
  }

  ghost predicate Legal(s: State, run: seq<Cmd>)
    decreases |run|
  {
    run == [] || (Enabled(s, run[0]) && Legal(Apply(s, run[0]), run[1..]))
  }

  function After(s: State, run: seq<Cmd>): State
    decreases |run|
  {
    if run == [] then s else After(Apply(s, run[0]), run[1..])
  }

  /** The state that lua_newstate and f_luaopen set up: the main thread at address 0, the table of
      globals at 1, the registry at 2, and an empty string table. */
  function Initial(types: nat): State {
    var empty := Tab(Plain, false, false, []);
    State(map[0 := Thread(Gc(1), [Plain]), 1 := empty, 2 := empty],
          Marks(map[0 := White(false), 1 := White(false), 2 := White(false)], [], [], []), {0},
          false, Pause, [2, 1, 0], 0, NewHash(MIN_STRT_SIZE), 0, map[0 := []], [],
          0, 0, Gc(2), seq(types, _ => Plain))
  }

  /** What the empty heap of `Initial` consists of. */
  ghost predicate Empty3(s: State) {
    && s.objs.Keys == {0, 1, 2} && s.m.color.Keys == {0, 1, 2} && s.fixed == {0}
    && s.objs[0] == Thread(Gc(1), [Plain])
    && s.objs[1] == Tab(Plain, false, false, []) && s.objs[2] == Tab(Plain, false, false, [])
    && (forall r :: r in s.m.color ==> s.m.color[r] == White(s.currentwhite))
    && s.phase.Pause? && s.rootgc == [2, 1, 0] && s.openupval == map[0 := []] && s.uvhead == []
    && s.mainthread == 0 && s.running == 0 && s.registry == Gc(2)
    && |s.strt| > 0 && (forall i :: 0 <= i < |s.strt| ==> s.strt[i] == []) && (forall v :: v in s.mt ==> v == Plain)
  }

  lemma InitialEmpty(types: nat)
    ensures Empty3(Initial(types))
  {}

  lemma EmptyWf(s: State)
    requires Empty3(s)
    ensures Wf(s)
  {
    assert Threads(s);
    assert RootList(s);
    assert StringTable(s.objs, s.strt);
    assert OpenLists(s);
  }

  lemma EmptyNoDangling(s: State)
    requires Empty3(s)
    ensures NoDangling(s) && AllFresh(s)
  {
    hide TabRefs;
    forall r, v | r in s.objs && v in Holds(s.objs, s.objs[r]) ensures Alive(s, v) {
      if r == 0 { assert v in [Gc(1)] + [Plain]; } else { TabHoldsNothing(v); }
    }
  }

  lemma TabHoldsNothing(v: Value)
    requires v in TabRefs(Plain, false, false, [])
    ensures v == Plain
  {
    assert TabRefs(Plain, false, false, []) == [Plain] + [] + [];
  }

  lemma InitialInv(types: nat)
    ensures Inv(Initial(types))
  {
    hide Wf, NoDangling, AllFresh, Initial;
    InitialEmpty(types);
    EmptyWf(Initial(types));
    EmptyNoDangling(Initial(types));
  }

  lemma {:induction false} AfterInv(s: State, run: seq<Cmd>)
    requires Inv(s) && Legal(s, run)
    ensures Inv(After(s, run))
    decreases |run|
  {
    hide Inv, Enabled, Apply;
    if run != [] {
      ApplyInv(s, run[0]);
      AfterInv(Apply(s, run[0]), run[1..]);
    }
  }

  /** Safety: after any run, whatever command comes next, no reachable object is freed, and what is
      reachable then refers to allocated, living objects only. */
  lemma Safety(types: nat, run: seq<Cmd>, c: Cmd, r: Ref)
    requires Legal(Initial(types), run)
    requires var s := After(Initial(types), run); Enabled(s, c) && Reachable(s, r)
    ensures var s := After(Initial(types), run);
      && r in s.objs && !IsDead(s, r) && r in Apply(s, c).objs
      && (c.Collect? ==> Kept(s, Apply(s, c), r))
      && (forall x :: Reachable(Apply(s, c), x) ==> x in Apply(s, c).objs && !IsDead(Apply(s, c), x))
  {
    hide Inv, Legal, Enabled, Reachable, Initial, After, SingleStep, Kept;
    var s := After(Initial(types), run);
    InitialInv(types);
    AfterInv(Initial(types), run);
    ApplyInv(s, c);
    Alive1(s, r);
    if c.Collect? { CollectKeeps(s, r); KeptIn(s, Apply(s, c), r); } else { ProgramKeeps(s, c, r); }
    forall x | Reachable(Apply(s, c), x) ensures x in Apply(s, c).objs && !IsDead(Apply(s, c), x) { Alive1(Apply(s, c), x); }
  }

  lemma KeptIn(s: State, z: State, r: Ref)
    requires Kept(s, z, r)
    ensures r in z.objs
  {}

  lemma StepFixed(s: State)
    requires Inv(s)
    ensures SingleStep(s).fixed == s.fixed
  {
    hide Wf, NoDangling, TricolorBut, Swept, StacksNotBlack, Atomic, SweepList, SweepSome, CheckSizes, AllFresh, PropagateMark, AtomicMarks, ClearTable;
    match s.phase {
      case Propagate => AtomicFixed(s);
      case SweepString => FreedStep(s);
      case Sweep => FreedStep(s);
      case _ =>
    }
  }

  lemma {:induction false} CloseFixed(s: State, t: Ref, level: nat)
    requires Inv(s)
    ensures Close(s, t, level).fixed == s.fixed
    decreases OpenCount(s, t)
  {
    hide Inv, CloseOne;
    if MustClose(s, t, level) {
      CloseOneShorter(s, t);
      CloseOneInv(s, t);
      CloseOneFixed(s, t);
      CloseFixed(CloseOne(s, t), t, level);
    }
  }

  lemma CloseOneFixed(s: State, t: Ref)
    requires MustClose(s, t, 0)
    ensures CloseOne(s, t).fixed == s.fixed
  {
    hide MarkAll, Remove, RemoveAt;
  }

  lemma {:induction false} CaptureFixed(s: State, caps: seq<(nat, Ref)>)
    ensures Capture(s, caps).0.fixed == s.fixed
    decreases |caps|
  {
    if caps != [] && s.running in s.openupval {
      FindFixed(s, s.running, caps[0].0, caps[0].1);
      hide FindUpval;
      CaptureFixed(FindUpval(s, s.running, caps[0].0, caps[0].1).0, caps[1..]);
    }
  }

  lemma FindFixed(s: State, t: Ref, level: nat, r: Ref)
    requires t in s.openupval
    ensures FindUpval(s, t, level, r).0.fixed == s.fixed
  {
    hide Above;
  }

  lemma PushFixed(s: State, v: Value)
    ensures Push(s, v).fixed == s.fixed
  {}

  lemma NewFixed(s: State, r: Ref, b: Body)
    ensures NewObject(s, r, b).fixed == s.fixed
  {}

  lemma InternFixed(s: State, chars: seq<Byte>, r: Ref)
    requires |s.strt| > 0
    ensures Intern(s, chars, r).0.fixed == s.fixed
  {
    hide FindString, Rehash;
  }

  lemma StoreFixed(s: State, o: Ref, b: Body, k: Value, v: Value)
    ensures StoreForward(s, o, b, v).fixed == s.fixed && StoreBack(s, o, b, k, v).fixed == s.fixed
  {
    hide Mark;
    StoreBackUnfold(s, o, b, k, v);
  }

  lemma WriteFixed(s: State, u: Ref, v: Value)
    ensures WriteUpvalue(s, u, v).fixed == s.fixed
  {
    hide StoreForward, StoreBack;
    StoreFixed(s, u, Closed(v), v, v);
  }

  /** No command takes FIXEDBIT from a string. */
  lemma FixedKept(s: State, c: Cmd)
    requires Inv(s) && Enabled(s, c)
    ensures s.fixed <= Apply(s, c).fixed
  {
    hide Inv, SingleStep, Close, Capture, Intern, Push, NewObject, StoreForward, StoreBack, WriteUpvalue, Known, KnownBody, SameKind, Extends, StackUpdate;
    match c {
      case Collect => StepFixed(s);
      case Create(n, b) => NewFixed(s, n, b); PushFixed(NewObject(s, n, b), Gc(n));
      case CreateString(chars, n) =>
        if |s.strt| > 0 { InternFixed(s, chars, n); PushFixed(Intern(s, chars, n).0, Gc(Intern(s, chars, n).1)); }
      case CreateClosure(n, refs, caps) =>
        CaptureFixed(s, caps);
        var (z, us) := Capture(s, caps);
        NewFixed(z, n, Func(refs + us));
        PushFixed(NewObject(z, n, Func(refs + us)), Gc(n));
      case SetField(o, b, v) => StoreFixed(s, o, b, v, v);
      case SetTable(t, b, k, v) => StoreFixed(s, t, b, k, v);
      case SetUpvalue(u, v) => WriteFixed(s, u, v);
      case CloseUpvalues(level) => CloseFixed(s, s.running, level);
      case _ =>
    }
  }

  /** A string that luaS_fix has marked is there after every run, reachable or not. */
  lemma {:induction false} FixedStays(s: State, run: seq<Cmd>, r: Ref)
    requires Inv(s) && Legal(s, run) && r in s.fixed
    ensures r in After(s, run).objs && r in After(s, run).fixed
    decreases |run|
  {
    hide Inv, Enabled, Apply;
    if run != [] {
      FixedKept(s, run[0]);
      ApplyInv(s, run[0]);
      FixedStays(Apply(s, run[0]), run[1..], r);
    } else {
      FixedThere(s, r);
    }
  }

  lemma FixedThere(s: State, r: Ref)
    requires Inv(s) && r in s.fixed
    ensures r in s.objs
  {
    hide PhaseInv, NoDangling, RootList, StringTable, OpenLists;
  }
}
