/** What the running program does to the heap: stores under the two write barriers, allocation,
    stack writes (lgc.c barriers, lvm.c, lfunc.c, ltable.c and lapi.c call sites). */
module GcMutator {
  import opened GcHeap
  import opened GcMark
  import opened GcPropagate
  import opened GcState
  import opened GcCycle
  import opened GcFree
  import opened GcClose
  import opened GcSweep

  predicate ValueWhite(s: State, v: Value) { v.Gc? && IsWhite(s.m, v.ref) }

  /** luaC_barrierf: marks the value, or whitens the holder once the mark phase is over. */
  function BarrierForward(s: State, o: Ref, v: Value): State
    requires v.Gc?
  {
    if s.phase.Propagate? then s.(m := Mark(s.objs, s.m, v.ref)) else Whiten(s, o)
  }

  /** luaC_barrier: taken when a black object gets a white value. */
  function Barrier(s: State, o: Ref, v: Value): State {
    if ValueWhite(s, v) && IsBlack(s.m, o) then BarrierForward(s, o, v) else s
  }

  /** luaC_barrierback: the table turns gray again, for the atomic step. */
  function BarrierBack(s: State, t: Ref): State {
    s.(m := Paint(s.m, t, Gray).(grayagain := [t] + s.m.grayagain))
  }

  /** luaC_barriert, for each value stored. */
  function BarrierTable(s: State, t: Ref, v: Value): State {
    if ValueWhite(s, v) && IsBlack(s.m, t) then BarrierBack(s, t) else s
  }

  function SetBody(s: State, o: Ref, b: Body): State { s.(objs := s.objs[o := b]) }

  /** A body may be replaced by one of the same kind; a thread keeps the slots of its open upvalues. */
  ghost predicate SameKind(s: State, o: Ref, b: Body) {
    && o in s.objs && !b.Str? && !b.Open?
    && (match s.objs[o]
        case Udata(_) => b.Udata? case Func(_) => b.Func? case Proto(_) => b.Proto?
        case Tab(_, _, _, _) => b.Tab? case Thread(_, _) => b.Thread? case Closed(_) => b.Closed? case _ => false)
    && (b.Thread? ==> forall u :: o in s.openupval && u in s.openupval[o] ==> Level(s.objs, u) < |b.stack|)
  }

  /** Every value the new body holds is alive. */
  ghost predicate HoldsAlive(s: State, b: Body) { forall v :: v in Holds(s.objs, b) ==> Alive(s, v) }

  lemma SetOpens(s: State, o: Ref, b: Body)
    requires OpenLists(s) && SameKind(s, o, b)
    ensures OpenLists(SetBody(s, o, b))
  {
    hide NoDup, Decreasing, OpenSorted;
    SetSorted(s, o, b);
  }

  lemma SetSorted(s: State, o: Ref, b: Body)
    requires OpenSorted(s) && SameKind(s, o, b)
    ensures OpenSorted(SetBody(s, o, b))
  {
    hide Decreasing;
    var z := SetBody(s, o, b);
    forall t | t in z.openupval ensures Decreasing(z.objs, z.openupval[t]) { DecreasingFrame(s.objs, z.objs, z.openupval[t]); }
  }

  lemma SetStrings(objs: Objects, strt: seq<seq<Ref>>, o: Ref, b: Body)
    requires StringTable(objs, strt) && o in objs && !objs[o].Str? && !b.Str?
    ensures StringTable(objs[o := b], strt)
  {
    hide NoDup;
  }

  lemma SetRootList(s: State, o: Ref, b: Body)
    requires RootList(s) && SameKind(s, o, b)
    ensures RootList(SetBody(s, o, b))
  {
    hide NoDup;
  }

  lemma SetThreads(s: State, o: Ref, b: Body)
    requires Threads(s) && SameKind(s, o, b)
    ensures Threads(SetBody(s, o, b))
  {}

  lemma SetWf(s: State, o: Ref, b: Body)
    requires Wf(s) && SameKind(s, o, b)
    ensures Wf(SetBody(s, o, b))
  {
    hide OpenLists, StringTable, RootList, Threads;
    SetOpens(s, o, b);
    SetStrings(s.objs, s.strt, o, b);
    SetRootList(s, o, b);
    SetThreads(s, o, b);
  }

  /** What an object holds after a body was replaced: the old values, or values of the new body. */
  lemma SetHolds(s: State, o: Ref, b: Body, x: Ref, v: Value)
    requires SameKind(s, o, b) && x in s.objs && v in Holds(SetBody(s, o, b).objs, SetBody(s, o, b).objs[x])
    ensures (x != o && v in Holds(s.objs, s.objs[x])) || v in Holds(s.objs, b)
  {
    hide TabRefs;
  }

  lemma SetNoDangling(s: State, o: Ref, b: Body)
    requires NoDangling(s) && SameKind(s, o, b) && HoldsAlive(s, b)
    ensures NoDangling(SetBody(s, o, b))
  {
    hide Holds, SameKind;
    var z := SetBody(s, o, b);
    assert o in s.objs by { KindIn(s, o, b); }
    forall v | v in Roots(z) ensures Alive(z, v) { assert Alive(s, v); }
    forall x, v | x in z.objs && !IsDead(z, x) && v in Holds(z.objs, z.objs[x]) ensures Alive(z, v) {
      SetHolds(s, o, b, x, v);
      assert Alive(s, v);
    }
  }

  lemma KindIn(s: State, o: Ref, b: Body)
    requires SameKind(s, o, b)
    ensures o in s.objs
  {}

  lemma SetSwept(s: State, o: Ref, b: Body, strings: nat)
    requires Swept(s, strings) && StacksNotBlack(s) && SameKind(s, o, b)
    ensures Swept(SetBody(s, o, b), strings) && StacksNotBlack(SetBody(s, o, b))
  {
    var z := SetBody(s, o, b);
    forall j | 0 <= j < z.sweepgc ensures SweptObject(z, z.rootgc[j]) { assert SweptObject(s, s.rootgc[j]); }
    forall j, x | 0 <= j < strings && j < |z.strt| && x in z.strt[j] ensures IsFresh(z, x) { assert IsFresh(s, x); }
  }

  /** A store breaks the tri-colour invariant at most at a black holder. */
  lemma SetTricolor(s: State, o: Ref, b: Body)
    requires Tricolor(s.objs, s.m) && SameKind(s, o, b)
    ensures TricolorBut(SetBody(s, o, b).objs, s.m, {o})
    ensures !IsBlack(s.m, o) ==> Tricolor(SetBody(s, o, b).objs, s.m)
  {
    hide NoDup, Holds;
    var z := SetBody(s, o, b);
    forall x | IsBlack(s.m, x) && x != o ensures AllMarked(s.m, Holds(z.objs, z.objs[x])) {
      assert Holds(z.objs, z.objs[x]) == Holds(s.objs, s.objs[x]) by { SameHoldsBlack(s, o, b, x); }
    }
  }

  lemma SameHoldsBlack(s: State, o: Ref, b: Body, x: Ref)
    requires SameKind(s, o, b) && x in s.objs && x != o && !s.objs[x].Open?
    ensures Holds(SetBody(s, o, b).objs, s.objs[x]) == Holds(s.objs, s.objs[x])
  {
    hide TabRefs;
  }

  /** The new body holds what the old one held, and `vs`. */
  ghost predicate Extends(s: State, o: Ref, b: Body, vs: seq<Value>) {
    o in s.objs && forall v :: v in Holds(s.objs, b) ==> v in Holds(s.objs, s.objs[o]) || v in vs
  }

  lemma ExtendsAlive(s: State, o: Ref, b: Body, vs: seq<Value>)
    requires NoDangling(s) && Extends(s, o, b, vs) && !IsDead(s, o) && forall v :: v in vs ==> Alive(s, v)
    ensures HoldsAlive(s, b)
  {
    hide Holds;
    forall v | v in Holds(s.objs, b) ensures Alive(s, v) {}
  }

  lemma ExtendsMarked(s: State, o: Ref, b: Body, vs: seq<Value>, m: Marks)
    requires Tricolor(s.objs, s.m) && IsBlack(s.m, o) && SameKind(s, o, b) && Extends(s, o, b, vs)
    requires MoreMarked(s.m, m) && AllMarked(m, vs)
    ensures AllMarked(m, Holds(SetBody(s, o, b).objs, b))
  {
    hide GrayLists, Holds;
    assert Holds(SetBody(s, o, b).objs, b) == Holds(s.objs, b) by { OwnHolds(s, o, b); }
    forall v | v in Holds(s.objs, b) && v.Gc? ensures !IsWhite(m, v.ref) {
      if v !in vs { assert v in Holds(s.objs, s.objs[o]) && !IsWhite(s.m, v.ref); }
    }
  }

  lemma OwnHolds(s: State, o: Ref, b: Body)
    requires SameKind(s, o, b)
    ensures Holds(SetBody(s, o, b).objs, b) == Holds(s.objs, b)
  {
    hide TabRefs;
  }

  /** A store into an object that is no table, under luaC_barrier. */
  function StoreForward(s: State, o: Ref, b: Body, v: Value): State { Barrier(SetBody(s, o, b), o, v) }

  lemma ForwardMarks(s: State, o: Ref, b: Body, v: Value)
    requires Tricolor(s.objs, s.m) && SameKind(s, o, b) && Extends(s, o, b, [v]) && s.phase.Propagate?
    ensures var z := StoreForward(s, o, b, v); Tricolor(z.objs, z.m) && MoreMarked(s.m, z.m)
  {
    hide GrayLists, Holds, SameKind, Mark, Extends;
    SetTricolor(s, o, b);
    var y := SetBody(s, o, b);
    var z := StoreForward(s, o, b, v);
    assert y.objs.Keys == s.objs.Keys by { KindIn(s, o, b); }
    if IsBlack(s.m, o) {
      if ValueWhite(s, v) {
        MarkExt(y.objs, s.m, v.ref);
        ExtTricolor(y.objs, s.m, z.m, {o});
      }
      ExtendsMarked(s, o, b, [v], z.m);
      SkipNone(y.objs, z.m, o);
    }
  }

  lemma StoreForwardInv(s: State, o: Ref, b: Body, v: Value)
    requires Inv(s) && SameKind(s, o, b) && Extends(s, o, b, [v]) && Alive(s, v) && !IsDead(s, o)
    ensures Inv(StoreForward(s, o, b, v))
  {
    hide Wf, NoDangling, TricolorBut, Swept, StacksNotBlack, SameKind, Extends, Mark, MoreMarked;
    var y := SetBody(s, o, b);
    KindIn(s, o, b);
    ExtendsAlive(s, o, b, [v]);
    SetWf(s, o, b);
    SetNoDangling(s, o, b);
    match s.phase {
      case Propagate =>
        ForwardMarks(s, o, b, v);
        NoDeadSet(s, o, b);
        MarkedStays(s.objs, s.m, StoreForward(s, o, b, v).m, [Gc(s.mainthread), s.registry]) by { WfKeys(s); }
        PropagatePhase(y, StoreForward(s, o, b, v));
      case SweepString => SetSwept(s, o, b, s.sweepstrgc); if IsBlack(s.m, o) { WhitenSweeping(y, o, s.sweepstrgc); }
      case Sweep => SetSwept(s, o, b, |s.strt|); if IsBlack(s.m, o) { WhitenSweeping(y, o, |s.strt|); }
      case _ => NotBlackFresh(s, o); SetFresh(s, o, b);
    }
  }

  lemma WfKeys(s: State)
    requires Wf(s)
    ensures s.m.color.Keys == s.objs.Keys
  {}

  lemma NoDeadSet(s: State, o: Ref, b: Body)
    requires NoDead(s) && o in s.objs
    ensures NoDead(SetBody(s, o, b))
  {
    forall r | r in SetBody(s, o, b).objs ensures !IsDead(SetBody(s, o, b), r) { assert !IsDead(s, r); }
  }

  lemma NotBlackFresh(s: State, o: Ref)
    requires AllFresh(s) && o in s.objs
    ensures !IsBlack(s.m, o)
  {
    assert IsFresh(s, o);
  }

  lemma SetFresh(s: State, o: Ref, b: Body)
    requires AllFresh(s) && o in s.objs
    ensures AllFresh(SetBody(s, o, b))
  {
    forall r | r in SetBody(s, o, b).objs ensures IsFresh(SetBody(s, o, b), r) { assert IsFresh(s, r); }
  }

  /** A store into a table, under luaC_barriert for the key and for the value. */
  function StoreBack(s: State, t: Ref, b: Body, k: Value, v: Value): State {
    BarrierTable(BarrierTable(SetBody(s, t, b), t, k), t, v)
  }

  lemma StoreBackUnfold(s: State, t: Ref, b: Body, k: Value, v: Value)
    ensures StoreBack(s, t, b, k, v) ==
      if IsBlack(s.m, t) && (ValueWhite(s, k) || ValueWhite(s, v)) then BarrierBack(SetBody(s, t, b), t) else SetBody(s, t, b)
  {}

  lemma BackLists(objs: Objects, m: Marks, t: Ref)
    requires GrayLists(objs, m) && t in objs && objs[t].Tab? && IsBlack(m, t)
    ensures GrayLists(objs, Paint(m, t, Gray).(grayagain := [t] + m.grayagain))
  {
    hide NoDup;
    NoDupCons(t, m.grayagain);
    assert !IsGray(m, t);
  }

  lemma BackTricolor(objs: Objects, m: Marks, t: Ref)
    requires TricolorBut(objs, m, {t}) && t in objs && objs[t].Tab? && IsBlack(m, t)
    ensures var z := Paint(m, t, Gray).(grayagain := [t] + m.grayagain); Tricolor(objs, z) && MoreMarked(m, z)
  {
    hide NoDup, GrayLists, Holds;
    BackLists(objs, m, t);
    var z := Paint(m, t, Gray).(grayagain := [t] + m.grayagain);
    forall r | IsBlack(z, r) ensures AllMarked(z, Holds(objs, objs[r])) { assert IsBlack(m, r); }
    forall r | IsGray(z, r) && r != t ensures objs[r].Str? || objs[r].Open? || (Traversable(objs[r]) && Listed(z, r)) { assert IsGray(m, r); }
  }

  lemma BackMarks(s: State, t: Ref, b: Body, k: Value, v: Value)
    requires Tricolor(s.objs, s.m) && SameKind(s, t, b) && b.Tab? && Extends(s, t, b, [k, v])
    ensures var z := StoreBack(s, t, b, k, v); Tricolor(z.objs, z.m) && MoreMarked(s.m, z.m)
  {
    hide GrayLists, Holds, SameKind, Extends, StoreBack, TricolorBut;
    SetTricolor(s, t, b);
    StoreBackUnfold(s, t, b, k, v);
    var y := SetBody(s, t, b);
    if IsBlack(s.m, t) {
      if ValueWhite(s, k) || ValueWhite(s, v) {
        BackTricolor(y.objs, s.m, t);
      } else {
        ExtendsMarked(s, t, b, [k, v], s.m);
        SkipNone(y.objs, s.m, t);
      }
    }
  }

  lemma BackSwept(s: State, t: Ref, strings: nat)
    requires Swept(s, strings) && StacksNotBlack(s) && t in s.objs && IsBlack(s.m, t)
    ensures Swept(BarrierBack(s, t), strings) && StacksNotBlack(BarrierBack(s, t))
  {
    var z := BarrierBack(s, t);
    forall j | 0 <= j < z.sweepgc ensures SweptObject(z, z.rootgc[j]) { assert SweptObject(s, s.rootgc[j]); }
    forall j, x | 0 <= j < strings && j < |z.strt| && x in z.strt[j] ensures IsFresh(z, x) { assert IsFresh(s, x); }
  }

  lemma BackSweeping(s: State, t: Ref, strings: nat)
    requires Sweeping(s, strings) && t in s.objs && s.objs[t].Tab? && IsBlack(s.m, t)
    ensures Sweeping(BarrierBack(s, t), strings)
  {
    hide Wf, Swept, StacksNotBlack, Holds, NoDangling;
    BackWf(s, t);
    BackSwept(s, t, strings);
    RecoloredNoDangling(s, BarrierBack(s, t));
  }

  lemma BackWf(s: State, t: Ref)
    requires Wf(s) && t in s.objs
    ensures Wf(BarrierBack(s, t))
  {
    hide StringTable, NoDup, Decreasing;
  }

  lemma StoreBackInv(s: State, t: Ref, b: Body, k: Value, v: Value)
    requires Inv(s) && SameKind(s, t, b) && b.Tab? && Extends(s, t, b, [k, v])
    requires Alive(s, k) && Alive(s, v) && !IsDead(s, t)
    ensures Inv(StoreBack(s, t, b, k, v))
  {
    hide Wf, NoDangling, TricolorBut, Swept, StacksNotBlack, SameKind, Extends, StoreBack, MoreMarked, BarrierBack;
    var y := SetBody(s, t, b);
    StoreBackUnfold(s, t, b, k, v);
    KindIn(s, t, b);
    ExtendsAlive(s, t, b, [k, v]);
    SetWf(s, t, b);
    SetNoDangling(s, t, b);
    match s.phase {
      case Propagate => StoreBackPropagate(s, t, b, k, v);
      case SweepString => SetSwept(s, t, b, s.sweepstrgc); if IsBlack(s.m, t) { BackSweeping(y, t, s.sweepstrgc); BackFrame(y, t); }
      case Sweep => SetSwept(s, t, b, |s.strt|); if IsBlack(s.m, t) { BackSweeping(y, t, |s.strt|); BackFrame(y, t); }
      case _ => NotBlackFresh(s, t); SetFresh(s, t, b);
    }
  }

  lemma BackFrame(s: State, t: Ref)
    ensures BarrierBack(s, t) == s.(m := BarrierBack(s, t).m)
  {}

  lemma StoreBackPropagate(s: State, t: Ref, b: Body, k: Value, v: Value)
    requires Inv(s) && SameKind(s, t, b) && b.Tab? && Extends(s, t, b, [k, v]) && s.phase.Propagate?
    requires Wf(SetBody(s, t, b)) && NoDangling(SetBody(s, t, b))
    ensures Inv(StoreBack(s, t, b, k, v))
  {
    hide Wf, NoDangling, TricolorBut, SameKind, Extends, MoreMarked;
    KindIn(s, t, b);
    BackMarks(s, t, b, k, v);
    NoDeadSet(s, t, b);
    MarkedStays(s.objs, s.m, StoreBack(s, t, b, k, v).m, [Gc(s.mainthread), s.registry]) by { WfKeys(s); }
    PropagatePhase(SetBody(s, t, b), StoreBack(s, t, b, k, v));
  }
}
