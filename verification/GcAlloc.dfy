/** New objects (luaC_link in lgc.c, luaS_newudata and luaS_newlstr in lstring.c, luaF_findupval in
    lfunc.c). A new object is current-white and lies where the sweep meets it at most once. */
module GcAlloc {
  import opened GcHeap
  import opened GcPropagate
  import opened GcState
  import opened GcFree
  import opened GcSweep
  import opened GcStrings
  import opened GcMutator

  function IndexOf(q: seq<Ref>, x: Ref): (i: nat)
    ensures i <= |q| && (x in q ==> i < |q| && q[i] == x)
    decreases |q|
  { if q == [] || q[0] == x then 0 else 1 + IndexOf(q[1..], x) }

  /** Userdata go right after the main thread, everything else to the head of rootgc. */
  function LinkPlace(s: State, b: Body): (i: nat)
    ensures i <= |s.rootgc|
  {
    var p := IndexOf(s.rootgc, s.mainthread);
    if b.Udata? && p < |s.rootgc| then p + 1 else 0
  }

  /** A new object at the unused address `r`. */
  function NewObject(s: State, r: Ref, b: Body): State {
    LinkAt(s.(objs := s.objs[r := b], m := Paint(s.m, r, White(s.currentwhite)),
              openupval := if b.Thread? then s.openupval[r := []] else s.openupval), LinkPlace(s, b), r)
  }

  lemma AddHolds(s: State, z: State, r: Ref, b: Body, x: Ref, v: Value)
    requires NoDangling(s) && OpenMembers(s) && r !in s.objs && z.objs == s.objs[r := b] && HoldsAlive(s, b)
    requires x in z.objs && v in Holds(z.objs, z.objs[x]) && (x in s.objs ==> !IsDead(s, x))
    ensures Alive(s, v)
  {
    hide TabRefs;
    if x == r {
      assert Holds(z.objs, b) == Holds(s.objs, b);
    } else {
      assert Holds(z.objs, z.objs[x]) == Holds(s.objs, s.objs[x]);
    }
  }

  /** One object more, current-white; everything else as before. */
  ghost predicate Added(s: State, z: State, r: Ref, b: Body) {
    && r !in s.objs && z.objs == s.objs[r := b] && z.m == Paint(s.m, r, White(s.currentwhite))
    && z.currentwhite == s.currentwhite && z.fixed == s.fixed && z.phase == s.phase
    && z.sweepstrgc == s.sweepstrgc && z.mainthread == s.mainthread && z.running == s.running && z.registry == s.registry && z.mt == s.mt
  }

  lemma AddNoDangling(s: State, z: State, r: Ref, b: Body)
    requires NoDangling(s) && OpenMembers(s) && Added(s, z, r, b) && HoldsAlive(s, b)
    ensures NoDangling(z)
  {
    hide Holds, OpenMembers;
    forall v | v in Roots(z) ensures Alive(z, v) { assert Alive(s, v); }
    forall x, v | x in z.objs && !IsDead(z, x) && v in Holds(z.objs, z.objs[x]) ensures Alive(z, v) {
      AddHolds(s, z, r, b, x, v);
    }
  }

  lemma AddThreads(s: State, z: State, r: Ref, b: Body)
    requires Threads(s) && Added(s, z, r, b)
    ensures Threads(z)
  {}

  lemma AddGrayLists(s: State, z: State, r: Ref, b: Body)
    requires GrayLists(s.objs, s.m) && Added(s, z, r, b)
    ensures GrayLists(z.objs, z.m)
  {
    hide NoDup;
  }

  lemma AddTricolor(s: State, z: State, r: Ref, b: Body)
    requires Tricolor(s.objs, s.m) && NoDangling(s) && NoDead(s) && Added(s, z, r, b)
    ensures Tricolor(z.objs, z.m)
  {
    hide GrayLists, Holds;
    AddGrayLists(s, z, r, b);
    forall x | IsBlack(z.m, x) ensures AllMarked(z.m, Holds(z.objs, z.objs[x])) {
      assert IsBlack(s.m, x);
      assert Holds(z.objs, z.objs[x]) == Holds(s.objs, s.objs[x]) by { AddSame(s, r, b, x); }
      forall v | v in Holds(s.objs, s.objs[x]) && v.Gc? ensures !IsWhite(z.m, v.ref) { assert Alive(s, v); }
    }
    forall x | IsGray(z.m, x) ensures z.objs[x].Str? || z.objs[x].Open? || (Traversable(z.objs[x]) && Listed(z.m, x)) {
      assert IsGray(s.m, x);
    }
  }

  lemma AddSame(s: State, r: Ref, b: Body, x: Ref)
    requires r !in s.objs && x in s.objs && !s.objs[x].Open?
    ensures Holds(s.objs[r := b], s.objs[x]) == Holds(s.objs, s.objs[x])
  {
    hide TabRefs;
  }

  lemma AddRootsMarked(s: State, z: State, r: Ref, b: Body)
    requires RootsMarked(s) && NoDangling(s) && NoDead(s) && Added(s, z, r, b)
    ensures RootsMarked(z) && NoDead(z)
  {
    assert s.registry in Roots(s) && Gc(s.mainthread) in Roots(s);
    assert Alive(s, s.registry) && Alive(s, Gc(s.mainthread));
    forall x | x in z.objs ensures !IsDead(z, x) { if x != r { assert !IsDead(s, x); } }
  }

  lemma AddFresh(s: State, z: State, r: Ref, b: Body)
    requires AllFresh(s) && Added(s, z, r, b)
    ensures AllFresh(z)
  {
    forall x | x in z.objs ensures IsFresh(z, x) { if x != r { assert IsFresh(s, x); } }
  }

  /** The phase part of the invariant, given that what was swept still is. */
  lemma AddPhase(s: State, z: State, r: Ref, b: Body)
    requires Inv(s) && Added(s, z, r, b) && Wf(z) && NoDangling(z)
    requires s.phase.SweepString? ==> z.sweepgc == 0 && z.sweepstrgc < |z.strt| && Swept(z, z.sweepstrgc)
    requires s.phase.Sweep? ==> Swept(z, |z.strt|)
    ensures Inv(z)
  {
    hide Wf, TricolorBut, Swept, NoDangling;
    match s.phase {
      case Propagate => AddTricolor(s, z, r, b); AddRootsMarked(s, z, r, b);
      case SweepString => AddStacksNotBlack(s, z, r, b);
      case Sweep => AddStacksNotBlack(s, z, r, b);
      case _ => AddFresh(s, z, r, b);
    }
  }

  lemma AddStacksNotBlack(s: State, z: State, r: Ref, b: Body)
    requires StacksNotBlack(s) && Added(s, z, r, b)
    ensures StacksNotBlack(z)
  {}

  lemma AddSweptStrings(s: State, z: State, r: Ref, b: Body, strings: nat)
    requires SweptStrings(s, strings) && StringTable(s.objs, s.strt) && Added(s, z, r, b) && z.strt == s.strt
    ensures SweptStrings(z, strings)
  {
    hide NoDup;
    forall j, x | 0 <= j < strings && j < |z.strt| && x in z.strt[j] ensures IsFresh(z, x) { assert x in s.strt[j] && IsFresh(s, x); }
  }

  lemma AddSweptRoots(s: State, z: State, r: Ref, b: Body, i: nat)
    requires SweptRoots(s) && RootList(s) && OpenMembers(s) && Added(s, z, r, b) && i <= |s.rootgc|
    requires z.rootgc == InsertAt(s.rootgc, i, r) && z.sweepgc == (if i < s.sweepgc then s.sweepgc + 1 else s.sweepgc)
    requires z.openupval == if b.Thread? then s.openupval[r := []] else s.openupval
    ensures SweptRoots(z)
  {
    hide NoDup, RootList, OpenMembers, SweptObject;
    forall j | 0 <= j < z.sweepgc ensures SweptObject(z, z.rootgc[j]) {
      if j == i {
        NewSwept(s, z, r, b);
      } else {
        var k := if j < i then j else j - 1;
        OldSwept(s, z, r, b, s.rootgc[k]);
      }
    }
  }

  lemma NewSwept(s: State, z: State, r: Ref, b: Body)
    requires OpenMembers(s) && Added(s, z, r, b) && z.openupval == if b.Thread? then s.openupval[r := []] else s.openupval
    ensures SweptObject(z, r)
  {}

  lemma OldSwept(s: State, z: State, r: Ref, b: Body, x: Ref)
    requires RootList(s) && OpenMembers(s) && Added(s, z, r, b) && SweptObject(s, x) && x in s.rootgc
    requires z.openupval == if b.Thread? then s.openupval[r := []] else s.openupval
    ensures SweptObject(z, x)
  {
    hide NoDup;
    forall u | x in z.openupval && u in z.openupval[x] ensures IsFresh(z, u) { assert u in s.openupval[x] && IsFresh(s, u); }
  }

  lemma AddRootList(s: State, z: State, r: Ref, b: Body, i: nat)
    requires RootList(s) && Added(s, z, r, b) && i <= |s.rootgc| && z.rootgc == InsertAt(s.rootgc, i, r) && !b.Str? && !b.Open?
    ensures RootList(z)
  {
    var q := z.rootgc;
    assert q[i] == r;
    forall x | x in s.rootgc ensures x in q {
      var k :| 0 <= k < |s.rootgc| && s.rootgc[k] == x;
      assert q[if k < i then k else k + 1] == x;
    }
    forall x | x in q ensures x == r || x in s.rootgc {}
  }

  lemma AddStringTable(objs: Objects, strt: seq<seq<Ref>>, r: Ref, b: Body)
    requires StringTable(objs, strt) && r !in objs && !b.Str?
    ensures StringTable(objs[r := b], strt)
  {
    hide NoDup;
  }

  lemma AddOpenMembers(s: State, z: State, r: Ref, b: Body)
    requires OpenMembers(s) && Added(s, z, r, b) && !b.Open?
    requires z.openupval == if b.Thread? then s.openupval[r := []] else s.openupval
    ensures OpenMembers(z)
  {}

  lemma AddUvHead(s: State, z: State, r: Ref, b: Body)
    requires UvHead(s) && Added(s, z, r, b) && !b.Open? && z.uvhead == s.uvhead
    ensures UvHead(z)
  {
    hide NoDup;
  }

  lemma AddOpenLists(s: State, z: State, r: Ref, b: Body)
    requires OpenLists(s) && Added(s, z, r, b) && !b.Open? && z.uvhead == s.uvhead
    requires z.openupval == if b.Thread? then s.openupval[r := []] else s.openupval
    ensures OpenLists(z)
  {
    hide UvHead, Decreasing;
    AddUvHead(s, z, r, b);
    AddOpenMembers(s, z, r, b);
    forall x | x in z.openupval ensures Decreasing(z.objs, z.openupval[x]) {
      if x in s.openupval { DecreasingFrame(s.objs, z.objs, z.openupval[x]); } else { DecreasingEmpty(z.objs); }
    }
  }

  lemma DecreasingEmpty(objs: Objects)
    ensures Decreasing(objs, [])
  {}

  lemma NewObjectInv(s: State, r: Ref, b: Body)
    requires Inv(s) && r !in s.objs && HoldsAlive(s, b) && !b.Str? && !b.Open?
    ensures Inv(NewObject(s, r, b))
  {
    hide OpenLists, RootList, StringTable, Threads, NoDangling, HoldsAlive, SweptRoots, SweptStrings, TricolorBut, InsertAt;
    var z := NewObject(s, r, b);
    var i := LinkPlace(s, b);
    NewObjectAdded(s, r, b);
    ListedOpens(s);
    AddNoDangling(s, z, r, b);
    AddThreads(s, z, r, b);
    AddRootList(s, z, r, b, i);
    AddStringTable(s.objs, s.strt, r, b);
    AddOpenLists(s, z, r, b);
    if s.phase.Sweep? || s.phase.SweepString? {
      AddSweptRoots(s, z, r, b, i);
      AddSweptStrings(s, z, r, b, if s.phase.Sweep? then |s.strt| else s.sweepstrgc);
    }
    AddPhase(s, z, r, b);
  }

  lemma ListedOpens(s: State)
    requires OpenLists(s)
    ensures OpenMembers(s)
  {}

  lemma NewObjectAdded(s: State, r: Ref, b: Body)
    requires r !in s.objs
    ensures Added(s, NewObject(s, r, b), r, b) && NewObject(s, r, b).rootgc == InsertAt(s.rootgc, LinkPlace(s, b), r)
  {}

  /** A new string, before the table grows. */
  function AddString(s: State, chars: seq<Byte>, r: Ref): State
    requires |s.strt| > 0
  {
    var h := Bucket(chars, |s.strt|);
    s.(objs := s.objs[r := Str(chars)], m := Paint(s.m, r, White(s.currentwhite)),
       strt := s.strt[h := [r] + s.strt[h]])
  }

  lemma NotInterned(objs: Objects, strt: seq<seq<Ref>>, chars: seq<Byte>)
    requires StringTable(objs, strt) && FindString(objs, strt[Bucket(chars, |strt|)], chars) == []
    ensures forall x :: x in objs ==> objs[x] != Str(chars)
  {
    hide NoDup, FindString;
    FoundString(objs, strt[Bucket(chars, |strt|)], chars);
    forall x | x in objs ensures objs[x] != Str(chars) {
      if objs[x].Str? { assert x in strt[Bucket(objs[x].chars, |strt|)]; }
    }
  }

  lemma AddNewString(objs: Objects, strt: seq<seq<Ref>>, r: Ref, chars: seq<Byte>)
    requires StringTable(objs, strt) && r !in objs && forall x :: x in objs ==> objs[x] != Str(chars)
    ensures var h := Bucket(chars, |strt|); StringTable(objs[r := Str(chars)], strt[h := [r] + strt[h]])
  {
    hide NoDup, Hash;
    var h := Bucket(chars, |strt|);
    NoDupCons(r, strt[h]);
    var objs', strt' := objs[r := Str(chars)], strt[h := [r] + strt[h]];
    forall p | p in objs' && objs'[p].Str? ensures p in strt'[Bucket(objs'[p].chars, |strt'|)] {
      if p != r { assert p in strt[Bucket(objs[p].chars, |strt|)]; }
    }
    forall i, p | 0 <= i < |strt'| && p in strt'[i]
      ensures p in objs' && objs'[p].Str? && i == Bucket(objs'[p].chars, |strt'|)
    {
      if p in strt[i] { assert p in objs && p != r; }
    }
  }

  lemma AddStringSwept(s: State, chars: seq<Byte>, r: Ref, strings: nat)
    requires Swept(s, strings) && RootList(s) && OpenMembers(s) && StringTable(s.objs, s.strt) && r !in s.objs
    ensures Swept(AddString(s, chars, r), strings)
  {
    hide NoDup, SweptObject, RootList, OpenMembers;
    var z := AddString(s, chars, r);
    forall j | 0 <= j < z.sweepgc ensures SweptObject(z, z.rootgc[j]) {
      OldSwept(s, z, r, Str(chars), s.rootgc[j]);
    }
    forall j, x | 0 <= j < strings && j < |z.strt| && x in z.strt[j] ensures IsFresh(z, x) {
      if x != r { assert x in s.strt[j] && IsFresh(s, x); }
    }
  }

  lemma AddStringOthers(s: State, chars: seq<Byte>, r: Ref)
    requires Threads(s) && RootList(s) && OpenLists(s) && r !in s.objs && |s.strt| > 0
    ensures var z := AddString(s, chars, r); Threads(z) && RootList(z) && OpenLists(z) && Added(s, z, r, Str(chars))
  {
    hide OpenLists, NoDup;
    var z := AddString(s, chars, r);
    AddThreads(s, z, r, Str(chars));
    AddOpenLists(s, z, r, Str(chars));
  }

  lemma StringHolds(s: State, chars: seq<Byte>)
    ensures HoldsAlive(s, Str(chars))
  {}

  lemma AddStringInv(s: State, chars: seq<Byte>, r: Ref)
    requires Inv(s) && r !in s.objs && |s.strt| > 0 && FindString(s.objs, s.strt[Bucket(chars, |s.strt|)], chars) == []
    ensures Inv(AddString(s, chars, r))
  {
    hide OpenLists, RootList, StringTable, Threads, NoDangling, HoldsAlive, Swept, TricolorBut, FindString;
    var z := AddString(s, chars, r);
    AddStringOthers(s, chars, r);
    NotInterned(s.objs, s.strt, chars);
    AddNewString(s.objs, s.strt, r, chars);
    ListedOpens(s);
    StringHolds(s, chars);
    AddNoDangling(s, z, r, Str(chars));
    if s.phase.Sweep? || s.phase.SweepString? {
      AddStringSwept(s, chars, r, if s.phase.Sweep? then |s.strt| else s.sweepstrgc);
    }
    AddPhase(s, z, r, Str(chars));
  }

  /** Reviving a dead object whose referents are alive. */
  lemma ReviveInv(s: State, u: Ref)
    requires Inv(s) && u in s.objs && IsDead(s, u) && forall v :: v in Holds(s.objs, s.objs[u]) ==> Alive(s, v)
    ensures Inv(Whiten(s, u))
  {
    hide Wf, NoDangling, Holds, TricolorBut, Swept, StacksNotBlack;
    WhitenWf(s, u);
    RecoloredNoDangling(s, Whiten(s, u));
    match s.phase {
      case Propagate => NotDead(s, u);
      case SweepString => WhitenSwept(s, u, s.sweepstrgc);
      case Sweep => WhitenSwept(s, u, |s.strt|);
      case _ => NotDead(s, u);
    }
  }

  lemma NotDead(s: State, u: Ref)
    requires u in s.objs && (NoDead(s) || AllFresh(s))
    ensures !IsDead(s, u)
  {
    if AllFresh(s) { assert IsFresh(s, u); }
  }

  /** luaS_newlstr keeps the invariant and returns a live string with the given content. */
  lemma InternInv(s: State, chars: seq<Byte>, r: Ref)
    requires Inv(s) && r !in s.objs && |s.strt| > 0
    ensures var (z, o) := Intern(s, chars, r); Inv(z) && o in z.objs && z.objs[o] == Str(chars) && !IsDead(z, o)
  {
    hide Inv, FindString;
    var q := s.strt[Bucket(chars, |s.strt|)];
    var found := FindString(s.objs, q, chars);
    FoundString(s.objs, q, chars);
    if found == [] {
      AddStringInv(s, chars, r);
      var z := AddString(s, chars, r);
      if Total(z.strt) > |z.strt| && |z.strt| <= MAX_INT / 2 { ResizeInv(z, 2 * |z.strt|); }
    } else if IsDead(s, found[0]) {
      StringHolds(s, chars);
      ReviveInv(s, found[0]);
    }
  }
}
