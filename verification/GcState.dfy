/** The collector's global state (global_State in lstate.h) and the invariant that every step of
    the collector and of the running program keeps. */
module GcState {
  import opened GcHeap
  import opened GcPropagate

  datatype Phase = Pause | Propagate | SweepString | Sweep | Finalize

  /** `fixed` holds the objects with FIXEDBIT; `sweepgc` and `sweepstrgc` are positions in
      `rootgc` and `strt`; `openupval` is the field of each thread. */
  datatype State = State(
    objs: Objects, m: Marks, fixed: set<Ref>, currentwhite: bool, phase: Phase,
    rootgc: seq<Ref>, sweepgc: nat, strt: seq<seq<Ref>>, sweepstrgc: nat,
    openupval: map<Ref, seq<Ref>>, uvhead: seq<Ref>,
    mainthread: Ref, running: Ref, registry: Value, mt: seq<Value>)

  function InsertAt(q: seq<Ref>, i: nat, x: Ref): (p: seq<Ref>)
    requires i <= |q|
    ensures i == 0 ==> p == [x] + q
  { q[..i] + [x] + q[i..] }

  /** Puts `r` into rootgc at `i`. A sweep that has passed position `i` moves along. */
  function LinkAt(s: State, i: nat, r: Ref): State
    requires i <= |s.rootgc|
  {
    s.(rootgc := InsertAt(s.rootgc, i, r), sweepgc := if i < s.sweepgc then s.sweepgc + 1 else s.sweepgc)
  }

  /** isdead: the object carries the other white. */
  predicate IsDead(s: State, r: Ref) { r in s.m.color && s.m.color[r] == White(!s.currentwhite) }

  /** The test of `sweeplist`: FIXEDBIT is part of the dead mask, so fixed objects pass it. */
  predicate Condemned(s: State, r: Ref) { IsDead(s, r) && r !in s.fixed }

  predicate IsFresh(s: State, r: Ref) { r in s.m.color && s.m.color[r] == White(s.currentwhite) }

  function Xor32(a: nat, b: nat): nat
    requires a < 0x1_0000_0000 && b < 0x1_0000_0000
  {
    ((a as bv32) ^ (b as bv32)) as nat
  }

  /** The loop of luaS_newlstr on the unsigned `h`: every `step`-th character, from the end. */
  function HashFrom(chars: seq<Byte>, l1: nat, step: nat, h: nat): nat
    requires l1 <= |chars| && step > 0
    decreases l1
  {
    if l1 < step then h
    else
      var mixed := h * 32 + h / 4 + chars[l1 - 1];
      HashFrom(chars, l1 - step, step, Xor32(h % 0x1_0000_0000, mixed % 0x1_0000_0000))
  }

  function Hash(chars: seq<Byte>): nat {
    HashFrom(chars, |chars|, |chars| / 32 + 1, |chars| % 0x1_0000_0000)
  }

  function Bucket(chars: seq<Byte>, size: nat): nat
    requires size > 0
    ensures Bucket(chars, size) < size
  {
    Hash(chars) % size
  }

  /** rootgc holds exactly the objects that are neither strings nor open upvalues. */
  ghost predicate RootList(s: State) {
    NoDup(s.rootgc) && forall r :: r in s.rootgc <==> r in s.objs && !s.objs[r].Str? && !s.objs[r].Open?
  }

  /** The string table: each string is in the bucket of its hash, once, and no two string objects
      have the same content. */
  ghost predicate StringTable(objs: Objects, strt: seq<seq<Ref>>) {
    && |strt| > 0
    && (forall i :: 0 <= i < |strt| ==> NoDup(strt[i]))
    && (forall i, r :: 0 <= i < |strt| && r in strt[i] ==>
          r in objs && objs[r].Str? && i == Bucket(objs[r].chars, |strt|))
    && (forall r :: r in objs && objs[r].Str? ==> r in strt[Bucket(objs[r].chars, |strt|)])
    && (forall p, q :: p in objs && q in objs && objs[p].Str? && objs[p] == objs[q] ==> p == q)
  }

  /** The open upvalues of each thread are listed with it, each on a live slot. */
  ghost predicate OpenMembers(s: State) {
    && (forall t :: t in s.openupval <==> t in s.objs && s.objs[t].Thread?)
    && (forall t, u :: t in s.openupval && u in s.openupval[t] ==>
          u in s.objs && s.objs[u].Open? && s.objs[u].thread == t && s.objs[u].level < |s.objs[t].stack|)
    && (forall u :: u in s.objs && s.objs[u].Open? ==>
          s.objs[u].thread in s.openupval && u in s.openupval[s.objs[u].thread])
  }

  function Level(objs: Objects, u: Ref): nat { if u in objs && objs[u].Open? then objs[u].level else 0 }

  ghost predicate Decreasing(objs: Objects, q: seq<Ref>) {
    forall i, j :: 0 <= i < j < |q| ==> Level(objs, q[i]) > Level(objs, q[j])
  }

  /** Each list is strictly decreasing by stack level. */
  ghost predicate OpenSorted(s: State) {
    forall t :: t in s.openupval ==> Decreasing(s.objs, s.openupval[t])
  }

  ghost predicate UvHead(s: State) {
    NoDup(s.uvhead) && forall u :: u in s.uvhead <==> u in s.objs && s.objs[u].Open?
  }

  ghost predicate OpenLists(s: State) { OpenMembers(s) && OpenSorted(s) && UvHead(s) }

  ghost predicate Threads(s: State) {
    && s.mainthread in s.objs && s.objs[s.mainthread].Thread?
    && s.running in s.objs && s.objs[s.running].Thread?
    && s.mainthread in s.fixed
    && (forall r :: r in s.fixed ==> r in s.objs && (r == s.mainthread || s.objs[r].Str?))
  }

  ghost predicate Wf(s: State) {
    s.m.color.Keys == s.objs.Keys && Threads(s) && RootList(s) && StringTable(s.objs, s.strt) && OpenLists(s)
  }

  /** The roots: main thread, running thread, registry, metatables of the basic types. */
  function Roots(s: State): seq<Value> {
    [Gc(s.mainthread), Gc(s.running), s.registry] + s.mt
  }

  predicate Alive(s: State, v: Value) { v.Gc? ==> v.ref in s.objs && !IsDead(s, v.ref) }

  /** No object that may still be used refers to a freed or a dead object. */
  ghost predicate NoDangling(s: State) {
    && (forall r, v :: r in s.objs && !IsDead(s, r) && v in Holds(s.objs, s.objs[r]) ==> Alive(s, v))
    && forall v :: v in Roots(s) ==> Alive(s, v)
  }

  ghost predicate RootsMarked(s: State) { AllMarked(s.m, [Gc(s.mainthread), s.registry]) }

  ghost predicate SweptObject(s: State, r: Ref) {
    IsFresh(s, r) && (r in s.openupval ==> forall u :: u in s.openupval[r] ==> IsFresh(s, u))
  }

  ghost predicate SweptRoots(s: State) {
    s.sweepgc <= |s.rootgc| && forall i :: 0 <= i < s.sweepgc ==> SweptObject(s, s.rootgc[i])
  }

  ghost predicate SweptStrings(s: State, strings: nat) {
    forall i, r :: 0 <= i < strings && i < |s.strt| && r in s.strt[i] ==> IsFresh(s, r)
  }

  /** What the sweep has passed is current-white already. */
  ghost predicate Swept(s: State, strings: nat) { SweptRoots(s) && SweptStrings(s, strings) }

  /** Threads and open upvalues are never black: writes to a stack need no barrier. */
  ghost predicate StacksNotBlack(s: State) {
    forall u :: u in s.objs && (s.objs[u].Open? || s.objs[u].Thread?) ==> !IsBlack(s.m, u)
  }

  ghost predicate NoDead(s: State) { forall r :: r in s.objs ==> !IsDead(s, r) }

  ghost predicate AllFresh(s: State) { forall r :: r in s.objs ==> IsFresh(s, r) }

  ghost predicate PhaseInv(s: State) {
    match s.phase
    case Propagate => Tricolor(s.objs, s.m) && RootsMarked(s) && NoDead(s)
    case SweepString => s.sweepgc == 0 && s.sweepstrgc < |s.strt| && Swept(s, s.sweepstrgc) && StacksNotBlack(s)
    case Sweep => Swept(s, |s.strt|) && StacksNotBlack(s)
    case _ => AllFresh(s)
  }

  ghost predicate Inv(s: State) { Wf(s) && NoDangling(s) && PhaseInv(s) }

  /** `path` leads from a root to its last object, along any references, weak ones included. */
  ghost predicate Path(s: State, path: seq<Ref>) {
    && |path| > 0 && Gc(path[0]) in Roots(s)
    && forall i :: 0 <= i < |path| - 1 ==> path[i] in s.objs && Gc(path[i + 1]) in Holds(s.objs, s.objs[path[i]])
  }

  ghost predicate Reachable(s: State, r: Ref) { exists path :: Path(s, path) && path[|path| - 1] == r }

  lemma {:induction false} PathIsAlive(s: State, path: seq<Ref>)
    requires NoDangling(s) && Path(s, path)
    ensures Alive(s, Gc(path[|path| - 1]))
  {
    if |path| > 1 {
      var front := path[..|path| - 1];
      forall i | 0 <= i < |front| - 1 ensures front[i] in s.objs && Gc(front[i + 1]) in Holds(s.objs, s.objs[front[i]]) {
        assert front[i] == path[i] && front[i + 1] == path[i + 1];
      }
      PathIsAlive(s, front);
      var r := path[|path| - 2];
      assert Alive(s, Gc(r)) && r in s.objs && !IsDead(s, r);
    } else {
      assert Gc(path[0]) in Roots(s);
    }
  }

  /** Everything reachable, weakly or strongly, is allocated and not dead. */
  lemma ReachableIsAlive(s: State, r: Ref)
    requires NoDangling(s) && Reachable(s, r)
    ensures r in s.objs && !IsDead(s, r)
  {
    var path :| Path(s, path) && path[|path| - 1] == r;
    PathIsAlive(s, path);
  }
}
