/** The collector as it runs: the fields of global_State updated in place (lgc.c, lstring.c,
    lfunc.c). Each method is proved to compute the function the theorems are about. */
module GcCollector {
  import opened GcHeap
  import opened GcMark
  import opened GcPropagate
  import opened GcAtomic
  import opened GcClear
  import opened GcState
  import opened GcCycle
  import opened GcFree
  import opened GcClose
  import opened GcSweep
  import opened GcStrings
  import opened GcStep
  import opened GcFull
  import opened GcMutator
  import opened GcAlloc
  import opened GcUpval

  lemma NextValue<T>(vs: seq<T>, i: nat)
    requires i < |vs|
    ensures vs[i..] != [] && vs[i..][0] == vs[i] && vs[i..][1..] == vs[i + 1..]
  {}

  lemma PaintWhites(m: Marks, r: Ref, c: Color)
    requires IsWhite(m, r) && !c.White?
    ensures Whites(Paint(m, r, c)) < Whites(m)
  {
    assert Whites(Paint(m, r, c)) == Whites(m) - {r} && r in Whites(m);
  }

  lemma PaintOver(m: Marks, r: Ref, c: Color)
    requires !c.White?
    ensures Whites(Paint(m, r, c)) <= Whites(m)
  {}

  lemma SameWhites(m: Marks, t: Marks)
    requires t.color == m.color
    ensures Whites(t) == Whites(m)
  {}

  lemma MarkCases(objs: Objects, m: Marks, r: Ref)
    ensures r !in objs || !IsWhite(m, r) ==> Mark(objs, m, r) == m
    ensures r in objs && IsWhite(m, r) ==> Mark(objs, m, r) == MarkByKind(objs, m, r, objs[r])
  {}

  ghost function MarkByKind(objs: Objects, m: Marks, r: Ref, b: Body): Marks {
    var g := Paint(m, r, Gray);
    match b
    case Str(_) => g
    case Udata(refs) => MarkAll(objs, Paint(m, r, Black), refs)
    case Closed(v) => Paint(MarkAll(objs, g, [v]), r, Black)
    case Open(t, l) => MarkAll(objs, g, SlotOf(objs, t, l))
    case _ => g.(gray := [r] + g.gray)
  }

  lemma {:induction false} MarkAllJoin(objs: Objects, m: Marks, a: seq<Value>, b: seq<Value>)
    ensures MarkAll(objs, m, a + b) == MarkAll(objs, MarkAll(objs, m, a), b)
    decreases |a|
  {
    hide Whites;
    if a == [] { assert a + b == b; return; }
    assert (a + b)[1..] == a[1..] + b;
    MarkAllJoin(objs, if a[0].Gc? then Mark(objs, m, a[0].ref) else m, a[1..], b);
  }

  lemma MarkNothing(objs: Objects, m: Marks)
    ensures MarkAll(objs, m, []) == m
  {}

  lemma MarkRootInOrder(s: State, m: Marks)
    requires m == s.m.(gray := [], grayagain := [], weak := [])
    ensures MarkRoot(s) == s.(
      m := MarkAll(s.objs, MarkAll(s.objs, MarkAll(s.objs, MarkAll(s.objs, m,
             [Gc(s.mainthread)]), Globals(s)), [s.registry]), s.mt),
      phase := Propagate)
  {
    hide Mark, MarkAll, Whites, Globals;
    MarkAllJoin(s.objs, m, [Gc(s.mainthread)], Globals(s));
    MarkAllJoin(s.objs, m, [Gc(s.mainthread)] + Globals(s), [s.registry]);
    MarkAllJoin(s.objs, m, [Gc(s.mainthread)] + Globals(s) + [s.registry], s.mt);
  }

  lemma FreeOpenShorter(s: State, t: Ref, i: nat)
    requires t in s.openupval && i < |s.openupval[t]|
    ensures var z := FreeOpen(s, t, i); t in z.openupval && |z.openupval[t]| == |s.openupval[t]| - 1
    ensures forall r :: Whiten(s, r).openupval == s.openupval
  {}

  lemma FreeStringShorter(s: State, i: nat, k: nat)
    requires i < |s.strt| && k < |s.strt[i]|
    ensures var z := FreeString(s, i, k); |z.strt| == |s.strt| && |z.strt[i]| == |s.strt[i]| - 1
    ensures forall r :: Whiten(s, r).strt == s.strt
  {}

  lemma {:induction false} TotalUpdate(strt: seq<seq<Ref>>, i: nat, q: seq<Ref>)
    requires i < |strt|
    ensures Total(strt[i := q]) == Total(strt) - |strt[i]| + |q|
    decreases |strt|
  {
    if i == 0 {
      assert strt[0 := q][1..] == strt[1..];
    } else {
      assert strt[i := q][1..] == strt[1..][i - 1 := q];
      TotalUpdate(strt[1..], i - 1, q);
    }
  }

  lemma {:induction false} RehashListTotal(objs: Objects, q: seq<Ref>, new_: seq<seq<Ref>>)
    requires |new_| > 0
    ensures Total(RehashList(objs, q, new_)) == Total(new_) + |q|
    decreases |q|
  {
    hide Bucket;
    if q != [] {
      var h := if q[0] in objs && objs[q[0]].Str? then Bucket(objs[q[0]].chars, |new_|) else 0;
      TotalUpdate(new_, h, [q[0]] + new_[h]);
      RehashListTotal(objs, q[1..], new_[h := [q[0]] + new_[h]]);
    }
  }

  /** Resizing the string table loses no string. */
  lemma {:induction false} RehashTotal(objs: Objects, old_: seq<seq<Ref>>, new_: seq<seq<Ref>>)
    requires |new_| > 0
    ensures Total(Rehash(objs, old_, new_)) == Total(new_) + Total(old_)
    decreases |old_|
  {
    hide RehashList;
    if old_ != [] {
      RehashListSize(objs, old_[0], new_);
      RehashListTotal(objs, old_[0], new_);
      RehashTotal(objs, old_[1..], RehashList(objs, old_[0], new_));
    }
  }

  lemma {:induction false} TotalEmpty(strt: seq<seq<Ref>>)
    requires forall i :: 0 <= i < |strt| ==> strt[i] == []
    ensures Total(strt) == 0
    decreases |strt|
  {
    if strt != [] {
      assert strt[0] == [];
      TotalEmpty(strt[1..]);
    }
  }

  lemma TableOpen(s: State)
    requires Inv(s)
    ensures |s.strt| > 0
  {}

  lemma NewStringIs(s: State, chars: seq<Byte>, r: Ref)
    requires |s.strt| > 0
    ensures |AddString(s, chars, r).strt| == |s.strt|
    ensures var z := AddString(s, chars, r);
      var crowded := Total(z.strt) > |z.strt| && |z.strt| <= MAX_INT / 2;
      NewString(s, chars, r) == (if crowded then Resize(z, 2 * |z.strt|) else z)
  {
    hide Resize, Total;
  }

  class Collector {
    var objs: Objects
    var color: map<Ref, Color>
    var gray: seq<Ref>
    var grayagain: seq<Ref>
    var weak: seq<Ref>
    var fixed: set<Ref>
    var currentwhite: bool
    var gcstate: Phase
    var rootgc: seq<Ref>
    var sweepgc: nat
    var strt: seq<seq<Ref>>
    var nuse: nat                             // strt.nuse
    var sweepstrgc: nat
    var openupval: map<Ref, seq<Ref>>
    var uvhead: seq<Ref>
    var mainthread: Ref
    var running: Ref
    var registry: Value
    var mt: seq<Value>

    ghost function Marked(): Marks
      reads this
    {
      Marks(color, gray, grayagain, weak)
    }

    ghost function Snapshot(): State
      reads this
    {
      State(objs, Marked(), fixed, currentwhite, gcstate, rootgc, sweepgc, strt, sweepstrgc,
            openupval, uvhead, mainthread, running, registry, mt)
    }

    /** strt.nuse counts the strings in the table. */
    ghost predicate Counted()
      reads this
    {
      nuse == Total(strt)
    }

    constructor (s: State)
      ensures Snapshot() == s && Counted()
    {
      objs, fixed, currentwhite, gcstate := s.objs, s.fixed, s.currentwhite, s.phase;
      color, gray, grayagain, weak := s.m.color, s.m.gray, s.m.grayagain, s.m.weak;
      rootgc, sweepgc, strt, sweepstrgc := s.rootgc, s.sweepgc, s.strt, s.sweepstrgc;
      openupval, uvhead, mainthread, running := s.openupval, s.uvhead, s.mainthread, s.running;
      registry, mt, nuse := s.registry, s.mt, Total(s.strt);
    }

    /** reallymarkobject, behind the test of markobject. */
    method MarkObject(r: Ref)
      modifies `color, `gray, `grayagain, `weak
      ensures Marked() == Mark(old(objs), old(Marked()), r)
      ensures Whites(Marked()) <= old(Whites(Marked()))
      decreases Whites(Marked()), 0
    {
      hide Whites, Mark, MarkAll, SlotOf;
      MarkCases(objs, Marked(), r);
      if r !in objs || !(r in color && color[r].White?) { return; }
      ghost var before := Marked();
      color := color[r := Gray];
      PaintWhites(before, r, Gray);
      PaintWhites(before, r, Black);
      match objs[r] {
        case Str(_) =>
        case Udata(refs) =>
          color := color[r := Black];
          assert color == before.color[r := Black];
          MarkValues(refs);
        case Closed(v) =>
          MarkValues([v]);
          PaintOver(Marked(), r, Black);
          color := color[r := Black];
        case Open(t, l) => MarkValues(SlotOf(objs, t, l));
        case _ =>
          gray := [r] + gray;
          SameWhites(Paint(before, r, Gray), Marked());
      }
    }

    /** markvalue, over the values an object holds. */
    method MarkValues(vs: seq<Value>)
      modifies `color, `gray, `grayagain, `weak
      ensures Marked() == MarkAll(old(objs), old(Marked()), vs)
      ensures Whites(Marked()) <= old(Whites(Marked()))
      decreases Whites(Marked()), |vs|
    {
      var i := 0;
      while i < |vs|
        invariant i <= |vs| && Whites(Marked()) <= old(Whites(Marked()))
        invariant MarkAll(objs, Marked(), vs[i..]) == MarkAll(old(objs), old(Marked()), vs)
      {
        NextValue(vs, i);
        if vs[i].Gc? { MarkObject(vs[i].ref); }
        i := i + 1;
      }
    }

    /** propagatemark: traverses the first gray object. */
    method PropagateOne()
      requires gray != [] && gray[0] in objs
      modifies `color, `gray, `grayagain, `weak
      ensures Marked() == PropagateMark(old(objs), old(Marked()))
      ensures Work(Marked()) < old(Work(Marked()))
    {
      hide MarkAll, Strong, Work, Whites;
      var o := gray[0];
      gray := gray[1..];
      if objs[o].Thread? {
        grayagain := [o] + grayagain;
      } else {
        color := color[o := Black];
      }
      MarkValues(Strong(objs, objs[o]));
      if WeakTable(objs[o]) {
        color := color[o := Gray];
        weak := [o] + weak;
      }
    }

    /** propagateall. */
    method PropagateRest()
      modifies `color, `gray, `grayagain, `weak
      ensures Marked() == PropagateAll(old(objs), old(Marked()))
    {
      hide PropagateMark, Work;
      while gray != [] && gray[0] in objs
        invariant PropagateAll(objs, Marked()) == PropagateAll(old(objs), old(Marked()))
        decreases Work(Marked())
      {
        PropagateOne();
      }
    }

    /** The marks of markroot. */
    method MarkRoots()
      modifies `color, `gray, `grayagain, `weak
      ensures Marked() == MarkRoot(old(Snapshot())).m
    {
      hide Mark, MarkAll, MarkRoot;
      ghost var s := Snapshot();
      gray, grayagain, weak := [], [], [];
      MarkRootInOrder(s, Marked());
      MarkValues([Gc(mainthread)]);
      MarkNothing(objs, Marked());
      if mainthread in objs && objs[mainthread].Thread? { MarkValues([objs[mainthread].globals]); }
      MarkValues([registry]);
      MarkValues(mt);
    }

    /** markroot. */
    method StartCycle()
      modifies `color, `gray, `grayagain, `weak, `gcstate
      ensures Snapshot() == MarkRoot(old(Snapshot()))
    {
      hide MarkAll;
      MarkRoots();
      gcstate := Propagate;
    }

    /** remarkupvals. */
    method RemarkOpen()
      modifies `color, `gray, `grayagain, `weak
      ensures Marked() == RemarkUpvals(old(objs), old(Marked()), old(uvhead))
    {
      hide MarkAll, Strong;
      var i := 0;
      while i < |uvhead|
        invariant i <= |uvhead|
        invariant RemarkUpvals(objs, Marked(), uvhead[i..]) == RemarkUpvals(old(objs), old(Marked()), old(uvhead))
      {
        NextValue(uvhead, i);
        var u := uvhead[i];
        if u in color && color[u].Gray? && u in objs { MarkValues(Strong(objs, objs[u])); }
        i := i + 1;
      }
    }

    /** iscleared. */
    method TestCleared(v: Value) returns (gone: bool)
      modifies `color
      ensures (Marked(), gone) == IsCleared(old(objs), old(Marked()), v)
    {
      if v.Plain? { return false; }
      if v.ref in objs && objs[v.ref].Str? {
        if v.ref in color && color[v.ref].White? { color := color[v.ref := Gray]; }
        return false;
      }
      return v.ref in color && color[v.ref].White?;
    }

    /** The loop of cleartable over the entries of one table. */
    method ClearOne(es: seq<Entry>) returns (kept: seq<Entry>)
      modifies `color
      ensures (Marked(), kept) == ClearEntries(old(objs), old(Marked()), es)
    {
      hide IsCleared;
      kept := [];
      var i := 0;
      while i < |es|
        invariant i <= |es|
        invariant ClearEntries(objs, old(Marked()), es).0 == ClearEntries(objs, Marked(), es[i..]).0
        invariant ClearEntries(objs, old(Marked()), es).1 == kept + ClearEntries(objs, Marked(), es[i..]).1
      {
        NextValue(es, i);
        var gone := TestCleared(es[i].key);
        if !gone { gone := TestCleared(es[i].val); }
        if !gone { kept := kept + [es[i]]; }
        i := i + 1;
      }
      assert es[i..] == [] && kept + [] == kept;
    }

    /** cleartable, on the list `weak`. */
    method ClearWeak()
      modifies `objs, `color
      ensures objs == ClearTable(old(objs), old(Marked()), weak).0
      ensures Marked() == ClearTable(old(objs), old(Marked()), weak).1
    {
      hide ClearEntries;
      var i := 0;
      while i < |weak|
        invariant i <= |weak|
        invariant ClearTable(objs, Marked(), weak[i..]) == ClearTable(old(objs), old(Marked()), weak)
      {
        NextValue(weak, i);
        var h := weak[i];
        if h in objs && objs[h].Tab? {
          var es := ClearOne(objs[h].entries);
          objs := objs[h := objs[h].(entries := es)];
        }
        i := i + 1;
      }
    }

    /** The marks of atomic, before weak tables are cleared. */
    method MarkAgain()
      modifies `color, `gray, `grayagain, `weak
      ensures Marked() == AtomicMarks(old(objs), old(Marked()), old(uvhead), Again(old(Snapshot())))
    {
      hide PropagateAll, RemarkUpvals, MarkAll;
      RemarkOpen();
      PropagateRest();
      gray, weak := weak, [];
      MarkValues([Gc(running)] + mt);
      PropagateRest();
      gray, grayagain := grayagain, [];
      PropagateRest();
    }

    /** atomic. */
    method FinishMark()
      modifies `objs, `color, `gray, `grayagain, `weak, `currentwhite, `sweepstrgc, `sweepgc, `gcstate
      ensures Snapshot() == Atomic(old(Snapshot()))
    {
      hide AtomicMarks, Again, ClearTable;
      MarkAgain();
      ClearWeak();
      currentwhite, sweepstrgc, sweepgc, gcstate := !currentwhite, 0, 0, SweepString;
    }

    /** makewhite. */
    method MakeWhite(r: Ref)
      modifies `color
      ensures Snapshot() == Whiten(old(Snapshot()), r)
    {
      color := color[r := White(currentwhite)];
    }

    /** luaF_freeupval, with the unlinking done by its callers. */
    method FreeOpenUpvalue(t: Ref, i: nat)
      requires t in openupval && i < |openupval[t]|
      modifies `objs, `color, `openupval, `uvhead
      ensures Snapshot() == FreeOpen(old(Snapshot()), t, i)
    {
      hide Remove, RemoveAt;
      var u := openupval[t][i];
      objs, color := objs - {u}, color - {u};
      openupval, uvhead := openupval[t := RemoveAt(openupval[t], i)], Remove(uvhead, u);
    }

    /** sweepwholelist on the open upvalues of a thread. */
    method SweepOpenUpvalues(t: Ref)
      modifies `objs, `color, `openupval, `uvhead
      ensures Snapshot() == SweepOpen(old(Snapshot()), t, 0)
    {
      hide FreeOpen, Whiten;
      var i := 0;
      while t in openupval && i < |openupval[t]|
        invariant SweepOpen(Snapshot(), t, i) == SweepOpen(old(Snapshot()), t, 0)
        decreases if t in openupval then |openupval[t]| - i else 0
      {
        var u := openupval[t][i];
        FreeOpenShorter(Snapshot(), t, i);
        if u in color && color[u] == White(!currentwhite) && u !in fixed {
          FreeOpenUpvalue(t, i);
        } else {
          MakeWhite(u);
          i := i + 1;
        }
      }
    }

    /** freeobj on a string, unlinked from its bucket. */
    method FreeStringAt(i: nat, k: nat)
      requires Counted() && i < |strt| && k < |strt[i]|
      modifies `objs, `color, `strt, `nuse
      ensures Counted() && Snapshot() == FreeString(old(Snapshot()), i, k)
    {
      var r := strt[i][k];
      TotalUpdate(strt, i, RemoveAt(strt[i], k));
      hide RemoveAt, Total;
      objs, color, strt := objs - {r}, color - {r}, strt[i := RemoveAt(strt[i], k)];
      nuse := nuse - 1;
    }

    /** sweepwholelist on a bucket of the string table. */
    method SweepStrings(i: nat)
      requires Counted()
      modifies `objs, `color, `strt, `nuse
      ensures Counted() && Snapshot() == SweepList(old(Snapshot()), i, 0)
    {
      hide FreeString, Whiten, Total;
      var k := 0;
      while i < |strt| && k < |strt[i]|
        invariant Counted() && SweepList(Snapshot(), i, k) == SweepList(old(Snapshot()), i, 0)
        decreases if i < |strt| then |strt[i]| - k else 0
      {
        var r := strt[i][k];
        FreeStringShorter(Snapshot(), i, k);
        if r in color && color[r] == White(!currentwhite) && r !in fixed {
          FreeStringAt(i, k);
        } else {
          MakeWhite(r);
          k := k + 1;
        }
      }
    }

    method MarkClosed(u: Ref)
      requires u in objs && objs[u].Closed?
      modifies `color, `gray, `grayagain, `weak
      ensures Marked() == MarkAll(old(objs), Paint(old(Marked()), u, Black), [old(objs)[u].value])
    {
      hide MarkAll;
      color := color[u := Black];
      MarkValues([objs[u].value]);
    }

    /** luaC_linkupval: an upvalue just closed joins rootgc. */
    method LinkUpval(u: Ref)
      requires u in objs && objs[u].Closed?
      modifies `rootgc, `sweepgc, `color, `gray, `grayagain, `weak
      ensures Snapshot() == Relink(LinkAt(old(Snapshot()), 0, u), u)
    {
      hide MarkAll, LinkAt, Whiten;
      LinkRoot(0, u);
      if u in color && color[u].Gray? {
        if gcstate.Propagate? { MarkClosed(u); } else { MakeWhite(u); }
      }
    }

    /** The open upvalue leaves the lists and takes the value of its slot. */
    method DetachFirst(t: Ref)
      requires t in openupval && openupval[t] != [] && openupval[t][0] in objs && objs[openupval[t][0]].Open?
      modifies `objs, `openupval, `uvhead
      ensures LinkAt(Snapshot(), 0, old(openupval[t][0])) == Detach(old(Snapshot()), t)
      ensures old(openupval[t][0]) in objs && objs[old(openupval[t][0])].Closed?
    {
      hide Remove;
      var u := openupval[t][0];
      var slot := SlotOf(objs, objs[u].thread, objs[u].level);
      openupval, uvhead := openupval[t := openupval[t][1..]], Remove(uvhead, u);
      objs := objs[u := Closed(if slot == [] then Plain else slot[0])];
    }

    /** The body of the loop of luaF_close. */
    method CloseFirst(t: Ref)
      requires t in openupval && openupval[t] != [] && openupval[t][0] in objs && objs[openupval[t][0]].Open?
      modifies `objs, `color, `gray, `grayagain, `weak, `rootgc, `sweepgc, `openupval, `uvhead
      ensures Snapshot() == CloseOne(old(Snapshot()), t)
    {
      hide Relink, FreeOpen, LinkAt, Detach, SlotOf, Remove;
      var u := openupval[t][0];
      if u in color && color[u] == White(!currentwhite) {
        FreeOpenUpvalue(t, 0);
      } else {
        DetachFirst(t);
        LinkUpval(u);
      }
    }

    /** luaF_close. */
    method CloseUpvalues(t: Ref, level: nat)
      modifies this
      ensures Snapshot() == Close(old(Snapshot()), t, level) && strt == old(strt) && nuse == old(nuse)
    {
      hide CloseOne;
      while t in openupval && openupval[t] != [] && openupval[t][0] in objs && objs[openupval[t][0]].Open?
            && objs[openupval[t][0]].level >= level
        invariant Close(Snapshot(), t, level) == Close(old(Snapshot()), t, level) && strt == old(strt) && nuse == old(nuse)
        decreases OpenCount(Snapshot(), t)
      {
        CloseOneShorter(Snapshot(), t);
        CloseFirst(t);
      }
    }

    /** freeobj on the object at position `i` of rootgc, unlinked first. */
    method FreeRootAt(i: nat)
      requires i < |rootgc|
      modifies `objs, `color, `rootgc, `openupval
      ensures Snapshot() == FreeRoot(old(Snapshot()), i)
    {
      hide RemoveAt;
      var r := rootgc[i];
      objs, color, rootgc, openupval := objs - {r}, color - {r}, RemoveAt(rootgc, i), openupval - {r};
    }

    /** freeobj on the object at `sweepgc`; freeing a thread closes its upvalues first. */
    method FreeNext(r: Ref)
      requires sweepgc < |rootgc|
      modifies this
      ensures strt == old(strt) && nuse == old(nuse)
      ensures var b := Close(old(Snapshot()), r, 0); var i := old(sweepgc) + |b.rootgc| - old(|rootgc|);
        Snapshot() == if 0 <= i < |b.rootgc| then FreeRoot(b, i) else b
    {
      hide Close, FreeRoot;
      var before := |rootgc|;
      var p := sweepgc;
      CloseUpvalues(r, 0);
      var i := p + |rootgc| - before;
      if 0 <= i < |rootgc| { FreeRootAt(i); }
    }

    /** One turn of the loop of sweeplist on rootgc. */
    method SweepNext()
      requires sweepgc < |rootgc|
      modifies this
      ensures Snapshot() == SweepObject(old(Snapshot())) && strt == old(strt) && nuse == old(nuse)
    {
      hide SweepOpen, Close, FreeRoot, Whiten;
      var r := rootgc[sweepgc];
      SweepOpenUpvalues(r);
      if !(r in color && color[r] == White(!currentwhite) && r !in fixed) {
        MakeWhite(r);
        sweepgc := sweepgc + 1;
      } else {
        FreeNext(r);
      }
    }

    /** sweeplist on rootgc, at most `count` objects. */
    method SweepRootgc(count: nat)
      modifies this
      ensures Snapshot() == SweepSome(old(Snapshot()), count) && strt == old(strt) && nuse == old(nuse)
    {
      hide SweepObject;
      var left: nat := count;
      while sweepgc < |rootgc| && left > 0
        invariant left <= count && strt == old(strt) && nuse == old(nuse)
        invariant SweepSome(Snapshot(), left) == SweepSome(old(Snapshot()), count)
        decreases left
      {
        SweepNext();
        left := left - 1;
      }
    }

    /** luaS_resize: every string moves to the bucket of its hash in the new array. */
    method ResizeStrings(newsize: nat)
      requires newsize > 0 && Counted()
      modifies `strt
      ensures Counted() && Snapshot() == Resize(old(Snapshot()), newsize)
    {
      hide RehashList, Bucket, Total;
      if gcstate.SweepString? { return; }
      var newhash := NewHash(newsize);
      RehashTotal(objs, strt, newhash);
      TotalEmpty(newhash);
      var i := 0;
      while i < |strt|
        invariant strt == old(strt) && nuse == old(nuse) && i <= |strt| && |newhash| == newsize
        invariant Rehash(objs, strt[i..], newhash) == Rehash(objs, strt, NewHash(newsize))
      {
        NextValue(strt, i);
        newhash := MoveBucket(strt[i], newhash);
        i := i + 1;
      }
      assert strt[i..] == [];
      strt := newhash;
    }

    method MoveBucket(q: seq<Ref>, hash: seq<seq<Ref>>) returns (newhash: seq<seq<Ref>>)
      requires |hash| > 0
      ensures |newhash| == |hash| && newhash == RehashList(objs, q, hash)
    {
      hide Bucket;
      newhash := hash;
      var i := 0;
      while i < |q|
        invariant i <= |q| && |newhash| == |hash| && RehashList(objs, q[i..], newhash) == RehashList(objs, q, hash)
      {
        NextValue(q, i);
        var h := if q[i] in objs && objs[q[i]].Str? then Bucket(objs[q[i]].chars, |newhash|) else 0;
        newhash := newhash[h := [q[i]] + newhash[h]];
        i := i + 1;
      }
    }

    /** checkSizes, for the string table. */
    method ShrinkStrings()
      requires Counted() && |strt| > 0
      modifies `strt
      ensures Counted() && Snapshot() == CheckSizes(old(Snapshot()))
    {
      hide Resize, Total;
      if nuse < |strt| / 4 && |strt| > MIN_STRT_SIZE * 2 { ResizeStrings(|strt| / 2); }
    }

    /** The GCSsweepstring step. */
    method StringStep()
      requires Counted() && gcstate.SweepString?
      modifies this
      ensures Counted() && Snapshot() == SingleStep(old(Snapshot()))
    {
      hide SweepList, Total;
      SweepStrings(sweepstrgc);
      sweepstrgc := sweepstrgc + 1;
      if sweepstrgc >= |strt| { gcstate := Sweep; }
    }

    /** The GCSsweep step. */
    method SweepStep()
      requires Counted() && gcstate.Sweep? && |strt| > 0
      modifies this
      ensures Counted() && Snapshot() == SingleStep(old(Snapshot()))
    {
      hide SweepSome, CheckSizes, Total;
      SweepRootgc(GCSWEEPMAX);
      if sweepgc >= |rootgc| {
        ShrinkStrings();
        gcstate := Finalize;
      }
    }

    /** singlestep. */
    method Step()
      requires Counted() && Inv(Snapshot())
      modifies this
      ensures Counted() && Inv(Snapshot()) && Snapshot() == SingleStep(old(Snapshot()))
    {
      hide Inv, MarkRoot, Atomic, PropagateMark, Total;
      SingleStepInv(Snapshot());
      TableOpen(Snapshot());
      match gcstate {
        case Pause => StartCycle();
        case Propagate =>
          if gray != [] {
            if gray[0] in objs { PropagateOne(); }
          } else {
            FinishMark();
          }
        case SweepString => StringStep();
        case Sweep => SweepStep();
        case Finalize => gcstate := Pause;
      }
    }

    /** singlestep, until the phase is `stop`. */
    method StepUntil(stop: Phase)
      requires Counted() && Inv(Snapshot()) && Rank(stop) <= Rank(gcstate) && (stop.Pause? || stop.Finalize?)
      modifies this
      ensures Counted() && Inv(Snapshot()) && Snapshot() == Drive(old(Snapshot()), stop)
    {
      hide Inv, SingleStep, Total, Inner, Rank;
      while gcstate != stop
        invariant Counted() && Inv(Snapshot()) && Rank(stop) <= Rank(gcstate)
        invariant Drive(Snapshot(), stop) == Drive(old(Snapshot()), stop)
        decreases Rank(gcstate), Inner(Snapshot())
      {
        StopBelow(gcstate, stop);
        StepProgress(Snapshot());
        DriveOn(Snapshot(), stop);
        Step();
      }
    }

    /** luaC_fullgc, its first part: a mark phase under way is abandoned. */
    method Abandon()
      modifies `gray, `grayagain, `weak, `sweepstrgc, `sweepgc, `gcstate
      ensures Snapshot() == Restart(old(Snapshot()))
    {
      if gcstate.Pause? || gcstate.Propagate? { ResetLists(); }
    }

    method ResetLists()
      modifies `gray, `grayagain, `weak, `sweepstrgc, `sweepgc, `gcstate
      ensures gray == grayagain == weak == [] && sweepstrgc == sweepgc == 0 && gcstate == SweepString
    {
      sweepstrgc, sweepgc := 0, 0;
      gray, grayagain, weak := [], [], [];
      gcstate := SweepString;
    }

    /** luaC_fullgc. */
    method FullCollection()
      requires Counted() && Inv(Snapshot())
      modifies this
      ensures Counted() && Inv(Snapshot()) && Snapshot() == FullGc(old(Snapshot()))
    {
      hide Inv, Restart, MarkRoot, Total, AllFresh, Drive;
      CleanInv(Snapshot());
      RestartInv(Snapshot());
      Abandon();
      StepUntil(Finalize);
      StartCycle();
      StepUntil(Pause);
    }

    /** luaC_barrierf. */
    method BarrierF(o: Ref, v: Ref)
      modifies `color, `gray, `grayagain, `weak
      ensures Snapshot() == BarrierForward(old(Snapshot()), o, Gc(v))
    {
      hide Mark;
      if gcstate.Propagate? { MarkObject(v); } else { color := color[o := White(currentwhite)]; }
    }

    /** luaC_barrierback. */
    method BarrierB(t: Ref)
      modifies `color, `grayagain
      ensures Snapshot() == BarrierBack(old(Snapshot()), t)
    {
      color, grayagain := color[t := Gray], [t] + grayagain;
    }

    /** A store into an object other than a table, with its barrier. */
    method StoreIn(o: Ref, b: Body, v: Value)
      modifies `objs, `color, `gray, `grayagain, `weak
      ensures Snapshot() == StoreForward(old(Snapshot()), o, b, v)
    {
      hide BarrierForward;
      objs := objs[o := b];
      if v.Gc? && v.ref in color && color[v.ref].White? && o in color && color[o].Black? { BarrierF(o, v.ref); }
    }

    method TableBarrier(t: Ref, v: Value)
      modifies `color, `grayagain
      ensures Snapshot() == BarrierTable(old(Snapshot()), t, v)
    {
      hide BarrierBack;
      if v.Gc? && v.ref in color && color[v.ref].White? && t in color && color[t].Black? { BarrierB(t); }
    }

    method PutBody(o: Ref, b: Body)
      modifies `objs
      ensures Snapshot() == SetBody(old(Snapshot()), o, b)
    {
      objs := objs[o := b];
    }

    /** A store into a table: the barriers of the key and of the value. */
    method StoreTable(t: Ref, b: Body, k: Value, v: Value)
      modifies `objs, `color, `grayagain
      ensures Snapshot() == StoreBack(old(Snapshot()), t, b, k, v)
    {
      hide BarrierTable, SetBody;
      PutBody(t, b);
      TableBarrier(t, k);
      TableBarrier(t, v);
    }

    /** luaS_newlstr. `h` is computed first, then the chain is searched. */
    method NewLstr(chars: seq<Byte>, r: Ref) returns (o: Ref)
      requires Counted() && |strt| > 0
      modifies `objs, `color, `strt, `nuse
      ensures Counted() && (Snapshot(), o) == Intern(old(Snapshot()), chars, r)
    {
      hide Total, Whiten, NewString;
      var h := HashOf(chars);
      var chain := strt[h % |strt|];
      var i := 0;
      while i < |chain|
        invariant i <= |chain| && Snapshot() == old(Snapshot()) && Counted()
        invariant FindString(objs, chain[i..], chars) == FindString(objs, chain, chars)
      {
        NextValue(chain, i);
        o := chain[i];
        if o in objs && objs[o] == Str(chars) {
          if o in color && color[o] == White(!currentwhite) { MakeWhite(o); }
          return;
        }
        i := i + 1;
      }
      assert chain[i..] == [];
      o := r;
      ChainString(chars, r, h);
    }

    /** newlstr, up to the test for a crowded table. */
    method LinkString(chars: seq<Byte>, r: Ref, h: nat)
      requires Counted() && |strt| > 0 && h == Hash(chars)
      modifies `objs, `color, `strt, `nuse
      ensures Counted() && |strt| == old(|strt|) && Snapshot() == AddString(old(Snapshot()), chars, r)
    {
      hide Hash;
      var b := h % |strt|;
      TotalUpdate(strt, b, [r] + strt[b]);
      hide Total;
      objs, color, strt := objs[r := Str(chars)], color[r := White(currentwhite)], strt[b := [r] + strt[b]];
      nuse := nuse + 1;
    }

    /** newlstr. */
    method ChainString(chars: seq<Byte>, r: Ref, h: nat)
      requires Counted() && |strt| > 0 && h == Hash(chars)
      modifies `objs, `color, `strt, `nuse
      ensures Counted() && Snapshot() == NewString(old(Snapshot()), chars, r)
    {
      hide Resize, Total, Hash, AddString, NewString;
      NewStringIs(Snapshot(), chars, r);
      LinkString(chars, r, h);
      if nuse > |strt| && |strt| <= MAX_INT / 2 { ResizeStrings(2 * |strt|); }
    }

    method LinkOpen(t: Ref, level: nat, r: Ref, i: nat)
      requires t in openupval && i == Above(objs, openupval[t], level)
      modifies `objs, `color, `openupval, `uvhead
      ensures Snapshot() == AddOpen(old(Snapshot()), t, level, r)
    {
      hide Above, InsertAt;
      objs, color := objs[r := Open(t, level)], color[r := White(currentwhite)];
      openupval, uvhead := openupval[t := InsertAt(openupval[t], i, r)], [r] + uvhead;
    }

    method LinkRoot(i: nat, r: Ref)
      requires i <= |rootgc|
      modifies `rootgc, `sweepgc
      ensures Snapshot() == LinkAt(old(Snapshot()), i, r)
    {
      hide InsertAt;
      rootgc, sweepgc := InsertAt(rootgc, i, r), if i < sweepgc then sweepgc + 1 else sweepgc;
    }

    /** The new object, current-white, before it is linked. */
    method Allocate(r: Ref, b: Body)
      modifies `objs, `color, `openupval
      ensures objs == old(objs)[r := b] && color == old(color)[r := White(currentwhite)]
      ensures openupval == if b.Thread? then old(openupval)[r := []] else old(openupval)
    {
      objs, color := objs[r := b], color[r := White(currentwhite)];
      if b.Thread? { openupval := openupval[r := []]; }
    }

    /** luaC_link, or luaS_newudata for a userdatum, which goes behind the main thread. */
    method LinkObject(r: Ref, b: Body)
      modifies `objs, `color, `openupval, `rootgc, `sweepgc
      ensures Snapshot() == NewObject(old(Snapshot()), r, b)
    {
      hide InsertAt, IndexOf, LinkAt;
      var p := IndexOf(rootgc, mainthread);
      Allocate(r, b);
      LinkRoot(if b.Udata? && p < |rootgc| then p + 1 else 0, r);
    }

    /** luaF_findupval: the list is walked down to the level. */
    method FindUpvalue(t: Ref, level: nat, r: Ref) returns (u: Ref)
      requires t in openupval
      modifies `objs, `color, `openupval, `uvhead
      ensures (Snapshot(), u) == FindUpval(old(Snapshot()), t, level, r)
    {
      hide Whiten, AddOpen;
      var q := openupval[t];
      var i := 0;
      while i < |q| && Level(objs, q[i]) > level
        invariant i <= |q| && Snapshot() == old(Snapshot()) && Above(objs, q, level) == i + Above(objs, q[i..], level)
      {
        NextValue(q, i);
        i := i + 1;
      }
      AboveHere(objs, q[i..], level);
      if i < |q| && Level(objs, q[i]) == level {
        u := q[i];
        if u in color && color[u] == White(!currentwhite) { MakeWhite(u); }
      } else {
        u := r;
        LinkOpen(t, level, r, i);
      }
    }
  }

  lemma StopBelow(p: Phase, stop: Phase)
    requires Rank(stop) <= Rank(p) && p != stop && (stop.Pause? || stop.Finalize?)
    ensures !p.Pause?
  {}

  lemma AboveHere(objs: Objects, q: seq<Ref>, level: nat)
    requires q == [] || Level(objs, q[0]) <= level
    ensures Above(objs, q, level) == 0
  {}

  /** The loop of luaS_newlstr that hashes every `step`-th character from the end. */
  method HashOf(chars: seq<Byte>) returns (h: nat)
    ensures h == Hash(chars)
  {
    hide Xor32;
    h := |chars| % 0x1_0000_0000;
    var step := |chars| / 32 + 1;
    var l1 := |chars|;
    while l1 >= step
      invariant 0 <= l1 <= |chars| && HashFrom(chars, l1, step, h) == Hash(chars)
    {
      var mixed := h * 32 + h / 4 + chars[l1 - 1];
      h := Xor32(h % 0x1_0000_0000, mixed % 0x1_0000_0000);
      l1 := l1 - step;
    }
  }
}
