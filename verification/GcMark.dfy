/** Marking (reallymarkobject, propagatemark in lgc.c) and what it keeps. */
module GcMark {
  import opened GcHeap

  function Whites(m: Marks): set<Ref> { set r | r in m.color && m.color[r].White? }

  /** Objects still to be traversed: those queued and those that may yet be queued. */
  function Work(m: Marks): nat { |m.gray| + |Whites(m)| }

  /** markobject: a white object becomes gray and is queued, or has its referents marked at once. */
  function Mark(objs: Objects, m: Marks, r: Ref): (m': Marks)
    ensures Whites(m') <= Whites(m) && Work(m') <= Work(m)
    decreases Whites(m), 0
  {
    if r !in objs || !IsWhite(m, r) then m else
    var g := Paint(m, r, Gray);
    assert Whites(g) == Whites(m) - {r} && r in Whites(m);
    match objs[r]
    case Str(_) => g
    case Udata(refs) =>
      var b := Paint(m, r, Black);
      assert Whites(b) == Whites(m) - {r};
      MarkAll(objs, b, refs)
    case Closed(v) =>
      var t := MarkAll(objs, g, [v]);
      assert Whites(Paint(t, r, Black)) == Whites(t);
      Paint(t, r, Black)
    case Open(t, l) => MarkAll(objs, g, SlotOf(objs, t, l))
    case _ => g.(gray := [r] + g.gray)
  }

  /** markvalue over a list of values. */
  function MarkAll(objs: Objects, m: Marks, vs: seq<Value>): (m': Marks)
    ensures Whites(m') <= Whites(m) && Work(m') <= Work(m)
    decreases Whites(m), |vs|
  {
    if vs == [] then m
    else MarkAll(objs, if vs[0].Gc? then Mark(objs, m, vs[0].ref) else m, vs[1..])
  }

  /** The state a newly marked object must be in. */
  ghost predicate Done(objs: Objects, m: Marks, r: Ref)
    requires r in objs && r in m.color
  {
    match objs[r]
    case Str(_) => m.color[r].Gray?
    case Udata(refs) => m.color[r].Black? && AllMarked(m, refs)
    case Closed(v) => m.color[r].Black? && AllMarked(m, [v])
    case Open(t, l) => m.color[r].Gray? && AllMarked(m, SlotOf(objs, t, l))
    case _ => m.color[r].Gray? && r in m.gray
  }

  /** Marks are only added. */
  ghost predicate MoreMarked(m: Marks, m': Marks) {
    && m'.color.Keys == m.color.Keys
    && (forall r :: r in m.color && !m.color[r].White? ==> !m'.color[r].White?)
    && (forall r :: r in m.color && m'.color[r].White? ==> m'.color[r] == m.color[r])
  }

  /** The gray list keeps its members; what joins it was white and now is gray, once. */
  ghost predicate GrayGrown(objs: Objects, m: Marks, m': Marks) {
    && (forall r :: r in m.gray ==> r in m'.gray)
    && (forall r :: r in m'.gray && r !in m.gray ==>
          IsWhite(m, r) && IsGray(m', r) && r in objs && Traversable(objs[r]))
    && (NoDup(m.gray) && (forall r :: r in m.gray ==> !IsWhite(m, r)) ==> NoDup(m'.gray))
  }

  /** `m'` is `m` after some marking: only whites changed, and every object that is no longer
      white, those in `skip` aside, is properly done. */
  ghost predicate ExtBut(objs: Objects, m: Marks, m': Marks, skip: set<Ref>) {
    && m.color.Keys == objs.Keys && MoreMarked(m, m')
    && m'.grayagain == m.grayagain && m'.weak == m.weak
    && (forall r :: r in m.color && !m.color[r].White? ==> m'.color[r] == m.color[r])
    && GrayGrown(objs, m, m')
    && forall r :: IsWhite(m, r) && !IsWhite(m', r) && r !in skip ==> Done(objs, m', r)
  }

  ghost predicate Ext(objs: Objects, m: Marks, m': Marks) { ExtBut(objs, m, m', {}) }

  lemma ExtTrans(objs: Objects, m: Marks, t: Marks, u: Marks, skip: set<Ref>)
    requires ExtBut(objs, m, t, skip) && Ext(objs, t, u)
    ensures ExtBut(objs, m, u, skip)
  {
    hide NoDup;
    forall r | IsWhite(m, r) && !IsWhite(u, r) && r !in skip ensures Done(objs, u, r) {
      if !IsWhite(t, r) { assert Done(objs, t, r); }
    }
  }

  /** Turning the gray, still pending object black once its referents are marked. */
  lemma BlackenExt(objs: Objects, m: Marks, t: Marks, r: Ref)
    requires ExtBut(objs, m, t, {r}) && IsWhite(m, r) && IsGray(t, r)
    requires objs[r].Closed? && AllMarked(t, [objs[r].value]) && (r in t.gray ==> r in m.gray)
    ensures Ext(objs, m, Paint(t, r, Black))
  {
    hide NoDup;
    var u := Paint(t, r, Black);
    forall x | IsWhite(m, x) && !IsWhite(u, x) ensures Done(objs, u, x) {
      if x != r { assert Done(objs, t, x); }
    }
  }

  lemma FinishExt(objs: Objects, m: Marks, t: Marks, r: Ref)
    requires ExtBut(objs, m, t, {r}) && r in m.color && Done(objs, t, r)
    ensures Ext(objs, m, t) && !IsWhite(t, r)
  {
    hide NoDup;
  }

  /** The branches of `reallymarkobject` that mark the referents of `r` at once. */
  lemma MarkThroughExt(objs: Objects, m: Marks, g: Marks, t: Marks, r: Ref)
    requires ExtBut(objs, m, g, {r}) && r in objs && IsWhite(m, r) && !IsWhite(g, r)
    requires Ext(objs, g, t) && AllMarked(t, Strong(objs, objs[r]))
    requires objs[r].Udata? ==> IsBlack(g, r)
    requires objs[r].Open? || objs[r].Closed? ==> IsGray(g, r)
    requires objs[r].Udata? || objs[r].Open? || objs[r].Closed?
    ensures var u := if objs[r].Closed? then Paint(t, r, Black) else t;
            Ext(objs, m, u) && !IsWhite(u, r)
  {
    hide NoDup;
    ExtTrans(objs, m, g, t, {r});
    if objs[r].Closed? { BlackenExt(objs, m, t, r); } else { FinishExt(objs, m, t, r); }
  }

  /** How `reallymarkobject` paints an object before it marks through it. */
  function Painted(objs: Objects, m: Marks, r: Ref): Marks
    requires r in objs
  {
    if Traversable(objs[r]) then Paint(m, r, Gray).(gray := [r] + m.gray)
    else Paint(m, r, if objs[r].Udata? then Black else Gray)
  }

  lemma MarkUnfold(objs: Objects, m: Marks, r: Ref)
    requires r in objs && IsWhite(m, r)
    ensures var b := objs[r]; var p := Painted(objs, m, r);
      Mark(objs, m, r) == if Traversable(b) || b.Str? then p
                          else if b.Closed? then Paint(MarkAll(objs, p, Strong(objs, b)), r, Black)
                          else MarkAll(objs, p, Strong(objs, b))
  {}

  lemma PaintedExt(objs: Objects, m: Marks, r: Ref)
    requires m.color.Keys == objs.Keys && IsWhite(m, r)
    ensures ExtBut(objs, m, Painted(objs, m, r), {r})
    ensures Whites(Painted(objs, m, r)) == Whites(m) - {r} && r in Whites(m)
  {
    hide NoDup;
    NoDupCons(r, m.gray);
  }

  lemma MarkExt(objs: Objects, m: Marks, r: Ref)
    requires m.color.Keys == objs.Keys
    ensures Ext(objs, m, Mark(objs, m, r)) && !IsWhite(Mark(objs, m, r), r)
    decreases Whites(m), 0
  {
    if r !in objs || !IsWhite(m, r) { return; }
    hide NoDup, Strong;
    var b := objs[r];
    var p := Painted(objs, m, r);
    MarkUnfold(objs, m, r);
    PaintedExt(objs, m, r);
    if Traversable(b) || b.Str? {
      FinishExt(objs, m, p, r);
    } else {
      MarkAllExt(objs, p, Strong(objs, b));
      MarkThroughExt(objs, m, p, MarkAll(objs, p, Strong(objs, b)), r);
    }
  }

  lemma MarkAllExt(objs: Objects, m: Marks, vs: seq<Value>)
    requires m.color.Keys == objs.Keys
    ensures Ext(objs, m, MarkAll(objs, m, vs)) && AllMarked(MarkAll(objs, m, vs), vs)
    decreases Whites(m), |vs|
  {
    if vs == [] { return; }
    hide NoDup;
    var t := if vs[0].Gc? then Mark(objs, m, vs[0].ref) else m;
    if vs[0].Gc? { MarkExt(objs, m, vs[0].ref); }
    MarkAllExt(objs, t, vs[1..]);
    ExtTrans(objs, m, t, MarkAll(objs, t, vs[1..]), {});
    assert vs == [vs[0]] + vs[1..];
  }
}
