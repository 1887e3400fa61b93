/** The heap the incremental collector works on (lgc.h, lobject.h, lstate.h): objects, their
    colours, the collector's lists, and what an object refers to. */
module GcHeap {
  type Ref = nat
  type Byte = b: int | 0 <= b < 256

  /** A Lua value as the collector sees it: collectable (`iscollectable`) or not. */
  datatype Value = Plain | Gc(ref: Ref)

  /** A live table entry. Array slots are entries with a plain key. */
  datatype Entry = Entry(key: Value, val: Value)

  datatype Body =
    | Str(chars: seq<Byte>)
    | Udata(refs: seq<Value>)                 // metatable and environment
    | Func(refs: seq<Value>)                  // environment, prototype, upvalues
    | Proto(refs: seq<Value>)                 // source, constants, names, nested prototypes
    | Tab(metatable: Value, weakKey: bool, weakVal: bool, entries: seq<Entry>)
    | Thread(globals: Value, stack: seq<Value>)
    | Open(thread: Ref, level: nat)           // open upvalue: lives in a stack slot
    | Closed(value: Value)                    // closed upvalue: owns its value

  type Objects = map<Ref, Body>

  /** The colour bits of `marked`: one of two whites, neither (gray), or black. */
  datatype Color = White(parity: bool) | Gray | Black

  /** The colours and the three lists threaded through `gclist`. */
  datatype Marks = Marks(color: map<Ref, Color>, gray: seq<Ref>, grayagain: seq<Ref>, weak: seq<Ref>)

  predicate IsWhite(m: Marks, r: Ref) { r in m.color && m.color[r].White? }
  predicate IsGray(m: Marks, r: Ref) { r in m.color && m.color[r].Gray? }
  predicate IsBlack(m: Marks, r: Ref) { r in m.color && m.color[r].Black? }

  function Paint(m: Marks, r: Ref, c: Color): Marks { m.(color := m.color[r := c]) }

  function TabRefs(metatable: Value, weakKey: bool, weakVal: bool, es: seq<Entry>): seq<Value> {
    [metatable]
    + (if weakKey then [] else seq(|es|, i requires 0 <= i < |es| => es[i].key))
    + (if weakVal then [] else seq(|es|, i requires 0 <= i < |es| => es[i].val))
  }

  /** The slot of an open upvalue, as a list of at most one value. */
  function SlotOf(objs: Objects, thread: Ref, level: nat): seq<Value> {
    if thread in objs && objs[thread].Thread? && level < |objs[thread].stack|
    then [objs[thread].stack[level]] else []
  }

  /** What the traversal of an object marks: everything it holds except weak table parts. */
  function Strong(objs: Objects, b: Body): seq<Value> {
    match b
    case Str(_) => []
    case Udata(refs) => refs
    case Func(refs) => refs
    case Proto(refs) => refs
    case Tab(mt, wk, wv, es) => TabRefs(mt, wk, wv, es)
    case Thread(g, st) => [g] + st
    case Open(t, l) => SlotOf(objs, t, l)
    case Closed(v) => [v]
  }

  /** Everything an object holds, weak parts included. */
  function Holds(objs: Objects, b: Body): seq<Value> {
    if b.Tab? then TabRefs(b.metatable, false, false, b.entries) else Strong(objs, b)
  }

  predicate WeakTable(b: Body) { b.Tab? && (b.weakKey || b.weakVal) }

  predicate Traversable(b: Body) { b.Func? || b.Proto? || b.Tab? || b.Thread? }

  predicate NoDup<T(==)>(q: seq<T>) { forall i, j :: 0 <= i < j < |q| ==> q[i] != q[j] }

  lemma NoDupCons<T>(x: T, q: seq<T>)
    ensures NoDup([x] + q) <==> x !in q && NoDup(q)
  {
    var l := [x] + q;
    assert l[0] == x && l[1..] == q;
    if NoDup(l) {
      forall i | 0 <= i < |q| ensures q[i] != x { assert l[i + 1] == q[i]; }
      forall i, j | 0 <= i < j < |q| ensures q[i] != q[j] { assert l[i + 1] != l[j + 1]; }
    }
  }

  lemma NoDupTail<T>(q: seq<T>)
    requires q != []
    ensures NoDup(q) <==> q[0] !in q[1..] && NoDup(q[1..])
    ensures forall x :: x in q <==> x == q[0] || x in q[1..]
  {
    NoDupCons(q[0], q[1..]);
    assert q == [q[0]] + q[1..];
  }

  /** No value of `vs` refers to a white object. */
  predicate AllMarked(m: Marks, vs: seq<Value>) {
    forall v :: v in vs && v.Gc? ==> !IsWhite(m, v.ref)
  }

  lemma StrongInHolds(objs: Objects, b: Body, v: Value)
    requires v in Strong(objs, b)
    ensures v in Holds(objs, b)
  {
    if b.Tab? {
      var es := b.entries;
      var ks := seq(|es|, i requires 0 <= i < |es| => es[i].key);
      var vs := seq(|es|, i requires 0 <= i < |es| => es[i].val);
      assert Holds(objs, b) == [b.metatable] + ks + vs;
    }
  }
}
