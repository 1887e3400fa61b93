/** The commands of a run: everything the program and the collector may do, in any order. */
module GcProgram {
  import opened GcHeap
  import opened GcMark
  import opened GcPropagate
  import opened GcState
  import opened GcCycle
  import opened GcClose
  import opened GcStrings
  import opened GcStep
  import opened GcFull
  import opened GcMutator
  import opened GcAlloc
  import opened GcUpval

  /** A stack that differs from the old one in slots that hold `v` or nothing. */
  ghost predicate StackUpdate(s: State, t: Ref, b: Body, v: Value) {
    && t in s.objs && s.objs[t].Thread? && b.Thread?
    && (b.globals == s.objs[t].globals || b.globals == v)
    && forall i :: 0 <= i < |b.stack| ==>
         b.stack[i] == v || b.stack[i] == Plain || (i < |s.objs[t].stack| && b.stack[i] == s.objs[t].stack[i])
  }

  /** After a stack write every object holds what it held, the new value, or a plain value. */
  lemma StackHolds(s: State, t: Ref, b: Body, v: Value, x: Ref, w: Value)
    requires OpenMembers(s) && SameKind(s, t, b) && StackUpdate(s, t, b, v)
    requires x in s.objs && w in Holds(SetBody(s, t, b).objs, SetBody(s, t, b).objs[x])
    ensures w in Holds(s.objs, s.objs[x]) || w == v || w == Plain
  {
    hide TabRefs;
    if x == t {
      assert w in [b.globals] + b.stack;
      if w in b.stack { var i :| 0 <= i < |b.stack| && b.stack[i] == w; }
    } else if s.objs[x].Open? && s.objs[x].thread == t {
      var l := s.objs[x].level;
      assert w == b.stack[l];
    }
  }

  lemma StackNoDangling(s: State, t: Ref, b: Body, v: Value)
    requires NoDangling(s) && OpenMembers(s) && SameKind(s, t, b) && StackUpdate(s, t, b, v) && Alive(s, v)
    ensures NoDangling(SetBody(s, t, b))
  {
    hide Holds, SameKind, OpenMembers;
    var z := SetBody(s, t, b);
    forall w | w in Roots(z) ensures Alive(z, w) { assert Alive(s, w); }
    forall x, w | x in z.objs && !IsDead(z, x) && w in Holds(z.objs, z.objs[x]) ensures Alive(z, w) {
      StackHolds(s, t, b, v, x, w);
      assert Alive(s, w);
    }
  }

  lemma ThreadNotBlack(s: State, t: Ref)
    requires Tricolor(s.objs, s.m) && t in s.objs && s.objs[t].Thread?
    ensures !IsBlack(s.m, t)
  {
    hide Holds, GrayLists;
  }

  /** A stack write keeps the invariant without any barrier. */
  lemma StackInv(s: State, t: Ref, b: Body, v: Value)
    requires Inv(s) && SameKind(s, t, b) && StackUpdate(s, t, b, v) && Alive(s, v)
    ensures Inv(SetBody(s, t, b))
  {
    hide Wf, NoDangling, TricolorBut, Swept, StacksNotBlack, SameKind, MoreMarked;
    SetWf(s, t, b);
    StackNoDangling(s, t, b, v) by { WfMembers(s); }
    match s.phase {
      case Propagate => ThreadNotBlack(s, t); SetTricolor(s, t, b); NoDeadSet(s, t, b);
      case SweepString => SetSwept(s, t, b, s.sweepstrgc);
      case Sweep => SetSwept(s, t, b, |s.strt|);
      case _ => SetFresh(s, t, b);
    }
  }

  lemma WfMembers(s: State)
    requires Wf(s)
    ensures OpenMembers(s)
  {}

  datatype Cmd =
    | Collect                                              // singlestep
    | Abandon                                              // luaC_fullgc, its beginning
    | StartCycle                                           // luaC_fullgc, markroot after the sweep
    | Create(r: Ref, body: Body)                           // a new object, pushed
    | CreateString(chars: seq<Byte>, r: Ref)               // luaS_newlstr, pushed
    | CreateClosure(r: Ref, refs: seq<Value>, captures: seq<(nat, Ref)>)  // OP_CLOSURE, pushed
    | SetField(o: Ref, body: Body, v: Value)               // userdata, functions, prototypes
    | SetTable(t: Ref, body: Body, k: Value, v: Value)     // an entry, the metatable or the mode
    | SetUpvalue(u: Ref, v: Value)                         // OP_SETUPVAL
    | SetStack(body: Body, v: Value)                       // push, pop, assign a local, set globals
    | CloseUpvalues(level: nat)                            // luaF_close
    | SetBasicMt(i: nat, v: Value)
    | FixString(r: Ref)                                    // luaS_fix
    | Resume(t: Ref)

  /** The program handles reachable objects only. */
  ghost predicate Known(s: State, v: Value) { v.Gc? ==> Reachable(s, v.ref) }

  lemma KnownAlive(s: State, v: Value)
    requires NoDangling(s) && Known(s, v)
    ensures Alive(s, v)
  {
    if v.Gc? { ReachableIsAlive(s, v.ref); }
  }

  ghost predicate KnownBody(s: State, b: Body) {
    !b.Str? && !b.Open? && (b.Thread? ==> b.stack == []) && forall v :: v in Holds(s.objs, b) ==> Known(s, v)
  }

  /** When a command may be issued: its operands are reachable and of the right kind, and addresses
      of new objects are unused. */
  ghost predicate Enabled(s: State, c: Cmd) {
    match c
    case Collect => true
    case Abandon => true
    case StartCycle => s.phase.Finalize?
    case Create(r, b) => r !in s.objs && KnownBody(s, b)
    case CreateString(_, r) => r !in s.objs
    case CreateClosure(r, refs, caps) =>
      && r !in s.objs && (forall v :: v in refs ==> Known(s, v))
      && (forall i :: 0 <= i < |caps| ==> caps[i].1 !in s.objs && caps[i].1 != r && caps[i].0 < StackSize(s))
      && (forall i, j :: 0 <= i < j < |caps| ==> caps[i].1 != caps[j].1)
    case SetField(o, b, v) =>
      Known(s, Gc(o)) && Known(s, v) && SameKind(s, o, b) && !b.Tab? && !b.Thread? && Extends(s, o, b, [v])
    case SetTable(t, b, k, v) =>
      Known(s, Gc(t)) && Known(s, k) && Known(s, v) && SameKind(s, t, b) && b.Tab? && Extends(s, t, b, [k, v])
    case SetUpvalue(u, v) =>
      Known(s, Gc(u)) && Known(s, v) && u in s.objs && (s.objs[u].Open? || s.objs[u].Closed?)
    case SetStack(b, v) => Known(s, v) && SameKind(s, s.running, b) && StackUpdate(s, s.running, b, v)
    case CloseUpvalues(_) => true
    case SetBasicMt(i, v) => i < |s.mt| && Known(s, v)
    case FixString(r) => Known(s, Gc(r)) && r in s.objs && s.objs[r].Str?
    case Resume(t) => Known(s, Gc(t)) && t in s.objs && s.objs[t].Thread?
  }

  function StackSize(s: State): nat {
    if s.running in s.objs && s.objs[s.running].Thread? then |s.objs[s.running].stack| else 0
  }

  /** Pushes a value on the running thread's stack. */
  function Push(s: State, v: Value): State {
    if s.running in s.objs && s.objs[s.running].Thread?
    then SetBody(s, s.running, Thread(s.objs[s.running].globals, s.objs[s.running].stack + [v]))
    else s
  }

  /** The captures of OP_CLOSURE, in order: the upvalues found or created. */
  function Capture(s: State, caps: seq<(nat, Ref)>): (State, seq<Value>)
    decreases |caps|
  {
    if caps == [] || s.running !in s.openupval then (s, [])
    else
      var (y, u) := FindUpval(s, s.running, caps[0].0, caps[0].1);
      var (z, us) := Capture(y, caps[1..]);
      (z, [Gc(u)] + us)
  }

  function WriteUpvalue(s: State, u: Ref, v: Value): State {
    if u !in s.objs then s
    else match s.objs[u]
      case Closed(_) => StoreForward(s, u, Closed(v), v)
      case Open(t, l) =>
        if t in s.objs && s.objs[t].Thread? && l < |s.objs[t].stack|
        then SetBody(s, t, Thread(s.objs[t].globals, s.objs[t].stack[l := v])) else s
      case _ => s
  }

  function Apply(s: State, c: Cmd): State {
    match c
    case Collect => SingleStep(s)
    case Abandon => Restart(s)
    case StartCycle => MarkRoot(s)
    case Create(r, b) => Push(NewObject(s, r, b), Gc(r))
    case CreateString(chars, r) =>
      if |s.strt| > 0 then (var (z, o) := Intern(s, chars, r); Push(z, Gc(o))) else s
    case CreateClosure(r, refs, caps) =>
      var (z, us) := Capture(s, caps);
      Push(NewObject(z, r, Func(refs + us)), Gc(r))
    case SetField(o, b, v) => StoreForward(s, o, b, v)
    case SetTable(t, b, k, v) => StoreBack(s, t, b, k, v)
    case SetUpvalue(u, v) => WriteUpvalue(s, u, v)
    case SetStack(b, _) => SetBody(s, s.running, b)
    case CloseUpvalues(level) => Close(s, s.running, level)
    case SetBasicMt(i, v) => if i < |s.mt| then s.(mt := s.mt[i := v]) else s
    case FixString(r) => s.(fixed := s.fixed + {r})
    case Resume(t) => s.(running := t)
  }

  lemma Running(s: State)
    requires Inv(s)
    ensures s.running in s.objs && s.objs[s.running].Thread? && !IsDead(s, s.running)
    ensures s.running in s.openupval && |s.strt| > 0
  {
    hide PhaseInv, RootList, OpenSorted, UvHead;
    assert Gc(s.running) in Roots(s) && Alive(s, Gc(s.running));
  }

  lemma PushInv(s: State, v: Value)
    requires Inv(s) && Alive(s, v)
    ensures Inv(Push(s, v))
  {
    hide Inv, Alive;
    Running(s);
    var t := s.objs[s.running];
    var b := Thread(t.globals, t.stack + [v]);
    PushKind(s, v);
    StackInv(s, s.running, b, v);
  }

  lemma PushKind(s: State, v: Value)
    requires Inv(s) && s.running in s.objs && s.objs[s.running].Thread?
    ensures SameKind(s, s.running, Thread(s.objs[s.running].globals, s.objs[s.running].stack + [v]))
  {
    hide PhaseInv, NoDangling, RootList, StringTable, OpenSorted, UvHead, Threads;
  }

  lemma {:induction false} CaptureInv(s: State, caps: seq<(nat, Ref)>)
    requires Inv(s) && forall i :: 0 <= i < |caps| ==> caps[i].1 !in s.objs && caps[i].0 < StackSize(s)
    requires forall i, j :: 0 <= i < j < |caps| ==> caps[i].1 != caps[j].1
    ensures var (z, us) := Capture(s, caps);
      && Inv(z) && (forall v :: v in us ==> Alive(z, v)) && (forall v :: Alive(s, v) ==> Alive(z, v))
      && (forall x :: x in z.objs ==> x in s.objs || exists i :: 0 <= i < |caps| && caps[i].1 == x)
    decreases |caps|
  {
    hide Inv, FindUpval;
    Running(s);
    if caps == [] { return; }
    FindUpvalInv(s, s.running, caps[0].0, caps[0].1);
    FindUpvalFrame(s, s.running, caps[0].0, caps[0].1);
    var (y, u) := FindUpval(s, s.running, caps[0].0, caps[0].1);
    forall i | 0 <= i < |caps[1..]| ensures caps[1..][i].1 !in y.objs && caps[1..][i].0 < StackSize(y) {
      assert caps[1..][i] == caps[i + 1];
    }
    CaptureInv(y, caps[1..]);
    var (z, us) := Capture(y, caps[1..]);
    forall x | x in z.objs && x !in s.objs ensures exists i :: 0 <= i < |caps| && caps[i].1 == x {
      if x in y.objs { assert caps[0].1 == x; }
      else { var i :| 0 <= i < |caps[1..]| && caps[1..][i].1 == x; assert caps[i + 1].1 == x; }
    }
  }

  lemma FindUpvalFrame(s: State, t: Ref, level: nat, r: Ref)
    requires t in s.openupval && r !in s.objs && s.running in s.objs
    ensures var (z, _) := FindUpval(s, t, level, r);
      && z.running == s.running && StackSize(z) == StackSize(s) && (forall v :: Alive(s, v) ==> Alive(z, v))
      && (forall x :: x in z.objs ==> x in s.objs || x == r)
  {
    hide Above;
  }
}
