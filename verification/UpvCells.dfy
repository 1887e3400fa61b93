/** Open and closed upvalues as shared variables (luaF_findupval and luaF_close in lfunc.c, the stack
    relocation in ldo.c, GETUPVAL, SETUPVAL and CLOSURE in lvm.c). */
module UpvCells {
  type Value = int

  /** An upvalue points into the stack, at an address, or to its own value. */
  datatype Pointer = Stack(addr: int) | Own

  class UpVal {
    var v: Pointer
    var value: Value

    constructor (v: Pointer)
      ensures this.v == v
    {
      this.v, value := v, 0;
    }
  }

  datatype CallInfo = CallInfo(func: int, base: int, top: int)

  /** The variables of the program: `slots[k]` is the variable that stack slot `k` holds, `store` has the
      values of all variables there ever were. No two slots hold the same variable. */
  datatype Vars = Vars(slots: seq<nat>, store: seq<Value>)

  ghost predicate VarsOk(x: Vars) {
    && (forall k :: 0 <= k < |x.slots| ==> x.slots[k] < |x.store|)
    && (forall j, k :: 0 <= j < k < |x.slots| ==> x.slots[j] != x.slots[k])
  }

  ghost function Get(x: Vars, k: nat): Value
    requires VarsOk(x) && k < |x.slots|
  { x.store[x.slots[k]] }

  /** The slots from `level` on hold new variables, with the values of the old ones. */
  ghost function Renewed(x: Vars, level: nat): Vars
    requires VarsOk(x) && level <= |x.slots|
  {
    var n := |x.store|;
    Vars(seq(|x.slots|, k requires 0 <= k < |x.slots| => if k < level then x.slots[k] else n + (k - level)),
         x.store + seq(|x.slots| - level, k requires 0 <= k < |x.slots| - level => Get(x, level + k)))
  }

  lemma RenewedOk(x: Vars, level: nat)
    requires VarsOk(x) && level <= |x.slots|
    ensures VarsOk(Renewed(x, level)) && forall k :: 0 <= k < |x.slots| ==> Get(Renewed(x, level), k) == Get(x, k)
    ensures x.store <= Renewed(x, level).store
  {
    var y := Renewed(x, level);
    forall k | 0 <= k < |x.slots| ensures y.slots[k] < |y.store| && y.store[y.slots[k]] == Get(x, k) {}
  }

  /** An upvalue with this pointer and this value of its own stands for variable `c`: an open one for the
      variable of its slot, a closed one for a variable that has left the stack. */
  predicate StandsFor(v: Pointer, value: Value, c: nat, stack: int, x: Vars) {
    match v
    case Stack(addr) => 0 <= addr - stack < |x.slots| && c == x.slots[addr - stack]
    case Own => c < |x.store| && value == x.store[c] && c !in x.slots
  }

  ghost predicate SameValues(mem: seq<Value>, x: Vars) {
    VarsOk(x) && |x.slots| == |mem| && forall k :: 0 <= k < |mem| ==> mem[k] == Get(x, k)
  }

  function Assigned(x: Vars, c: nat, y: Value): Vars
    requires c < |x.store|
  { x.(store := x.store[c := y]) }

  lemma SlotAssigned(mem: seq<Value>, x: Vars, k: nat, y: Value)
    requires SameValues(mem, x) && k < |mem|
    ensures SameValues(mem[k := y], Assigned(x, x.slots[k], y))
  {}

  lemma OwnAssigned(mem: seq<Value>, x: Vars, c: nat, y: Value)
    requires SameValues(mem, x) && c < |x.store| && c !in x.slots
    ensures SameValues(mem, Assigned(x, c, y))
  {}

  lemma OthersStand(v: Pointer, value: Value, c: nat, stack: int, x: Vars, d: nat, y: Value)
    requires StandsFor(v, value, c, stack, x) && d < |x.store|
    ensures c != d || v.Stack? ==> StandsFor(v, value, c, stack, Assigned(x, d, y))
    ensures c == d && v == Own ==> StandsFor(v, y, c, stack, Assigned(x, d, y))
  {}

  class State {
    var stack: int               // the address of the stack
    var mem: array<Value>        // its slots
    var top: int
    var base: int
    var calls: seq<CallInfo>
    var open: seq<UpVal>         // the list openupval
    ghost var all: set<UpVal>
    ghost var vars: Vars
    ghost var cells: map<UpVal, nat>   // the variable each upvalue stands for

    /** The open list is strictly decreasing by stack level. */
    ghost predicate Listed()
      reads `open, open
    {
      (forall i :: 0 <= i < |open| ==> open[i].v.Stack?) && forall i, j :: 0 <= i < j < |open| ==> open[i].v.addr > open[j].v.addr
    }

    ghost predicate Stands(u: UpVal)
      reads this, u
    { u in cells && StandsFor(u.v, u.value, cells[u], stack, vars) }

    /** The slots hold the values of their variables, every upvalue stands for one, no two for the same,
        and the open ones are in the list. */
    ghost predicate Valid()
      reads this, mem, all
    {
      && SameValues(mem[..], vars) && (forall u :: u in open ==> u in all) && Listed()
      && (forall u :: u in all ==> Stands(u) && (u.v.Stack? ==> u in open))
      && (forall u, w :: u in all && w in all && u != w ==> cells[u] != cells[w])
    }

    /** A slot is read. */
    method GetSlot(k: nat) returns (x: Value)
      requires Valid() && k < mem.Length
      ensures x == Get(vars, k)
    {
      x := mem[k];
    }

    /** OP_GETUPVAL. */
    method GetUpval(u: UpVal) returns (x: Value)
      requires Valid() && u in all
      ensures cells[u] < |vars.store| && x == vars.store[cells[u]]
    {
      assert Stands(u);
      x := if u.v == Own then u.value else mem[u.v.addr - stack];
    }

    method SetSlot(k: nat, y: Value)
      requires Valid() && k < mem.Length
      modifies mem, `vars
      ensures Valid() && k < |old(vars).slots| && old(vars).slots[k] < |old(vars).store| && vars == Assigned(old(vars), old(vars).slots[k], y)
    {
      hide VarsOk, StandsFor, Assigned;
      ghost var m, x := mem[..], vars;
      SlotInStore(m, x, k);
      SlotAssigned(m, x, k, y);
      mem[k] := y;
      assert mem[..] == m[k := y];
      vars := Assigned(x, x.slots[k], y);
      forall u | u in all ensures Stands(u) {
        OthersStand(u.v, u.value, cells[u], stack, x, x.slots[k], y);
        SlotsApart(u.v, u.value, cells[u], stack, x, k);
      }
    }

    /** The value of a closed upvalue changes. */
    method SetOwn(u: UpVal, y: Value)
      requires Valid() && u in all && u.v == Own && cells[u] < |vars.store| && SameValues(mem[..], Assigned(vars, cells[u], y))
      modifies u`value, `vars
      ensures Valid() && vars == Assigned(old(vars), cells[u], y)
    {
      hide VarsOk, StandsFor, Assigned, SameValues;
      ghost var x := vars;
      u.value := y;
      vars := Assigned(x, cells[u], y);
      forall w | w in all ensures Stands(w) {
        assert old(Stands(w)) && (w != u ==> cells[w] != cells[u]);
        OthersStand(w.v, old(w.value), cells[w], stack, x, cells[u], y);
      }
    }

    /** OP_SETUPVAL. */
    method SetUpval(u: UpVal, y: Value)
      requires Valid() && u in all
      modifies mem, u`value, `vars
      ensures Valid() && cells[u] < |old(vars).store| && vars == Assigned(old(vars), cells[u], y)
    {
      hide VarsOk, StandsFor, Assigned, SameValues;
      ghost var x := vars;
      UpvalInStore(u.v, u.value, cells[u], stack, mem[..], x);
      if u.v == Own {
        OwnAssigned(mem[..], x, cells[u], y);
        SetOwn(u, y);
      } else {
        SetSlot(u.v.addr - stack, y);
      }
    }

    /** luaF_findupval: the open upvalue of slot `level`, or a new one in its place in the list. */
    method FindUpval(level: nat) returns (u: UpVal)
      requires Valid() && level < mem.Length
      modifies `open, `all, `cells
      ensures Valid() && u in all && level < |vars.slots| && cells[u] == vars.slots[level]
      ensures all == old(all) + {u} && (u in old(all) || fresh(u)) && forall w :: w in old(all) ==> w in cells && cells[w] == old(cells)[w]
    {
      var i := 0;
      while i < |open| && open[i].v.addr >= stack + level
        invariant 0 <= i <= |open| && forall j :: 0 <= j < i ==> open[j].v.addr > stack + level
      {
        if open[i].v.addr == stack + level {
          assert Stands(open[i]);
          return open[i];
        }
        i := i + 1;
      }
      u := new UpVal(Stack(stack + level));
      Insert(u, i, level);
    }

    /** The new upvalue is chained at place `i`. */
    method Insert(u: UpVal, i: nat, ghost level: nat)
      requires Valid() && level < mem.Length && u !in all && u.v == Stack(stack + level) && i <= |open|
      requires forall j :: 0 <= j < i ==> open[j].v.addr > stack + level
      requires forall j :: i <= j < |open| ==> open[j].v.addr < stack + level
      modifies `open, `all, `cells
      ensures Valid() && all == old(all) + {u} && level < |vars.slots| && cells == old(cells)[u := vars.slots[level]]
    {
      hide StandsFor, SameValues, VarsOk;
      SlotInStore(mem[..], vars, level);
      NewStands(u.value, stack, vars, level);
      forall w | w in all ensures Stands(w) && cells[w] != vars.slots[level] {
        assert w.v.Stack? ==> w in open;
        OtherCell(mem[..], w.v, w.value, cells[w], stack, vars, level);
      }
      open := open[..i] + [u] + open[i..];
      all := all + {u};
      cells := cells[u := vars.slots[level]];
    }

    /** While luaF_close works, the upvalues it has not come to still stand for the old variables. */
    ghost predicate Closing(x: Vars, level: nat)
      reads this, mem, all
    {
      && VarsOk(x) && level <= |x.slots| == mem.Length && vars == Renewed(x, level)
      && SameValues(mem[..], vars) && (forall u :: u in open ==> u in all) && Listed()
      && (forall u :: u in all ==> u in cells && Halfway(u.v, u.value, cells[u], stack, x, level) && (u.v.Stack? ==> u in open))
      && (forall u, w :: u in all && w in all && u != w ==> cells[u] != cells[w])
    }

    /** luaF_close: the upvalues from `level` on get their own values, which their slots no longer share. */
    method Close(level: nat)
      requires Valid() && level <= mem.Length
      modifies `open, `vars, all
      ensures VarsOk(old(vars)) && level <= |old(vars).slots|
      ensures Valid() && vars == Renewed(old(vars), level)
    {
      hide StandsFor, SameValues, VarsOk, Renewed, Halfway;
      ghost var x := vars;
      CloseStart(mem[..], x, level);
      forall u | u in all ensures Halfway(u.v, u.value, cells[u], stack, x, level) {
        assert Stands(u);
        HalfwayStart(u.v, u.value, cells[u], stack, mem[..], x, level);
      }
      vars := Renewed(x, level);
      while open != [] && open[0].v.addr >= stack + level
        invariant Closing(x, level)
        decreases |open|
      {
        CloseFirst(x, level);
      }
      forall u | u in all ensures Stands(u) {
        assert u.v.Stack? ==> exists i :: 0 <= i < |open| && open[i] == u;
        assert forall i :: 0 <= i < |open| ==> open[i].v.addr <= open[0].v.addr;
        HalfwayEnd(u.v, u.value, cells[u], stack, x, level);
      }
    }

    method CloseFirst(ghost x: Vars, ghost level: nat)
      requires Closing(x, level) && open != [] && open[0].v.addr >= stack + level
      modifies `open, open[0]
      ensures Closing(x, level) && open == old(open)[1..]
    {
      hide StandsFor, SameValues, VarsOk, Renewed, Halfway;
      var u := open[0];
      SlotShared(u.v, u.value, cells[u], stack, mem[..], x, level);
      ghost var first := open;
      open := open[1..];
      u.value := mem[u.v.addr - stack];
      u.v := Own;
      forall w | w in all ensures Halfway(w.v, w.value, cells[w], stack, x, level) && (w.v.Stack? ==> w in open) {
        if w != u { assert old(Halfway(w.v, w.value, cells[w], stack, x, level)) && (w.v.Stack? ==> w in first); }
      }
    }

    /** correctstack: every pointer into the stack keeps its distance from the beginning. */
    method CorrectStack(oldstack: int)
      requires Listed()
      modifies `top, `base, `calls, open
      ensures Listed() && top == Moved(old(top), oldstack, stack) && base == Moved(old(base), oldstack, stack)
      ensures |calls| == |old(calls)| && forall i :: 0 <= i < |calls| ==> calls[i] == MovedCall(old(calls)[i], oldstack, stack)
      ensures forall u :: u in open ==> old(u.v).Stack? && u.v == Stack(Moved(old(u.v).addr, oldstack, stack)) && u.value == old(u.value)
    {
      top := Moved(top, oldstack, stack);
      CorrectOpen(oldstack);
      CorrectCalls(oldstack);
      base := Moved(base, oldstack, stack);
    }

    method CorrectOpen(oldstack: int)
      requires Listed()
      modifies open
      ensures Listed()
      ensures forall u :: u in open ==> old(u.v).Stack? && u.v == Stack(Moved(old(u.v).addr, oldstack, stack)) && u.value == old(u.value)
    {
      var i := 0;
      while i < |open|
        invariant 0 <= i <= |open| && forall j :: 0 <= j < |open| ==> open[j].value == old(open[j].value)
        invariant forall j :: 0 <= j < i ==> open[j].v == Stack(Moved(old(open[j].v).addr, oldstack, stack))
        invariant forall j :: i <= j < |open| ==> open[j].v == old(open[j].v)
      {
        open[i].v := Stack(Moved(open[i].v.addr, oldstack, stack));
        i := i + 1;
      }
    }

    method CorrectCalls(oldstack: int)
      modifies `calls
      ensures |calls| == |old(calls)| && forall i :: 0 <= i < |calls| ==> calls[i] == MovedCall(old(calls)[i], oldstack, stack)
    {
      var ci := 0;
      while ci < |calls|
        invariant 0 <= ci <= |calls| == |old(calls)|
        invariant forall j :: 0 <= j < |calls| ==> calls[j] == if j < ci then MovedCall(old(calls)[j], oldstack, stack) else old(calls)[j]
      {
        calls := calls[ci := MovedCall(calls[ci], oldstack, stack)];
        ci := ci + 1;
      }
    }

    /** luaD_reallocstack, when the new memory is at address `at`. */
    method ReallocStack(newsize: nat, at: int)
      requires Valid() && forall u :: u in open ==> u.v.addr - stack < RealSize(newsize)
      modifies this, open
      ensures Valid() && VarsOk(old(vars)) && vars == Resized(old(vars), RealSize(newsize)) && stack == at && fresh(mem)
      ensures cells == old(cells) && all == old(all) && open == old(open)
      ensures top - stack == old(top - stack) && base - stack == old(base - stack)
      ensures |calls| == |old(calls)| && forall i :: 0 <= i < |calls| ==> calls[i] == MovedCall(old(calls)[i], old(stack), stack)
    {
      hide StandsFor, SameValues, VarsOk, Resized, Listed, MovedCall, RealSize;
      ghost var x := vars;
      var oldstack := stack;
      var b := NewStack(RealSize(newsize));
      ResizedSame(mem[..], x, b[..]);
      forall u | u in all ensures StandsFor(MovedPointer(u.v, stack, at), u.value, cells[u], at, Resized(x, RealSize(newsize))) {
        assert Stands(u);
        ResizedStands(u.v, u.value, cells[u], stack, at, mem[..], x, RealSize(newsize));
      }
      mem, stack := b, at;
      vars := Resized(x, RealSize(newsize));
      CorrectStack(oldstack);
      forall u | u in all ensures Stands(u) && (u.v.Stack? ==> u in open) {
        assert old(u.v).Stack? <==> u in open;
        assert u.v == MovedPointer(old(u.v), oldstack, at);
      }
    }

    /** luaM_reallocvector, for the slots. */
    method NewStack(n: nat) returns (b: array<Value>)
      ensures fresh(b) && b.Length == n && forall k :: 0 <= k < n ==> b[k] == if k < mem.Length then mem[k] else 0
    {
      b := new Value[n](_ => 0);
      var k := 0;
      while k < n && k < mem.Length
        invariant 0 <= k <= n && forall j :: 0 <= j < n ==> b[j] == if j < k && j < mem.Length then mem[j] else 0
      {
        b[k] := mem[k];
        k := k + 1;
      }
    }
  }

  const EXTRA_STACK := 5

  function RealSize(newsize: nat): nat { newsize + 1 + EXTRA_STACK }

  function Moved(addr: int, oldstack: int, stack: int): int { addr - oldstack + stack }

  function MovedCall(c: CallInfo, oldstack: int, stack: int): CallInfo {
    CallInfo(Moved(c.func, oldstack, stack), Moved(c.base, oldstack, stack), Moved(c.top, oldstack, stack))
  }

  function MovedPointer(v: Pointer, oldstack: int, stack: int): Pointer {
    if v == Own then Own else Stack(Moved(v.addr, oldstack, stack))
  }

  /** A stack of another size: slots that are gone take their variables with them, new ones have new ones. */
  ghost function Resized(x: Vars, n: nat): Vars
    requires VarsOk(x)
  {
    var m, s := |x.slots|, |x.store|;
    if n <= m then Vars(x.slots[..n], x.store)
    else Vars(x.slots + seq(n - m, k requires 0 <= k < n - m => s + k), x.store + seq(n - m, k => 0))
  }

  lemma ResizedSame(mem: seq<Value>, x: Vars, b: seq<Value>)
    requires SameValues(mem, x) && forall k :: 0 <= k < |b| ==> b[k] == if k < |mem| then mem[k] else 0
    ensures VarsOk(x) && SameValues(b, Resized(x, |b|))
  {
    var y := Resized(x, |b|);
    forall k | 0 <= k < |b| ensures y.slots[k] < |y.store| && b[k] == y.store[y.slots[k]] {}
  }

  lemma ResizedStands(v: Pointer, value: Value, c: nat, stack: int, at: int, mem: seq<Value>, x: Vars, n: nat)
    requires SameValues(mem, x) && StandsFor(v, value, c, stack, x) && (v.Stack? ==> v.addr - stack < n)
    ensures VarsOk(x) && StandsFor(MovedPointer(v, stack, at), value, c, at, Resized(x, n))
  {}

  /** During luaF_close: an upvalue from `level` on stands for the old variable of its slot. */
  ghost predicate Halfway(v: Pointer, value: Value, c: nat, stack: int, x: Vars, level: nat)
    requires VarsOk(x) && level <= |x.slots|
  {
    if v.Stack? && v.addr - stack >= level then v.addr - stack < |x.slots| && c == x.slots[v.addr - stack]
    else StandsFor(v, value, c, stack, Renewed(x, level))
  }

  lemma CloseStart(mem: seq<Value>, x: Vars, level: nat)
    requires SameValues(mem, x) && level <= |mem|
    ensures VarsOk(x) && level <= |x.slots| == |mem| && SameValues(mem, Renewed(x, level))
  {
    RenewedOk(x, level);
  }

  lemma HalfwayStart(v: Pointer, value: Value, c: nat, stack: int, mem: seq<Value>, x: Vars, level: nat)
    requires StandsFor(v, value, c, stack, x) && VarsOk(x) && level <= |x.slots|
    ensures Halfway(v, value, c, stack, x, level)
  {
    RenewedOk(x, level);
  }

  lemma HalfwayEnd(v: Pointer, value: Value, c: nat, stack: int, x: Vars, level: nat)
    requires VarsOk(x) && level <= |x.slots| && Halfway(v, value, c, stack, x, level) && (v.Stack? ==> v.addr < stack + level)
    ensures StandsFor(v, value, c, stack, Renewed(x, level))
  {}

  /** The value of the slot is that of the variable, which then leaves the stack. */
  lemma SlotShared(v: Pointer, value: Value, c: nat, stack: int, mem: seq<Value>, x: Vars, level: nat)
    requires VarsOk(x) && level <= |x.slots| == |mem| && SameValues(mem, Renewed(x, level))
    requires Halfway(v, value, c, stack, x, level) && v.Stack? && v.addr - stack >= level
    ensures 0 <= v.addr - stack < |mem| && Halfway(Own, mem[v.addr - stack], c, stack, x, level)
  {
    RenewedOk(x, level);
    var k, y := v.addr - stack, Renewed(x, level);
    assert mem[k] == Get(y, k) == Get(x, k) == x.store[c] == y.store[c];
    forall j | 0 <= j < |y.slots| ensures y.slots[j] != c { if j < level { assert y.slots[j] == x.slots[j]; } }
  }

  lemma NewStands(value: Value, stack: int, x: Vars, level: nat)
    requires level < |x.slots|
    ensures StandsFor(Stack(stack + level), value, x.slots[level], stack, x)
  {}

  /** An upvalue that does not point to a slot does not stand for its variable. */
  lemma OtherCell(mem: seq<Value>, v: Pointer, value: Value, c: nat, stack: int, x: Vars, level: nat)
    requires SameValues(mem, x) && StandsFor(v, value, c, stack, x) && level < |x.slots| && v != Stack(stack + level)
    ensures c != x.slots[level]
  {}

  lemma SlotInStore(mem: seq<Value>, x: Vars, k: nat)
    requires SameValues(mem, x) && k < |mem|
    ensures k < |x.slots| && x.slots[k] < |x.store|
  {}

  /** A closed upvalue stands for no variable of the stack. */
  lemma SlotsApart(v: Pointer, value: Value, c: nat, stack: int, x: Vars, k: nat)
    requires StandsFor(v, value, c, stack, x) && k < |x.slots|
    ensures v == Own ==> c != x.slots[k]
  {}

  lemma UpvalInStore(v: Pointer, value: Value, c: nat, stack: int, mem: seq<Value>, x: Vars)
    requires SameValues(mem, x) && StandsFor(v, value, c, stack, x)
    ensures c < |x.store| && if v == Own then c !in x.slots else 0 <= v.addr - stack < |mem| == |x.slots| && c == x.slots[v.addr - stack]
  {}

  // Whole runs, against a machine that has variables only: no stack, and no open or closed upvalues.

  // CLOSURE captures a slot, or inherits a variable that the enclosing function has captured.
  datatype Op = Read(k: nat) | Write(k: nat, y: Value) | Capture(k: nat) | Inherit(h: nat) | ReadUp(h: nat) | WriteUp(h: nat, y: Value)
              | Leave(level: nat) | Grow(newsize: nat, at: int)

  /** The variables, and those that closures have captured so far. */
  datatype Machine = Machine(vars: Vars, caps: seq<nat>)

  ghost predicate MachineOk(m: Machine) {
    VarsOk(m.vars) && forall h :: 0 <= h < |m.caps| ==> m.caps[h] < |m.vars.store|
  }

  /** The slots and captured variables that an operation names are there; the stack does not shrink below
      a slot that has been captured. */
  ghost predicate Can(m: Machine, op: Op) {
    match op
    case Read(k) => k < |m.vars.slots|
    case Write(k, _) => k < |m.vars.slots|
    case Capture(k) => k < |m.vars.slots|
    case Inherit(h) => h < |m.caps|
    case ReadUp(h) => h < |m.caps|
    case WriteUp(h, _) => h < |m.caps|
    case Leave(level) => level <= |m.vars.slots|
    case Grow(newsize, _) => forall k :: RealSize(newsize) <= k < |m.vars.slots| ==> m.vars.slots[k] !in m.caps
  }

  ghost function After(m: Machine, op: Op): Machine
    requires MachineOk(m) && Can(m, op)
  {
    match op
    case Write(k, y) => m.(vars := Assigned(m.vars, m.vars.slots[k], y))
    case Capture(k) => m.(caps := m.caps + [m.vars.slots[k]])
    case Inherit(h) => m.(caps := m.caps + [m.caps[h]])
    case WriteUp(h, y) => m.(vars := Assigned(m.vars, m.caps[h], y))
    case Leave(level) => m.(vars := Renewed(m.vars, level))
    case Grow(newsize, _) => m.(vars := Resized(m.vars, RealSize(newsize)))
    case _ => m
  }

  /** What an operation reads. */
  ghost function Seen(m: Machine, op: Op): seq<Value>
    requires MachineOk(m) && Can(m, op)
  {
    match op
    case Read(k) => [Get(m.vars, k)]
    case ReadUp(h) => [m.vars.store[m.caps[h]]]
    case _ => []
  }

  lemma AfterOk(m: Machine, op: Op)
    requires MachineOk(m) && Can(m, op)
    ensures MachineOk(After(m, op))
  {
    if op.Leave? { RenewedOk(m.vars, op.level); }
    if op.Grow? { ResizedOk(m.vars, RealSize(op.newsize)); }
  }

  lemma ResizedOk(x: Vars, n: nat)
    requires VarsOk(x)
    ensures VarsOk(Resized(x, n)) && x.store <= Resized(x, n).store
  {}

  ghost predicate Runs(m: Machine, ops: seq<Op>)
    decreases |ops|
  {
    ops == [] || (MachineOk(m) && Can(m, ops[0]) && Runs(After(m, ops[0]), ops[1..]))
  }

  ghost function AllSeen(m: Machine, ops: seq<Op>): seq<Value>
    requires Runs(m, ops)
    decreases |ops|
  { if ops == [] then [] else Seen(m, ops[0]) + AllSeen(After(m, ops[0]), ops[1..]) }

  /** The upvalues of the closures stand for the captured variables; and no upvalue is open without one. */
  ghost predicate Represents(s: State, ups: seq<UpVal>, m: Machine)
    reads s, s.mem, s.all
  {
    && s.Valid() && s.vars == m.vars && |ups| == |m.caps| && MachineOk(m)
    && (forall h :: 0 <= h < |ups| ==> ups[h] in s.all && s.cells[ups[h]] == m.caps[h])
    && (forall u :: u in s.all ==> u in s.cells && s.cells[u] in m.caps)
  }

  method Step(s: State, ups: seq<UpVal>, op: Op, ghost m: Machine) returns (ups': seq<UpVal>, seen: seq<Value>)
    requires Represents(s, ups, m) && Can(m, op)
    modifies s, s.mem, s.all
    ensures Represents(s, ups', After(m, op)) && seen == Seen(m, op)
    ensures fresh(s.all - old(s.all)) && (s.mem == old(s.mem) || fresh(s.mem))
  {
    hide StandsFor, SameValues, Renewed, Resized, Assigned;
    AfterOk(m, op);
    SizesAgree(s, ups, m);
    ups', seen := ups, [];
    match op
    case Read(k) =>
      var x := s.GetSlot(k);
      seen := [x];
    case Write(k, y) => s.SetSlot(k, y);
    case Capture(k) =>
      var u := s.FindUpval(k);
      ups' := ups + [u];
    case Inherit(h) => ups' := ups + [ups[h]];
    case ReadUp(h) =>
      var x := s.GetUpval(ups[h]);
      seen := [x];
    case WriteUp(h, y) => s.SetUpval(ups[h], y);
    case Leave(level) => s.Close(level);
    case Grow(newsize, at) =>
      OpenKept(s, ups, m, newsize);
      s.ReallocStack(newsize, at);
  }

  lemma SizesAgree(s: State, ups: seq<UpVal>, m: Machine)
    requires Represents(s, ups, m)
    ensures s.mem.Length == |m.vars.slots|
  {}

  lemma OpenKept(s: State, ups: seq<UpVal>, m: Machine, newsize: nat)
    requires Represents(s, ups, m) && Can(m, Grow(newsize, 0))
    ensures forall u :: u in s.open ==> u.v.Stack? && u.v.addr - s.stack < RealSize(newsize)
  {
    forall u | u in s.open ensures u.v.Stack? && u.v.addr - s.stack < RealSize(newsize) { assert s.Stands(u); }
  }

  /** In every run, closures and the stack agree on each variable: before its scope is left, after it, and
      across relocations of the stack, every read gives what the machine of variables gives. */
  method Run(s: State, ops: seq<Op>) returns (seen: seq<Value>)
    requires s.Valid() && s.all == {} && Runs(Machine(s.vars, []), ops)
    modifies s, s.mem
    ensures s.Valid() && seen == old(AllSeen(Machine(s.vars, []), ops))
  {
    hide StandsFor, SameValues, Renewed, Resized, Assigned, After, Seen;
    ghost var m := Machine(s.vars, []);
    ghost var all := AllSeen(m, ops);
    var ups: seq<UpVal> := [];
    seen := [];
    var i := 0;
    Begins(s);
    while i < |ops|
      invariant 0 <= i <= |ops| && Represents(s, ups, m) && Runs(m, ops[i..]) && all == seen + AllSeen(m, ops[i..])
      invariant fresh(s.all) && (s.mem == old(s.mem) || fresh(s.mem))
    {
      assert ops[i..][0] == ops[i] && ops[i..][1..] == ops[i + 1..];
      var now;
      ghost var more := AllSeen(After(m, ops[i]), ops[i + 1..]);
      assert seen + (Seen(m, ops[i]) + more) == seen + Seen(m, ops[i]) + more;
      ups, now := Step(s, ups, ops[i], m);
      seen, m, i := seen + now, After(m, ops[i]), i + 1;
    }
  }

  lemma Begins(s: State)
    requires s.Valid() && s.all == {}
    ensures Represents(s, [], Machine(s.vars, []))
  {}
}
