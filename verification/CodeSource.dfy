/** Source expressions: their meaning, and the way runs take through their code. Neither looks at
    the code; CodeSafety proves that the code takes that way. */
module CodeSource {
  import opened Wrappers
  import opened CodeVm
  import opened CodeGen

  function Compare(e: Env, op: Rel, a: Value, b: Value): bool {
    match op
    case EQ => e.cmp(Eq, a, b)
    case NE => !e.cmp(Eq, a, b)
    case LT => e.cmp(Lt, a, b)
    case LE => e.cmp(Le, a, b)
    case GT => e.cmp(Lt, b, a)
    case GE => e.cmp(Le, b, a)
  }

  /** The value of an expression, as the reference manual defines it. */
  function Eval(e: Env, x: Exp, r: Regs): Value {
    match x
    case ENil => Nil
    case ETrue => Bool(true)
    case EFalse => Bool(false)
    case ENum(n) => Num(n)
    case EStr(s) => Str(s)
    case ELocal(i) => Get(r, i)
    case ECmp(op, a, b) => Bool(Compare(e, op, Eval(e, a, r), Eval(e, b, r)))
    case ENot(a) => Bool(IsFalse(Eval(e, a, r)))
    case EAnd(a, b) => if IsFalse(Eval(e, a, r)) then Eval(e, a, r) else Eval(e, b, r)
    case EOr(a, b) => if IsFalse(Eval(e, a, r)) then Eval(e, b, r) else Eval(e, a, r)
  }

  /** The locals an expression names are active. */
  predicate Scoped(x: Exp, nactvar: nat) {
    match x
    case ELocal(i) => i < nactvar
    case ECmp(_, a, b) => Scoped(a, nactvar) && Scoped(b, nactvar)
    case ENot(a) => Scoped(a, nactvar)
    case EAnd(a, b) => Scoped(a, nactvar) && Scoped(b, nactvar)
    case EOr(a, b) => Scoped(a, nactvar) && Scoped(b, nactvar)
    case _ => true
  }

  /** luaK_goiftrue and luaK_goiffalse: the truth of the constant is the wanted one, or the other. */
  predicate NoTest(k: Kind, want: bool) { if want then k.VK? || k.VKNum? || k.VTrue? else k.VNil? || k.VFalse? }

  predicate AlwaysJumps(k: Kind, want: bool) { if want then k.VFalse? else k.VTrue? }

  predicate ConstKind(k: Kind) { k.VNil? || k.VTrue? || k.VFalse? || k.VK? || k.VKNum? }

  /** The kind, apart from places in the code. */
  function Plain(k: Kind): Kind {
    match k case VReloc(_) => VReloc(0) case VJmp(_) => VJmp(0) case VLocal(r) => VNonReloc(r) case _ => k
  }

  /** What the generator finds: the kind, which of the lists have jumps, the constants. */
  datatype Shape = Shape(k: Kind, t: bool, f: bool, ks: seq<Value>)

  function Seen(g: Gen, v: Desc): Shape { Shape(Plain(v.k), v.t != [], v.f != [], g.ks) }

  function With(ks: seq<Value>, v: Value): seq<Value> { if IndexOf(ks, v) < |ks| then ks else ks + [v] }

  /** The constants after a jump on the truth `!want`, and after luaK_exp2RK. */
  function TestConsts(s: Shape, want: bool): seq<Value> {
    if s.k.VKNum? && !want then With(s.ks, Num(s.k.nval)) else s.ks
  }

  predicate FitsK(s: Shape) { (s.k.VNil? || s.k.VTrue? || s.k.VFalse? || s.k.VKNum?) && |s.ks| <= MAXINDEXRK }

  function OperandConsts(s: Shape): seq<Value> {
    if s.k.VKNum? then With(s.ks, Num(s.k.nval))
    else if FitsK(s) && !s.t && !s.f then With(s.ks, ConstOf(s.k))
    else s.ks
  }

  /** luaK_exp2RK emits nothing: a constant that fits the operand, or a local. */
  predicate Quiet(s: Shape) { !s.t && !s.f && (s.k.VNonReloc? || FitsK(s) || (s.k.VK? && s.k.info <= MAXINDEXRK)) }

  function ShapeOf(x: Exp, ks: seq<Value>): Shape {
    match x
    case ENil => Shape(VNil, false, false, ks)
    case ETrue => Shape(VTrue, false, false, ks)
    case EFalse => Shape(VFalse, false, false, ks)
    case ENum(n) => Shape(VKNum(n), false, false, ks)
    case EStr(s) => Shape(VK(IndexOf(ks, Str(s))), false, false, With(ks, Str(s)))
    case ELocal(r) => Shape(VNonReloc(r), false, false, ks)
    case ENot(a) => var s := ShapeOf(a, ks); Shape(NotKind(s.k), s.f, s.t, s.ks)
    case EAnd(a, b) =>
      var s := ShapeOf(a, ks);
      var u := ShapeOf(b, TestConsts(s, true));
      u.(f := u.f || s.f || !NoTest(s.k, true))
    case EOr(a, b) =>
      var s := ShapeOf(a, ks);
      var u := ShapeOf(b, TestConsts(s, false));
      u.(t := u.t || s.t || !NoTest(s.k, false))
    case ECmp(_, a, b) =>
      Shape(VJmp(0), false, false, OperandConsts(ShapeOf(b, OperandConsts(ShapeOf(a, ks)))))
  }

  function NotKind(k: Kind): Kind {
    if k.VNil? || k.VFalse? then VTrue else if ConstKind(k) then VFalse else if k.VJmp? then VJmp(0) else VReloc(0)
  }

  /** How control gets through the code of an expression: to its end, where it has value `x`, or
      out through the list of truth `side`; and the register that a TESTSET delivers with the
      pending jump that control is on, if it is on one. */
  datatype Way = Ends(x: Value, held: Option<Value>) | Leaves(side: bool, held: Option<Value>)

  /** The value that exp2reg puts into a register. */
  function Result(w: Way): Value {
    match w
    case Ends(x, _) => x
    case Leaves(side, held) => if held.Some? then held.val else Bool(side)
  }

  /** The way a condition goes. */
  predicate Decision(w: Way) {
    match w case Ends(x, _) => !IsFalse(x) case Leaves(side, _) => side
  }

  /** Going on after luaK_goiftrue or luaK_goiffalse, a jump still pending delivers what it did. */
  function HeldOn(k: Kind, want: bool, held: Option<Value>): Option<Value> { if NoTest(k, want) then held else None }

  /** Leaving there: the register tested; for a constant, what was pending: this is the fault. */
  function HeldOut(k: Kind, want: bool, x: Value, held: Option<Value>): Option<Value> {
    if AlwaysJumps(k, want) then held else if k.VReloc? || k.VJmp? then None else Some(x)
  }

  function Branch(w: Way, k: Kind, want: bool): Way {
    match w
    case Ends(x, held) =>
      if !IsFalse(x) == want then Ends(x, HeldOn(k, want, held)) else Leaves(!want, HeldOut(k, want, x, held))
    case Leaves(side, held) => if side == want then Ends(Bool(side), held) else w
  }

  function Negation(w: Way, k: Kind): Way {
    match w
    case Ends(x, held) => Ends(Bool(IsFalse(x)), if ConstKind(k) then held else None)
    case Leaves(side, _) => Leaves(!side, None)
  }

  function HeldStill(w: Way, s: Shape): Option<Value> { if Quiet(s) then w.held else None }

  /** The way of a run that comes to the expression with registers `r`, on a pending jump that
      delivers `held`, when the constants are `ks`. */
  function WayOf(e: Env, x: Exp, r: Regs, held: Option<Value>, ks: seq<Value>): Way
    decreases x
  {
    match x
    case ENot(a) => Negation(WayOf(e, a, r, held, ks), ShapeOf(a, ks).k)
    case EAnd(a, b) =>
      var s := ShapeOf(a, ks);
      var w := Branch(WayOf(e, a, r, held, ks), s.k, true);
      if w.Leaves? then w else WayOf(e, b, r, w.held, TestConsts(s, true))
    case EOr(a, b) =>
      var s := ShapeOf(a, ks);
      var w := Branch(WayOf(e, a, r, held, ks), s.k, false);
      if w.Leaves? then w else WayOf(e, b, r, w.held, TestConsts(s, false))
    case ECmp(op, a, b) =>
      var s := ShapeOf(a, ks);
      var w := WayOf(e, a, r, held, ks);
      var u := WayOf(e, b, r, HeldStill(w, s), OperandConsts(s));
      Ends(Bool(Compare(e, op, Result(w), Result(u))), None)
    case _ => Ends(Eval(e, x, r), held)
  }

  /** Only the locals matter. */
  lemma {:induction false} WayAgree(e: Env, x: Exp, r: Regs, r': Regs, held: Option<Value>, ks: seq<Value>, n: nat)
    requires Scoped(x, n) && Agree(r, r', n)
    ensures WayOf(e, x, r, held, ks) == WayOf(e, x, r', held, ks)
    decreases x
  {
    hide ShapeOf;
    match x {
      case ECmp(_, a, b) =>
        var s := ShapeOf(a, ks);
        WayAgree(e, a, r, r', held, ks, n);
        WayAgree(e, b, r, r', HeldStill(WayOf(e, a, r, held, ks), s), OperandConsts(s), n);
      case ENot(a) => WayAgree(e, a, r, r', held, ks, n);
      case EAnd(a, b) =>
        var s := ShapeOf(a, ks);
        WayAgree(e, a, r, r', held, ks, n);
        WayAgree(e, b, r, r', Branch(WayOf(e, a, r, held, ks), s.k, true).held, TestConsts(s, true), n);
      case EOr(a, b) =>
        var s := ShapeOf(a, ks);
        WayAgree(e, a, r, r', held, ks, n);
        WayAgree(e, b, r, r', Branch(WayOf(e, a, r, held, ks), s.k, false).held, TestConsts(s, false), n);
      case _ =>
    }
  }
}
