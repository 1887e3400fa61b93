/** Operator precedence: subexpr and its priority table (lparser.c). */
module ExprParse {
  import opened Wrappers

  datatype BinOpr = ADD | SUB | MUL | DIV | MOD | POW | CONCAT | NE | EQ | LT | LE | GT | GE | AND | OR

  datatype UnOpr = MINUS | NOT | LEN

  /** Tokens, as far as they matter to expressions; an atom is a whole simple expression. */
  datatype Token = Atom(n: nat) | Binary(op: BinOpr) | Not | Hash | Open | Close | Other

  datatype Tree = Leaf(n: nat) | Un(uop: UnOpr, e: Tree) | Bin(op: BinOpr, l: Tree, r: Tree) | Paren(e: Tree)

  datatype ParseError = UnexpectedSymbol | CloseExpected | TooManyLevels

  datatype Parsed = Ok(tree: Tree, rest: seq<Token>) | Err(error: ParseError)

  /** The table of priorities. */
  function Left(op: BinOpr): (p: nat)
    ensures p > 0
  {
    match op
    case ADD => 6 case SUB => 6 case MUL => 7 case DIV => 7 case MOD => 7 case POW => 10 case CONCAT => 5
    case AND => 2 case OR => 1 case _ => 3
  }

  function Right(op: BinOpr): nat {
    match op
    case ADD => 6 case SUB => 6 case MUL => 7 case DIV => 7 case MOD => 7 case POW => 9 case CONCAT => 4
    case AND => 2 case OR => 1 case _ => 3
  }

  const UNARY_PRIORITY := 8

  /** getunopr and getbinopr, of the current token. */
  function UnaryAt(ts: seq<Token>): Option<UnOpr> {
    if ts == [] then None
    else if ts[0] == Not then Some(NOT) else if ts[0] == Binary(SUB) then Some(MINUS) else if ts[0] == Hash then Some(LEN) else None
  }

  function BinaryAt(ts: seq<Token>): Option<BinOpr> { if ts != [] && ts[0].Binary? then Some(ts[0].op) else None }

  /** The left priority of the current token, 0 if it is no binary operator. */
  function Following(ts: seq<Token>): nat { if BinaryAt(ts).Some? then Left(BinaryAt(ts).val) else 0 }

  /** subexpr, `calls` C calls deep of at most `max`. */
  function SubExpr(ts: seq<Token>, limit: nat, calls: nat, max: nat): (p: Parsed)
    ensures p.Ok? ==> |p.rest| < |ts|
    decreases |ts|, 2
  {
    if calls >= max then Err(TooManyLevels) else
    match Operand(ts, calls + 1, max)
    case Err(e) => Err(e)
    case Ok(t, r) => Operators(t, r, limit, calls + 1, max)
  }

  /** The first operand: an operator and its own operand, or a simple expression. */
  function Operand(ts: seq<Token>, calls: nat, max: nat): (p: Parsed)
    ensures p.Ok? ==> |p.rest| < |ts|
    decreases |ts|, 1
  {
    if UnaryAt(ts).Some? then
      match SubExpr(ts[1..], UNARY_PRIORITY, calls, max)
      case Err(e) => Err(e)
      case Ok(t, r) => Ok(Un(UnaryAt(ts).val, t), r)
    else if ts == [] then Err(UnexpectedSymbol)
    else if ts[0].Atom? then Ok(Leaf(ts[0].n), ts[1..])
    else if ts[0] != Open then Err(UnexpectedSymbol)
    else
      match SubExpr(ts[1..], 0, calls, max)
      case Err(e) => Err(e)
      case Ok(t, r) => if r != [] && r[0] == Close then Ok(Paren(t), r[1..]) else Err(CloseExpected)
  }

  /** The loop over operators whose left priority is higher than the limit. */
  function Operators(t: Tree, ts: seq<Token>, limit: nat, calls: nat, max: nat): (p: Parsed)
    ensures p.Ok? ==> |p.rest| <= |ts|
    decreases |ts|, 0
  {
    if Following(ts) <= limit then Ok(t, ts) else
    match SubExpr(ts[1..], Right(ts[0].op), calls, max)
    case Err(e) => Err(e)
    case Ok(r, q) => Operators(Bin(ts[0].op, t, r), q, limit, calls, max)
  }

  function UnaryToken(u: UnOpr): Token { match u case MINUS => Binary(SUB) case NOT => Not case LEN => Hash }

  /** The tokens of a tree. */
  function Flat(t: Tree): (ts: seq<Token>)
    ensures ts != []
  {
    match t
    case Leaf(n) => [Atom(n)]
    case Un(u, e) => [UnaryToken(u)] + Flat(e)
    case Bin(op, l, r) => Flat(l) + ([Binary(op)] + Flat(r))
    case Paren(e) => [Open] + (Flat(e) + [Close])
  }

  /** The priorities allow the tree where operators above `limit` are taken in, and an operator with left
      priority `follow` comes next: no operand would lose that operator, or miss one of its own. */
  predicate Allowed(t: Tree, limit: nat, follow: nat) {
    match t
    case Leaf(_) => true
    case Un(_, e) => follow <= UNARY_PRIORITY && Allowed(e, UNARY_PRIORITY, follow)
    case Bin(op, l, r) => Left(op) > limit && follow <= Right(op) && Allowed(l, limit, Left(op)) && Allowed(r, Right(op), follow)
    case Paren(e) => Allowed(e, 0, 0)
  }

  function Max(a: nat, b: nat): nat { if a < b then b else a }

  /** How many more activations of subexpr the tree takes. */
  function Levels(t: Tree): nat {
    match t
    case Leaf(_) => 0
    case Un(_, e) => 1 + Levels(e)
    case Bin(_, l, r) => Max(Levels(l), 1 + Levels(r))
    case Paren(e) => 1 + Levels(e)
  }

  /** What subexpr returns is a tree of the tokens it has read, and the priorities allow it. */
  lemma {:induction false} Sound(ts: seq<Token>, limit: nat, calls: nat, max: nat)
    requires SubExpr(ts, limit, calls, max).Ok?
    ensures var p := SubExpr(ts, limit, calls, max);
      Flat(p.tree) + p.rest == ts && Allowed(p.tree, limit, Following(p.rest)) && Following(p.rest) <= limit
    decreases |ts|, 2
  {
    var p := Operand(ts, calls + 1, max);
    SoundOperand(ts, limit, calls + 1, max);
    SoundOperators(p.tree, p.rest, limit, calls + 1, max);
  }

  lemma {:induction false} SoundOperand(ts: seq<Token>, limit: nat, calls: nat, max: nat)
    requires Operand(ts, calls, max).Ok?
    ensures var p := Operand(ts, calls, max); Flat(p.tree) + p.rest == ts && Allowed(p.tree, limit, Following(p.rest))
    decreases |ts|, 1
  {
    var p := Operand(ts, calls, max);
    if UnaryAt(ts).Some? {
      Sound(ts[1..], UNARY_PRIORITY, calls, max);
      assert Flat(p.tree) + p.rest == [UnaryToken(p.tree.uop)] + (Flat(p.tree.e) + p.rest);
    } else if ts[0] == Open {
      Sound(ts[1..], 0, calls, max);
      var q := SubExpr(ts[1..], 0, calls, max);
      assert Flat(p.tree) + p.rest == [Open] + (Flat(q.tree) + ([Close] + p.rest));
      assert [Close] + p.rest == q.rest;
    }
  }

  lemma {:induction false} SoundOperators(t: Tree, ts: seq<Token>, limit: nat, calls: nat, max: nat)
    requires Operators(t, ts, limit, calls, max).Ok? && Allowed(t, limit, Following(ts))
    ensures var p := Operators(t, ts, limit, calls, max);
      Flat(p.tree) + p.rest == Flat(t) + ts && Allowed(p.tree, limit, Following(p.rest)) && Following(p.rest) <= limit
    decreases |ts|, 0
  {
    hide Left, Right, SubExpr, Operand;
    if Following(ts) > limit {
      var q := SubExpr(ts[1..], Right(ts[0].op), calls, max);
      Sound(ts[1..], Right(ts[0].op), calls, max);
      BinarySound(t, ts[0].op, q.tree, ts, q.rest, limit);
      SoundOperators(Bin(ts[0].op, t, q.tree), q.rest, limit, calls, max);
    }
  }

  lemma BinarySound(t: Tree, op: BinOpr, r: Tree, ts: seq<Token>, rest: seq<Token>, limit: nat)
    requires ts != [] && ts[0] == Binary(op) && Flat(r) + rest == ts[1..] && Left(op) > limit && Following(rest) <= Right(op)
    requires Allowed(t, limit, Left(op)) && Allowed(r, Right(op), Following(rest))
    ensures Flat(Bin(op, t, r)) + rest == Flat(t) + ts && Allowed(Bin(op, t, r), limit, Following(rest))
  {
    hide Left, Right;
    assert Flat(Bin(op, t, r)) + rest == Flat(t) + ([Binary(op)] + (Flat(r) + rest));
    assert [Binary(op)] + ts[1..] == ts;
  }

  /** Reading a tree that the priorities allow comes to the loop that follows it, unless the levels are
      exceeded. */
  lemma {:induction false} Reads(t: Tree, rest: seq<Token>, limit: nat, calls: nat, max: nat)
    requires Allowed(t, limit, Following(rest))
    ensures SubExpr(Flat(t) + rest, limit, calls, max)
      == if calls + 1 + Levels(t) <= max then Operators(t, rest, limit, calls + 1, max) else Err(TooManyLevels)
    decreases t, 1
  {
    hide Left, Right, Operators;
    if t.Bin? {
      ReadsBinary(t, rest, limit, calls, max);
    } else if calls < max {
      ReadsOperand(t, rest, limit, calls + 1, max);
    }
  }

  lemma {:induction false} ReadsOperand(t: Tree, rest: seq<Token>, limit: nat, calls: nat, max: nat)
    requires !t.Bin? && calls <= max && Allowed(t, limit, Following(rest))
    ensures Operand(Flat(t) + rest, calls, max) == if calls + Levels(t) <= max then Ok(t, rest) else Err(TooManyLevels)
    decreases t, 0
  {
    hide Left, Right, SubExpr;
    var ts := Flat(t) + rest;
    if t.Leaf? {
      assert ts[1..] == rest;
    } else if t.Un? {
      assert ts[0] == UnaryToken(t.uop) && ts[1..] == Flat(t.e) + rest;
      Reads(t.e, rest, UNARY_PRIORITY, calls, max);
    } else {
      var inner := [Close] + rest;
      assert ts[0] == Open && ts[1..] == Flat(t.e) + inner && inner[1..] == rest;
      Reads(t.e, inner, 0, calls, max);
    }
  }

  lemma {:induction false} ReadsBinary(t: Tree, rest: seq<Token>, limit: nat, calls: nat, max: nat)
    requires t.Bin? && Allowed(t, limit, Following(rest))
    ensures SubExpr(Flat(t) + rest, limit, calls, max)
      == if calls + 1 + Levels(t) <= max then Operators(t, rest, limit, calls + 1, max) else Err(TooManyLevels)
    decreases t, 0
  {
    hide Left, Right, SubExpr, Operand;
    var more := [Binary(t.op)] + (Flat(t.r) + rest);
    assert Flat(t) + rest == Flat(t.l) + more && more[1..] == Flat(t.r) + rest;
    Reads(t.l, more, limit, calls, max);
    Reads(t.r, rest, Right(t.op), calls + 1, max);
  }

  /** expr: it reads exactly the trees that the priorities allow. */
  lemma ReadsAllowed(t: Tree, rest: seq<Token>, calls: nat, max: nat)
    requires Allowed(t, 0, 0) && Following(rest) == 0
    ensures SubExpr(Flat(t) + rest, 0, calls, max) == if calls + 1 + Levels(t) <= max then Ok(t, rest) else Err(TooManyLevels)
  {
    Reads(t, rest, 0, calls, max);
  }

  /** Of all trees with the same tokens, the priorities allow at most one. */
  lemma Unique(t: Tree, u: Tree)
    requires Allowed(t, 0, 0) && Allowed(u, 0, 0) && Flat(t) == Flat(u)
    ensures t == u
  {
    var max := 1 + Max(Levels(t), Levels(u));
    ReadsAllowed(t, [], 0, max);
    ReadsAllowed(u, [], 0, max);
  }

  /** The tree without parentheses. */
  function Erased(t: Tree): Tree {
    match t
    case Leaf(_) => t
    case Un(u, e) => Un(u, Erased(e))
    case Bin(op, l, r) => Bin(op, Erased(l), Erased(r))
    case Paren(e) => Erased(e)
  }

  predicate NoParens(t: Tree) {
    match t
    case Leaf(_) => true
    case Un(_, e) => NoParens(e)
    case Bin(_, l, r) => NoParens(l) && NoParens(r)
    case Paren(_) => false
  }

  predicate Bare(t: Tree, limit: nat, follow: nat) {
    match t
    case Un(_, _) => follow <= UNARY_PRIORITY
    case Bin(op, _, _) => Left(op) > limit && follow <= Right(op)
    case _ => true
  }

  /** Parentheses are put only where the priorities require them. */
  function Parenthesized(t: Tree, limit: nat, follow: nat): Tree
    decreases t, 1
  { if Bare(t, limit, follow) then Inside(t, limit, follow) else Paren(Inside(t, 0, 0)) }

  function Inside(t: Tree, limit: nat, follow: nat): Tree
    decreases t, 0
  {
    match t
    case Un(u, e) => Un(u, Parenthesized(e, UNARY_PRIORITY, follow))
    case Bin(op, l, r) => Bin(op, Parenthesized(l, limit, Left(op)), Parenthesized(r, Right(op), follow))
    case _ => t
  }

  lemma {:induction false} ParenthesizedRight(t: Tree, limit: nat, follow: nat)
    requires NoParens(t)
    ensures var p := Parenthesized(t, limit, follow); Allowed(p, limit, follow) && Erased(p) == t
    decreases t, 1
  {
    if Bare(t, limit, follow) { InsideRight(t, limit, follow); } else { InsideRight(t, 0, 0); }
  }

  lemma {:induction false} InsideRight(t: Tree, limit: nat, follow: nat)
    requires NoParens(t) && Bare(t, limit, follow)
    ensures var p := Inside(t, limit, follow); Allowed(p, limit, follow) && Erased(p) == t
    decreases t, 0
  {
    match t
    case Leaf(_) =>
    case Un(_, e) => ParenthesizedRight(e, UNARY_PRIORITY, follow);
    case Bin(op, l, r) =>
      ParenthesizedRight(l, limit, Left(op));
      ParenthesizedRight(r, Right(op), follow);
  }

  /** Where parentheses were put, the priorities allow no tree of the same meaning without them. */
  lemma ParensNeeded(t: Tree, limit: nat, follow: nat, u: Tree)
    requires NoParens(t) && Parenthesized(t, limit, follow).Paren? && Erased(u) == t && !u.Paren?
    ensures !Allowed(u, limit, follow)
  {}

  /** `u` is `p` with one pair of parentheses removed, anywhere. */
  predicate OneLess(p: Tree, u: Tree) {
    match p
    case Leaf(_) => false
    case Un(op, e) => u.Un? && u.uop == op && OneLess(e, u.e)
    case Bin(op, l, r) => u.Bin? && u.op == op && ((u.r == r && OneLess(l, u.l)) || (u.l == l && OneLess(r, u.r)))
    case Paren(e) => u == e || (u.Paren? && OneLess(e, u.e))
  }

  /** The printed tree is minimal: without any one of its pairs the priorities do not allow it. */
  lemma {:induction false} Minimal(t: Tree, limit: nat, follow: nat, u: Tree)
    requires NoParens(t) && OneLess(Parenthesized(t, limit, follow), u)
    ensures !Allowed(u, limit, follow)
    decreases t, 1
  {
    if Bare(t, limit, follow) { MinimalInside(t, limit, follow, u); }
    else if u == Inside(t, 0, 0) {
      InsideRight(t, 0, 0);
      ParensNeeded(t, limit, follow, u);
    } else { MinimalInside(t, 0, 0, u.e); }
  }

  lemma {:induction false} MinimalInside(t: Tree, limit: nat, follow: nat, u: Tree)
    requires NoParens(t) && OneLess(Inside(t, limit, follow), u)
    ensures !Allowed(u, limit, follow)
    decreases t, 0
  {
    match t {
      case Leaf(_) =>
      case Un(_, e) => Minimal(e, UNARY_PRIORITY, follow, u.e);
      case Bin(op, l, r) =>
        if OneLess(Parenthesized(l, limit, Left(op)), u.l) { Minimal(l, limit, Left(op), u.l); }
        else { Minimal(r, Right(op), follow, u.r); }
    }
  }

  /** Printing any tree with parentheses only where they are needed, and parsing it again, gives the
      same tree. */
  lemma PrintParse(t: Tree, rest: seq<Token>, calls: nat, max: nat)
    requires NoParens(t) && Following(rest) == 0
    ensures var p := Parenthesized(t, 0, 0);
      Erased(p) == t && SubExpr(Flat(p) + rest, 0, calls, max) == if calls + 1 + Levels(p) <= max then Ok(p, rest) else Err(TooManyLevels)
  {
    ParenthesizedRight(t, 0, 0);
    ReadsAllowed(Parenthesized(t, 0, 0), rest, calls, max);
  }

  datatype Outcome = Got(tree: Tree, next: Option<BinOpr>) | Threw(error: ParseError)

  ghost predicate Follows(p: Parsed, o: Outcome, rest: seq<Token>) {
    match p
    case Ok(t, r) => o == Got(t, BinaryAt(r)) && rest == r
    case Err(e) => o == Threw(e)
  }

  class LexState {
    const max: nat           // LUAI_MAXCCALLS
    var input: seq<Token>    // from the current token on
    var nCcalls: nat

    constructor (input: seq<Token>, calls: nat, max: nat)
      ensures this.input == input && nCcalls == calls && this.max == max
    {
      this.input, nCcalls, this.max := input, calls, max;
    }

    /** subexpr: the tree, and the first operator that was not taken in. */
    method ParseSubExpr(limit: nat) returns (o: Outcome)
      modifies this
      ensures Follows(SubExpr(old(input), limit, old(nCcalls), max), o, input)
      ensures o.Got? ==> nCcalls == old(nCcalls)
      decreases |input|, 1
    {
      hide Left, Right;
      ghost var calls := nCcalls;
      nCcalls := nCcalls + 1;
      if nCcalls > max { return Threw(TooManyLevels); }
      o := ParseOperand();
      if o.Threw? { return; }
      ghost var all := Operators(o.tree, input, limit, calls + 1, max);
      var tree, op := o.tree, o.next;
      while op.Some? && Left(op.val) > limit
        invariant op == BinaryAt(input) && nCcalls == calls + 1 && |input| < |old(input)|
        invariant Operators(tree, input, limit, calls + 1, max) == all
        decreases |input|
      {
        input := input[1..];
        o := ParseSubExpr(Right(op.val));
        if o.Threw? { return; }
        tree, op := Bin(op.val, tree, o.tree), o.next;
      }
      nCcalls := nCcalls - 1;
      o := Got(tree, op);
    }

    /** The operand that subexpr begins with, and simpleexp. */
    method ParseOperand() returns (o: Outcome)
      modifies this
      ensures Follows(Operand(old(input), old(nCcalls), max), o, input)
      ensures o.Got? ==> nCcalls == old(nCcalls)
      decreases |input|, 0
    {
      var uop := UnaryAt(input);
      if uop.Some? {
        input := input[1..];
        o := ParseSubExpr(UNARY_PRIORITY);
        if o.Got? { o := Got(Un(uop.val, o.tree), o.next); }
        return;
      }
      if input == [] { return Threw(UnexpectedSymbol); }
      if input[0].Atom? {
        var t := Leaf(input[0].n);
        input := input[1..];
        return Got(t, BinaryAt(input));
      }
      if input[0] != Open { return Threw(UnexpectedSymbol); }
      input := input[1..];
      o := ParseSubExpr(0);
      if o.Threw? { return; }
      if input == [] || input[0] != Close { return Threw(CloseExpected); }
      input := input[1..];
      o := Got(Paren(o.tree), BinaryAt(input));
    }
  }
}
