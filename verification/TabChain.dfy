/** The hash part of a table: a chained scatter with Brent's variation (ltable.c). A node's `next`
    is an index, or -1. */
module TabChain {
  import opened Wrappers

  /** Keys as mainposition tells them apart. Strings are interned, so `id` identifies one. */
  datatype Key = Bool(b: bool) | Num(n: int) | Str(id: nat, hash: nat) | Ptr(addr: nat)

  datatype Value = Nil | Val(x: int)

  datatype Node = Node(key: Option<Key>, val: Value, next: int)

  function Mod(n: nat, size: nat): (r: nat)
    requires size > 0
    ensures r < size
  {
    n % size
  }

  /** hashmod: modulo `(size - 1) | 1`, for a power of two. */
  function HashMod(n: nat, size: nat): (r: nat)
    requires size > 0
    ensures r < size
  {
    Mod(n, if size > 1 then size - 1 else 1)
  }

  /** mainposition. Numbers are 32-bit integers. */
  function MainPos(k: Key, size: nat): (r: nat)
    requires size > 0
    ensures r < size
  {
    match k
    case Bool(b) => Mod(if b then 1 else 0, size)
    case Num(n) => if n == 0 then 0 else HashMod(n % 0x1_0000_0000, size)
    case Str(_, h) => Mod(h, size)
    case Ptr(p) => HashMod(p, size)
  }

  type Chains = seq<seq<nat>>

  /** The next node on a chain. */
  function After(c: seq<nat>, a: nat): int
    requires a < |c|
  { if a + 1 < |c| then c[a + 1] else -1 }

  /** `chain[i]` is the chain node `i` is on: distinct nodes, each linked to the following one. */
  ghost predicate ChainAt(t: seq<Node>, chain: Chains, i: nat)
    requires i < |t| == |chain|
  {
    var c := chain[i];
    && i in c
    && (forall a :: 0 <= a < |c| ==> c[a] < |t| && chain[c[a]] == c && t[c[a]].next == After(c, a))
    && (forall a, b :: 0 <= a < b < |c| ==> c[a] != c[b])
  }

  ghost predicate ChainsOk(t: seq<Node>, chain: Chains) {
    |t| == |chain| && forall i :: 0 <= i < |t| ==> ChainAt(t, chain, i)
  }

  /** Node `m` comes before node `i` on the chain `c`, or is it. */
  ghost predicate Before(c: seq<nat>, m: nat, i: nat) {
    exists a, b :: 0 <= a <= b < |c| && c[a] == m && c[b] == i
  }

  predicate Keyed(t: seq<Node>, i: nat) { i < |t| && t[i].key.Some? }

  function MainOf(t: seq<Node>, i: nat): (m: nat)
    requires Keyed(t, i)
    ensures m < |t|
  {
    MainPos(t[i].key.val, |t|)
  }

  /** What every node satisfies: a keyed one is reachable from its main position, which then holds a
      key of that main position; a free one stands alone. */
  ghost predicate NodeOk(t: seq<Node>, chain: Chains, i: nat)
    requires i < |t| == |chain|
  {
    if t[i].key.Some? then
      && Before(chain[i], MainOf(t, i), i)
      && Keyed(t, MainOf(t, i)) && MainOf(t, MainOf(t, i)) == MainOf(t, i)
    else t[i].val == Nil && t[i].next == -1 && chain[i] == [i]
  }

  ghost predicate Distinct(t: seq<Node>) {
    forall i, j :: 0 <= i < j < |t| && Keyed(t, i) && Keyed(t, j) ==> t[i].key != t[j].key
  }

  ghost predicate HashOk(t: seq<Node>, chain: Chains) {
    && |t| > 0 && ChainsOk(t, chain) && Distinct(t) && forall i :: 0 <= i < |t| ==> NodeOk(t, chain, i)
  }

  ghost predicate Has(t: seq<Node>, k: Key) { exists i :: 0 <= i < |t| && t[i].key == Some(k) }

  /** The value of a key in the hash part. */
  ghost function ValueOf(t: seq<Node>, k: Key): Value {
    if Has(t, k) then (var i :| 0 <= i < |t| && t[i].key == Some(k); t[i].val) else Nil
  }

  lemma ValueAt(t: seq<Node>, k: Key, i: nat)
    requires Distinct(t) && i < |t| && t[i].key == Some(k)
    ensures Has(t, k) && ValueOf(t, k) == t[i].val
  {
    var j :| 0 <= j < |t| && t[j].key == Some(k) && ValueOf(t, k) == t[j].val;
    assert Keyed(t, i) && Keyed(t, j);
  }

  /** A free node, or one whose value is nil, in the main position of a new key takes the key. */
  lemma PutOver(t: seq<Node>, chain: Chains, k: Key)
    requires HashOk(t, chain) && !Has(t, k) && t[MainPos(k, |t|)].val == Nil
    ensures var m := MainPos(k, |t|); HashOk(t[m := Node(Some(k), Nil, t[m].next)], chain)
  {
    var m := MainPos(k, |t|);
    var t' := t[m := Node(Some(k), Nil, t[m].next)];
    forall i | 0 <= i < |t| ensures ChainAt(t', chain, i) && NodeOk(t', chain, i) {
      assert ChainAt(t, chain, i) && NodeOk(t, chain, i);
      if i == m {
        var a :| 0 <= a < |chain[i]| && chain[i][a] == i;
        assert Before(chain[i], m, i);
      }
    }
    forall i, j | 0 <= i < j < |t'| && Keyed(t', i) && Keyed(t', j) ensures t'[i].key != t'[j].key {
      assert i != m ==> Keyed(t, i);
      assert j != m ==> Keyed(t, j);
    }
  }

  function Spliced(c: seq<nat>, a: nat, n: nat): seq<nat>
    requires a < |c|
  { c[..a + 1] + [n] + c[a + 1..] }

  /** The chains once all nodes of `c` are on it. */
  function Rechained(chain: Chains, c: seq<nat>): (r: Chains)
    ensures |r| == |chain| && forall i :: 0 <= i < |r| ==> r[i] == if i in c then c else chain[i]
  {
    seq(|chain|, i requires 0 <= i < |chain| => if i in c then c else chain[i])
  }

  /** The colliding node is in its own main position: the new key goes to the free node `n`, which is
      chained behind it. */
  function InsertedAfter(t: seq<Node>, k: Key, m: nat, n: nat): seq<Node>
    requires m < |t| && n < |t|
  {
    t[n := Node(Some(k), Nil, t[m].next)][m := t[m].(next := n)]
  }

  lemma SplicedAt(c: seq<nat>, a: nat, n: nat, b: nat)
    requires a < |c| && b <= |c|
    ensures Spliced(c, a, n)[b] == if b <= a then c[b] else if b == a + 1 then n else c[b - 1]
  {}

  /** A node that is on a chain is on its own chain. */
  lemma OnChain(t: seq<Node>, chain: Chains, i: nat, j: nat)
    requires ChainsOk(t, chain) && i < |t| && j in chain[i]
    ensures j < |t| && chain[j] == chain[i]
  {
    assert ChainAt(t, chain, i);
    var a :| 0 <= a < |chain[i]| && chain[i][a] == j;
  }

  lemma SplicedIn(c: seq<nat>, a: nat, n: nat, x: nat)
    requires a < |c|
    ensures x in Spliced(c, a, n) <==> x in c || x == n
  {
    var d := Spliced(c, a, n);
    if x in c {
      var b :| 0 <= b < |c| && c[b] == x;
      SplicedAt(c, a, n, b);
      SplicedAt(c, a, n, b + 1);
      assert d[if b <= a then b else b + 1] == x;
    }
    SplicedAt(c, a, n, a + 1);
    assert d[a + 1] == n;
  }

  /** The order of a chain survives a splice. */
  lemma SplicedBefore(c: seq<nat>, a: nat, n: nat, m: nat, i: nat)
    requires a < |c| && Before(c, m, i)
    ensures Before(Spliced(c, a, n), m, i)
  {
    var d := Spliced(c, a, n);
    var x, y :| 0 <= x <= y < |c| && c[x] == m && c[y] == i;
    var x' := if x <= a then x else x + 1;
    var y' := if y <= a then y else y + 1;
    SplicedAt(c, a, n, x');
    SplicedAt(c, a, n, y');
    assert d[x'] == m && d[y'] == i;
  }

  lemma Link(t: seq<Node>, chain: Chains, i: nat, a: nat)
    requires i < |t| == |chain| && ChainAt(t, chain, i) && a < |chain[i]|
    ensures var c := chain[i]; c[a] < |t| && chain[c[a]] == c && t[c[a]].next == After(c, a)
  {}

  /** A chain none of whose nodes is written, or moves to another chain, stays. */
  lemma ChainStays(t: seq<Node>, chain: Chains, t': seq<Node>, chain': Chains, i: nat)
    requires i < |t| == |chain| == |t'| == |chain'| && ChainAt(t, chain, i)
    requires forall j :: j in chain[i] && j < |t| ==> chain'[j] == chain[j] && t'[j].next == t[j].next
    ensures ChainAt(t', chain', i)
  {
    var c := chain[i];
    assert i in c && chain'[i] == c;
    forall a | 0 <= a < |c| ensures c[a] < |t| && chain'[c[a]] == c && t'[c[a]].next == After(c, a) {
      Link(t, chain, i, a);
      assert c[a] in c;
    }
    ChainDistinct(t, chain, i);
    IsChain(t', chain', i);
  }

  lemma SplicedLinks(t: seq<Node>, chain: Chains, k: Key, m: nat, n: nat, a: nat, b: nat)
    requires m < |t| == |chain| && n < |t| && m != n && ChainAt(t, chain, m) && n !in chain[m]
    requires a < |chain[m]| && chain[m][a] == m && b <= |chain[m]|
    ensures var d := Spliced(chain[m], a, n);
      d[b] < |t| && InsertedAfter(t, k, m, n)[d[b]].next == After(d, b)
  {
    hide ChainAt, Spliced;
    var c := chain[m];
    SplicedSize(c, a, n);
    SplicedAt(c, a, n, b);
    if b < |c| { SplicedAt(c, a, n, b + 1); }
    ChainDistinct(t, chain, m);
    Link(t, chain, m, a);
    if b <= a { Link(t, chain, m, b); assert c[b] in c; }
    else if b > a + 1 { Link(t, chain, m, b - 1); assert c[b - 1] in c; }
  }

  lemma SplicedDistinct(c: seq<nat>, a: nat, n: nat)
    requires a < |c| && n !in c && forall x, y :: 0 <= x < y < |c| ==> c[x] != c[y]
    ensures var d := Spliced(c, a, n); forall x, y :: 0 <= x < y < |d| ==> d[x] != d[y]
  {
    var d := Spliced(c, a, n);
    forall x, y | 0 <= x < y < |d| ensures d[x] != d[y] {
      SplicedAt(c, a, n, x);
      SplicedAt(c, a, n, y);
      assert x != a + 1 ==> d[x] in c;
      assert y != a + 1 ==> d[y] in c;
    }
  }

  /** A free node is on no other chain. */
  lemma FreeOff(t: seq<Node>, chain: Chains, m: nat, n: nat)
    requires HashOk(t, chain) && m < |t| && n < |t| && t[n].key.None? && m != n
    ensures n !in chain[m] && m !in chain[n]
  {
    assert NodeOk(t, chain, n) && ChainAt(t, chain, m);
    if n in chain[m] { OnChain(t, chain, m, n); }
  }

  lemma ChainOf(t: seq<Node>, chain: Chains, i: nat)
    requires HashOk(t, chain) && i < |t|
    ensures |t| == |chain| && ChainAt(t, chain, i) && i in chain[i]
  {}

  lemma NewChain(t: seq<Node>, chain: Chains, k: Key, m: nat, n: nat, a: nat, i: nat)
    requires m < |t| == |chain| && n < |t| && m != n && ChainAt(t, chain, m) && n !in chain[m] && i < |t|
    requires a < |chain[m]| && chain[m][a] == m && i in Spliced(chain[m], a, n)
    ensures ChainAt(InsertedAfter(t, k, m, n), Rechained(chain, Spliced(chain[m], a, n)), i)
  {
    hide ChainAt, Spliced, InsertedAfter;
    var d := Spliced(chain[m], a, n);
    var t' := InsertedAfter(t, k, m, n);
    var chain' := Rechained(chain, d);
    ChainDistinct(t, chain, m);
    SplicedDistinct(chain[m], a, n);
    InsertedSize(t, k, m, n);
    forall b | 0 <= b < |d| ensures d[b] < |t| && chain'[d[b]] == d && t'[d[b]].next == After(d, b) {
      SplicedSize(chain[m], a, n);
      SplicedLinks(t, chain, k, m, n, a, b);
      assert d[b] in d;
    }
    IsChain(t', chain', i);
  }

  lemma InsertedSize(t: seq<Node>, k: Key, m: nat, n: nat)
    requires m < |t| && n < |t|
    ensures |InsertedAfter(t, k, m, n)| == |t|
    ensures forall i :: 0 <= i < |t| && i != m && i != n ==> InsertedAfter(t, k, m, n)[i] == t[i]
  {}

  lemma SplicedChain(t: seq<Node>, chain: Chains, k: Key, m: nat, n: nat, a: nat, i: nat)
    requires HashOk(t, chain) && m < |t| && n < |t| && t[n].key.None? && m != n && i < |t|
    requires a < |chain[m]| && chain[m][a] == m
    ensures ChainAt(InsertedAfter(t, k, m, n), Rechained(chain, Spliced(chain[m], a, n)), i)
  {
    hide HashOk, ChainAt, Spliced, InsertedAfter;
    ChainOf(t, chain, m);
    ChainOf(t, chain, i);
    var c := chain[m];
    var d := Spliced(c, a, n);
    var t' := InsertedAfter(t, k, m, n);
    InsertedSize(t, k, m, n);
    FreeOff(t, chain, m, n);
    SplicedIn(c, a, n, i);
    if i in d {
      NewChain(t, chain, k, m, n, a, i);
    } else {
      OffChain(t, chain, n, i);
      forall j | j in chain[i] && j < |t| ensures Rechained(chain, d)[j] == chain[j] && t'[j].next == t[j].next {
        Elsewhere(t, chain, m, i, j);
        SplicedIn(c, a, n, j);
        Elsewhere(t, chain, n, i, j);
      }
      ChainStays(t, chain, t', Rechained(chain, d), i);
    }
  }

  lemma OffChain(t: seq<Node>, chain: Chains, n: nat, i: nat)
    requires HashOk(t, chain) && n < |t| && i < |t| && t[n].key.None? && i != n
    ensures i !in chain[n]
  {
    assert NodeOk(t, chain, n);
  }

  lemma ChainDistinct(t: seq<Node>, chain: Chains, i: nat)
    requires i < |t| == |chain| && ChainAt(t, chain, i)
    ensures forall x, y :: 0 <= x < y < |chain[i]| ==> chain[i][x] != chain[i][y]
  {}

  lemma SplicedSize(c: seq<nat>, a: nat, n: nat)
    requires a < |c|
    ensures |Spliced(c, a, n)| == |c| + 1
  {}

  lemma IsChain(t: seq<Node>, chain: Chains, i: nat)
    requires i < |t| == |chain| && i in chain[i]
    requires var c := chain[i]; forall b :: 0 <= b < |c| ==> c[b] < |t| && chain[c[b]] == c && t[c[b]].next == After(c, b)
    requires forall x, y :: 0 <= x < y < |chain[i]| ==> chain[i][x] != chain[i][y]
    ensures ChainAt(t, chain, i)
  {}

  /** Nodes of a chain that `m` is not on are not on the chain of `m`. */
  lemma Elsewhere(t: seq<Node>, chain: Chains, m: nat, i: nat, j: nat)
    requires HashOk(t, chain) && m < |t| && i < |t| && i !in chain[m] && j in chain[i]
    ensures j !in chain[m] && j != m
  {
    OnChain(t, chain, i, j);
    assert ChainAt(t, chain, i) && ChainAt(t, chain, m);
    if j in chain[m] { OnChain(t, chain, m, j); }
  }

  lemma PutAfter(t: seq<Node>, chain: Chains, k: Key, n: nat, a: nat)
    requires HashOk(t, chain) && !Has(t, k) && n < |t| && t[n].key.None?
    requires var m := MainPos(k, |t|); Keyed(t, m) && MainOf(t, m) == m && a < |chain[m]| && chain[m][a] == m
    ensures var m := MainPos(k, |t|); HashOk(InsertedAfter(t, k, m, n), Rechained(chain, Spliced(chain[m], a, n)))
  {
    var m := MainPos(k, |t|);
    var c := chain[m];
    var d := Spliced(c, a, n);
    var t' := InsertedAfter(t, k, m, n);
    var chain' := Rechained(chain, d);
    forall i | 0 <= i < |t| ensures ChainAt(t', chain', i) { SplicedChain(t, chain, k, m, n, a, i); }
    forall i | 0 <= i < |t| ensures NodeOk(t', chain', i) {
      SplicedNode(t, chain, k, n, a, i);
    }
    AddedDistinct(t, t', k, n);
  }

  lemma AddedDistinct(t: seq<Node>, t': seq<Node>, k: Key, n: nat)
    requires Distinct(t) && !Has(t, k) && n < |t| == |t'| && t'[n].key == Some(k)
    requires forall i :: 0 <= i < |t| && i != n ==> t'[i].key == t[i].key || t'[i].key.None?
    ensures Distinct(t')
  {
    forall i, j | 0 <= i < j < |t'| && Keyed(t', i) && Keyed(t', j) ensures t'[i].key != t'[j].key {
      assert i != n ==> Keyed(t, i);
      assert j != n ==> Keyed(t, j);
    }
  }

  lemma SplicedNode(t: seq<Node>, chain: Chains, k: Key, n: nat, a: nat, i: nat)
    requires HashOk(t, chain) && |t| == |chain| && n < |t| && t[n].key.None? && i < |t|
    requires var m := MainPos(k, |t|); Keyed(t, m) && MainOf(t, m) == m && a < |chain[m]| && chain[m][a] == m
    ensures var m := MainPos(k, |t|); NodeOk(InsertedAfter(t, k, m, n), Rechained(chain, Spliced(chain[m], a, n)), i)
  {
    hide ChainsOk, Distinct, Spliced, Before;
    var m := MainPos(k, |t|);
    var c := chain[m];
    var d := Spliced(c, a, n);
    SplicedIn(c, a, n, i);
    assert NodeOk(t, chain, i);
    if i == n {
      SplicedFirst(c, a, n, m);
    } else if i in c {
      OnChain(t, chain, m, i);
      if Keyed(t, i) { SplicedBefore(c, a, n, MainOf(t, i), i); }
    }
  }

  lemma SplicedFirst(c: seq<nat>, a: nat, n: nat, m: nat)
    requires a < |c| && c[a] == m
    ensures Before(Spliced(c, a, n), m, n)
  {
    SplicedAt(c, a, n, a);
    SplicedAt(c, a, n, a + 1);
    assert Spliced(c, a, n)[a] == m && Spliced(c, a, n)[a + 1] == n;
  }

  /** The colliding node `m` is out of its main position: it moves to the free node `n`, behind its
      predecessor `p`, and the new key takes its place. */
  function Moved(t: seq<Node>, k: Key, p: nat, m: nat, n: nat): seq<Node>
    requires p < |t| && m < |t| && n < |t|
  {
    t[p := t[p].(next := n)][n := t[m]][m := Node(Some(k), Nil, -1)]
  }

  function MovedChains(chain: Chains, a: nat, m: nat, n: nat): Chains
    requires m < |chain| && a < |chain[m]|
  {
    Rechained(chain, chain[m][a := n])[m := [m]]
  }

  /** What Brent's move starts from. */
  ghost predicate CanMove(t: seq<Node>, chain: Chains, p: nat, m: nat, n: nat, a: nat) {
    && HashOk(t, chain) && |t| == |chain| && m < |t| && n < |t| && p < |t| && t[n].key.None? && Keyed(t, m) && MainOf(t, m) != m
    && 0 < a < |chain[m]| && chain[m][a] == m && chain[m][a - 1] == p
  }

  lemma MovedIn(c: seq<nat>, a: nat, n: nat, x: nat)
    requires a < |c| && n !in c && forall x, y :: 0 <= x < y < |c| ==> c[x] != c[y]
    ensures x in c[a := n] <==> x == n || (x in c && x != c[a])
  {
    var d := c[a := n];
    if x in c && x != c[a] { var b :| 0 <= b < |c| && c[b] == x; assert d[b] == x; }
    assert d[a] == n;
  }

  lemma MovedLinks(t: seq<Node>, chain: Chains, k: Key, p: nat, m: nat, n: nat, a: nat, b: nat)
    requires CanMove(t, chain, p, m, n, a) && m != n && n !in chain[m] && b < |chain[m]|
    ensures var d := chain[m][a := n]; d[b] < |t| && Moved(t, k, p, m, n)[d[b]].next == After(d, b)
  {
    ChainOf(t, chain, m);
    hide ChainAt, HashOk;
    var c := chain[m];
    ChainDistinct(t, chain, m);
    Link(t, chain, m, b);
    Link(t, chain, m, a);
    assert c[b] in c;
  }

  lemma MoveFacts(t: seq<Node>, chain: Chains, p: nat, m: nat, n: nat, a: nat)
    requires CanMove(t, chain, p, m, n, a)
    ensures m != n && n !in chain[m] && m !in chain[n] && ChainAt(t, chain, m) && p in chain[m] && p != m && p != n
    ensures forall x, y :: 0 <= x < y < |chain[m]| ==> chain[m][x] != chain[m][y]
  {
    assert m != n;
    FreeOff(t, chain, m, n);
    ChainOf(t, chain, m);
    ChainDistinct(t, chain, m);
    assert chain[m][a - 1] in chain[m];
  }

  lemma MovedNew(t: seq<Node>, chain: Chains, k: Key, p: nat, m: nat, n: nat, a: nat, i: nat)
    requires CanMove(t, chain, p, m, n, a) && i < |t| && i in chain[m][a := n]
    ensures ChainAt(Moved(t, k, p, m, n), MovedChains(chain, a, m, n), i)
  {
    hide HashOk, ChainAt, Moved;
    MoveFacts(t, chain, p, m, n, a);
    MoveParts(t, chain, k, p, m, n, a);
    var c := chain[m];
    var d := c[a := n];
    var t' := Moved(t, k, p, m, n);
    var chain' := MovedChains(chain, a, m, n);
    MovedIn(c, a, n, i);
    forall b | 0 <= b < |d| ensures d[b] < |t| && chain'[d[b]] == d && t'[d[b]].next == After(d, b) {
      MovedLinks(t, chain, k, p, m, n, a, b);
      assert d[b] in d;
      MovedIn(c, a, n, d[b]);
    }
    MovedDistinct(c, a, n);
    IsChain(t', chain', i);
  }

  lemma MovedAlone(t: seq<Node>, chain: Chains, k: Key, p: nat, m: nat, n: nat, a: nat)
    requires CanMove(t, chain, p, m, n, a)
    ensures ChainAt(Moved(t, k, p, m, n), MovedChains(chain, a, m, n), m)
  {
    hide HashOk, ChainAt, Moved;
    MoveFacts(t, chain, p, m, n, a);
    MoveParts(t, chain, k, p, m, n, a);
    IsChain(Moved(t, k, p, m, n), MovedChains(chain, a, m, n), m);
  }

  lemma MovedOther(t: seq<Node>, chain: Chains, k: Key, p: nat, m: nat, n: nat, a: nat, i: nat)
    requires CanMove(t, chain, p, m, n, a) && i < |t| && i !in chain[m] && i != n
    ensures ChainAt(Moved(t, k, p, m, n), MovedChains(chain, a, m, n), i)
  {
    hide HashOk, ChainAt, Moved;
    MoveFacts(t, chain, p, m, n, a);
    MoveParts(t, chain, k, p, m, n, a);
    ChainOf(t, chain, i);
    var c := chain[m];
    var t' := Moved(t, k, p, m, n);
    var chain' := MovedChains(chain, a, m, n);
    OffChain(t, chain, n, i);
    forall j | j in chain[i] && j < |t| ensures chain'[j] == chain[j] && t'[j].next == t[j].next {
      Elsewhere(t, chain, m, i, j);
      Elsewhere(t, chain, n, i, j);
      MovedIn(c, a, n, j);
    }
    ChainStays(t, chain, t', chain', i);
  }

  lemma MovedChain(t: seq<Node>, chain: Chains, k: Key, p: nat, m: nat, n: nat, a: nat, i: nat)
    requires CanMove(t, chain, p, m, n, a) && i < |t|
    ensures ChainAt(Moved(t, k, p, m, n), MovedChains(chain, a, m, n), i)
  {
    hide HashOk, ChainAt, Moved, MovedChains;
    MoveFacts(t, chain, p, m, n, a);
    MovedIn(chain[m], a, n, i);
    if i == m { MovedAlone(t, chain, k, p, m, n, a); }
    else if i in chain[m][a := n] { MovedNew(t, chain, k, p, m, n, a, i); }
    else { MovedOther(t, chain, k, p, m, n, a, i); }
  }

  lemma MovedDistinct(c: seq<nat>, a: nat, n: nat)
    requires a < |c| && n !in c && forall x, y :: 0 <= x < y < |c| ==> c[x] != c[y]
    ensures var d := c[a := n]; forall x, y :: 0 <= x < y < |d| ==> d[x] != d[y]
  {
    var d := c[a := n];
    forall x, y | 0 <= x < y < |d| ensures d[x] != d[y] { assert c[x] in c && c[y] in c; }
  }

  lemma MoveParts(t: seq<Node>, chain: Chains, k: Key, p: nat, m: nat, n: nat, a: nat)
    requires CanMove(t, chain, p, m, n, a) && m != n
    ensures 0 < a < |chain[m]| && chain[m][a] == m && chain[m][a - 1] == p && HashOk(t, chain) && t[n].key.None?
    ensures var t' := Moved(t, k, p, m, n);
      |t'| == |t| && t'[m].next == -1 && forall i :: 0 <= i < |t| && i != m && i != n && i != p ==> t'[i] == t[i]
  {
    hide HashOk;
  }

  lemma MovedBefore(c: seq<nat>, a: nat, n: nat, m: nat, i: nat)
    requires a < |c| && Before(c, m, i) && m != c[a] && forall x, y :: 0 <= x < y < |c| ==> c[x] != c[y]
    ensures Before(c[a := n], m, if i == c[a] then n else i)
  {
    var d := c[a := n];
    var x, y :| 0 <= x <= y < |c| && c[x] == m && c[y] == i;
    if i == c[a] {
      assert y == a && d[x] == m && d[a] == n;
    } else {
      assert d[x] == m && d[y] == i;
    }
  }

  /** No key has its main position where a key of another main position sits. */
  lemma NotMain(t: seq<Node>, chain: Chains, m: nat, i: nat)
    requires HashOk(t, chain) && Keyed(t, m) && MainOf(t, m) != m && Keyed(t, i)
    ensures MainOf(t, i) != m
  {
    assert NodeOk(t, chain, i);
  }

  lemma MovedKeys(t: seq<Node>, k: Key, p: nat, m: nat, n: nat)
    requires p < |t| && m < |t| && n < |t| && p != m && p != n && m != n
    ensures var t' := Moved(t, k, p, m, n);
      && |t'| == |t| && t'[m].key == Some(k) && t'[n].key == t[m].key
      && (forall i :: 0 <= i < |t| && i != m && i != n ==> t'[i].key == t[i].key && t'[i].val == t[i].val)
  {}

  lemma KeyedNode(t: seq<Node>, chain: Chains, i: nat)
    requires i < |t| == |chain| && Keyed(t, i) && Before(chain[i], MainOf(t, i), i)
    requires Keyed(t, MainOf(t, i)) && MainOf(t, MainOf(t, i)) == MainOf(t, i)
    ensures NodeOk(t, chain, i)
  {
    hide Before;
  }

  lemma NodeParts(t: seq<Node>, chain: Chains, i: nat)
    requires HashOk(t, chain) && Keyed(t, i)
    ensures |t| == |chain| && Before(chain[i], MainOf(t, i), i) && Keyed(t, MainOf(t, i)) && MainOf(t, MainOf(t, i)) == MainOf(t, i)
  {
    assert NodeOk(t, chain, i);
    hide Before;
  }

  lemma MovedOn(chain: Chains, a: nat, m: nat, n: nat, i: nat)
    requires m < |chain| && a < |chain[m]| && i < |chain|
    ensures |MovedChains(chain, a, m, n)| == |chain|
    ensures MovedChains(chain, a, m, n)[i] == if i == m then [m] else if i in chain[m][a := n] then chain[m][a := n] else chain[i]
  {}

  lemma MovedMain(t: seq<Node>, chain: Chains, k: Key, p: nat, m: nat, n: nat, a: nat, i: nat)
    requires CanMove(t, chain, p, m, n, a) && Keyed(t, i) && i != m && MainPos(k, |t|) == m
    ensures var t' := Moved(t, k, p, m, n); Keyed(t', i) && MainOf(t', i) == MainOf(t, i) && i != n && MainOf(t, i) != m
    ensures var t' := Moved(t, k, p, m, n); Keyed(t', MainOf(t, i)) && MainOf(t', MainOf(t, i)) == MainOf(t, i)
  {
    hide HashOk, Moved;
    MoveFacts(t, chain, p, m, n, a);
    MovedKeys(t, k, p, m, n);
    NodeParts(t, chain, i);
    NotMain(t, chain, m, i);
  }

  lemma MovedNode(t: seq<Node>, chain: Chains, k: Key, p: nat, m: nat, n: nat, a: nat, i: nat)
    requires CanMove(t, chain, p, m, n, a) && i < |t| && MainPos(k, |t|) == m
    ensures NodeOk(Moved(t, k, p, m, n), MovedChains(chain, a, m, n), i)
  {
    hide HashOk, Before, Moved, MovedChains, NodeOk;
    MoveFacts(t, chain, p, m, n, a);
    MovedKeys(t, k, p, m, n);
    MovedOn(chain, a, m, n, i);
    MovedIn(chain[m], a, n, i);
    var t' := Moved(t, k, p, m, n);
    var chain' := MovedChains(chain, a, m, n);
    if i == m {
      MainFirst([m], m);
      KeyedNode(t', chain', m);
    } else if i == n {
      NodeParts(t, chain, m);
      var o := MainOf(t, m);
      NodeParts(t, chain, o);
      MovedBefore(chain[m], a, n, o, m);
      KeyedNode(t', chain', n);
    } else if Keyed(t, i) {
      NodeParts(t, chain, i);
      MovedMain(t, chain, k, p, m, n, a, i);
      if i in chain[m] {
        ChainsOf(t, chain);
        OnChain(t, chain, m, i);
        MovedBefore(chain[m], a, n, MainOf(t, i), i);
      }
      KeyedNode(t', chain', i);
    } else {
      FreeStays(t, chain, k, p, m, n, a, i);
    }
  }

  lemma ChainsOf(t: seq<Node>, chain: Chains)
    requires HashOk(t, chain)
    ensures ChainsOk(t, chain)
  {}

  lemma FreeStays(t: seq<Node>, chain: Chains, k: Key, p: nat, m: nat, n: nat, a: nat, i: nat)
    requires CanMove(t, chain, p, m, n, a) && i < |t| && t[i].key.None? && i != n && i != m
    ensures NodeOk(Moved(t, k, p, m, n), MovedChains(chain, a, m, n), i)
  {
    MoveFacts(t, chain, p, m, n, a);
    FreeOff(t, chain, m, i);
    MovedIn(chain[m], a, n, i);
    assert NodeOk(t, chain, i);
    hide ChainsOk, Distinct, Before;
  }

  lemma MainFirst(c: seq<nat>, m: nat)
    requires c == [m]
    ensures Before(c, m, m)
  {
    assert c[0] == m;
  }

  lemma PutMoved(t: seq<Node>, chain: Chains, k: Key, p: nat, m: nat, n: nat, a: nat)
    requires CanMove(t, chain, p, m, n, a) && MainPos(k, |t|) == m && !Has(t, k)
    ensures HashOk(Moved(t, k, p, m, n), MovedChains(chain, a, m, n))
  {
    hide ChainAt, NodeOk, ChainsOk;
    MoveFacts(t, chain, p, m, n, a);
    var t' := Moved(t, k, p, m, n);
    forall i | 0 <= i < |t| ensures ChainAt(t', MovedChains(chain, a, m, n), i) && NodeOk(t', MovedChains(chain, a, m, n), i) {
      MovedChain(t, chain, k, p, m, n, a, i);
      MovedNode(t, chain, k, p, m, n, a, i);
    }
    assert Distinct(t');
    AllChains(t', MovedChains(chain, a, m, n));
  }

  lemma AllChains(t: seq<Node>, chain: Chains)
    requires |t| == |chain| && forall i :: 0 <= i < |t| ==> ChainAt(t, chain, i)
    ensures ChainsOk(t, chain)
  {
    hide ChainAt;
  }

  /** If no node from the main position on has the key, no node has it. */
  lemma NotThere(t: seq<Node>, chain: Chains, k: Key, a: nat)
    requires HashOk(t, chain) && |t| == |chain|
    requires var m := MainPos(k, |t|); var c := chain[m];
      a < |c| && c[a] == m && forall b :: a <= b < |c| ==> c[b] < |t| && t[c[b]].key != Some(k)
    ensures !Has(t, k)
  {
    var m := MainPos(k, |t|);
    var c := chain[m];
    if Has(t, k) {
      var i :| 0 <= i < |t| && t[i].key == Some(k);
      NodeParts(t, chain, i);
      ChainOf(t, chain, i);
      ChainOf(t, chain, m);
    }
  }

  /** The position of a node on its chain. */
  lemma OnOwn(t: seq<Node>, chain: Chains, m: nat) returns (a: nat)
    requires HashOk(t, chain) && m < |t|
    ensures |t| == |chain| && a < |chain[m]| && chain[m][a] == m
  {
    ChainOf(t, chain, m);
    a :| 0 <= a < |chain[m]| && chain[m][a] == m;
  }

  /** The predecessor of a node that is out of its main position is reached from there. */
  lemma FromMain(t: seq<Node>, chain: Chains, m: nat) returns (x: nat, a: nat)
    requires HashOk(t, chain) && Keyed(t, m) && MainOf(t, m) != m
    ensures |t| == |chain| && x < a < |chain[m]| && chain[m][x] == MainOf(t, m) && chain[m][a] == m
  {
    NodeParts(t, chain, m);
    x, a :| 0 <= x <= a < |chain[m]| && chain[m][x] == MainOf(t, m) && chain[m][a] == m;
  }

  /** Two node vectors with the same non-nil entries give every key the same value. */
  ghost predicate SameEntries(t: seq<Node>, t': seq<Node>) {
    && (forall i :: 0 <= i < |t| && Keyed(t, i) && t[i].val != Nil ==> HasEntry(t', t[i].key, t[i].val))
    && (forall i :: 0 <= i < |t'| && Keyed(t', i) && t'[i].val != Nil ==> HasEntry(t, t'[i].key, t'[i].val))
  }

  ghost predicate HasEntry(t: seq<Node>, k: Option<Key>, v: Value) {
    exists i :: 0 <= i < |t| && t[i].key == k && t[i].val == v
  }

  lemma EntryValue(t: seq<Node>, k: Key, v: Value)
    requires Distinct(t) && HasEntry(t, Some(k), v)
    ensures ValueOf(t, k) == v
  {
    var i :| 0 <= i < |t| && t[i].key == Some(k) && t[i].val == v;
    ValueAt(t, k, i);
  }

  lemma SameValues(t: seq<Node>, t': seq<Node>, k: Key)
    requires Distinct(t) && Distinct(t') && SameEntries(t, t')
    ensures ValueOf(t', k) == ValueOf(t, k)
  {
    if ValueOf(t, k) != Nil {
      var i :| 0 <= i < |t| && t[i].key == Some(k) && ValueOf(t, k) == t[i].val;
      assert Keyed(t, i);
      EntryValue(t', k, t[i].val);
    } else if ValueOf(t', k) != Nil {
      var i :| 0 <= i < |t'| && t'[i].key == Some(k) && ValueOf(t', k) == t'[i].val;
      assert Keyed(t', i);
      EntryValue(t, k, t'[i].val);
    }
  }

  lemma OverEntries(t: seq<Node>, k: Key, m: nat)
    requires m < |t| && t[m].val == Nil
    ensures SameEntries(t, t[m := Node(Some(k), Nil, t[m].next)])
  {
    var t' := t[m := Node(Some(k), Nil, t[m].next)];
    forall i | 0 <= i < |t| && Keyed(t, i) && t[i].val != Nil ensures HasEntry(t', t[i].key, t[i].val) { assert t'[i] == t[i]; }
    forall i | 0 <= i < |t| && Keyed(t', i) && t'[i].val != Nil ensures HasEntry(t, t'[i].key, t'[i].val) { assert t'[i] == t[i]; }
  }

  lemma AfterEntries(t: seq<Node>, k: Key, m: nat, n: nat)
    requires m < |t| && n < |t| && m != n && t[n].key.None?
    ensures SameEntries(t, InsertedAfter(t, k, m, n))
  {
    var t' := InsertedAfter(t, k, m, n);
    forall i | 0 <= i < |t| && Keyed(t, i) && t[i].val != Nil ensures HasEntry(t', t[i].key, t[i].val) {
      assert t'[i].key == t[i].key && t'[i].val == t[i].val;
    }
    forall i | 0 <= i < |t| && Keyed(t', i) && t'[i].val != Nil ensures HasEntry(t, t'[i].key, t'[i].val) {
      assert t'[i].key == t[i].key && t'[i].val == t[i].val;
    }
  }

  lemma MovedEntries(t: seq<Node>, k: Key, p: nat, m: nat, n: nat)
    requires p < |t| && m < |t| && n < |t| && p != m && p != n && m != n && t[n].key.None?
    ensures SameEntries(t, Moved(t, k, p, m, n))
  {
    var t' := Moved(t, k, p, m, n);
    assert t'[n] == t[m];
    forall i | 0 <= i < |t| && Keyed(t, i) && t[i].val != Nil ensures HasEntry(t', t[i].key, t[i].val) {
      var j := if i == m then n else i;
      assert t'[j].key == t[i].key && t'[j].val == t[i].val;
    }
    forall i | 0 <= i < |t| && Keyed(t', i) && t'[i].val != Nil ensures HasEntry(t, t'[i].key, t'[i].val) {
      var j := if i == n then m else i;
      assert t'[i].key == t[j].key && t'[i].val == t[j].val;
    }
  }

  /** Writing the value of a node. */
  lemma StoredOk(t: seq<Node>, chain: Chains, i: nat, v: Value)
    requires HashOk(t, chain) && Keyed(t, i)
    ensures HashOk(t[i := t[i].(val := v)], chain)
  {
    var t' := t[i := t[i].(val := v)];
    forall j | 0 <= j < |t| ensures ChainAt(t', chain, j) && NodeOk(t', chain, j) {
      assert ChainAt(t, chain, j) && NodeOk(t, chain, j);
      hide Before;
    }
    forall x, y | 0 <= x < y < |t'| && Keyed(t', x) && Keyed(t', y) ensures t'[x].key != t'[y].key {
      assert Keyed(t, x) && Keyed(t, y);
    }
  }

  lemma StoredValue(t: seq<Node>, i: nat, v: Value, k: Key)
    requires Distinct(t) && Keyed(t, i) && Distinct(t[i := t[i].(val := v)])
    ensures ValueOf(t[i := t[i].(val := v)], k) == if t[i].key == Some(k) then v else ValueOf(t, k)
  {
    var t' := t[i := t[i].(val := v)];
    if t[i].key == Some(k) { ValueAt(t', k, i); }
    else if Has(t, k) {
      var j :| 0 <= j < |t| && t[j].key == Some(k) && ValueOf(t, k) == t[j].val;
      ValueAt(t', k, j);
    }
  }

  /** An empty node vector. */
  lemma EmptyOk(t: seq<Node>)
    requires |t| > 0 && forall i :: 0 <= i < |t| ==> t[i] == Node(None, Nil, -1)
    ensures HashOk(t, seq(|t|, i => [i])) && forall k :: !Has(t, k)
  {
    var chain := seq<seq<nat>>(|t|, i => [i]);
    forall i | 0 <= i < |t| ensures ChainAt(t, chain, i) && NodeOk(t, chain, i) { assert chain[i] == [i]; }
  }
}
