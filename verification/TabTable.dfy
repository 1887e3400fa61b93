/** A table: array part, hash part, and the finite map it stands for (ltable.c). */
module TabTable {
  import opened Wrappers
  import opened TabChain
  import opened TabSizes

  function InRange(k: Key, size: nat): bool { k.Num? && 1 <= k.n <= size }

  ghost function Lookup(m: map<Key, Value>, k: Key): Value { if k in m then m[k] else Nil }

  /** The value a key has in the two parts together. */
  ghost function At(a: seq<Value>, size: nat, t: seq<Node>, k: Key): Value
    requires size <= |a|
  {
    if InRange(k, size) then a[k.n - 1] else ValueOf(t, k)
  }

  /** Keys of the array part are not in the hash part. */
  ghost predicate Apart(t: seq<Node>, size: nat) {
    forall i :: 0 <= i < |t| && Keyed(t, i) ==> !InRange(t[i].key.val, size)
  }

  ghost predicate NoNil(m: map<Key, Value>) { forall k :: k in m ==> m[k] != Nil }

  ghost predicate Stands(a: seq<Value>, size: nat, t: seq<Node>, m: map<Key, Value>)
    requires size <= |a|
  {
    forall k :: At(a, size, t, k) == Lookup(m, k)
  }

  /** `lastfree` has passed keyed nodes only. */
  ghost predicate Passed(t: seq<Node>, lastfree: nat) {
    lastfree <= |t| && forall i :: lastfree <= i < |t| ==> Keyed(t, i)
  }

  ghost predicate IsDummy(t: seq<Node>) { t == [Node(None, Nil, -1)] }

  /** The free nodes getfreepos may still find. */
  ghost function Free(t: seq<Node>, lastfree: nat): set<nat> { set i | 0 <= i < lastfree && i < |t| && t[i].key.None? }

  function Put(m: map<Key, Value>, k: Key, v: Value): map<Key, Value> { if v == Nil then m - {k} else m[k := v] }

  lemma PutLookup(m: map<Key, Value>, k: Key, v: Value)
    ensures forall x :: Lookup(Put(m, k, v), x) == if x == k then v else Lookup(m, x)
    ensures NoNil(m) ==> NoNil(Put(m, k, v))
  {}

  lemma LessFree(t: seq<Node>, t': seq<Node>, f: nat, f': nat, n: nat)
    requires |t| == |t'| && f' <= f && (forall i :: f' <= i < f && i < |t| && i != n ==> Keyed(t, i))
    requires forall i :: 0 <= i < f' && i < |t| && i != n && t[i].key.None? ==> t'[i].key.None?
    ensures |Free(t', f')| >= |Free(t, f)| - 1
  {
    forall i | i in Free(t, f) ensures i in Free(t', f') + {n} {
      assert f' <= i ==> i == n || Keyed(t, i);
    }
    SubsetSize(Free(t, f), Free(t', f') + {n});
  }

  /** A hash part fresh from setnodevector. */
  lemma EmptyHash(t: seq<Node>, size: nat, f: nat)
    requires |t| > 0 && forall i :: 0 <= i < |t| ==> t[i] == Node(None, Nil, -1)
    ensures HashOk(t, seq(|t|, i => [i])) && Apart(t, size) && Passed(t, |t|) && (forall k :: !Has(t, k)) && (|t| == 1 ==> IsDummy(t))
    ensures f <= |t| ==> |Free(t, f)| == f
  {
    EmptyOk(t);
    if f <= |t| { FreeCount(t, f); }
  }

  lemma NothingStands(a: seq<Value>, size: nat, t: seq<Node>)
    requires size <= |a| && (forall i :: 0 <= i < size ==> a[i] == Nil) && forall k :: !Has(t, k)
    ensures Stands(a, size, t, map[]) && NoNil(map[])
  {
    forall k ensures At(a, size, t, k) == Nil { assert !Has(t, k); }
  }

  /** The nodes of a chain from position `a` to `b` do not have the key. */
  ghost predicate OnWalk(t: seq<Node>, c: seq<nat>, k: Key, a: nat, b: nat) {
    b <= |c| && forall x :: a <= x < b ==> c[x] < |t| && t[c[x]].key != Some(k)
  }

  ghost function AtWalk(c: seq<nat>, b: nat): int { if b < |c| then c[b] else -1 }

  lemma WalkOn(t: seq<Node>, chain: Chains, k: Key, m: nat, a: nat, b: nat)
    requires HashOk(t, chain) && m < |t| == |chain| && b < |chain[m]| && OnWalk(t, chain[m], k, a, b)
    requires chain[m][b] < |t| ==> t[chain[m][b]].key != Some(k)
    ensures chain[m][b] < |t| && OnWalk(t, chain[m], k, a, b + 1) && t[chain[m][b]].next == AtWalk(chain[m], b + 1)
    ensures -1 <= AtWalk(chain[m], b + 1) < |t|
  {
    ChainOf(t, chain, m);
    Link(t, chain, m, b);
    if b + 1 < |chain[m]| { Link(t, chain, m, b + 1); }
  }

  lemma WalkEnds(t: seq<Node>, chain: Chains, k: Key, a: nat, b: nat)
    requires HashOk(t, chain) && |t| == |chain|
    requires var m := MainPos(k, |t|); a < |chain[m]| && chain[m][a] == m && OnWalk(t, chain[m], k, a, b) && AtWalk(chain[m], b) == -1
    ensures !Has(t, k)
  {
    NotThere(t, chain, k, a);
  }

  lemma NoEntries(m: map<Key, Value>)
    requires NoNil(m) && forall k :: Lookup(m, k) == Nil
    ensures m == map[]
  {
    assert forall k :: k in m ==> Lookup(m, k) == m[k];
  }

  class Table {
    var arr: array<Value>
    var sizearray: nat
    var node: array<Node>
    var lsizenode: nat
    var dummy: bool              // node is dummynode
    var lastfree: nat
    ghost var chain: Chains
    ghost var model: map<Key, Value>

    ghost predicate Shape()
      reads this, node
    {
      && node.Length == Pow2(lsizenode) && HashOk(node[..], chain)
      && (if dummy then lastfree == 0 && IsDummy(node[..]) else Passed(node[..], lastfree))
    }

    ghost predicate Valid()
      reads this, arr, node
    {
      && sizearray <= arr.Length && sizearray <= Pow2(MAXBITS)
      && Shape() && Apart(node[..], sizearray) && NoNil(model) && Stands(arr[..], sizearray, node[..], model)
    }

    ghost function Room(): nat
      reads this, node
    {
      |Free(node[..], lastfree)|
    }

    /** luaH_new: both parts empty, with room for `nhash` keys in the hash part. */
    constructor (narray: nat, nhash: nat)
      requires narray <= Pow2(MAXBITS)
      ensures Valid() && model == map[] && fresh(arr) && fresh(node) && sizearray == narray && Room() >= nhash
    {
      hide HashOk, Stands, Apart, NoNil, Passed, Has, Pow2;
      PowZero();
      arr := new Value[0];
      sizearray := 0;
      node := new Node[1](_ => Node(None, Nil, -1));
      lsizenode, dummy, lastfree := 0, true, 0;
      chain, model := seq(1, i => [i]), map[];
      new;
      EmptyHash(node[..], 0, 1);
      NothingStands(arr[..], 0, node[..]);
      Reallocate(narray, nhash);
      forall k ensures Lookup(model, k) == Nil {}
      NoEntries(model);
    }

    /** The search of the luaH_get functions along a chain: the node of the key, or -1. */
    method Find(k: Key) returns (n: int)
      requires Shape()
      ensures -1 <= n < node.Length && (n >= 0 ==> node[n].key == Some(k)) && (n == -1 ==> !Has(node[..], k))
    {
      hide HashOk, Pow2, Passed, IsDummy, MainPos;
      ghost var t := node[..];
      ghost var m := MainPos(k, node.Length);
      ghost var a := OnOwn(t, chain, m);
      ghost var b := a;
      n := MainPos(k, node.Length);
      while n != -1
        invariant a <= b <= |chain[m]| && -1 <= n < node.Length && OnWalk(t, chain[m], k, a, b) && n == AtWalk(chain[m], b)
        decreases |chain[m]| - b
      {
        if node[n].key == Some(k) { return; }
        WalkOn(t, chain, k, m, a, b);
        n := node[n].next;
        b := b + 1;
      }
      WalkEnds(t, chain, k, a, b);
    }

    /** luaH_get. */
    method Get(k: Option<Key>) returns (v: Value)
      requires Valid()
      ensures v == if k.Some? then Lookup(model, k.val) else Nil
    {
      if k.None? { return Nil; }
      assert At(arr[..], sizearray, node[..], k.val) == Lookup(model, k.val);
      if InRange(k.val, sizearray) { return arr[k.val.n - 1]; }
      var n := Find(k.val);
      if n == -1 { return Nil; }
      ValueAt(node[..], k.val, n);
      return node[n].val;
    }

    /** getfreepos: the last free node before `lastfree`, or -1. */
    method GetFreePos() returns (n: int)
      requires Shape()
      modifies `lastfree
      ensures -1 <= n < node.Length && lastfree <= old(lastfree) && lastfree <= node.Length
      ensures n == -1 ==> Free(node[..], old(lastfree)) == {} && lastfree == 0
      ensures n >= 0 ==> node[n].key.None? && lastfree == n < old(lastfree) && !dummy
      ensures forall i :: lastfree <= i < node.Length && i < old(lastfree) && i != n ==> node[i].key.Some?
    {
      while lastfree > 0
        invariant lastfree <= old(lastfree) && old(lastfree) <= node.Length
        invariant forall i :: lastfree <= i < old(lastfree) ==> node[i].key.Some?
      {
        lastfree := lastfree - 1;
        if node[lastfree].key.None? { return lastfree; }
      }
      return -1;
    }

    /** newkey, when the main position is free or its value is nil: the key goes there. */
    method TakeOver(k: Key)
      requires Valid() && !dummy && !InRange(k, sizearray) && !Has(node[..], k) && node[MainPos(k, node.Length)].val == Nil
      modifies node
      ensures Valid() && node[MainPos(k, node.Length)].key == Some(k) && node[MainPos(k, node.Length)].val == Nil
      ensures Room() >= old(Room()) - 1
    {
      hide HashOk, SameEntries, Pow2, Stands, Apart, Has, Free, Passed, NoNil, MainPos;
      ghost var t := node[..];
      var mp := MainPos(k, node.Length);
      TakenOver(arr[..], sizearray, t, chain, lastfree, model, k);
      node[mp] := Node(Some(k), Nil, node[mp].next);
      assert node[..] == t[mp := Node(Some(k), Nil, t[mp].next)];
    }

    /** newkey, when the colliding node is in its own main position. */
    method ChainAfter(k: Key, n: nat)
      requires ValidBut(n) && !InRange(k, sizearray) && !Has(node[..], k)
      requires var mp := MainPos(k, node.Length); node[mp].key.Some? && MainPos(node[mp].key.val, node.Length) == mp
      modifies node, this`chain
      ensures Valid() && node[n].key == Some(k) && node[n].val == Nil && Room() >= old(Room())
    {
      hide HashOk, SameEntries, Pow2, Stands, Apart, Has, Free, Passed, NoNil, MainPos, InsertedAfter;
      ghost var t := node[..];
      var mp := MainPos(k, node.Length);
      ghost var a := OnOwn(t, chain, mp);
      ChainedAfter(arr[..], sizearray, t, chain, lastfree, model, k, n, a);
      node[n] := Node(Some(k), Nil, node[mp].next);
      node[mp] := node[mp].(next := n);
      InsertedIs(t, k, mp, n);
      assert node[..] == InsertedAfter(t, k, mp, n);
      chain := Rechained(chain, Spliced(chain[mp], a, n));
    }

    /** newkey, when the colliding node is out of its main position: Brent's move. */
    method MoveAway(k: Key, n: nat)
      requires ValidBut(n) && !InRange(k, sizearray) && !Has(node[..], k)
      requires var mp := MainPos(k, node.Length); node[mp].key.Some? && MainPos(node[mp].key.val, node.Length) != mp
      modifies node, this`chain
      ensures Valid() && node[MainPos(k, node.Length)].key == Some(k) && node[MainPos(k, node.Length)].val == Nil
      ensures Room() >= old(Room())
    {
      hide HashOk, SameEntries, Pow2, Stands, Apart, Has, Free, Passed, NoNil, MainPos, Moved, MovedChains;
      ghost var t := node[..];
      var mp := MainPos(k, node.Length);
      ghost var a;
      var othern;
      othern, a := Previous(mp);
      MoveFacts(t, chain, othern, mp, n, a);
      MovedAway(arr[..], sizearray, t, chain, lastfree, model, k, othern, mp, n, a);
      node[othern] := node[othern].(next := n);
      node[n] := node[mp];
      node[mp] := Node(Some(k), Nil, -1);
      MovedIs(t, k, othern, mp, n);
      assert node[..] == Moved(t, k, othern, mp, n);
      chain := MovedChains(chain, a, mp, n);
    }

    /** The node before `mp`, found from the main position of the key of `mp`. */
    method Previous(mp: nat) returns (othern: nat, ghost a: nat)
      requires HashOk(node[..], chain) && mp < node.Length && Keyed(node[..], mp) && MainOf(node[..], mp) != mp
      ensures othern < node.Length && |chain| == node.Length && 0 < a < |chain[mp]|
      ensures chain[mp][a] == mp && chain[mp][a - 1] == othern
    {
      hide HashOk, MainPos;
      ghost var t := node[..];
      ghost var x;
      x, a := FromMain(t, chain, mp);
      othern := MainPos(node[mp].key.val, node.Length);
      ghost var b := x;
      ChainIndices(t, chain, mp, x);
      while node[othern].next != mp
        invariant x <= b < a && othern == chain[mp][b] && othern < node.Length
        decreases a - b
      {
        NextOnChain(t, chain, mp, b, a);
        othern := node[othern].next;
        b := b + 1;
      }
      Predecessor(t, chain, mp, b, a);
    }

    /** newkey for a key that is in neither part; `grow` tells whether the table may be rehashed. */
    method NewKey(k: Key, ghost grow: bool) returns (s: int)
      requires Valid() && !InRange(k, sizearray) && !Has(node[..], k) && (!grow ==> Room() > 0)
      modifies this, arr, node
      ensures Valid() && model == old(model) && SlotOf(s, k)
      ensures fresh(arr) || arr == old(arr)
      ensures fresh(node) || node == old(node)
      ensures old(Holds(k)) ==> Unmoved(old(arr), old(node), old(sizearray)) && node[..] == old(node[..])
      ensures !grow ==> Unmoved(old(arr), old(node), old(sizearray)) && arr[..] == old(arr[..]) && Room() >= old(Room()) - 1
      decreases grow, 1
    {
      hide HashOk, Pow2, Stands, Apart, NoNil, Has, MainPos, Free;
      var mp := MainPos(k, node.Length);
      if node[mp].val == Nil && !dummy {
        TakeOver(k);
        return sizearray + mp;
      }
      ghost var before := lastfree;
      ghost var t := node[..];
      var n := GetFreePos();
      if n == -1 {
        NoRoom(t, before);
        Rehash(k);
        s := Slot(k, false);
        return;
      }
      FreeBelow(t, before, n, lastfree);
      assert node[mp].key.Some? by { ValuedKeyed(t, chain, mp); }
      if MainPos(node[mp].key.val, node.Length) != mp {
        MoveAway(k, n);
        s := sizearray + mp;
      } else {
        ChainAfter(k, n);
        s := sizearray + n;
      }
    }

    /** setnodevector, after setarrayvector if the array part grows: both parts have their new sizes,
        and only the array part has entries. */
    method Reallocate(nasize: nat, nhsize: nat)
      requires Valid() && nasize <= Pow2(MAXBITS)
      modifies this
      ensures Valid() && sizearray == nasize && fresh(node) && (fresh(arr) || arr == old(arr))
      ensures arr.Length >= old(arr.Length) && Room() >= nhsize && Room() == (if nhsize == 0 then 0 else node.Length)
      ensures forall i :: 0 <= i < old(sizearray) ==> arr[i] == old(arr[i])
      ensures forall k :: Lookup(model, k) == if InRange(k, if nasize < old(sizearray) then nasize else old(sizearray)) then Lookup(old(model), k) else Nil
    {
      hide HashOk, Pow2, Stands, Apart, NoNil, Passed, Has, Restrict, Free;
      ghost var old_ := model;
      ghost var t := node[..];
      ghost var size := sizearray;
      ghost var a := arr[..];
      GrowArray(nasize);
      SetNodeVector(nhsize);
      chain := seq(node.Length, i => [i]);
      EmptyHash(node[..], nasize, lastfree);
      ghost var low := if nasize < size then nasize else size;
      model := Restrict(old_, low);
      assert sizearray == nasize;
      OnlyArray(a, size, t, old_, arr[..], nasize, node[..], low);
    }

    /** setarrayvector, when the array part must grow. */
    method GrowArray(nasize: nat)
      requires sizearray <= arr.Length
      modifies this`arr, this`sizearray
      ensures sizearray == nasize <= arr.Length && (fresh(arr) || arr == old(arr)) && arr.Length >= old(arr.Length)
      ensures forall i :: 0 <= i < old(sizearray) ==> arr[i] == old(arr[i])
      ensures forall i :: old(sizearray) <= i < nasize ==> arr[i] == Nil
    {
      if nasize > sizearray {
        var b := new Value[if nasize > arr.Length then nasize else arr.Length](_ => Nil);
        var i := 0;
        while i < sizearray
          invariant i <= sizearray <= b.Length && arr == old(arr) && sizearray == old(sizearray)
          invariant forall j :: 0 <= j < i ==> b[j] == arr[j]
          invariant forall j :: i <= j < b.Length ==> b[j] == Nil
        {
          b[i] := arr[i];
          i := i + 1;
        }
        arr := b;
      }
      sizearray := nasize;
    }

    /** setnodevector. */
    method SetNodeVector(size: nat)
      modifies this`node, this`lsizenode, this`lastfree, this`dummy
      ensures fresh(node) && node.Length == Pow2(lsizenode) >= size && (forall i :: 0 <= i < node.Length ==> node[i] == Node(None, Nil, -1))
      ensures dummy == (size == 0) && (dummy ==> node.Length == 1) && lastfree == if dummy then 0 else node.Length
    {
      dummy := size == 0;
      lsizenode := 0;
      if size > 0 {
        var l := CeilLog2(size);
        lsizenode := l;
      }
      ghost var l := lsizenode;
      var n := TwoTo(lsizenode);
      node := new Node[n](_ => Node(None, Nil, -1));
      lastfree := if dummy then 0 else n;
    }

    /** resize, when the array part shrinks: its vanishing slice goes into the hash part. */
    method MoveSlice(nasize: nat, oldasize: nat, ghost target: map<Key, Value>, ghost a: seq<Value>, ghost t: seq<Node>, ghost slack: nat)
      requires Valid() && sizearray == nasize < oldasize <= arr.Length && oldasize <= |a| && forall i :: 0 <= i < oldasize ==> arr[i] == a[i]
      requires Stands(a, oldasize, t, target) && NoNil(target) && Partly(model, target, InArray(target, nasize))
      requires Room() >= slack + |Outside(target, nasize) - InArray(target, nasize)|
      modifies this, arr, node
      ensures Valid() && sizearray == nasize && node == old(node) && (fresh(arr) || arr == old(arr))
      ensures Partly(model, target, InArray(target, oldasize))
      ensures Room() >= slack + |Outside(target, nasize) - InArray(target, oldasize)|
      decreases false, 4
    {
      hide HashOk, Pow2, Stands, Apart, NoNil, Free, Passed, IsDummy, Partly;
      var i := nasize;
      while i < oldasize
        invariant nasize <= i <= oldasize && Valid() && sizearray == nasize && arr == old(arr) && node == old(node)
        invariant forall j :: nasize <= j < oldasize ==> arr[j] == a[j]
        invariant Partly(model, target, InArray(target, i)) && Room() >= slack + |Outside(target, nasize) - InArray(target, i)|
      {
        SlotNext(a, oldasize, t, target, i);
        if arr[i] != Nil {
          PartlyPut(model, target, InArray(target, i), Num(i + 1), nasize);
          PutIn(Num(i + 1), arr[i]);
        }
        i := i + 1;
      }
      ShrinkArray();
    }

    /** luaM_reallocvector, to the size of the array part. */
    method ShrinkArray()
      requires Valid()
      modifies this`arr
      ensures Valid() && fresh(arr) && Room() == old(Room())
    {
      hide HashOk, Pow2, Apart, NoNil, Free, Passed, IsDummy;
      var b := new Value[sizearray](_ => Nil);
      var i := 0;
      while i < sizearray
        invariant i <= sizearray == b.Length && arr == old(arr) && forall j :: 0 <= j < i ==> b[j] == arr[j]
      {
        b[i] := arr[i];
        i := i + 1;
      }
      SameFront(arr[..], b[..], sizearray, node[..], model);
      arr := b;
    }

    /** resize, its end: the entries of the old hash part, from the last node down. */
    method Reinsert(nold: array<Node>, size: nat, ghost target: map<Key, Value>, ghost a: seq<Value>, ghost c: Chains, ghost slack: nat)
      requires Valid() && node != nold && size <= |a| && HashOk(nold[..], c) && Apart(nold[..], size)
      requires Stands(a, size, nold[..], target) && NoNil(target) && Partly(model, target, InArray(target, size))
      requires Room() >= slack + |Outside(target, sizearray) - InArray(target, size)|
      modifies this, arr, node
      ensures Valid() && model == target && Unmoved(old(arr), old(node), old(sizearray)) && Room() >= slack
      decreases false, 4
    {
      hide HashOk, Pow2, Stands, Apart, NoNil, Free, Passed, IsDummy, Partly, NodeKeys, Outside, InArray;
      ghost var t := nold[..];
      ghost var done := InArray(target, size);
      var i: nat := nold.Length;
      NoKeysYet(t);
      assert done + {} == done;
      while i > 0
        invariant i <= nold.Length && Valid() && nold[..] == t && Unmoved(old(arr), old(node), old(sizearray))
        invariant Partly(model, target, done + NodeKeys(t, i))
        invariant Room() >= slack + |Outside(target, sizearray) - (done + NodeKeys(t, i))|
      {
        i := i - 1;
        NodeNext(a, size, t, c, target, i);
        if nold[i].val != Nil {
          var k := nold[i].key.val;
          PartlyPut(model, target, done + NodeKeys(t, i + 1), k, sizearray);
          assert done + NodeKeys(t, i) == done + NodeKeys(t, i + 1) + {k};
          PutIn(k, nold[i].val);
        }
      }
      AllDone(a, size, t, c, target, model);
    }

    /** resize: all entries are inserted again, without a rehash. */
    method Resize(nasize: nat, nhsize: nat)
      requires Valid() && nasize <= Pow2(MAXBITS) && |Outside(model, nasize)| <= nhsize
      modifies this, arr
      ensures Valid() && model == old(model) && sizearray == nasize && fresh(node) && (fresh(arr) || arr == old(arr))
      ensures Room() >= nhsize - |Outside(model, nasize)|
      decreases false, 5
    {
      hide HashOk, Pow2, Stands, Apart, NoNil, Free, Passed, IsDummy, Partly, Outside, InArray;
      var oldasize, nold := sizearray, node;
      ghost var target := model;
      ghost var a := arr[..];
      ghost var c := chain;
      ghost var slack := nhsize - |Outside(target, nasize)|;
      Reallocate(nasize, nhsize);
      ghost var low := if nasize < oldasize then nasize else oldasize;
      StartDone(model, target, low);
      RoomStart(target, nasize, low, oldasize);
      if nasize < oldasize { MoveSlice(nasize, oldasize, target, a, nold[..], slack); }
      Reinsert(nold, oldasize, target, a, c, slack);
    }

    /** numusearray: the keys of the array part, slice by slice. */
    method NumUseArray(nums: array<nat>) returns (ause: nat)
      requires Valid() && Histogram(nums[..], {})
      modifies nums
      ensures Histogram(nums[..], Ints(ArrayKeys(arr[..], sizearray))) && ause == |ArrayKeys(arr[..], sizearray)|
    {
      hide HashOk, Stands, Apart, NoNil, Passed, IsDummy, Pow2, InSlice, Slice;
      ghost var a := arr[..];
      var lg, ttlg, i := 0, 1, 1;
      ause := 0;
      NoneCounted(a);
      PowNext(0);
      while lg <= MAXBITS
        invariant lg <= MAXBITS + 1 && ttlg == Pow2(lg) && 1 <= i <= sizearray + 1 && Reached(i, lg, sizearray)
        invariant Histogram(nums[..], Ints(ArrayKeys(a, i - 1))) && ause == |ArrayKeys(a, i - 1)|
      {
        var lc := 0;
        var lim := ttlg;
        if lim > sizearray {
          lim := sizearray;
          if i > lim { break; }
        }
        SliceBounds(i, lg, sizearray);
        ghost var before := |ArrayKeys(a, i - 1)|;
        HistogramPending(nums[..], Ints(ArrayKeys(a, i - 1)), lg);
        while i <= lim
          invariant 1 <= i <= lim + 1 && (lg > 0 ==> Pow2(lg - 1) < i)
          invariant Pending(nums[..], Ints(ArrayKeys(a, i - 1)), lg, lc) && before + lc == |ArrayKeys(a, i - 1)|
        {
          CountSlot(nums[..], a, i, lg, lc);
          if arr[i - 1] != Nil { lc := lc + 1; }
          i := i + 1;
        }
        PendingDone(nums[..], Ints(ArrayKeys(a, i - 1)), lg, lc);
        ghost var h := nums[..];
        nums[lg] := nums[lg] + lc;
        assert nums[..] == h[lg := h[lg] + lc];
        ause := ause + lc;
        PowNext(lg);
        lg, ttlg := lg + 1, ttlg * 2;
      }
    }

    /** The key of one node, among those counted so far. */
    static method CountKey(k: Key, nums: array<nat>, ghost seen: set<Key>) returns (one: nat, a: nat)
      requires Histogram(nums[..], Ints(seen)) && k !in seen
      modifies nums
      ensures Histogram(nums[..], Ints(seen + {k})) && |seen| + one == |seen + {k}| && |Ints(seen)| + a == |Ints(seen + {k})|
    {
      hide Histogram, Pow2;
      IntsAdd(seen, k);
      var counted := CountInt(k, nums, Ints(seen));
      one, a := 1, if counted then 1 else 0;
    }

    /** numusehash: the keys of the hash part that have a value. */
    method NumUseHash(nums: array<nat>) returns (totaluse: nat, ause: nat)
      requires Valid() && Histogram(nums[..], Ints(ArrayKeys(arr[..], sizearray)))
      modifies nums
      ensures var s := ArrayKeys(arr[..], sizearray); var all := s + NodeKeys(node[..], 0);
        && Histogram(nums[..], Ints(all)) && |s| + totaluse == |all| && |Ints(s)| + ause == |Ints(all)|
    {
      hide HashOk, Stands, Apart, NoNil, Passed, IsDummy, Pow2, Slice, ArrayKeys, NodeKeys, Candidate, Histogram, Ints;
      ghost var s := ArrayKeys(arr[..], sizearray);
      ghost var t := node[..];
      ghost var all := s;
      totaluse, ause := 0, 0;
      var i: nat := node.Length;
      NoKeysYet(t);
      assert s + {} == s;
      while i > 0
        invariant i <= node.Length && node[..] == t && all == s + NodeKeys(t, i) && Histogram(nums[..], Ints(all))
        invariant |s| + totaluse == |all| && |Ints(s)| + ause == |Ints(all)|
      {
        i := i - 1;
        KeyNext(arr[..], sizearray, t, chain, i);
        if node[i].val != Nil {
          var one, a := CountKey(node[i].key.val, nums, all);
          all := all + {node[i].key.val};
          totaluse, ause := totaluse + one, ause + a;
          assert all == s + NodeKeys(t, i);
        }
      }
    }

    /** rehash: the table gets sizes for its entries and one key more; then that key has a place. */
    method Rehash(k: Key)
      requires Valid() && !InRange(k, sizearray) && !Has(node[..], k)
      modifies this, arr
      ensures Valid() && model == old(model) && (InRange(k, sizearray) || Room() > 0)
      ensures fresh(node) && (fresh(arr) || arr == old(arr))
      ensures BestSize(Ints(model.Keys + {k}), sizearray)
      decreases true, 0
    {
      hide HashOk, Stands, Apart, NoNil, Passed, IsDummy, Pow2, Slice, ArrayKeys, NodeKeys, Candidate, Histogram, InRange, Has, Outside, UpTo, BestSize;
      ghost var m := model;
      AllKeys(arr[..], sizearray, node[..], chain, m, k);
      var nums := new nat[MAXBITS + 1](_ => 0);
      NoCounts(nums[..]);
      var nasize := NumUseArray(nums);
      ArrayInts(arr[..], sizearray);
      var totaluse := nasize;
      var used, ause := NumUseHash(nums);
      totaluse, nasize := totaluse + used, nasize + ause;
      IntsAdd(m.Keys, k);
      var extra := CountInt(k, nums, Ints(m.Keys));
      if extra { nasize := nasize + 1; }
      totaluse := totaluse + 1;
      ghost var keys := m.Keys + {k};
      CandidatesFit(keys);
      var n, na := ComputeSizes(nums[..], nasize, Ints(keys));
      OutsideCount(m, k, n);
      Resize(n, totaluse - na);
    }

    /** luaH_set: the slot of a key, made if there is none. */
    method Slot(k: Key, ghost grow: bool) returns (s: int)
      requires Valid() && (!grow ==> InRange(k, sizearray) || Room() > 0)
      modifies this, arr, node
      ensures Valid() && model == old(model) && SlotOf(s, k)
      ensures fresh(arr) || arr == old(arr)
      ensures fresh(node) || node == old(node)
      ensures old(Holds(k)) ==> Unmoved(old(arr), old(node), old(sizearray)) && node[..] == old(node[..])
      ensures !grow ==> Unmoved(old(arr), old(node), old(sizearray)) && arr[..] == old(arr[..])
      ensures !grow ==> Room() >= if InRange(k, sizearray) then old(Room()) else old(Room()) - 1
      decreases grow, 2
    {
      hide HashOk, Pow2, Stands, Apart, NoNil, Has, MainPos, Free, Passed, IsDummy;
      if InRange(k, sizearray) { return k.n - 1; }
      var n := Find(k);
      if n >= 0 { return sizearray + n; }
      s := NewKey(k, grow);
    }

    /** The assignment through the slot. */
    method Store(s: int, k: Key, v: Value)
      requires Valid() && SlotOf(s, k)
      modifies arr, node, this`model
      ensures Valid() && model == Put(old(model), k, v) && Room() == old(Room()) && SameKeys(old(node[..]), node[..])
      ensures forall i :: sizearray <= i < arr.Length ==> arr[i] == old(arr[i])
    {
      hide HashOk, Pow2, Passed, Stands, Apart, NoNil, Free;
      ghost var t := node[..];
      ghost var a := arr[..];
      PutLookup(model, k, v);
      if s < sizearray {
        StoredInArray(a, sizearray, t, model, k, v);
        arr[s] := v;
        assert arr[..] == a[s := v];
      } else {
        var n := s - sizearray;
        StoredInNode(a, sizearray, t, chain, lastfree, model, k, n, v);
        node[n] := node[n].(val := v);
        assert node[..] == t[n := t[n].(val := v)];
      }
      model := Put(model, k, v);
    }

    /** Re-insertion during a resize: there is room, so the table is not rehashed. */
    method PutIn(k: Key, v: Value)
      requires Valid() && (InRange(k, sizearray) || Room() > 0)
      modifies this, arr, node
      ensures Valid() && model == Put(old(model), k, v) && Unmoved(old(arr), old(node), old(sizearray))
      ensures Room() >= if InRange(k, sizearray) then old(Room()) else old(Room()) - 1
      ensures forall i :: sizearray <= i < arr.Length ==> arr[i] == old(arr[i])
      decreases false, 3
    {
      var s := Slot(k, false);
      ghost var a := arr[..];
      assert forall i :: sizearray <= i < arr.Length ==> arr[i] == old(arr[..])[i];
      Store(s, k, v);
    }

    /** luaH_set and the assignment: the map has the new value. A nil index is an error. */
    method Set(k: Option<Key>, v: Value) returns (ok: bool)
      requires Valid()
      modifies this, arr, node
      ensures Valid() && ok == k.Some? && model == if ok then Put(old(model), k.val, v) else old(model)
      ensures k.Some? && old(Holds(k.val)) ==> Unmoved(old(arr), old(node), old(sizearray)) && SameKeys(old(node[..]), node[..])
      ensures fresh(arr) || arr == old(arr)
      ensures fresh(node) || node == old(node)
    {
      hide HashOk, Pow2, Stands, Apart, NoNil, Has, MainPos, Free, Passed, IsDummy;
      if k.None? { return false; }
      var s := Slot(k.val, true);
      Store(s, k.val, v);
      ok := true;
    }

    /** The slots of both parts, array part first. */
    ghost function Slots(): seq<Value>
      reads this, arr, node
      requires sizearray <= arr.Length
    {
      arr[..sizearray] + Values(node[..])
    }

    /** findindex: the slot a traversal has come to; -1 at its beginning, `None` for an unknown key. */
    method FindIndex(k: Option<Key>) returns (i: Option<int>)
      requires Valid()
      ensures i == None ==> k.Some? && !InRange(k.val, sizearray) && !Has(node[..], k.val)
      ensures i.Some? ==> if k.None? then i.val == -1 else SlotOf(i.val, k.val)
    {
      hide HashOk, Pow2, Stands, Apart, NoNil, Free, Passed, IsDummy;
      if k.None? { return Some(-1); }
      if InRange(k.val, sizearray) { return Some(k.val.n - 1); }
      var n := Find(k.val);
      i := if n == -1 then None else Some(sizearray + n);
    }

    /** luaH_next: the next slot with a value, its key and its value; `at` is the slot of `k`. */
    method Next(k: Option<Key>) returns (r: Step, ghost at: int)
      requires Valid()
      ensures r.Invalid? ==> k.Some? && !InRange(k.val, sizearray) && !Has(node[..], k.val)
      ensures !r.Invalid? ==> if k.None? then at == -1 else SlotOf(at, k.val)
      ensures r.End? ==> NoneAfter(Slots(), at)
      ensures r.Entry? ==> IsNext(Slots(), at, r.slot) && SlotOf(r.slot, r.key) && r.val == Slots()[r.slot]
    {
      hide HashOk, Pow2, Stands, NoNil, Has, MainPos, Free, Passed, IsDummy, Values;
      var start := FindIndex(k);
      at := -1;
      if start.None? { return Invalid, -1; }
      at := start.val;
      SlotBounds();
      var i := start.val + 1;
      while i < sizearray
        invariant at < i && (i <= sizearray || i == at + 1) && forall j :: at < j < i && j < |Slots()| ==> Slots()[j] == Nil
      {
        if arr[i] != Nil { return Entry(i, Num(i + 1), arr[i]), at; }
        i := i + 1;
      }
      while i - sizearray < node.Length
        invariant at < i && sizearray <= i <= sizearray + node.Length && forall j :: at < j < i ==> Slots()[j] == Nil
      {
        if node[i - sizearray].val != Nil {
          ValuedKeyed(node[..], chain, i - sizearray);
          assert Keyed(node[..], i - sizearray);
          return Entry(i, node[i - sizearray].key.val, node[i - sizearray].val), at;
        }
        i := i + 1;
      }
      r := End;
    }

    lemma SlotBounds()
      requires sizearray <= arr.Length
      ensures |Slots()| == sizearray + node.Length
      ensures forall i :: 0 <= i < |Slots()| ==> Slots()[i] == if i < sizearray then arr[i] else node[i - sizearray].val
    {}

    /** luaH_getn: a boundary of the table. */
    method Getn() returns (n: nat)
      requires Valid()
      ensures Boundary(model, n)
    {
      hide HashOk, Pow2, Stands, NoNil, MainPos, Free, Passed, Apart;
      var j: nat := sizearray;
      if j > 0 && arr[j - 1] == Nil {
        var i: nat := 0;
        while j - i > 1
          invariant i < j <= sizearray <= arr.Length && (i == 0 || arr[i - 1] != Nil) && arr[j - 1] == Nil
        {
          var m := (i + j) / 2;
          if arr[m - 1] == Nil { j := m; } else { i := m; }
        }
        SlotValue(arr[..], sizearray, node[..], model, i);
        SlotValue(arr[..], sizearray, node[..], model, j);
        return i;
      }
      SlotValue(arr[..], sizearray, node[..], model, j);
      if dummy {
        DummyValue(arr[..], sizearray, node[..], model);
        return j;
      }
      n := UnboundSearch(j);
    }

    /** unbound_search: doubling, then a binary search; a linear one if the doubling overflows. */
    method UnboundSearch(start: nat) returns (n: nat)
      requires Valid() && start <= sizearray && (start == 0 || Lookup(model, Num(start)) != Nil)
      ensures Boundary(model, n)
    {
      MaxSize();
      hide HashOk, Pow2, Stands, NoNil, MainPos, Free, Passed, Apart, IsDummy;
      var i: nat, j: nat := start, start + 1;
      var v := Get(Some(Num(j)));
      while v != Nil
        invariant (i == 0 || Lookup(model, Num(i)) != Nil) && i < j <= MAX_INT && v == Lookup(model, Num(j))
        decreases MAX_INT - j
      {
        i, j := j, j * 2;
        if j > MAX_INT {
          n := LinearSearch();
          return;
        }
        v := Get(Some(Num(j)));
      }
      while j - i > 1
        invariant (i == 0 || Lookup(model, Num(i)) != Nil) && i < j && Lookup(model, Num(j)) == Nil
      {
        var m := (i + j) / 2;
        v := Get(Some(Num(m)));
        if v == Nil { j := m; } else { i := m; }
      }
      return i;
    }

    method LinearSearch() returns (n: nat)
      requires Valid()
      ensures Boundary(model, n)
    {
      hide HashOk, Pow2, Stands, NoNil, MainPos, Free, Passed, Apart, IsDummy;
      var i := 1;
      var v := Get(Some(Num(i)));
      while v != Nil
        invariant i >= 1 && v == Lookup(model, Num(i)) && forall k :: 1 <= k < i ==> Num(k) in model
        invariant i > 1 ==> Lookup(model, Num(i - 1)) != Nil
        decreases |model| - i
      {
        Crowded(model, i);
        i := i + 1;
        v := Get(Some(Num(i)));
      }
      return i - 1;
    }

    /** The same arrays, and the same size of the array part. */
    ghost predicate Unmoved(a: array<Value>, n: array<Node>, size: nat)
      reads this
    {
      arr == a && node == n && sizearray == size
    }

    /** Slot `s`, counting the array part first, belongs to key `k`. */
    ghost predicate SlotOf(s: int, k: Key)
      reads this, node
    {
      SlotIn(sizearray, node[..], s, k)
    }

    /** The key has a slot already. */
    ghost predicate Holds(k: Key)
      reads this, node
    {
      InRange(k, sizearray) || Has(node[..], k)
    }

    /** A key with a value has a slot, and the value is there. */
    lemma ValuedSlot(k: Key) returns (s: int)
      requires Valid() && Lookup(model, k) != Nil
      ensures Holds(k) && SlotOf(s, k) && 0 <= s < |Slots()| && Slots()[s] == Lookup(model, k)
    {
      hide HashOk, Apart, Passed, IsDummy, NoNil, Pow2;
      assert At(arr[..], sizearray, node[..], k) == Lookup(model, k);
      SlotBounds();
      if InRange(k, sizearray) { return k.n - 1; }
      var i :| 0 <= i < node.Length && node[i].key == Some(k) && ValueOf(node[..], k) == node[i].val;
      s := sizearray + i;
    }

    lemma OneSlot(s: int, u: int, k: Key)
      requires Valid() && SlotOf(s, k) && SlotOf(u, k)
      ensures s == u
    {
      if !InRange(k, sizearray) { assert Distinct(node[..]) && Keyed(node[..], s - sizearray) && Keyed(node[..], u - sizearray); }
    }

    /** The value in a slot is the value of its key. */
    lemma SlotHolds(s: int, k: Key)
      requires Valid() && SlotOf(s, k)
      ensures 0 <= s < |Slots()| && Slots()[s] == Lookup(model, k)
    {
      hide Apart, Passed, IsDummy, NoNil, Pow2;
      assert At(arr[..], sizearray, node[..], k) == Lookup(model, k);
      SlotBounds();
      if !InRange(k, sizearray) { ValueAt(node[..], k, s - sizearray); }
    }

    /** Valid, but for the free node `n` that getfreepos has just passed. */
    ghost predicate ValidBut(n: nat)
      reads this, arr, node
    {
      && sizearray <= arr.Length && sizearray <= Pow2(MAXBITS) && node.Length == Pow2(lsizenode) && HashOk(node[..], chain) && !dummy
      && PassedBut(node[..], lastfree, n) && Apart(node[..], sizearray) && NoNil(model) && Stands(arr[..], sizearray, node[..], model)
    }
  }

  /** What getfreepos has passed does not count as room. */
  lemma FreeBelow(t: seq<Node>, f: nat, n: nat, f': nat)
    requires f' == n < f <= |t| && t[n].key.None? && forall i :: n < i < f ==> t[i].key.Some?
    ensures |Free(t, f')| == |Free(t, f)| - 1
  {
    assert Free(t, f) == Free(t, f') + {n};
  }

  lemma NoRoom(t: seq<Node>, f: nat)
    requires Free(t, f) == {}
    ensures |Free(t, f)| == 0
  {}

  lemma ValuedKeyed(t: seq<Node>, c: Chains, i: nat)
    requires HashOk(t, c) && i < |t| && t[i].val != Nil
    ensures t[i].key.Some?
  {
    assert NodeOk(t, c, i);
  }

  lemma StoredInArray(a: seq<Value>, size: nat, t: seq<Node>, m: map<Key, Value>, k: Key, v: Value)
    requires size <= |a| && Stands(a, size, t, m) && InRange(k, size)
    ensures Stands(a[k.n - 1 := v], size, t, Put(m, k, v))
  {
    PutLookup(m, k, v);
    forall x ensures At(a[k.n - 1 := v], size, t, x) == Lookup(Put(m, k, v), x) { assert At(a, size, t, x) == Lookup(m, x); }
  }

  lemma StoredInNode(a: seq<Value>, size: nat, t: seq<Node>, c: Chains, f: nat, m: map<Key, Value>, k: Key, n: nat, v: Value)
    requires size <= |a| && Stands(a, size, t, m) && !InRange(k, size) && HashOk(t, c) && n < |t| && t[n].key == Some(k)
    ensures var t' := t[n := t[n].(val := v)];
      && HashOk(t', c) && Stands(a, size, t', Put(m, k, v)) && Free(t', f) == Free(t, f)
      && (Apart(t, size) ==> Apart(t', size)) && (Passed(t, f) ==> Passed(t', f)) && !IsDummy(t)
  {
    var t' := t[n := t[n].(val := v)];
    StoredOk(t, c, n, v);
    PutLookup(m, k, v);
    assert Distinct(t) && Distinct(t');
    hide HashOk;
    forall x ensures At(a, size, t', x) == Lookup(Put(m, k, v), x) {
      assert At(a, size, t, x) == Lookup(m, x);
      StoredValue(t, n, v, x);
    }
    if Apart(t, size) { forall i | 0 <= i < |t'| && Keyed(t', i) ensures !InRange(t'[i].key.val, size) { assert Keyed(t, i); } }
    if Passed(t, f) { forall i | f <= i < |t'| ensures Keyed(t', i) { assert Keyed(t, i); } }
    assert Free(t', f) == Free(t, f);
  }

  /** twoto. */
  method TwoTo(l: nat) returns (n: nat)
    ensures n == Pow2(l)
  {
    n := 1;
    var i := 0;
    while i < l
      invariant i <= l && n == Pow2(i)
    {
      n := 2 * n;
      i := i + 1;
    }
  }

  ghost function Restrict(m: map<Key, Value>, size: nat): map<Key, Value> { map k | k in m && InRange(k, size) :: m[k] }

  ghost predicate SameKeys(t: seq<Node>, t': seq<Node>) { |t| == |t'| && forall i :: 0 <= i < |t| ==> t[i].key == t'[i].key }

  ghost predicate SlotIn(size: nat, t: seq<Node>, s: int, k: Key) {
    if InRange(k, size) then s == k.n - 1 else size <= s < size + |t| && t[s - size].key == Some(k)
  }

  /** With an empty hash part, the table stands for what is left in the array part. */
  lemma OnlyArray(a: seq<Value>, size: nat, t: seq<Node>, m: map<Key, Value>, a': seq<Value>, size': nat, t': seq<Node>, low: nat)
    requires size <= |a| && Stands(a, size, t, m) && size' <= |a'| && low == (if size' < size then size' else size) && NoNil(m)
    requires forall i :: 0 <= i < size && i < |a'| ==> a'[i] == a[i]
    requires forall i :: size <= i < size' ==> a'[i] == Nil
    requires forall k :: !Has(t', k)
    ensures Stands(a', size', t', Restrict(m, low)) && NoNil(Restrict(m, low))
    ensures forall k :: Lookup(Restrict(m, low), k) == if InRange(k, low) then Lookup(m, k) else Nil
  {
    forall k ensures At(a', size', t', k) == Lookup(Restrict(m, low), k) {
      assert At(a, size, t, k) == Lookup(m, k);
      assert !Has(t', k);
    }
  }

  lemma {:induction false} FreeCount(t: seq<Node>, n: nat)
    requires n <= |t| && forall i :: 0 <= i < |t| ==> t[i].key.None?
    ensures |Free(t, n)| == n
    decreases n
  {
    if n == 0 { assert Free(t, 0) == {}; }
    else {
      FreeCount(t, n - 1);
      assert Free(t, n) == Free(t, n - 1) + {n - 1};
    }
  }

  /** The keys with a value that do not go into an array part of this size. */
  ghost function Outside(m: map<Key, Value>, size: nat): set<Key> { set k | k in m && !InRange(k, size) }

  ghost function InArray(m: map<Key, Value>, size: nat): set<Key> { set k | k in m && InRange(k, size) }

  /** The keys of the nodes from position `i` on, those with a value. */
  ghost function NodeKeys(t: seq<Node>, i: nat): set<Key> {
    set j | i <= j < |t| && t[j].val != Nil && t[j].key.Some? :: t[j].key.val
  }

  /** What of `target` has been inserted again. */
  ghost predicate Partly(m: map<Key, Value>, target: map<Key, Value>, done: set<Key>) {
    forall k :: Lookup(m, k) == if k in done then Lookup(target, k) else Nil
  }

  lemma StartDone(m: map<Key, Value>, target: map<Key, Value>, low: nat)
    requires forall k :: Lookup(m, k) == if InRange(k, low) then Lookup(target, k) else Nil
    ensures Partly(m, target, InArray(target, low))
  {}

  lemma RoomStart(target: map<Key, Value>, nasize: nat, low: nat, size: nat)
    requires low <= nasize && low <= size
    ensures Outside(target, nasize) - InArray(target, low) == Outside(target, nasize)
  {}

  /** One more entry: there is room for it if it is outside the array part. */
  lemma PartlyPut(m: map<Key, Value>, target: map<Key, Value>, done: set<Key>, k: Key, nasize: nat)
    requires Partly(m, target, done) && k in target && k !in done
    ensures Partly(Put(m, k, target[k]), target, done + {k})
    ensures var rest := |Outside(target, nasize) - done|; var rest' := |Outside(target, nasize) - (done + {k})|;
      if InRange(k, nasize) then rest' == rest else rest' == rest - 1
  {
    PutLookup(m, k, target[k]);
    var o := Outside(target, nasize);
    if InRange(k, nasize) { assert o - (done + {k}) == o - done; }
    else { assert o - (done + {k}) == (o - done) - {k}; }
  }

  lemma SameFront(a: seq<Value>, b: seq<Value>, size: nat, t: seq<Node>, m: map<Key, Value>)
    requires size <= |a| && size <= |b| && Stands(a, size, t, m) && forall i :: 0 <= i < size ==> b[i] == a[i]
    ensures Stands(b, size, t, m)
  {
    forall k ensures At(b, size, t, k) == Lookup(m, k) { assert At(a, size, t, k) == Lookup(m, k); }
  }

  /** The next slot of the vanishing slice. */
  lemma SlotNext(a: seq<Value>, size: nat, t: seq<Node>, target: map<Key, Value>, i: nat)
    requires size <= |a| && Stands(a, size, t, target) && NoNil(target) && i < size
    ensures var k := Num(i + 1); var d := InArray(target, i);
      if a[i] == Nil then InArray(target, i + 1) == d
      else k in target && target[k] == a[i] && k !in d && InArray(target, i + 1) == d + {k}
  {
    var k := Num(i + 1);
    assert At(a, size, t, k) == Lookup(target, k);
    forall x ensures x in InArray(target, i + 1) <==> x in InArray(target, i) || (x == k && k in target) {}
  }

  /** The next node of the old hash part. */
  lemma NodeNext(a: seq<Value>, size: nat, t: seq<Node>, c: Chains, target: map<Key, Value>, i: nat)
    requires size <= |a| && HashOk(t, c) && Apart(t, size) && Stands(a, size, t, target) && NoNil(target) && i < |t|
    ensures if t[i].val == Nil then NodeKeys(t, i) == NodeKeys(t, i + 1)
      else t[i].key.Some? && (var k := t[i].key.val;
        k in target && target[k] == t[i].val && k !in InArray(target, size) + NodeKeys(t, i + 1) && NodeKeys(t, i) == NodeKeys(t, i + 1) + {k})
  {
    if t[i].val != Nil {
      ValuedKeyed(t, c, i);
      var k := t[i].key.val;
      assert Keyed(t, i) && Distinct(t);
      ValueAt(t, k, i);
      assert At(a, size, t, k) == Lookup(target, k);
      forall j | i + 1 <= j < |t| && t[j].key.Some? ensures t[j].key.val != k { assert Keyed(t, j); }
    }
  }

  lemma NoKeysYet(t: seq<Node>)
    ensures NodeKeys(t, |t|) == {}
  {}

  lemma AllDone(a: seq<Value>, size: nat, t: seq<Node>, c: Chains, target: map<Key, Value>, m: map<Key, Value>)
    requires size <= |a| && HashOk(t, c) && Stands(a, size, t, target) && NoNil(target) && NoNil(m)
    requires Partly(m, target, InArray(target, size) + NodeKeys(t, 0))
    ensures m == target
  {
    forall k ensures Lookup(m, k) == Lookup(target, k) {
      assert At(a, size, t, k) == Lookup(target, k);
      if k in target && !InRange(k, size) {
        var i :| 0 <= i < |t| && t[i].key == Some(k) && ValueOf(t, k) == t[i].val;
        assert t[i].key.val in NodeKeys(t, 0);
      }
    }
    assert m.Keys == target.Keys by {
      forall k ensures k in m <==> k in target { assert Lookup(m, k) == Lookup(target, k); }
    }
    forall k | k in m ensures m[k] == target[k] { assert Lookup(m, k) == Lookup(target, k); }
  }

  /** The keys of the first `n` slots of the array part that have a value. */
  ghost function ArrayKeys(a: seq<Value>, n: nat): set<Key> { set i | 1 <= i <= n && i <= |a| && a[i - 1] != Nil :: Num(i) }

  /** The keys that may go into an array part. */
  predicate Candidate(k: Key) { k.Num? && 1 <= k.n <= Pow2(MAXBITS) }

  ghost function Ints(s: set<Key>): set<int> { set k | k in s && Candidate(k) :: k.n }

  /** numusearray has come to `i` when it begins slice `lg`. */
  ghost predicate Reached(i: nat, lg: nat, size: nat) {
    if lg == 0 then i == 1 else i == (if Pow2(lg - 1) < size then Pow2(lg - 1) else size) + 1
  }

  lemma SliceBounds(i: nat, lg: nat, size: nat)
    requires Reached(i, lg, size) && (Pow2(lg) > size ==> i <= size)
    ensures var lim := if Pow2(lg) > size then size else Pow2(lg);
      1 <= i <= lim + 1 && (lg > 0 ==> Pow2(lg - 1) < i) && Reached(lim + 1, lg + 1, size)
  {}

  /** `lc` keys of slice `lg` are still to be added to the histogram. */
  ghost predicate Pending(nums: seq<nat>, s: set<int>, lg: nat, lc: nat) {
    |nums| == MAXBITS + 1 && forall j :: 0 <= j <= MAXBITS ==> |Slice(s, j)| == nums[j] + if j == lg then lc else 0
  }

  lemma HistogramPending(nums: seq<nat>, s: set<int>, lg: nat)
    requires Histogram(nums, s)
    ensures Pending(nums, s, lg, 0)
  {}

  lemma PendingDone(nums: seq<nat>, s: set<int>, lg: nat, lc: nat)
    requires Pending(nums, s, lg, lc) && lg <= MAXBITS
    ensures Histogram(nums[lg := nums[lg] + lc], s)
  {}

  lemma NoneCounted(a: seq<Value>)
    ensures ArrayKeys(a, 0) == {} && Ints({}) == {}
  {}

  lemma IntsAdd(s: set<Key>, k: Key)
    requires k !in s
    ensures |s + {k}| == |s| + 1
    ensures if Candidate(k) then Ints(s + {k}) == Ints(s) + {k.n} && k.n !in Ints(s) else Ints(s + {k}) == Ints(s)
  {
    if Candidate(k) {
      assert k.n !in Ints(s);
      forall n ensures n in Ints(s + {k}) <==> n in Ints(s) + {k.n} {
        if n in Ints(s) { assert Num(n) in s + {k}; }
      }
    }
  }

  lemma SlotKeys(a: seq<Value>, n: nat)
    requires 1 <= n <= |a|
    ensures if a[n - 1] == Nil then ArrayKeys(a, n) == ArrayKeys(a, n - 1)
      else Num(n) !in ArrayKeys(a, n - 1) && ArrayKeys(a, n) == ArrayKeys(a, n - 1) + {Num(n)}
  {}

  /** One slot of the array part. */
  lemma CountSlot(nums: seq<nat>, a: seq<Value>, i: nat, lg: nat, lc: nat)
    requires 1 <= i <= |a| && i <= Pow2(lg) && (lg > 0 ==> Pow2(lg - 1) < i) && lg <= MAXBITS
    requires Pending(nums, Ints(ArrayKeys(a, i - 1)), lg, lc)
    ensures var here := if a[i - 1] != Nil then 1 else 0;
      && Pending(nums, Ints(ArrayKeys(a, i)), lg, lc + here) && |ArrayKeys(a, i)| == |ArrayKeys(a, i - 1)| + here
  {
    hide ArrayKeys, Ints, Slice, Pow2;
    var s := ArrayKeys(a, i - 1);
    SlotKeys(a, i);
    if a[i - 1] != Nil {
      IntsAdd(s, Num(i));
      PowMono(lg, MAXBITS);
      forall j | 0 <= j <= MAXBITS ensures |Slice(Ints(s) + {i}, j)| == nums[j] + if j == lg then lc + 1 else 0 {
        SliceAdd(Ints(s), i, lg, j);
      }
    }
  }

  /** countint. */
  method CountInt(k: Key, nums: array<nat>, ghost s: set<int>) returns (counted: bool)
    requires Histogram(nums[..], s) && (Candidate(k) ==> k.n !in s)
    modifies nums
    ensures counted == Candidate(k) && Histogram(nums[..], if counted then s + {k.n} else s)
  {
    MaxSize();
    counted := k.Num? && 0 < k.n <= 0x400_0000;
    if counted {
      var i := CeilLog2(k.n);
      SliceFits(k.n, i);
      ghost var h := nums[..];
      nums[i] := nums[i] + 1;
      assert nums[..] == h[i := h[i] + 1];
      forall j | 0 <= j <= MAXBITS ensures nums[j] == |Slice(s + {k.n}, j)| { SliceAdd(s, k.n, i, j); }
    }
  }

  /** MAXASIZE. */
  lemma MaxSize()
    ensures Pow2(MAXBITS) == 0x400_0000
  {
    Pow8();
    PowAdd(8, 8);
    PowAdd(16, 8);
    PowAdd(24, 2);
  }

  lemma SliceFits(n: nat, i: nat)
    requires InSlice(n, i) && n <= Pow2(MAXBITS)
    ensures i <= MAXBITS
  {
    PowMono(MAXBITS, if i > MAXBITS then i - 1 else MAXBITS);
  }

  lemma KeyNext(a: seq<Value>, size: nat, t: seq<Node>, c: Chains, i: nat)
    requires HashOk(t, c) && Apart(t, size) && i < |t|
    ensures if t[i].val == Nil then NodeKeys(t, i) == NodeKeys(t, i + 1)
      else t[i].key.Some? && (var k := t[i].key.val;
        k !in ArrayKeys(a, size) + NodeKeys(t, i + 1) && NodeKeys(t, i) == NodeKeys(t, i + 1) + {k})
  {
    if t[i].val != Nil {
      ValuedKeyed(t, c, i);
      assert Keyed(t, i) && Distinct(t);
      forall j | i + 1 <= j < |t| && t[j].key.Some? ensures t[j].key != t[i].key { assert Keyed(t, j); }
    }
  }

  /** The keys of the two parts are the keys of the map. */
  lemma AllKeys(a: seq<Value>, size: nat, t: seq<Node>, c: Chains, m: map<Key, Value>, k: Key)
    requires size <= |a| && HashOk(t, c) && Apart(t, size) && Stands(a, size, t, m) && NoNil(m) && !InRange(k, size) && !Has(t, k)
    ensures ArrayKeys(a, size) + NodeKeys(t, 0) == m.Keys && k !in m.Keys
  {
    assert At(a, size, t, k) == Lookup(m, k);
    forall x ensures x in ArrayKeys(a, size) + NodeKeys(t, 0) <==> x in m {
      assert At(a, size, t, x) == Lookup(m, x);
      KeyValued(a, size, t, c, x);
    }
  }

  lemma KeyValued(a: seq<Value>, size: nat, t: seq<Node>, c: Chains, x: Key)
    requires size <= |a| && HashOk(t, c) && Apart(t, size)
    ensures x in ArrayKeys(a, size) + NodeKeys(t, 0) <==> At(a, size, t, x) != Nil
  {
    assert Distinct(t);
    hide HashOk;
    forall i | 0 <= i < |t| && t[i].key == Some(x) ensures !InRange(x, size) { assert Keyed(t, i); }
    if !InRange(x, size) {
      if x in NodeKeys(t, 0) { var i :| 0 <= i < |t| && t[i].val != Nil && t[i].key == Some(x); ValueAt(t, x, i); }
      if ValueOf(t, x) != Nil {
        var i :| 0 <= i < |t| && t[i].key == Some(x) && ValueOf(t, x) == t[i].val;
        assert t[i].key.val in NodeKeys(t, 0);
      }
    }
  }

  lemma NoCounts(nums: seq<nat>)
    requires |nums| == MAXBITS + 1 && forall i :: 0 <= i < |nums| ==> nums[i] == 0
    ensures Histogram(nums, {})
  {
    EmptySlices();
  }

  lemma {:induction false} ArrayIntsTo(a: seq<Value>, n: nat)
    requires n <= |a| && n <= Pow2(MAXBITS)
    ensures |Ints(ArrayKeys(a, n))| == |ArrayKeys(a, n)|
    decreases n
  {
    hide ArrayKeys, Ints, Pow2;
    if n == 0 { NoneCounted(a); }
    else {
      ArrayIntsTo(a, n - 1);
      SlotKeys(a, n);
      if a[n - 1] != Nil { IntsAdd(ArrayKeys(a, n - 1), Num(n)); }
    }
  }

  lemma ArrayInts(a: seq<Value>, size: nat)
    requires size <= |a| && size <= Pow2(MAXBITS)
    ensures |Ints(ArrayKeys(a, size))| == |ArrayKeys(a, size)|
  {
    ArrayIntsTo(a, size);
  }

  lemma CandidatesFit(s: set<Key>)
    ensures forall n :: n in Ints(s) ==> 1 <= n <= Pow2(MAXBITS)
  {}

  ghost function RangeKeys(s: set<Key>, n: nat): set<Key> { set k | k in s && InRange(k, n) }

  lemma RangeAdd(s: set<Key>, k: Key, n: nat)
    requires k !in s && n <= Pow2(MAXBITS)
    ensures |RangeKeys(s + {k}, n)| == |RangeKeys(s, n)| + if InRange(k, n) then 1 else 0
    ensures |UpTo(Ints(s + {k}), n)| == |UpTo(Ints(s), n)| + if InRange(k, n) then 1 else 0
  {
    hide Ints, Pow2, UpTo;
    IntsAdd(s, k);
    RangeIsCandidate(k, n);
    if InRange(k, n) {
      assert RangeKeys(s + {k}, n) == RangeKeys(s, n) + {k};
      UpToAdd(Ints(s), k.n, n);
    } else {
      assert RangeKeys(s + {k}, n) == RangeKeys(s, n);
      if Candidate(k) { UpToBeyond(Ints(s), k.n, n); }
    }
  }

  lemma RangeIsCandidate(k: Key, n: nat)
    requires n <= Pow2(MAXBITS)
    ensures InRange(k, n) ==> Candidate(k)
  {}

  lemma UpToAdd(s: set<int>, x: int, n: nat)
    requires x !in s && 1 <= x <= n
    ensures |UpTo(s + {x}, n)| == |UpTo(s, n)| + 1
  {
    assert UpTo(s + {x}, n) == UpTo(s, n) + {x};
  }

  lemma UpToBeyond(s: set<int>, x: int, n: nat)
    requires !(1 <= x <= n)
    ensures UpTo(s + {x}, n) == UpTo(s, n)
  {}

  /** Of the keys with an integer in 1..n there are as many as of those integers. */
  lemma {:induction false} InRangeCount(s: set<Key>, n: nat)
    requires n <= Pow2(MAXBITS)
    ensures |RangeKeys(s, n)| == |UpTo(Ints(s), n)|
    decreases s
  {
    if s == {} {
      assert RangeKeys(s, n) == {} && UpTo(Ints(s), n) == {};
    } else {
      hide RangeKeys, UpTo, Ints, Pow2, InRange;
      var k :| k in s;
      InRangeCount(s - {k}, n);
      RangeAdd(s - {k}, k, n);
      assert s - {k} + {k} == s;
    }
  }

  lemma SplitCount(s: set<Key>, n: nat)
    ensures |s| == |RangeKeys(s, n)| + |s - RangeKeys(s, n)|
  {
    assert s == RangeKeys(s, n) + (s - RangeKeys(s, n));
  }

  /** The hash part is made as large as there are keys for it, the new one included. */
  lemma OutsideCount(m: map<Key, Value>, k: Key, n: nat)
    requires k !in m && n <= Pow2(MAXBITS)
    ensures var s := m.Keys + {k};
      |s| - |UpTo(Ints(s), n)| == |Outside(m, n)| + if InRange(k, n) then 0 else 1
    ensures |m.Keys + {k}| == |m| + 1
  {
    hide UpTo, Ints, Pow2;
    var s := m.Keys + {k};
    InRangeCount(s, n);
    SplitCount(s, n);
    assert s - RangeKeys(s, n) == Outside(m, n) + if InRange(k, n) then {} else {k};
  }

  ghost function Values(t: seq<Node>): (v: seq<Value>)
    ensures |v| == |t| && forall i :: 0 <= i < |t| ==> v[i] == t[i].val
  {
    seq(|t|, i requires 0 <= i < |t| => t[i].val)
  }

  /** What luaH_next comes to: an unknown key is an error. */
  datatype Step = Invalid | End | Entry(slot: int, key: Key, val: Value)

  ghost predicate NoneAfter(v: seq<Value>, i: int) { -1 <= i < |v| && forall j :: i < j < |v| ==> v[j] == Nil }

  ghost predicate IsNext(v: seq<Value>, i: int, j: int) {
    -1 <= i < j < |v| && v[j] != Nil && forall x :: i < x < j ==> v[x] == Nil
  }

  const MAX_INT: nat := 0x7FFF_FFFD

  /** `n` is present, or 0, and `n + 1` is absent. */
  ghost predicate Boundary(m: map<Key, Value>, n: nat) {
    (n == 0 || Lookup(m, Num(n)) != Nil) && Lookup(m, Num(n + 1)) == Nil
  }

  lemma SlotValue(a: seq<Value>, size: nat, t: seq<Node>, m: map<Key, Value>, i: nat)
    requires size <= |a| && Stands(a, size, t, m) && i <= size
    ensures i > 0 ==> Lookup(m, Num(i)) == a[i - 1]
  {
    assert At(a, size, t, Num(i)) == Lookup(m, Num(i));
  }

  lemma DummyValue(a: seq<Value>, size: nat, t: seq<Node>, m: map<Key, Value>)
    requires size <= |a| && Stands(a, size, t, m) && IsDummy(t)
    ensures Lookup(m, Num(size + 1)) == Nil
  {
    assert At(a, size, t, Num(size + 1)) == Lookup(m, Num(size + 1));
    assert !Has(t, Num(size + 1));
  }

  ghost function FirstKeys(n: nat): set<Key> { set i | 1 <= i <= n :: Num(i) }

  lemma {:induction false} FirstCount(n: nat)
    ensures |FirstKeys(n)| == n
    decreases n
  {
    if n == 0 { assert FirstKeys(0) == {}; }
    else {
      FirstCount(n - 1);
      assert FirstKeys(n) == FirstKeys(n - 1) + {Num(n)};
    }
  }

  lemma Crowded(m: map<Key, Value>, i: nat)
    requires Num(i) in m && forall k :: 1 <= k < i ==> Num(k) in m
    ensures i <= |m|
  {
    FirstCount(i);
    assert FirstKeys(i) <= m.Keys;
    SubsetSize(FirstKeys(i), m.Keys);
  }

  ghost predicate PassedBut(t: seq<Node>, lastfree: nat, n: nat) {
    lastfree == n < |t| && t[n].key.None? && forall i :: n < i < |t| ==> Keyed(t, i)
  }

  /** The table stands for the same map: the same entries, and a new key without a value. */
  lemma StandsStill(a: seq<Value>, size: nat, t: seq<Node>, t': seq<Node>, m: map<Key, Value>, c: Chains, c': Chains)
    requires size <= |a| && HashOk(t, c) && HashOk(t', c') && SameEntries(t, t') && Stands(a, size, t, m)
    ensures Stands(a, size, t', m)
  {
    forall x ensures At(a, size, t', x) == Lookup(m, x) {
      SameValues(t, t', x);
      assert At(a, size, t, x) == Lookup(m, x);
    }
  }

  lemma TakenOver(a: seq<Value>, size: nat, t: seq<Node>, c: Chains, f: nat, m: map<Key, Value>, k: Key)
    requires size <= |a| && HashOk(t, c) && Stands(a, size, t, m) && Apart(t, size) && Passed(t, f)
    requires !Has(t, k) && !InRange(k, size) && t[MainPos(k, |t|)].val == Nil
    ensures var mp := MainPos(k, |t|); var t' := t[mp := Node(Some(k), Nil, t[mp].next)];
      && HashOk(t', c) && Stands(a, size, t', m) && Apart(t', size) && Passed(t', f) && |Free(t', f)| >= |Free(t, f)| - 1
  {
    hide HashOk, SameEntries, Stands, Has, MainPos;
    var mp := MainPos(k, |t|);
    var t' := t[mp := Node(Some(k), Nil, t[mp].next)];
    PutOver(t, c, k);
    OverEntries(t, k, mp);
    StandsStill(a, size, t, t', m, c, c);
    OneKeyMore(t, size, f, k, mp);
  }

  lemma OneKeyMore(t: seq<Node>, size: nat, f: nat, k: Key, mp: nat)
    requires Apart(t, size) && Passed(t, f) && !InRange(k, size) && mp < |t|
    ensures var t' := t[mp := Node(Some(k), Nil, t[mp].next)];
      Apart(t', size) && Passed(t', f) && |Free(t', f)| >= |Free(t, f)| - 1
  {
    var t' := t[mp := Node(Some(k), Nil, t[mp].next)];
    forall j | 0 <= j < |t'| && Keyed(t', j) ensures !InRange(t'[j].key.val, size) { if j != mp { assert Keyed(t, j); } }
    forall j | f <= j < |t'| ensures Keyed(t', j) { assert Keyed(t, j); }
    LessFree(t, t', f, f, mp);
  }

  lemma ChainedAfter(a: seq<Value>, size: nat, t: seq<Node>, c: Chains, f: nat, m: map<Key, Value>, k: Key, n: nat, x: nat)
    requires size <= |a| && HashOk(t, c) && |t| == |c| && Stands(a, size, t, m) && Apart(t, size) && PassedBut(t, f, n)
    requires !Has(t, k) && !InRange(k, size)
    requires var mp := MainPos(k, |t|); Keyed(t, mp) && MainOf(t, mp) == mp && x < |c[mp]| && c[mp][x] == mp
    ensures var mp := MainPos(k, |t|); var t' := InsertedAfter(t, k, mp, n); var c' := Rechained(c, Spliced(c[mp], x, n));
      && HashOk(t', c') && Stands(a, size, t', m) && Apart(t', size) && Passed(t', f) && |Free(t', f)| >= |Free(t, f)|
  {
    hide HashOk, SameEntries, Stands, Spliced, Rechained, Has, MainPos, Apart, Free, InsertedAfter;
    var mp := MainPos(k, |t|);
    var t' := InsertedAfter(t, k, mp, n);
    PutAfter(t, c, k, n, x);
    AfterEntries(t, k, mp, n);
    StandsStill(a, size, t, t', m, c, Rechained(c, Spliced(c[mp], x, n)));
    InsertedSize(t, k, mp, n);
    InsertedIs(t, k, mp, n);
    NewKeyApart(t, t', size, f, k, n, n);
  }

  /** One node more is keyed: at `n`, which getfreepos has passed; `k` is at `i`. */
  lemma NewKeyApart(t: seq<Node>, t': seq<Node>, size: nat, f: nat, k: Key, n: nat, i: nat)
    requires PassedBut(t, f, n) && Apart(t, size) && |t'| == |t| && i < |t| && !InRange(k, size) && t'[i].key == Some(k)
    requires t'[n].key.Some? && (i != n ==> Keyed(t, i) && t'[n].key == t[i].key)
    requires forall j :: 0 <= j < |t| && j != n && j != i ==> t'[j].key == t[j].key
    ensures Apart(t', size) && Passed(t', f) && |Free(t', f)| >= |Free(t, f)|
  {
    forall j | 0 <= j < |t'| && Keyed(t', j) ensures !InRange(t'[j].key.val, size) {
      if j == n && i != n { assert Keyed(t, i); } else if j != i { assert Keyed(t, j); }
    }
    forall j | f <= j < |t'| ensures Keyed(t', j) { assert j > n ==> Keyed(t, j); }
    forall j | j in Free(t, f) ensures j in Free(t', f) {}
    SubsetSize(Free(t, f), Free(t', f));
  }

  lemma MovedAway(a: seq<Value>, size: nat, t: seq<Node>, c: Chains, f: nat, m: map<Key, Value>, k: Key, p: nat, mp: nat, n: nat, x: nat)
    requires size <= |a| && Stands(a, size, t, m) && Apart(t, size) && PassedBut(t, f, n)
    requires !Has(t, k) && !InRange(k, size) && CanMove(t, c, p, mp, n, x) && mp == MainPos(k, |t|)
    ensures var t' := Moved(t, k, p, mp, n); var c' := MovedChains(c, x, mp, n);
      && HashOk(t', c') && Stands(a, size, t', m) && Apart(t', size) && Passed(t', f) && |Free(t', f)| >= |Free(t, f)|
  {
    hide HashOk, SameEntries, Stands, MovedChains, Has, MainPos, Apart, Free, Moved;
    var t' := Moved(t, k, p, mp, n);
    MoveFacts(t, c, p, mp, n, x);
    PutMoved(t, c, k, p, mp, n, x);
    MovedEntries(t, k, p, mp, n);
    StandsStill(a, size, t, t', m, c, MovedChains(c, x, mp, n));
    MovedKeys(t, k, p, mp, n);
    NewKeyApart(t, t', size, f, k, n, mp);
  }

  lemma InsertedIs(t: seq<Node>, k: Key, m: nat, n: nat)
    requires m < |t| && n < |t| && m != n
    ensures InsertedAfter(t, k, m, n) == t[n := Node(Some(k), Nil, t[m].next)][m := t[m].(next := n)]
  {}

  lemma MovedIs(t: seq<Node>, k: Key, p: nat, m: nat, n: nat)
    requires p < |t| && m < |t| && n < |t|
    ensures Moved(t, k, p, m, n) == t[p := t[p].(next := n)][n := t[m]][m := Node(Some(k), Nil, -1)]
  {}

  lemma ChainIndices(t: seq<Node>, c: Chains, m: nat, b: nat)
    requires HashOk(t, c) && m < |t| == |c| && b < |c[m]|
    ensures c[m][b] < |t|
  {
    ChainOf(t, c, m);
    Link(t, c, m, b);
  }

  /** The walk from the main position comes to the predecessor of `m`, at `a - 1`. */
  lemma NextOnChain(t: seq<Node>, c: Chains, m: nat, b: nat, a: nat)
    requires HashOk(t, c) && m < |t| == |c| && b < a < |c[m]| && c[m][a] == m && c[m][b] < |t| && t[c[m][b]].next != m
    ensures b + 1 < a && t[c[m][b]].next == c[m][b + 1] && c[m][b + 1] < |t|
  {
    hide HashOk, ChainAt;
    ChainOf(t, c, m);
    Link(t, c, m, b);
    Link(t, c, m, b + 1);
  }

  lemma Predecessor(t: seq<Node>, c: Chains, m: nat, b: nat, a: nat)
    requires HashOk(t, c) && m < |t| == |c| && b < a < |c[m]| && c[m][a] == m && c[m][b] < |t| && t[c[m][b]].next == m
    ensures b + 1 == a
  {
    hide HashOk, ChainAt;
    ChainOf(t, c, m);
    Link(t, c, m, b);
    ChainDistinct(t, c, m);
  }
}
