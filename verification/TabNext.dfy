/** A traversal with luaH_next, while the program changes values between the calls. */
module TabNext {
  import opened Wrappers
  import opened TabChain
  import opened TabTable
  import opened TabSizes

  /** An assignment to a field that is there. */
  datatype Edit = Edit(key: Key, val: Value)

  datatype Pair = Pair(key: Key, val: Value)

  ghost function Overwritten(m: map<Key, Value>, e: Edit): map<Key, Value> {
    if Lookup(m, e.key) != Nil then Put(m, e.key, e.val) else m
  }

  ghost function AllOverwritten(m: map<Key, Value>, es: seq<Edit>): map<Key, Value> {
    if es == [] then m else Overwritten(AllOverwritten(m, es[..|es| - 1]), es[|es| - 1])
  }

  ghost function Batch(edits: seq<seq<Edit>>, s: nat): seq<Edit> { if s < |edits| then edits[s] else [] }

  /** The map at call `s` of luaH_next, if `edits[s]` follows it. */
  ghost function ModelAt(m: map<Key, Value>, edits: seq<seq<Edit>>, s: nat): map<Key, Value> {
    if s == 0 then m else AllOverwritten(ModelAt(m, edits, s - 1), Batch(edits, s - 1))
  }

  /** No edit takes the value of `k` away. */
  ghost predicate Keeps(es: seq<Edit>, k: Key) { forall i :: 0 <= i < |es| && es[i].key == k ==> es[i].val != Nil }

  ghost predicate Seen(visited: seq<Pair>, k: Key) { exists s :: 0 <= s < |visited| && visited[s].key == k }

  lemma {:induction false} KeptValue(m: map<Key, Value>, es: seq<Edit>, k: Key)
    requires Lookup(m, k) != Nil && Keeps(es, k)
    ensures Lookup(AllOverwritten(m, es), k) != Nil
  {
    if es != [] {
      KeptValue(m, es[..|es| - 1], k);
      var m' := AllOverwritten(m, es[..|es| - 1]);
      PutLookup(m', es[|es| - 1].key, es[|es| - 1].val);
    }
  }

  method Overwrite(t: Table, es: seq<Edit>)
    requires t.Valid()
    modifies t, t.arr, t.node
    ensures t.Valid() && t.model == AllOverwritten(old(t.model), es)
    ensures t.Unmoved(old(t.arr), old(t.node), old(t.sizearray)) && SameKeys(old(t.node[..]), t.node[..])
  {
    hide Stands, NoNil, Apart, Passed, HashOk, IsDummy, Put;
    var i := 0;
    while i < |es|
      invariant i <= |es| && t.Valid() && t.model == AllOverwritten(old(t.model), es[..i])
      invariant t.Unmoved(old(t.arr), old(t.node), old(t.sizearray)) && SameKeys(old(t.node[..]), t.node[..])
    {
      assert es[..i + 1][..i] == es[..i];
      var v := t.Get(Some(es[i].key));
      if v != Nil {
        ghost var s := t.ValuedSlot(es[i].key);
        var ok := t.Set(Some(es[i].key), es[i].val);
      }
      i := i + 1;
    }
    assert es[..i] == es;
  }

  /** What the traversal has missed so far lies ahead of slot `at`. */
  ghost predicate Ahead(m: map<Key, Value>, edits: seq<seq<Edit>>, visited: seq<Pair>, size: nat, t: seq<Node>, at: int) {
    forall k, s {:trigger SlotIn(size, t, s, k)} :: Unkept(m, edits, |visited|, k) || Seen(visited, k) || !SlotIn(size, t, s, k) || s > at
  }

  /** `k` had no value at first, or an edit before call `n` took it away. */
  ghost predicate Unkept(m: map<Key, Value>, edits: seq<seq<Edit>>, n: nat, k: Key) {
    Lookup(m, k) == Nil || exists s :: 0 <= s < n && !Keeps(Batch(edits, s), k)
  }

  lemma {:induction false} KeptAt(m: map<Key, Value>, edits: seq<seq<Edit>>, n: nat, k: Key)
    requires !Unkept(m, edits, n, k)
    ensures Lookup(ModelAt(m, edits, n), k) != Nil
    decreases n
  {
    if n > 0 {
      assert Keeps(Batch(edits, n - 1), k);
      KeptAt(m, edits, n - 1, k);
      KeptValue(ModelAt(m, edits, n - 1), Batch(edits, n - 1), k);
    }
  }

  /** The slots of the pairs visited: strictly increasing, the last one is `at`. */
  ghost predicate InOrder(visited: seq<Pair>, slots: seq<int>, size: nat, t: seq<Node>, at: int) {
    && |slots| == |visited| && (forall s :: 0 <= s < |slots| ==> SlotIn(size, t, slots[s], visited[s].key) && slots[s] <= at)
    && forall s, u :: 0 <= s < u < |slots| ==> slots[s] < slots[u]
  }

  lemma OneKey(size: nat, t: seq<Node>, s: int, k: Key, k': Key)
    requires SlotIn(size, t, s, k) && SlotIn(size, t, s, k')
    ensures k == k'
  {}

  lemma SameSlots(size: nat, t: seq<Node>, t': seq<Node>)
    requires SameKeys(t, t')
    ensures forall s, k :: SlotIn(size, t, s, k) <==> SlotIn(size, t', s, k)
  {}

  /** One more pair visited: nothing that was kept lies between. */
  lemma VisitOne(t: Table, m: map<Key, Value>, edits: seq<seq<Edit>>, visited: seq<Pair>, at: int, slot: int, p: Pair)
    requires t.Valid() && t.model == ModelAt(m, edits, |visited|)
    requires Ahead(m, edits, visited, t.sizearray, t.node[..], at) && IsNext(t.Slots(), at, slot) && t.SlotOf(slot, p.key)
    ensures Ahead(m, edits, visited + [p], t.sizearray, t.node[..], slot)
  {
    hide IsDummy, Stands, NoNil, Apart, Passed, HashOk, SlotIn;
    forall k, s | SlotIn(t.sizearray, t.node[..], s, k) && !Unkept(m, edits, |visited + [p]|, k) && !Seen(visited + [p], k)
      ensures s > slot
    {
      Unseen(m, edits, visited, p, k);
      KeptAt(m, edits, |visited|, k);
      t.SlotHolds(s, k);
      if s == slot { OneKey(t.sizearray, t.node[..], s, k, p.key); }
    }
  }

  lemma Unseen(m: map<Key, Value>, edits: seq<seq<Edit>>, visited: seq<Pair>, p: Pair, k: Key)
    requires !Unkept(m, edits, |visited| + 1, k) && !Seen(visited + [p], k)
    ensures !Unkept(m, edits, |visited|, k) && !Seen(visited, k) && k != p.key
  {
    forall s | 0 <= s < |visited| ensures visited[s].key != k { assert (visited + [p])[s] == visited[s]; }
    assert (visited + [p])[|visited|] == p;
  }

  /** The end of the traversal: nothing that was kept has been missed. */
  lemma Finished(t: Table, m: map<Key, Value>, edits: seq<seq<Edit>>, visited: seq<Pair>, at: int)
    requires t.Valid() && t.model == ModelAt(m, edits, |visited|)
    requires Ahead(m, edits, visited, t.sizearray, t.node[..], at) && NoneAfter(t.Slots(), at)
    ensures forall k :: Seen(visited, k) || Unkept(m, edits, |visited|, k)
  {
    hide IsDummy, Stands, NoNil, Apart, Passed, HashOk, SlotIn;
    forall k | !Unkept(m, edits, |visited|, k) ensures Seen(visited, k) {
      KeptAt(m, edits, |visited|, k);
      var s := t.ValuedSlot(k);
    }
  }

  lemma ModelStart(m: map<Key, Value>, edits: seq<seq<Edit>>)
    ensures ModelAt(m, edits, 0) == m
  {}

  lemma ModelNext(m: map<Key, Value>, edits: seq<seq<Edit>>, n: nat)
    requires n > 0
    ensures ModelAt(m, edits, n) == if n <= |edits| then AllOverwritten(ModelAt(m, edits, n - 1), edits[n - 1]) else ModelAt(m, edits, n - 1)
  {}

  lemma Held(size: nat, t: seq<Node>, s: int, k: Key)
    requires SlotIn(size, t, s, k)
    ensures InRange(k, size) || Has(t, k)
  {}

  lemma StartsAhead(m: map<Key, Value>, edits: seq<seq<Edit>>, size: nat, t: seq<Node>)
    ensures Ahead(m, edits, [], size, t, -1) && InOrder([], [], size, t, -1)
  {}

  lemma AheadSame(m: map<Key, Value>, edits: seq<seq<Edit>>, visited: seq<Pair>, size: nat, t: seq<Node>, t': seq<Node>, at: int)
    requires Ahead(m, edits, visited, size, t, at) && SameKeys(t, t')
    ensures Ahead(m, edits, visited, size, t', at)
  {
    hide SlotIn;
    SameSlots(size, t, t');
  }

  lemma NextInOrder(visited: seq<Pair>, slots: seq<int>, size: nat, t: seq<Node>, at: int, slot: int, p: Pair)
    requires InOrder(visited, slots, size, t, at) && slot > at && SlotIn(size, t, slot, p.key)
    ensures InOrder(visited + [p], slots + [slot], size, t, slot)
  {
    hide SlotIn;
  }

  lemma Ordered(visited: seq<Pair>, slots: seq<int>, size: nat, t: seq<Node>, at: int)
    requires InOrder(visited, slots, size, t, at) && forall s, u, k :: SlotIn(size, t, s, k) && SlotIn(size, t, u, k) ==> s == u
    ensures forall s, u :: 0 <= s < u < |visited| ==> visited[s].key != visited[u].key
    ensures forall s, u :: 0 <= s < u < |visited| && InRange(visited[u].key, size) ==>
      InRange(visited[s].key, size) && visited[s].key.n < visited[u].key.n
  {}

  /** `for k, v in next, t`: before the next call, `edits[s]` overwrites fields that are there. Every pair
      comes once, with its value at that time; a key that never comes had no value at first or was
      cleared by an edit; the keys of the array part come first and in order. */
  method Traverse(t: Table, edits: seq<seq<Edit>>) returns (visited: seq<Pair>)
    requires t.Valid()
    modifies t, t.arr, t.node
    ensures t.Valid() && t.model == ModelAt(old(t.model), edits, |visited|)
    ensures forall s, u :: 0 <= s < u < |visited| ==> visited[s].key != visited[u].key
    ensures forall s :: 0 <= s < |visited| ==> visited[s].val == Lookup(ModelAt(old(t.model), edits, s), visited[s].key) != Nil
    ensures forall k :: Seen(visited, k) || Unkept(old(t.model), edits, |visited|, k)
    ensures forall s, u :: 0 <= s < u < |visited| && InRange(visited[u].key, t.sizearray) ==>
      InRange(visited[s].key, t.sizearray) && visited[s].key.n < visited[u].key.n
  {
    hide IsDummy, Stands, NoNil, Apart, Passed, HashOk, SlotIn, Ahead, InOrder, ModelAt, Seen, Unkept, InRange, Has, NoneAfter, Pow2, Batch;
    ghost var m, size, keys := t.model, t.sizearray, t.node[..];
    ModelStart(m, edits);
    ghost var slots: seq<int>, at := [], -1;
    visited := [];
    StartsAhead(m, edits, size, keys);
    var k: Option<Key> := None;
    while true
      invariant t.Valid() && t.Unmoved(old(t.arr), old(t.node), old(t.sizearray)) && SameKeys(keys, t.node[..]) && |keys| == t.node.Length
      invariant t.model == ModelAt(m, edits, |visited|) && -1 <= at < size + |keys|
      invariant Ahead(m, edits, visited, size, keys, at) && InOrder(visited, slots, size, keys, at)
      invariant if k.None? then at == -1 else SlotIn(size, keys, at, k.val)
      invariant forall s :: 0 <= s < |visited| ==> visited[s].val == Lookup(ModelAt(m, edits, s), visited[s].key) != Nil
      decreases size + |keys| - at
    {
      SameSlots(size, keys, t.node[..]);
      AheadSame(m, edits, visited, size, keys, t.node[..], at);
      var r, from := t.Next(k);
      if k.Some? {
        Held(t.sizearray, t.node[..], at, k.val);
        t.OneSlot(from, at, k.val);
      }
      if r.End? {
        Finished(t, m, edits, visited, at);
        break;
      }
      t.SlotBounds();
      t.SlotHolds(r.slot, r.key);
      VisitOne(t, m, edits, visited, at, r.slot, Pair(r.key, r.val));
      AheadSame(m, edits, visited + [Pair(r.key, r.val)], size, t.node[..], keys, r.slot);
      NextInOrder(visited, slots, size, keys, at, r.slot, Pair(r.key, r.val));
      visited, slots, at, k := visited + [Pair(r.key, r.val)], slots + [r.slot], r.slot, Some(r.key);
      ModelNext(m, edits, |visited|);
      if |visited| <= |edits| { Overwrite(t, edits[|visited| - 1]); }
    }
    forall s, u, k | SlotIn(size, keys, s, k) && SlotIn(size, keys, u, k) ensures s == u {
      SameSlots(size, keys, t.node[..]);
      t.OneSlot(s, u, k);
    }
    Ordered(visited, slots, size, keys, at);
  }
}
