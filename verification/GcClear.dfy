/** Clearing of weak tables (iscleared, cleartable in lgc.c). */
module GcClear {
  import opened GcHeap

  /** stringmark: strings are values, so they are never weak. */
  function StringMark(m: Marks, r: Ref): Marks { if IsWhite(m, r) then Paint(m, r, Gray) else m }

  /** iscleared: whether an entry with `v` must go; a string is marked and kept. */
  function IsCleared(objs: Objects, m: Marks, v: Value): (Marks, bool) {
    if v.Plain? then (m, false)
    else if v.ref in objs && objs[v.ref].Str? then (StringMark(m, v.ref), false)
    else (m, IsWhite(m, v.ref))
  }

  function ClearEntries(objs: Objects, m: Marks, es: seq<Entry>): (Marks, seq<Entry>)
    decreases |es|
  {
    if es == [] then (m, [])
    else
      var (m1, keyGone) := IsCleared(objs, m, es[0].key);
      if keyGone then ClearEntries(objs, m1, es[1..])
      else
        var (m2, valGone) := IsCleared(objs, m1, es[0].val);
        var (m3, rest) := ClearEntries(objs, m2, es[1..]);
        (m3, if valGone then rest else [es[0]] + rest)
  }

  /** cleartable: removes collected entries from the tables of the list `l`. */
  function ClearTable(objs: Objects, m: Marks, l: seq<Ref>): (Objects, Marks)
    decreases |l|
  {
    if l == [] then (objs, m)
    else if l[0] in objs && objs[l[0]].Tab? then
      var (m1, es) := ClearEntries(objs, m, objs[l[0]].entries);
      ClearTable(objs[l[0] := objs[l[0]].(entries := es)], m1, l[1..])
    else ClearTable(objs, m, l[1..])
  }

  /** Only white strings have changed colour, to gray. */
  ghost predicate StringsMarked(objs: Objects, m: Marks, t: Marks) {
    && t == m.(color := t.color) && t.color.Keys == m.color.Keys == objs.Keys
    && (forall r :: r in m.color && !m.color[r].White? ==> t.color[r] == m.color[r])
    && (forall r :: r in m.color && t.color[r].White? ==> t.color[r] == m.color[r])
    && (forall r :: IsWhite(m, r) && !IsWhite(t, r) ==> objs[r].Str? && IsGray(t, r))
  }

  ghost predicate Kept(m: Marks, e: Entry) { AllMarked(m, [e.key, e.val]) }

  /** The entry holds a white object that is not a string. */
  ghost predicate Collected(objs: Objects, m: Marks, e: Entry) {
    (e.key.Gc? && IsWhite(m, e.key.ref) && e.key.ref in objs && !objs[e.key.ref].Str?)
    || (e.val.Gc? && IsWhite(m, e.val.ref) && e.val.ref in objs && !objs[e.val.ref].Str?)
  }

  lemma ClearedOne(objs: Objects, m: Marks, v: Value)
    requires m.color.Keys == objs.Keys
    ensures var (t, gone) := IsCleared(objs, m, v);
      StringsMarked(objs, m, t) && (!gone ==> AllMarked(t, [v]))
      && (gone ==> v.Gc? && IsWhite(t, v.ref) && !objs[v.ref].Str?)
  {}

  lemma StringsTrans(objs: Objects, m: Marks, p: Marks, t: Marks)
    requires StringsMarked(objs, m, p) && StringsMarked(objs, p, t)
    ensures StringsMarked(objs, m, t)
    ensures forall r :: r in objs && !objs[r].Str? ==> IsWhite(t, r) == IsWhite(p, r) == IsWhite(m, r)
    ensures forall r :: !IsWhite(p, r) ==> !IsWhite(t, r)
  {}

  /** What stays holds no white object; what goes held a white object that is no string. */
  lemma {:induction false} ClearEntriesKeeps(objs: Objects, m: Marks, es: seq<Entry>)
    requires m.color.Keys == objs.Keys
    ensures var (t, kept) := ClearEntries(objs, m, es);
      && StringsMarked(objs, m, t)
      && (forall e :: e in kept ==> e in es && Kept(t, e))
      && (forall e :: e in es && e !in kept ==> Collected(objs, t, e))
    decreases |es|
  {
    if es == [] { return; }
    var (m1, keyGone) := IsCleared(objs, m, es[0].key);
    ClearedOne(objs, m, es[0].key);
    assert es == [es[0]] + es[1..];
    if keyGone {
      ClearEntriesKeeps(objs, m1, es[1..]);
      StringsTrans(objs, m, m1, ClearEntries(objs, m, es).0);
    } else {
      var (m2, valGone) := IsCleared(objs, m1, es[0].val);
      ClearedOne(objs, m1, es[0].val);
      StringsTrans(objs, m, m1, m2);
      ClearEntriesKeeps(objs, m2, es[1..]);
      StringsTrans(objs, m, m2, ClearEntries(objs, m, es).0);
    }
  }

  /** A weak table may lose entries; nothing else about an object changes. */
  ghost predicate Shrunk(b: Body, c: Body) {
    b == c || (b.Tab? && c.Tab? && c == b.(entries := c.entries) && forall e :: e in c.entries ==> e in b.entries)
  }

  ghost predicate OnlyTables(objs: Objects, objs': Objects, l: seq<Ref>) {
    && objs'.Keys == objs.Keys
    && (forall r :: r in objs && r !in l ==> objs'[r] == objs[r])
    && (forall r :: r in objs ==> Shrunk(objs[r], objs'[r]))
  }

  /** No entry of the listed tables holds a white object. */
  ghost predicate AllKept(objs: Objects, m: Marks, l: seq<Ref>) {
    forall r, e :: r in l && r in objs && objs[r].Tab? && e in objs[r].entries ==> Kept(m, e)
  }

  /** Every entry removed held a white object that is not a string. */
  ghost predicate OnlyCollected(objs: Objects, objs': Objects, m: Marks) {
    forall r, e :: r in objs && r in objs' && objs[r].Tab? && objs'[r].Tab? && e in objs[r].entries && e !in objs'[r].entries ==>
      Collected(objs, m, e)
  }

  ghost predicate ClearedTables(objs: Objects, m: Marks, objs': Objects, t: Marks, l: seq<Ref>) {
    && OnlyTables(objs, objs', l) && StringsMarked(objs, m, t)
    && AllKept(objs', t, l) && OnlyCollected(objs, objs', t)
  }

  lemma {:induction false} ClearTableKeeps(objs: Objects, m: Marks, l: seq<Ref>)
    requires m.color.Keys == objs.Keys && NoDup(l)
    ensures ClearedTables(objs, m, ClearTable(objs, m, l).0, ClearTable(objs, m, l).1, l)
    decreases |l|
  {
    if l == [] { return; }
    NoDupTail(l);
    hide NoDup;
    if l[0] in objs && objs[l[0]].Tab? {
      var (m1, es) := ClearEntries(objs, m, objs[l[0]].entries);
      ClearEntriesKeeps(objs, m, objs[l[0]].entries);
      hide ClearEntries, StringsMarked, Kept, Collected;
      var o1 := objs[l[0] := objs[l[0]].(entries := es)];
      ClearTableKeeps(o1, m1, l[1..]);
      ClearStep(objs, m, o1, m1, ClearTable(objs, m, l).0, ClearTable(objs, m, l).1, l);
    } else {
      ClearTableKeeps(objs, m, l[1..]);
    }
  }

  lemma KeptStays(m: Marks, t: Marks, e: Entry)
    requires Kept(m, e) && forall r :: !IsWhite(m, r) ==> !IsWhite(t, r)
    ensures Kept(t, e)
  {
    forall v | v in [e.key, e.val] && v.Gc? ensures !IsWhite(t, v.ref) { assert !IsWhite(m, v.ref); }
  }

  ghost predicate Cleared1(objs: Objects, m: Marks, o1: Objects, m1: Marks, h: Ref) {
    && h in objs && objs[h].Tab? && h in o1 && o1[h].Tab?
    && o1 == objs[h := objs[h].(entries := o1[h].entries)] && StringsMarked(objs, m, m1)
    && (forall e :: e in o1[h].entries ==> e in objs[h].entries && Kept(m1, e))
    && (forall e :: e in objs[h].entries && e !in o1[h].entries ==> Collected(objs, m1, e))
  }

  lemma ClearStep(objs: Objects, m: Marks, o1: Objects, m1: Marks, o2: Objects, m2: Marks, l: seq<Ref>)
    requires l != [] && (forall x :: x in l <==> x == l[0] || x in l[1..]) && l[0] !in l[1..]
    requires Cleared1(objs, m, o1, m1, l[0]) && ClearedTables(o1, m1, o2, m2, l[1..])
    ensures ClearedTables(objs, m, o2, m2, l)
  {
    assert StringsMarked(objs, m1, m2);
    StringsTrans(objs, m, m1, m2);
    assert OnlyTables(objs, o2, l) by { hide AllKept, OnlyCollected, StringsMarked, Kept, Collected; }
    assert AllKept(o2, m2, l) by {
      hide StringsMarked, Kept, OnlyCollected;
      forall r, e | r in l && r in o2 && o2[r].Tab? && e in o2[r].entries ensures Kept(m2, e) {
        if r == l[0] { KeptStays(m1, m2, e); }
      }
    }
    forall r, e | r in objs && r in o2 && objs[r].Tab? && o2[r].Tab? && e in objs[r].entries && e !in o2[r].entries
      ensures Collected(objs, m2, e)
    {
      hide AllKept, Kept;
      if r == l[0] { assert Collected(objs, m1, e); } else { assert Collected(o1, m2, e); }
    }
  }
}
