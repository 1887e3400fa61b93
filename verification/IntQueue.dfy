/** The interrupt queue between interrupt handlers and the Lua hook (elua_int.c). */
module IntQueue {
  const EMPTY_SLOT := 0
  const FIRST_ID := 1

  datatype Element = Element(id: nat, resnum: nat)

  const NOTHING := Element(EMPTY_SLOT, 0)

  /** Where the hook function is; interrupts may come between any two of its steps, and are disabled
      during the last one. */
  datatype Stage = Idle | Fetched | Cleared | Advanced | Handled

  datatype Event =
    | Interrupt(id: nat, resnum: nat) | Tick | Enable(id: nat) | Disable(id: nat)
    | SetHandler(id: nat) | ClearHandler(id: nat)

  /** A handler step: the element at hand and the ids that are enabled and have a handler just then. */
  datatype Call = Call(e: Element, ready: set<nat>)

  /** The elements whose handler is called. */
  ghost function Called(log: seq<Call>): seq<Element> {
    if log == [] then [] else
    var n := |log| - 1;
    Called(log[..n]) + if log[n].e.id in log[n].ready then [log[n].e] else []
  }

  lemma CalledMore(log: seq<Call>, c: Call)
    ensures Called(log + [c]) == Called(log) + if c.e.id in c.ready then [c.e] else []
  {
    assert (log + [c])[..|log|] == log;
  }

  /** An index of the queue, one turn further if need be. */
  function Wrap(i: nat, n: nat): nat { if i >= n then i - n else i }

  /** Masking an index one past another wraps it. */
  lemma WrapIsMod(i: nat, n: nat)
    requires i < n
    ensures (i + 1) % n == Wrap(i + 1, n)
  {
    if i + 1 < n { assert (i + 1) / n == 0; }
  }

  /** The `k`-th position from `start` holds the `k`-th pending interrupt, or is empty. */
  ghost predicate SlotIs(q: seq<Element>, start: nat, pending: seq<Element>, k: nat)
    requires start < |q| && k < |q|
  {
    if k < |pending| then q[Wrap(start + k, |q|)] == pending[k] else q[Wrap(start + k, |q|)].id == EMPTY_SLOT
  }

  /** The queue holds `pending` from position `start` on, and nothing else. */
  ghost predicate Holds(q: seq<Element>, start: nat, pending: seq<Element>) {
    start < |q| && |pending| <= |q| && forall k :: 0 <= k < |q| ==> SlotIs(q, start, pending, k)
  }

  lemma HoldsMore(q: seq<Element>, start: nat, pending: seq<Element>, e: Element)
    requires Holds(q, start, pending) && |pending| < |q|
    ensures Holds(q[Wrap(start + |pending|, |q|) := e], start, pending + [e])
  {
    var q' := q[Wrap(start + |pending|, |q|) := e];
    forall k | 0 <= k < |q| ensures SlotIs(q', start, pending + [e], k) { assert SlotIs(q, start, pending, k); }
  }

  lemma HoldsLess(q: seq<Element>, start: nat, pending: seq<Element>, empty: Element)
    requires Holds(q, start, pending) && pending != [] && empty.id == EMPTY_SLOT
    ensures Holds(q[start := empty], Wrap(start + 1, |q|), pending[1..])
  {
    var q', s := q[start := empty], Wrap(start + 1, |q|);
    forall k | 0 <= k < |q| ensures SlotIs(q', s, pending[1..], k) {
      if k + 1 < |q| { assert SlotIs(q, start, pending, k + 1); }
    }
  }

  lemma ClearedWrap(i: nat, k: nat, n: nat)
    requires i < n && 0 < k <= n
    ensures Wrap(Wrap(i + 1, n) + (k - 1), n) == Wrap(i + k, n)
  {}

  /** The slot to be written is empty exactly if there is room. */
  lemma RoomSeen(q: seq<Element>, start: nat, pending: seq<Element>)
    requires Holds(q, start, pending) && forall k :: 0 <= k < |pending| ==> pending[k].id != EMPTY_SLOT
    ensures q[Wrap(start + |pending|, |q|)].id == EMPTY_SLOT <==> |pending| < |q|
    ensures q[start].id == EMPTY_SLOT <==> pending == []
  {
    assert SlotIs(q, start, pending, 0);
    if |pending| < |q| { assert SlotIs(q, start, pending, |pending|); }
  }

  lemma HoldsNothing(q: seq<Element>)
    requires |q| > 0 && forall k :: 0 <= k < |q| ==> q[k] == NOTHING
    ensures Holds(q, 0, [])
  {}

  class Queue {
    const queue: array<Element>
    const last: nat               // INT_ELUA_LAST
    var readIdx: nat
    var writeIdx: nat
    var enabled: set<nat>
    var handlers: set<nat>        // the ids with a Lua handler
    var running: bool             // there is a Lua state
    var hooked: bool              // the Lua hook is set
    var stage: Stage
    var crt: Element
    ghost var pending: seq<Element>
    ghost var accepted: seq<Element>
    ghost var dequeued: seq<Element>
    ghost var delivered: seq<Element>
    ghost var log: seq<Call>

    ghost predicate Valid()
      reads this, queue
    {
      && Holds(queue[..], Start(), pending) && readIdx < queue.Length
      && writeIdx == Wrap(Start() + |pending|, queue.Length)
      && (forall k :: 0 <= k < |pending| ==> pending[k].id != EMPTY_SLOT)
      && accepted == dequeued + pending
      && (stage == Idle ==> (hooked <==> pending != []))
      && (stage != Idle ==> hooked) && (stage == Fetched ==> pending != [] && crt == pending[0])
      && Logged()
    }

    /** Every dequeued element gets its handler step, and only these are delivered that are ready then. */
    ghost predicate Logged()
      reads `dequeued, `delivered, `log, `stage, `crt
    {
      && delivered == Called(log) && |log| + (if stage == Cleared || stage == Advanced then 1 else 0) == |dequeued|
      && (forall k :: 0 <= k < |log| ==> log[k].e == dequeued[k])
      && (stage == Cleared || stage == Advanced ==> crt == dequeued[|log|])
    }

    /** The slot that has been cleared is still where the hook reads. */
    ghost function Start(): nat
      reads this
    { if stage == Cleared then Wrap(readIdx + 1, queue.Length) else readIdx }

    constructor (size: nat, last: nat)
      requires size > 0
      ensures Valid() && accepted == [] && stage == Idle && fresh(queue)
    {
      queue := new Element[size](_ => NOTHING);
      this.last, readIdx, writeIdx, enabled, handlers, running, hooked, stage, crt := last, 0, 0, {}, {}, true, false, Idle, NOTHING;
      pending, accepted, dequeued, delivered, log := [], [], [], [], [];
      new;
      HoldsNothing(queue[..]);
    }

    /** elua_int_add, with interrupts disabled: it may come between any two steps of the hook. */
    method Add(id: nat, resnum: nat) returns (ok: bool)
      requires Valid()
      modifies `writeIdx, `hooked, `pending, `accepted, queue
      ensures Valid()
      ensures ok == (FIRST_ID <= id <= last && running && id in enabled && |old(pending)| < queue.Length)
      ensures pending == old(pending) + (if ok then [Element(id, resnum)] else [])
      ensures accepted == old(accepted) + (if ok then [Element(id, resnum)] else [])
      ensures hooked == (old(hooked) || ok)
    {
      hide Holds;
      InBounds();
      RoomSeen(queue[..], Start(), pending);
      if id < FIRST_ID || id > last || !running || id !in enabled || queue[writeIdx].id != EMPTY_SLOT { return false; }
      var e := Element(id, resnum);
      HoldsMore(queue[..], Start(), pending, e);
      ghost var q := queue[..];
      queue[writeIdx] := e;
      assert queue[..] == q[writeIdx := e];
      WrapIsMod(writeIdx, queue.Length);
      writeIdx := (writeIdx + 1) % queue.Length;
      pending, accepted := pending + [e], accepted + [e];
      hooked := true;
      ok := true;
    }

    lemma InBounds()
      requires Valid()
      ensures writeIdx < queue.Length && readIdx < queue.Length && Start() < queue.Length && |pending| <= queue.Length
    {}

    /** The slot that has been read is marked empty. */
    method ClearFirst()
      requires Valid() && stage == Fetched
      modifies `stage, `pending, `dequeued, queue
      ensures Valid() && stage == Cleared && dequeued == old(dequeued) + [old(pending)[0]] && pending == old(pending)[1..]
    {
      hide Holds, Wrap;
      InBounds();
      var empty := queue[readIdx].(id := EMPTY_SLOT);
      HoldsLess(queue[..], readIdx, pending, empty);
      ClearedWrap(readIdx, |pending|, queue.Length);
      ghost var q := queue[..];
      queue[readIdx] := empty;
      assert queue[..] == q[readIdx := empty];
      dequeued, pending := dequeued + [crt], pending[1..];
      stage := Cleared;
    }

    /** The first pending interrupt is read. */
    method Fetch()
      requires Valid() && stage == Idle && hooked
      modifies `stage, `crt
      ensures Valid() && stage == Fetched
    {
      hide Holds;
      FirstHeld(queue[..], readIdx, pending);
      crt := queue[readIdx];
      stage := Fetched;
    }

    method Advance()
      requires Valid() && stage == Cleared
      modifies `stage, `readIdx
      ensures Valid() && stage == Advanced
    {
      hide Holds;
      WrapIsMod(readIdx, queue.Length);
      readIdx := (readIdx + 1) % queue.Length;
      stage := Advanced;
    }

    /** The handler is called if the interrupt is enabled and has one. */
    method CallHandler()
      requires Valid() && stage == Advanced
      modifies `stage, `delivered, `log
      ensures Valid() && stage == Handled && log == old(log) + [Call(crt, enabled * handlers)]
    {
      hide Holds, Called;
      if crt.id in enabled && crt.id in handlers { delivered := delivered + [crt]; }
      CalledMore(log, Call(crt, enabled * handlers));
      log := log + [Call(crt, enabled * handlers)];
      stage := Handled;
    }

    /** With interrupts disabled, the hook is removed if there is nothing more. */
    method Finish()
      requires Valid() && stage == Handled
      modifies `stage, `hooked
      ensures Valid() && stage == Idle
    {
      hide Holds;
      RoomSeen(queue[..], Start(), pending);
      if queue[readIdx].id == EMPTY_SLOT { hooked := false; }
      stage := Idle;
    }

    /** One step of elua_int_hook; the first one is the VM calling it, which it does only if it is set. */
    method HookStep()
      requires Valid() && hooked
      modifies `readIdx, `stage, `crt, `hooked, `pending, `dequeued, `delivered, `log, queue
      ensures Valid() && accepted == old(accepted)
      ensures stage == match old(stage) case Idle => Fetched case Fetched => Cleared case Cleared => Advanced case Advanced => Handled case Handled => Idle
      ensures if old(stage) == Fetched then dequeued == old(dequeued) + [old(pending)[0]] && pending == old(pending)[1..]
        else dequeued == old(dequeued) && pending == old(pending)
      ensures log == old(log) + if old(stage) == Advanced then [Call(crt, enabled * handlers)] else []
      ensures old(stage) in {Fetched, Cleared, Advanced} ==> crt == old(crt)
    {
      FetchedPending();
      hide Holds, Logged, Valid;
      if stage == Idle { Fetch(); }
      else if stage == Fetched { ClearFirst(); }
      else if stage == Cleared { Advance(); }
      else if stage == Advanced { CallHandler(); }
      else { Finish(); }
    }

    lemma FetchedPending()
      requires Valid()
      ensures stage == Fetched ==> pending != []
    {}

    /** Any interleaving: every accepted interrupt is dequeued once and in order, or still in the queue,
        and between runs of the hook it is set exactly if the queue is not empty. Each dequeued one
        gets one handler step, at the events `at`, and it is delivered exactly if it is enabled and
        has a handler just then. */
    method Run(events: seq<Event>) returns (oks: seq<bool>, ghost at: seq<nat>)
      requires Valid()
      modifies this, queue
      ensures Valid() && |oks| == |events|
      ensures accepted == dequeued + pending && (stage == Idle ==> (hooked <==> pending != []))
      ensures accepted == old(accepted) + Taken(events, oks) && old(dequeued) <= dequeued
      ensures delivered == Called(log) && |log| <= |dequeued| && (stage == Idle ==> |log| == |dequeued|)
      ensures forall k :: 0 <= k < |log| ==> log[k].e == dequeued[k]
      ensures old(log) <= log && Stepped(log[|old(log)|..], at, events, old(enabled), old(handlers))
    {
      hide Holds, Wrap, Taken, Flags, Stepped, Called;
      oks, at := [], [];
      NoneTaken();
      NoneStepped(enabled, handlers);
      assert log[|log|..] == [] && events[..0] == [];
      var i := 0;
      while i < |events|
        invariant 0 <= i == |oks| <= |events| && Valid() && old(dequeued) <= dequeued
        invariant accepted == old(accepted) + Taken(events[..i], oks)
        invariant (enabled, handlers) == Flags(events[..i], old(enabled), old(handlers))
        invariant old(log) <= log && Stepped(log[|old(log)|..], at, events[..i], old(enabled), old(handlers))
      {
        ghost var oks0, log0 := oks, log;
        var ok := Handle(events[i]);
        FlagsMore(events, i, old(enabled), old(handlers));
        SteppedMore(log0[|old(log)|..], at, events, i, old(enabled), old(handlers));
        if log != log0 {
          SteppedNow(log0[|old(log)|..], log[|log0|], at, events, i, old(enabled), old(handlers));
          assert log[|old(log)|..] == log0[|old(log)|..] + [log[|log0|]];
          at := at + [i];
        }
        oks := oks + [ok];
        TakenMore(events, oks, i);
        assert oks[..i] == oks0;
        assert old(accepted) + Taken(events[..i], oks0) + One(events[i], ok) == old(accepted) + (Taken(events[..i], oks0) + One(events[i], ok));
        i := i + 1;
      }
      assert events[..i] == events;
    }

    method Handle(e: Event) returns (ok: bool)
      requires Valid()
      modifies this, queue
      ensures Valid() && old(dequeued) <= dequeued && accepted == old(accepted) + One(e, ok)
      ensures (enabled, handlers) == Flag(e, old(enabled), old(handlers))
      ensures log == old(log) || (e == Tick && |log| == |old(log)| + 1 && log[..|old(log)|] == old(log)
                                  && log[|old(log)|].ready == enabled * handlers)
    {
      hide Holds, Wrap;
      ok := false;
      match e {
        case Interrupt(id, resnum) => ok := Add(id, resnum);
        case Tick => if hooked { HookStep(); }
        case Enable(id) => enabled := enabled + {id};
        case Disable(id) => enabled := enabled - {id};
        case SetHandler(id) => handlers := handlers + {id};
        case ClearHandler(id) => handlers := handlers - {id};
      }
    }

    /** When no more interrupts come, the hook empties the queue. */
    method Drain()
      requires Valid()
      modifies this, queue
      ensures Valid() && stage == Idle && !hooked && pending == [] && dequeued == accepted == old(accepted) && |log| == |dequeued|
    {
      hide Holds;
      while hooked
        invariant Valid() && accepted == old(accepted)
        decreases |pending|, match stage case Idle => 2 case Fetched => 1 case Cleared => 5 case Advanced => 4 case Handled => 3
      {
        HookStep();
      }
    }
  }

  /** The enabled ids and those with a handler, after one event and after several. */
  ghost function Flag(e: Event, enabled: set<nat>, handlers: set<nat>): (set<nat>, set<nat>) {
    match e
    case Enable(id) => (enabled + {id}, handlers)
    case Disable(id) => (enabled - {id}, handlers)
    case SetHandler(id) => (enabled, handlers + {id})
    case ClearHandler(id) => (enabled, handlers - {id})
    case _ => (enabled, handlers)
  }

  ghost function Flags(events: seq<Event>, enabled: set<nat>, handlers: set<nat>): (set<nat>, set<nat>) {
    if events == [] then (enabled, handlers) else
    var n := |events| - 1;
    var (on, fs) := Flags(events[..n], enabled, handlers);
    Flag(events[n], on, fs)
  }

  lemma FlagsMore(events: seq<Event>, i: nat, enabled: set<nat>, handlers: set<nat>)
    requires i < |events|
    ensures var (on, fs) := Flags(events[..i], enabled, handlers);
      Flags(events[..i + 1], enabled, handlers) == Flag(events[i], on, fs)
  {
    assert events[..i + 1][..i] == events[..i];
  }

  /** The ids that are ready after some events. */
  ghost function ReadyAfter(events: seq<Event>, enabled: set<nat>, handlers: set<nat>): set<nat> {
    var (on, fs) := Flags(events, enabled, handlers);
    on * fs
  }

  /** The handler step `c` is taken at event `i`, with what the events before it have made ready. */
  ghost predicate StepAt(c: Call, i: nat, events: seq<Event>, enabled: set<nat>, handlers: set<nat>) {
    i < |events| && events[i] == Tick && c.ready == ReadyAfter(events[..i], enabled, handlers)
  }

  /** The handler steps `calls` are taken at the events `at`, in order. */
  ghost predicate Stepped(calls: seq<Call>, at: seq<nat>, events: seq<Event>, enabled: set<nat>, handlers: set<nat>) {
    && |calls| == |at| && (forall j, k :: 0 <= j < k < |at| ==> at[j] < at[k])
    && forall k :: 0 <= k < |at| ==> StepAt(calls[k], at[k], events, enabled, handlers)
  }

  lemma NoneStepped(enabled: set<nat>, handlers: set<nat>)
    ensures Stepped([], [], [], enabled, handlers) && Flags([], enabled, handlers) == (enabled, handlers)
  {}

  lemma StepStays(c: Call, j: nat, events: seq<Event>, i: nat, enabled: set<nat>, handlers: set<nat>)
    requires i < |events| && StepAt(c, j, events[..i], enabled, handlers)
    ensures j < i && StepAt(c, j, events[..i + 1], enabled, handlers)
  {
    assert events[..i + 1][..j] == events[..i][..j];
  }

  lemma SteppedMore(calls: seq<Call>, at: seq<nat>, events: seq<Event>, i: nat, enabled: set<nat>, handlers: set<nat>)
    requires i < |events| && Stepped(calls, at, events[..i], enabled, handlers)
    ensures Stepped(calls, at, events[..i + 1], enabled, handlers)
    ensures forall k :: 0 <= k < |at| ==> at[k] < i
  {
    hide StepAt;
    forall k | 0 <= k < |at| ensures at[k] < i && StepAt(calls[k], at[k], events[..i + 1], enabled, handlers) {
      StepStays(calls[k], at[k], events, i, enabled, handlers);
    }
  }

  lemma SteppedNow(calls: seq<Call>, c: Call, at: seq<nat>, events: seq<Event>, i: nat, enabled: set<nat>, handlers: set<nat>)
    requires i < |events| && Stepped(calls, at, events[..i], enabled, handlers)
    requires events[i] == Tick && c.ready == ReadyAfter(events[..i], enabled, handlers)
    ensures Stepped(calls + [c], at + [i], events[..i + 1], enabled, handlers)
  {
    SteppedMore(calls, at, events, i, enabled, handlers);
    hide ReadyAfter;
    assert events[..i + 1][..i] == events[..i];
  }

  /** The interrupt of one event, if it was accepted. */
  ghost function One(e: Event, ok: bool): seq<Element> { if ok && e.Interrupt? then [Element(e.id, e.resnum)] else [] }

  /** The interrupts that were accepted. */
  ghost function Taken(events: seq<Event>, oks: seq<bool>): seq<Element>
    requires |events| == |oks|
  {
    if events == [] then [] else
    var n := |events| - 1;
    Taken(events[..n], oks[..n]) + One(events[n], oks[n])
  }

  lemma NoneTaken()
    ensures Taken([], []) == []
  {}

  lemma TakenMore(events: seq<Event>, oks: seq<bool>, n: nat)
    requires n < |events| && |oks| == n + 1
    ensures Taken(events[..n + 1], oks) == Taken(events[..n], oks[..n]) + One(events[n], oks[n])
  {
    assert events[..n + 1][..n] == events[..n];
  }

  lemma FirstHeld(q: seq<Element>, start: nat, pending: seq<Element>)
    requires Holds(q, start, pending) && pending != []
    ensures q[start] == pending[0]
  {
    assert SlotIs(q, start, pending, 0);
  }
}
