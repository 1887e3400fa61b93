/** How patching and extending code changes its runs. */
module CodeRun {
  import opened CodeVm

  /** `c'` begins like `c`, except that pending jumps may have got destinations and their TESTSETs
      a register, or become TESTs. */
  ghost predicate PatchAt(c: seq<Instr>, c': seq<Instr>, j: nat)
    requires j < |c| <= |c'|
  {
    || c'[j] == c[j]
    || (c[j] == Jmp(HOLD) && c'[j].Jmp?)
    || (c[j].TestSet? && c[j].dst.None? &&
        (c'[j] == Test(c[j].b, c[j].c) || (c'[j].TestSet? && c'[j] == c[j].(dst := c'[j].dst))))
  }

  ghost predicate Patch(c: seq<Instr>, c': seq<Instr>) {
    |c| <= |c'| && forall j :: 0 <= j < |c| ==> PatchAt(c, c', j)
  }

  /** The registers with which a run leaves through jump `j`, its test included. */
  function Landing(c: seq<Instr>, j: nat, r: Regs): Regs
    requires j < |c|
  { if j > 0 then AtJump(c[j - 1], r) else r }

  lemma SameTaken(e: Env, c: seq<Instr>, c': seq<Instr>, i: nat, r: Regs)
    requires Wf(c) && Patch(c, c') && i < |c| && TMode(c[i])
    ensures TMode(c'[i]) && Taken(e, c'[i], r) == Taken(e, c[i], r)
  {
    assert PatchAt(c, c', i);
  }

  lemma EntryLanding(c: seq<Instr>, c': seq<Instr>, i: nat, r: Regs)
    requires Patch(c, c') && Entry(c, i) && i < |c|
    ensures Landing(c', i, r) == r
  {
    if i > 0 { assert PatchAt(c, c', i - 1); }
  }

  /** A run of the patched code is the run of the old code, continued. */
  lemma {:induction false} RunPatch(e: Env, c: seq<Instr>, c': seq<Instr>, i: nat, r: Regs)
    requires Wf(c) && Patch(c, c') && Entry(c, i)
    ensures var o := Run(e, c, i, r);
      Run(e, c', i, r) == if o.Fall? then Run(e, c', |c|, o.regs)
                          else if o.at < |c| then Run(e, c', o.at, Landing(c', o.at, o.regs)) else o
    decreases |c| - i
  {
    hide SetNil;
    if i < |c| {
      assert WfAt(c, i) && PatchAt(c, c', i);
      if c[i].Jmp? {
        if c[i].dest > i { RunPatch(e, c, c', c[i].dest, r); }
        else { EntryLanding(c, c', i, r); }
      } else if TMode(c[i]) {
        SameTaken(e, c, c', i, r);
        if Taken(e, c[i], r) {
          assert WfAt(c, i + 1) && PatchAt(c, c', i + 1);
          if c[i + 1].dest != HOLD { RunPatch(e, c, c', c[i + 1].dest, AtJump(c[i], r)); }
        } else { RunPatch(e, c, c', i + 2, r); }
      } else {
        RunPatch(e, c, c', if c[i].LoadBool? && c[i].skip then i + 2 else i + 1, Write(e, c[i], r));
      }
    }
  }
}
