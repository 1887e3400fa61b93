/** What the code of an expression is proved to do. */
module CodeEval {
  import opened CodeVm
  import opened CodeGen
  import opened CodeSource
  import opened CodeInv
  import opened CodeDesc
  import opened CodeCond

  /** The code of an expression has been run from registers `r` and control went the way `w`. */
  ghost predicate Denotes(e: Env, g: Gen, v: Desc, o: Outcome, r: Regs, n: nat, w: Way) {
    && Agree(r, o.regs, n)
    && match w
       case Ends(x, held) => Reached(g, v, o) && MainValue(e, g, v, o) == x && Carried(g, o) == held
       case Leaves(side, held) =>
         !Reached(g, v, o) && o.Exit? && o.at in (if side then v.t else v.f) && Tested(g, o) == held
  }

  /** Generating code for an expression leaves jumps held elsewhere alone. */
  ghost predicate ExprWf(g: Gen, g': Gen, v: Desc) {
    && GenWf(g') && DescWf(g', v) && g'.freereg == g.freereg && g'.nactvar == g.nactvar && g.ks <= g'.ks
    && |Base(g', v)| >= Pc(g)
    && (forall j: nat :: Held(g.code, j) && j !in g.jpc ==>
          SameControl(g, g', j) && j !in v.t && j !in v.f && v.k != VJmp(j))
  }

  ghost predicate ExprGood(e: Env, g: Gen, x: Exp, b: nat, r: Regs) {
    var (g', v) := Expr(g, x);
    var o := Run(e, g.code, b, r);
    var o' := Run(e, Body(g', v), b, r);
    && ExprWf(g, g', v) && Start(g', b, r) && Entry(Base(g', v), b)
    && (if Arrives(g, o) then Denotes(e, g', v, o', o.regs, g.freereg, WayOf(e, x, o.regs, Carried(g, o), g.ks)) else o' == o)
  }
}
