/** Every run of the source is a walk of the finished graph. */
module CfgComplete {
  import opened Basics
  import opened CfgSyntax
  import opened CfgRuns
  import opened CfgLowering
  import opened CfgWalks
  import opened CfgExits
  import opened CfgParts

  lemma Glue(g: Blocks, p: Point, a: Trace, q: Point, b: Trace, u: Trace, z: Point)
    requires Connects(g, p, a, q) && Connects(g, q, b + u, z)
    ensures Connects(g, p, a + b + u, z)
  {
    hide Connects;
    ConnectsTrans(g, p, a, q, b + u, z);
    assert a + (b + u) == a + b + u;
  }

  /** An edge adds nothing to the trace. */
  lemma GlueEdge(g: Blocks, a: Out, targets: set<nat>, next: nat, t: Trace, z: Point)
    requires Leaves(g, a, targets) && next in targets && Connects(g, Point(next, 0), t, z)
    ensures Connects(g, Here(a.bs, a.cur), t, z)
  {
    hide Connects;
    ConnectsJump(g, Here(a.bs, a.cur), next);
    ConnectsTrans(g, Here(a.bs, a.cur), [], Point(next, 0), t, z);
    assert [] + t == t;
  }

  lemma NothingPending(t: Trace)
    ensures t + Spell(Done) == t && RunAll(Done, [])
  {
  }

  /** A run that leaves in the first part of a fragment leads where the outcome leads. */
  lemma {:induction false} CompleteEarly(
    first: Expr, f: Out, r: Run, o: Outcome, u: Run, bs: Blocks, cur: nat, c: Ctx, s: Scope, g: Blocks)
    requires Open(bs, cur) && InScope(c, s) && DepthE(first) <= s.depth && OkE(first, Inside(c, s), s.deferred)
    requires var a := LowerE(first, bs, cur, c, s); Grows(a.bs, a.cur, f) && Kept(g, bs, cur, f)
    requires o != Normal && RunE(r, first, Inside(c, s), o) && Leads(o, c, s) && RunAll(u, Pending(o, c, s))
    ensures Connects(g, Here(bs, cur), Spell(r) + Spell(u), Goal(o, c, s, f))
    decreases 2 * s.depth + 1, r, first, 5
  {
    hide Connects, Kept, Leads, Visible, RunE, RunAll, LowerE, DepthE, OkE, Spell;
    KeptSeq(g, bs, cur, LowerE(first, bs, cur, c, s), f);
    CompleteE(first, r, o, u, bs, cur, c, s, g);
  }

  /** A run through the first part of a fragment leads to the rest. */
  lemma {:induction false} CompletePart(
    first: Expr, f: Out, r: Run, bs: Blocks, cur: nat, c: Ctx, s: Scope, g: Blocks)
    requires Open(bs, cur) && InScope(c, s) && DepthE(first) <= s.depth && OkE(first, Inside(c, s), s.deferred)
    requires var a := LowerE(first, bs, cur, c, s); Grows(a.bs, a.cur, f) && Kept(g, bs, cur, f)
    requires RunE(r, first, Inside(c, s), Normal)
    ensures var a := LowerE(first, bs, cur, c, s);
      Connects(g, Here(bs, cur), Spell(r), Here(a.bs, a.cur)) && Kept(g, a.bs, a.cur, f)
    decreases 2 * s.depth + 1, r, first, 5
  {
    hide Connects, Kept, Leads, Visible, RunE, RunAll, LowerE, DepthE, OkE, Spell;
    var a := LowerE(first, bs, cur, c, s);
    KeptSeq(g, bs, cur, a, f);
    NothingPending(Spell(r));
    NormalLeads(c, s);
    CompleteE(first, r, Normal, Done, bs, cur, c, s, g);
  }

  lemma {:induction false} CompleteE(
    e: Expr, r: Run, o: Outcome, u: Run, bs: Blocks, cur: nat, c: Ctx, s: Scope, g: Blocks)
    requires Open(bs, cur) && InScope(c, s) && DepthE(e) <= s.depth && OkE(e, Inside(c, s), s.deferred)
    requires Kept(g, bs, cur, LowerE(e, bs, cur, c, s))
    requires RunE(r, e, Inside(c, s), o) && Leads(o, c, s) && RunAll(u, Pending(o, c, s))
    ensures Connects(g, Here(bs, cur), Spell(r) + Spell(u), Goal(o, c, s, LowerE(e, bs, cur, c, s)))
    decreases 2 * s.depth + 1, r, e, 4
  {
    hide Connects, Kept, Leads, Visible, RunXs, RunB, RunRounds, RunArm, LowerXs, LowerB, LowerIf, LowerMatch,
      LowerWhile, LowerFor, LowerLoop, LowerJump, LowerReturn, LowerQuestion;
    match e
    case Leaf =>
      ConnectsSelf(g, Here(bs, cur));
      NothingPending([]);
    case Use(_) =>
      CompleteUse(e, r, o, u, bs, cur, c, s, g);
    case Operands(items) =>
      CompleteXs(items, r, o, u, bs, cur, c, s, g);
    case BlockExpr(body) =>
      CompleteB(body, r, o, u, bs, cur, c, s, g);
    case If(_, _, _) =>
      CompleteIf(e, r, o, u, bs, cur, c, s, g);
    case Match(_, _) =>
      CompleteMatch(e, r, o, u, bs, cur, c, s, g);
    case While(_, _, _) =>
      CompleteWhile(e, r, o, u, bs, cur, c, s, g);
    case For(_, _, _) =>
      CompleteFor(e, r, o, u, bs, cur, c, s, g);
    case Loop(_, _) =>
      CompleteLoop(e, r, o, u, bs, cur, c, s, g);
    case Break(_, _) =>
      CompleteBreak(e, r, o, u, bs, cur, c, s, g);
    case Continue(_) =>
      CompleteContinue(e, r, o, u, bs, cur, c, s, g);
    case Return(_) =>
      CompleteReturnE(e, r, o, u, bs, cur, c, s, g);
    case Question(v) =>
      CompleteQuestion(e, r, o, u, bs, cur, c, s, g);
  }

  lemma {:induction false} CompleteBreak(
    e: Expr, r: Run, o: Outcome, u: Run, bs: Blocks, cur: nat, c: Ctx, s: Scope, g: Blocks)
    requires e.Break?
    requires Open(bs, cur) && InScope(c, s) && DepthE(e) <= s.depth && OkE(e, Inside(c, s), s.deferred)
    requires Kept(g, bs, cur, LowerE(e, bs, cur, c, s))
    requires RunE(r, e, Inside(c, s), o) && Leads(o, c, s) && RunAll(u, Pending(o, c, s))
    ensures Connects(g, Here(bs, cur), Spell(r) + Spell(u), Goal(o, c, s, LowerE(e, bs, cur, c, s)))
    decreases 2 * s.depth + 1, r, e, 3
  {
    hide Connects, Kept, Leads, Visible, LowerJump, Resolve, Labels, LowerXs, RunXs, LowerB, RunB;
    var a := LowerE(e.value, bs, cur, c, s);
    var f := LowerE(e, bs, cur, c, s);
    ResolveInScope(c, s, e.lbl);
    if o != Normal && RunE(r, e.value, Inside(c, s), o) {
      CompleteEarly(e.value, f, r, o, u, bs, cur, c, s, g);
    } else {
      var k := Resolve(Labels(c.loops), e.lbl);
      assert o.Broke? && k == Some(s.loopBase + o.loop);
      assert f == LowerJump(k, true, a, c, s);
      CompletePart(e.value, f, r, bs, cur, c, s, g);
      CompleteJump(o, u, a, c, s, g);
      ConnectsTrans(g, Here(bs, cur), Spell(r), Here(a.bs, a.cur), Spell(u), Goal(o, c, s, f));
    }
  }

  lemma {:induction false} CompleteReturnE(
    e: Expr, r: Run, o: Outcome, u: Run, bs: Blocks, cur: nat, c: Ctx, s: Scope, g: Blocks)
    requires e.Return?
    requires Open(bs, cur) && InScope(c, s) && DepthE(e) <= s.depth && OkE(e, Inside(c, s), s.deferred)
    requires Kept(g, bs, cur, LowerE(e, bs, cur, c, s))
    requires RunE(r, e, Inside(c, s), o) && Leads(o, c, s) && RunAll(u, Pending(o, c, s))
    ensures Connects(g, Here(bs, cur), Spell(r) + Spell(u), Goal(o, c, s, LowerE(e, bs, cur, c, s)))
    decreases 2 * s.depth + 1, r, e, 3
  {
    hide Connects, Kept, Leads, Visible, LowerReturn, Spell;
    var a := LowerE(e.value, bs, cur, c, s);
    var f := LowerReturn(a, c, s);
    if o != Normal && RunE(r, e.value, Inside(c, s), o) {
      CompleteEarly(e.value, f, r, o, u, bs, cur, c, s, g);
    } else {
      CompletePart(e.value, f, r, bs, cur, c, s, g);
      CompleteReturn(u, a, c, s, g);
      ConnectsTrans(g, Here(bs, cur), Spell(r), Here(a.bs, a.cur), Spell(u), Point(c.exit, 0));
    }
  }

  lemma CompleteUse(
    e: Expr, r: Run, o: Outcome, u: Run, bs: Blocks, cur: nat, c: Ctx, s: Scope, g: Blocks)
    requires e.Use?
    requires Open(bs, cur) && InScope(c, s) && DepthE(e) <= s.depth && OkE(e, Inside(c, s), s.deferred)
    requires Kept(g, bs, cur, LowerE(e, bs, cur, c, s))
    requires RunE(r, e, Inside(c, s), o) && Leads(o, c, s) && RunAll(u, Pending(o, c, s))
    ensures Connects(g, Here(bs, cur), Spell(r) + Spell(u), Goal(o, c, s, LowerE(e, bs, cur, c, s)))
  {
    hide Connects, Visible, Leads;
    assert g[cur].uses[|bs[cur].uses|] == e.site;
    ConnectsRead(g, Here(bs, cur));
    NothingPending([e.site]);
  }

  lemma {:induction false} CompleteContinue(
    e: Expr, r: Run, o: Outcome, u: Run, bs: Blocks, cur: nat, c: Ctx, s: Scope, g: Blocks)
    requires e.Continue?
    requires Open(bs, cur) && InScope(c, s) && DepthE(e) <= s.depth && OkE(e, Inside(c, s), s.deferred)
    requires Kept(g, bs, cur, LowerE(e, bs, cur, c, s))
    requires RunE(r, e, Inside(c, s), o) && Leads(o, c, s) && RunAll(u, Pending(o, c, s))
    ensures Connects(g, Here(bs, cur), Spell(r) + Spell(u), Goal(o, c, s, LowerE(e, bs, cur, c, s)))
    decreases 2 * s.depth + 1, r, e, 3
  {
    hide Connects, Kept, Visible, Leads, LowerJump, Resolve, Labels;
    ResolveInScope(c, s, e.lbl);
    CompleteJump(o, u, Out(bs, cur), c, s, g);
    assert Spell(r) + Spell(u) == Spell(u);
  }

  /** A jump out of loops, through the cleanup of the scopes in between. */
  lemma {:induction false} CompleteJump(o: Outcome, u: Run, a: Out, c: Ctx, s: Scope, g: Blocks)
    requires Open(a.bs, a.cur) && InScope(c, s) && (o.Broke? || o.Continued?) && Leads(o, c, s)
    requires Kept(g, a.bs, a.cur, LowerJump(Some(s.loopBase + o.loop), o.Broke?, a, c, s))
    requires RunAll(u, Pending(o, c, s))
    ensures Connects(g, Here(a.bs, a.cur), Spell(u), Goal(o, c, s, a))
    decreases 2 * s.depth, 2
  {
    hide Connects, Kept, Visible;
    var frame := LoopOf(c, s, o.loop);
    var w := Unwind(frame.deferDepth, false, a.bs, a.cur, c, s);
    var target := if o.Broke? then frame.breakTarget else frame.continueTarget;
    JumpShape(g, a.bs, a.cur, w, target);
    CompleteUnwind(frame.deferDepth, false, u, a.bs, a.cur, c, s, g);
    ConnectsSelf(g, Point(target, 0));
    GlueEdge(g, w, {target}, target, [], Point(target, 0));
    ConnectsTrans(g, Here(a.bs, a.cur), Spell(u), Here(w.bs, w.cur), [], Point(target, 0));
    assert Spell(u) + [] == Spell(u);
  }

  lemma {:induction false} CompleteReturn(u: Run, a: Out, c: Ctx, s: Scope, g: Blocks)
    requires Open(a.bs, a.cur) && InScope(c, s) && !s.deferred && Kept(g, a.bs, a.cur, LowerReturn(a, c, s))
    requires RunAll(u, UnwindBodies(c.stack, 0, true))
    ensures Connects(g, Here(a.bs, a.cur), Spell(u), Point(c.exit, 0))
    decreases 2 * s.depth, 2
  {
    hide Connects, Kept, Visible;
    var w := Unwind(0, true, a.bs, a.cur, c, s);
    JumpShape(g, a.bs, a.cur, w, c.exit);
    CompleteUnwind(0, true, u, a.bs, a.cur, c, s, g);
    ConnectsSelf(g, Point(c.exit, 0));
    GlueEdge(g, w, {c.exit}, c.exit, [], Point(c.exit, 0));
    ConnectsTrans(g, Here(a.bs, a.cur), Spell(u), Here(w.bs, w.cur), [], Point(c.exit, 0));
    assert Spell(u) + [] == Spell(u);
  }

  lemma {:induction false} CompleteUnwind(
    target: nat, error: bool, u: Run, bs: Blocks, cur: nat, c: Ctx, s: Scope, g: Blocks)
    requires Open(bs, cur) && InScope(c, s) && s.base <= target
    requires Kept(g, bs, cur, Unwind(target, error, bs, cur, c, s))
    requires RunAll(u, UnwindBodies(c.stack, target, error))
    ensures var w := Unwind(target, error, bs, cur, c, s);
      Connects(g, Here(bs, cur), Spell(u), Here(w.bs, w.cur))
    decreases 2 * s.depth, 1
  {
    hide Connects, Kept, Visible;
    UnwindOk(c.stack, s.base, target, error, s.depth);
    CompleteCleanup(UnwindBodies(c.stack, target, error), u, bs, cur, c, s, g);
  }

  lemma {:induction false} CompleteCleanup(
    bodies: seq<Block>, u: Run, bs: Blocks, cur: nat, c: Ctx, s: Scope, g: Blocks)
    requires Open(bs, cur) && InScope(c, s) && BodiesOk(bodies, s.depth)
    requires Kept(g, bs, cur, LowerCleanup(bodies, bs, cur, c, s)) && RunAll(u, bodies)
    ensures var w := LowerCleanup(bodies, bs, cur, c, s);
      Connects(g, Here(bs, cur), Spell(u), Here(w.bs, w.cur))
    decreases 2 * s.depth, 0
  {
    hide Connects, Kept, Visible;
    if bodies == [] {
      ConnectsSelf(g, Here(bs, cur));
    } else {
      assert DepthB(bodies[0]) < s.depth;
      CompleteBodies(bodies, u, bs, cur, c, BodyScope(c, s), g);
    }
  }

  lemma {:induction false} CompleteBodies(
    bodies: seq<Block>, u: Run, bs: Blocks, cur: nat, c: Ctx, s: Scope, g: Blocks)
    requires Open(bs, cur) && s == Scope(|c.stack|, |c.loops|, true, s.depth) && BodiesOk(bodies, s.depth + 1)
    requires Kept(g, bs, cur, LowerBodies(bodies, bs, cur, c, s)) && RunAll(u, bodies)
    ensures var w := LowerBodies(bodies, bs, cur, c, s);
      Connects(g, Here(bs, cur), Spell(u), Here(w.bs, w.cur))
    decreases 2 * s.depth + 1, u, bodies, 5
  {
    hide Connects, Kept, LowerB, RunB, OkB, DepthB, Leaves;
    if bodies == [] {
      ConnectsSelf(g, Here(bs, cur));
    } else {
      var entry := |bs|;
      ForkOpens(bs, cur);
      BodyIsOk(bodies, c, s);
      var x := LowerB(bodies[0], Fork(bs, cur), entry, c, s);
      var w := LowerBodies(bodies, bs, cur, c, s);
      BodyShape(g, bs, cur, x, w);
      NothingPending(Spell(u.a));
      NormalLeads(c, s);
      CompleteB(bodies[0], u.a, Normal, Done, Fork(bs, cur), entry, c, s, g);
      GlueEdge(g, Out(bs, cur), {entry}, entry, Spell(u.a), Here(x.bs, x.cur));
      CompleteBodies(bodies[1..], u.b, x.bs, x.cur, c, s, g);
      ConnectsTrans(g, Here(bs, cur), Spell(u.a), Here(x.bs, x.cur), Spell(u.b), Here(w.bs, w.cur));
    }
  }

  lemma {:induction false} CompleteXs(
    xs: Exprs, r: Run, o: Outcome, u: Run, bs: Blocks, cur: nat, c: Ctx, s: Scope, g: Blocks)
    requires Open(bs, cur) && InScope(c, s) && DepthXs(xs) <= s.depth && OkXs(xs, Inside(c, s), s.deferred)
    requires Kept(g, bs, cur, LowerXs(xs, bs, cur, c, s))
    requires RunXs(r, xs, Inside(c, s), o) && Leads(o, c, s) && RunAll(u, Pending(o, c, s))
    ensures Connects(g, Here(bs, cur), Spell(r) + Spell(u), Goal(o, c, s, LowerXs(xs, bs, cur, c, s)))
    decreases 2 * s.depth + 1, r, xs, 0
  {
    hide Connects, Kept, Leads, Visible;
    match xs
    case NoExprs =>
      ConnectsSelf(g, Here(bs, cur));
      NothingPending([]);
    case MoreExprs(h, t) =>
      var a := LowerE(h, bs, cur, c, s);
      var z := LowerXs(t, a.bs, a.cur, c, s);
      if o != Normal && RunE(r, h, Inside(c, s), o) {
        CompleteEarly(h, z, r, o, u, bs, cur, c, s, g);
      } else {
        CompletePart(h, z, r.a, bs, cur, c, s, g);
        CompleteXs(t, r.b, o, u, a.bs, a.cur, c, s, g);
        Glue(g, Here(bs, cur), Spell(r.a), Here(a.bs, a.cur), Spell(r.b), Spell(u), Goal(o, c, s, z));
      }
  }

  lemma {:induction false} CompleteIf(
    e: Expr, r: Run, o: Outcome, u: Run, bs: Blocks, cur: nat, c: Ctx, s: Scope, g: Blocks)
    requires e.If?
    requires Open(bs, cur) && InScope(c, s) && DepthE(e) <= s.depth && OkE(e, Inside(c, s), s.deferred)
    requires Kept(g, bs, cur, LowerIf(e, bs, cur, c, s))
    requires RunE(r, e, Inside(c, s), o) && Leads(o, c, s) && RunAll(u, Pending(o, c, s))
    ensures Connects(g, Here(bs, cur), Spell(r) + Spell(u), Goal(o, c, s, LowerIf(e, bs, cur, c, s)))
    decreases 2 * s.depth + 1, r, e, 3
  {
    hide Connects, Kept, Leads, Visible, LowerIfRest;
    var a := LowerE(e.cond, bs, cur, c, s);
    var f := LowerIfRest(e, a.bs, a.cur, c, s);
    if o != Normal && RunE(r, e.cond, Inside(c, s), o) {
      CompleteEarly(e.cond, f, r, o, u, bs, cur, c, s, g);
    } else {
      CompletePart(e.cond, f, r.a, bs, cur, c, s, g);
      CompleteBranch(e, r.b, o, u, a.bs, a.cur, c, s, g);
      Glue(g, Here(bs, cur), Spell(r.a), Here(a.bs, a.cur), Spell(r.b), Spell(u), Goal(o, c, s, f));
    }
  }

  /** The chosen side of an `if`, after its condition. */
  lemma {:induction false} CompleteBranch(
    e: Expr, r: Run, o: Outcome, u: Run, bs: Blocks, cur: nat, c: Ctx, s: Scope, g: Blocks)
    requires e.If?
    requires Open(bs, cur) && InScope(c, s) && BranchesOk(e, c, s)
    requires Kept(g, bs, cur, LowerIfRest(e, bs, cur, c, s)) && Leads(o, c, s) && RunAll(u, Pending(o, c, s))
    requires
      || RunB(r, e.thn, Inside(c, s), o)
      || (if e.els.Some? then RunE(r, e.els.value, Inside(c, s), o) else r == Done && o == Normal)
    ensures Connects(g, Here(bs, cur), Spell(r) + Spell(u), Goal(o, c, s, LowerIfRest(e, bs, cur, c, s)))
    decreases 2 * s.depth + 1, r, e, 2
  {
    hide Connects, Kept, Leads, Visible, Leaves, LowerE, LowerB, RunE, RunB, DepthE, DepthB, OkE, OkB;
    IfParts(e, bs, cur, c, s, g);
    var d := Fork(bs, cur);
    var t := LowerB(e.thn, d, |bs|, c, s);
    var merge := |t.bs|;
    var f := LowerIfRest(e, bs, cur, c, s);
    var b := Fork(t.bs, t.cur);
    var targets := if e.els.None? then {|bs|, merge} else {|bs|, |b|};
    if RunB(r, e.thn, Inside(c, s), o) {
      CompleteB(e.thn, r, o, u, d, |bs|, c, s, g);
      ToMerge(o, u, d, |bs|, t, merge, f, Spell(r), c, s, g);
      GlueEdge(g, Out(bs, cur), targets, |bs|, Spell(r) + Spell(u), Goal(o, c, s, f));
    } else if e.els.None? {
      ConnectsSelf(g, Point(merge, 0));
      GlueEdge(g, Out(bs, cur), targets, merge, [], Point(merge, 0));
      NothingPending([]);
    } else {
      var x := LowerE(e.els.value, Fork(b, cur), |b|, c, s);
      CompleteE(e.els.value, r, o, u, Fork(b, cur), |b|, c, s, g);
      ToMerge(o, u, Fork(b, cur), |b|, x, merge, f, Spell(r), c, s, g);
      GlueEdge(g, Out(bs, cur), targets, |b|, Spell(r) + Spell(u), Goal(o, c, s, f));
    }
  }

  /** A branch that ends normally goes on to the merge block; any other outcome leads where it led. */
  lemma ToMerge(
    o: Outcome, u: Run, bs: Blocks, cur: nat, t: Out, merge: nat, f: Out, spelled: Trace, c: Ctx, s: Scope, g: Blocks)
    requires cur < |bs| && Leads(o, c, s) && t.cur < |t.bs| && f.cur < |f.bs| && Here(f.bs, f.cur) == Point(merge, 0)
    requires Connects(g, Here(bs, cur), spelled + Spell(u), Goal(o, c, s, t)) && Leaves(g, t, {merge})
    ensures Connects(g, Here(bs, cur), spelled + Spell(u), Goal(o, c, s, f))
  {
    hide Connects;
    if o == Normal {
      ConnectsSelf(g, Point(merge, 0));
      GlueEdge(g, t, {merge}, merge, [], Point(merge, 0));
      ConnectsTrans(g, Here(bs, cur), spelled + Spell(u), Here(t.bs, t.cur), [], Point(merge, 0));
      assert spelled + Spell(u) + [] == spelled + Spell(u);
    }
  }

  lemma {:induction false} CompleteMatch(
    e: Expr, r: Run, o: Outcome, u: Run, bs: Blocks, cur: nat, c: Ctx, s: Scope, g: Blocks)
    requires e.Match?
    requires Open(bs, cur) && InScope(c, s) && DepthE(e) <= s.depth && OkE(e, Inside(c, s), s.deferred)
    requires Kept(g, bs, cur, LowerMatch(e, bs, cur, c, s))
    requires RunE(r, e, Inside(c, s), o) && Leads(o, c, s) && RunAll(u, Pending(o, c, s))
    ensures Connects(g, Here(bs, cur), Spell(r) + Spell(u), Goal(o, c, s, LowerMatch(e, bs, cur, c, s)))
    decreases 2 * s.depth + 1, r, e, 3
  {
    hide Connects, Kept, Leads, Visible, LowerMatchRest, RunArm;
    var a := LowerE(e.scrutinee, bs, cur, c, s);
    var f := LowerMatchRest(e, a.bs, a.cur, c, s);
    if o != Normal && RunE(r, e.scrutinee, Inside(c, s), o) {
      CompleteEarly(e.scrutinee, f, r, o, u, bs, cur, c, s, g);
    } else {
      CompletePart(e.scrutinee, f, r.a, bs, cur, c, s, g);
      CompleteArms(e, r.b, o, u, a.bs, a.cur, c, s, g);
      Glue(g, Here(bs, cur), Spell(r.a), Here(a.bs, a.cur), Spell(r.b), Spell(u), Goal(o, c, s, f));
    }
  }

  /** A `match`, after its scrutinee. */
  lemma {:induction false} CompleteArms(
    e: Expr, r: Run, o: Outcome, u: Run, bs: Blocks, cur: nat, c: Ctx, s: Scope, g: Blocks)
    requires e.Match?
    requires Open(bs, cur) && InScope(c, s) && DepthXs(e.arms) <= s.depth && OkXs(e.arms, Inside(c, s), s.deferred)
    requires Kept(g, bs, cur, LowerMatchRest(e, bs, cur, c, s))
    requires if e.arms.NoExprs? then r == Done && o == Normal else RunArm(r, e.arms, Inside(c, s), o)
    requires Leads(o, c, s) && RunAll(u, Pending(o, c, s))
    ensures Connects(g, Here(bs, cur), Spell(r) + Spell(u), Goal(o, c, s, LowerMatchRest(e, bs, cur, c, s)))
    decreases 2 * s.depth + 1, r, e.arms, 1
  {
    hide Connects, Kept, Leads, Visible, RunArm, LowerArms, DepthXs, OkXs;
    var f := LowerMatchRest(e, bs, cur, c, s);
    MatchShape(g, bs, cur, f.bs);
    if e.arms.NoExprs? {
      ForkOpens(bs, cur);
      ConnectsJump(g, Here(bs, cur), |bs|);
      assert Spell(r) + Spell(u) == [];
    } else {
      CompleteArm(e.arms, r, o, u, NewBlock(bs), cur, |bs|, f, c, s, g);
    }
  }

  lemma {:induction false} CompleteArm(
    arms: Exprs, r: Run, o: Outcome, u: Run, bs: Blocks, from: nat, merge: nat, f: Out, c: Ctx, s: Scope, g: Blocks)
    requires from < |bs| && merge < |bs| && InScope(c, s)
    requires DepthXs(arms) <= s.depth && OkXs(arms, Inside(c, s), s.deferred)
    requires KeptArms(g, bs, LowerArms(arms, bs, from, merge, c, s))
    requires forall next :: next in LowerArms(arms, bs, from, merge, c, s)[from].successors ==>
      next in g[from].successors
    requires g[from].uses == bs[from].uses
    requires f.cur < |f.bs| && Here(f.bs, f.cur) == Point(merge, 0)
    requires RunArm(r, arms, Inside(c, s), o) && Leads(o, c, s) && RunAll(u, Pending(o, c, s))
    ensures Connects(g, Here(bs, from), Spell(r) + Spell(u), Goal(o, c, s, f))
    decreases 2 * s.depth + 1, r, arms, 0
  {
    hide Connects, Kept, Leads, Visible, KeptArms, LowerE, DepthE, OkE, RunE;
    var entry := |bs|;
    ForkOpens(bs, from);
    var x := LowerE(arms.head, Fork(bs, from), entry, c, s);
    var b := AddEdge(x.bs, x.cur, merge);
    ArmShape(g, bs, from, merge, x, LowerArms(arms, bs, from, merge, c, s));
    if RunE(r, arms.head, Inside(c, s), o) {
      CompleteE(arms.head, r, o, u, Fork(bs, from), entry, c, s, g);
      ToMerge(o, u, Fork(bs, from), entry, x, merge, f, Spell(r), c, s, g);
      assert entry in b[from].successors;
      ConnectsJump(g, Here(bs, from), entry);
      ConnectsTrans(g, Here(bs, from), [], Point(entry, 0), Spell(r) + Spell(u), Goal(o, c, s, f));
      assert [] + (Spell(r) + Spell(u)) == Spell(r) + Spell(u);
    } else {
      CompleteArm(arms.tail, r, o, u, b, from, merge, f, c, s, g);
    }
  }

  // ---------- loops ----------

  /** One round of a loop body: back to the header, or out of the loop. */
  lemma {:induction false} CompleteRound(
    r: Run, l: Label, body: Block, o: Outcome, u: Run, bs: Blocks, entry: nat, header: nat, merge: nat, f: Out,
    c: Ctx, s: Scope, g: Blocks)
    requires LoopBodyKept(l, body, bs, entry, header, merge, c, s, g)
    requires r.Iter? && RunB(r.body, body, Inside(c, s) + [l], r.outcome)
    requires f.cur < |f.bs| && Here(f.bs, f.cur) == Point(merge, 0)
    requires var next := AfterRound(r.outcome, |Inside(c, s)|);
      next.Stop? ==> o == next.outcome && r.next == Done && Leads(o, c, s) && RunAll(u, Pending(o, c, s))
    ensures AfterRound(r.outcome, |Inside(c, s)|).Again? ==>
      Connects(g, Point(entry, 0), Spell(r.body), Point(header, 0))
    ensures AfterRound(r.outcome, |Inside(c, s)|).Stop? ==>
      Connects(g, Point(entry, 0), Spell(r) + Spell(u), Goal(o, c, s, f))
    decreases 2 * s.depth + 1, r, body, 3
  {
    hide Connects, Kept, Visible, LowerB, RunB, DepthB, OkB;
    var d := EnterLoop(c, l, merge, header);
    var x := LowerB(body, bs, entry, d, s);
    BoundB(r.body, body, Inside(c, s) + [l], r.outcome, s.deferred);
    LeadsInLoop(r.outcome, c, s, l, merge, header, x);
    NothingPending(Spell(r.body));
    match AfterRound(r.outcome, |Inside(c, s)|)
    case Again =>
      CompleteB(body, r.body, r.outcome, Done, bs, entry, d, s, g);
      if r.outcome == Normal {
        ConnectsSelf(g, Point(header, 0));
        GlueEdge(g, x, {header}, header, [], Point(header, 0));
        ConnectsTrans(g, Point(entry, 0), Spell(r.body), Here(x.bs, x.cur), [], Point(header, 0));
        assert Spell(r.body) + [] == Spell(r.body);
      }
    case Stop(p) =>
      assert Spell(r) == Spell(r.body);
      CompleteB(body, r.body, r.outcome, u, bs, entry, d, s, g);
  }

  /** From the header of a `for` or `loop`. */
  lemma {:induction false} CompleteRounds(
    r: Run, l: Label, body: Block, ends: bool, o: Outcome, u: Run, bs: Blocks, entry: nat, header: nat, merge: nat,
    f: Out,
    c: Ctx, s: Scope, g: Blocks)
    requires InScope(c, s) && RunRounds(r, l, body, ends, Inside(c, s), o)
    requires Leads(o, c, s) && RunAll(u, Pending(o, c, s))
    requires LoopBodyKept(l, body, bs, entry, header, merge, c, s, g)
    requires f.cur < |f.bs| && Here(f.bs, f.cur) == Point(merge, 0) && HeaderLeads(g, header, entry, merge, ends)
    ensures Connects(g, Point(header, 0), Spell(r) + Spell(u), Goal(o, c, s, f))
    decreases 2 * s.depth + 1, r, body, 4
  {
    hide Connects, Kept, Visible, Leads, Leaves, LowerB, RunB, DepthB, OkB, LoopBodyKept;
    if ends && r == Done && o == Normal {
      ConnectsJump(g, Point(header, 0), merge);
      assert Spell(r) + Spell(u) == [];
    } else {
      CompleteRound(r, l, body, o, u, bs, entry, header, merge, f, c, s, g);
      if ends {
        ConnectsJump(g, Point(header, 0), entry);
      } else {
        ConnectsSelf(g, Point(header, 0));
      }
      if AfterRound(r.outcome, |Inside(c, s)|).Again? {
        CompleteRounds(r.next, l, body, ends, o, u, bs, entry, header, merge, f, c, s, g);
        ConnectsTrans(g, Point(header, 0), [], Point(entry, 0), Spell(r.body), Point(header, 0));
        assert [] + Spell(r.body) == Spell(r.body);
        Glue(g, Point(header, 0), Spell(r.body), Point(header, 0), Spell(r.next), Spell(u), Goal(o, c, s, f));
      } else {
        ConnectsTrans(g, Point(header, 0), [], Point(entry, 0), Spell(r) + Spell(u), Goal(o, c, s, f));
        assert [] + (Spell(r) + Spell(u)) == Spell(r) + Spell(u);
      }
    }
  }

  lemma {:induction false} CompleteLoop(
    e: Expr, r: Run, o: Outcome, u: Run, bs: Blocks, cur: nat, c: Ctx, s: Scope, g: Blocks)
    requires e.Loop?
    requires Open(bs, cur) && InScope(c, s) && DepthE(e) <= s.depth && OkE(e, Inside(c, s), s.deferred)
    requires Kept(g, bs, cur, LowerLoop(e, bs, cur, c, s))
    requires RunE(r, e, Inside(c, s), o) && Leads(o, c, s) && RunAll(u, Pending(o, c, s))
    ensures Connects(g, Here(bs, cur), Spell(r) + Spell(u), Goal(o, c, s, LowerLoop(e, bs, cur, c, s)))
    decreases 2 * s.depth + 1, r, e, 3
  {
    hide Connects, Visible, Leads, LowerB, RunRounds, Leaves, Kept, DepthB, OkB;
    var header, merge := |bs|, |bs| + 1;
    EnterKeepsScope(c, s, e.lbl, merge, header);
    ForkOpens(bs, cur);
    var d := NewBlock(Fork(bs, cur));
    var x := LowerB(e.body, d, header, EnterLoop(c, e.lbl, merge, header), s);
    LoopShape(g, bs, cur, x);
    var f := LowerLoop(e, bs, cur, c, s);
    CompleteRounds(r, e.lbl, e.body, false, o, u, d, header, header, merge, f, c, s, g);
    GlueEdge(g, Out(bs, cur), {header}, header, Spell(r) + Spell(u), Goal(o, c, s, f));
  }

  lemma {:induction false} CompleteFor(
    e: Expr, r: Run, o: Outcome, u: Run, bs: Blocks, cur: nat, c: Ctx, s: Scope, g: Blocks)
    requires e.For?
    requires Open(bs, cur) && InScope(c, s) && DepthE(e) <= s.depth && OkE(e, Inside(c, s), s.deferred)
    requires Kept(g, bs, cur, LowerFor(e, bs, cur, c, s))
    requires RunE(r, e, Inside(c, s), o) && Leads(o, c, s) && RunAll(u, Pending(o, c, s))
    ensures Connects(g, Here(bs, cur), Spell(r) + Spell(u), Goal(o, c, s, LowerFor(e, bs, cur, c, s)))
    decreases 2 * s.depth + 1, r, e, 3
  {
    hide Connects, Kept, Leads, Visible, LowerForRest, RunRounds;
    var a := LowerE(e.iterable, bs, cur, c, s);
    var f := LowerForRest(e, a.bs, a.cur, c, s);
    if o != Normal && RunE(r, e.iterable, Inside(c, s), o) {
      CompleteEarly(e.iterable, f, r, o, u, bs, cur, c, s, g);
    } else {
      CompletePart(e.iterable, f, r.a, bs, cur, c, s, g);
      CompleteForRest(e, r.b, o, u, a.bs, a.cur, c, s, g);
      Glue(g, Here(bs, cur), Spell(r.a), Here(a.bs, a.cur), Spell(r.b), Spell(u), Goal(o, c, s, f));
    }
  }

  lemma {:induction false} CompleteForRest(
    e: Expr, r: Run, o: Outcome, u: Run, bs: Blocks, cur: nat, c: Ctx, s: Scope, g: Blocks)
    requires e.For?
    requires Open(bs, cur) && InScope(c, s) && DepthB(e.body) <= s.depth
    requires OkB(e.body, Inside(c, s) + [e.lbl], s.deferred)
    requires Kept(g, bs, cur, LowerForRest(e, bs, cur, c, s))
    requires RunRounds(r, e.lbl, e.body, true, Inside(c, s), o) && Leads(o, c, s) && RunAll(u, Pending(o, c, s))
    ensures Connects(g, Here(bs, cur), Spell(r) + Spell(u), Goal(o, c, s, LowerForRest(e, bs, cur, c, s)))
    decreases 2 * s.depth + 1, r, e, 2
  {
    hide Connects, Visible, Leads, Kept, Leaves, HeaderLeads, LowerB, RunB, DepthB, OkB, RunRounds, LoopBodyKept;
    ForParts(e, bs, cur, c, s, g);
    var header := |bs|;
    var f := LowerForRest(e, bs, cur, c, s);
    var d := Fork(Fork(Fork(bs, cur), header), header);
    CompleteRounds(r, e.lbl, e.body, true, o, u, d, header + 1, header, header + 2, f, c, s, g);
    GlueEdge(g, Out(bs, cur), {header}, header, Spell(r) + Spell(u), Goal(o, c, s, f));
  }

  lemma {:induction false} CompleteWhile(
    e: Expr, r: Run, o: Outcome, u: Run, bs: Blocks, cur: nat, c: Ctx, s: Scope, g: Blocks)
    requires e.While?
    requires Open(bs, cur) && InScope(c, s) && DepthE(e) <= s.depth && OkE(e, Inside(c, s), s.deferred)
    requires Kept(g, bs, cur, LowerWhile(e, bs, cur, c, s))
    requires RunE(r, e, Inside(c, s), o) && Leads(o, c, s) && RunAll(u, Pending(o, c, s))
    ensures Connects(g, Here(bs, cur), Spell(r) + Spell(u), Goal(o, c, s, LowerWhile(e, bs, cur, c, s)))
    decreases 2 * s.depth + 1, r, e, 3
  {
    hide Connects, Visible, Leads, Kept;
    var header := |bs|;
    WhileParts(e, bs, cur, c, s, g);
    var f := LowerWhile(e, bs, cur, c, s);
    CompleteFromHeader(e, r, o, u, bs, cur, c, s, g);
    GlueEdge(g, Out(bs, cur), {header}, header, Spell(r) + Spell(u), Goal(o, c, s, f));
  }

  /** From the header of a `while`: the condition, then the body and back, or past the loop. */
  lemma {:induction false} CompleteFromHeader(
    e: Expr, r: Run, o: Outcome, u: Run, bs: Blocks, cur: nat, c: Ctx, s: Scope, g: Blocks)
    requires e.While?
    requires Open(bs, cur) && InScope(c, s) && DepthE(e) <= s.depth && OkE(e, Inside(c, s), s.deferred)
    requires Kept(g, bs, cur, LowerWhile(e, bs, cur, c, s))
    requires RunE(r, e, Inside(c, s), o) && Leads(o, c, s) && RunAll(u, Pending(o, c, s))
    ensures Connects(g, Point(|bs|, 0), Spell(r) + Spell(u), Goal(o, c, s, LowerWhile(e, bs, cur, c, s)))
    decreases 2 * s.depth + 1, r, e, 2
  {
    hide Connects, Kept, Leads, Visible, Leaves, LowerWhileRest, RunB, LowerB;
    WhileParts(e, bs, cur, c, s, g);
    var header := |bs|;
    var a := LowerE(e.cond, Fork(bs, cur), header, c, s);
    var f := LowerWhileRest(e, header, a.bs, a.cur, c, s);
    if o != Normal && RunE(r, e.cond, Inside(c, s), o) {
      CompleteE(e.cond, r, o, u, Fork(bs, cur), header, c, s, g);
    } else {
      NothingPending(Spell(r.a));
      NormalLeads(c, s);
      CompleteE(e.cond, r.a, Normal, Done, Fork(bs, cur), header, c, s, g);
      CompleteWhileRest(e, r.b, o, u, bs, cur, c, s, g);
      Glue(g, Point(header, 0), Spell(r.a), Here(a.bs, a.cur), Spell(r.b), Spell(u), Goal(o, c, s, f));
    }
  }

  /** A `while`, after its condition. */
  lemma {:induction false} CompleteWhileRest(
    e: Expr, r: Run, o: Outcome, u: Run, bs: Blocks, cur: nat, c: Ctx, s: Scope, g: Blocks)
    requires e.While?
    requires Open(bs, cur) && InScope(c, s) && DepthE(e) <= s.depth && OkE(e, Inside(c, s), s.deferred)
    requires Kept(g, bs, cur, LowerWhile(e, bs, cur, c, s)) && Leads(o, c, s) && RunAll(u, Pending(o, c, s))
    requires RunWhileRest(r, e, Inside(c, s), o)
    ensures var a := LowerE(e.cond, Fork(bs, cur), |bs|, c, s);
      Connects(g, Here(a.bs, a.cur), Spell(r) + Spell(u), Goal(o, c, s, LowerWhile(e, bs, cur, c, s)))
    decreases 2 * s.depth + 1, r, e, 2
  {
    hide Connects, Kept, Leads, Visible, Leaves, RunE, RunB, LowerE, LowerB, LowerWhile, DepthE, DepthB, OkE, OkB,
      LoopBodyKept;
    WhileWhole(e, bs, cur, c, s, g);
    var a := LowerE(e.cond, Fork(bs, cur), |bs|, c, s);
    var entry, merge, f := |a.bs|, |a.bs| + 1, LowerWhile(e, bs, cur, c, s);
    if r == Done {
      ConnectsSelf(g, Point(merge, 0));
      GlueEdge(g, a, {entry, merge}, merge, [], Point(merge, 0));
      assert Spell(r) + Spell(u) == [];
    } else {
      CompleteWhileRound(e, r, o, u, bs, cur, c, s, g);
      GlueEdge(g, a, {entry, merge}, entry, Spell(r) + Spell(u), Goal(o, c, s, f));
    }
  }

  /** From the body of a `while`. */
  lemma {:induction false} CompleteWhileRound(
    e: Expr, r: Run, o: Outcome, u: Run, bs: Blocks, cur: nat, c: Ctx, s: Scope, g: Blocks)
    requires e.While?
    requires Open(bs, cur) && InScope(c, s) && DepthE(e) <= s.depth && OkE(e, Inside(c, s), s.deferred)
    requires Kept(g, bs, cur, LowerWhile(e, bs, cur, c, s)) && Leads(o, c, s) && RunAll(u, Pending(o, c, s))
    requires r.Iter? && RunWhileRest(r, e, Inside(c, s), o)
    ensures var a := LowerE(e.cond, Fork(bs, cur), |bs|, c, s);
      Connects(g, Point(|a.bs|, 0), Spell(r) + Spell(u), Goal(o, c, s, LowerWhile(e, bs, cur, c, s)))
    decreases 2 * s.depth + 1, r, e, 1
  {
    hide Connects, Visible, Leads, Kept, Leaves, RunE, RunB, LowerE, LowerB, LowerWhile, DepthE, DepthB, OkE, OkB,
      LoopBodyKept;
    WhileWhole(e, bs, cur, c, s, g);
    var header := |bs|;
    var a := LowerE(e.cond, Fork(bs, cur), header, c, s);
    var f := LowerWhile(e, bs, cur, c, s);
    CompleteRound(r, e.lbl, e.body, o, u, Fork(Fork(a.bs, a.cur), a.cur), |a.bs|, header, |a.bs| + 1, f, c, s, g);
    if AfterRound(r.outcome, |Inside(c, s)|).Again? {
      CompleteFromHeader(e, r.next, o, u, bs, cur, c, s, g);
      Glue(g, Point(|a.bs|, 0), Spell(r.body), Point(header, 0), Spell(r.next), Spell(u), Goal(o, c, s, f));
    }
  }

  // ---------- the error edge ----------

  lemma {:induction false} CompleteQuestion(
    e: Expr, r: Run, o: Outcome, u: Run, bs: Blocks, cur: nat, c: Ctx, s: Scope, g: Blocks)
    requires e.Question?
    requires Open(bs, cur) && InScope(c, s) && DepthE(e) <= s.depth && OkE(e, Inside(c, s), s.deferred)
    requires Kept(g, bs, cur, LowerE(e, bs, cur, c, s))
    requires RunE(r, e, Inside(c, s), o) && Leads(o, c, s) && RunAll(u, Pending(o, c, s))
    ensures Connects(g, Here(bs, cur), Spell(r) + Spell(u), Goal(o, c, s, LowerE(e, bs, cur, c, s)))
    decreases 2 * s.depth + 1, r, e, 3
  {
    hide Connects, Kept, Leads, Visible, LowerQuestion, Spell;
    var a := LowerE(e.inner, bs, cur, c, s);
    var f := LowerQuestion(a, c, s);
    if o != Normal && RunE(r, e.inner, Inside(c, s), o) {
      CompleteEarly(e.inner, f, r, o, u, bs, cur, c, s, g);
    } else {
      CompletePart(e.inner, f, r, bs, cur, c, s, g);
      CompleteErrorEdge(a, o, u, c, s, g);
      ConnectsTrans(g, Here(bs, cur), Spell(r), Here(a.bs, a.cur), Spell(u), Goal(o, c, s, f));
    }
  }

  /** After the operand of `?`: straight on, or through all the cleanup to the function exit. */
  lemma {:induction false} CompleteErrorEdge(a: Out, o: Outcome, u: Run, c: Ctx, s: Scope, g: Blocks)
    requires Open(a.bs, a.cur) && InScope(c, s) && !s.deferred && Kept(g, a.bs, a.cur, LowerQuestion(a, c, s))
    requires (o == Normal || o == Returned) && Leads(o, c, s) && RunAll(u, Pending(o, c, s))
    ensures Connects(g, Here(a.bs, a.cur), Spell(u), Goal(o, c, s, LowerQuestion(a, c, s)))
    decreases 2 * s.depth, 3
  {
    hide Connects, Visible, Kept, UnwindBodies, LowerCleanup, LowerBodies;
    UnwindOk(c.stack, 0, 0, true, s.depth);
    var bodies, w := UnwindBodies(c.stack, 0, true), Unwind(0, true, a.bs, a.cur, c, s);
    QuestionParts(a, c, s, g);
    if o == Normal {
      ConnectsSelf(g, Point(|w.bs|, 0));
      GlueEdge(g, a, {if bodies == [] then c.exit else |a.bs|, |w.bs|}, |w.bs|, [], Point(|w.bs|, 0));
      EmptyRun(u);
    } else {
      CompleteErrorPath(bodies, a, u, c, s, g);
    }
  }

  lemma {:induction false} CompleteErrorPath(bodies: seq<Block>, a: Out, u: Run, c: Ctx, s: Scope, g: Blocks)
    requires Open(a.bs, a.cur) && InScope(c, s) && BodiesOk(bodies, s.depth) && RunAll(u, bodies)
    requires var w := LowerCleanup(bodies, a.bs, a.cur, c, s);
      && Leaves(g, a, {if bodies == [] then c.exit else |a.bs|, |w.bs|})
      && (bodies != [] ==> ErrorPathKept(bodies, a, w, c, s, g))
    ensures Connects(g, Here(a.bs, a.cur), Spell(u), Point(c.exit, 0))
    decreases 2 * s.depth, 2
  {
    hide Connects, Visible, Kept, Leaves, LowerB, LowerBodies, OkB, DepthB, LowerCleanup;
    var w := LowerCleanup(bodies, a.bs, a.cur, c, s);
    ConnectsSelf(g, Point(c.exit, 0));
    if bodies == [] {
      GlueEdge(g, a, {c.exit, |w.bs|}, c.exit, [], Point(c.exit, 0));
    } else {
      var t, entry := BodyScope(c, s), |a.bs|;
      var x := LowerB(bodies[0], Fork(a.bs, a.cur), entry, c, t);
      NothingPending(Spell(u.a));
      NormalLeads(c, t);
      CompleteB(bodies[0], u.a, Normal, Done, Fork(a.bs, a.cur), entry, c, t, g);
      CompleteBodies(bodies[1..], u.b, x.bs, x.cur, c, t, g);
      GlueEdge(g, w, {c.exit}, c.exit, [], Point(c.exit, 0));
      ConnectsTrans(g, Here(x.bs, x.cur), Spell(u.b), Here(w.bs, w.cur), [], Point(c.exit, 0));
      assert Spell(u.b) + [] == Spell(u.b);
      ConnectsTrans(g, Point(entry, 0), Spell(u.a), Here(x.bs, x.cur), Spell(u.b), Point(c.exit, 0));
      GlueEdge(g, a, {entry, |w.bs|}, entry, Spell(u), Point(c.exit, 0));
    }
  }

  // ---------- blocks ----------

  lemma {:induction false} CompleteB(
    b: Block, r: Run, o: Outcome, u: Run, bs: Blocks, cur: nat, c: Ctx, s: Scope, g: Blocks)
    requires Open(bs, cur) && InScope(c, s) && DepthB(b) <= s.depth && OkB(b, Inside(c, s), s.deferred)
    requires Kept(g, bs, cur, LowerB(b, bs, cur, c, s))
    requires RunB(r, b, Inside(c, s), o) && Leads(o, c, s) && RunAll(u, Pending(o, c, s))
    ensures Connects(g, Here(bs, cur), Spell(r) + Spell(u), Goal(o, c, s, LowerB(b, bs, cur, c, s)))
    decreases 2 * s.depth + 1, r, b, 2
  {
    hide Connects, Visible, Leads, Kept;
    PushKeepsScope(c, s);
    CompleteStmts(b, [], r, o, u, bs, cur, c, s, g);
  }

  lemma {:induction false} CompleteStmts(
    b: Block, items: DeferFrame, r: Run, o: Outcome, u: Run, bs: Blocks, cur: nat, c: Ctx, s: Scope, g: Blocks)
    requires Open(bs, cur) && InScope(c, s) && DepthB(b) <= s.depth && OkB(b, Inside(c, s), s.deferred)
    requires InScope(WithFrame(c, items), s)
    requires Kept(g, bs, cur, LowerStmts(b, bs, cur, WithFrame(c, items), s))
    requires RunStmts(r, b, items, Inside(c, s), o) && Leads(o, c, s) && RunAll(u, Pending(o, c, s))
    ensures Connects(
      g, Here(bs, cur), Spell(r) + Spell(u), Goal(o, c, s, LowerStmts(b, bs, cur, WithFrame(c, items), s)))
    decreases 2 * s.depth + 1, r, b, 1
  {
    hide Connects, Visible, Leads, Kept, RunS, LowerS, RunAll, CleanupBodies, LowerE, DepthE, OkE, RunE, Spell, Grows;
    var d := WithFrame(c, items);
    var f := LowerStmts(b, bs, cur, d, s);
    match b
    case End(e) =>
      CompleteEnd(e, items, r, o, u, bs, cur, c, s, g);
    case Then(st, rest) =>
      assert DepthS(st) <= s.depth && OkS(st, Inside(c, s), s.deferred);
      match st
      case Uninit =>
        CompleteStmts(rest, items, r, o, u, bs, cur, c, s, g);
      case Defer(body) =>
        var item := DeferItem(PlainDefer, body);
        RegisterInFrame(c, items, item);
        RegisterKeepsScope(d, s, item);
        CompleteStmts(rest, items + [item], r, o, u, bs, cur, c, s, g);
      case ErrDefer(body) =>
        var item := DeferItem(ErrorDefer, body);
        RegisterInFrame(c, items, item);
        RegisterKeepsScope(d, s, item);
        CompleteStmts(rest, items + [item], r, o, u, bs, cur, c, s, g);
      case _ =>
        CompleteFirst(st, rest, items, r, o, u, bs, cur, c, s, g);
  }

  /** A statement that evaluates something, and the rest of its block. */
  lemma {:induction false} CompleteFirst(
    st: Stmt, rest: Block, items: DeferFrame, r: Run, o: Outcome, u: Run, bs: Blocks, cur: nat, c: Ctx, s: Scope,
    g: Blocks)
    requires st.Eval? || st.Assign?
    requires Open(bs, cur) && InScope(c, s)
    requires DepthB(Then(st, rest)) <= s.depth && OkB(Then(st, rest), Inside(c, s), s.deferred)
    requires InScope(WithFrame(c, items), s)
    requires Kept(g, bs, cur, LowerStmts(Then(st, rest), bs, cur, WithFrame(c, items), s))
    requires RunStmts(r, Then(st, rest), items, Inside(c, s), o) && Leads(o, c, s) && RunAll(u, Pending(o, c, s))
    ensures Connects(
      g, Here(bs, cur), Spell(r) + Spell(u), Goal(o, c, s, LowerStmts(Then(st, rest), bs, cur, WithFrame(c, items), s)))
    decreases 2 * s.depth + 1, r, Then(st, rest), 0, 1
  {
    hide Connects, Visible, Leads, Kept;
    if r.Seq? && o != Normal && RunS(r.a, st, Inside(c, s), o) && RunAll(r.b, CleanupBodies(items, o == Returned)) {
      CompleteLeaving(st, rest, items, r, o, u, bs, cur, c, s, g);
    } else {
      CompleteRest(st, rest, items, r, o, u, bs, cur, c, s, g);
    }
  }

  lemma {:induction false} CompleteRest(
    st: Stmt, rest: Block, items: DeferFrame, r: Run, o: Outcome, u: Run, bs: Blocks, cur: nat, c: Ctx, s: Scope,
    g: Blocks)
    requires st.Eval? || st.Assign?
    requires Open(bs, cur) && InScope(c, s)
    requires DepthB(Then(st, rest)) <= s.depth && OkB(Then(st, rest), Inside(c, s), s.deferred)
    requires InScope(WithFrame(c, items), s)
    requires Kept(g, bs, cur, LowerStmts(Then(st, rest), bs, cur, WithFrame(c, items), s))
    requires r.Seq? && RunS(r.a, st, Inside(c, s), Normal) && RunStmts(r.b, rest, items, Inside(c, s), o)
    requires Leads(o, c, s) && RunAll(u, Pending(o, c, s))
    ensures Connects(
      g, Here(bs, cur), Spell(r) + Spell(u), Goal(o, c, s, LowerStmts(Then(st, rest), bs, cur, WithFrame(c, items), s)))
    decreases 2 * s.depth + 1, r, Then(st, rest), 0, 0
  {
    hide Connects, Visible, Leads, Kept, RunStmts, RunS, LowerS;
    var d := WithFrame(c, items);
    var f := LowerStmts(Then(st, rest), bs, cur, d, s);
    var a := LowerS(st, bs, cur, d, s);
    KeptSeq(g, bs, cur, a, f);
    NothingPending(Spell(r.a));
    NormalLeads(d, s);
    CompleteS(st, r.a, Normal, Done, bs, cur, d, s, g);
    CompleteStmts(rest, items, r.b, o, u, a.bs, a.cur, c, s, g);
    Glue(g, Here(bs, cur), Spell(r.a), Here(a.bs, a.cur), Spell(r.b), Spell(u), Goal(o, c, s, f));
  }

  lemma {:induction false} CompleteLeaving(
    st: Stmt, rest: Block, items: DeferFrame, r: Run, o: Outcome, u: Run, bs: Blocks, cur: nat, c: Ctx, s: Scope,
    g: Blocks)
    requires st.Eval? || st.Assign?
    requires Open(bs, cur) && InScope(c, s)
    requires DepthB(Then(st, rest)) <= s.depth && OkB(Then(st, rest), Inside(c, s), s.deferred)
    requires InScope(WithFrame(c, items), s)
    requires Kept(g, bs, cur, LowerStmts(Then(st, rest), bs, cur, WithFrame(c, items), s))
    requires r.Seq? && o != Normal && RunS(r.a, st, Inside(c, s), o) && RunAll(r.b, CleanupBodies(items, o == Returned))
    requires Leads(o, c, s) && RunAll(u, Pending(o, c, s))
    ensures Connects(
      g, Here(bs, cur), Spell(r) + Spell(u), Goal(o, c, s, LowerStmts(Then(st, rest), bs, cur, WithFrame(c, items), s)))
    decreases 2 * s.depth + 1, r, Then(st, rest), 0, 0
  {
    hide Connects, Visible, Leads, Kept, RunS, RunAll, CleanupBodies, UnwindBodies, Chain, LowerS, DepthE, OkE, RunE,
      LowerE;
    var d := WithFrame(c, items);
    var a := LowerS(st, bs, cur, d, s);
    KeptSeq(g, bs, cur, a, LowerStmts(Then(st, rest), bs, cur, d, s));
    PendingInFrame(o, c, s, items);
    ChainRuns(r.b, CleanupBodies(items, o == Returned), u, Pending(o, c, s));
    CompleteS(st, r.a, o, Chain(r.b, u), bs, cur, d, s, g);
    assert Spell(r.a) + (Spell(r.b) + Spell(u)) == Spell(r) + Spell(u);
  }

  lemma {:induction false} CompleteEnd(
    e: Expr, items: DeferFrame, r: Run, o: Outcome, u: Run, bs: Blocks, cur: nat, c: Ctx, s: Scope, g: Blocks)
    requires Open(bs, cur) && InScope(c, s) && DepthE(e) <= s.depth && OkE(e, Inside(c, s), s.deferred)
    requires InScope(WithFrame(c, items), s)
    requires Kept(g, bs, cur, LowerStmts(End(e), bs, cur, WithFrame(c, items), s))
    requires RunStmts(r, End(e), items, Inside(c, s), o) && Leads(o, c, s) && RunAll(u, Pending(o, c, s))
    ensures Connects(
      g, Here(bs, cur), Spell(r) + Spell(u), Goal(o, c, s, LowerStmts(End(e), bs, cur, WithFrame(c, items), s)))
    decreases 2 * s.depth + 1, r, e, 5
  {
    hide Connects, Visible, Leads, Kept, Grows, RunE, RunAll, LowerStmts;
    if o == Normal {
      CompleteEndNormally(e, items, r, bs, cur, c, s, g);
      NothingPending(Spell(r));
      EmptyRun(u);
    } else {
      CompleteEndLeaving(e, items, r, o, u, bs, cur, c, s, g);
    }
  }

  lemma EmptyRun(u: Run)
    requires RunAll(u, [])
    ensures u == Done
  {
  }

  lemma {:induction false} CompleteEndNormally(
    e: Expr, items: DeferFrame, r: Run, bs: Blocks, cur: nat, c: Ctx, s: Scope, g: Blocks)
    requires Open(bs, cur) && InScope(c, s) && DepthE(e) <= s.depth && OkE(e, Inside(c, s), s.deferred)
    requires InScope(WithFrame(c, items), s)
    requires Kept(g, bs, cur, LowerStmts(End(e), bs, cur, WithFrame(c, items), s))
    requires r.Seq? && RunE(r.a, e, Inside(c, s), Normal) && RunAll(r.b, CleanupBodies(items, false))
    ensures var f := LowerStmts(End(e), bs, cur, WithFrame(c, items), s);
      Connects(g, Here(bs, cur), Spell(r), Here(f.bs, f.cur))
    decreases 2 * s.depth + 1, r, e, 4, 5
  {
    hide Connects, Visible, Leads, Kept, RunE, RunAll, LowerE, LowerCleanup;
    var d := WithFrame(c, items);
    var f := LowerStmts(End(e), bs, cur, d, s);
    var a := LowerE(e, bs, cur, d, s);
    CompletePart(e, f, r.a, bs, cur, d, s, g);
    TopIsOk(d, s);
    CompleteCleanup(CleanupBodies(items, false), r.b, a.bs, a.cur, d, s, g);
    ConnectsTrans(g, Here(bs, cur), Spell(r.a), Here(a.bs, a.cur), Spell(r.b), Here(f.bs, f.cur));
  }

  lemma {:induction false} CompleteEndLeaving(
    e: Expr, items: DeferFrame, r: Run, o: Outcome, u: Run, bs: Blocks, cur: nat, c: Ctx, s: Scope, g: Blocks)
    requires Open(bs, cur) && InScope(c, s) && DepthE(e) <= s.depth && OkE(e, Inside(c, s), s.deferred)
    requires InScope(WithFrame(c, items), s)
    requires Kept(g, bs, cur, LowerStmts(End(e), bs, cur, WithFrame(c, items), s))
    requires r.Seq? && RunE(r.a, e, Inside(c, s), o) && RunAll(r.b, CleanupBodies(items, o == Returned))
    requires o != Normal && Leads(o, c, s) && RunAll(u, Pending(o, c, s))
    ensures Connects(
      g, Here(bs, cur), Spell(r) + Spell(u), Goal(o, c, s, LowerStmts(End(e), bs, cur, WithFrame(c, items), s)))
    decreases 2 * s.depth + 1, r, e, 4, 5
  {
    hide Connects, Visible, Leads, Kept, RunE, RunAll, CleanupBodies, UnwindBodies, Chain, LowerE, LowerCleanup;
    var d := WithFrame(c, items);
    PendingInFrame(o, c, s, items);
    ChainRuns(r.b, CleanupBodies(items, o == Returned), u, Pending(o, c, s));
    CompleteEarly(e, LowerStmts(End(e), bs, cur, d, s), r.a, o, Chain(r.b, u), bs, cur, d, s, g);
    assert Spell(r.a) + (Spell(r.b) + Spell(u)) == Spell(r) + Spell(u);
  }

  lemma {:induction false} CompleteS(
    st: Stmt, r: Run, o: Outcome, u: Run, bs: Blocks, cur: nat, c: Ctx, s: Scope, g: Blocks)
    requires st.Eval? || st.Assign?
    requires Open(bs, cur) && InScope(c, s) && DepthS(st) <= s.depth && OkS(st, Inside(c, s), s.deferred)
    requires Kept(g, bs, cur, LowerS(st, bs, cur, c, s))
    requires RunS(r, st, Inside(c, s), o) && Leads(o, c, s) && RunAll(u, Pending(o, c, s))
    ensures Connects(g, Here(bs, cur), Spell(r) + Spell(u), Goal(o, c, s, LowerS(st, bs, cur, c, s)))
    decreases 2 * s.depth + 1, r, st, 0
  {
    hide Connects, Visible, Leads, Kept;
    match st
    case Eval(e) =>
      CompleteE(e, r, o, u, bs, cur, c, s, g);
    case Assign(target, value) =>
      var a := LowerE(value, bs, cur, c, s);
      var f := LowerE(target, a.bs, a.cur, c, s);
      if o != Normal && RunE(r, value, Inside(c, s), o) {
        CompleteEarly(value, f, r, o, u, bs, cur, c, s, g);
      } else {
        CompletePart(value, f, r.a, bs, cur, c, s, g);
        CompleteE(target, r.b, o, u, a.bs, a.cur, c, s, g);
        Glue(g, Here(bs, cur), Spell(r.a), Here(a.bs, a.cur), Spell(r.b), Spell(u), Goal(o, c, s, f));
      }
  }
}
