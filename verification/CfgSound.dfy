/** Every walk of the finished graph to the function exit starts with a run of the source. */
module CfgSound {
  import opened Basics
  import opened Cfgs
  import opened CfgSyntax
  import opened CfgRuns
  import opened CfgLowering
  import opened CfgWalks
  import opened CfgExits
  import opened CfgParts

  /** What the start of a walk turned out to be: a run, its outcome, the pending cleanup, and the walk that is left. */
  datatype Found = Found(r: Run, o: Outcome, u: Run, rest: Trace, n: nat)

  /** A walk of `n` steps spelling `t` is accounted for: it runs to where the outcome leads, and goes on from there. */
  ghost predicate Rests(f: Found, t: Trace, n: nat, c: Ctx, s: Scope, out: Out, g: Blocks) {
    && Leads(f.o, c, s) && out.cur < |out.bs|
    && RunAll(f.u, Pending(f.o, c, s))
    && t == Spell(f.r) + Spell(f.u) + f.rest
    && Walk(g, Goal(f.o, c, s, out), f.rest, Point(c.exit, 0), f.n)
    && f.n <= n && (f.o != Normal ==> f.n < n)
  }

  /** The fragment is not lowered into the function exit. */
  predicate Apart(c: Ctx, bs: Blocks, cur: nat) {
    c.exit < |bs| && c.exit != cur
  }

  // ---------- putting findings together ----------

  lemma RestsNormally(r: Run, t: Trace, n: nat, rest: Trace, m: nat, c: Ctx, s: Scope, out: Out, g: Blocks)
    requires InScope(c, s) && out.cur < |out.bs| && m <= n
    requires t == Spell(r) + rest && Walk(g, Here(out.bs, out.cur), rest, Point(c.exit, 0), m)
    ensures Rests(Found(r, Normal, Done, rest, m), t, n, c, s, out, g)
  {
    hide Walk;
    assert Spell(r) + [] == Spell(r);
  }

  /** Nothing has been read yet. */
  lemma RestsAtOnce(t: Trace, n: nat, m: nat, c: Ctx, s: Scope, out: Out, g: Blocks) returns (f: Found)
    requires InScope(c, s) && out.cur < |out.bs| && m <= n
    requires Walk(g, Here(out.bs, out.cur), t, Point(c.exit, 0), m)
    ensures f.r == Done && f.o == Normal && Rests(f, t, n, c, s, out, g)
  {
    hide Walk, Rests;
    f := Found(Done, Normal, Done, t, m);
    assert t == Spell(Done) + t;
    RestsNormally(Done, t, n, t, m, c, s, out, g);
  }

  /** Nothing but the pending cleanup has been read. */
  lemma RestsOff(o: Outcome, u: Run, t: Trace, n: nat, rest: Trace, m: nat, c: Ctx, s: Scope, out: Out, g: Blocks)
    requires Leads(o, c, s) && RunAll(u, Pending(o, c, s)) && out.cur < |out.bs| && m < n && t == Spell(u) + rest
    requires Walk(g, Goal(o, c, s, out), rest, Point(c.exit, 0), m)
    ensures Rests(Found(Done, o, u, rest, m), t, n, c, s, out, g)
  {
    hide Walk, Leads;
    assert t == [] + Spell(u) + rest;
  }

  lemma RestsLater(f: Found, t: Trace, m: nat, n: nat, c: Ctx, s: Scope, out: Out, g: Blocks)
    requires Rests(f, t, m, c, s, out, g) && m <= n
    ensures Rests(f, t, n, c, s, out, g)
  {
    hide Walk, Leads;
  }

  lemma GoesOn(f: Found, t: Trace, n: nat, c: Ctx, s: Scope, out: Out, g: Blocks)
    requires Rests(f, t, n, c, s, out, g) && f.o == Normal
    ensures t == Spell(f.r) + f.rest && Walk(g, Here(out.bs, out.cur), f.rest, Point(c.exit, 0), f.n) && f.n <= n
  {
    hide Walk;
    assert Spell(f.r) + [] == Spell(f.r);
  }

  /** A run in front. */
  lemma RestsAfter(
    f: Found, r: Run, x: Trace, t1: Trace, n1: nat, t: Trace, n: nat, c: Ctx, s: Scope, out: Out, g: Blocks)
    requires Rests(f, t1, n1, c, s, out, g) && t == x + t1 && n1 <= n && Spell(r) == x + Spell(f.r)
    ensures Rests(f.(r := r), t, n, c, s, out, g)
  {
    hide Walk, Leads, RunAll, Pending, Goal, Spell;
    Regroup(x, Spell(f.r), Spell(f.u), f.rest);
  }

  lemma Regroup(x: Trace, a: Trace, b: Trace, rest: Trace)
    ensures x + (a + b + rest) == x + a + b + rest
  {
  }

  /** A run that does not end normally leads to the same point from any larger fragment. */
  lemma RestsOutside(f: Found, t: Trace, n: nat, c: Ctx, s: Scope, out: Out, wider: Out, g: Blocks)
    requires Rests(f, t, n, c, s, out, g) && f.o != Normal && wider.cur < |wider.bs|
    ensures Rests(f, t, n, c, s, wider, g)
  {
    hide Walk, Leads;
  }

  /** A branch that ends normally goes on to the merge block. */
  lemma RestsAtMerge(f: Found, t: Trace, n: nat, c: Ctx, s: Scope, out: Out, merge: nat, wider: Out, g: Blocks)
    returns (z: Found)
    requires Rests(f, t, n, c, s, out, g) && Leaves(g, out, {merge}) && out.cur != c.exit
    requires wider.cur < |wider.bs| && Here(wider.bs, wider.cur) == Point(merge, 0)
    ensures z.r == f.r && z.o == f.o && Rests(z, t, n, c, s, wider, g)
  {
    hide Walk, Leads;
    z := f;
    if f.o == Normal {
      var next := TakeJump(g, Here(out.bs, out.cur), f.rest, Point(c.exit, 0), f.n);
      z := f.(n := f.n - 1);
    }
  }

  // ---------- expressions ----------

  /** The first part of a fragment: its run leaves, and the walk is accounted for, or the walk goes on after it. */
  lemma {:induction false} SoundPart(
    first: Expr, z: Out, t: Trace, n: nat, bs: Blocks, cur: nat, c: Ctx, s: Scope, g: Blocks)
    returns (f: Found)
    requires Open(bs, cur) && InScope(c, s) && DepthE(first) <= s.depth && OkE(first, Inside(c, s), s.deferred)
    requires var a := LowerE(first, bs, cur, c, s); Grows(a.bs, a.cur, z) && Kept(g, bs, cur, z)
    requires Apart(c, bs, cur) && Walk(g, Here(bs, cur), t, Point(c.exit, 0), n)
    ensures RunE(f.r, first, Inside(c, s), f.o) && (f.o != Normal ==> Rests(f, t, n, c, s, z, g))
    ensures var a := LowerE(first, bs, cur, c, s);
      f.o == Normal ==>
        && Open(a.bs, a.cur) && Kept(g, a.bs, a.cur, z) && Apart(c, a.bs, a.cur)
        && t == Spell(f.r) + f.rest && f.n <= n && Walk(g, Here(a.bs, a.cur), f.rest, Point(c.exit, 0), f.n)
    decreases 2 * s.depth + 1, n, first, 5
  {
    hide Walk, Kept, Visible, Rests, RunE, LowerE, DepthE, OkE;
    var a := LowerE(first, bs, cur, c, s);
    KeptSeq(g, bs, cur, a, z);
    f := SoundE(first, t, n, bs, cur, c, s, g);
    if f.o == Normal {
      GoesOn(f, t, n, c, s, a, g);
    } else {
      RestsOutside(f, t, n, c, s, a, z, g);
    }
  }

  lemma {:induction false} SoundE(e: Expr, t: Trace, n: nat, bs: Blocks, cur: nat, c: Ctx, s: Scope, g: Blocks)
    returns (f: Found)
    requires Open(bs, cur) && InScope(c, s) && DepthE(e) <= s.depth && OkE(e, Inside(c, s), s.deferred)
    requires Kept(g, bs, cur, LowerE(e, bs, cur, c, s)) && Apart(c, bs, cur)
    requires Walk(g, Here(bs, cur), t, Point(c.exit, 0), n)
    ensures RunE(f.r, e, Inside(c, s), f.o) && Rests(f, t, n, c, s, LowerE(e, bs, cur, c, s), g)
    decreases 2 * s.depth + 1, n, e, 4
  {
    hide Walk, Kept, Visible, Rests, RunXs, RunB, RunRounds, RunArm, LowerXs, LowerB, LowerIf, LowerMatch, LowerWhile,
      LowerFor, LowerLoop, LowerJump, LowerReturn, LowerQuestion, Resolve, Labels;
    match e
    case Leaf =>
      f := Found(Done, Normal, Done, t, n);
      assert t == Spell(Done) + t;
      RestsNormally(Done, t, n, t, n, c, s, Out(bs, cur), g);
    case Use(site) =>
      f := SoundUse(site, t, n, bs, cur, c, s, g);
    case Operands(items) =>
      f := SoundXs(items, t, n, bs, cur, c, s, g);
    case BlockExpr(body) =>
      f := SoundB(body, t, n, bs, cur, c, s, g);
    case If(_, _, _) =>
      f := SoundIf(e, t, n, bs, cur, c, s, g);
    case Match(_, _) =>
      f := SoundMatch(e, t, n, bs, cur, c, s, g);
    case While(_, _, _) =>
      f := SoundWhile(e, t, n, bs, cur, c, s, g);
    case For(_, _, _) =>
      f := SoundFor(e, t, n, bs, cur, c, s, g);
    case Loop(_, _) =>
      f := SoundLoop(e, t, n, bs, cur, c, s, g);
    case Break(_, _) =>
      f := SoundBreak(e, t, n, bs, cur, c, s, g);
    case Continue(l) =>
      ResolveInScope(c, s, l);
      f := SoundJump(Resolve(Labels(c.loops), l), false, t, n, Out(bs, cur), c, s, g);
    case Return(_) =>
      f := SoundReturn(e, t, n, bs, cur, c, s, g);
    case Question(_) =>
      f := SoundQuestion(e, t, n, bs, cur, c, s, g);
  }

  lemma SoundUse(site: UseSite, t: Trace, n: nat, bs: Blocks, cur: nat, c: Ctx, s: Scope, g: Blocks) returns (f: Found)
    requires cur < |bs| && InScope(c, s) && Apart(c, bs, cur)
    requires Kept(g, bs, cur, Out(RecordUse(bs, cur, site), cur)) && Walk(g, Here(bs, cur), t, Point(c.exit, 0), n)
    ensures f.r == Emit(site) && f.o == Normal && Rests(f, t, n, c, s, Out(RecordUse(bs, cur, site), cur), g)
  {
    hide Walk, Visible, Rests;
    assert g[cur].uses[|bs[cur].uses|] == site;
    TakeRead(g, Here(bs, cur), t, Point(c.exit, 0), n);
    f := Found(Emit(site), Normal, Done, t[1..], n - 1);
    assert t == [site] + t[1..];
    RestsNormally(Emit(site), t, n, t[1..], n - 1, c, s, Out(RecordUse(bs, cur, site), cur), g);
  }

  lemma {:induction false} SoundXs(xs: Exprs, t: Trace, n: nat, bs: Blocks, cur: nat, c: Ctx, s: Scope, g: Blocks)
    returns (f: Found)
    requires Open(bs, cur) && InScope(c, s) && DepthXs(xs) <= s.depth && OkXs(xs, Inside(c, s), s.deferred)
    requires Kept(g, bs, cur, LowerXs(xs, bs, cur, c, s)) && Apart(c, bs, cur)
    requires Walk(g, Here(bs, cur), t, Point(c.exit, 0), n)
    ensures RunXs(f.r, xs, Inside(c, s), f.o) && Rests(f, t, n, c, s, LowerXs(xs, bs, cur, c, s), g)
    decreases 2 * s.depth + 1, n, xs, 0
  {
    hide Walk, Kept, Visible, Rests;
    match xs
    case NoExprs =>
      f := Found(Done, Normal, Done, t, n);
      assert t == Spell(Done) + t;
      RestsNormally(Done, t, n, t, n, c, s, Out(bs, cur), g);
    case MoreExprs(h, tail) =>
      var a := LowerE(h, bs, cur, c, s);
      var z := LowerXs(tail, a.bs, a.cur, c, s);
      f := SoundPart(h, z, t, n, bs, cur, c, s, g);
      if f.o == Normal {
        var k := SoundXs(tail, f.rest, f.n, a.bs, a.cur, c, s, g);
        RestsAfter(k, Seq(f.r, k.r), Spell(f.r), f.rest, f.n, t, n, c, s, z, g);
        f := k.(r := Seq(f.r, k.r));
      }
  }

  // ---------- leaving ----------

  lemma {:induction false} SoundBreak(e: Expr, t: Trace, n: nat, bs: Blocks, cur: nat, c: Ctx, s: Scope, g: Blocks)
    returns (f: Found)
    requires e.Break?
    requires Open(bs, cur) && InScope(c, s) && DepthE(e) <= s.depth && OkE(e, Inside(c, s), s.deferred)
    requires Kept(g, bs, cur, LowerE(e, bs, cur, c, s)) && Apart(c, bs, cur)
    requires Walk(g, Here(bs, cur), t, Point(c.exit, 0), n)
    ensures RunE(f.r, e, Inside(c, s), f.o) && Rests(f, t, n, c, s, LowerE(e, bs, cur, c, s), g)
    decreases 2 * s.depth + 1, n, e, 3
  {
    hide Walk, Kept, Visible, Rests, LowerJump, Resolve, Labels;
    var a := LowerE(e.value, bs, cur, c, s);
    var z := LowerE(e, bs, cur, c, s);
    ResolveInScope(c, s, e.lbl);
    f := SoundPart(e.value, z, t, n, bs, cur, c, s, g);
    if f.o == Normal {
      var k := SoundJump(Resolve(Labels(c.loops), e.lbl), true, f.rest, f.n, a, c, s, g);
      assert Spell(f.r) == Spell(f.r) + Spell(k.r);
      RestsAfter(k, f.r, Spell(f.r), f.rest, f.n, t, n, c, s, z, g);
      f := k.(r := f.r);
    }
  }

  lemma {:induction false} SoundReturn(e: Expr, t: Trace, n: nat, bs: Blocks, cur: nat, c: Ctx, s: Scope, g: Blocks)
    returns (f: Found)
    requires e.Return?
    requires Open(bs, cur) && InScope(c, s) && DepthE(e) <= s.depth && OkE(e, Inside(c, s), s.deferred)
    requires Kept(g, bs, cur, LowerE(e, bs, cur, c, s)) && Apart(c, bs, cur)
    requires Walk(g, Here(bs, cur), t, Point(c.exit, 0), n)
    ensures RunE(f.r, e, Inside(c, s), f.o) && Rests(f, t, n, c, s, LowerE(e, bs, cur, c, s), g)
    decreases 2 * s.depth + 1, n, e, 3
  {
    hide Walk, Kept, Visible, Rests, LowerReturn;
    var a := LowerE(e.value, bs, cur, c, s);
    var z := LowerReturn(a, c, s);
    f := SoundPart(e.value, z, t, n, bs, cur, c, s, g);
    if f.o == Normal {
      var k := SoundReturnEdge(f.rest, f.n, a, c, s, g);
      assert Spell(f.r) == Spell(f.r) + Spell(k.r);
      RestsAfter(k, f.r, Spell(f.r), f.rest, f.n, t, n, c, s, z, g);
      f := k.(r := f.r);
    }
  }

  lemma {:induction false} SoundQuestion(e: Expr, t: Trace, n: nat, bs: Blocks, cur: nat, c: Ctx, s: Scope, g: Blocks)
    returns (f: Found)
    requires e.Question?
    requires Open(bs, cur) && InScope(c, s) && DepthE(e) <= s.depth && OkE(e, Inside(c, s), s.deferred)
    requires Kept(g, bs, cur, LowerE(e, bs, cur, c, s)) && Apart(c, bs, cur)
    requires Walk(g, Here(bs, cur), t, Point(c.exit, 0), n)
    ensures RunE(f.r, e, Inside(c, s), f.o) && Rests(f, t, n, c, s, LowerE(e, bs, cur, c, s), g)
    decreases 2 * s.depth + 1, n, e, 3
  {
    hide Walk, Kept, Visible, Rests, LowerQuestion;
    var a := LowerE(e.inner, bs, cur, c, s);
    var z := LowerQuestion(a, c, s);
    f := SoundPart(e.inner, z, t, n, bs, cur, c, s, g);
    if f.o == Normal {
      var k := SoundErrorEdge(f.rest, f.n, a, c, s, g);
      assert Spell(f.r) == Spell(f.r) + Spell(k.r);
      RestsAfter(k, f.r, Spell(f.r), f.rest, f.n, t, n, c, s, z, g);
      f := k.(r := f.r);
    }
  }

  /** A jump is taken after the cleanup of the scopes in between; a jump to no loop leads nowhere. */
  lemma {:induction false} SoundJump(
    k: Option<nat>, breaks: bool, t: Trace, n: nat, a: Out, c: Ctx, s: Scope, g: Blocks)
    returns (f: Found)
    requires Open(a.bs, a.cur) && InScope(c, s) && (k.Some? ==> s.loopBase <= k.value < |c.loops|)
    requires Kept(g, a.bs, a.cur, LowerJump(k, breaks, a, c, s)) && Apart(c, a.bs, a.cur)
    requires Walk(g, Here(a.bs, a.cur), t, Point(c.exit, 0), n)
    ensures k.Some? && f.r == Done && Rests(f, t, n, c, s, LowerJump(k, breaks, a, c, s), g)
    ensures f.o == if breaks then Broke(k.value - s.loopBase) else Continued(k.value - s.loopBase)
    decreases 2 * s.depth, 2
  {
    hide Walk, Kept, Visible, UnwindBodies, LowerCleanup, LowerBodies;
    if k.None? {
      DeadShape(g, a);
      var next := TakeJump(g, Here(a.bs, a.cur), t, Point(c.exit, 0), n);
    } else {
      var frame := c.loops[k.value];
      var w := Unwind(frame.deferDepth, false, a.bs, a.cur, c, s);
      JumpShape(g, a.bs, a.cur, w, if breaks then frame.breakTarget else frame.continueTarget);
      var u, rest, m := SoundUnwind(frame.deferDepth, false, t, n, a.bs, a.cur, c, s, g);
      var next := TakeJump(g, Here(w.bs, w.cur), rest, Point(c.exit, 0), m);
      f := Found(Done, if breaks then Broke(k.value - s.loopBase) else Continued(k.value - s.loopBase), u, rest, m - 1);
      assert t == [] + Spell(u) + rest;
    }
  }

  lemma {:induction false} SoundReturnEdge(t: Trace, n: nat, a: Out, c: Ctx, s: Scope, g: Blocks) returns (f: Found)
    requires Open(a.bs, a.cur) && InScope(c, s) && !s.deferred && Kept(g, a.bs, a.cur, LowerReturn(a, c, s))
    requires Apart(c, a.bs, a.cur) && Walk(g, Here(a.bs, a.cur), t, Point(c.exit, 0), n)
    ensures f.r == Done && f.o == Returned && Rests(f, t, n, c, s, LowerReturn(a, c, s), g)
    decreases 2 * s.depth, 2
  {
    hide Walk, Kept, Visible, UnwindBodies, LowerCleanup, LowerBodies;
    var w := Unwind(0, true, a.bs, a.cur, c, s);
    JumpShape(g, a.bs, a.cur, w, c.exit);
    var u, rest, m := SoundUnwind(0, true, t, n, a.bs, a.cur, c, s, g);
    var next := TakeJump(g, Here(w.bs, w.cur), rest, Point(c.exit, 0), m);
    f := Found(Done, Returned, u, rest, m - 1);
    assert t == [] + Spell(u) + rest;
  }

  lemma {:induction false} SoundUnwind(
    target: nat, error: bool, t: Trace, n: nat, bs: Blocks, cur: nat, c: Ctx, s: Scope, g: Blocks)
    returns (u: Run, rest: Trace, m: nat)
    requires Open(bs, cur) && InScope(c, s) && s.base <= target
    requires Kept(g, bs, cur, Unwind(target, error, bs, cur, c, s)) && Apart(c, bs, cur)
    requires Walk(g, Here(bs, cur), t, Point(c.exit, 0), n)
    ensures RunAll(u, UnwindBodies(c.stack, target, error)) && t == Spell(u) + rest && m <= n
    ensures var w := Unwind(target, error, bs, cur, c, s); Walk(g, Here(w.bs, w.cur), rest, Point(c.exit, 0), m)
    decreases 2 * s.depth, 1
  {
    hide Walk, Kept, Visible, UnwindBodies, LowerCleanup;
    UnwindOk(c.stack, s.base, target, error, s.depth);
    u, rest, m := SoundCleanup(UnwindBodies(c.stack, target, error), t, n, bs, cur, c, s, g);
  }

  lemma {:induction false} SoundCleanup(
    bodies: seq<Block>, t: Trace, n: nat, bs: Blocks, cur: nat, c: Ctx, s: Scope, g: Blocks)
    returns (u: Run, rest: Trace, m: nat)
    requires Open(bs, cur) && InScope(c, s) && BodiesOk(bodies, s.depth)
    requires Kept(g, bs, cur, LowerCleanup(bodies, bs, cur, c, s)) && Apart(c, bs, cur)
    requires Walk(g, Here(bs, cur), t, Point(c.exit, 0), n)
    ensures RunAll(u, bodies) && t == Spell(u) + rest && m <= n
    ensures var w := LowerCleanup(bodies, bs, cur, c, s); Walk(g, Here(w.bs, w.cur), rest, Point(c.exit, 0), m)
    decreases 2 * s.depth, 0
  {
    hide Walk, Kept, Visible;
    if bodies == [] {
      u, rest, m := Done, t, n;
    } else {
      assert DepthB(bodies[0]) < s.depth;
      u, rest, m := SoundBodies(bodies, t, n, bs, cur, c, BodyScope(c, s), g);
    }
  }

  lemma {:induction false} SoundBodies(
    bodies: seq<Block>, t: Trace, n: nat, bs: Blocks, cur: nat, c: Ctx, s: Scope, g: Blocks)
    returns (u: Run, rest: Trace, m: nat)
    requires Open(bs, cur) && s == Scope(|c.stack|, |c.loops|, true, s.depth) && BodiesOk(bodies, s.depth + 1)
    requires Kept(g, bs, cur, LowerBodies(bodies, bs, cur, c, s)) && Apart(c, bs, cur)
    requires Walk(g, Here(bs, cur), t, Point(c.exit, 0), n)
    ensures RunAll(u, bodies) && t == Spell(u) + rest && m <= n
    ensures var w := LowerBodies(bodies, bs, cur, c, s); Walk(g, Here(w.bs, w.cur), rest, Point(c.exit, 0), m)
    decreases 2 * s.depth + 1, n, bodies, 5
  {
    hide Walk, Kept, LowerB, RunB, OkB, DepthB, Grows, BodiesOk;
    if bodies == [] {
      u, rest, m := Done, t, n;
    } else {
      var x, r, rest0, m0 := SoundFirstBody(bodies, t, n, bs, cur, c, s, g);
      var u', rest', m' := SoundBodies(bodies[1..], rest0, m0, x.bs, x.cur, c, s, g);
      u, rest, m := Seq(r, u'), rest', m';
      assert t == Spell(r) + Spell(u') + rest;
    }
  }

  /** The first deferred body, in a block of its own. */
  lemma {:induction false} SoundFirstBody(
    bodies: seq<Block>, t: Trace, n: nat, bs: Blocks, cur: nat, c: Ctx, s: Scope, g: Blocks)
    returns (x: Out, r: Run, rest: Trace, m: nat)
    requires Open(bs, cur) && s == Scope(|c.stack|, |c.loops|, true, s.depth) && BodiesOk(bodies, s.depth + 1)
    requires Kept(g, bs, cur, LowerBodies(bodies, bs, cur, c, s)) && Apart(c, bs, cur) && bodies != []
    requires Walk(g, Here(bs, cur), t, Point(c.exit, 0), n)
    ensures RunB(r, bodies[0], [], Normal) && t == Spell(r) + rest && m < n
    ensures Open(x.bs, x.cur) && BodiesOk(bodies[1..], s.depth + 1) && Apart(c, x.bs, x.cur)
    ensures var w := LowerBodies(bodies, bs, cur, c, s);
      w == LowerBodies(bodies[1..], x.bs, x.cur, c, s) && Kept(g, x.bs, x.cur, w)
    ensures Walk(g, Here(x.bs, x.cur), rest, Point(c.exit, 0), m)
    decreases 2 * s.depth + 1, n, bodies, 4
  {
    hide Walk, Kept, LowerB, RunB, OkB, DepthB, Leaves, BodiesOk;
    var entry := |bs|;
    ForkOpens(bs, cur);
    BodyIsOk(bodies, c, s);
    x := LowerB(bodies[0], Fork(bs, cur), entry, c, s);
    BodyShape(g, bs, cur, x, LowerBodies(bodies, bs, cur, c, s));
    var next := TakeEdge(g, Out(bs, cur), {entry}, t, Point(c.exit, 0), n);
    r, rest, m := SoundBody(bodies[0], t, n - 1, Fork(bs, cur), entry, c, s, g);
  }

  /** A deferred body always ends normally. */
  lemma {:induction false} SoundBody(b: Block, t: Trace, n: nat, bs: Blocks, cur: nat, c: Ctx, s: Scope, g: Blocks)
    returns (r: Run, rest: Trace, m: nat)
    requires Open(bs, cur) && InScope(c, s) && s.deferred && Inside(c, s) == []
    requires DepthB(b) <= s.depth && OkB(b, Inside(c, s), true)
    requires Kept(g, bs, cur, LowerB(b, bs, cur, c, s)) && Apart(c, bs, cur)
    requires Walk(g, Here(bs, cur), t, Point(c.exit, 0), n)
    ensures RunB(r, b, [], Normal) && t == Spell(r) + rest && m <= n
    ensures var x := LowerB(b, bs, cur, c, s); Walk(g, Here(x.bs, x.cur), rest, Point(c.exit, 0), m)
    decreases 2 * s.depth + 1, n, b, 3
  {
    hide Walk, Kept, Visible, Rests, LowerB, OkB, DepthB;
    var f := SoundB(b, t, n, bs, cur, c, s, g);
    BoundB(f.r, b, [], f.o, true);
    GoesOn(f, t, n, c, s, LowerB(b, bs, cur, c, s), g);
    r, rest, m := f.r, f.rest, f.n;
  }

  /** After the operand of `?`: the walk goes straight on, or through all the cleanup to the function exit. */
  lemma {:induction false} SoundErrorEdge(t: Trace, n: nat, a: Out, c: Ctx, s: Scope, g: Blocks) returns (f: Found)
    requires Open(a.bs, a.cur) && InScope(c, s) && !s.deferred && Kept(g, a.bs, a.cur, LowerQuestion(a, c, s))
    requires Apart(c, a.bs, a.cur) && Walk(g, Here(a.bs, a.cur), t, Point(c.exit, 0), n)
    ensures f.r == Done && (f.o == Normal || f.o == Returned) && Rests(f, t, n, c, s, LowerQuestion(a, c, s), g)
    decreases 2 * s.depth, 2
  {
    hide Walk, Kept, Visible, Rests, Leaves, UnwindBodies, LowerCleanup, ErrorPathKept;
    var bodies, w := UnwindBodies(c.stack, 0, true), Unwind(0, true, a.bs, a.cur, c, s);
    QuestionParts(a, c, s, g);
    var entry := if bodies == [] then c.exit else |a.bs|;
    var next := TakeEdge(g, a, {entry, |w.bs|}, t, Point(c.exit, 0), n);
    if next == |w.bs| {
      f := RestsAtOnce(t, n, n - 1, c, s, LowerQuestion(a, c, s), g);
    } else {
      var u, rest, m := SoundErrorPath(bodies, t, n - 1, a, c, s, g);
      f := Found(Done, Returned, u, rest, m);
      RestsOff(Returned, u, t, n, rest, m, c, s, LowerQuestion(a, c, s), g);
    }
  }

  /** The cleanup on an error edge ends at the function exit. */
  lemma {:induction false} SoundErrorPath(
    bodies: seq<Block>, t: Trace, n: nat, a: Out, c: Ctx, s: Scope, g: Blocks)
    returns (u: Run, rest: Trace, m: nat)
    requires Open(a.bs, a.cur) && InScope(c, s) && BodiesOk(bodies, s.depth) && Apart(c, a.bs, a.cur)
    requires bodies != [] ==> ErrorPathKept(bodies, a, LowerCleanup(bodies, a.bs, a.cur, c, s), c, s, g)
    requires Walk(g, Point(if bodies == [] then c.exit else |a.bs|, 0), t, Point(c.exit, 0), n)
    ensures RunAll(u, bodies) && t == Spell(u) + rest && m <= n && Walk(g, Point(c.exit, 0), rest, Point(c.exit, 0), m)
    decreases 2 * s.depth, 1
  {
    hide Walk, Kept, Visible, Leaves, LowerB, LowerBodies, LowerCleanup, OkB, DepthB;
    if bodies == [] {
      u, rest, m := Done, t, n;
    } else {
      var b := BodyScope(c, s);
      var x := LowerB(bodies[0], Fork(a.bs, a.cur), |a.bs|, c, b);
      var w := LowerBodies(bodies[1..], x.bs, x.cur, c, b);
      var r, rest0, m0 := SoundBody(bodies[0], t, n, Fork(a.bs, a.cur), |a.bs|, c, b, g);
      var u', rest', m' := SoundBodies(bodies[1..], rest0, m0, x.bs, x.cur, c, b, g);
      var last := TakeEdge(g, w, {c.exit}, rest', Point(c.exit, 0), m');
      u, rest, m := Seq(r, u'), rest', m' - 1;
      assert t == Spell(r) + Spell(u') + rest;
    }
  }

  // ---------- branches ----------

  lemma {:induction false} SoundIf(e: Expr, t: Trace, n: nat, bs: Blocks, cur: nat, c: Ctx, s: Scope, g: Blocks)
    returns (f: Found)
    requires e.If?
    requires Open(bs, cur) && InScope(c, s) && DepthE(e) <= s.depth && OkE(e, Inside(c, s), s.deferred)
    requires Kept(g, bs, cur, LowerIf(e, bs, cur, c, s)) && Apart(c, bs, cur)
    requires Walk(g, Here(bs, cur), t, Point(c.exit, 0), n)
    ensures RunE(f.r, e, Inside(c, s), f.o) && Rests(f, t, n, c, s, LowerIf(e, bs, cur, c, s), g)
    decreases 2 * s.depth + 1, n, e, 3
  {
    hide Walk, Kept, Visible, Rests, LowerIfRest;
    var a := LowerE(e.cond, bs, cur, c, s);
    var z := LowerIfRest(e, a.bs, a.cur, c, s);
    f := SoundPart(e.cond, z, t, n, bs, cur, c, s, g);
    if f.o == Normal {
      var k := SoundBranch(e, f.rest, f.n, a.bs, a.cur, c, s, g);
      RestsAfter(k, Seq(f.r, k.r), Spell(f.r), f.rest, f.n, t, n, c, s, z, g);
      f := k.(r := Seq(f.r, k.r));
    }
  }

  lemma {:induction false} SoundBranch(e: Expr, t: Trace, n: nat, bs: Blocks, cur: nat, c: Ctx, s: Scope, g: Blocks)
    returns (f: Found)
    requires e.If?
    requires Open(bs, cur) && InScope(c, s) && BranchesOk(e, c, s)
    requires Kept(g, bs, cur, LowerIfRest(e, bs, cur, c, s)) && Apart(c, bs, cur)
    requires Walk(g, Here(bs, cur), t, Point(c.exit, 0), n)
    ensures
      || RunB(f.r, e.thn, Inside(c, s), f.o)
      || (if e.els.Some? then RunE(f.r, e.els.value, Inside(c, s), f.o) else f.r == Done && f.o == Normal)
    ensures Rests(f, t, n, c, s, LowerIfRest(e, bs, cur, c, s), g)
    decreases 2 * s.depth + 1, n, e, 2
  {
    hide Walk, Kept, Visible, Rests, Leaves, LowerE, LowerB, RunE, RunB, DepthE, DepthB, OkE, OkB, LowerIfRest;
    IfParts(e, bs, cur, c, s, g);
    var d := Fork(bs, cur);
    var th := LowerB(e.thn, d, |bs|, c, s);
    var merge := |th.bs|;
    var z := LowerIfRest(e, bs, cur, c, s);
    var b := Fork(th.bs, th.cur);
    var next := TakeEdge(g, Out(bs, cur), if e.els.None? then {|bs|, merge} else {|bs|, |b|}, t, Point(c.exit, 0), n);
    if next == |bs| {
      var k := SoundB(e.thn, t, n - 1, d, |bs|, c, s, g);
      k := RestsAtMerge(k, t, n - 1, c, s, th, merge, z, g);
      RestsLater(k, t, n - 1, n, c, s, z, g);
      f := k;
    } else if e.els.None? {
      f := RestsAtOnce(t, n, n - 1, c, s, z, g);
    } else {
      var x := LowerE(e.els.value, Fork(b, cur), |b|, c, s);
      var k := SoundE(e.els.value, t, n - 1, Fork(b, cur), |b|, c, s, g);
      k := RestsAtMerge(k, t, n - 1, c, s, x, merge, z, g);
      RestsLater(k, t, n - 1, n, c, s, z, g);
      f := k;
    }
  }

  lemma {:induction false} SoundMatch(e: Expr, t: Trace, n: nat, bs: Blocks, cur: nat, c: Ctx, s: Scope, g: Blocks)
    returns (f: Found)
    requires e.Match?
    requires Open(bs, cur) && InScope(c, s) && DepthE(e) <= s.depth && OkE(e, Inside(c, s), s.deferred)
    requires Kept(g, bs, cur, LowerMatch(e, bs, cur, c, s)) && Apart(c, bs, cur)
    requires Walk(g, Here(bs, cur), t, Point(c.exit, 0), n)
    ensures RunE(f.r, e, Inside(c, s), f.o) && Rests(f, t, n, c, s, LowerMatch(e, bs, cur, c, s), g)
    decreases 2 * s.depth + 1, n, e, 3
  {
    hide Walk, Kept, Visible, Rests, LowerMatchRest;
    var a := LowerE(e.scrutinee, bs, cur, c, s);
    var z := LowerMatchRest(e, a.bs, a.cur, c, s);
    f := SoundPart(e.scrutinee, z, t, n, bs, cur, c, s, g);
    if f.o == Normal {
      var k := SoundChoice(e, f.rest, f.n, a.bs, a.cur, c, s, g);
      RestsAfter(k, Seq(f.r, k.r), Spell(f.r), f.rest, f.n, t, n, c, s, z, g);
      f := k.(r := Seq(f.r, k.r));
    }
  }

  /** After the scrutinee of a `match`. */
  lemma {:induction false} SoundChoice(e: Expr, t: Trace, n: nat, bs: Blocks, cur: nat, c: Ctx, s: Scope, g: Blocks)
    returns (f: Found)
    requires e.Match?
    requires Open(bs, cur) && InScope(c, s) && DepthXs(e.arms) <= s.depth && OkXs(e.arms, Inside(c, s), s.deferred)
    requires Kept(g, bs, cur, LowerMatchRest(e, bs, cur, c, s)) && Apart(c, bs, cur)
    requires Walk(g, Here(bs, cur), t, Point(c.exit, 0), n)
    ensures if e.arms.NoExprs? then f.r == Done && f.o == Normal else RunArm(f.r, e.arms, Inside(c, s), f.o)
    ensures Rests(f, t, n, c, s, LowerMatchRest(e, bs, cur, c, s), g)
    decreases 2 * s.depth + 1, n, e, 2
  {
    hide Walk, Kept, Visible, Rests, RunArm, LowerArms, DepthXs, OkXs;
    var z := LowerMatchRest(e, bs, cur, c, s);
    MatchShape(g, bs, cur, z.bs);
    var next := TakeJump(g, Here(bs, cur), t, Point(c.exit, 0), n);
    if e.arms.NoExprs? {
      ForkOpens(bs, cur);
      f := RestsAtOnce(t, n, n - 1, c, s, z, g);
    } else {
      f := SoundArm(e.arms, next, t, n - 1, NewBlock(bs), cur, |bs|, z, c, s, g);
      RestsLater(f, t, n - 1, n, c, s, z, g);
    }
  }

  /** A new edge out of the scrutinee's block leads into one of the arms. */
  lemma {:induction false} SoundArm(
    arms: Exprs, next: nat, t: Trace, n: nat, bs: Blocks, from: nat, merge: nat, wider: Out, c: Ctx, s: Scope,
    g: Blocks)
    returns (f: Found)
    requires from < |bs| && merge < |bs| && InScope(c, s)
    requires DepthXs(arms) <= s.depth && OkXs(arms, Inside(c, s), s.deferred)
    requires KeptArms(g, bs, LowerArms(arms, bs, from, merge, c, s)) && c.exit < |bs|
    requires next in LowerArms(arms, bs, from, merge, c, s)[from].successors && next !in bs[from].successors
    requires wider.cur < |wider.bs| && Here(wider.bs, wider.cur) == Point(merge, 0)
    requires Walk(g, Point(next, 0), t, Point(c.exit, 0), n)
    ensures RunArm(f.r, arms, Inside(c, s), f.o) && Rests(f, t, n, c, s, wider, g)
    decreases 2 * s.depth + 1, n, arms, 0
  {
    hide Walk, Kept, Visible, Rests, KeptArms, LowerE, DepthE, OkE, RunE;
    var entry := |bs|;
    ForkOpens(bs, from);
    var x := LowerE(arms.head, Fork(bs, from), entry, c, s);
    var b := AddEdge(x.bs, x.cur, merge);
    ArmShape(g, bs, from, merge, x, LowerArms(arms, bs, from, merge, c, s));
    if next == entry {
      var k := SoundE(arms.head, t, n, Fork(bs, from), entry, c, s, g);
      f := RestsAtMerge(k, t, n, c, s, x, merge, wider, g);
    } else {
      f := SoundArm(arms.tail, next, t, n, b, from, merge, wider, c, s, g);
    }
  }

  // ---------- loops ----------

  /** One round of a loop body. `f` is what the round leaves: the walk from the header, or the end of the loop. */
  lemma {:induction false} SoundRound(
    l: Label, body: Block, t: Trace, n: nat, bs: Blocks, entry: nat, header: nat, merge: nat, wider: Out,
    c: Ctx, s: Scope, g: Blocks)
    returns (r: Run, o: Outcome, f: Found)
    requires LoopBodyKept(l, body, bs, entry, header, merge, c, s, g)
    requires wider.cur < |wider.bs| && Here(wider.bs, wider.cur) == Point(merge, 0)
    requires Apart(c, bs, entry) && Walk(g, Point(entry, 0), t, Point(c.exit, 0), n)
    ensures RunB(r, body, Inside(c, s) + [l], o)
    ensures AfterRound(o, |Inside(c, s)|).Again? ==>
      t == Spell(r) + f.rest && Walk(g, Point(header, 0), f.rest, Point(c.exit, 0), f.n) && f.n < n
    ensures var next := AfterRound(o, |Inside(c, s)|);
      next.Stop? ==> f.r == Iter(r, o, Done) && f.o == next.outcome && Rests(f, t, n, c, s, wider, g)
    decreases 2 * s.depth + 1, n, body, 3
  {
    hide Walk, Kept, Visible, LowerB, RunB, DepthB, OkB;
    var d := EnterLoop(c, l, merge, header);
    var x := LowerB(body, bs, entry, d, s);
    f := SoundB(body, t, n, bs, entry, d, s, g);
    r, o := f.r, f.o;
    LeadsInLoop(o, c, s, l, merge, header, x);
    match AfterRound(o, |Inside(c, s)|)
    case Again =>
      assert f.u == Done && Spell(r) + [] == Spell(r);
      if o == Normal {
        var next := TakeJump(g, Here(x.bs, x.cur), f.rest, Point(c.exit, 0), f.n);
        f := f.(n := f.n - 1);
      }
    case Stop(p) =>
      assert Spell(Iter(r, o, Done)) == Spell(r);
      if p == Normal {
        assert f.u == Done;
      }
      f := Found(Iter(r, o, Done), p, f.u, f.rest, f.n);
  }

  /** From the header of a `for` or `loop`. */
  lemma {:induction false} SoundRounds(
    l: Label, body: Block, ends: bool, t: Trace, n: nat, bs: Blocks, entry: nat, header: nat, merge: nat, wider: Out,
    c: Ctx, s: Scope, g: Blocks)
    returns (f: Found)
    requires LoopBodyKept(l, body, bs, entry, header, merge, c, s, g)
    requires wider.cur < |wider.bs| && Here(wider.bs, wider.cur) == Point(merge, 0)
    requires HeaderLeads(g, header, entry, merge, ends)
    requires Apart(c, bs, entry) && c.exit != header && Walk(g, Point(header, 0), t, Point(c.exit, 0), n)
    ensures RunRounds(f.r, l, body, ends, Inside(c, s), f.o) && Rests(f, t, n, c, s, wider, g)
    decreases 2 * s.depth + 1, n, body, 4
  {
    hide Walk, Kept, Visible, Rests, Leaves, LowerB, RunB, DepthB, OkB;
    var next, m := entry, n;
    if ends {
      next := TakeJump(g, Point(header, 0), t, Point(c.exit, 0), n);
      m := n - 1;
    }
    if ends && next == merge {
      f := Found(Done, Normal, Done, t, m);
      assert t == Spell(Done) + t;
      RestsNormally(Done, t, n, t, m, c, s, wider, g);
    } else {
      var r, o, k := SoundRound(l, body, t, m, bs, entry, header, merge, wider, c, s, g);
      if AfterRound(o, |Inside(c, s)|).Again? {
        f := SoundRounds(l, body, ends, k.rest, k.n, bs, entry, header, merge, wider, c, s, g);
        RestsAfter(f, Iter(r, o, f.r), Spell(r), k.rest, k.n, t, n, c, s, wider, g);
        f := f.(r := Iter(r, o, f.r));
      } else {
        RestsLater(k, t, m, n, c, s, wider, g);
        f := k;
      }
    }
  }

  lemma {:induction false} SoundLoop(e: Expr, t: Trace, n: nat, bs: Blocks, cur: nat, c: Ctx, s: Scope, g: Blocks)
    returns (f: Found)
    requires e.Loop?
    requires Open(bs, cur) && InScope(c, s) && DepthE(e) <= s.depth && OkE(e, Inside(c, s), s.deferred)
    requires Kept(g, bs, cur, LowerLoop(e, bs, cur, c, s)) && Apart(c, bs, cur)
    requires Walk(g, Here(bs, cur), t, Point(c.exit, 0), n)
    ensures RunE(f.r, e, Inside(c, s), f.o) && Rests(f, t, n, c, s, LowerLoop(e, bs, cur, c, s), g)
    decreases 2 * s.depth + 1, n, e, 3
  {
    hide Walk, Visible, Rests, LowerB, RunRounds, Leaves, Kept, DepthB, OkB;
    var header, merge := |bs|, |bs| + 1;
    ForkOpens(bs, cur);
    EnterKeepsScope(c, s, e.lbl, merge, header);
    var d := NewBlock(Fork(bs, cur));
    var x := LowerB(e.body, d, header, EnterLoop(c, e.lbl, merge, header), s);
    LoopShape(g, bs, cur, x);
    var next := TakeJump(g, Here(bs, cur), t, Point(c.exit, 0), n);
    var z := LowerLoop(e, bs, cur, c, s);
    f := SoundRounds(e.lbl, e.body, false, t, n - 1, d, header, header, merge, z, c, s, g);
    RestsLater(f, t, n - 1, n, c, s, z, g);
  }

  lemma {:induction false} SoundFor(e: Expr, t: Trace, n: nat, bs: Blocks, cur: nat, c: Ctx, s: Scope, g: Blocks)
    returns (f: Found)
    requires e.For?
    requires Open(bs, cur) && InScope(c, s) && DepthE(e) <= s.depth && OkE(e, Inside(c, s), s.deferred)
    requires Kept(g, bs, cur, LowerFor(e, bs, cur, c, s)) && Apart(c, bs, cur)
    requires Walk(g, Here(bs, cur), t, Point(c.exit, 0), n)
    ensures RunE(f.r, e, Inside(c, s), f.o) && Rests(f, t, n, c, s, LowerFor(e, bs, cur, c, s), g)
    decreases 2 * s.depth + 1, n, e, 3
  {
    hide Walk, Kept, Visible, Rests, LowerForRest;
    var a := LowerE(e.iterable, bs, cur, c, s);
    var z := LowerForRest(e, a.bs, a.cur, c, s);
    f := SoundPart(e.iterable, z, t, n, bs, cur, c, s, g);
    if f.o == Normal {
      var k := SoundForRest(e, f.rest, f.n, a.bs, a.cur, c, s, g);
      RestsAfter(k, Seq(f.r, k.r), Spell(f.r), f.rest, f.n, t, n, c, s, z, g);
      f := k.(r := Seq(f.r, k.r));
    }
  }

  lemma {:induction false} SoundForRest(e: Expr, t: Trace, n: nat, bs: Blocks, cur: nat, c: Ctx, s: Scope, g: Blocks)
    returns (f: Found)
    requires e.For?
    requires Open(bs, cur) && InScope(c, s) && DepthB(e.body) <= s.depth
    requires OkB(e.body, Inside(c, s) + [e.lbl], s.deferred)
    requires Kept(g, bs, cur, LowerForRest(e, bs, cur, c, s)) && Apart(c, bs, cur)
    requires Walk(g, Here(bs, cur), t, Point(c.exit, 0), n)
    ensures RunRounds(f.r, e.lbl, e.body, true, Inside(c, s), f.o)
    ensures Rests(f, t, n, c, s, LowerForRest(e, bs, cur, c, s), g)
    decreases 2 * s.depth + 1, n, e, 2
  {
    hide Walk, Visible, Rests, Kept, HeaderLeads, Leaves, LowerB, RunB, DepthB, OkB, RunRounds, LoopBodyKept;
    ForParts(e, bs, cur, c, s, g);
    var header := |bs|;
    var d := Fork(Fork(Fork(bs, cur), header), header);
    var z := LowerForRest(e, bs, cur, c, s);
    var next := TakeEdge(g, Out(bs, cur), {header}, t, Point(c.exit, 0), n);
    f := SoundRounds(e.lbl, e.body, true, t, n - 1, d, header + 1, header, header + 2, z, c, s, g);
    RestsLater(f, t, n - 1, n, c, s, z, g);
  }

  lemma {:induction false} SoundWhile(e: Expr, t: Trace, n: nat, bs: Blocks, cur: nat, c: Ctx, s: Scope, g: Blocks)
    returns (f: Found)
    requires e.While?
    requires Open(bs, cur) && InScope(c, s) && DepthE(e) <= s.depth && OkE(e, Inside(c, s), s.deferred)
    requires Kept(g, bs, cur, LowerWhile(e, bs, cur, c, s)) && Apart(c, bs, cur)
    requires Walk(g, Here(bs, cur), t, Point(c.exit, 0), n)
    ensures RunE(f.r, e, Inside(c, s), f.o) && Rests(f, t, n, c, s, LowerWhile(e, bs, cur, c, s), g)
    decreases 2 * s.depth + 1, n, e, 3
  {
    hide Walk, Visible, Rests, Kept;
    WhileParts(e, bs, cur, c, s, g);
    var next := TakeEdge(g, Out(bs, cur), {|bs|}, t, Point(c.exit, 0), n);
    f := SoundFromHeader(e, t, n - 1, bs, cur, c, s, g);
    RestsAfter(f, f.r, [], t, n - 1, t, n, c, s, LowerWhile(e, bs, cur, c, s), g);
  }

  /** From the header of a `while`. */
  lemma {:induction false} SoundFromHeader(e: Expr, t: Trace, n: nat, bs: Blocks, cur: nat, c: Ctx, s: Scope, g: Blocks)
    returns (f: Found)
    requires e.While?
    requires Open(bs, cur) && InScope(c, s) && DepthE(e) <= s.depth && OkE(e, Inside(c, s), s.deferred)
    requires Kept(g, bs, cur, LowerWhile(e, bs, cur, c, s)) && Apart(c, bs, cur)
    requires Walk(g, Point(|bs|, 0), t, Point(c.exit, 0), n)
    ensures RunE(f.r, e, Inside(c, s), f.o) && Rests(f, t, n, c, s, LowerWhile(e, bs, cur, c, s), g)
    decreases 2 * s.depth + 1, n, e, 2
  {
    hide Walk, Kept, Leads, Visible, Rests, Leaves, LowerWhileRest;
    WhileParts(e, bs, cur, c, s, g);
    var a := LowerE(e.cond, Fork(bs, cur), |bs|, c, s);
    var z := LowerWhileRest(e, |bs|, a.bs, a.cur, c, s);
    f := SoundE(e.cond, t, n, Fork(bs, cur), |bs|, c, s, g);
    if f.o == Normal {
      GoesOn(f, t, n, c, s, a, g);
      var k := SoundWhileRest(e, f.rest, f.n, bs, cur, c, s, g);
      RestsAfter(k, Seq(f.r, k.r), Spell(f.r), f.rest, f.n, t, n, c, s, z, g);
      f := k.(r := Seq(f.r, k.r));
    } else {
      RestsOutside(f, t, n, c, s, a, z, g);
    }
  }

  /** A `while`, after its condition. */
  lemma {:induction false} SoundWhileRest(e: Expr, t: Trace, n: nat, bs: Blocks, cur: nat, c: Ctx, s: Scope, g: Blocks)
    returns (f: Found)
    requires e.While?
    requires Open(bs, cur) && InScope(c, s) && DepthE(e) <= s.depth && OkE(e, Inside(c, s), s.deferred)
    requires Kept(g, bs, cur, LowerWhile(e, bs, cur, c, s)) && Apart(c, bs, cur) && Open(Fork(bs, cur), |bs|)
    requires DepthE(e.cond) <= s.depth && OkE(e.cond, Inside(c, s), s.deferred)
    requires var a := LowerE(e.cond, Fork(bs, cur), |bs|, c, s); Walk(g, Here(a.bs, a.cur), t, Point(c.exit, 0), n)
    ensures RunWhileRest(f.r, e, Inside(c, s), f.o) && Rests(f, t, n, c, s, LowerWhile(e, bs, cur, c, s), g)
    decreases 2 * s.depth + 1, n, e, 1
  {
    hide Walk, Kept, Leads, Visible, Rests, Leaves, RunE, RunB, LowerE, LowerB, LowerWhile, DepthE, DepthB, OkE, OkB,
      LoopBodyKept;
    WhileWhole(e, bs, cur, c, s, g);
    var header, z := |bs|, LowerWhile(e, bs, cur, c, s);
    var a := LowerE(e.cond, Fork(bs, cur), header, c, s);
    var entry, merge, d := |a.bs|, |a.bs| + 1, Fork(Fork(a.bs, a.cur), a.cur);
    var next := TakeEdge(g, a, {entry, merge}, t, Point(c.exit, 0), n);
    if next == merge {
      f := RestsAtOnce(t, n, n - 1, c, s, z, g);
    } else {
      var r, o, k := SoundRound(e.lbl, e.body, t, n - 1, d, entry, header, merge, z, c, s, g);
      if AfterRound(o, |Inside(c, s)|).Again? {
        var j := SoundFromHeader(e, k.rest, k.n, bs, cur, c, s, g);
        RestsAfter(j, Iter(r, o, j.r), Spell(r), k.rest, k.n, t, n, c, s, z, g);
        f := j.(r := Iter(r, o, j.r));
      } else {
        RestsLater(k, t, n - 1, n, c, s, z, g);
        f := k;
      }
    }
  }

  // ---------- blocks ----------

  lemma {:induction false} SoundB(b: Block, t: Trace, n: nat, bs: Blocks, cur: nat, c: Ctx, s: Scope, g: Blocks)
    returns (f: Found)
    requires Open(bs, cur) && InScope(c, s) && DepthB(b) <= s.depth && OkB(b, Inside(c, s), s.deferred)
    requires Kept(g, bs, cur, LowerB(b, bs, cur, c, s)) && Apart(c, bs, cur)
    requires Walk(g, Here(bs, cur), t, Point(c.exit, 0), n)
    ensures RunB(f.r, b, Inside(c, s), f.o) && Rests(f, t, n, c, s, LowerB(b, bs, cur, c, s), g)
    decreases 2 * s.depth + 1, n, b, 2
  {
    hide Walk, Visible, Rests, Kept;
    PushKeepsScope(c, s);
    f := SoundStmts(b, [], t, n, bs, cur, c, s, g);
  }

  lemma {:induction false} SoundStmts(
    b: Block, items: DeferFrame, t: Trace, n: nat, bs: Blocks, cur: nat, c: Ctx, s: Scope, g: Blocks)
    returns (f: Found)
    requires Open(bs, cur) && InScope(c, s) && DepthB(b) <= s.depth && OkB(b, Inside(c, s), s.deferred)
    requires InScope(WithFrame(c, items), s)
    requires Kept(g, bs, cur, LowerStmts(b, bs, cur, WithFrame(c, items), s)) && Apart(c, bs, cur)
    requires Walk(g, Here(bs, cur), t, Point(c.exit, 0), n)
    ensures RunStmts(f.r, b, items, Inside(c, s), f.o)
    ensures Rests(f, t, n, c, s, LowerStmts(b, bs, cur, WithFrame(c, items), s), g)
    decreases 2 * s.depth + 1, n, b, 1
  {
    hide Walk, Visible, Rests, Kept, RunS, LowerS, RunAll, CleanupBodies;
    var d := WithFrame(c, items);
    match b
    case End(e) =>
      f := SoundEnd(e, items, t, n, bs, cur, c, s, g);
    case Then(st, rest) =>
      assert DepthS(st) <= s.depth && OkS(st, Inside(c, s), s.deferred);
      match st
      case Uninit =>
        f := SoundStmts(rest, items, t, n, bs, cur, c, s, g);
      case Defer(body) =>
        var item := DeferItem(PlainDefer, body);
        RegisterInFrame(c, items, item);
        RegisterKeepsScope(d, s, item);
        f := SoundStmts(rest, items + [item], t, n, bs, cur, c, s, g);
      case ErrDefer(body) =>
        var item := DeferItem(ErrorDefer, body);
        RegisterInFrame(c, items, item);
        RegisterKeepsScope(d, s, item);
        f := SoundStmts(rest, items + [item], t, n, bs, cur, c, s, g);
      case _ =>
        f := SoundFirst(st, rest, items, t, n, bs, cur, c, s, g);
  }

  /** A statement that evaluates something, and the rest of its block. */
  lemma {:induction false} SoundFirst(
    st: Stmt, rest: Block, items: DeferFrame, t: Trace, n: nat, bs: Blocks, cur: nat, c: Ctx, s: Scope, g: Blocks)
    returns (f: Found)
    requires st.Eval? || st.Assign?
    requires Open(bs, cur) && InScope(c, s)
    requires DepthB(Then(st, rest)) <= s.depth && OkB(Then(st, rest), Inside(c, s), s.deferred)
    requires InScope(WithFrame(c, items), s)
    requires Kept(g, bs, cur, LowerStmts(Then(st, rest), bs, cur, WithFrame(c, items), s)) && Apart(c, bs, cur)
    requires Walk(g, Here(bs, cur), t, Point(c.exit, 0), n)
    ensures RunStmts(f.r, Then(st, rest), items, Inside(c, s), f.o)
    ensures Rests(f, t, n, c, s, LowerStmts(Then(st, rest), bs, cur, WithFrame(c, items), s), g)
    decreases 2 * s.depth + 1, n, Then(st, rest), 0
  {
    hide Walk, Visible, Rests, Kept, RunS, RunAll, LowerS, CleanupBodies, LowerE, DepthE, OkE, RunE;
    var d := WithFrame(c, items);
    var a := LowerS(st, bs, cur, d, s);
    var z := LowerStmts(Then(st, rest), bs, cur, d, s);
    KeptSeq(g, bs, cur, a, z);
    var k := SoundS(st, t, n, bs, cur, d, s, g);
    if k.o == Normal {
      GoesOn(k, t, n, d, s, a, g);
      f := SoundStmts(rest, items, k.rest, k.n, a.bs, a.cur, c, s, g);
      RestsAfter(f, Seq(k.r, f.r), Spell(k.r), k.rest, k.n, t, n, c, s, z, g);
      f := f.(r := Seq(k.r, f.r));
    } else {
      f := SoundLeaving(k, items, t, n, a, z, c, s, g);
    }
  }

  /** Leaving a scope runs its own cleanup first; the rest of the pending cleanup belongs to the enclosing ones. */
  lemma SoundLeaving(k: Found, items: DeferFrame, t: Trace, n: nat, a: Out, z: Out, c: Ctx, s: Scope, g: Blocks)
    returns (f: Found)
    requires InScope(c, s) && InScope(WithFrame(c, items), s) && k.o != Normal && z.cur < |z.bs|
    requires Rests(k, t, n, WithFrame(c, items), s, a, g)
    ensures f.o == k.o && f.r.Seq? && f.r.a == k.r && RunAll(f.r.b, CleanupBodies(items, f.o == Returned))
    ensures Rests(f, t, n, c, s, z, g)
  {
    hide Walk, Visible;
    PendingInFrame(k.o, c, s, items);
    var own, u := ChainSplits(k.u, CleanupBodies(items, k.o == Returned), Pending(k.o, c, s));
    f := Found(Seq(k.r, own), k.o, u, k.rest, k.n);
    assert Spell(k.r) + Spell(k.u) == Spell(f.r) + Spell(u);
  }

  lemma {:induction false} SoundEnd(
    e: Expr, items: DeferFrame, t: Trace, n: nat, bs: Blocks, cur: nat, c: Ctx, s: Scope, g: Blocks)
    returns (f: Found)
    requires Open(bs, cur) && InScope(c, s) && DepthE(e) <= s.depth && OkE(e, Inside(c, s), s.deferred)
    requires InScope(WithFrame(c, items), s)
    requires Kept(g, bs, cur, LowerStmts(End(e), bs, cur, WithFrame(c, items), s)) && Apart(c, bs, cur)
    requires Walk(g, Here(bs, cur), t, Point(c.exit, 0), n)
    ensures RunStmts(f.r, End(e), items, Inside(c, s), f.o)
    ensures Rests(f, t, n, c, s, LowerStmts(End(e), bs, cur, WithFrame(c, items), s), g)
    decreases 2 * s.depth + 1, n, e, 6
  {
    hide Walk, Visible, Rests, Kept, RunE, LowerE, LowerCleanup, CleanupBodies;
    var d := WithFrame(c, items);
    var z := LowerStmts(End(e), bs, cur, d, s);
    var a := LowerE(e, bs, cur, d, s);
    var k := SoundPart(e, z, t, n, bs, cur, d, s, g);
    if k.o == Normal {
      TopIsOk(d, s);
      var u, rest, m := SoundCleanup(CleanupBodies(items, false), k.rest, k.n, a.bs, a.cur, d, s, g);
      assert t == Spell(Seq(k.r, u)) + rest;
      RestsNormally(Seq(k.r, u), t, n, rest, m, c, s, z, g);
      f := Found(Seq(k.r, u), Normal, Done, rest, m);
    } else {
      f := SoundLeaving(k, items, t, n, z, z, c, s, g);
    }
  }

  lemma {:induction false} SoundS(st: Stmt, t: Trace, n: nat, bs: Blocks, cur: nat, c: Ctx, s: Scope, g: Blocks)
    returns (f: Found)
    requires st.Eval? || st.Assign?
    requires Open(bs, cur) && InScope(c, s) && DepthS(st) <= s.depth && OkS(st, Inside(c, s), s.deferred)
    requires Kept(g, bs, cur, LowerS(st, bs, cur, c, s)) && Apart(c, bs, cur)
    requires Walk(g, Here(bs, cur), t, Point(c.exit, 0), n)
    ensures RunS(f.r, st, Inside(c, s), f.o) && Rests(f, t, n, c, s, LowerS(st, bs, cur, c, s), g)
    decreases 2 * s.depth + 1, n, st, 0
  {
    hide Walk, Visible, Rests, Kept;
    match st
    case Eval(e) =>
      f := SoundE(e, t, n, bs, cur, c, s, g);
    case Assign(target, value) =>
      var a := LowerE(value, bs, cur, c, s);
      var z := LowerE(target, a.bs, a.cur, c, s);
      f := SoundPart(value, z, t, n, bs, cur, c, s, g);
      if f.o == Normal {
        var k := SoundE(target, f.rest, f.n, a.bs, a.cur, c, s, g);
        RestsAfter(k, Seq(f.r, k.r), Spell(f.r), f.rest, f.n, t, n, c, s, z, g);
        f := k.(r := Seq(f.r, k.r));
      }
  }
}
