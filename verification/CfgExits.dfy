/** Outcomes of runs: where they lead and which cleanup is pending on the way. */
module CfgExits {
  import opened CfgSyntax
  import opened CfgRuns
  import opened CfgLowering
  import opened CfgWalks

  /** Outcomes of code inside `n` loops; deferred bodies never return. */
  predicate OutcomeOk(o: Outcome, n: nat, deferred: bool) {
    match o
    case Normal => true
    case Broke(k) => k < n
    case Continued(k) => k < n
    case Returned => !deferred
  }

  lemma {:induction false} BoundE(r: Run, e: Expr, labels: seq<Label>, o: Outcome, deferred: bool)
    requires RunE(r, e, labels, o) && OkE(e, labels, deferred)
    ensures OutcomeOk(o, |labels|, deferred)
    decreases r, e, 0
  {
    match e
    case Leaf =>
    case Use(_) =>
    case Operands(items) => BoundXs(r, items, labels, o, deferred);
    case BlockExpr(body) => BoundB(r, body, labels, o, deferred);
    case If(c, t, els) =>
      if o != Normal && RunE(r, c, labels, o) {
        BoundE(r, c, labels, o, deferred);
      } else if RunB(r.b, t, labels, o) {
        BoundB(r.b, t, labels, o, deferred);
      } else if els.Some? {
        BoundE(r.b, els.value, labels, o, deferred);
      }
    case Match(c, arms) =>
      if o != Normal && RunE(r, c, labels, o) {
        BoundE(r, c, labels, o, deferred);
      } else if arms.MoreExprs? {
        BoundArm(r.b, arms, labels, o, deferred);
      }
    case While(l, c, body) =>
      if o != Normal && RunE(r, c, labels, o) {
        BoundE(r, c, labels, o, deferred);
      } else if r.b.Iter? {
        BoundB(r.b.body, body, labels + [l], r.b.outcome, deferred);
        if AfterRound(r.b.outcome, |labels|).Again? {
          BoundE(r.b.next, e, labels, o, deferred);
        }
      }
    case For(l, c, body) =>
      if o != Normal && RunE(r, c, labels, o) {
        BoundE(r, c, labels, o, deferred);
      } else {
        BoundRounds(r.b, l, body, true, labels, o, deferred);
      }
    case Loop(l, body) => BoundRounds(r, l, body, false, labels, o, deferred);
    case Break(l, v) =>
      if o != Normal && RunE(r, v, labels, o) {
        BoundE(r, v, labels, o, deferred);
      }
    case Continue(_) =>
    case Return(v) =>
      if o != Normal && RunE(r, v, labels, o) {
        BoundE(r, v, labels, o, deferred);
      }
    case Question(v) =>
      if RunE(r, v, labels, o) {
        BoundE(r, v, labels, o, deferred);
      }
  }

  lemma {:induction false} BoundXs(r: Run, xs: Exprs, labels: seq<Label>, o: Outcome, deferred: bool)
    requires RunXs(r, xs, labels, o) && OkXs(xs, labels, deferred)
    ensures OutcomeOk(o, |labels|, deferred)
    decreases r, xs, 0
  {
    if xs.MoreExprs? {
      if o != Normal && RunE(r, xs.head, labels, o) {
        BoundE(r, xs.head, labels, o, deferred);
      } else {
        BoundXs(r.b, xs.tail, labels, o, deferred);
      }
    }
  }

  lemma {:induction false} BoundArm(r: Run, arms: Exprs, labels: seq<Label>, o: Outcome, deferred: bool)
    requires RunArm(r, arms, labels, o) && OkXs(arms, labels, deferred)
    ensures OutcomeOk(o, |labels|, deferred)
    decreases r, arms, 0
  {
    if RunE(r, arms.head, labels, o) {
      BoundE(r, arms.head, labels, o, deferred);
    } else {
      BoundArm(r, arms.tail, labels, o, deferred);
    }
  }

  lemma {:induction false} BoundRounds(
    r: Run, l: Label, body: Block, ends: bool, labels: seq<Label>, o: Outcome, deferred: bool)
    requires RunRounds(r, l, body, ends, labels, o) && OkB(body, labels + [l], deferred)
    ensures OutcomeOk(o, |labels|, deferred)
    decreases r, body, 3
  {
    if r.Iter? {
      BoundB(r.body, body, labels + [l], r.outcome, deferred);
      if AfterRound(r.outcome, |labels|).Again? {
        BoundRounds(r.next, l, body, ends, labels, o, deferred);
      }
    }
  }

  lemma {:induction false} BoundB(r: Run, b: Block, labels: seq<Label>, o: Outcome, deferred: bool)
    requires RunB(r, b, labels, o) && OkB(b, labels, deferred)
    ensures OutcomeOk(o, |labels|, deferred)
    decreases r, b, 2
  {
    BoundStmts(r, b, [], labels, o, deferred);
  }

  lemma {:induction false} BoundStmts(
    r: Run, b: Block, items: DeferFrame, labels: seq<Label>, o: Outcome, deferred: bool)
    requires RunStmts(r, b, items, labels, o) && OkB(b, labels, deferred)
    ensures OutcomeOk(o, |labels|, deferred)
    decreases r, b, 1
  {
    match b
    case End(e) => BoundE(r.a, e, labels, o, deferred);
    case Then(st, rest) =>
      match st
      case Uninit => BoundStmts(r, rest, items, labels, o, deferred);
      case Defer(body) => BoundStmts(r, rest, items + [DeferItem(PlainDefer, body)], labels, o, deferred);
      case ErrDefer(body) => BoundStmts(r, rest, items + [DeferItem(ErrorDefer, body)], labels, o, deferred);
      case _ =>
        if o != Normal && RunS(r.a, st, labels, o) {
          BoundS(r.a, st, labels, o, deferred);
        } else {
          BoundStmts(r.b, rest, items, labels, o, deferred);
        }
  }

  lemma {:induction false} BoundS(r: Run, st: Stmt, labels: seq<Label>, o: Outcome, deferred: bool)
    requires RunS(r, st, labels, o) && OkS(st, labels, deferred)
    ensures OutcomeOk(o, |labels|, deferred)
    decreases r, st, 0
  {
    match st
    case Eval(e) => BoundE(r, e, labels, o, deferred);
    case Assign(target, value) =>
      if o != Normal && RunE(r, value, labels, o) {
        BoundE(r, value, labels, o, deferred);
      } else {
        BoundE(r.b, target, labels, o, deferred);
      }
    case _ =>
  }

  // ---------- where an outcome leads ----------

  /** The loop an outcome names, in the whole context. */
  function LoopOf(c: Ctx, s: Scope, k: nat): LoopFrame
    requires s.loopBase + k < |c.loops|
  {
    c.loops[s.loopBase + k]
  }

  ghost predicate Leads(o: Outcome, c: Ctx, s: Scope) {
    s.loopBase <= |c.loops| && OutcomeOk(o, |c.loops| - s.loopBase, s.deferred)
  }

  /** The deferred bodies of the enclosing scopes that run on the way. */
  function Pending(o: Outcome, c: Ctx, s: Scope): seq<Block>
    requires Leads(o, c, s)
  {
    match o
    case Normal => []
    case Broke(k) => UnwindBodies(c.stack, LoopOf(c, s, k).deferDepth, false)
    case Continued(k) => UnwindBodies(c.stack, LoopOf(c, s, k).deferDepth, false)
    case Returned => UnwindBodies(c.stack, 0, true)
  }

  /** The point control arrives at after that. */
  function Goal(o: Outcome, c: Ctx, s: Scope, out: Out): Point
    requires Leads(o, c, s) && out.cur < |out.bs|
  {
    match o
    case Normal => Here(out.bs, out.cur)
    case Broke(k) => Point(LoopOf(c, s, k).breakTarget, 0)
    case Continued(k) => Point(LoopOf(c, s, k).continueTarget, 0)
    case Returned => Point(c.exit, 0)
  }

  // ---------- chains of deferred bodies ----------

  ghost function Chain(u: Run, w: Run): Run {
    if u.Seq? then Seq(u.a, Chain(u.b, w)) else w
  }

  lemma {:induction false} ChainRuns(u: Run, a: seq<Block>, w: Run, b: seq<Block>)
    requires RunAll(u, a) && RunAll(w, b)
    ensures RunAll(Chain(u, w), a + b) && Spell(Chain(u, w)) == Spell(u) + Spell(w)
    decreases u
  {
    if a == [] {
      assert a + b == b;
    } else {
      assert (a + b)[1..] == a[1..] + b && (a + b)[0] == a[0];
      ChainRuns(u.b, a[1..], w, b);
    }
  }

  lemma {:induction false} ChainSplits(v: Run, a: seq<Block>, b: seq<Block>) returns (u: Run, w: Run)
    requires RunAll(v, a + b)
    ensures RunAll(u, a) && RunAll(w, b) && Spell(v) == Spell(u) + Spell(w)
    decreases v
  {
    if a == [] {
      assert a + b == b;
      u, w := Done, v;
    } else {
      assert (a + b)[1..] == a[1..] + b && (a + b)[0] == a[0];
      var u', w' := ChainSplits(v.b, a[1..], b);
      u, w := Seq(v.a, u'), w';
    }
  }

  // ---------- scopes with a registry of their own ----------

  function WithFrame(c: Ctx, items: DeferFrame): Ctx {
    c.(stack := c.stack + [items])
  }

  /** Leaving a scope runs its own cleanup before that of the enclosing ones. */
  lemma PendingInFrame(o: Outcome, c: Ctx, s: Scope, items: DeferFrame)
    requires InScope(c, s) && Leads(o, c, s) && o != Normal
    ensures Leads(o, WithFrame(c, items), s)
    ensures Pending(o, WithFrame(c, items), s) == CleanupBodies(items, o == Returned) + Pending(o, c, s)
  {
    var d := WithFrame(c, items);
    assert d.stack[..|d.stack| - 1] == c.stack;
  }

  lemma RegisterInFrame(c: Ctx, items: DeferFrame, item: DeferItem)
    ensures Register(WithFrame(c, items), item) == WithFrame(c, items + [item])
  {
  }

  /** In a loop body, outcomes about enclosing loops lead where they do outside; the rest concern the loop itself. */
  lemma LeadsInLoop(o: Outcome, c: Ctx, s: Scope, l: Label, merge: nat, header: nat, out: Out)
    requires InScope(c, s) && out.cur < |out.bs|
    requires Leads(o, EnterLoop(c, l, merge, header), s)
    ensures
      var d := EnterLoop(c, l, merge, header);
      match AfterRound(o, |Inside(c, s)|)
      case Again =>
        Pending(o, d, s) == [] && (o.Continued? ==> Goal(o, d, s, out) == Point(header, 0))
      case Stop(p) =>
        Leads(p, c, s) &&
        (if o == Broke(|Inside(c, s)|) then Pending(o, d, s) == [] && Goal(o, d, s, out) == Point(merge, 0)
         else p != Normal && Pending(o, d, s) == Pending(p, c, s) && Goal(o, d, s, out) == Goal(p, c, s, out))
  {
  }
}

/** What the finished graph looks like around the pieces of each construct, as lowering calls for them. */
module CfgParts {
  import opened CfgSyntax
  import opened CfgRuns
  import opened CfgLowering
  import opened CfgWalks
  import opened CfgExits

  lemma NormalLeads(c: Ctx, s: Scope)
    requires InScope(c, s)
    ensures Leads(Normal, c, s) && Pending(Normal, c, s) == []
  {
  }

  lemma BodyIsOk(bodies: seq<Block>, c: Ctx, s: Scope)
    requires s == Scope(|c.stack|, |c.loops|, true, s.depth) && BodiesOk(bodies, s.depth + 1) && bodies != []
    ensures InScope(c, s) && Inside(c, s) == [] && DepthB(bodies[0]) <= s.depth && OkB(bodies[0], Inside(c, s), true)
    ensures BodiesOk(bodies[1..], s.depth + 1)
  {
    assert Labels(c.loops[s.loopBase..]) == [];
  }

  lemma IfParts(e: Expr, bs: Blocks, cur: nat, c: Ctx, s: Scope, g: Blocks)
    requires e.If?
    requires Open(bs, cur) && InScope(c, s) && BranchesOk(e, c, s)
    requires Kept(g, bs, cur, LowerIfRest(e, bs, cur, c, s))
    ensures
      var d := Fork(bs, cur);
      Open(d, |bs|) && d[|bs|].uses == [] &&
      var t := LowerB(e.thn, d, |bs|, c, s);
      var (b, f) := (Fork(t.bs, t.cur), LowerIfRest(e, bs, cur, c, s));
      && Kept(g, d, |bs|, t) && Leaves(g, t, {|t.bs|})
      && Here(f.bs, f.cur) == Point(|t.bs|, 0)
      && (e.els.None? ==> Leaves(g, Out(bs, cur), {|bs|, |t.bs|}))
      && (e.els.Some? ==>
          && Leaves(g, Out(bs, cur), {|bs|, |b|})
          && Open(Fork(b, cur), |b|) && Fork(b, cur)[|b|].uses == []
          && var x := LowerE(e.els.value, Fork(b, cur), |b|, c, s);
             Kept(g, Fork(b, cur), |b|, x) && Leaves(g, x, {|t.bs|}))
  {
    hide Visible, Kept, Leaves, LowerB, LowerE;
    ForkOpens(bs, cur);
    var t := LowerB(e.thn, Fork(bs, cur), |bs|, c, s);
    if e.els.None? {
      IfOnlyShape(g, bs, cur, t);
    } else {
      var b := Fork(t.bs, t.cur);
      ForkOpens(b, cur);
      var x := LowerE(e.els.value, Fork(b, cur), |b|, c, s);
      IfElseShape(g, bs, cur, t, x);
    }
  }

  /** Cleanup is nothing at all, or a first body in a block of its own and then the others. */
  lemma CleanupParts(bodies: seq<Block>, bs: Blocks, cur: nat, c: Ctx, s: Scope)
    requires Open(bs, cur) && InScope(c, s) && BodiesOk(bodies, s.depth)
    ensures bodies == [] ==> LowerCleanup(bodies, bs, cur, c, s) == Out(bs, cur)
    ensures bodies != [] ==>
      && 0 < s.depth
      && var t := BodyScope(c, s);
         && InScope(c, t) && Inside(c, t) == [] && DepthB(bodies[0]) <= t.depth && OkB(bodies[0], Inside(c, t), true)
         && BodiesOk(bodies[1..], t.depth + 1) && Open(Fork(bs, cur), |bs|)
         && var x := LowerB(bodies[0], Fork(bs, cur), |bs|, c, t);
            LowerCleanup(bodies, bs, cur, c, s) == LowerBodies(bodies[1..], x.bs, x.cur, c, t)
  {
    if bodies != [] {
      assert DepthB(bodies[0]) < s.depth;
      BodyIsOk(bodies, c, BodyScope(c, s));
      ForkOpens(bs, cur);
    }
  }

  lemma TopIsOk(d: Ctx, s: Scope)
    requires InScope(d, s) && s.base < |d.stack|
    ensures BodiesOk(CleanupBodies(d.stack[|d.stack| - 1], false), s.depth)
  {
    CleanupOk(d.stack[|d.stack| - 1], false, s.depth);
  }

  /** A loop body lowered from `entry` and leading back to the header, inside the finished graph. */
  ghost predicate LoopBodyKept(
    l: Label, body: Block, bs: Blocks, entry: nat, header: nat, merge: nat, c: Ctx, s: Scope, g: Blocks)
  {
    && Open(bs, entry) && bs[entry].uses == [] && InScope(c, s)
    && DepthB(body) <= s.depth && OkB(body, Inside(c, s) + [l], s.deferred)
    && var d := EnterLoop(c, l, merge, header);
       && InScope(d, s) && Inside(d, s) == Inside(c, s) + [l]
       && var x := LowerB(body, bs, entry, d, s); Kept(g, bs, entry, x) && Leaves(g, x, {header})
  }

  lemma ForParts(e: Expr, bs: Blocks, cur: nat, c: Ctx, s: Scope, g: Blocks)
    requires e.For?
    requires Open(bs, cur) && InScope(c, s) && DepthB(e.body) <= s.depth
    requires OkB(e.body, Inside(c, s) + [e.lbl], s.deferred)
    requires Kept(g, bs, cur, LowerForRest(e, bs, cur, c, s))
    ensures
      var (header, f) := (|bs|, LowerForRest(e, bs, cur, c, s));
      && Leaves(g, Out(bs, cur), {header}) && HeaderLeads(g, header, header + 1, header + 2, true)
      && LoopBodyKept(
        e.lbl, e.body, Fork(Fork(Fork(bs, cur), header), header), header + 1, header, header + 2, c, s, g)
      && Here(f.bs, f.cur) == Point(header + 2, 0)
  {
    hide Visible, Kept, LowerB, Leaves, DepthB, OkB, HeaderLeads;
    var header := |bs|;
    var d := Fork(Fork(Fork(bs, cur), header), header);
    assert Open(d, header + 1) && d[header + 1].uses == [];
    EnterKeepsScope(c, s, e.lbl, header + 2, header);
    ForShape(g, bs, cur, LowerB(e.body, d, header + 1, EnterLoop(c, e.lbl, header + 2, header), s));
  }

  lemma WhileParts(e: Expr, bs: Blocks, cur: nat, c: Ctx, s: Scope, g: Blocks)
    requires e.While?
    requires Open(bs, cur) && InScope(c, s) && DepthE(e) <= s.depth && OkE(e, Inside(c, s), s.deferred)
    requires Kept(g, bs, cur, LowerWhile(e, bs, cur, c, s))
    ensures Open(Fork(bs, cur), |bs|) && Here(Fork(bs, cur), |bs|) == Point(|bs|, 0)
    ensures
      var a := LowerE(e.cond, Fork(bs, cur), |bs|, c, s);
      && Leaves(g, Out(bs, cur), {|bs|}) && Kept(g, Fork(bs, cur), |bs|, a)
      && Kept(g, a.bs, a.cur, LowerWhileRest(e, |bs|, a.bs, a.cur, c, s))
  {
    hide Visible, Kept, Leaves;
    ForkOpens(bs, cur);
    var a := LowerE(e.cond, Fork(bs, cur), |bs|, c, s);
    BodyShape(g, bs, cur, a, LowerWhile(e, bs, cur, c, s));
  }

  lemma WhileRestParts(e: Expr, header: nat, bs: Blocks, cur: nat, c: Ctx, s: Scope, g: Blocks)
    requires e.While? && header < |bs|
    requires Open(bs, cur) && InScope(c, s) && DepthB(e.body) <= s.depth
    requires OkB(e.body, Inside(c, s) + [e.lbl], s.deferred)
    requires Kept(g, bs, cur, LowerWhileRest(e, header, bs, cur, c, s))
    ensures
      var f := LowerWhileRest(e, header, bs, cur, c, s);
      && Leaves(g, Out(bs, cur), {|bs|, |bs| + 1})
      && LoopBodyKept(e.lbl, e.body, Fork(Fork(bs, cur), cur), |bs|, header, |bs| + 1, c, s, g)
      && Here(f.bs, f.cur) == Point(|bs| + 1, 0)
  {
    hide Visible, Kept, Leaves, LowerB;
    var d := Fork(Fork(bs, cur), cur);
    assert Open(d, |bs|) && d[|bs|].uses == [];
    EnterKeepsScope(c, s, e.lbl, |bs| + 1, header);
    WhileShape(g, header, bs, cur, LowerB(e.body, d, |bs|, EnterLoop(c, e.lbl, |bs| + 1, header), s));
  }

  /** What the run of a `while` holds after its condition: nothing more, or a round. */
  ghost predicate RunWhileRest(r: Run, e: Expr, labels: seq<Label>, o: Outcome)
    requires e.While?
  {
    || (r == Done && o == Normal)
    || (r.Iter? && RunB(r.body, e.body, labels + [e.lbl], r.outcome) &&
        match AfterRound(r.outcome, |labels|)
        case Again => RunE(r.next, e, labels, o)
        case Stop(p) => r.next == Done && o == p)
  }

  /** A `while` as a whole: where its condition leads, and its body between entry and header. */
  lemma WhileWhole(e: Expr, bs: Blocks, cur: nat, c: Ctx, s: Scope, g: Blocks)
    requires e.While?
    requires Open(bs, cur) && InScope(c, s) && DepthE(e) <= s.depth && OkE(e, Inside(c, s), s.deferred)
    requires Kept(g, bs, cur, LowerWhile(e, bs, cur, c, s))
    ensures Open(Fork(bs, cur), |bs|) && DepthE(e.cond) <= s.depth && OkE(e.cond, Inside(c, s), s.deferred)
    ensures
      var (a, f) := (LowerE(e.cond, Fork(bs, cur), |bs|, c, s), LowerWhile(e, bs, cur, c, s));
      && Leaves(g, a, {|a.bs|, |a.bs| + 1})
      && LoopBodyKept(e.lbl, e.body, Fork(Fork(a.bs, a.cur), a.cur), |a.bs|, |bs|, |a.bs| + 1, c, s, g)
      && Here(f.bs, f.cur) == Point(|a.bs| + 1, 0)
  {
    hide Visible, Kept, Leaves, LoopBodyKept;
    WhileParts(e, bs, cur, c, s, g);
    var a := LowerE(e.cond, Fork(bs, cur), |bs|, c, s);
    WhileRestParts(e, |bs|, a.bs, a.cur, c, s, g);
  }

  /** The cleanup on an error edge: a first body in a block of its own, the others, and the jump to the exit. */
  ghost predicate ErrorPathKept(bodies: seq<Block>, a: Out, w: Out, c: Ctx, s: Scope, g: Blocks)
    requires Open(a.bs, a.cur) && InScope(c, s) && BodiesOk(bodies, s.depth) && bodies != []
  {
    0 < s.depth &&
    var (t, b) := (BodyScope(c, s), Fork(a.bs, a.cur));
    && Open(b, |a.bs|) && b[|a.bs|].uses == [] && InScope(c, t) && Inside(c, t) == []
    && DepthB(bodies[0]) <= t.depth && OkB(bodies[0], Inside(c, t), true) && BodiesOk(bodies[1..], t.depth + 1)
    && var x := LowerB(bodies[0], b, |a.bs|, c, t);
       && w == LowerBodies(bodies[1..], x.bs, x.cur, c, t)
       && Kept(g, b, |a.bs|, x) && Kept(g, x.bs, x.cur, w) && Leaves(g, w, {c.exit})
  }

  /** The blocks of an error edge, with or without cleanup on it. */
  lemma QuestionParts(a: Out, c: Ctx, s: Scope, g: Blocks)
    requires Open(a.bs, a.cur) && InScope(c, s) && !s.deferred && Kept(g, a.bs, a.cur, LowerQuestion(a, c, s))
    ensures var (bodies, w) := (UnwindBodies(c.stack, 0, true), Unwind(0, true, a.bs, a.cur, c, s));
      && BodiesOk(bodies, s.depth) && w == LowerCleanup(bodies, a.bs, a.cur, c, s)
      && Leaves(g, a, {if bodies == [] then c.exit else |a.bs|, |w.bs|})
      && (bodies != [] ==> ErrorPathKept(bodies, a, w, c, s, g))
  {
    hide Kept, Visible, LowerBodies, LowerB, Leaves, UnwindBodies;
    var bodies, w := UnwindBodies(c.stack, 0, true), Unwind(0, true, a.bs, a.cur, c, s);
    UnwindOk(c.stack, 0, 0, true, s.depth);
    CleanupParts(bodies, a.bs, a.cur, c, s);
    if bodies == [] {
      QuestionBareShape(g, a, c.exit);
    } else {
      var x := LowerB(bodies[0], Fork(a.bs, a.cur), |a.bs|, c, BodyScope(c, s));
      QuestionShape(g, a, |a.bs|, x, w, c.exit);
    }
  }
}
