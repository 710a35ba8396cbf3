/** Facts about the order in which cleanup is lowered, and about edges staying inside the block list. */
module CfgBuilding {
  import opened Cfgs
  import opened CfgSyntax
  import opened CfgLowering
  import opened CfgParts

  /** Lowering two lists of deferred bodies one after the other lowers their concatenation. */
  lemma {:induction false} CleanupSplits(a: seq<Block>, b: seq<Block>, bs: Blocks, cur: nat, c: Ctx, s: Scope)
    requires Open(bs, cur) && InScope(c, s) && BodiesOk(a, s.depth) && BodiesOk(b, s.depth)
    ensures BodiesOk(a + b, s.depth)
    ensures var x := LowerCleanup(a, bs, cur, c, s);
      LowerCleanup(a + b, bs, cur, c, s) == LowerCleanup(b, x.bs, x.cur, c, s)
  {
    if a == [] {
      assert a + b == b;
    } else if b == [] {
      assert a + b == a;
    } else {
      assert DepthB(a[0]) < s.depth;
      BodiesSplit(a, b, bs, cur, c, BodyScope(c, s));
    }
  }

  lemma {:induction false} BodiesSplit(a: seq<Block>, b: seq<Block>, bs: Blocks, cur: nat, c: Ctx, s: Scope)
    requires Open(bs, cur) && s == Scope(|c.stack|, |c.loops|, true, s.depth)
    requires BodiesOk(a, s.depth + 1) && BodiesOk(b, s.depth + 1)
    ensures BodiesOk(a + b, s.depth + 1)
    ensures var x := LowerBodies(a, bs, cur, c, s);
      LowerBodies(a + b, bs, cur, c, s) == LowerBodies(b, x.bs, x.cur, c, s)
    decreases a
  {
    if a == [] {
      assert a + b == b;
    } else {
      assert (a + b)[0] == a[0] && (a + b)[1..] == a[1..] + b;
      BodyIsOk(a, c, s);
      var x := LowerB(a[0], Fork(bs, cur), |bs|, c, s);
      BodiesSplit(a[1..], b, x.bs, x.cur, c, s);
    }
  }

  /** The next deferred body goes into a block of its own. */
  lemma BodyStep(item: DeferItem, rest: seq<Block>, bs: Blocks, cur: nat, c: Ctx, s: Scope)
    requires Open(bs, cur) && InScope(c, s) && ItemOk(item, s.depth) && BodiesOk(rest, s.depth)
    ensures 0 < s.depth && BodiesOk([item.body] + rest, s.depth) && Open(Fork(bs, cur), |bs|)
    ensures
      var t := BodyScope(c, s);
      && InScope(c, t) && Inside(c, t) == [] && DepthB(item.body) <= t.depth && OkB(item.body, Inside(c, t), true)
      && var x := LowerB(item.body, Fork(bs, cur), |bs|, c, t);
         && |bs| <= |x.bs| && Open(x.bs, x.cur)
         && LowerCleanup([item.body] + rest, bs, cur, c, s) == LowerCleanup(rest, x.bs, x.cur, c, s)
  {
    hide Visible;
    assert BodiesOk([item.body], s.depth);
    BodyIsOk([item.body], c, BodyScope(c, s));
    CleanupSplits([item.body], rest, bs, cur, c, s);
    var x := LowerB([item.body][0], Fork(bs, cur), |bs|, c, BodyScope(c, s));
    assert [item.body][1..] == [];
    assert LowerBodies([item.body], bs, cur, c, BodyScope(c, s)) == LowerBodies([], x.bs, x.cur, c, BodyScope(c, s));
    assert LowerCleanup([item.body], bs, cur, c, s) == x;
  }

  lemma NoCleanup(bs: Blocks, cur: nat, c: Ctx, s: Scope)
    requires Open(bs, cur) && InScope(c, s)
    ensures BodiesOk([], s.depth) && LowerCleanup([], bs, cur, c, s) == Out(bs, cur)
  {
  }

  /** The innermost scope is cleaned up first. */
  lemma ScopeSplits(stack: seq<DeferFrame>, target: nat, error: bool, bs: Blocks, cur: nat, c: Ctx, s: Scope)
    requires Open(bs, cur) && InScope(c, s) && stack <= c.stack && s.base <= target < |stack|
    ensures
      var (own, rest) := (CleanupBodies(stack[|stack| - 1], error), UnwindBodies(stack[..|stack| - 1], target, error));
      && BodiesOk(own, s.depth) && BodiesOk(rest, s.depth) && BodiesOk(UnwindBodies(stack, target, error), s.depth)
      && var x := LowerCleanup(own, bs, cur, c, s);
         LowerCleanup(UnwindBodies(stack, target, error), bs, cur, c, s) == LowerCleanup(rest, x.bs, x.cur, c, s)
  {
    hide LowerCleanup, CleanupBodies;
    CleanupOk(stack[|stack| - 1], error, s.depth);
    UnwindOk(stack[..|stack| - 1], s.base, target, error, s.depth);
    CleanupSplits(
      CleanupBodies(stack[|stack| - 1], error), UnwindBodies(stack[..|stack| - 1], target, error), bs, cur, c, s);
  }

  lemma StmtsStep(b: Block, bs: Blocks, cur: nat, c: Ctx, s: Scope)
    requires Open(bs, cur) && InScope(c, s) && DepthB(b) <= s.depth && OkB(b, Inside(c, s), s.deferred)
    requires s.base < |c.stack| && b.Then?
    ensures DepthS(b.first) <= s.depth && OkS(b.first, Inside(c, s), s.deferred)
    ensures DepthB(b.rest) <= s.depth && OkB(b.rest, Inside(c, s), s.deferred)
    ensures Noted(c, b.first).stack[..|c.stack| - 1] == c.stack[..|c.stack| - 1]
    ensures
      var (a, d) := (LowerS(b.first, bs, cur, c, s), Noted(c, b.first));
      InScope(d, s) && LowerStmts(b, bs, cur, c, s) == LowerStmts(b.rest, a.bs, a.cur, d, s)
  {
    hide Visible, LowerE;
    NotedKeepsScope(c, s, b.first);
  }

  lemma StmtsEnd(b: Block, bs: Blocks, cur: nat, c: Ctx, s: Scope)
    requires Open(bs, cur) && InScope(c, s) && DepthB(b) <= s.depth && OkB(b, Inside(c, s), s.deferred)
    requires s.base < |c.stack| && b.End?
    ensures DepthE(b.final) <= s.depth && OkE(b.final, Inside(c, s), s.deferred)
    ensures
      var (a, items) := (LowerE(b.final, bs, cur, c, s), c.stack[|c.stack| - 1]);
      && BodiesOk(CleanupBodies(items, false), s.depth)
      && LowerStmts(b, bs, cur, c, s) == LowerCleanup(CleanupBodies(items, false), a.bs, a.cur, c, s)
  {
    hide LowerE, LowerCleanup;
    CleanupOk(c.stack[|c.stack| - 1], false, s.depth);
  }

  lemma ArmsStep(arms: Exprs, bs: Blocks, from: nat, merge: nat, c: Ctx, s: Scope)
    requires arms.MoreExprs? && from < |bs| && merge < |bs| && InScope(c, s)
    requires DepthXs(arms) <= s.depth && OkXs(arms, Inside(c, s), s.deferred)
    ensures DepthE(arms.head) <= s.depth && OkE(arms.head, Inside(c, s), s.deferred)
    ensures DepthXs(arms.tail) <= s.depth && OkXs(arms.tail, Inside(c, s), s.deferred)
    ensures Open(Fork(bs, from), |bs|)
    ensures
      var x := LowerE(arms.head, Fork(bs, from), |bs|, c, s);
      && |bs| < |x.bs| && x.cur < |x.bs|
      && LowerArms(arms, bs, from, merge, c, s) == LowerArms(arms.tail, AddEdge(x.bs, x.cur, merge), from, merge, c, s)
  {
    hide Visible;
  }

  lemma OkLoop(e: Expr, c: Ctx, s: Scope)
    requires (e.While? || e.For?) && InScope(c, s) && DepthE(e) <= s.depth && OkE(e, Inside(c, s), s.deferred)
    ensures DepthB(e.body) <= s.depth && OkB(e.body, Inside(c, s) + [e.lbl], s.deferred)
    ensures e.While? ==> DepthE(e.cond) <= s.depth && OkE(e.cond, Inside(c, s), s.deferred)
    ensures e.For? ==> DepthE(e.iterable) <= s.depth && OkE(e.iterable, Inside(c, s), s.deferred)
  {
  }

  lemma OkIf(e: Expr, c: Ctx, s: Scope)
    requires e.If? && InScope(c, s) && DepthE(e) <= s.depth && OkE(e, Inside(c, s), s.deferred)
    ensures DepthE(e.cond) <= s.depth && OkE(e.cond, Inside(c, s), s.deferred) && BranchesOk(e, c, s)
  {
    hide Visible;
  }

  /** The blocks jumps go to exist. */
  predicate InRange(exit: nat, loops: seq<LoopFrame>, n: nat) {
    exit < n && forall k :: 0 <= k < |loops| ==> loops[k].breakTarget < n && loops[k].continueTarget < n
  }

  lemma NewBlockIsWellFormed(bs: Blocks)
    requires WellFormed(bs)
    ensures WellFormed(NewBlock(bs))
  {
    var r := NewBlock(bs);
    forall i | 0 <= i < |r|
      ensures r[i].id == i && forall j :: 0 <= j < |r[i].successors| ==> r[i].successors[j] < |r|
    {
      if i < |bs| {
        assert r[i] == bs[i];
      }
    }
  }

  lemma AddEdgeIsWellFormed(bs: Blocks, from: nat, to: nat)
    requires WellFormed(bs) && from < |bs| && to < |bs|
    ensures WellFormed(AddEdge(bs, from, to))
  {
  }

  lemma RecordUseIsWellFormed(bs: Blocks, block: nat, site: UseSite)
    requires WellFormed(bs) && block < |bs|
    ensures WellFormed(RecordUse(bs, block, site))
  {
  }
}

/** The builder: it grows the block list and keeps the cleanup of the open scopes on a stack. */
module CfgBuilders {
  import opened Basics
  import opened Cfgs
  import opened CfgSyntax
  import opened CfgRuns
  import opened CfgLowering
  import opened CfgWalks
  import opened CfgTraces
  import opened CfgBuilding

  /** The frame a `break` or `continue` refers to: the last loop with the label, or the last loop. */
  method ResolveLoopFrame(loops: seq<LoopFrame>, lbl: Label) returns (frame: Option<LoopFrame>)
    ensures frame == match Resolve(Labels(loops), lbl) case None => None case Some(k) => Some(loops[k])
  {
    if lbl.None? {
      return if loops == [] then None else Some(loops[|loops| - 1]);
    }
    var i := |loops|;
    assert Labels(loops)[..i] == Labels(loops);
    while i > 0
      invariant 0 <= i <= |loops|
      invariant Resolve(Labels(loops), lbl) == Resolve(Labels(loops)[..i], lbl)
    {
      if loops[i - 1].lbl == lbl {
        return Some(loops[i - 1]);
      }
      assert Labels(loops)[..i][..i - 1] == Labels(loops)[..i - 1];
      i := i - 1;
    }
    frame := None;
  }

  class CfgBuilder {
    var blocks: seq<BasicBlock>
    var deferStack: seq<DeferFrame>

    constructor ()
      ensures blocks == [] && deferStack == []
    {
      blocks, deferStack := [], [];
    }

    ghost function Context(exit: nat, loops: seq<LoopFrame>): Ctx
      reads this
    {
      Ctx(exit, loops, deferStack)
    }

    ghost predicate Ready(cur: nat, exit: nat, loops: seq<LoopFrame>, s: Scope)
      reads this
    {
      WellFormed(blocks) && Open(blocks, cur) && InRange(exit, loops, |blocks|) && InScope(Context(exit, loops), s)
    }

    // ---------- block list operations ----------

    method FreshBlock() returns (id: nat)
      requires WellFormed(blocks)
      modifies this`blocks
      ensures id == |old(blocks)| && blocks == NewBlock(old(blocks)) && |blocks| == id + 1 && WellFormed(blocks)
    {
      NewBlockIsWellFormed(blocks);
      id := |blocks|;
      blocks := blocks + [BasicBlock(id, [], [])];
    }

    method Connect(from: nat, to: nat)
      requires WellFormed(blocks) && from < |blocks| && to < |blocks|
      modifies this`blocks
      ensures blocks == AddEdge(old(blocks), from, to) && WellFormed(blocks)
    {
      AddEdgeIsWellFormed(blocks, from, to);
      var succs := blocks[from].successors;
      if to !in succs {
        blocks := blocks[from := blocks[from].(successors := succs + [to])];
      }
    }

    method Record(block: nat, site: UseSite)
      requires WellFormed(blocks) && block < |blocks|
      modifies this`blocks
      ensures blocks == RecordUse(old(blocks), block, site) && WellFormed(blocks)
    {
      RecordUseIsWellFormed(blocks, block, site);
      blocks := blocks[block := blocks[block].(uses := blocks[block].uses + [site])];
    }

    // ---------- cleanup ----------

    /** The deferred bodies of one scope and kind, last declared first. */
    method EmitBodies(
      frame: DeferFrame, kind: DeferKind, cur: nat, exit: nat, loops: seq<LoopFrame>, ghost s: Scope)
      returns (next: nat)
      requires Ready(cur, exit, loops, s) && forall k :: 0 <= k < |frame| ==> ItemOk(frame[k], s.depth)
      modifies this
      ensures BodiesOk(BodiesOf(frame, kind), s.depth) && deferStack == old(deferStack) && WellFormed(blocks)
      ensures Out(blocks, next) == LowerCleanup(BodiesOf(frame, kind), old(blocks), cur, old(Context(exit, loops)), s)
      decreases 2 * s.depth, 0
    {
      hide LowerB, LowerCleanup, Visible, WellFormed, OkB, BodiesOk, Grows;
      ghost var c := Context(exit, loops);
      ghost var bs := blocks;
      BodiesOfOk(frame, kind, s.depth);
      next := cur;
      var i := |frame|;
      assert frame[..i] == frame;
      while i > 0
        invariant 0 <= i <= |frame| && deferStack == c.stack
        invariant |bs| <= |blocks| && Ready(next, exit, loops, s) && BodiesOk(BodiesOf(frame[..i], kind), s.depth)
        invariant LowerCleanup(BodiesOf(frame, kind), bs, cur, c, s)
               == LowerCleanup(BodiesOf(frame[..i], kind), blocks, next, c, s)
      {
        i := i - 1;
        assert frame[..i + 1][..i] == frame[..i];
        BodiesOfOk(frame[..i], kind, s.depth);
        if frame[i].kind == kind {
          BodyStep(frame[i], BodiesOf(frame[..i], kind), blocks, next, c, s);
          assert BodiesOf(frame[..i + 1], kind) == [frame[i].body] + BodiesOf(frame[..i], kind);
          var entry := FreshBlock();
          Connect(next, entry);
          next := LowerBlock(frame[i].body, entry, exit, loops, BodyScope(c, s));
        } else {
          assert BodiesOf(frame[..i + 1], kind) == BodiesOf(frame[..i], kind);
        }
      }
      assert frame[..i] == [] && BodiesOf(frame[..i], kind) == [];
      NoCleanup(blocks, next, c, s);
    }

    /** The cleanup of one scope: on an error exit its errdefers, then its defers. */
    method EmitScopeCleanup(
      frameIdx: nat, cur: nat, exit: nat, loops: seq<LoopFrame>, errorPath: bool, ghost s: Scope) returns (next: nat)
      requires Ready(cur, exit, loops, s) && s.base <= frameIdx < |deferStack|
      modifies this
      ensures BodiesOk(CleanupBodies(old(deferStack)[frameIdx], errorPath), s.depth)
      ensures deferStack == old(deferStack) && WellFormed(blocks)
      ensures Out(blocks, next)
        == LowerCleanup(
             CleanupBodies(old(deferStack)[frameIdx], errorPath), old(blocks), cur, old(Context(exit, loops)), s)
      decreases 2 * s.depth, 1
    {
      hide LowerCleanup, WellFormed, OkB;
      var frame := deferStack[frameIdx];
      CleanupOk(frame, errorPath, s.depth);
      BodiesOfOk(frame, PlainDefer, s.depth);
      next := cur;
      if errorPath {
        BodiesOfOk(frame, ErrorDefer, s.depth);
        CleanupSplits(BodiesOf(frame, ErrorDefer), BodiesOf(frame, PlainDefer), blocks, cur, Context(exit, loops), s);
        next := EmitBodies(frame, ErrorDefer, next, exit, loops, s);
      } else {
        assert CleanupBodies(frame, false) == BodiesOf(frame, PlainDefer);
      }
      next := EmitBodies(frame, PlainDefer, next, exit, loops, s);
    }

    /** The cleanup of all scopes from the innermost down to `targetDepth`. */
    method EmitUnwindChain(
      targetDepth: nat, cur: nat, exit: nat, loops: seq<LoopFrame>, errorPath: bool, ghost s: Scope) returns (next: nat)
      requires Ready(cur, exit, loops, s) && s.base <= targetDepth
      modifies this
      ensures deferStack == old(deferStack) && WellFormed(blocks)
      ensures Out(blocks, next) == Unwind(targetDepth, errorPath, old(blocks), cur, old(Context(exit, loops)), s)
      decreases 2 * s.depth, 2
    {
      hide LowerCleanup, WellFormed, OkB, CleanupBodies, Visible;
      ghost var c := Context(exit, loops);
      ghost var bs := blocks;
      UnwindOk(deferStack, s.base, targetDepth, errorPath, s.depth);
      next := cur;
      var top := |deferStack|;
      assert deferStack[..top] == deferStack;
      while targetDepth < top
        invariant top <= |deferStack| && deferStack == c.stack
        invariant |bs| <= |blocks| && Ready(next, exit, loops, s)
        invariant BodiesOk(UnwindBodies(deferStack[..top], targetDepth, errorPath), s.depth)
        invariant Unwind(targetDepth, errorPath, bs, cur, c, s)
               == LowerCleanup(UnwindBodies(deferStack[..top], targetDepth, errorPath), blocks, next, c, s)
      {
        top := top - 1;
        ghost var stack := deferStack[..top + 1];
        assert stack[..top] == deferStack[..top] && stack[|stack| - 1] == deferStack[top];
        ScopeSplits(stack, targetDepth, errorPath, blocks, next, c, s);
        next := EmitScopeCleanup(top, next, exit, loops, errorPath, s);
      }
      assert UnwindBodies(deferStack[..top], targetDepth, errorPath) == [];
      NoCleanup(blocks, next, c, s);
    }

    // ---------- blocks ----------

    /** Opens a scope, lowers its statements and final expression, then its cleanup, and closes the scope. */
    method LowerBlock(b: Block, cur: nat, exit: nat, loops: seq<LoopFrame>, ghost s: Scope) returns (next: nat)
      requires Ready(cur, exit, loops, s)
      requires DepthB(b) <= s.depth && OkB(b, Inside(Context(exit, loops), s), s.deferred)
      modifies this
      ensures deferStack == old(deferStack) && WellFormed(blocks)
      ensures Out(blocks, next) == LowerB(b, old(blocks), cur, old(Context(exit, loops)), s)
      decreases 2 * s.depth + 1, b, 2
    {
      hide WellFormed, Visible, LowerStmts, OkS, OkE, LowerE, LowerS, LowerCleanup, CleanupBodies, BodiesOk, DepthE,
        DepthS, DepthB, OkB, Noted, Register, InScope;
      ghost var c := Context(exit, loops);
      ghost var bs := blocks;
      PushKeepsScope(c, s);
      deferStack := deferStack + [[]];
      next := cur;
      var rest := b;
      while rest.Then?
        invariant rest == b || rest < b
        invariant |deferStack| == |c.stack| + 1 && deferStack[..|c.stack|] == c.stack
        invariant |bs| <= |blocks| && Ready(next, exit, loops, s)
        invariant DepthB(rest) <= s.depth && OkB(rest, Inside(c, s), s.deferred)
        invariant LowerB(b, bs, cur, c, s) == LowerStmts(rest, blocks, next, Context(exit, loops), s)
        decreases rest
      {
        StmtsStep(rest, blocks, next, Context(exit, loops), s);
        next := LowerStmt(rest.first, next, exit, loops, s);
        rest := rest.rest;
      }
      StmtsEnd(rest, blocks, next, Context(exit, loops), s);
      next := LowerExpr(rest.final, next, exit, loops, s);
      next := EmitScopeCleanup(|deferStack| - 1, next, exit, loops, false, s);
      deferStack := deferStack[..|deferStack| - 1];
    }

    method LowerStmt(st: Stmt, cur: nat, exit: nat, loops: seq<LoopFrame>, ghost s: Scope) returns (next: nat)
      requires Ready(cur, exit, loops, s) && s.base < |deferStack|
      requires DepthS(st) <= s.depth && OkS(st, Inside(Context(exit, loops), s), s.deferred)
      modifies this
      ensures Context(exit, loops) == Noted(old(Context(exit, loops)), st) && WellFormed(blocks)
      ensures Out(blocks, next) == LowerS(st, old(blocks), cur, old(Context(exit, loops)), s)
      decreases 2 * s.depth + 1, st, 5
    {
      hide WellFormed, Visible, LowerE, OkE;
      match st
      case Uninit =>
        next := cur;
      case Defer(body) =>
        deferStack := deferStack[|deferStack| - 1 := deferStack[|deferStack| - 1] + [DeferItem(PlainDefer, body)]];
        next := cur;
      case ErrDefer(body) =>
        deferStack := deferStack[|deferStack| - 1 := deferStack[|deferStack| - 1] + [DeferItem(ErrorDefer, body)]];
        next := cur;
      case Assign(target, value) =>
        next := LowerExpr(value, cur, exit, loops, s);
        next := LowerExpr(target, next, exit, loops, s);
      case Eval(e) =>
        next := LowerExpr(e, cur, exit, loops, s);
    }

    // ---------- expressions ----------

    method LowerExpr(e: Expr, cur: nat, exit: nat, loops: seq<LoopFrame>, ghost s: Scope) returns (next: nat)
      requires Ready(cur, exit, loops, s)
      requires DepthE(e) <= s.depth && OkE(e, Inside(Context(exit, loops), s), s.deferred)
      modifies this
      ensures deferStack == old(deferStack) && WellFormed(blocks)
      ensures Out(blocks, next) == LowerE(e, old(blocks), cur, old(Context(exit, loops)), s)
      decreases 2 * s.depth + 1, e, 4
    {
      hide WellFormed, Visible, LowerXs, LowerB, LowerIf, LowerMatch, LowerWhile, LowerFor, LowerLoop, LowerJump,
        LowerReturn, LowerQuestion;
      ghost var c := Context(exit, loops);
      match e
      case Leaf =>
        next := cur;
      case Use(site) =>
        Record(cur, site);
        next := cur;
      case Operands(items) =>
        next := LowerOperands(items, cur, exit, loops, s);
      case BlockExpr(body) =>
        next := LowerBlock(body, cur, exit, loops, s);
      case If(_, _, _) =>
        next := LowerIfExpr(e, cur, exit, loops, s);
      case Match(_, _) =>
        next := LowerMatchExpr(e, cur, exit, loops, s);
      case While(_, _, _) =>
        next := LowerWhileExpr(e, cur, exit, loops, s);
      case For(_, _, _) =>
        next := LowerForExpr(e, cur, exit, loops, s);
      case Loop(_, _) =>
        next := LowerLoopExpr(e, cur, exit, loops, s);
      case Break(l, value) =>
        next := LowerExpr(value, cur, exit, loops, s);
        next := LowerJumpExpr(l, true, next, exit, loops, s);
      case Continue(l) =>
        next := LowerJumpExpr(l, false, cur, exit, loops, s);
      case Return(value) =>
        next := LowerExpr(value, cur, exit, loops, s);
        next := LowerReturnExpr(next, exit, loops, s);
      case Question(inner) =>
        next := LowerExpr(inner, cur, exit, loops, s);
        next := LowerQuestionExpr(next, exit, loops, s);
    }

    method LowerOperands(items: Exprs, cur: nat, exit: nat, loops: seq<LoopFrame>, ghost s: Scope) returns (next: nat)
      requires Ready(cur, exit, loops, s)
      requires DepthXs(items) <= s.depth && OkXs(items, Inside(Context(exit, loops), s), s.deferred)
      modifies this
      ensures deferStack == old(deferStack) && WellFormed(blocks)
      ensures Out(blocks, next) == LowerXs(items, old(blocks), cur, old(Context(exit, loops)), s)
      decreases 2 * s.depth + 1, items, 5
    {
      hide WellFormed, Visible, LowerE, OkE, DepthE;
      ghost var c := Context(exit, loops);
      ghost var bs := blocks;
      next := cur;
      var rest := items;
      while rest.MoreExprs?
        invariant rest == items || rest < items
        invariant deferStack == c.stack && |bs| <= |blocks| && Ready(next, exit, loops, s)
        invariant DepthXs(rest) <= s.depth && OkXs(rest, Inside(c, s), s.deferred)
        invariant LowerXs(items, bs, cur, c, s) == LowerXs(rest, blocks, next, c, s)
        decreases rest
      {
        next := LowerExpr(rest.head, next, exit, loops, s);
        rest := rest.tail;
      }
    }

    method LowerIfExpr(e: Expr, cur: nat, exit: nat, loops: seq<LoopFrame>, ghost s: Scope) returns (merge: nat)
      requires e.If? && Ready(cur, exit, loops, s)
      requires DepthE(e) <= s.depth && OkE(e, Inside(Context(exit, loops), s), s.deferred)
      modifies this
      ensures deferStack == old(deferStack) && WellFormed(blocks)
      ensures Out(blocks, merge) == LowerIf(e, old(blocks), cur, old(Context(exit, loops)), s)
      decreases 2 * s.depth + 1, e, 3
    {
      hide WellFormed, Visible, LowerE, LowerB, OkB, OkE, DepthE, DepthB, NewBlock, AddEdge;
      OkIf(e, Context(exit, loops), s);
      var afterCond := LowerExpr(e.cond, cur, exit, loops, s);
      ForkOpens(blocks, afterCond);
      var thenEntry := FreshBlock();
      Connect(afterCond, thenEntry);
      var thenExit := LowerBlock(e.thn, thenEntry, exit, loops, s);
      merge := FreshBlock();
      Connect(thenExit, merge);
      if e.els.Some? {
        ForkOpens(blocks, afterCond);
        var elseEntry := FreshBlock();
        Connect(afterCond, elseEntry);
        var elseExit := LowerExpr(e.els.value, elseEntry, exit, loops, s);
        Connect(elseExit, merge);
      } else {
        Connect(afterCond, merge);
      }
    }

    method LowerMatchExpr(e: Expr, cur: nat, exit: nat, loops: seq<LoopFrame>, ghost s: Scope) returns (merge: nat)
      requires e.Match? && Ready(cur, exit, loops, s)
      requires DepthE(e) <= s.depth && OkE(e, Inside(Context(exit, loops), s), s.deferred)
      modifies this
      ensures deferStack == old(deferStack) && WellFormed(blocks)
      ensures Out(blocks, merge) == LowerMatch(e, old(blocks), cur, old(Context(exit, loops)), s)
      decreases 2 * s.depth + 1, e, 3
    {
      hide WellFormed, Visible, LowerE, LowerArms;
      var afterScrut := LowerExpr(e.scrutinee, cur, exit, loops, s);
      merge := FreshBlock();
      if e.arms.NoExprs? {
        Connect(afterScrut, merge);
      } else {
        LowerMatchArms(e.arms, afterScrut, merge, exit, loops, s);
      }
    }

    /** Every arm in a block of its own, reached from the scrutinee and leading to the merge block. */
    method LowerMatchArms(arms: Exprs, afterScrut: nat, merge: nat, exit: nat, loops: seq<LoopFrame>, ghost s: Scope)
      requires WellFormed(blocks) && afterScrut < |blocks| && merge < |blocks|
      requires InRange(exit, loops, |blocks|) && InScope(Context(exit, loops), s)
      requires DepthXs(arms) <= s.depth && OkXs(arms, Inside(Context(exit, loops), s), s.deferred)
      modifies this
      ensures deferStack == old(deferStack) && WellFormed(blocks)
      ensures blocks == LowerArms(arms, old(blocks), afterScrut, merge, old(Context(exit, loops)), s)
      decreases 2 * s.depth + 1, arms, 5
    {
      hide WellFormed, Visible, LowerE, OkE, Grows, OkXs, DepthE, DepthXs;
      ghost var c := Context(exit, loops);
      ghost var bs := blocks;
      var rest := arms;
      while rest.MoreExprs?
        invariant rest == arms || rest < arms
        invariant deferStack == c.stack && |bs| <= |blocks| && WellFormed(blocks)
        invariant DepthXs(rest) <= s.depth && OkXs(rest, Inside(c, s), s.deferred)
        invariant LowerArms(arms, bs, afterScrut, merge, c, s) == LowerArms(rest, blocks, afterScrut, merge, c, s)
        decreases rest
      {
        ArmsStep(rest, blocks, afterScrut, merge, c, s);
        var armEntry := FreshBlock();
        Connect(afterScrut, armEntry);
        var armExit := LowerExpr(rest.head, armEntry, exit, loops, s);
        Connect(armExit, merge);
        rest := rest.tail;
      }
    }

    method LowerWhileExpr(e: Expr, cur: nat, exit: nat, loops: seq<LoopFrame>, ghost s: Scope) returns (merge: nat)
      requires e.While? && Ready(cur, exit, loops, s)
      requires DepthE(e) <= s.depth && OkE(e, Inside(Context(exit, loops), s), s.deferred)
      modifies this
      ensures deferStack == old(deferStack) && WellFormed(blocks)
      ensures Out(blocks, merge) == LowerWhile(e, old(blocks), cur, old(Context(exit, loops)), s)
      decreases 2 * s.depth + 1, e, 3
    {
      hide WellFormed, Visible, LowerE, LowerB, OkE, OkB, DepthE, DepthB, NewBlock, AddEdge, LowerWhileRest;
      ghost var c := Context(exit, loops);
      OkLoop(e, c, s);
      ForkOpens(blocks, cur);
      var header := FreshBlock();
      Connect(cur, header);
      var afterCond := LowerExpr(e.cond, header, exit, loops, s);
      merge := LowerWhileBody(e, header, afterCond, exit, loops, s);
    }

    /** A `while`, after its condition. */
    method LowerWhileBody(e: Expr, header: nat, afterCond: nat, exit: nat, loops: seq<LoopFrame>, ghost s: Scope)
      returns (merge: nat)
      requires e.While? && Ready(afterCond, exit, loops, s) && header < |blocks|
      requires DepthB(e.body) <= s.depth && OkB(e.body, Inside(Context(exit, loops), s) + [e.lbl], s.deferred)
      modifies this
      ensures deferStack == old(deferStack) && WellFormed(blocks)
      ensures Out(blocks, merge) == LowerWhileRest(e, header, old(blocks), afterCond, old(Context(exit, loops)), s)
      decreases 2 * s.depth + 1, e, 2
    {
      hide WellFormed, Visible, LowerB, OkB, DepthB, NewBlock, AddEdge;
      ForksOpen(blocks, afterCond);
      var bodyEntry := FreshBlock();
      Connect(afterCond, bodyEntry);
      merge := FreshBlock();
      Connect(afterCond, merge);
      var frame := LoopFrame(e.lbl, merge, header, |deferStack|);
      EnterKeepsScope(Context(exit, loops), s, e.lbl, merge, header);
      var bodyExit := LowerBlock(e.body, bodyEntry, exit, loops + [frame], s);
      Connect(bodyExit, header);
    }

    method LowerForExpr(e: Expr, cur: nat, exit: nat, loops: seq<LoopFrame>, ghost s: Scope) returns (merge: nat)
      requires e.For? && Ready(cur, exit, loops, s)
      requires DepthE(e) <= s.depth && OkE(e, Inside(Context(exit, loops), s), s.deferred)
      modifies this
      ensures deferStack == old(deferStack) && WellFormed(blocks)
      ensures Out(blocks, merge) == LowerFor(e, old(blocks), cur, old(Context(exit, loops)), s)
      decreases 2 * s.depth + 1, e, 3
    {
      hide WellFormed, Visible, LowerE, LowerB, OkE, OkB, DepthE, DepthB;
      ghost var c := Context(exit, loops);
      OkLoop(e, c, s);
      var afterIter := LowerExpr(e.iterable, cur, exit, loops, s);
      merge := LowerForBody(e, afterIter, exit, loops, s);
    }

    /** A `for`, after its iterable. */
    method LowerForBody(e: Expr, afterIter: nat, exit: nat, loops: seq<LoopFrame>, ghost s: Scope) returns (merge: nat)
      requires e.For? && Ready(afterIter, exit, loops, s)
      requires DepthB(e.body) <= s.depth && OkB(e.body, Inside(Context(exit, loops), s) + [e.lbl], s.deferred)
      modifies this
      ensures deferStack == old(deferStack) && WellFormed(blocks)
      ensures Out(blocks, merge) == LowerForRest(e, old(blocks), afterIter, old(Context(exit, loops)), s)
      decreases 2 * s.depth + 1, e, 2
    {
      hide WellFormed, Visible, LowerB, OkB, DepthB, NewBlock, AddEdge;
      ghost var c := Context(exit, loops);
      ForksOpen(Fork(blocks, afterIter), |blocks|);
      var header := FreshBlock();
      Connect(afterIter, header);
      var bodyEntry := FreshBlock();
      Connect(header, bodyEntry);
      merge := FreshBlock();
      Connect(header, merge);
      var frame := LoopFrame(e.lbl, merge, header, |deferStack|);
      EnterKeepsScope(c, s, e.lbl, merge, header);
      var bodyExit := LowerBlock(e.body, bodyEntry, exit, loops + [frame], s);
      Connect(bodyExit, header);
    }

    method LowerLoopExpr(e: Expr, cur: nat, exit: nat, loops: seq<LoopFrame>, ghost s: Scope) returns (merge: nat)
      requires e.Loop? && Ready(cur, exit, loops, s)
      requires DepthE(e) <= s.depth && OkE(e, Inside(Context(exit, loops), s), s.deferred)
      modifies this
      ensures deferStack == old(deferStack) && WellFormed(blocks)
      ensures Out(blocks, merge) == LowerLoop(e, old(blocks), cur, old(Context(exit, loops)), s)
      decreases 2 * s.depth + 1, e, 3
    {
      hide WellFormed, Visible, LowerB, OkB;
      ghost var c := Context(exit, loops);
      var header := FreshBlock();
      Connect(cur, header);
      merge := FreshBlock();
      var frame := LoopFrame(e.lbl, merge, header, |deferStack|);
      EnterKeepsScope(c, s, e.lbl, merge, header);
      var bodyExit := LowerBlock(e.body, header, exit, loops + [frame], s);
      Connect(bodyExit, header);
    }

    /** `break` and `continue`, after the value: unwind to the loop and jump, and go on in a fresh block. */
    method LowerJumpExpr(lbl: Label, breaks: bool, cur: nat, exit: nat, loops: seq<LoopFrame>, ghost s: Scope)
      returns (next: nat)
      requires Ready(cur, exit, loops, s) && (s.deferred ==> Resolve(Inside(Context(exit, loops), s), lbl).Some?)
      modifies this
      ensures deferStack == old(deferStack) && WellFormed(blocks)
      ensures
        var (c, k) := (old(Context(exit, loops)), Resolve(Labels(loops), lbl));
        && (k.Some? ==> s.loopBase <= k.value)
        && Out(blocks, next) == LowerJump(k, breaks, Out(old(blocks), cur), c, s)
      decreases 2 * s.depth, 3
    {
      hide WellFormed, Visible;
      ResolveInScope(Context(exit, loops), s, lbl);
      var frame := ResolveLoopFrame(loops, lbl);
      if frame.Some? {
        var tail := EmitUnwindChain(frame.value.deferDepth, cur, exit, loops, false, s);
        Connect(tail, if breaks then frame.value.breakTarget else frame.value.continueTarget);
      }
      next := FreshBlock();
    }

    /** `return`, after its value. */
    method LowerReturnExpr(cur: nat, exit: nat, loops: seq<LoopFrame>, ghost s: Scope) returns (next: nat)
      requires Ready(cur, exit, loops, s) && !s.deferred
      modifies this
      ensures deferStack == old(deferStack) && WellFormed(blocks)
      ensures Out(blocks, next) == LowerReturn(Out(old(blocks), cur), old(Context(exit, loops)), s)
      decreases 2 * s.depth, 3
    {
      hide WellFormed, Visible, Unwind;
      var tail := EmitUnwindChain(0, cur, exit, loops, true, s);
      Connect(tail, exit);
      next := FreshBlock();
    }

    /** `?`, after its operand. */
    method LowerQuestionExpr(cur: nat, exit: nat, loops: seq<LoopFrame>, ghost s: Scope) returns (next: nat)
      requires Ready(cur, exit, loops, s) && !s.deferred
      modifies this
      ensures deferStack == old(deferStack) && WellFormed(blocks)
      ensures Out(blocks, next) == LowerQuestion(Out(old(blocks), cur), old(Context(exit, loops)), s)
      decreases 2 * s.depth, 3
    {
      hide WellFormed, Visible, Unwind;
      var errTail := EmitUnwindChain(0, cur, exit, loops, true, s);
      Connect(errTail, exit);
      next := FreshBlock();
      Connect(cur, next);
    }
  }

  /** Builds the graph of a function body: its paths from entry to exit are exactly its runs. */
  method BuildCfg(body: Block) returns (cfg: Cfg)
    requires OkB(body, [], false)
    ensures cfg == Built(body) && WellFormed(cfg.blocks) && cfg.entry < |cfg.blocks| && cfg.exit < |cfg.blocks|
    ensures forall t :: FunctionTrace(body, t) <==> exists p :: PathSpells(cfg, p, t)
  {
    hide LowerB, FunctionTrace, PathSpells;
    var builder := new CfgBuilder();
    var entry := builder.FreshBlock();
    var exit := builder.FreshBlock();
    assert Inside(TOP, TopScope(body)) == [];
    var cur := builder.LowerBlock(body, entry, exit, [], TopScope(body));
    builder.Connect(cur, exit);
    cfg := Cfg(builder.blocks, entry, exit);
    assert cfg == Built(body);
    forall t ensures FunctionTrace(body, t) <==> exists p :: PathSpells(cfg, p, t) {
      PathsAreRuns(body, t);
    }
  }
}
