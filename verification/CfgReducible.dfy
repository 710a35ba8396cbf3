/** Cycles of a block list, and the blocks that head them. */
module CfgCycles {
  import opened CfgLowering

  ghost predicate Link(bs: Blocks, x: nat, y: nat) {
    x < |bs| && y in bs[x].successors
  }

  ghost predicate Bounded(bs: Blocks) {
    forall x: nat, y: nat :: Link(bs, x, y) ==> y < |bs|
  }

  /** Every edge is an old one, or leads from `cur` or a new block to a new block or a target. */
  ghost predicate Adds(bs: Blocks, cur: nat, r: Blocks, targets: set<nat>) {
    && |bs| <= |r|
    && forall x: nat, y: nat :: Link(r, x, y) ==>
         Link(bs, x, y) || ((x == cur || |bs| <= x) && (|bs| <= y < |r| || y in targets))
  }

  /** A cycle through blocks from `lo` up to and not including `hi`. */
  ghost predicate Round(bs: Blocks, p: seq<nat>, lo: nat, hi: nat) {
    && |p| > 1 && p[0] == p[|p| - 1]
    && (forall i :: 0 <= i < |p| ==> lo <= p[i] < hi)
    && forall i :: 0 <= i < |p| - 1 ==> Link(bs, p[i], p[i + 1])
  }

  /** The blocks from `h` up to `k` are entered through `h` only. */
  ghost predicate Guards(bs: Blocks, h: nat, k: nat) {
    forall x: nat, y: nat :: Link(bs, x, y) && h < y < k ==> h <= x < k
  }

  ghost predicate HeadedBy(bs: Blocks, p: seq<nat>, h: nat, k: nat) {
    Guards(bs, h, k) && h in p && forall x :: x in p ==> h <= x < k
  }

  /** Every cycle in the range has a block of the range through which all its blocks are entered. */
  ghost predicate Tame(bs: Blocks, lo: nat, hi: nat) {
    forall p :: Round(bs, p, lo, hi) ==> exists h: nat, k: nat :: lo <= h < k <= hi && HeadedBy(bs, p, h, k)
  }

  // ---------- edges ----------

  lemma AddsNothing(bs: Blocks, cur: nat, targets: set<nat>)
    ensures Adds(bs, cur, bs, targets)
  {
  }

  lemma {:induction false} AddsTrans(
    bs: Blocks, cur: nat, m: Blocks, cur1: nat, r: Blocks, first: set<nat>, second: set<nat>, targets: set<nat>)
    requires Adds(bs, cur, m, first) && Adds(m, cur1, r, second) && (cur1 == cur || |bs| <= cur1)
    requires forall t :: t in first || t in second ==> t in targets || |bs| <= t < |r|
    ensures Adds(bs, cur, r, targets)
  {
    hide Link;
  }

  lemma {:induction false} AddsBounds(bs: Blocks, cur: nat, r: Blocks, targets: set<nat>)
    requires Bounded(bs) && Adds(bs, cur, r, targets) && forall t :: t in targets ==> t < |r|
    ensures Bounded(r)
  {
    hide Link;
  }

  lemma NewBlockAdds(bs: Blocks, cur: nat)
    ensures Adds(bs, cur, NewBlock(bs), {})
  {
  }

  lemma AddEdgeAdds(bs: Blocks, cur: nat, to: nat)
    requires cur < |bs|
    ensures Adds(bs, cur, AddEdge(bs, cur, to), {to})
  {
  }

  lemma ForkAdds(bs: Blocks, cur: nat)
    requires cur < |bs|
    ensures Adds(bs, cur, Fork(bs, cur), {})
  {
    NewBlockAdds(bs, cur);
    AddEdgeAdds(NewBlock(bs), cur, |bs|);
    AddsTrans(bs, cur, NewBlock(bs), cur, Fork(bs, cur), {}, {|bs|}, {});
  }

  // ---------- ranges ----------

  lemma {:induction false} Frame(bs: Blocks, r: Blocks, lo: nat, hi: nat)
    requires Tame(bs, lo, hi)
    requires forall x: nat, y: nat :: Link(r, x, y) && lo <= y < hi ==> Link(bs, x, y)
    ensures Tame(r, lo, hi)
  {
    hide Link;
    forall p | Round(r, p, lo, hi) ensures exists h: nat, k: nat :: lo <= h < k <= hi && HeadedBy(r, p, h, k) {
      forall i | 0 <= i < |p| - 1 ensures Link(bs, p[i], p[i + 1]) {
        assert lo <= p[i + 1] < hi;
      }
      assert Round(bs, p, lo, hi);
      var h: nat, k: nat :| lo <= h < k <= hi && HeadedBy(bs, p, h, k);
      assert HeadedBy(r, p, h, k);
    }
  }

  lemma {:induction false} Nothing(bs: Blocks, lo: nat)
    ensures Tame(bs, lo, lo)
  {
  }

  lemma {:induction false} RoundOfOne(bs: Blocks, p: seq<nat>, m: nat)
    requires Round(bs, p, m, m + 1)
    ensures Link(bs, m, m)
  {
    assert Link(bs, p[0], p[1]);
  }

  lemma {:induction false} OneBlock(bs: Blocks, m: nat, hi: nat)
    requires hi == m + 1 && !Link(bs, m, m)
    ensures Tame(bs, m, hi)
  {
    if p :| Round(bs, p, m, hi) {
      RoundOfOne(bs, p, m);
    }
  }

  /** No edge leads from the first range to the second. */
  ghost predicate Parted(bs: Blocks, a: nat, b: nat, c: nat, d: nat) {
    forall x: nat, y: nat :: Link(bs, x, y) && a <= x < b ==> !(c <= y < d)
  }

  /** A cycle that cannot come back once it enters a set of blocks stays where it starts. */
  lemma {:induction false} StaysBelow(bs: Blocks, p: seq<nat>, lo: nat, mid: nat, hi: nat, i: nat)
    requires Round(bs, p, lo, hi) && lo <= mid <= hi && Parted(bs, mid, hi, lo, mid) && i < |p| && p[i] >= mid
    ensures forall j :: i <= j < |p| ==> p[j] >= mid
    decreases |p| - i
  {
    if i + 1 < |p| {
      assert Link(bs, p[i], p[i + 1]);
      StaysBelow(bs, p, lo, mid, hi, i + 1);
    }
  }

  lemma {:induction false} StaysAbove(bs: Blocks, p: seq<nat>, lo: nat, mid: nat, hi: nat, i: nat)
    requires Round(bs, p, lo, hi) && lo <= mid <= hi && Parted(bs, lo, mid, mid, hi) && i < |p| && p[i] < mid
    ensures forall j :: i <= j < |p| ==> p[j] < mid
    decreases |p| - i
  {
    if i + 1 < |p| {
      assert Link(bs, p[i], p[i + 1]);
      StaysAbove(bs, p, lo, mid, hi, i + 1);
    }
  }

  lemma {:induction false} OnOneSide(bs: Blocks, p: seq<nat>, lo: nat, mid: nat, hi: nat)
    requires Round(bs, p, lo, hi) && lo <= mid <= hi
    requires Parted(bs, mid, hi, lo, mid) || Parted(bs, lo, mid, mid, hi)
    ensures Round(bs, p, lo, mid) || Round(bs, p, mid, hi)
  {
    hide Link;
    if Parted(bs, mid, hi, lo, mid) {
      if i: nat :| i < |p| && p[i] >= mid {
        StaysBelow(bs, p, lo, mid, hi, i);
        StaysBelow(bs, p, lo, mid, hi, 0);
      }
    } else {
      if i: nat :| i < |p| && p[i] < mid {
        StaysAbove(bs, p, lo, mid, hi, i);
        StaysAbove(bs, p, lo, mid, hi, 0);
      }
    }
  }

  lemma {:induction false} Join(bs: Blocks, lo: nat, mid: nat, hi: nat)
    requires lo <= mid <= hi && Tame(bs, lo, mid) && Tame(bs, mid, hi)
    requires Parted(bs, mid, hi, lo, mid) || Parted(bs, lo, mid, mid, hi)
    ensures Tame(bs, lo, hi)
  {
    hide Round, Link;
    forall p | Round(bs, p, lo, hi) ensures exists h: nat, k: nat :: lo <= h < k <= hi && HeadedBy(bs, p, h, k) {
      OnOneSide(bs, p, lo, mid, hi);
      if Round(bs, p, lo, mid) {
        var h: nat, k: nat :| lo <= h < k <= mid && HeadedBy(bs, p, h, k);
      } else {
        var h: nat, k: nat :| mid <= h < k <= hi && HeadedBy(bs, p, h, k);
      }
    }
  }

  /** A block that guards the range behind it heads the cycles it is on. */
  lemma {:induction false} Header(bs: Blocks, h: nat, hi: nat)
    requires h < hi && Tame(bs, h + 1, hi) && Guards(bs, h, hi)
    ensures Tame(bs, h, hi)
  {
    hide Link;
    forall p | Round(bs, p, h, hi) ensures exists m: nat, k: nat :: h <= m < k <= hi && HeadedBy(bs, p, m, k) {
      if h in p {
        assert HeadedBy(bs, p, h, hi);
      } else {
        assert Round(bs, p, h + 1, hi);
      }
    }
  }
}

/** Lowering makes reducible graphs. */
module CfgReducible {
  import opened Basics
  import opened Graphs
  import opened Cfgs
  import opened CfgSyntax
  import opened CfgLowering
  import opened CfgWalks
  import opened CfgParts
  import opened CfgTraces
  import opened CfgCycles

  /** Where code in the context may jump to. */
  ghost function Targets(c: Ctx): set<nat> {
    {c.exit} +
    (set k | 0 <= k < |c.loops| :: c.loops[k].breakTarget) +
    (set k | 0 <= k < |c.loops| :: c.loops[k].continueTarget)
  }

  ghost predicate Ready(bs: Blocks, c: Ctx) {
    Bounded(bs) && forall t :: t in Targets(c) ==> t < |bs|
  }

  /** A lowered fragment: its edges stay inside or go to targets, and its new blocks have headed cycles only. */
  ghost predicate Neat(bs: Blocks, cur: nat, r: Blocks, targets: set<nat>) {
    Adds(bs, cur, r, targets) && Tame(r, |bs|, |r|)
  }

  lemma {:induction false} NeatIsReady(bs: Blocks, cur: nat, r: Blocks, c: Ctx)
    requires Ready(bs, c) && Neat(bs, cur, r, Targets(c))
    ensures Ready(r, c)
  {
    hide Link, Tame;
    AddsBounds(bs, cur, r, Targets(c));
  }

  lemma NeatNothing(bs: Blocks, cur: nat, targets: set<nat>)
    ensures Neat(bs, cur, bs, targets)
  {
    AddsNothing(bs, cur, targets);
    Nothing(bs, |bs|);
  }

  /** Later blocks and edges, none of which lead back among the earlier new blocks. */
  lemma {:induction false} NeatLate(bs: Blocks, cur: nat, m: Blocks, r: Blocks, targets: set<nat>)
    requires Neat(bs, cur, m, targets) && |m| <= |r| && Tame(r, |m|, |r|) && forall t :: t in targets ==> t < |bs|
    requires forall x: nat, y: nat :: Link(r, x, y) ==>
      Link(m, x, y) || ((x == cur || |bs| <= x) && (|m| <= y < |r| || y in targets))
    ensures Neat(bs, cur, r, targets)
  {
    hide Tame;
    Frame(m, r, |bs|, |m|);
    assert Parted(r, |m|, |r|, |bs|, |m|);
    Join(r, |bs|, |m|, |r|);
  }

  /** One fragment after another. */
  lemma {:induction false} NeatSeq(bs: Blocks, cur: nat, m: Blocks, cur1: nat, r: Blocks, targets: set<nat>)
    requires Neat(bs, cur, m, targets) && Neat(m, cur1, r, targets) && (cur1 == cur || |bs| <= cur1)
    requires forall t :: t in targets ==> t < |bs|
    ensures Neat(bs, cur, r, targets)
  {
    hide Link, Tame;
    NeatLate(bs, cur, m, r, targets);
  }

  /** A first new block that leads nowhere. */
  lemma {:induction false} MergeFirst(r: Blocks, merge: nat)
    requires merge < |r| && r[merge].successors == [] && Tame(r, merge + 1, |r|)
    ensures Tame(r, merge, |r|)
  {
    hide Tame;
    OneBlock(r, merge, merge + 1);
    assert Parted(r, merge, merge + 1, merge + 1, |r|);
    Join(r, merge, merge + 1, |r|);
  }

  lemma {:induction false} NeatBlock(bs: Blocks, cur: nat, targets: set<nat>)
    ensures Neat(bs, cur, NewBlock(bs), targets)
  {
    hide Tame;
    OneBlock(NewBlock(bs), |bs|, |bs| + 1);
  }

  /** An edge to a target. */
  lemma {:induction false} NeatEdge(bs: Blocks, cur: nat, r: Blocks, from: nat, to: nat, targets: set<nat>)
    requires Neat(bs, cur, r, targets) && from < |r| && (from == cur || |bs| <= from)
    requires to in targets && forall t :: t in targets ==> t < |bs|
    ensures Neat(bs, cur, AddEdge(r, from, to), targets)
  {
    hide Tame;
    Frame(r, AddEdge(r, from, to), |bs|, |r|);
  }

  /** A fragment that starts in a fresh block. */
  lemma {:induction false} NeatFork(bs: Blocks, cur: nat, r: Blocks, targets: set<nat>)
    requires cur < |bs| && Bounded(bs) && Neat(Fork(bs, cur), |bs|, r, targets) && forall t :: t in targets ==> t < |bs|
    ensures Neat(bs, cur, r, targets)
  {
    hide Tame;
    var f, entry := Fork(bs, cur), |bs|;
    assert forall x: nat, y: nat :: Link(f, x, y) ==> Link(bs, x, y) || (x == cur && y == entry);
    OneBlock(r, entry, entry + 1);
    assert Parted(r, entry + 1, |r|, entry, entry + 1);
    Join(r, entry, entry + 1, |r|);
  }

  lemma ForkIsReady(bs: Blocks, cur: nat, c: Ctx)
    requires Ready(bs, c) && cur < |bs|
    ensures Ready(Fork(bs, cur), c)
  {
    hide Link;
    ForkAdds(bs, cur);
    AddsBounds(bs, cur, Fork(bs, cur), {});
  }

  /** Control jumps away, and lowering goes on in a fresh block. */
  lemma {:induction false} NeatJump(bs: Blocks, cur: nat, u: Out, to: nat, targets: set<nat>)
    requires Neat(bs, cur, u.bs, targets) && u.cur < |u.bs| && (u.cur == cur || |bs| <= u.cur)
    requires to in targets && forall t :: t in targets ==> t < |bs|
    ensures Neat(bs, cur, NewBlock(AddEdge(u.bs, u.cur, to)), targets)
  {
    hide Neat;
    var b := AddEdge(u.bs, u.cur, to);
    NeatEdge(bs, cur, u.bs, u.cur, to, targets);
    NeatBlock(b, cur, targets);
    NeatSeq(bs, cur, b, cur, NewBlock(b), targets);
  }

  lemma {:induction false} NeatIfOnly(bs: Blocks, cur: nat, t: Out, targets: set<nat>)
    requires cur < |bs| && Bounded(bs) && Grows(Fork(bs, cur), |bs|, t) && Neat(Fork(bs, cur), |bs|, t.bs, targets)
    requires forall x :: x in targets ==> x < |bs|
    ensures Neat(bs, cur, AddEdge(Fork(t.bs, t.cur), cur, |t.bs|), targets)
  {
    NeatFork(bs, cur, t.bs, targets);
    hide Tame, Neat;
    var r := AddEdge(Fork(t.bs, t.cur), cur, |t.bs|);
    OneBlock(r, |t.bs|, |r|);
    NeatLate(bs, cur, t.bs, r, targets);
  }

  lemma {:induction false} NeatIfElse(bs: Blocks, cur: nat, t: Out, x: Out, targets: set<nat>)
    requires cur < |bs| && Bounded(bs) && Grows(Fork(bs, cur), |bs|, t) && Neat(Fork(bs, cur), |bs|, t.bs, targets)
    requires var b := Fork(t.bs, t.cur);
      Bounded(b) && Grows(Fork(b, cur), |b|, x) && Neat(Fork(b, cur), |b|, x.bs, targets)
    requires forall x :: x in targets ==> x < |bs|
    ensures Neat(bs, cur, AddEdge(x.bs, x.cur, |t.bs|), targets)
  {
    NeatFork(bs, cur, t.bs, targets);
    var b, merge := Fork(t.bs, t.cur), |t.bs|;
    NeatFork(b, cur, x.bs, targets);
    var r := AddEdge(x.bs, x.cur, merge);
    hide Tame;
    Frame(x.bs, r, |b|, |r|);
    assert r[merge].successors == [];
    MergeFirst(r, merge);
    LinksOfElse(bs, cur, t, x, targets);
    NeatLate(bs, cur, t.bs, r, targets);
  }

  lemma {:induction false} LinksOfElse(bs: Blocks, cur: nat, t: Out, x: Out, targets: set<nat>)
    requires cur < |bs| && Grows(Fork(bs, cur), |bs|, t)
    requires var b := Fork(t.bs, t.cur); Grows(Fork(b, cur), |b|, x) && Adds(b, cur, x.bs, targets)
    ensures var r := AddEdge(x.bs, x.cur, |t.bs|);
      forall i: nat, j: nat :: Link(r, i, j) ==>
        Link(t.bs, i, j) || ((i == cur || |bs| <= i) && (|t.bs| <= j < |r| || j in targets))
  {
    var b := Fork(t.bs, t.cur);
    assert forall i: nat, j: nat :: Link(b, i, j) ==> Link(t.bs, i, j) || (i == t.cur && j == |t.bs|);
    assert t.cur == |bs| || t.cur > |bs|;
  }

  /** The body of a loop between its two fresh blocks and the header. */
  /** The edges around a loop body: two into its blocks from `cur`, and one back to the header. */
  lemma LoopRestLinks(header: nat, bs: Blocks, cur: nat, x: Out, targets: set<nat>)
    requires cur < |bs| && header < |bs| && Bounded(bs)
    requires var d := Fork(Fork(bs, cur), cur); Grows(d, |bs|, x) && Adds(d, |bs|, x.bs, targets + {|bs| + 1, header})
    ensures
      var (d, r) := (Fork(Fork(bs, cur), cur), AddEdge(x.bs, x.cur, header));
      && r[|bs| + 1].successors == []
      && (forall i: nat, j: nat :: Link(d, i, j) ==> Link(bs, i, j) || (i == cur && (j == |bs| || j == |bs| + 1)))
      && (forall i: nat, j: nat :: Link(r, i, j) ==> Link(x.bs, i, j) || (i == x.cur && j == header))
  {
  }

  lemma {:induction false} NeatLoopRest(header: nat, bs: Blocks, cur: nat, x: Out, targets: set<nat>)
    requires cur < |bs| && header < |bs| && Bounded(bs) && forall t :: t in targets ==> t < |bs|
    requires var d := Fork(Fork(bs, cur), cur);
      Grows(d, |bs|, x) && Neat(d, |bs|, x.bs, targets + {|bs| + 1, header})
    ensures Neat(bs, cur, AddEdge(x.bs, x.cur, header), targets + {header})
  {
    hide Tame, Link, Fork, AddEdge;
    var d, entry, merge := Fork(Fork(bs, cur), cur), |bs|, |bs| + 1;
    var r := AddEdge(x.bs, x.cur, header);
    LoopRestLinks(header, bs, cur, x, targets);
    Frame(x.bs, r, |d|, |r|);
    MergeFirst(r, merge);
    assert entry !in targets + {merge, header};
    assert forall i: nat, j: nat :: Link(x.bs, i, j) && j == entry ==> Link(d, i, j);
    OneBlock(r, entry, entry + 1);
    assert Parted(r, entry + 1, |r|, entry, entry + 1);
    Join(r, entry, entry + 1, |r|);
  }

  lemma {:induction false} NeatHeader(bs: Blocks, cur: nat, r: Blocks, targets: set<nat>)
    requires cur < |bs| && Bounded(bs) && forall t :: t in targets ==> t < |bs|
    requires Adds(Fork(bs, cur), |bs|, r, targets + {|bs|}) && Tame(r, |bs| + 1, |r|)
    ensures Neat(bs, cur, r, targets)
  {
    hide Tame;
    var f, h := Fork(bs, cur), |bs|;
    assert forall x: nat, y: nat :: Link(f, x, y) ==> Link(bs, x, y) || (x == cur && y == h);
    assert Guards(r, h, |r|);
    Header(r, h, |r|);
  }
  // ---------- every construct ----------

  lemma {:induction false} SameTargets(c: Ctx, stack: seq<DeferFrame>)
    ensures Targets(c.(stack := stack)) == Targets(c)
  {
  }

  lemma {:induction false} LoopTargets(c: Ctx, l: Label, merge: nat, header: nat)
    ensures Targets(EnterLoop(c, l, merge, header)) == Targets(c) + {merge, header}
  {
    var d := EnterLoop(c, l, merge, header);
    forall t | t in Targets(c) + {merge, header} ensures t in Targets(d) {
      assert d.loops[|c.loops|] == LoopFrame(l, merge, header, |c.stack|);
      if k :| 0 <= k < |c.loops| && (c.loops[k].breakTarget == t || c.loops[k].continueTarget == t) {
        assert d.loops[k] == c.loops[k];
      }
    }
  }

  lemma {:induction false} NeatE(e: Expr, bs: Blocks, cur: nat, c: Ctx, s: Scope)
    requires Open(bs, cur) && InScope(c, s) && DepthE(e) <= s.depth && OkE(e, Inside(c, s), s.deferred)
    requires Ready(bs, c)
    ensures Neat(bs, cur, LowerE(e, bs, cur, c, s).bs, Targets(c))
    decreases 2 * s.depth + 1, e, 5
  {
    hide Visible, Bounded, Adds, Tame, LowerXs, LowerB, LowerWhile, LowerLoop, LowerIf, LowerMatch, LowerFor, Resolve,
      Labels;
    match e
    case Leaf =>
      NeatNothing(bs, cur, Targets(c));
    case Use(site) =>
      NeatUse(site, bs, cur, Targets(c));
    case Operands(items) =>
      NeatXs(items, bs, cur, c, s);
    case BlockExpr(body) =>
      NeatB(body, bs, cur, c, s);
    case While(_, _, _) =>
      NeatWhile(e, bs, cur, c, s);
    case Loop(_, _) =>
      NeatLoop(e, bs, cur, c, s);
    case Continue(l) =>
      ResolveInScope(c, s, l);
      NeatLeap(Resolve(Labels(c.loops), l), false, Out(bs, cur), c, s);
    case If(_, _, _) =>
      NeatInTwo(e, bs, cur, c, s);
    case Match(_, _) =>
      NeatInTwo(e, bs, cur, c, s);
    case For(_, _, _) =>
      NeatInTwo(e, bs, cur, c, s);
    case _ =>
      NeatLeaving(e, bs, cur, c, s);
  }

  /** The first part of an expression, after which the builder is ready for the rest. */
  lemma {:induction false} NeatFirst(first: Expr, bs: Blocks, cur: nat, c: Ctx, s: Scope)
    requires Open(bs, cur) && InScope(c, s) && DepthE(first) <= s.depth && OkE(first, Inside(c, s), s.deferred)
    requires Ready(bs, c)
    ensures var a := LowerE(first, bs, cur, c, s);
      && Neat(bs, cur, a.bs, Targets(c)) && Ready(a.bs, c) && Open(a.bs, a.cur) && (a.cur == cur || |bs| <= a.cur)
    ensures forall t :: t in Targets(c) ==> t < |bs|
    decreases 2 * s.depth + 1, first, 6
  {
    hide Visible, Neat, LowerE, DepthE, OkE;
    NeatE(first, bs, cur, c, s);
    NeatIsReady(bs, cur, LowerE(first, bs, cur, c, s).bs, c);
  }

  /** An operand, and then branches or a loop. */
  lemma {:induction false} NeatInTwo(e: Expr, bs: Blocks, cur: nat, c: Ctx, s: Scope)
    requires e.If? || e.Match? || e.For?
    requires Open(bs, cur) && InScope(c, s) && DepthE(e) <= s.depth && OkE(e, Inside(c, s), s.deferred)
    requires Ready(bs, c)
    ensures Neat(bs, cur, LowerE(e, bs, cur, c, s).bs, Targets(c))
    decreases 2 * s.depth + 1, e, 4
  {
    hide Visible, Neat, Ready, Targets, LowerIfRest, LowerMatchRest, LowerForRest;
    var first := if e.If? then e.cond else if e.Match? then e.scrutinee else e.iterable;
    var a := LowerE(first, bs, cur, c, s);
    NeatFirst(first, bs, cur, c, s);
    if e.If? {
      NeatIf(e, a.bs, a.cur, c, s);
      assert LowerE(e, bs, cur, c, s) == LowerIf(e, bs, cur, c, s);
    } else if e.Match? {
      NeatMatch(e, a.bs, a.cur, c, s);
      assert LowerE(e, bs, cur, c, s) == LowerMatch(e, bs, cur, c, s);
    } else {
      NeatFor(e, a.bs, a.cur, c, s);
      assert LowerE(e, bs, cur, c, s) == LowerFor(e, bs, cur, c, s);
    }
    NeatSeq(bs, cur, a.bs, a.cur, LowerE(e, bs, cur, c, s).bs, Targets(c));
  }

  /** An operand, and then a way out. */
  lemma {:induction false} NeatLeaving(e: Expr, bs: Blocks, cur: nat, c: Ctx, s: Scope)
    requires e.Break? || e.Return? || e.Question?
    requires Open(bs, cur) && InScope(c, s) && DepthE(e) <= s.depth && OkE(e, Inside(c, s), s.deferred)
    requires Ready(bs, c)
    ensures Neat(bs, cur, LowerE(e, bs, cur, c, s).bs, Targets(c))
    decreases 2 * s.depth + 1, e, 4
  {
    hide Visible, Neat, Ready, Targets, LowerJump, LowerReturn, LowerQuestion, Resolve, Labels;
    var first := if e.Question? then e.inner else e.value;
    var a := LowerE(first, bs, cur, c, s);
    NeatFirst(first, bs, cur, c, s);
    if e.Break? {
      ResolveInScope(c, s, e.lbl);
      NeatLeap(Resolve(Labels(c.loops), e.lbl), true, a, c, s);
      assert LowerE(e, bs, cur, c, s) == LowerBreak(e, bs, cur, c, s);
    } else if e.Return? {
      NeatReturn(a, c, s);
    } else {
      NeatQuestion(a, c, s);
    }
    NeatSeq(bs, cur, a.bs, a.cur, LowerE(e, bs, cur, c, s).bs, Targets(c));
  }

  lemma NeatUse(site: UseSite, bs: Blocks, cur: nat, targets: set<nat>)
    requires cur < |bs|
    ensures Neat(bs, cur, RecordUse(bs, cur, site), targets)
  {
    Nothing(RecordUse(bs, cur, site), |bs|);
  }

  lemma {:induction false} NeatXs(xs: Exprs, bs: Blocks, cur: nat, c: Ctx, s: Scope)
    requires Open(bs, cur) && InScope(c, s) && DepthXs(xs) <= s.depth && OkXs(xs, Inside(c, s), s.deferred)
    requires Ready(bs, c)
    ensures Neat(bs, cur, LowerXs(xs, bs, cur, c, s).bs, Targets(c))
    decreases 2 * s.depth + 1, xs, 0
  {
    hide Visible, Bounded, Adds, Tame;
    match xs
    case NoExprs =>
      NeatNothing(bs, cur, Targets(c));
    case MoreExprs(h, t) =>
      var a := LowerE(h, bs, cur, c, s);
      NeatE(h, bs, cur, c, s);
      NeatIsReady(bs, cur, a.bs, c);
      NeatXs(t, a.bs, a.cur, c, s);
      NeatSeq(bs, cur, a.bs, a.cur, LowerXs(xs, bs, cur, c, s).bs, Targets(c));
  }

  lemma {:induction false} NeatIf(e: Expr, bs: Blocks, cur: nat, c: Ctx, s: Scope)
    requires e.If?
    requires Open(bs, cur) && InScope(c, s) && BranchesOk(e, c, s) && Ready(bs, c)
    ensures Neat(bs, cur, LowerIfRest(e, bs, cur, c, s).bs, Targets(c))
    decreases 2 * s.depth + 1, e, 3
  {
    hide Visible, Adds, Tame, Bounded;
    ForkIsReady(bs, cur, c);
    var t := LowerB(e.thn, Fork(bs, cur), |bs|, c, s);
    NeatB(e.thn, Fork(bs, cur), |bs|, c, s);
    if e.els.None? {
      NeatIfOnly(bs, cur, t, Targets(c));
    } else {
      var b := Fork(t.bs, t.cur);
      NeatIsReady(Fork(bs, cur), |bs|, t.bs, c);
      ForkIsReady(t.bs, t.cur, c);
      ForkIsReady(b, cur, c);
      NeatE(e.els.value, Fork(b, cur), |b|, c, s);
      NeatIfElse(bs, cur, t, LowerE(e.els.value, Fork(b, cur), |b|, c, s), Targets(c));
    }
  }

  lemma {:induction false} NeatMatch(e: Expr, bs: Blocks, cur: nat, c: Ctx, s: Scope)
    requires e.Match?
    requires Open(bs, cur) && InScope(c, s) && DepthXs(e.arms) <= s.depth && OkXs(e.arms, Inside(c, s), s.deferred)
    requires Ready(bs, c)
    ensures Neat(bs, cur, LowerMatchRest(e, bs, cur, c, s).bs, Targets(c))
    decreases 2 * s.depth + 1, e, 3
  {
    hide Visible, Tame;
    if e.arms.NoExprs? {
      NeatNothing(Fork(bs, cur), |bs|, Targets(c));
      NeatFork(bs, cur, Fork(bs, cur), Targets(c));
    } else {
      var b, merge := NewBlock(bs), |bs|;
      NeatBlock(bs, cur, {});
      AddsBounds(bs, cur, b, {});
      var r := LowerArms(e.arms, b, cur, merge, c, s);
      NeatArms(e.arms, b, cur, merge, c, s);
      AddsTrans(bs, cur, b, cur, r, {}, Targets(c) + {merge}, Targets(c));
      MergeFirst(r, merge);
    }
  }

  lemma {:induction false} NeatArms(arms: Exprs, bs: Blocks, from: nat, merge: nat, c: Ctx, s: Scope)
    requires from < |bs| && merge < |bs| && InScope(c, s)
    requires DepthXs(arms) <= s.depth && OkXs(arms, Inside(c, s), s.deferred) && Ready(bs, c)
    ensures Neat(bs, from, LowerArms(arms, bs, from, merge, c, s), Targets(c) + {merge})
    decreases 2 * s.depth + 1, arms, 0
  {
    hide Visible, Adds, Tame, Bounded;
    match arms
    case NoExprs =>
      NeatNothing(bs, from, Targets(c) + {merge});
    case MoreExprs(h, t) =>
      var entry := |bs|;
      ForkIsReady(bs, from, c);
      var x := LowerE(h, Fork(bs, from), entry, c, s);
      NeatE(h, Fork(bs, from), entry, c, s);
      NeatFork(bs, from, x.bs, Targets(c));
      NeatWider(bs, from, x.bs, Targets(c), Targets(c) + {merge});
      NeatEdge(bs, from, x.bs, x.cur, merge, Targets(c) + {merge});
      var b := AddEdge(x.bs, x.cur, merge);
      NeatBounds(bs, from, b, Targets(c) + {merge});
      NeatArms(t, b, from, merge, c, s);
      NeatSeq(bs, from, b, from, LowerArms(arms, bs, from, merge, c, s), Targets(c) + {merge});
  }

  lemma NeatWider(bs: Blocks, cur: nat, r: Blocks, targets: set<nat>, wider: set<nat>)
    requires Neat(bs, cur, r, targets) && targets <= wider
    ensures Neat(bs, cur, r, wider)
  {
    hide Tame, Link;
  }

  lemma NeatBounds(bs: Blocks, cur: nat, r: Blocks, targets: set<nat>)
    requires Bounded(bs) && Neat(bs, cur, r, targets) && forall t :: t in targets ==> t < |bs|
    ensures Bounded(r) && |bs| <= |r|
  {
    hide Tame, Link;
    AddsBounds(bs, cur, r, targets);
  }

  lemma {:induction false} NeatWhile(e: Expr, bs: Blocks, cur: nat, c: Ctx, s: Scope)
    requires e.While?
    requires Open(bs, cur) && InScope(c, s) && DepthE(e) <= s.depth && OkE(e, Inside(c, s), s.deferred)
    requires Ready(bs, c)
    ensures Neat(bs, cur, LowerWhile(e, bs, cur, c, s).bs, Targets(c))
    decreases 2 * s.depth + 1, e, 3
  {
    hide Visible, Tame, Bounded;
    var f, header := Fork(bs, cur), |bs|;
    ForkIsReady(bs, cur, c);
    var a := LowerE(e.cond, f, header, c, s);
    NeatE(e.cond, f, header, c, s);
    NeatIsReady(f, header, a.bs, c);
    NeatWhileRest(e, header, a.bs, a.cur, c, s);
    var r := LowerWhile(e, bs, cur, c, s).bs;
    var targets := Targets(c) + {header};
    NeatWider(f, header, a.bs, Targets(c), targets);
    NeatSeq(f, header, a.bs, a.cur, r, targets);
    NeatHeader(bs, cur, r, Targets(c));
  }

  lemma {:induction false} NeatWhileRest(e: Expr, header: nat, bs: Blocks, cur: nat, c: Ctx, s: Scope)
    requires e.While? && header < |bs|
    requires Open(bs, cur) && InScope(c, s) && DepthB(e.body) <= s.depth
    requires OkB(e.body, Inside(c, s) + [e.lbl], s.deferred)
    requires Ready(bs, c)
    ensures Neat(bs, cur, LowerWhileRest(e, header, bs, cur, c, s).bs, Targets(c) + {header})
    decreases 2 * s.depth + 1, e, 2
  {
    hide Visible, Adds, Tame, Bounded;
    NeatLoopBody(e.body, e.lbl, header, bs, cur, c, s);
  }

  /** The body of a `while` or `for`, behind its two fresh blocks. */
  lemma {:induction false} NeatLoopBody(body: Block, l: Label, header: nat, bs: Blocks, cur: nat, c: Ctx, s: Scope)
    requires header < |bs| && cur < |bs| && InScope(c, s) && Ready(bs, c)
    requires DepthB(body) <= s.depth && OkB(body, Inside(c, s) + [l], s.deferred)
    ensures
      var (d, inner) := (Fork(Fork(bs, cur), cur), EnterLoop(c, l, |bs| + 1, header));
      Open(d, |bs|) && InScope(inner, s) && OkB(body, Inside(inner, s), s.deferred) &&
      var x := LowerB(body, d, |bs|, inner, s);
      Neat(bs, cur, AddEdge(x.bs, x.cur, header), Targets(c) + {header})
    decreases 2 * s.depth + 1, body, 3
  {
    hide Visible, Adds, Tame, Bounded, LowerB, OkB, DepthB, Link, Fork, Neat, Open, AddEdge, Grows, Targets, Labels;
    var d, inner := Fork(Fork(bs, cur), cur), EnterLoop(c, l, |bs| + 1, header);
    EnterKeepsScope(c, s, l, |bs| + 1, header);
    ForkIsReady(bs, cur, c);
    ForkIsReady(Fork(bs, cur), cur, c);
    ForksOpen(bs, cur);
    LoopTargets(c, l, |bs| + 1, header);
    NeatB(body, d, |bs|, inner, s);
    var x := LowerB(body, d, |bs|, inner, s);
    NeatLoopRest(header, bs, cur, x, Targets(c));
  }

  lemma {:induction false} NeatFor(e: Expr, bs: Blocks, cur: nat, c: Ctx, s: Scope)
    requires e.For?
    requires Open(bs, cur) && InScope(c, s) && DepthB(e.body) <= s.depth
    requires OkB(e.body, Inside(c, s) + [e.lbl], s.deferred)
    requires Ready(bs, c)
    ensures Neat(bs, cur, LowerForRest(e, bs, cur, c, s).bs, Targets(c))
    decreases 2 * s.depth + 1, e, 2
  {
    hide Visible, Tame, Bounded;
    var f, header := Fork(bs, cur), |bs|;
    ForkIsReady(bs, cur, c);
    NeatLoopBody(e.body, e.lbl, header, f, header, c, s);
    NeatHeader(bs, cur, LowerForRest(e, bs, cur, c, s).bs, Targets(c));
  }

  lemma {:induction false} NeatLoop(e: Expr, bs: Blocks, cur: nat, c: Ctx, s: Scope)
    requires e.Loop?
    requires Open(bs, cur) && InScope(c, s) && DepthE(e) <= s.depth && OkE(e, Inside(c, s), s.deferred)
    requires Ready(bs, c)
    ensures Neat(bs, cur, LowerLoop(e, bs, cur, c, s).bs, Targets(c))
    decreases 2 * s.depth + 1, e, 3
  {
    hide Visible, Neat, LowerB, Link, OkB, DepthB, Bounded;
    var header, merge := |bs|, |bs| + 1;
    var d, inner := NewBlock(Fork(bs, cur)), EnterLoop(c, e.lbl, merge, header);
    EnterKeepsScope(c, s, e.lbl, merge, header);
    ForkIsReady(bs, cur, c);
    NewBlockAdds(Fork(bs, cur), header);
    AddsBounds(Fork(bs, cur), header, d, {});
    LoopTargets(c, e.lbl, merge, header);
    NeatB(e.body, d, header, inner, s);
    NeatAround(bs, cur, LowerB(e.body, d, header, inner, s), Targets(c));
  }

  /** The body of a `loop` between its header and its merge block. */
  lemma {:induction false} NeatAround(bs: Blocks, cur: nat, x: Out, targets: set<nat>)
    requires Bounded(bs) && cur < |bs| && forall t :: t in targets ==> t < |bs|
    requires var d := NewBlock(Fork(bs, cur));
      Grows(d, |bs|, x) && Neat(d, |bs|, x.bs, targets + {|bs| + 1, |bs|})
    ensures Neat(bs, cur, AddEdge(x.bs, x.cur, |bs|), targets)
  {
    hide Tame, Link;
    var f, header, merge := Fork(bs, cur), |bs|, |bs| + 1;
    var d, r := NewBlock(f), AddEdge(x.bs, x.cur, header);
    NewBlockAdds(f, header);
    NeatEdge(d, header, x.bs, x.cur, header, targets + {merge, header});
    AddsTrans(f, header, d, header, r, {}, targets + {merge, header}, targets + {header});
    MergeFirst(r, merge);
    NeatHeader(bs, cur, r, targets);
  }

  lemma {:induction false} NeatLeap(k: Option<nat>, breaks: bool, a: Out, c: Ctx, s: Scope)
    requires Open(a.bs, a.cur) && InScope(c, s) && Ready(a.bs, c)
    requires k.Some? ==> s.loopBase <= k.value < |c.loops|
    ensures Neat(a.bs, a.cur, LowerJump(k, breaks, a, c, s).bs, Targets(c))
    decreases 2 * s.depth, 2
  {
    hide Visible, Adds, Tame, Bounded;
    if k.None? {
      NeatBlock(a.bs, a.cur, Targets(c));
    } else {
      var frame := c.loops[k.value];
      UnwindOk(c.stack, s.base, frame.deferDepth, false, s.depth);
      NeatCleanup(UnwindBodies(c.stack, frame.deferDepth, false), a.bs, a.cur, c, s);
      NeatJump(
        a.bs, a.cur, Unwind(frame.deferDepth, false, a.bs, a.cur, c, s),
        if breaks then frame.breakTarget else frame.continueTarget, Targets(c));
    }
  }

  lemma {:induction false} NeatReturn(a: Out, c: Ctx, s: Scope)
    requires Open(a.bs, a.cur) && InScope(c, s) && !s.deferred && Ready(a.bs, c)
    ensures Neat(a.bs, a.cur, LowerReturn(a, c, s).bs, Targets(c))
    decreases 2 * s.depth, 2
  {
    hide Visible, Adds, Tame, Bounded;
    UnwindOk(c.stack, s.base, 0, true, s.depth);
    NeatCleanup(UnwindBodies(c.stack, 0, true), a.bs, a.cur, c, s);
    NeatJump(a.bs, a.cur, Unwind(0, true, a.bs, a.cur, c, s), c.exit, Targets(c));
  }

  lemma {:induction false} NeatQuestion(a: Out, c: Ctx, s: Scope)
    requires Open(a.bs, a.cur) && InScope(c, s) && !s.deferred && Ready(a.bs, c)
    ensures Neat(a.bs, a.cur, LowerQuestion(a, c, s).bs, Targets(c))
    decreases 2 * s.depth, 2
  {
    hide Visible, Adds, Tame, Bounded;
    UnwindOk(c.stack, s.base, 0, true, s.depth);
    NeatCleanup(UnwindBodies(c.stack, 0, true), a.bs, a.cur, c, s);
    var u := Unwind(0, true, a.bs, a.cur, c, s);
    var b := AddEdge(u.bs, u.cur, c.exit);
    NeatEdge(a.bs, a.cur, u.bs, u.cur, c.exit, Targets(c));
    NeatBounds(a.bs, a.cur, b, Targets(c));
    NeatNothing(Fork(b, a.cur), |b|, Targets(c));
    NeatFork(b, a.cur, Fork(b, a.cur), Targets(c));
    NeatSeq(a.bs, a.cur, b, a.cur, Fork(b, a.cur), Targets(c));
  }

  lemma {:induction false} NeatCleanup(bodies: seq<Block>, bs: Blocks, cur: nat, c: Ctx, s: Scope)
    requires Open(bs, cur) && InScope(c, s) && BodiesOk(bodies, s.depth) && Ready(bs, c)
    ensures Neat(bs, cur, LowerCleanup(bodies, bs, cur, c, s).bs, Targets(c))
    decreases 2 * s.depth, 0
  {
    hide Visible, Adds, Tame, Bounded;
    if bodies == [] {
      NeatNothing(bs, cur, Targets(c));
    } else {
      assert DepthB(bodies[0]) < s.depth;
      NeatBodies(bodies, bs, cur, c, BodyScope(c, s));
    }
  }

  lemma {:induction false} NeatBodies(bodies: seq<Block>, bs: Blocks, cur: nat, c: Ctx, s: Scope)
    requires Open(bs, cur) && s == Scope(|c.stack|, |c.loops|, true, s.depth) && BodiesOk(bodies, s.depth + 1)
    requires Ready(bs, c)
    ensures Neat(bs, cur, LowerBodies(bodies, bs, cur, c, s).bs, Targets(c))
    decreases 2 * s.depth + 1, bodies, 5
  {
    hide Adds, Tame, Bounded;
    if bodies == [] {
      NeatNothing(bs, cur, Targets(c));
    } else {
      BodyIsOk(bodies, c, s);
      ForkIsReady(bs, cur, c);
      var x := LowerB(bodies[0], Fork(bs, cur), |bs|, c, s);
      NeatB(bodies[0], Fork(bs, cur), |bs|, c, s);
      NeatFork(bs, cur, x.bs, Targets(c));
      NeatIsReady(bs, cur, x.bs, c);
      NeatBodies(bodies[1..], x.bs, x.cur, c, s);
      NeatSeq(bs, cur, x.bs, x.cur, LowerBodies(bodies, bs, cur, c, s).bs, Targets(c));
    }
  }

  lemma {:induction false} NeatB(b: Block, bs: Blocks, cur: nat, c: Ctx, s: Scope)
    requires Open(bs, cur) && InScope(c, s) && DepthB(b) <= s.depth && OkB(b, Inside(c, s), s.deferred)
    requires Ready(bs, c)
    ensures Neat(bs, cur, LowerB(b, bs, cur, c, s).bs, Targets(c))
    decreases 2 * s.depth + 1, b, 2
  {
    hide Visible, Bounded, Adds, Tame;
    PushKeepsScope(c, s);
    SameTargets(c, c.stack + [[]]);
    NeatStmts(b, bs, cur, c.(stack := c.stack + [[]]), s);
  }

  lemma {:induction false} NeatStmts(b: Block, bs: Blocks, cur: nat, c: Ctx, s: Scope)
    requires Open(bs, cur) && InScope(c, s) && DepthB(b) <= s.depth && OkB(b, Inside(c, s), s.deferred)
    requires s.base < |c.stack| && Ready(bs, c)
    ensures Neat(bs, cur, LowerStmts(b, bs, cur, c, s).bs, Targets(c))
    decreases 2 * s.depth + 1, b, 1
  {
    hide Visible, Adds, Tame, Bounded, LowerS, LowerE, OkE, DepthE;
    match b
    case End(e) =>
      var a := LowerE(e, bs, cur, c, s);
      TopIsOk(c, s);
      NeatE(e, bs, cur, c, s);
      NeatIsReady(bs, cur, a.bs, c);
      NeatCleanup(CleanupBodies(c.stack[|c.stack| - 1], false), a.bs, a.cur, c, s);
      NeatSeq(bs, cur, a.bs, a.cur, LowerStmts(b, bs, cur, c, s).bs, Targets(c));
    case Then(st, rest) =>
      assert DepthS(st) <= s.depth && OkS(st, Inside(c, s), s.deferred);
      match st
      case Uninit =>
        NeatStmts(rest, bs, cur, c, s);
      case Defer(body) =>
        NeatRegistered(rest, DeferItem(PlainDefer, body), bs, cur, c, s);
      case ErrDefer(body) =>
        NeatRegistered(rest, DeferItem(ErrorDefer, body), bs, cur, c, s);
      case _ =>
        var a := LowerS(st, bs, cur, c, s);
        NeatS(st, bs, cur, c, s);
        NeatIsReady(bs, cur, a.bs, c);
        NeatStmts(rest, a.bs, a.cur, c, s);
        NeatSeq(bs, cur, a.bs, a.cur, LowerStmts(b, bs, cur, c, s).bs, Targets(c));
  }

  lemma {:induction false} NeatRegistered(rest: Block, item: DeferItem, bs: Blocks, cur: nat, c: Ctx, s: Scope)
    requires Open(bs, cur) && InScope(c, s) && DepthB(rest) <= s.depth && OkB(rest, Inside(c, s), s.deferred)
    requires s.base < |c.stack| && Ready(bs, c) && ItemOk(item, s.depth)
    ensures InScope(Register(c, item), s)
    ensures Neat(bs, cur, LowerStmts(rest, bs, cur, Register(c, item), s).bs, Targets(c))
    decreases 2 * s.depth + 1, rest, 3
  {
    hide Adds, Tame, Bounded;
    RegisterKeepsScope(c, s, item);
    SameTargets(c, Register(c, item).stack);
    NeatStmts(rest, bs, cur, Register(c, item), s);
  }

  lemma {:induction false} NeatS(st: Stmt, bs: Blocks, cur: nat, c: Ctx, s: Scope)
    requires Open(bs, cur) && InScope(c, s) && DepthS(st) <= s.depth && OkS(st, Inside(c, s), s.deferred)
    requires Ready(bs, c)
    ensures Neat(bs, cur, LowerS(st, bs, cur, c, s).bs, Targets(c))
    decreases 2 * s.depth + 1, st, 0
  {
    hide Visible, Bounded, Adds, Tame;
    match st
    case Eval(e) =>
      NeatE(e, bs, cur, c, s);
    case Assign(target, value) =>
      var a := LowerE(value, bs, cur, c, s);
      NeatE(value, bs, cur, c, s);
      NeatIsReady(bs, cur, a.bs, c);
      NeatE(target, a.bs, a.cur, c, s);
      NeatSeq(bs, cur, a.bs, a.cur, LowerS(st, bs, cur, c, s).bs, Targets(c));
    case _ =>
      NeatNothing(bs, cur, Targets(c));
  }

  // ---------- the main result ----------

  /** A path into a guarded range goes through the guard. */
  lemma {:induction false} EntersThroughGuard(cfg: Cfg, h: nat, k: nat, p: seq<nat>, x: nat)
    requires Guards(cfg.blocks, h, k) && PathFromTo(Flow(cfg), cfg.entry, p, x) && cfg.entry < h <= x < k
    ensures h in p
    decreases |p|
  {
    if x != h {
      assert |p| > 1;
      PathSplit(Flow(cfg), cfg.entry, p, x);
      assert Link(cfg.blocks, p[|p| - 2], x);
      EntersThroughGuard(cfg, h, k, p[..|p| - 1], p[|p| - 2]);
      assert h in p[..|p| - 1];
    }
  }

  lemma {:induction false} BuiltIsTame(body: Block)
    requires OkB(body, [], false)
    ensures
      var g := Built(body).blocks;
      Tame(g, 2, |g|) && Bounded(g) && |g| >= 2 && g[1].successors == [] && forall x: nat :: !Link(g, x, 0)
  {
    hide Neat, Link;
    assert Inside(TOP, TopScope(body)) == [];
    assert Targets(TOP) == {1};
    StartIsReady();
    NeatB(body, Start(), 0, TOP, TopScope(body));
    Closing(Body(body));
  }

  lemma StartIsReady()
    ensures Open(Start(), 0) && Ready(Start(), TOP) && InScope(TOP, Scope(0, 0, false, 0))
  {
    assert Start()[0].successors == [] && Start()[1].successors == [];
  }

  /** The edge to the exit that closes the graph. */
  lemma {:induction false} Closing(o: Out)
    requires Grows(Start(), 0, o) && Neat(Start(), 0, o.bs, {1})
    ensures
      var g := AddEdge(o.bs, o.cur, 1);
      Tame(g, 2, |g|) && Bounded(g) && |g| >= 2 && g[1].successors == [] && forall x: nat :: !Link(g, x, 0)
  {
    hide Tame;
    var g := AddEdge(o.bs, o.cur, 1);
    assert forall x: nat, y: nat :: !Link(Start(), x, y);
    assert forall x: nat, y: nat :: Link(g, x, y) ==> Link(o.bs, x, y) || y == 1;
    Frame(o.bs, g, 2, |g|);
    assert o.bs[1] == Start()[1];
  }

  lemma {:induction false} CycleIsRound(cfg: Cfg, p: seq<nat>, u: nat)
    requires PathFromTo(Flow(cfg), u, p, u) && |p| > 1 && Bounded(cfg.blocks)
    requires 2 <= |cfg.blocks| && cfg.blocks[1].successors == [] && forall x: nat :: !Link(cfg.blocks, x, 0)
    ensures Round(cfg.blocks, p, 2, |cfg.blocks|)
  {
    var g := cfg.blocks;
    forall i | 0 <= i < |p| - 1 ensures Link(g, p[i], p[i + 1]) {
      assert Edge(Flow(cfg), p[i], p[i + 1]);
    }
    forall i | 0 <= i < |p| ensures 2 <= p[i] < |g| {
      var before, after := if i == 0 then |p| - 2 else i - 1, if i == |p| - 1 then 1 else i + 1;
      assert Link(g, p[before], p[before + 1]) && p[before + 1] == p[i];
      assert Link(g, p[after - 1], p[after]) && p[after - 1] == p[i];
    }
  }

  /** The graph is reducible: every cycle has a block that dominates all blocks of the cycle. */
  lemma {:induction false} CyclesHaveHeaders(body: Block, p: seq<nat>, u: nat) returns (h: nat)
    requires OkB(body, [], false)
    requires PathFromTo(Flow(Built(body)), u, p, u) && |p| > 1
    ensures h in p && forall x :: x in p ==> Dominates(Built(body), h, x)
  {
    hide LowerB, Guards;
    var cfg := Built(body);
    BuiltIsTame(body);
    CycleIsRound(cfg, p, u);
    var m: nat, k: nat :| 2 <= m < k <= |cfg.blocks| && HeadedBy(cfg.blocks, p, m, k);
    h := m;
    forall x, q | x in p && PathFromTo(Flow(cfg), cfg.entry, q, x) ensures h in q {
      EntersThroughGuard(cfg, h, k, q, x);
    }
  }
}
