/** Walks through a block graph, and what a lowered fragment looks like inside the finished graph. */
module CfgWalks {
  import opened CfgRuns
  import opened CfgLowering

  /** Before the `i`-th use of block `b`, or at its end. */
  datatype Point = Point(b: nat, i: nat)

  /** `n` steps from `p` to `q`: a step reads the next use, or follows an edge at the end of a block. */
  ghost predicate Walk(g: Blocks, p: Point, t: Trace, q: Point, n: nat)
    decreases n, 1
  {
    if n == 0 then p == q && t == []
    else p.b < |g| && (ReadStep(g, p, t, q, n) || JumpStep(g, p, t, q, n))
  }

  ghost predicate ReadStep(g: Blocks, p: Point, t: Trace, q: Point, n: nat)
    requires n > 0 && p.b < |g|
    decreases n, 0
  {
    p.i < |g[p.b].uses| && t != [] && t[0] == g[p.b].uses[p.i] && Walk(g, Point(p.b, p.i + 1), t[1..], q, n - 1)
  }

  ghost predicate JumpStep(g: Blocks, p: Point, t: Trace, q: Point, n: nat)
    requires n > 0 && p.b < |g|
    decreases n, 0
  {
    p.i == |g[p.b].uses| && exists s :: s in g[p.b].successors && Walk(g, Point(s, 0), t, q, n - 1)
  }

  ghost predicate Connects(g: Blocks, p: Point, t: Trace, q: Point) {
    exists n :: Walk(g, p, t, q, n)
  }

  lemma {:induction false} WalkTrans(g: Blocks, p: Point, t: Trace, q: Point, n: nat, u: Trace, r: Point, m: nat)
    requires Walk(g, p, t, q, n) && Walk(g, q, u, r, m)
    ensures Walk(g, p, t + u, r, n + m)
    decreases n
  {
    if n == 0 {
      assert t + u == u;
    } else if ReadStep(g, p, t, q, n) {
      WalkTrans(g, Point(p.b, p.i + 1), t[1..], q, n - 1, u, r, m);
      assert (t + u)[1..] == t[1..] + u;
      assert ReadStep(g, p, t + u, r, n + m);
    } else {
      var s :| s in g[p.b].successors && Walk(g, Point(s, 0), t, q, n - 1);
      WalkTrans(g, Point(s, 0), t, q, n - 1, u, r, m);
      assert JumpStep(g, p, t + u, r, n + m);
    }
  }

  lemma ConnectsTrans(g: Blocks, p: Point, t: Trace, q: Point, u: Trace, r: Point)
    requires Connects(g, p, t, q) && Connects(g, q, u, r)
    ensures Connects(g, p, t + u, r)
  {
    hide Walk;
    var n :| Walk(g, p, t, q, n);
    var m :| Walk(g, q, u, r, m);
    WalkTrans(g, p, t, q, n, u, r, m);
  }

  lemma ConnectsSelf(g: Blocks, p: Point)
    ensures Connects(g, p, [], p)
  {
    assert Walk(g, p, [], p, 0);
  }

  lemma ConnectsRead(g: Blocks, p: Point)
    requires p.b < |g| && p.i < |g[p.b].uses|
    ensures Connects(g, p, [g[p.b].uses[p.i]], Point(p.b, p.i + 1))
  {
    var q := Point(p.b, p.i + 1);
    assert Walk(g, q, [], q, 0);
    assert ReadStep(g, p, [g[p.b].uses[p.i]], q, 1);
    assert Walk(g, p, [g[p.b].uses[p.i]], q, 1);
  }

  lemma ConnectsJump(g: Blocks, p: Point, s: nat)
    requires p.b < |g| && p.i == |g[p.b].uses| && s in g[p.b].successors
    ensures Connects(g, p, [], Point(s, 0))
  {
    assert Walk(g, Point(s, 0), [], Point(s, 0), 0);
    assert JumpStep(g, p, [], Point(s, 0), 1);
    assert Walk(g, p, [], Point(s, 0), 1);
  }

  /** Leaving the end of a block: some edge is taken. */
  lemma TakeJump(g: Blocks, p: Point, t: Trace, q: Point, n: nat) returns (s: nat)
    requires Walk(g, p, t, q, n) && p != q && p.b < |g| && p.i == |g[p.b].uses|
    ensures n > 0 && s in g[p.b].successors && Walk(g, Point(s, 0), t, q, n - 1)
  {
    s :| s in g[p.b].successors && Walk(g, Point(s, 0), t, q, n - 1);
  }

  /** Before a use: it is read. */
  lemma TakeRead(g: Blocks, p: Point, t: Trace, q: Point, n: nat)
    requires Walk(g, p, t, q, n) && p != q && p.b < |g| && p.i < |g[p.b].uses|
    ensures n > 0 && t != [] && t[0] == g[p.b].uses[p.i] && Walk(g, Point(p.b, p.i + 1), t[1..], q, n - 1)
  {
  }

  // ---------- fragments of the finished graph ----------

  function Here(bs: Blocks, cur: nat): Point
    requires cur < |bs|
  {
    Point(cur, |bs[cur].uses|)
  }

  /** The blocks a fragment owns: the one it starts in and those it adds. */
  predicate Owns(bs: Blocks, cur: nat, o: Out, b: nat) {
    b == cur || |bs| <= b < |o.bs|
  }

  /**
    The finished graph has the fragment's blocks as lowering left them; the block where control continues may still
    grow.
   */
  ghost predicate Kept(g: Blocks, bs: Blocks, cur: nat, o: Out) {
    && |o.bs| <= |g| && cur < |o.bs| && o.cur < |o.bs|
    && (forall b :: 0 <= b < |o.bs| && Owns(bs, cur, o, b) && b != o.cur ==> g[b] == o.bs[b])
    && o.bs[o.cur].uses <= g[o.cur].uses
  }

  /** In the finished graph, control leaves the end of the fragment exactly to `targets`. */
  ghost predicate Leaves(g: Blocks, a: Out, targets: set<nat>) {
    && a.cur < |a.bs| && a.cur < |g|
    && g[a.cur].uses == a.bs[a.cur].uses
    && forall s :: s in g[a.cur].successors <==> s in targets
  }

  /**
    The header of a loop: with `ends`, an empty block that forks to the body and past the loop; without, the body
    itself.
   */
  ghost predicate HeaderLeads(g: Blocks, header: nat, entry: nat, merge: nat, ends: bool) {
    && header < |g|
    && if ends then g[header].uses == [] && forall s :: s in g[header].successors <==> s == entry || s == merge
       else entry == header
  }

  lemma TakeEdge(g: Blocks, a: Out, targets: set<nat>, t: Trace, q: Point, n: nat) returns (next: nat)
    requires Leaves(g, a, targets) && q.b != a.cur && Walk(g, Here(a.bs, a.cur), t, q, n)
    ensures n > 0 && next in targets && Walk(g, Point(next, 0), t, q, n - 1)
  {
    hide Walk;
    next := TakeJump(g, Here(a.bs, a.cur), t, q, n);
  }

  lemma KeptSeq(g: Blocks, bs: Blocks, cur: nat, a: Out, o: Out)
    requires Grows(bs, cur, a) && Grows(a.bs, a.cur, o) && Kept(g, bs, cur, o)
    ensures Kept(g, bs, cur, a) && Kept(g, a.bs, a.cur, o)
  {
  }

  /** A part of a larger fragment `f`, later steps of which leave the part's blocks alone. */
  lemma KeptPart(g: Blocks, bs: Blocks, cur: nat, f: Out, bs1: Blocks, cur1: nat, a: Out)
    requires Kept(g, bs, cur, f) && Grows(bs1, cur1, a)
    requires |bs| <= |bs1| && |a.bs| <= |f.bs| && (cur1 == cur || |bs| <= cur1)
    requires forall b :: 0 <= b < |a.bs| && Owns(bs1, cur1, a, b) ==> b != f.cur
    requires forall b :: 0 <= b < |a.bs| && Owns(bs1, cur1, a, b) && b != a.cur ==> f.bs[b] == a.bs[b]
    requires f.bs[a.cur].uses == a.bs[a.cur].uses
    ensures Kept(g, bs1, cur1, a)
    ensures forall s :: s in g[a.cur].successors <==> s in f.bs[a.cur].successors
    ensures g[a.cur].uses == a.bs[a.cur].uses
  {
    assert Owns(bs1, cur1, a, a.cur);
    assert Owns(bs, cur, f, a.cur);
    forall b | 0 <= b < |a.bs| && Owns(bs1, cur1, a, b) && b != a.cur ensures g[b] == a.bs[b] {
      assert Owns(bs, cur, f, b);
    }
  }

  // ---------- shapes ----------
  //
  // Each lemma takes the pieces of one construct as lowering puts them together, and says what
  // the finished graph looks like around them.

  lemma ForkOpens(bs: Blocks, from: nat)
    requires from < |bs|
    ensures Open(Fork(bs, from), |bs|) && Here(Fork(bs, from), |bs|) == Point(|bs|, 0)
    ensures Fork(bs, from)[from].uses == bs[from].uses
    ensures forall b :: 0 <= b < |bs| && b != from ==> Fork(bs, from)[b] == bs[b]
  {
  }

  /** A second edge elsewhere leaves a fresh block open. */
  lemma ForksOpen(bs: Blocks, from: nat)
    requires from < |bs|
    ensures Open(Fork(Fork(bs, from), from), |bs|)
  {
  }

  lemma IfOnlyShape(g: Blocks, bs: Blocks, cur: nat, t: Out)
    requires Open(bs, cur) && Grows(Fork(bs, cur), |bs|, t)
    requires Kept(g, bs, cur, Out(AddEdge(Fork(t.bs, t.cur), cur, |t.bs|), |t.bs|))
    ensures Leaves(g, Out(bs, cur), {|bs|, |t.bs|})
    ensures Kept(g, Fork(bs, cur), |bs|, t) && Leaves(g, t, {|t.bs|})
  {
    var o := Out(AddEdge(Fork(t.bs, t.cur), cur, |t.bs|), |t.bs|);
    assert Owns(bs, cur, o, cur);
    KeptPart(g, bs, cur, o, Fork(bs, cur), |bs|, t);
  }

  lemma IfElseShape(g: Blocks, bs: Blocks, cur: nat, t: Out, x: Out)
    requires Open(bs, cur) && Grows(Fork(bs, cur), |bs|, t)
    requires var b := Fork(t.bs, t.cur); Grows(Fork(b, cur), |b|, x)
    requires Kept(g, bs, cur, Out(AddEdge(x.bs, x.cur, |t.bs|), |t.bs|))
    ensures var b := Fork(t.bs, t.cur);
      && Leaves(g, Out(bs, cur), {|bs|, |b|})
      && Kept(g, Fork(bs, cur), |bs|, t) && Leaves(g, t, {|t.bs|})
      && Kept(g, Fork(b, cur), |b|, x) && Leaves(g, x, {|t.bs|})
    ensures Here(AddEdge(x.bs, x.cur, |t.bs|), |t.bs|) == Point(|t.bs|, 0)
  {
    var o := Out(AddEdge(x.bs, x.cur, |t.bs|), |t.bs|);
    var b := Fork(t.bs, t.cur);
    assert Owns(bs, cur, o, cur);
    KeptPart(g, bs, cur, o, Fork(bs, cur), |bs|, t);
    KeptPart(g, bs, cur, o, Fork(b, cur), |b|, x);
  }

  lemma WhileShape(g: Blocks, header: nat, bs: Blocks, cur: nat, x: Out)
    requires Open(bs, cur) && header < |bs| && Grows(Fork(Fork(bs, cur), cur), |bs|, x)
    requires Kept(g, bs, cur, Out(AddEdge(x.bs, x.cur, header), |bs| + 1))
    ensures Leaves(g, Out(bs, cur), {|bs|, |bs| + 1})
    ensures Kept(g, Fork(Fork(bs, cur), cur), |bs|, x) && Leaves(g, x, {header})
    ensures Here(AddEdge(x.bs, x.cur, header), |bs| + 1) == Point(|bs| + 1, 0)
  {
    var o := Out(AddEdge(x.bs, x.cur, header), |bs| + 1);
    KeptPart(g, bs, cur, o, Fork(Fork(bs, cur), cur), |bs|, x);
    assert Owns(bs, cur, o, cur);
  }

  lemma ForShape(g: Blocks, bs: Blocks, cur: nat, x: Out)
    requires Open(bs, cur)
    requires Grows(Fork(Fork(Fork(bs, cur), |bs|), |bs|), |bs| + 1, x)
    requires Kept(g, bs, cur, Out(AddEdge(x.bs, x.cur, |bs|), |bs| + 2))
    ensures Leaves(g, Out(bs, cur), {|bs|}) && HeaderLeads(g, |bs|, |bs| + 1, |bs| + 2, true)
    ensures Kept(g, Fork(Fork(Fork(bs, cur), |bs|), |bs|), |bs| + 1, x) && Leaves(g, x, {|bs|})
    ensures Here(AddEdge(x.bs, x.cur, |bs|), |bs| + 2) == Point(|bs| + 2, 0)
  {
    var o := Out(AddEdge(x.bs, x.cur, |bs|), |bs| + 2);
    KeptPart(g, bs, cur, o, Fork(Fork(Fork(bs, cur), |bs|), |bs|), |bs| + 1, x);
    assert Owns(bs, cur, o, cur) && Owns(bs, cur, o, |bs|);
  }

  lemma LoopShape(g: Blocks, bs: Blocks, cur: nat, x: Out)
    requires Open(bs, cur) && Grows(NewBlock(Fork(bs, cur)), |bs|, x)
    requires Kept(g, bs, cur, Out(AddEdge(x.bs, x.cur, |bs|), |bs| + 1))
    ensures Leaves(g, Out(bs, cur), {|bs|})
    ensures Kept(g, NewBlock(Fork(bs, cur)), |bs|, x) && Leaves(g, x, {|bs|})
    ensures Here(AddEdge(x.bs, x.cur, |bs|), |bs| + 1) == Point(|bs| + 1, 0)
  {
    var o := Out(AddEdge(x.bs, x.cur, |bs|), |bs| + 1);
    KeptPart(g, bs, cur, o, NewBlock(Fork(bs, cur)), |bs|, x);
    assert Owns(bs, cur, o, cur);
  }

  /** Control jumps away and lowering goes on in a block of its own. */
  lemma JumpShape(g: Blocks, bs: Blocks, cur: nat, u: Out, target: nat)
    requires Grows(bs, cur, u)
    requires Kept(g, bs, cur, Out(NewBlock(AddEdge(u.bs, u.cur, target)), |u.bs|))
    ensures Kept(g, bs, cur, u) && Leaves(g, u, {target})
  {
    KeptPart(g, bs, cur, Out(NewBlock(AddEdge(u.bs, u.cur, target)), |u.bs|), bs, cur, u);
  }

  lemma DeadShape(g: Blocks, a: Out)
    requires Open(a.bs, a.cur) && Kept(g, a.bs, a.cur, Out(NewBlock(a.bs), |a.bs|))
    ensures Leaves(g, a, {})
  {
    assert Owns(a.bs, a.cur, Out(NewBlock(a.bs), |a.bs|), a.cur);
  }

  /** The error edge of `?` with cleanup on it: the operand's block forks to the cleanup and to the rest. */
  lemma QuestionShape(g: Blocks, a: Out, entry: nat, x: Out, u: Out, exit: nat)
    requires Open(a.bs, a.cur) && entry == |a.bs| && Grows(Fork(a.bs, a.cur), entry, x) && Grows(x.bs, x.cur, u)
    requires Kept(g, a.bs, a.cur, Out(Fork(AddEdge(u.bs, u.cur, exit), a.cur), |u.bs|))
    ensures Leaves(g, a, {entry, |u.bs|})
    ensures Kept(g, Fork(a.bs, a.cur), entry, x) && Kept(g, x.bs, x.cur, u) && Leaves(g, u, {exit})
  {
    var o := Out(Fork(AddEdge(u.bs, u.cur, exit), a.cur), |u.bs|);
    var xu := Out(u.bs, u.cur);
    assert Grows(Fork(a.bs, a.cur), entry, u);
    KeptPart(g, a.bs, a.cur, o, Fork(a.bs, a.cur), entry, u);
    KeptSeq(g, Fork(a.bs, a.cur), entry, x, u);
    assert Owns(a.bs, a.cur, o, a.cur);
  }

  /** The error edge of `?` without cleanup: straight to the function exit. */
  lemma QuestionBareShape(g: Blocks, a: Out, exit: nat)
    requires Open(a.bs, a.cur)
    requires Kept(g, a.bs, a.cur, Out(Fork(AddEdge(a.bs, a.cur, exit), a.cur), |a.bs|))
    ensures Leaves(g, a, {exit, |a.bs|})
  {
    assert Owns(a.bs, a.cur, Out(Fork(AddEdge(a.bs, a.cur, exit), a.cur), |a.bs|), a.cur);
  }

  /** A deferred body in its fresh block, before the ones still to come. */
  lemma BodyShape(g: Blocks, bs: Blocks, cur: nat, x: Out, o: Out)
    requires Open(bs, cur) && Grows(Fork(bs, cur), |bs|, x) && Grows(x.bs, x.cur, o) && Kept(g, bs, cur, o)
    ensures Leaves(g, Out(bs, cur), {|bs|})
    ensures Kept(g, Fork(bs, cur), |bs|, x) && Kept(g, x.bs, x.cur, o)
  {
    assert Grows(Fork(bs, cur), |bs|, o);
    assert Kept(g, Fork(bs, cur), |bs|, o) by {
      forall b | 0 <= b < |o.bs| && Owns(Fork(bs, cur), |bs|, o, b) && b != o.cur ensures g[b] == o.bs[b] {
        assert Owns(bs, cur, o, b);
      }
    }
    KeptSeq(g, Fork(bs, cur), |bs|, x, o);
    assert Owns(bs, cur, o, cur);
  }

  /** The blocks added for a list of arms, as lowering left them. */
  ghost predicate KeptArms(g: Blocks, bs: Blocks, r: Blocks) {
    |bs| <= |r| <= |g| && forall b :: |bs| <= b < |r| ==> g[b] == r[b]
  }

  lemma ArmShape(g: Blocks, bs: Blocks, from: nat, merge: nat, x: Out, r: Blocks)
    requires from < |bs| && merge < |bs| && Grows(Fork(bs, from), |bs|, x)
    requires KeptArms(g, bs, r) && |x.bs| <= |r|
    requires forall b :: 0 <= b < |x.bs| && b != from ==> r[b] == AddEdge(x.bs, x.cur, merge)[b]
    ensures Kept(g, Fork(bs, from), |bs|, x) && Leaves(g, x, {merge})
    ensures KeptArms(g, AddEdge(x.bs, x.cur, merge), r)
    ensures forall s :: s in AddEdge(x.bs, x.cur, merge)[from].successors <==> s in bs[from].successors || s == |bs|
  {
  }

  lemma MatchShape(g: Blocks, bs: Blocks, cur: nat, r: Blocks)
    requires Open(bs, cur) && |bs| < |r| && Kept(g, bs, cur, Out(r, |bs|))
    requires r[cur].uses == bs[cur].uses
    requires forall b :: 0 <= b <= |bs| && b != cur ==> r[b] == NewBlock(bs)[b]
    ensures KeptArms(g, NewBlock(bs), r)
    ensures g[cur].uses == bs[cur].uses
    ensures forall s :: s in g[cur].successors <==> s in r[cur].successors
    ensures Here(r, |bs|) == Point(|bs|, 0)
  {
    assert Owns(bs, cur, Out(r, |bs|), cur);
    forall b | |NewBlock(bs)| <= b < |r| ensures g[b] == r[b] {
      assert Owns(bs, cur, Out(r, |bs|), b);
    }
  }
}
