/** The lowering of function bodies to basic blocks, as functions of the block list. */
module CfgLowering {
  import opened Basics
  import opened Cfgs
  import opened CfgSyntax

  type Blocks = seq<BasicBlock>

  datatype LoopFrame = LoopFrame(lbl: Label, breakTarget: nat, continueTarget: nat, deferDepth: nat)

  /** Where exits go: the function exit, the enclosing loops and the cleanup of the enclosing scopes. */
  datatype Ctx = Ctx(exit: nat, loops: seq<LoopFrame>, stack: seq<DeferFrame>)

  /**
    The part of the context the code being lowered may leave: when inside a deferred body, only the scopes from
    `base` and the loops from `loopBase` on. Visible deferred bodies nest less than `depth` deep.
   */
  datatype Scope = Scope(base: nat, loopBase: nat, deferred: bool, depth: nat)

  /** The block list and the block where control continues. */
  datatype Out = Out(bs: Blocks, cur: nat)

  // ---------- block list operations ----------

  function NewBlock(bs: Blocks): Blocks {
    bs + [BasicBlock(|bs|, [], [])]
  }

  function AddEdge(bs: Blocks, from: nat, to: nat): (r: Blocks)
    requires from < |bs|
    ensures |r| == |bs|
  {
    if to in bs[from].successors then bs
    else bs[from := bs[from].(successors := bs[from].successors + [to])]
  }

  /** A fresh block reached from `from`. */
  function Fork(bs: Blocks, from: nat): (r: Blocks)
    requires from < |bs|
    ensures |r| == |bs| + 1
  {
    AddEdge(NewBlock(bs), from, |bs|)
  }

  function RecordUse(bs: Blocks, block: nat, site: UseSite): Blocks
    requires block < |bs|
  {
    bs[block := bs[block].(uses := bs[block].uses + [site])]
  }

  /** A block operation changes one block or adds one; no edge and no use is lost, and no edge is doubled. */
  lemma BlockOperations(bs: Blocks, b: nat, to: nat, site: UseSite)
    requires b < |bs|
    ensures NewBlock(bs)[..|bs|] == bs && NewBlock(bs)[|bs|..] == [BasicBlock(|bs|, [], [])]
    ensures forall i :: 0 <= i < |bs| && i != b ==> AddEdge(bs, b, to)[i] == bs[i] == RecordUse(bs, b, site)[i]
    ensures AddEdge(bs, b, to)[b].uses == bs[b].uses && RecordUse(bs, b, site)[b].successors == bs[b].successors
    ensures bs[b].successors <= AddEdge(bs, b, to)[b].successors && to in AddEdge(bs, b, to)[b].successors
    ensures forall x :: x in AddEdge(bs, b, to)[b].successors ==> x in bs[b].successors || x == to
    ensures Distinct(bs[b].successors) ==> Distinct(AddEdge(bs, b, to)[b].successors)
    ensures RecordUse(bs, b, site)[b].uses == bs[b].uses + [site]
  {
  }

  // ---------- contexts ----------

  function Labels(loops: seq<LoopFrame>): (ls: seq<Label>)
    ensures |ls| == |loops| && forall i :: 0 <= i < |ls| ==> ls[i] == loops[i].lbl
  {
    seq(|loops|, i requires 0 <= i < |loops| => loops[i].lbl)
  }

  ghost predicate ItemOk(item: DeferItem, depth: nat) {
    DepthB(item.body) < depth && OkB(item.body, [], true)
  }

  ghost predicate Visible(stack: seq<DeferFrame>, base: nat, depth: nat) {
    forall i, k :: base <= i < |stack| && 0 <= k < |stack[i]| ==> ItemOk(stack[i][k], depth)
  }

  ghost predicate InScope(c: Ctx, s: Scope) {
    && s.base <= |c.stack| && s.loopBase <= |c.loops|
    && (!s.deferred ==> s.base == 0 && s.loopBase == 0)
    && (forall k :: s.loopBase <= k < |c.loops| ==> s.base <= c.loops[k].deferDepth <= |c.stack|)
    && Visible(c.stack, s.base, s.depth)
  }

  /** The labels of the loops the code may leave. */
  ghost function Inside(c: Ctx, s: Scope): seq<Label>
    requires s.loopBase <= |c.loops|
  {
    Labels(c.loops[s.loopBase..])
  }

  /** The scope of a deferred body lowered in context `c`: it leaves nothing outside itself. */
  ghost function BodyScope(c: Ctx, s: Scope): Scope
    requires 0 < s.depth
  {
    Scope(|c.stack|, |c.loops|, true, s.depth - 1)
  }

  ghost predicate BodiesOk(bodies: seq<Block>, depth: nat) {
    forall i :: 0 <= i < |bodies| ==> DepthB(bodies[i]) < depth && OkB(bodies[i], [], true)
  }

  lemma {:induction false} BodiesOfOk(items: DeferFrame, kind: DeferKind, depth: nat)
    requires forall k :: 0 <= k < |items| ==> ItemOk(items[k], depth)
    ensures BodiesOk(BodiesOf(items, kind), depth)
  {
    if items != [] {
      BodiesOfOk(items[..|items| - 1], kind, depth);
    }
  }

  lemma CleanupOk(items: DeferFrame, error: bool, depth: nat)
    requires forall k :: 0 <= k < |items| ==> ItemOk(items[k], depth)
    ensures BodiesOk(CleanupBodies(items, error), depth)
  {
    BodiesOfOk(items, ErrorDefer, depth);
    BodiesOfOk(items, PlainDefer, depth);
  }

  lemma {:induction false} UnwindOk(stack: seq<DeferFrame>, base: nat, target: nat, error: bool, depth: nat)
    requires Visible(stack, base, depth) && base <= target
    ensures BodiesOk(UnwindBodies(stack, target, error), depth)
  {
    if target < |stack| {
      CleanupOk(stack[|stack| - 1], error, depth);
      UnwindOk(stack[..|stack| - 1], base, target, error, depth);
    }
  }

  /** A label that resolves inside resolves to the same loop in the whole context. */
  lemma {:induction false} ResolveInside(outer: seq<Label>, inside: seq<Label>, l: Label)
    ensures Resolve(inside, l).Some? ==> Resolve(outer + inside, l) == Some(|outer| + Resolve(inside, l).value)
    ensures outer == [] ==> Resolve(outer + inside, l) == Resolve(inside, l)
  {
    if inside == [] {
    } else {
      var front := inside[..|inside| - 1];
      assert (outer + inside)[..|outer + inside| - 1] == outer + front;
      ResolveInside(outer, front, l);
    }
    if outer == [] {
      assert outer + inside == inside;
    }
  }

  // ---------- lowering ----------

  /** What lowering a piece of code does to the blocks: it continues `cur` and adds blocks. */
  ghost predicate Grows(bs: Blocks, cur: nat, o: Out) {
    && cur < |bs| <= |o.bs| && o.cur < |o.bs|
    && (o.cur == cur || |bs| <= o.cur)
    && o.bs[o.cur].successors == []
    && bs[cur].uses <= o.bs[cur].uses
    && forall b :: 0 <= b < |bs| && b != cur ==> o.bs[b] == bs[b]
  }

  ghost predicate Open(bs: Blocks, cur: nat) {
    cur < |bs| && bs[cur].successors == []
  }

  ghost function LowerE(e: Expr, bs: Blocks, cur: nat, c: Ctx, s: Scope): (o: Out)
    requires Open(bs, cur) && InScope(c, s) && DepthE(e) <= s.depth && OkE(e, Inside(c, s), s.deferred)
    ensures Grows(bs, cur, o)
    decreases 2 * s.depth + 1, e, 4
  {
    match e
    case Leaf => Out(bs, cur)
    case Use(site) => Out(RecordUse(bs, cur, site), cur)
    case Operands(items) => LowerXs(items, bs, cur, c, s)
    case BlockExpr(body) => LowerB(body, bs, cur, c, s)
    case If(_, _, _) => LowerIf(e, bs, cur, c, s)
    case Match(_, _) => LowerMatch(e, bs, cur, c, s)
    case While(_, _, _) => LowerWhile(e, bs, cur, c, s)
    case For(_, _, _) => LowerFor(e, bs, cur, c, s)
    case Loop(_, _) => LowerLoop(e, bs, cur, c, s)
    case Break(_, _) => LowerBreak(e, bs, cur, c, s)
    case Continue(_) => LowerContinue(e, bs, cur, c, s)
    case Return(v) => LowerReturn(LowerE(v, bs, cur, c, s), c, s)
    case Question(v) => LowerQuestion(LowerE(v, bs, cur, c, s), c, s)
  }

  ghost function LowerBreak(e: Expr, bs: Blocks, cur: nat, c: Ctx, s: Scope): (o: Out)
    requires e.Break?
    requires Open(bs, cur) && InScope(c, s) && DepthE(e) <= s.depth && OkE(e, Inside(c, s), s.deferred)
    ensures Grows(bs, cur, o)
    decreases 2 * s.depth + 1, e, 3
  {
    var a := LowerE(e.value, bs, cur, c, s);
    ResolveInScope(c, s, e.lbl);
    LowerJump(Resolve(Labels(c.loops), e.lbl), true, a, c, s)
  }

  ghost function LowerContinue(e: Expr, bs: Blocks, cur: nat, c: Ctx, s: Scope): (o: Out)
    requires e.Continue?
    requires Open(bs, cur) && InScope(c, s) && OkE(e, Inside(c, s), s.deferred)
    ensures Grows(bs, cur, o)
    decreases 2 * s.depth + 1, e, 3
  {
    ResolveInScope(c, s, e.lbl);
    LowerJump(Resolve(Labels(c.loops), e.lbl), false, Out(bs, cur), c, s)
  }

  ghost function LowerIf(e: Expr, bs: Blocks, cur: nat, c: Ctx, s: Scope): (o: Out)
    requires e.If?
    requires Open(bs, cur) && InScope(c, s) && DepthE(e) <= s.depth && OkE(e, Inside(c, s), s.deferred)
    ensures Grows(bs, cur, o)
    decreases 2 * s.depth + 1, e, 3
  {
    var a := LowerE(e.cond, bs, cur, c, s);
    LowerIfRest(e, a.bs, a.cur, c, s)
  }

  /** What the branches of an `if` need. */
  ghost predicate BranchesOk(e: Expr, c: Ctx, s: Scope)
    requires e.If? && InScope(c, s)
  {
    && DepthB(e.thn) <= s.depth && OkB(e.thn, Inside(c, s), s.deferred)
    && (e.els.Some? ==> DepthE(e.els.value) <= s.depth && OkE(e.els.value, Inside(c, s), s.deferred))
  }

  /** An `if`, after its condition. */
  ghost function LowerIfRest(e: Expr, bs: Blocks, cur: nat, c: Ctx, s: Scope): (o: Out)
    requires e.If?
    requires Open(bs, cur) && InScope(c, s) && BranchesOk(e, c, s)
    ensures Grows(bs, cur, o)
    decreases 2 * s.depth + 1, e, 2
  {
    var thenEntry := |bs|;
    var t := LowerB(e.thn, Fork(bs, cur), thenEntry, c, s);
    var merge := |t.bs|;
    var b := Fork(t.bs, t.cur);
    if e.els.None? then Out(AddEdge(b, cur, merge), merge)
    else
      var elseEntry := |b|;
      var x := LowerE(e.els.value, Fork(b, cur), elseEntry, c, s);
      Out(AddEdge(x.bs, x.cur, merge), merge)
  }

  ghost function LowerMatch(e: Expr, bs: Blocks, cur: nat, c: Ctx, s: Scope): (o: Out)
    requires e.Match?
    requires Open(bs, cur) && InScope(c, s) && DepthE(e) <= s.depth && OkE(e, Inside(c, s), s.deferred)
    ensures Grows(bs, cur, o)
    decreases 2 * s.depth + 1, e, 3
  {
    var a := LowerE(e.scrutinee, bs, cur, c, s);
    LowerMatchRest(e, a.bs, a.cur, c, s)
  }

  /** A `match`, after its scrutinee. */
  ghost function LowerMatchRest(e: Expr, bs: Blocks, cur: nat, c: Ctx, s: Scope): (o: Out)
    requires e.Match?
    requires Open(bs, cur) && InScope(c, s) && DepthXs(e.arms) <= s.depth && OkXs(e.arms, Inside(c, s), s.deferred)
    ensures Grows(bs, cur, o)
    decreases 2 * s.depth + 1, e, 2
  {
    var merge := |bs|;
    if e.arms.NoExprs? then Out(Fork(bs, cur), merge)
    else Out(LowerArms(e.arms, NewBlock(bs), cur, merge, c, s), merge)
  }

  ghost function LowerWhile(e: Expr, bs: Blocks, cur: nat, c: Ctx, s: Scope): (o: Out)
    requires e.While?
    requires Open(bs, cur) && InScope(c, s) && DepthE(e) <= s.depth && OkE(e, Inside(c, s), s.deferred)
    ensures Grows(bs, cur, o)
    decreases 2 * s.depth + 1, e, 3
  {
    var header := |bs|;
    var a := LowerE(e.cond, Fork(bs, cur), header, c, s);
    LowerWhileRest(e, header, a.bs, a.cur, c, s)
  }

  /** A `while`, after its condition. */
  ghost function LowerWhileRest(e: Expr, header: nat, bs: Blocks, cur: nat, c: Ctx, s: Scope): (o: Out)
    requires e.While? && header < |bs|
    requires Open(bs, cur) && InScope(c, s) && DepthB(e.body) <= s.depth
    requires OkB(e.body, Inside(c, s) + [e.lbl], s.deferred)
    ensures Grows(bs, cur, o)
    decreases 2 * s.depth + 1, e, 2
  {
    var bodyEntry, merge := |bs|, |bs| + 1;
    EnterKeepsScope(c, s, e.lbl, merge, header);
    var x := LowerB(e.body, Fork(Fork(bs, cur), cur), bodyEntry, EnterLoop(c, e.lbl, merge, header), s);
    Out(AddEdge(x.bs, x.cur, header), merge)
  }

  ghost function LowerFor(e: Expr, bs: Blocks, cur: nat, c: Ctx, s: Scope): (o: Out)
    requires e.For?
    requires Open(bs, cur) && InScope(c, s) && DepthE(e) <= s.depth && OkE(e, Inside(c, s), s.deferred)
    ensures Grows(bs, cur, o)
    decreases 2 * s.depth + 1, e, 3
  {
    var a := LowerE(e.iterable, bs, cur, c, s);
    LowerForRest(e, a.bs, a.cur, c, s)
  }

  /** A `for`, after its iterable. */
  ghost function LowerForRest(e: Expr, bs: Blocks, cur: nat, c: Ctx, s: Scope): (o: Out)
    requires e.For?
    requires Open(bs, cur) && InScope(c, s) && DepthB(e.body) <= s.depth
    requires OkB(e.body, Inside(c, s) + [e.lbl], s.deferred)
    ensures Grows(bs, cur, o)
    decreases 2 * s.depth + 1, e, 2
  {
    var header, bodyEntry, merge := |bs|, |bs| + 1, |bs| + 2;
    EnterKeepsScope(c, s, e.lbl, merge, header);
    var d := Fork(Fork(Fork(bs, cur), header), header);
    var x := LowerB(e.body, d, bodyEntry, EnterLoop(c, e.lbl, merge, header), s);
    Out(AddEdge(x.bs, x.cur, header), merge)
  }

  ghost function LowerLoop(e: Expr, bs: Blocks, cur: nat, c: Ctx, s: Scope): (o: Out)
    requires e.Loop?
    requires Open(bs, cur) && InScope(c, s) && DepthE(e) <= s.depth && OkE(e, Inside(c, s), s.deferred)
    ensures Grows(bs, cur, o)
    decreases 2 * s.depth + 1, e, 3
  {
    var header := |bs|;
    var b := Fork(bs, cur);
    var merge := |b|;
    EnterKeepsScope(c, s, e.lbl, merge, header);
    var x := LowerB(e.body, NewBlock(b), header, EnterLoop(c, e.lbl, merge, header), s);
    Out(AddEdge(x.bs, x.cur, header), merge)
  }

  /** `return`, after its value: full unwinding, then the function exit; the code after it goes on unreachably. */
  ghost function LowerReturn(a: Out, c: Ctx, s: Scope): (o: Out)
    requires Open(a.bs, a.cur) && InScope(c, s) && !s.deferred
    ensures Grows(a.bs, a.cur, o)
    decreases 2 * s.depth, 2
  {
    var u := Unwind(0, true, a.bs, a.cur, c, s);
    var b := AddEdge(u.bs, u.cur, c.exit);
    Out(NewBlock(b), |b|)
  }

  /** `?`, after its operand: the error edge unwinds to the function exit, the other goes on. */
  ghost function LowerQuestion(a: Out, c: Ctx, s: Scope): (o: Out)
    requires Open(a.bs, a.cur) && InScope(c, s) && !s.deferred
    ensures Grows(a.bs, a.cur, o)
    decreases 2 * s.depth, 2
  {
    var u := Unwind(0, true, a.bs, a.cur, c, s);
    var b := AddEdge(u.bs, u.cur, c.exit);
    Out(Fork(b, a.cur), |b|)
  }

  lemma EnterKeepsScope(c: Ctx, s: Scope, l: Label, merge: nat, header: nat)
    requires InScope(c, s)
    ensures InScope(EnterLoop(c, l, merge, header), s)
    ensures Inside(EnterLoop(c, l, merge, header), s) == Inside(c, s) + [l]
  {
    var d := EnterLoop(c, l, merge, header);
    assert d.loops[s.loopBase..] == c.loops[s.loopBase..] + [LoopFrame(l, merge, header, |c.stack|)];
  }

  /** Inside a deferred body a label resolves to one of its own loops. */
  lemma ResolveInScope(c: Ctx, s: Scope, l: Label)
    requires InScope(c, s) && (s.deferred ==> Resolve(Inside(c, s), l).Some?)
    ensures var k := Resolve(Labels(c.loops), l);
      k.Some? ==> s.loopBase <= k.value < |c.loops| && Resolve(Inside(c, s), l) == Some(k.value - s.loopBase)
    ensures Resolve(Inside(c, s), l).Some? ==> Resolve(Labels(c.loops), l).Some?
  {
    hide Visible, Resolve;
    var outer := Labels(c.loops[..s.loopBase]);
    assert Labels(c.loops) == outer + Inside(c, s);
    ResolveInside(outer, Inside(c, s), l);
    if !s.deferred {
      assert outer == [];
    }
  }

  function EnterLoop(c: Ctx, l: Label, merge: nat, header: nat): Ctx {
    c.(loops := c.loops + [LoopFrame(l, merge, header, |c.stack|)])
  }

  /** `break` and `continue`: unwind to the loop and jump, then go on in a fresh block. */
  ghost function LowerJump(k: Option<nat>, breaks: bool, a: Out, c: Ctx, s: Scope): (o: Out)
    requires Open(a.bs, a.cur) && InScope(c, s)
    requires k.Some? ==> s.loopBase <= k.value < |c.loops|
    ensures Grows(a.bs, a.cur, o)
    decreases 2 * s.depth, 2
  {
    if k.None? then Out(NewBlock(a.bs), |a.bs|)
    else
      var frame := c.loops[k.value];
      var u := Unwind(frame.deferDepth, false, a.bs, a.cur, c, s);
      var b := AddEdge(u.bs, u.cur, if breaks then frame.breakTarget else frame.continueTarget);
      Out(NewBlock(b), |b|)
  }

  /** Lowers the deferred bodies of all scopes from the innermost down to `target`. */
  ghost function Unwind(target: nat, error: bool, bs: Blocks, cur: nat, c: Ctx, s: Scope): (o: Out)
    requires Open(bs, cur) && InScope(c, s) && s.base <= target
    ensures Grows(bs, cur, o)
    decreases 2 * s.depth, 1
  {
    UnwindOk(c.stack, s.base, target, error, s.depth);
    LowerCleanup(UnwindBodies(c.stack, target, error), bs, cur, c, s)
  }

  ghost function LowerCleanup(bodies: seq<Block>, bs: Blocks, cur: nat, c: Ctx, s: Scope): (o: Out)
    requires Open(bs, cur) && InScope(c, s) && BodiesOk(bodies, s.depth)
    ensures Grows(bs, cur, o)
    decreases 2 * s.depth, 0
  {
    if bodies == [] then Out(bs, cur)
    else
      assert DepthB(bodies[0]) < s.depth;
      LowerBodies(bodies, bs, cur, c, BodyScope(c, s))
  }

  /** Each deferred body in a fresh block of its own. */
  ghost function LowerBodies(bodies: seq<Block>, bs: Blocks, cur: nat, c: Ctx, s: Scope): (o: Out)
    requires Open(bs, cur) && s == Scope(|c.stack|, |c.loops|, true, s.depth)
    requires BodiesOk(bodies, s.depth + 1)
    ensures Grows(bs, cur, o)
    decreases 2 * s.depth + 1, bodies, 0
  {
    if bodies == [] then Out(bs, cur)
    else
      var entry := |bs|;
      var x := LowerB(bodies[0], Fork(bs, cur), entry, c, s);
      LowerBodies(bodies[1..], x.bs, x.cur, c, s)
  }

  ghost function LowerXs(xs: Exprs, bs: Blocks, cur: nat, c: Ctx, s: Scope): (o: Out)
    requires Open(bs, cur) && InScope(c, s) && DepthXs(xs) <= s.depth && OkXs(xs, Inside(c, s), s.deferred)
    ensures Grows(bs, cur, o)
    decreases 2 * s.depth + 1, xs, 0
  {
    match xs
    case NoExprs => Out(bs, cur)
    case MoreExprs(h, t) =>
      var a := LowerE(h, bs, cur, c, s);
      LowerXs(t, a.bs, a.cur, c, s)
  }

  /** Each arm in a fresh block reached from `from`, all flowing to `merge`. */
  ghost function LowerArms(arms: Exprs, bs: Blocks, from: nat, merge: nat, c: Ctx, s: Scope): (r: Blocks)
    requires from < |bs| && merge < |bs| && InScope(c, s)
    requires DepthXs(arms) <= s.depth && OkXs(arms, Inside(c, s), s.deferred)
    ensures |bs| <= |r| && r[from].uses == bs[from].uses
    ensures forall next :: next in bs[from].successors ==> next in r[from].successors
    ensures forall b :: 0 <= b < |bs| && b != from ==> r[b] == bs[b]
    decreases 2 * s.depth + 1, arms, 0
  {
    match arms
    case NoExprs => bs
    case MoreExprs(h, t) =>
      var entry := |bs|;
      var x := LowerE(h, Fork(bs, from), entry, c, s);
      LowerArms(t, AddEdge(x.bs, x.cur, merge), from, merge, c, s)
  }

  ghost function LowerB(b: Block, bs: Blocks, cur: nat, c: Ctx, s: Scope): (o: Out)
    requires Open(bs, cur) && InScope(c, s) && DepthB(b) <= s.depth && OkB(b, Inside(c, s), s.deferred)
    ensures Grows(bs, cur, o)
    decreases 2 * s.depth + 1, b, 2
  {
    PushKeepsScope(c, s);
    LowerStmts(b, bs, cur, c.(stack := c.stack + [[]]), s)
  }

  /** The statements of the scope whose registry is on top of the stack. */
  ghost function LowerStmts(b: Block, bs: Blocks, cur: nat, c: Ctx, s: Scope): (o: Out)
    requires Open(bs, cur) && InScope(c, s) && DepthB(b) <= s.depth && OkB(b, Inside(c, s), s.deferred)
    requires s.base < |c.stack|
    ensures Grows(bs, cur, o)
    decreases 2 * s.depth + 1, b, 1
  {
    match b
    case End(e) =>
      var a := LowerE(e, bs, cur, c, s);
      CleanupOk(c.stack[|c.stack| - 1], false, s.depth);
      LowerCleanup(CleanupBodies(c.stack[|c.stack| - 1], false), a.bs, a.cur, c, s)
    case Then(st, rest) =>
      if st.Eval? || st.Assign? then
        var a := LowerS(st, bs, cur, c, s);
        LowerStmts(rest, a.bs, a.cur, c, s)
      else
        NotedKeepsScope(c, s, st);
        LowerStmts(rest, bs, cur, Noted(c, st), s)
  }

  /** A statement that evaluates something; an assignment evaluates its value before its target. */
  ghost function LowerS(st: Stmt, bs: Blocks, cur: nat, c: Ctx, s: Scope): (o: Out)
    requires Open(bs, cur) && InScope(c, s) && DepthS(st) <= s.depth && OkS(st, Inside(c, s), s.deferred)
    ensures Grows(bs, cur, o)
    decreases 2 * s.depth + 1, st, 0
  {
    match st
    case Eval(e) => LowerE(e, bs, cur, c, s)
    case Assign(target, value) =>
      var a := LowerE(value, bs, cur, c, s);
      LowerE(target, a.bs, a.cur, c, s)
    case _ => Out(bs, cur)
  }

  /** Adds an item to the innermost registry. */
  function Register(c: Ctx, item: DeferItem): Ctx
    requires c.stack != []
  {
    c.(stack := c.stack[|c.stack| - 1 := c.stack[|c.stack| - 1] + [item]])
  }

  /** The context behind a statement that evaluates nothing. */
  function Noted(c: Ctx, st: Stmt): (d: Ctx)
    requires c.stack != []
    ensures d.loops == c.loops && d.exit == c.exit && |d.stack| == |c.stack|
  {
    match st
    case Defer(body) => Register(c, DeferItem(PlainDefer, body))
    case ErrDefer(body) => Register(c, DeferItem(ErrorDefer, body))
    case _ => c
  }

  lemma NotedKeepsScope(c: Ctx, s: Scope, st: Stmt)
    requires InScope(c, s) && s.base < |c.stack| && DepthS(st) <= s.depth && OkS(st, Inside(c, s), s.deferred)
    ensures InScope(Noted(c, st), s) && Inside(Noted(c, st), s) == Inside(c, s)
  {
    match st
    case Defer(body) =>
      RegisterKeepsScope(c, s, DeferItem(PlainDefer, body));
    case ErrDefer(body) =>
      RegisterKeepsScope(c, s, DeferItem(ErrorDefer, body));
    case _ =>
  }

  lemma PushKeepsScope(c: Ctx, s: Scope)
    requires InScope(c, s)
    ensures InScope(c.(stack := c.stack + [[]]), s) && s.base <= |c.stack| && s.loopBase <= |c.loops|
  {
  }

  lemma RegisterKeepsScope(c: Ctx, s: Scope, item: DeferItem)
    requires InScope(c, s) && s.base < |c.stack| && ItemOk(item, s.depth)
    ensures InScope(Register(c, item), s)
  {
  }
}
