/** The fragment of function bodies whose control flow is lowered. */
module CfgSyntax {
  import opened Basics
  import opened Cfgs

  type Label = Option<string>

  /**
    `Operands` stands for every operator, call and literal form that evaluates its parts from left to right; `If`
    for `if` and `if let`; `While` for `while` and `while let`. An absent value or final expression is a `Leaf`.
   */
  datatype Expr =
    | Leaf
    | Use(site: UseSite)
    | Operands(items: Exprs)
    | BlockExpr(body: Block)
    | If(cond: Expr, thn: Block, els: Option<Expr>)
    | Match(scrutinee: Expr, arms: Exprs)
    | While(lbl: Label, cond: Expr, body: Block)
    | For(lbl: Label, iterable: Expr, body: Block)
    | Loop(lbl: Label, body: Block)
    | Break(lbl: Label, value: Expr)
    | Continue(lbl: Label)
    | Return(value: Expr)
    | Question(inner: Expr)

  datatype Exprs = NoExprs | MoreExprs(head: Expr, tail: Exprs)

  datatype Block = End(final: Expr) | Then(first: Stmt, rest: Block)

  datatype Stmt =
    | Eval(e: Expr)
    | Assign(target: Expr, value: Expr)
    | Uninit
    | Defer(body: Block)
    | ErrDefer(body: Block)

  datatype DeferKind = PlainDefer | ErrorDefer

  datatype DeferItem = DeferItem(kind: DeferKind, body: Block)

  type DeferFrame = seq<DeferItem>

  /** The innermost loop with the label, or the innermost loop if there is none. */
  function Resolve(labels: seq<Label>, lbl: Label): (r: Option<nat>)
    ensures r.Some? ==> r.value < |labels|
  {
    if labels == [] then None
    else if lbl.None? || labels[|labels| - 1] == lbl then Some(|labels| - 1)
    else Resolve(labels[..|labels| - 1], lbl)
  }

  /** Without a label, the last loop; with one, the last loop that has it; nothing only if there is none. */
  lemma {:induction false} ResolveIsInnermost(labels: seq<Label>, lbl: Label)
    ensures Resolve(labels, lbl).None? <==> labels == [] || (lbl.Some? && lbl !in labels)
    ensures Resolve(labels, lbl).Some? ==>
      var k := Resolve(labels, lbl).value;
      if lbl.None? then k == |labels| - 1
      else labels[k] == lbl && forall i :: k < i < |labels| ==> labels[i] != lbl
  {
    if labels != [] {
      var front := labels[..|labels| - 1];
      assert labels == front + [labels[|labels| - 1]];
      ResolveIsInnermost(front, lbl);
      assert forall i :: 0 <= i < |front| ==> front[i] == labels[i];
    }
  }

  // ---------- how deep deferred bodies nest ----------

  ghost function DepthE(e: Expr): nat {
    match e
    case Leaf => 0
    case Use(_) => 0
    case Operands(items) => DepthXs(items)
    case BlockExpr(body) => DepthB(body)
    case If(c, t, els) => Max(DepthE(c), Max(DepthB(t), if els.Some? then DepthE(els.value) else 0))
    case Match(c, arms) => Max(DepthE(c), DepthXs(arms))
    case While(_, c, body) => Max(DepthE(c), DepthB(body))
    case For(_, c, body) => Max(DepthE(c), DepthB(body))
    case Loop(_, body) => DepthB(body)
    case Break(_, v) => DepthE(v)
    case Continue(_) => 0
    case Return(v) => DepthE(v)
    case Question(v) => DepthE(v)
  }

  ghost function DepthXs(xs: Exprs): nat {
    match xs
    case NoExprs => 0
    case MoreExprs(h, t) => Max(DepthE(h), DepthXs(t))
  }

  ghost function DepthB(b: Block): nat {
    match b
    case End(e) => DepthE(e)
    case Then(s, rest) => Max(DepthS(s), DepthB(rest))
  }

  ghost function DepthS(s: Stmt): nat {
    match s
    case Eval(e) => DepthE(e)
    case Assign(a, b) => Max(DepthE(a), DepthE(b))
    case Uninit => 0
    case Defer(b) => 1 + DepthB(b)
    case ErrDefer(b) => 1 + DepthB(b)
  }

  // ---------- deferred bodies keep control inside ----------

  /**
    Deferred bodies contain no `return` and no `?`, and their `break`s and `continue`s stay inside.
    `inside` holds the labels of the loops entered since the start of the enclosing deferred body.
   */
  ghost predicate OkE(e: Expr, inside: seq<Label>, deferred: bool) {
    match e
    case Leaf => true
    case Use(_) => true
    case Operands(items) => OkXs(items, inside, deferred)
    case BlockExpr(body) => OkB(body, inside, deferred)
    case If(c, t, els) =>
      OkE(c, inside, deferred) && OkB(t, inside, deferred) && (els.Some? ==> OkE(els.value, inside, deferred))
    case Match(c, arms) => OkE(c, inside, deferred) && OkXs(arms, inside, deferred)
    case While(l, c, body) => OkE(c, inside, deferred) && OkB(body, inside + [l], deferred)
    case For(l, c, body) => OkE(c, inside, deferred) && OkB(body, inside + [l], deferred)
    case Loop(l, body) => OkB(body, inside + [l], deferred)
    case Break(l, v) => OkE(v, inside, deferred) && (deferred ==> Resolve(inside, l).Some?)
    case Continue(l) => deferred ==> Resolve(inside, l).Some?
    case Return(v) => !deferred && OkE(v, inside, deferred)
    case Question(v) => !deferred && OkE(v, inside, deferred)
  }

  ghost predicate OkXs(xs: Exprs, inside: seq<Label>, deferred: bool) {
    match xs
    case NoExprs => true
    case MoreExprs(h, t) => OkE(h, inside, deferred) && OkXs(t, inside, deferred)
  }

  ghost predicate OkB(b: Block, inside: seq<Label>, deferred: bool) {
    match b
    case End(e) => OkE(e, inside, deferred)
    case Then(s, rest) => OkS(s, inside, deferred) && OkB(rest, inside, deferred)
  }

  ghost predicate OkS(s: Stmt, inside: seq<Label>, deferred: bool) {
    match s
    case Eval(e) => OkE(e, inside, deferred)
    case Assign(a, b) => OkE(a, inside, deferred) && OkE(b, inside, deferred)
    case Uninit => true
    case Defer(b) => OkB(b, [], true)
    case ErrDefer(b) => OkB(b, [], true)
  }

  /** Everything without deferred bodies is in the fragment. */
  lemma {:induction false} PlainIsOkE(e: Expr, inside: seq<Label>)
    requires DepthE(e) == 0
    ensures OkE(e, inside, false)
  {
    match e
    case Leaf =>
    case Use(_) =>
    case Operands(items) => PlainIsOkXs(items, inside);
    case BlockExpr(body) => PlainIsOk(body, inside);
    case If(c, t, els) =>
      PlainIsOkE(c, inside);
      PlainIsOk(t, inside);
      if els.Some? {
        PlainIsOkE(els.value, inside);
      }
    case Match(c, arms) =>
      PlainIsOkE(c, inside);
      PlainIsOkXs(arms, inside);
    case While(l, c, body) =>
      PlainIsOkE(c, inside);
      PlainIsOk(body, inside + [l]);
    case For(l, c, body) =>
      PlainIsOkE(c, inside);
      PlainIsOk(body, inside + [l]);
    case Loop(l, body) => PlainIsOk(body, inside + [l]);
    case Break(_, v) => PlainIsOkE(v, inside);
    case Continue(_) =>
    case Return(v) => PlainIsOkE(v, inside);
    case Question(v) => PlainIsOkE(v, inside);
  }

  lemma {:induction false} PlainIsOkXs(xs: Exprs, inside: seq<Label>)
    requires DepthXs(xs) == 0
    ensures OkXs(xs, inside, false)
  {
    if xs.MoreExprs? {
      PlainIsOkE(xs.head, inside);
      PlainIsOkXs(xs.tail, inside);
    }
  }

  lemma {:induction false} PlainIsOk(b: Block, inside: seq<Label>)
    requires DepthB(b) == 0
    ensures OkB(b, inside, false)
  {
    match b
    case End(e) => PlainIsOkE(e, inside);
    case Then(s, rest) =>
      PlainIsOk(rest, inside);
      match s {
        case Eval(e) => PlainIsOkE(e, inside);
        case Assign(x, y) =>
          PlainIsOkE(x, inside);
          PlainIsOkE(y, inside);
        case Uninit =>
      }
  }

  // ---------- which deferred bodies run at an exit ----------

  /** The bodies of one kind, last declared first. */
  function BodiesOf(items: DeferFrame, kind: DeferKind): seq<Block> {
    if items == [] then []
    else
      (if items[|items| - 1].kind == kind then [items[|items| - 1].body] else []) +
      BodiesOf(items[..|items| - 1], kind)
  }

  /** One scope: on an error exit its errdefers, then its defers. */
  function CleanupBodies(items: DeferFrame, error: bool): seq<Block> {
    (if error then BodiesOf(items, ErrorDefer) else []) + BodiesOf(items, PlainDefer)
  }

  /**
    `bodies` are those of the items at `ix`: the defers, and on an error exit the errdefers too. Errdefers go before
    defers, and within a kind the items declared last go first.
   */
  ghost predicate InCleanupOrder(items: DeferFrame, error: bool, ix: seq<nat>, bodies: seq<Block>) {
    && |bodies| == |ix|
    && (forall k :: 0 <= k < |ix| ==> ix[k] < |items| && bodies[k] == items[ix[k]].body)
    && (forall i: nat :: i in ix <==> i < |items| && (error || items[i].kind == PlainDefer))
    && forall k, l :: 0 <= k < l < |ix| ==>
         || (items[ix[k]].kind == ErrorDefer && items[ix[l]].kind == PlainDefer)
         || (items[ix[k]].kind == items[ix[l]].kind && ix[k] > ix[l])
  }

  /** Every deferred body of a scope that is due at an exit runs once, in that order. */
  lemma CleanupIsInOrder(items: DeferFrame, error: bool)
    ensures exists ix :: InCleanupOrder(items, error, ix, CleanupBodies(items, error))
  {
    hide InCleanupOrder, BodiesOf;
    var plain := KindIndices(items, PlainDefer);
    if error {
      var errors := KindIndices(items, ErrorDefer);
      BothKindsInOrder(items, errors, plain);
    } else {
      assert CleanupBodies(items, false) == BodiesOf(items, PlainDefer);
      OneKindInOrder(items, plain);
    }
  }

  /** `bodies` are those of one kind, last declared first, at the places `ix`. */
  ghost predicate AtPlaces(items: DeferFrame, kind: DeferKind, bodies: seq<Block>, ix: seq<nat>) {
    && |ix| == |bodies|
    && (forall k :: 0 <= k < |ix| ==> ix[k] < |items| && bodies[k] == items[ix[k]].body)
    && (forall i: nat :: i in ix <==> i < |items| && items[i].kind == kind)
    && forall k, l :: 0 <= k < l < |ix| ==> ix[k] > ix[l]
  }

  ghost predicate LastFirst(items: DeferFrame, kind: DeferKind, ix: seq<nat>) {
    AtPlaces(items, kind, BodiesOf(items, kind), ix)
  }

  lemma OneKindInOrder(items: DeferFrame, plain: seq<nat>)
    requires LastFirst(items, PlainDefer, plain)
    ensures InCleanupOrder(items, false, plain, BodiesOf(items, PlainDefer))
  {
    hide BodiesOf;
    assert forall k :: 0 <= k < |plain| ==> plain[k] in plain;
  }

  lemma BothKindsInOrder(items: DeferFrame, errors: seq<nat>, plain: seq<nat>)
    requires LastFirst(items, ErrorDefer, errors) && LastFirst(items, PlainDefer, plain)
    ensures InCleanupOrder(items, true, errors + plain, CleanupBodies(items, true))
  {
    hide BodiesOf;
    assert forall k :: 0 <= k < |plain| ==> plain[k] in plain;
    assert forall k :: 0 <= k < |errors| ==> errors[k] in errors;
    forall i: nat | i < |items| ensures i in errors + plain {
      assert i in errors || i in plain;
    }
  }

  lemma {:induction false} KindIndices(items: DeferFrame, kind: DeferKind) returns (ix: seq<nat>)
    ensures LastFirst(items, kind, ix)
  {
    hide AtPlaces;
    if items == [] {
      ix := [];
      NothingPlaced(kind);
    } else {
      var front, item := items[..|items| - 1], items[|items| - 1];
      assert items == front + [item];
      var rest := KindIndices(front, kind);
      if item.kind == kind {
        ix := [|front|] + rest;
        OneMorePlace(front, item, kind, BodiesOf(front, kind), rest);
      } else {
        ix := rest;
        NoMorePlaces(front, item, kind, BodiesOf(front, kind), rest);
        assert BodiesOf(items, kind) == BodiesOf(front, kind);
      }
    }
  }

  lemma NothingPlaced(kind: DeferKind)
    ensures AtPlaces([], kind, [], [])
  {
  }

  lemma OneMorePlace(items: DeferFrame, item: DeferItem, kind: DeferKind, bodies: seq<Block>, ix: seq<nat>)
    requires AtPlaces(items, kind, bodies, ix) && item.kind == kind
    ensures AtPlaces(items + [item], kind, [item.body] + bodies, [|items|] + ix)
  {
    var all, more, longer := items + [item], [|items|] + ix, [item.body] + bodies;
    forall k | 0 <= k < |more| ensures more[k] < |all| && longer[k] == all[more[k]].body && all[more[k]].kind == kind {
      if k > 0 {
        assert more[k] == ix[k - 1] && longer[k] == bodies[k - 1] && ix[k - 1] in ix;
      }
    }
    forall i: nat | i < |all| && all[i].kind == kind ensures i in more {
      assert i < |items| ==> i in ix;
    }
    forall k, l | 0 <= k < l < |more| ensures more[k] > more[l] {
      assert more[l] == ix[l - 1] && (k > 0 ==> more[k] == ix[k - 1]);
    }
  }

  lemma NoMorePlaces(items: DeferFrame, item: DeferItem, kind: DeferKind, bodies: seq<Block>, ix: seq<nat>)
    requires AtPlaces(items, kind, bodies, ix) && item.kind != kind
    ensures AtPlaces(items + [item], kind, bodies, ix)
  {
    var all := items + [item];
    forall i: nat ensures i in ix <==> i < |all| && all[i].kind == kind {
      assert i < |items| ==> all[i] == items[i];
    }
  }

  /** All scopes from the innermost down to `depth`. */
  function UnwindBodies(stack: seq<DeferFrame>, depth: nat, error: bool): seq<Block> {
    if |stack| <= depth then []
    else CleanupBodies(stack[|stack| - 1], error) + UnwindBodies(stack[..|stack| - 1], depth, error)
  }
}
