/** Big-step runs of the fragment, and the use events they emit. */
module CfgRuns {
  import opened Cfgs
  import opened CfgSyntax

  type Trace = seq<UseSite>

  /**
    `Broke` and `Continued` name the loop, counted from the outermost; `Returned` covers `return` and a failing `?`.
   */
  datatype Outcome = Normal | Broke(loop: nat) | Continued(loop: nat) | Returned

  /** A derivation of a run. `Iter` is one round of a loop with the outcome of its body. */
  datatype Run = Done | Emit(site: UseSite) | Seq(a: Run, b: Run) | Iter(body: Run, outcome: Outcome, next: Run)

  /** The events of a run, in order. */
  ghost function Spell(r: Run): Trace {
    match r
    case Done => []
    case Emit(site) => [site]
    case Seq(a, b) => Spell(a) + Spell(b)
    case Iter(body, _, next) => Spell(body) + Spell(next)
  }

  /** What a round of loop `k` leaves to do: another round, or the loop ends with the given outcome. */
  datatype Next = Again | Stop(outcome: Outcome)

  function AfterRound(o: Outcome, k: nat): Next {
    if o == Normal || o == Continued(k) then Again
    else if o == Broke(k) then Stop(Normal)
    else Stop(o)
  }

  ghost predicate RunE(r: Run, e: Expr, labels: seq<Label>, o: Outcome)
    decreases r, e, 0
  {
    match e
    case Leaf => r == Done && o == Normal
    case Use(site) => r == Emit(site) && o == Normal
    case Operands(items) => RunXs(r, items, labels, o)
    case BlockExpr(body) => RunB(r, body, labels, o)
    case If(c, t, els) =>
      || (o != Normal && RunE(r, c, labels, o))
      || (r.Seq? && RunE(r.a, c, labels, Normal) &&
          (RunB(r.b, t, labels, o) ||
           if els.Some? then RunE(r.b, els.value, labels, o) else r.b == Done && o == Normal))
    case Match(c, arms) =>
      || (o != Normal && RunE(r, c, labels, o))
      || (r.Seq? && RunE(r.a, c, labels, Normal) &&
          (if arms.NoExprs? then r.b == Done && o == Normal else RunArm(r.b, arms, labels, o)))
    case While(l, c, body) =>
      || (o != Normal && RunE(r, c, labels, o))
      || (r.Seq? && RunE(r.a, c, labels, Normal) &&
          ((r.b == Done && o == Normal) ||
           (r.b.Iter? && RunB(r.b.body, body, labels + [l], r.b.outcome) &&
            match AfterRound(r.b.outcome, |labels|)
            case Again => RunE(r.b.next, e, labels, o)
            case Stop(p) => r.b.next == Done && o == p)))
    case For(l, c, body) =>
      || (o != Normal && RunE(r, c, labels, o))
      || (r.Seq? && RunE(r.a, c, labels, Normal) && RunRounds(r.b, l, body, true, labels, o))
    case Loop(l, body) => RunRounds(r, l, body, false, labels, o)
    case Break(l, v) =>
      || (o != Normal && RunE(r, v, labels, o))
      || (RunE(r, v, labels, Normal) && Resolve(labels, l).Some? && o == Broke(Resolve(labels, l).value))
    case Continue(l) => r == Done && Resolve(labels, l).Some? && o == Continued(Resolve(labels, l).value)
    case Return(v) => (o != Normal && RunE(r, v, labels, o)) || (RunE(r, v, labels, Normal) && o == Returned)
    case Question(v) => RunE(r, v, labels, o) || (RunE(r, v, labels, Normal) && o == Returned)
  }

  /** The parts from left to right, until one does not end normally. */
  ghost predicate RunXs(r: Run, xs: Exprs, labels: seq<Label>, o: Outcome)
    decreases r, xs, 0
  {
    match xs
    case NoExprs => r == Done && o == Normal
    case MoreExprs(h, t) =>
      || (o != Normal && RunE(r, h, labels, o))
      || (r.Seq? && RunE(r.a, h, labels, Normal) && RunXs(r.b, t, labels, o))
  }

  /** Any one arm. */
  ghost predicate RunArm(r: Run, arms: Exprs, labels: seq<Label>, o: Outcome)
    decreases r, arms, 0
  {
    match arms
    case NoExprs => false
    case MoreExprs(h, t) => RunE(r, h, labels, o) || RunArm(r, t, labels, o)
  }

  /** Rounds of a body; with `ends`, the loop may end before any round. */
  ghost predicate RunRounds(r: Run, l: Label, body: Block, ends: bool, labels: seq<Label>, o: Outcome)
    decreases r, body, 3
  {
    || (ends && r == Done && o == Normal)
    || (r.Iter? && RunB(r.body, body, labels + [l], r.outcome) &&
        match AfterRound(r.outcome, |labels|)
        case Again => RunRounds(r.next, l, body, ends, labels, o)
        case Stop(p) => r.next == Done && o == p)
  }

  ghost predicate RunB(r: Run, b: Block, labels: seq<Label>, o: Outcome)
    decreases r, b, 2
  {
    RunStmts(r, b, [], labels, o)
  }

  /** The statements of a scope that has registered `items`; leaving it in any way runs its cleanup. */
  ghost predicate RunStmts(r: Run, b: Block, items: DeferFrame, labels: seq<Label>, o: Outcome)
    decreases r, b, 1
  {
    match b
    case End(e) => r.Seq? && RunE(r.a, e, labels, o) && RunAll(r.b, CleanupBodies(items, o == Returned))
    case Then(s, rest) =>
      match s
      case Uninit => RunStmts(r, rest, items, labels, o)
      case Defer(body) => RunStmts(r, rest, items + [DeferItem(PlainDefer, body)], labels, o)
      case ErrDefer(body) => RunStmts(r, rest, items + [DeferItem(ErrorDefer, body)], labels, o)
      case _ =>
        r.Seq? &&
        (|| (RunS(r.a, s, labels, Normal) && RunStmts(r.b, rest, items, labels, o))
         || (o != Normal && RunS(r.a, s, labels, o) && RunAll(r.b, CleanupBodies(items, o == Returned))))
  }

  /** A statement that evaluates something; an assignment evaluates its value before its target. */
  ghost predicate RunS(r: Run, s: Stmt, labels: seq<Label>, o: Outcome)
    decreases r, s, 0
  {
    match s
    case Eval(e) => RunE(r, e, labels, o)
    case Assign(target, value) =>
      || (o != Normal && RunE(r, value, labels, o))
      || (r.Seq? && RunE(r.a, value, labels, Normal) && RunE(r.b, target, labels, o))
    case _ => r == Done && o == Normal
  }

  /** Deferred bodies, one after the other, each in full. */
  ghost predicate RunAll(r: Run, bodies: seq<Block>)
    decreases r, 0, 0
  {
    if bodies == [] then r == Done
    else r.Seq? && RunB(r.a, bodies[0], [], Normal) && RunAll(r.b, bodies[1..])
  }

  /** The trace of some run of a function body that terminates, normally or by returning. */
  ghost predicate FunctionTrace(body: Block, t: Trace) {
    exists r, o :: RunB(r, body, [], o) && t == Spell(r)
  }
}
