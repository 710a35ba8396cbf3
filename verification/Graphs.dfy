/** Finite directed graphs given by successor sets, with paths and reachability. */
module Graphs {

  type Graph<T(==)> = map<T, set<T>>

  predicate Edge<T(==)>(g: Graph<T>, u: T, v: T) {
    u in g && v in g[u]
  }

  /** A path is a non-empty sequence of nodes joined by edges. */
  ghost predicate Path<T(!new)>(g: Graph<T>, p: seq<T>) {
    && p != []
    && forall i, j {:trigger p[i], p[j]} :: 0 <= i < j < |p| && j == i + 1 ==> Edge(g, p[i], p[j])
  }

  ghost predicate PathFromTo<T(!new)>(g: Graph<T>, u: T, p: seq<T>, v: T) {
    Path(g, p) && p[0] == u && p[|p| - 1] == v
  }

  ghost predicate Reach<T(!new)>(g: Graph<T>, u: T, v: T) {
    exists p :: PathFromTo(g, u, p, v)
  }

  ghost predicate Mutual<T(!new)>(g: Graph<T>, u: T, v: T) {
    Reach(g, u, v) && Reach(g, v, u)
  }

  lemma ReachRefl<T(!new)>(g: Graph<T>, u: T)
    ensures Reach(g, u, u)
  {
    assert PathFromTo(g, u, [u], u);
  }

  lemma PathSnoc<T(!new)>(g: Graph<T>, u: T, p: seq<T>, v: T, w: T)
    requires PathFromTo(g, u, p, v) && Edge(g, v, w)
    ensures PathFromTo(g, u, p + [w], w)
  {
  }

  lemma PathSplit<T(!new)>(g: Graph<T>, u: T, p: seq<T>, v: T)
    requires PathFromTo(g, u, p, v) && |p| > 1
    ensures PathFromTo(g, u, p[..|p| - 1], p[|p| - 2])
    ensures PathFromTo(g, p[1], p[1..], v)
    ensures Edge(g, p[|p| - 2], v) && Edge(g, u, p[1])
  {
  }

  lemma ReachStep<T(!new)>(g: Graph<T>, u: T, v: T, w: T)
    requires Reach(g, u, v) && Edge(g, v, w)
    ensures Reach(g, u, w)
  {
    var p :| PathFromTo(g, u, p, v);
    PathSnoc(g, u, p, v, w);
  }

  lemma ReachEdge<T(!new)>(g: Graph<T>, u: T, v: T)
    requires Edge(g, u, v)
    ensures Reach(g, u, v)
  {
    ReachRefl(g, u);
    ReachStep(g, u, u, v);
  }

  lemma ReachTrans<T(!new)>(g: Graph<T>, u: T, v: T, w: T)
    requires Reach(g, u, v) && Reach(g, v, w)
    ensures Reach(g, u, w)
  {
    var p :| PathFromTo(g, u, p, v);
    var q :| PathFromTo(g, v, q, w);
    assert PathFromTo(g, u, p + q[1..], w);
  }

  /** A set that no edge leaves holds everything reachable from its members. */
  lemma {:induction false} ClosedHoldsReach<T(!new)>(g: Graph<T>, closed: set<T>, u: T, p: seq<T>, v: T)
    requires forall x, y :: x in closed && Edge(g, x, y) ==> y in closed
    requires u in closed && PathFromTo(g, u, p, v)
    ensures v in closed
    decreases |p|
  {
    if |p| > 1 {
      PathSplit(g, u, p, v);
      ClosedHoldsReach(g, closed, p[1], p[1..], v);
    }
  }

  lemma ClosedUnderReach<T(!new)>(g: Graph<T>, closed: set<T>, u: T, v: T)
    requires forall x, y :: x in closed && Edge(g, x, y) ==> y in closed
    requires u in closed && Reach(g, u, v)
    ensures v in closed
  {
    var p :| PathFromTo(g, u, p, v);
    ClosedHoldsReach(g, closed, u, p, v);
  }
}
