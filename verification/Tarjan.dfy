/** Tarjan's algorithm over a call graph named by strings: what its steps keep. */
module TarjanFacts {
  import opened Basics
  import opened Graphs
  import Sorting

  type CallGraph = map<string, seq<string>>

  /** Names outside the map have no edges. */
  ghost function Calls(graph: CallGraph): Graph<string> {
    map v | v in graph :: set w | w in graph[v]
  }

  lemma CallEdge(graph: CallGraph, v: string, w: string)
    ensures Edge(Calls(graph), v, w) <==> v in graph && w in graph[v]
  {
  }

  /** A snapshot of the search state. */
  datatype Snap = Snap(counter: nat, index: map<string, nat>, stack: seq<string>, result: seq<seq<string>>)

  predicate InResult(result: seq<seq<string>>, x: string) {
    exists i :: 0 <= i < |result| && x in result[i]
  }

  /** The stack is ordered by index, and indices are distinct and below the counter. */
  ghost predicate Ordered(s: Snap) {
    && (forall i :: 0 <= i < |s.stack| ==> s.stack[i] in s.index)
    && (forall i, j :: 0 <= i < j < |s.stack| ==> s.index[s.stack[i]] < s.index[s.stack[j]])
    && (forall x :: x in s.index ==> s.index[x] < s.counter)
    && (forall x, y :: x in s.index && y in s.index && s.index[x] == s.index[y] ==> x == y)
  }

  /** Every indexed name is on the stack or in exactly one component. */
  ghost predicate Partitioned(s: Snap) {
    && (forall x :: x in s.index <==> x in s.stack || InResult(s.result, x))
    && (forall x :: x in s.stack ==> !InResult(s.result, x))
    && DisjointParts(s.result)
  }

  ghost predicate DisjointParts(result: seq<seq<string>>) {
    && (forall i :: 0 <= i < |result| ==> result[i] != [])
    && (forall i, j, k :: 0 <= i < |result| && 0 <= j < k < |result[i]| ==> result[i][j] != result[i][k])
    && (forall i, j, x :: 0 <= i < j < |result| && x in result[i] ==> x !in result[j])
  }

  /** Each finished component is one class of mutual reachability. */
  ghost predicate IsComponent(g: Graph<string>, part: seq<string>) {
    forall x, y :: x in part ==> (y in part <==> Mutual(g, x, y))
  }

  /** An edge leaving a finished component ends in it or in one listed before it. */
  ghost predicate PointsBack(g: Graph<string>, result: seq<seq<string>>, i: nat)
    requires i < |result|
  {
    forall x, y :: x in result[i] && Edge(g, x, y) ==> exists j :: 0 <= j <= i && y in result[j]
  }

  ghost predicate Finished(g: Graph<string>, result: seq<seq<string>>) {
    forall i :: 0 <= i < |result| ==> IsComponent(g, result[i]) && PointsBack(g, result, i)
  }

  /** The names being explored are on the stack, in order. */
  ghost predicate GrayOnStack(s: Snap, gray: seq<string>) {
    forall i :: 0 <= i < |gray| ==> gray[i] in s.stack
  }

  /** All edges of stacked names that are no longer being explored have been followed. */
  ghost predicate Explored(g: Graph<string>, s: Snap, gray: seq<string>) {
    forall x, y :: x in s.stack && x !in gray && Edge(g, x, y) ==> y in s.index
  }

  /** A name being explored reaches everything stacked after it. */
  ghost predicate GrayReaches(g: Graph<string>, s: Snap, gray: seq<string>)
    requires Ordered(s) && GrayOnStack(s, gray)
  {
    forall u, x :: u in gray && x in s.stack && s.index[u] <= s.index[x] ==> Reach(g, u, x)
  }

  /** `u` is being explored, is not stacked after `x`, and `x` reaches it. */
  ghost predicate Anchor(g: Graph<string>, s: Snap, gray: seq<string>, x: string, u: string)
    requires Ordered(s) && GrayOnStack(s, gray) && x in s.stack
  {
    u in gray && s.index[u] <= s.index[x] && Reach(g, x, u)
  }

  ghost predicate Anchored(g: Graph<string>, s: Snap, gray: seq<string>)
    requires Ordered(s) && GrayOnStack(s, gray)
  {
    forall x :: x in s.stack ==> exists u :: Anchor(g, s, gray, x, u)
  }

  ghost predicate Searching(g: Graph<string>, s: Snap, gray: seq<string>) {
    && Ordered(s) && Partitioned(s) && Finished(g, s.result)
    && GrayOnStack(s, gray) && Explored(g, s, gray) && GrayReaches(g, s, gray) && Anchored(g, s, gray)
  }

  // ---------- entering a name ----------

  function Entered(s: Snap, v: string): Snap {
    Snap(s.counter + 1, s.index[v := s.counter], s.stack + [v], s.result)
  }

  lemma EnterOrdered(s: Snap, v: string)
    requires Ordered(s) && v !in s.index
    ensures Ordered(Entered(s, v))
  {
  }

  lemma EnterPartitioned(s: Snap, v: string)
    requires Partitioned(s) && v !in s.index
    ensures Partitioned(Entered(s, v))
  {
    hide DisjointParts, InResult;
  }

  lemma EnterGray(g: Graph<string>, s: Snap, gray: seq<string>, v: string)
    requires Ordered(s) && GrayOnStack(s, gray) && GrayReaches(g, s, gray) && v !in s.index
    requires Ordered(Entered(s, v)) && forall u :: u in gray ==> Reach(g, u, v)
    ensures GrayOnStack(Entered(s, v), gray + [v]) && GrayReaches(g, Entered(s, v), gray + [v])
  {
    hide Reach;
    var t := Entered(s, v);
    ReachRefl(g, v);
    assert forall x :: x in t.stack <==> x in s.stack || x == v;
  }

  lemma EnterExplored(g: Graph<string>, s: Snap, gray: seq<string>, v: string)
    requires Explored(g, s, gray)
    ensures Explored(g, Entered(s, v), gray + [v])
  {
  }

  lemma AnchorStays(g: Graph<string>, s: Snap, gray: seq<string>, v: string, x: string, u: string)
    requires Ordered(s) && GrayOnStack(s, gray) && x in s.stack && v !in s.index && Anchor(g, s, gray, x, u)
    requires Ordered(Entered(s, v)) && GrayOnStack(Entered(s, v), gray + [v]) && x in Entered(s, v).stack
    ensures Anchor(g, Entered(s, v), gray + [v], x, u)
  {
    hide Reach;
    assert u in s.stack;
  }

  lemma EnterAnchored(g: Graph<string>, s: Snap, gray: seq<string>, v: string)
    requires Ordered(s) && GrayOnStack(s, gray) && Anchored(g, s, gray) && v !in s.index
    requires Ordered(Entered(s, v)) && GrayOnStack(Entered(s, v), gray + [v])
    ensures Anchored(g, Entered(s, v), gray + [v])
  {
    hide Reach, Ordered, GrayOnStack;
    var t := Entered(s, v);
    ReachRefl(g, v);
    forall x | x in t.stack ensures exists u :: Anchor(g, t, gray + [v], x, u) {
      if x == v {
        assert Anchor(g, t, gray + [v], x, v);
      } else {
        assert x in s.stack;
        var u :| Anchor(g, s, gray, x, u);
        AnchorStays(g, s, gray, v, x, u);
      }
    }
  }

  /** Pushing an unvisited name that everything being explored reaches. */
  lemma EnterKeeps(g: Graph<string>, s: Snap, gray: seq<string>, v: string)
    requires Searching(g, s, gray) && v !in s.index
    requires forall u :: u in gray ==> Reach(g, u, v)
    ensures Searching(g, Entered(s, v), gray + [v])
  {
    hide Ordered, Partitioned, Finished, GrayOnStack, Explored, GrayReaches, Anchored, Reach;
    EnterOrdered(s, v);
    EnterPartitioned(s, v);
    EnterGray(g, s, gray, v);
    EnterExplored(g, s, gray, v);
    EnterAnchored(g, s, gray, v);
  }

  // ---------- leaving a name ----------

  /** All edges of the top names from position `k` on stay among them, or lead to finished components. */
  ghost predicate StaysAbove(g: Graph<string>, s: Snap, k: nat)
    requires k <= |s.stack|
  {
    forall x, y :: x in s.stack[k..] && Edge(g, x, y) ==> y in s.stack[k..] || InResult(s.result, y)
  }

  lemma FinishedIsClosed(g: Graph<string>, result: seq<seq<string>>, x: string, y: string)
    requires Finished(g, result) && InResult(result, x) && Edge(g, x, y)
    ensures InResult(result, y)
  {
    var i :| 0 <= i < |result| && x in result[i];
    assert PointsBack(g, result, i);
  }

  /** Nothing reachable from the top names lies lower on the stack. */
  lemma ReachStaysAbove(g: Graph<string>, s: Snap, k: nat, x: string, y: string)
    requires Finished(g, s.result) && k <= |s.stack| && StaysAbove(g, s, k)
    requires x in s.stack[k..] || InResult(s.result, x)
    requires Reach(g, x, y)
    ensures y in s.stack[k..] || InResult(s.result, y)
    ensures InResult(s.result, x) ==> InResult(s.result, y)
  {
    hide Reach, Finished;
    var done := set i, z | 0 <= i < |s.result| && z in s.result[i] :: z;
    assert forall z :: z in done <==> InResult(s.result, z);
    forall a, b | a in done && Edge(g, a, b) ensures b in done {
      FinishedIsClosed(g, s.result, a, b);
    }
    if x in done {
      ClosedUnderReach(g, done, x, y);
    } else {
      var top := set z | z in s.stack[k..];
      ClosedUnderReach(g, done + top, x, y);
    }
  }

  /** Removes the top of the stack from position `k` as a component. */
  function Closed(s: Snap, k: nat, part: seq<string>): Snap
    requires k <= |s.stack|
  {
    Snap(s.counter, s.index, s.stack[..k], s.result + [part])
  }

  /** The stack above its last explored name `v` is one component. */
  ghost predicate Closes(g: Graph<string>, s: Snap, gray: seq<string>, k: nat, part: seq<string>) {
    && gray != [] && k < |s.stack| && s.stack[k] == gray[|gray| - 1]
    && (forall i :: 0 <= i < |gray| - 1 ==> gray[i] in s.stack[..k])
    && StaysAbove(g, s, k)
    && (forall x :: x in part <==> x in s.stack[k..])
    && (forall i, j :: 0 <= i < j < |part| ==> part[i] != part[j])
  }

  /** `v` is the only explored name among the top ones. */
  lemma OnlyTopIsGray(s: Snap, gray: seq<string>, k: nat, u: string)
    requires Ordered(s) && gray != [] && k < |s.stack| && s.stack[k] == gray[|gray| - 1]
    requires forall i :: 0 <= i < |gray| - 1 ==> gray[i] in s.stack[..k]
    requires u in gray && u in s.stack[k..]
    ensures u == s.stack[k]
  {
    var j :| 0 <= j < |gray| && gray[j] == u;
  }

  lemma AboveIsLater(s: Snap, k: nat, x: string)
    requires Ordered(s) && k < |s.stack| && x in s.stack[k..]
    ensures x in s.stack && s.stack[k] in s.index && x in s.index && s.index[s.stack[k]] <= s.index[x]
  {
    var i :| 0 <= i < |s.stack[k..]| && s.stack[k..][i] == x;
    assert s.stack[k + i] == x;
  }

  lemma TopMutual(g: Graph<string>, s: Snap, gray: seq<string>, k: nat, part: seq<string>, x: string)
    requires Ordered(s) && Partitioned(s) && Finished(g, s.result) && GrayOnStack(s, gray)
    requires GrayReaches(g, s, gray) && Anchored(g, s, gray)
    requires Closes(g, s, gray, k, part) && x in part
    ensures Mutual(g, x, s.stack[k])
  {
    hide Reach, Finished, DisjointParts, InResult, StaysAbove, Edge, Ordered;
    AboveIsLater(s, k, x);
    assert s.stack[k] in gray && s.stack[k] in s.stack;
    var u :| Anchor(g, s, gray, x, u);
    ReachStaysAbove(g, s, k, x, u);
    OnlyTopIsGray(s, gray, k, u);
  }

  lemma PartIsComponent(g: Graph<string>, s: Snap, gray: seq<string>, k: nat, part: seq<string>)
    requires Ordered(s) && Partitioned(s) && Finished(g, s.result) && GrayOnStack(s, gray)
    requires GrayReaches(g, s, gray) && Anchored(g, s, gray)
    requires Closes(g, s, gray, k, part)
    ensures IsComponent(g, part)
  {
    hide Reach, Finished, DisjointParts, Ordered, GrayReaches, Anchored;
    var v := s.stack[k];
    forall x, y | x in part ensures y in part <==> Mutual(g, x, y) {
      TopMutual(g, s, gray, k, part, x);
      if y in part {
        TopMutual(g, s, gray, k, part, y);
        ReachTrans(g, x, v, y);
        ReachTrans(g, y, v, x);
      }
      if Mutual(g, x, y) {
        ReachStaysAbove(g, s, k, x, y);
        if InResult(s.result, y) {
          ReachStaysAbove(g, s, k, y, x);
        }
      }
    }
  }

  lemma CloseOrdered(s: Snap, k: nat, part: seq<string>)
    requires Ordered(s) && k <= |s.stack|
    ensures Ordered(Closed(s, k, part))
  {
  }

  lemma CloseParts(result: seq<seq<string>>, part: seq<string>)
    requires DisjointParts(result) && part != []
    requires forall i, j :: 0 <= i < j < |part| ==> part[i] != part[j]
    requires forall x :: x in part ==> !InResult(result, x)
    ensures DisjointParts(result + [part])
    ensures forall x :: InResult(result + [part], x) <==> InResult(result, x) || x in part
  {
    var all := result + [part];
    forall x ensures InResult(all, x) <==> InResult(result, x) || x in part {
      if InResult(result, x) {
        var i :| 0 <= i < |result| && x in result[i];
        assert x in all[i];
      }
      if x in part {
        assert x in all[|result|];
      }
    }
  }

  lemma ClosePartitioned(s: Snap, k: nat, part: seq<string>)
    requires Ordered(s) && Partitioned(s) && k < |s.stack|
    requires forall x :: x in part <==> x in s.stack[k..]
    requires forall i, j :: 0 <= i < j < |part| ==> part[i] != part[j]
    ensures Partitioned(Closed(s, k, part))
    ensures forall x :: InResult(s.result + [part], x) <==> InResult(s.result, x) || x in part
  {
    hide DisjointParts, InResult, Ordered;
    assert s.stack == s.stack[..k] + s.stack[k..];
    assert s.stack[k] == s.stack[k..][0] && s.stack[k] in part;
    assert forall x :: x in part ==> x in s.stack;
    CloseParts(s.result, part);
    FrontIsDisjoint(s, k, part);
  }

  lemma FrontIsDisjoint(s: Snap, k: nat, part: seq<string>)
    requires Ordered(s) && k < |s.stack| && forall x :: x in part <==> x in s.stack[k..]
    ensures forall x :: x in s.stack[..k] ==> x !in part
  {
    forall x | x in s.stack[..k] ensures x !in part {
      var a :| 0 <= a < k && s.stack[a] == x;
      assert forall b :: k <= b < |s.stack| ==> s.stack[b] != x;
    }
  }

  lemma CloseFinished(g: Graph<string>, s: Snap, k: nat, part: seq<string>)
    requires Finished(g, s.result) && IsComponent(g, part) && k <= |s.stack| && StaysAbove(g, s, k)
    requires forall x :: x in part <==> x in s.stack[k..]
    ensures Finished(g, s.result + [part])
  {
    hide IsComponent;
    var n := |s.result|;
    var all := s.result + [part];
    forall i | 0 <= i < |all| ensures IsComponent(g, all[i]) && PointsBack(g, all, i) {
      if i < n {
        assert PointsBack(g, s.result, i);
        forall x, y | x in all[i] && Edge(g, x, y) ensures exists j :: 0 <= j <= i && y in all[j] {
          var j :| 0 <= j <= i && y in s.result[j];
          assert y in all[j];
        }
      } else {
        forall x, y | x in all[i] && Edge(g, x, y) ensures exists j :: 0 <= j <= i && y in all[j] {
          if y in part {
            assert y in all[n];
          } else {
            var j :| 0 <= j < n && y in s.result[j];
            assert y in all[j];
          }
        }
      }
    }
  }

  lemma CloseAnchor(g: Graph<string>, s: Snap, gray: seq<string>, k: nat, part: seq<string>, i: nat, u: string)
    requires Ordered(s) && GrayOnStack(s, gray) && gray != [] && i < k < |s.stack|
    requires s.stack[k] == gray[|gray| - 1]
    requires Ordered(Closed(s, k, part)) && GrayOnStack(Closed(s, k, part), gray[..|gray| - 1])
    requires Anchor(g, s, gray, s.stack[i], u)
    ensures s.stack[i] in s.stack[..k] && Anchor(g, Closed(s, k, part), gray[..|gray| - 1], s.stack[i], u)
  {
    hide Reach;
    assert s.stack[i] == s.stack[..k][i];
    assert gray == gray[..|gray| - 1] + [s.stack[k]];
  }

  lemma CloseAnchored(g: Graph<string>, s: Snap, gray: seq<string>, k: nat, part: seq<string>)
    requires Ordered(s) && GrayOnStack(s, gray) && Anchored(g, s, gray) && gray != [] && k < |s.stack|
    requires s.stack[k] == gray[|gray| - 1]
    requires Ordered(Closed(s, k, part)) && GrayOnStack(Closed(s, k, part), gray[..|gray| - 1])
    ensures Anchored(g, Closed(s, k, part), gray[..|gray| - 1])
  {
    hide Reach, Anchor, Ordered;
    var t := Closed(s, k, part);
    var rest := gray[..|gray| - 1];
    forall x | x in t.stack ensures exists u :: Anchor(g, t, rest, x, u) {
      var i :| 0 <= i < k && s.stack[i] == x;
      assert x in s.stack;
      var u :| Anchor(g, s, gray, x, u);
      CloseAnchor(g, s, gray, k, part, i, u);
    }
  }

  lemma CloseGray(g: Graph<string>, s: Snap, gray: seq<string>, k: nat, part: seq<string>)
    requires Ordered(s) && GrayOnStack(s, gray) && GrayReaches(g, s, gray) && Explored(g, s, gray)
    requires Closes(g, s, gray, k, part) && Ordered(Closed(s, k, part))
    ensures GrayOnStack(Closed(s, k, part), gray[..|gray| - 1])
    ensures GrayReaches(g, Closed(s, k, part), gray[..|gray| - 1])
    ensures Explored(g, Closed(s, k, part), gray[..|gray| - 1])
  {
    hide Reach, StaysAbove;
    var t := Closed(s, k, part);
    var rest := gray[..|gray| - 1];
    assert gray == rest + [s.stack[k]];
    forall x | x in t.stack ensures x in s.stack && x != s.stack[k] {
      var i :| 0 <= i < k && s.stack[i] == x;
    }
  }

  /** Leaving `v` with its lowlink equal to its index: the top of the stack becomes a component. */
  lemma CloseKeeps(g: Graph<string>, s: Snap, gray: seq<string>, k: nat, part: seq<string>)
    requires Searching(g, s, gray) && Closes(g, s, gray, k, part)
    ensures Searching(g, Closed(s, k, part), gray[..|gray| - 1])
  {
    hide Ordered, Partitioned, Finished, GrayOnStack, Explored, GrayReaches, Anchored, Reach, StaysAbove;
    PartIsComponent(g, s, gray, k, part);
    CloseOrdered(s, k, part);
    ClosePartitioned(s, k, part);
    CloseFinished(g, s, k, part);
    CloseGray(g, s, gray, k, part);
    CloseAnchored(g, s, gray, k, part);
  }

  lemma StayAnchor(g: Graph<string>, s: Snap, gray: seq<string>, v: string, y: string, w: string, x: string, u: string)
    requires Ordered(s) && GrayOnStack(s, gray + [v]) && GrayOnStack(s, gray)
    requires y in s.stack && v in s.stack && s.index[y] < s.index[v] && Reach(g, v, y)
    requires Anchor(g, s, gray + [v], y, w)
    requires x in s.stack && Anchor(g, s, gray + [v], x, u)
    ensures Anchor(g, s, gray, x, if u == v then w else u)
  {
    hide Reach;
    if u == v {
      ReachTrans(g, x, v, y);
      ReachTrans(g, x, y, w);
    }
  }

  lemma StayAnchored(g: Graph<string>, s: Snap, gray: seq<string>, v: string, y: string)
    requires Ordered(s) && GrayOnStack(s, gray + [v]) && GrayOnStack(s, gray) && Anchored(g, s, gray + [v])
    requires y in s.stack && v in s.stack && s.index[y] < s.index[v] && Reach(g, v, y)
    ensures Anchored(g, s, gray)
  {
    hide Reach, Ordered, Anchor;
    var w :| Anchor(g, s, gray + [v], y, w);
    forall x | x in s.stack ensures exists u :: Anchor(g, s, gray, x, u) {
      var u :| Anchor(g, s, gray + [v], x, u);
      StayAnchor(g, s, gray, v, y, w, x, u);
    }
  }

  /** Leaving `v` with a smaller lowlink: it stays on the stack, below it a name it reaches. */
  lemma StayKeeps(g: Graph<string>, s: Snap, gray: seq<string>, v: string, y: string)
    requires Searching(g, s, gray + [v])
    requires forall w :: Edge(g, v, w) ==> w in s.index
    requires y in s.stack && v in s.stack && y in s.index && v in s.index && s.index[y] < s.index[v] && Reach(g, v, y)
    ensures Searching(g, s, gray)
  {
    hide Ordered, Partitioned, Finished, Reach, Explored, GrayReaches, GrayOnStack, Anchored;
    StayGray(g, s, gray, v);
    StayAnchored(g, s, gray, v, y);
  }

  lemma StayGray(g: Graph<string>, s: Snap, gray: seq<string>, v: string)
    requires Ordered(s) && GrayOnStack(s, gray + [v]) && GrayReaches(g, s, gray + [v]) && Explored(g, s, gray + [v])
    requires forall w :: Edge(g, v, w) ==> w in s.index
    ensures GrayOnStack(s, gray) && GrayReaches(g, s, gray) && Explored(g, s, gray)
  {
    hide Reach;
    forall i | 0 <= i < |gray| ensures gray[i] in s.stack {
      assert (gray + [v])[i] == gray[i];
    }
  }

  // ---------- lowlinks ----------

  /** `t` continues `s`: the stack and the components only grow, and indices stay. */
  ghost predicate Extends(s: Snap, t: Snap) {
    && s.stack <= t.stack && s.result <= t.result && s.counter <= t.counter
    && forall x :: x in s.index ==> x in t.index && t.index[x] == s.index[x]
  }

  lemma ExtendsTransitive(s: Snap, t: Snap, u: Snap)
    requires Extends(s, t) && Extends(t, u)
    ensures Extends(s, u)
  {
  }

  /** A stacked name that `v` reaches, with the given index. */
  ghost predicate Witness(g: Graph<string>, s: Snap, below: seq<string>, v: string, low: nat, y: string) {
    y in below && y in s.index && s.index[y] == low && Reach(g, v, y)
  }

  /** No edge from the names stacked above `below`, other than `v`, goes lower than `low`. */
  ghost predicate Bounds(g: Graph<string>, s: Snap, below: seq<string>, v: string, low: nat) {
    forall x, y :: x in s.stack && x !in below && x != v && Edge(g, x, y) && y in below && y in s.index ==>
      low <= s.index[y]
  }

  /** Exploring `v` above the stack `below`: its lowlink so far, with the edges in `followed` done. */
  ghost predicate LowSoFar(g: Graph<string>, s: Snap, below: seq<string>, v: string, low: nat, followed: seq<string>) {
    && v in s.index && low <= s.index[v]
    && (exists y :: Witness(g, s, below + [v], v, low, y))
    && Bounds(g, s, below, v, low)
    && (forall y :: y in followed ==> y in s.index && (y in below ==> low <= s.index[y]))
  }

  /** Having explored `v` above the stack of `s`: either its component is finished, or it stays on the stack. */
  ghost predicate Explores(g: Graph<string>, s: Snap, t: Snap, v: string, low: nat) {
    && Extends(s, t)
    && v in t.index && v !in s.index && s.counter <= t.index[v]
    && (if v in t.stack then exists y :: Witness(g, t, s.stack, v, low, y) else t.stack == s.stack && low == t.index[v])
    && (forall x, y :: x in t.stack && x !in s.stack && Edge(g, x, y) && y in s.stack && y in t.index ==>
      low <= t.index[y])
    && (forall x :: x in t.index && x !in s.index ==> Reach(g, v, x))
  }

  lemma LowEnter(g: Graph<string>, s: Snap, v: string)
    requires v !in s.index
    ensures LowSoFar(g, Entered(s, v), s.stack, v, s.counter, [])
  {
    hide Reach;
    ReachRefl(g, v);
    assert Witness(g, Entered(s, v), s.stack + [v], v, s.counter, v);
  }

  /** Following an edge to an unvisited name. */
  lemma LowRecurse(
    g: Graph<string>, s0: Snap, s: Snap, t: Snap, v: string, low: nat, followed: seq<string>, w: string, lowW: nat)
    requires v !in s0.index && Ordered(s) && Ordered(t) && Extends(Entered(s0, v), s)
    requires LowSoFar(g, s, s0.stack, v, low, followed) && Edge(g, v, w) && Explores(g, s, t, w, lowW)
    ensures LowSoFar(g, t, s0.stack, v, Min(low, lowW), followed + [w])
  {
    hide Reach, Edge;
    LowRecurseWitness(g, s0, s, t, v, low, followed, w, lowW);
    LowRecurseBounds(g, s0, s, t, v, low, w, lowW);
    assert w !in s0.stack by {
      if w in s0.stack {
        BelowIsStacked(s0, s, v, w);
      }
    }
  }

  lemma BelowIsStacked(s0: Snap, s: Snap, v: string, x: string)
    requires Ordered(s) && Extends(Entered(s0, v), s) && (x in s0.stack || x == v)
    ensures x in s.stack && x in s.index
  {
    assert x in s0.stack + [v];
    var i :| 0 <= i < |s0.stack + [v]| && (s0.stack + [v])[i] == x;
    assert s.stack[i] == x;
  }

  lemma StackedBelow(s0: Snap, s: Snap, v: string, y: string)
    requires v !in s0.index && Ordered(s) && Extends(Entered(s0, v), s)
    requires y in s.stack && y in s.index && v in s.index && s.index[y] <= s.index[v]
    ensures y in s0.stack + [v]
  {
    var k := |s0.stack|;
    assert (s0.stack + [v])[k] == v;
    assert s.stack[k] == v;
    var i :| 0 <= i < |s.stack| && s.stack[i] == y;
    assert i <= k;
    assert s.stack[i] == (s0.stack + [v])[i];
  }

  lemma LowRecurseWitness(
    g: Graph<string>, s0: Snap, s: Snap, t: Snap, v: string, low: nat, followed: seq<string>, w: string, lowW: nat)
    requires v !in s0.index && Ordered(s) && Ordered(t) && Extends(Entered(s0, v), s)
    requires LowSoFar(g, s, s0.stack, v, low, followed) && Edge(g, v, w) && Explores(g, s, t, w, lowW)
    ensures exists y :: Witness(g, t, s0.stack + [v], v, Min(low, lowW), y)
  {
    hide Reach, Edge, Bounds;
    if lowW < low {
      assert s.index[v] < s.counter;
      assert w in t.stack;
      var y :| Witness(g, t, s.stack, w, lowW, y);
      assert s.index[y] == lowW;
      StackedBelow(s0, s, v, y);
      ReachEdge(g, v, w);
      ReachTrans(g, v, w, y);
      assert Witness(g, t, s0.stack + [v], v, Min(low, lowW), y);
    } else {
      var y :| Witness(g, s, s0.stack + [v], v, low, y);
      assert Witness(g, t, s0.stack + [v], v, Min(low, lowW), y);
    }
  }

  lemma LowRecurseBounds(
    g: Graph<string>, s0: Snap, s: Snap, t: Snap, v: string, low: nat, w: string, lowW: nat)
    requires v !in s0.index && Ordered(s) && Extends(Entered(s0, v), s)
    requires Bounds(g, s, s0.stack, v, low) && Explores(g, s, t, w, lowW)
    ensures Bounds(g, t, s0.stack, v, Min(low, lowW))
  {
    hide Reach, Edge;
    forall y | y in s0.stack ensures y in s.stack && y in s.index {
      BelowIsStacked(s0, s, v, y);
    }
  }

  /** Following an edge to a visited name. */
  lemma LowSeen(
    g: Graph<string>, s0: Snap, s: Snap, v: string, low: nat, followed: seq<string>, w: string)
    requires v !in s0.index && Ordered(s) && Extends(Entered(s0, v), s)
    requires LowSoFar(g, s, s0.stack, v, low, followed) && Edge(g, v, w) && w in s.index
    ensures LowSoFar(g, s, s0.stack, v, if w in s.stack then Min(low, s.index[w]) else low, followed + [w])
  {
    hide Reach, Edge;
    if w in s.stack && s.index[w] < low {
      StackedBelow(s0, s, v, w);
      ReachEdge(g, v, w);
      assert Witness(g, s, s0.stack + [v], v, s.index[w], w);
    } else {
      if w in s0.stack {
        BelowIsStacked(s0, s, v, w);
      }
    }
  }

  // ---------- the two ways out ----------

  ghost predicate AllEdges(g: Graph<string>, v: string, followed: seq<string>) {
    forall w :: Edge(g, v, w) ==> w in followed
  }

  /** The names from position `k` on are not below it, and `v` is the lowest of them. */
  lemma AboveIsNotBelow(s0: Snap, s: Snap, v: string, x: string)
    requires Ordered(s) && Extends(Entered(s0, v), s) && x in s.stack[|s0.stack|..]
    ensures x !in s0.stack && x in s.stack && x in s.index && v in s.index && s.stack[|s0.stack|] == v
  {
    var k := |s0.stack|;
    assert s.stack[k] == (s0.stack + [v])[k];
    var i :| 0 <= i < |s.stack[k..]| && s.stack[k..][i] == x;
    assert s.stack[k + i] == x;
    forall j | 0 <= j < k ensures s0.stack[j] != x {
      assert s.stack[j] == (s0.stack + [v])[j];
    }
  }

  lemma GrayIsBelow(s0: Snap, s: Snap, gray: seq<string>, v: string)
    requires Extends(Entered(s0, v), s) && GrayOnStack(s0, gray)
    ensures forall i :: 0 <= i < |gray| ==> gray[i] in s.stack[..|s0.stack|]
  {
    assert s.stack[..|s0.stack|] == s0.stack by {
      assert s.stack[..|s0.stack + [v]|] == s0.stack + [v];
      assert s.stack[..|s0.stack|] == s.stack[..|s0.stack + [v]|][..|s0.stack|];
    }
  }

  lemma LowStaysAbove(g: Graph<string>, s0: Snap, s: Snap, gray: seq<string>, v: string, followed: seq<string>)
    requires Ordered(s) && Partitioned(s) && Explored(g, s, gray + [v]) && GrayOnStack(s0, gray)
    requires Extends(Entered(s0, v), s) && v in s.index
    requires LowSoFar(g, s, s0.stack, v, s.index[v], followed) && AllEdges(g, v, followed)
    ensures StaysAbove(g, s, |s0.stack|)
  {
    hide Reach, Edge, DisjointParts, InResult;
    var k := |s0.stack|;
    GrayIsBelow(s0, s, gray, v);
    forall x, y | x in s.stack[k..] && Edge(g, x, y) ensures y in s.stack[k..] || InResult(s.result, y) {
      AboveIsNotBelow(s0, s, v, x);
      assert (gray + [v])[|gray|] == v;
      assert x !in gray;
      assert y in s.index;
      assert forall i :: 0 <= i < k ==> s.stack[i] == (s0.stack + [v])[i];
    }
  }

  lemma LowCloses(
    g: Graph<string>, s0: Snap, s: Snap, gray: seq<string>, v: string, followed: seq<string>, part: seq<string>)
    requires Searching(g, s, gray + [v]) && GrayOnStack(s0, gray) && Extends(Entered(s0, v), s) && v in s.index
    requires LowSoFar(g, s, s0.stack, v, s.index[v], followed) && AllEdges(g, v, followed)
    requires forall x :: x in part <==> x in s.stack[|s0.stack|..]
    requires forall i, j :: 0 <= i < j < |part| ==> part[i] != part[j]
    ensures Closes(g, s, gray + [v], |s0.stack|, part)
  {
    hide Partitioned, Finished, GrayOnStack, Explored, GrayReaches, Anchored, Reach, Ordered, LowSoFar, AllEdges,
      StaysAbove;
    LowStaysAbove(g, s0, s, gray, v, followed);
    GrayIsBelow(s0, s, gray, v);
    assert s.stack[|s0.stack|] == (s0.stack + [v])[|s0.stack|];
  }

  lemma CloseExplores(g: Graph<string>, s0: Snap, s: Snap, v: string, part: seq<string>)
    requires v !in s0.index && Ordered(s0) && Extends(Entered(s0, v), s) && v in s.index
    requires forall x :: x in s.index && x !in s0.index ==> Reach(g, v, x)
    ensures Explores(g, s0, Closed(s, |s0.stack|, part), v, s.index[v])
  {
    hide Reach;
    var k := |s0.stack|;
    assert s.stack[..k] == s0.stack by {
      assert s.stack[..|s0.stack + [v]|] == s0.stack + [v];
      assert s.stack[..k] == s.stack[..|s0.stack + [v]|][..k];
    }
  }

  lemma StayExplores(g: Graph<string>, s0: Snap, s: Snap, gray: seq<string>, v: string, low: nat, followed: seq<string>)
    requires v !in s0.index && Ordered(s0) && Ordered(s) && Extends(Entered(s0, v), s) && GrayOnStack(s0, gray)
    requires LowSoFar(g, s, s0.stack, v, low, followed) && AllEdges(g, v, followed) && low < s.index[v]
    requires forall x :: x in s.index && x !in s0.index ==> Reach(g, v, x)
    ensures Explores(g, s0, s, v, low)
    ensures forall w :: Edge(g, v, w) ==> w in s.index
    ensures exists y :: Witness(g, s, s0.stack, v, low, y) && y in s.stack
    ensures v in s.stack
  {
    hide Reach, Edge;
    BelowIsStacked(s0, s, v, v);
    var y :| Witness(g, s, s0.stack + [v], v, low, y);
    assert y in s0.stack;
    BelowIsStacked(s0, s, v, y);
    assert Witness(g, s, s0.stack, v, low, y);
    assert s0.stack <= s.stack by {
      assert s0.stack <= s0.stack + [v];
    }
    forall x, z | x in s.stack && x !in s0.stack && Edge(g, x, z) && z in s0.stack && z in s.index
      ensures low <= s.index[z]
    {
      if x == v {
        assert z in followed;
      }
    }
  }

  // ---------- facts the search takes from its invariant ----------

  lemma SearchOrdered(g: Graph<string>, s: Snap, gray: seq<string>)
    requires Searching(g, s, gray)
    ensures Ordered(s) && GrayOnStack(s, gray) && Partitioned(s)
    ensures forall i, j :: 0 <= i < j < |s.stack| ==> s.stack[i] != s.stack[j]
    ensures forall x :: x in s.stack ==> x in s.index
  {
    hide Reach, Partitioned, Finished, Explored, GrayReaches, Anchored;
  }

  /** Everything being explored reaches the target of an edge of its last name. */
  lemma GrayReachesEdge(g: Graph<string>, gray: seq<string>, v: string, w: string)
    requires Edge(g, v, w) && forall u :: u in gray ==> Reach(g, u, v)
    ensures forall u :: u in gray + [v] ==> Reach(g, u, w)
  {
    hide Reach;
    ReachEdge(g, v, w);
    forall u | u in gray ensures Reach(g, u, w) {
      ReachTrans(g, u, v, w);
    }
  }

  lemma ExploresFacts(g: Graph<string>, s: Snap, t: Snap, v: string, w: string, low: nat)
    requires Explores(g, s, t, w, low) && Edge(g, v, w)
    ensures Extends(s, t) && w in t.index
    ensures forall x :: x in s.index ==> x in t.index
    ensures forall x :: x in t.index && x !in s.index ==> Reach(g, v, x)
  {
    hide Reach, Edge;
    forall x | x in t.index && x !in s.index ensures Reach(g, v, x) {
      ReachEdge(g, v, w);
      ReachTrans(g, v, w, x);
    }
  }

  lemma EdgesFollowed(graph: CallGraph, v: string, edges: seq<string>)
    requires edges == if v in graph then graph[v] else []
    ensures AllEdges(Calls(graph), v, edges)
  {
  }

  lemma VIsStacked(s0: Snap, s: Snap, v: string)
    requires Extends(Entered(s0, v), s)
    ensures |s0.stack| < |s.stack| && s.stack[|s0.stack|] == v
  {
    assert (s0.stack + [v])[|s0.stack|] == v;
  }

  lemma PopOne(stack: seq<string>)
    requires stack != []
    ensures stack == stack[..|stack| - 1] + [stack[|stack| - 1]]
  {
  }

  ghost predicate AllSorted(result: seq<seq<string>>) {
    forall i :: 0 <= i < |result| ==> InLexicographicOrder(result[i])
  }

  ghost predicate InLexicographicOrder(names: seq<string>) {
    forall i, j :: 0 <= i < j < |names| ==> Sorting.Lexicographic(names[i], names[j])
  }

  ghost predicate ClosedSet(g: Graph<string>, universe: set<string>) {
    forall x, y :: x in universe && Edge(g, x, y) ==> y in universe
  }

  /** Lowlinks set before stay as they are. */
  ghost predicate KeepsLows(before: map<string, nat>, after: map<string, nat>) {
    forall x :: x in before ==> x in after && after[x] == before[x]
  }

  lemma LowsKept(low0: map<string, nat>, before: map<string, nat>, after: map<string, nat>, v: string, low: nat)
    requires KeepsLows(low0, before) && KeepsLows(before, after) && v !in low0 && v in before
    ensures v in after && after[v] == before[v]
    ensures KeepsLows(low0, after[v := low])
  {
  }

  /** Every name indexed since `s0` is reached from `v`. */
  ghost predicate NewReached(g: Graph<string>, s0: Snap, s: Snap, v: string) {
    forall x :: x in s.index && x !in s0.index ==> Reach(g, v, x)
  }

  lemma InUniverse(g: Graph<string>, universe: set<string>, v: string, w: string)
    requires ClosedSet(g, universe) && v in universe && Edge(g, v, w)
    ensures w in universe
  {
  }

  lemma BeforeEntering(g: Graph<string>, s0: Snap, gray: seq<string>, v: string, low0: map<string, nat>)
    requires Searching(g, s0, gray) && v !in s0.index && v !in low0
    requires forall u :: u in gray ==> Reach(g, u, v)
    ensures Ordered(s0) && GrayOnStack(s0, gray)
    ensures Searching(g, Entered(s0, v), gray + [v])
    ensures Extends(Entered(s0, v), Entered(s0, v))
    ensures LowSoFar(g, Entered(s0, v), s0.stack, v, s0.counter, [])
    ensures NewReached(g, s0, Entered(s0, v), v)
    ensures KeepsLows(low0, low0[v := s0.counter])
  {
    hide Searching, Reach, LowSoFar, Ordered, GrayOnStack;
    SearchOrdered(g, s0, gray);
    EnterKeeps(g, s0, gray, v);
    LowEnter(g, s0, v);
    ReachRefl(g, v);
  }

  lemma AfterRecursion(
    g: Graph<string>, s0: Snap, s: Snap, t: Snap, gray: seq<string>, v: string, low: nat, followed: seq<string>,
    w: string, lowW: nat)
    requires Searching(g, s, gray + [v]) && Searching(g, t, gray + [v])
    requires v !in s0.index && Extends(Entered(s0, v), s) && v in s.index
    requires LowSoFar(g, s, s0.stack, v, low, followed) && NewReached(g, s0, s, v)
    requires Edge(g, v, w) && Explores(g, s, t, w, lowW)
    ensures Extends(Entered(s0, v), t) && s.index.Keys <= t.index.Keys && v in t.index
    ensures LowSoFar(g, t, s0.stack, v, Min(low, lowW), followed + [w])
    ensures NewReached(g, s0, t, v)
  {
    hide Searching, Reach, LowSoFar, Extends, Explores, Edge;
    SearchOrdered(g, s, gray + [v]);
    SearchOrdered(g, t, gray + [v]);
    ExploresFacts(g, s, t, v, w, lowW);
    ExtendsTransitive(Entered(s0, v), s, t);
    LowRecurse(g, s0, s, t, v, low, followed, w, lowW);
  }

  lemma LeaveClosed(
    g: Graph<string>, s0: Snap, s: Snap, gray: seq<string>, v: string, followed: seq<string>, part: seq<string>)
    requires Searching(g, s, gray + [v]) && GrayOnStack(s0, gray) && Ordered(s0) && v !in s0.index
    requires Extends(Entered(s0, v), s) && v in s.index && NewReached(g, s0, s, v)
    requires LowSoFar(g, s, s0.stack, v, s.index[v], followed) && AllEdges(g, v, followed)
    requires |s0.stack| < |s.stack| && Distinct(part) && forall x :: x in part <==> x in s.stack[|s0.stack|..]
    ensures Searching(g, Closed(s, |s0.stack|, part), gray)
    ensures Explores(g, s0, Closed(s, |s0.stack|, part), v, s.index[v])
  {
    hide Searching, Reach, LowSoFar, Extends, Explores, Edge, AllEdges, GrayOnStack, Ordered;
    SearchOrdered(g, s, gray + [v]);
    LowCloses(g, s0, s, gray, v, followed, part);
    CloseKeeps(g, s, gray + [v], |s0.stack|, part);
    CloseExplores(g, s0, s, v, part);
    assert (gray + [v])[..|gray + [v]| - 1] == gray;
  }

  lemma LeaveStacked(
    g: Graph<string>, s0: Snap, s: Snap, gray: seq<string>, v: string, low: nat, followed: seq<string>)
    requires Searching(g, s, gray + [v]) && GrayOnStack(s0, gray) && Ordered(s0) && v !in s0.index
    requires Extends(Entered(s0, v), s) && v in s.index && NewReached(g, s0, s, v)
    requires LowSoFar(g, s, s0.stack, v, low, followed) && AllEdges(g, v, followed) && low != s.index[v]
    ensures Searching(g, s, gray)
    ensures Explores(g, s0, s, v, low)
  {
    hide Searching, Reach, Extends, Explores, Edge, AllEdges, GrayOnStack, Ordered;
    SearchOrdered(g, s, gray + [v]);
    StayExplores(g, s0, s, gray, v, low, followed);
    var y :| Witness(g, s, s0.stack, v, low, y) && y in s.stack;
    StayKeeps(g, s, gray, v, y);
  }
}

module Tarjan {
  import opened Basics
  import opened Graphs
  import opened TarjanFacts

  class TarjanState {
    var indexCounter: nat
    var stack: seq<string>
    var onStack: set<string>
    var index: map<string, nat>
    var lowlink: map<string, nat>
    var result: seq<seq<string>>

    ghost function Snapshot(): Snap
      reads this
    {
      Snap(indexCounter, index, stack, result)
    }

    /** The redundant fields agree: the stacked set with the stack, the lowlink keys with the indexed names. */
    ghost predicate Valid()
      reads this
    {
      && (forall x :: x in onStack <==> x in stack)
      && lowlink.Keys == index.Keys
      && AllSorted(result)
    }

    constructor ()
      ensures Valid() && Snapshot() == Snap(0, map[], [], [])
    {
      indexCounter, stack, onStack, index, lowlink, result := 0, [], {}, map[], map[], [];
    }

    /** Pops the stack down to and including `v`. */
    method PopComponent(v: string, ghost k: nat) returns (scc: seq<string>)
      requires k < |stack| && stack[k] == v && Distinct(stack)
      requires forall x :: x in onStack <==> x in stack
      modifies this`stack, this`onStack
      ensures stack == old(stack)[..k]
      ensures forall x :: x in onStack <==> x in stack
      ensures Distinct(scc) && forall x :: x in scc <==> x in old(stack)[k..]
    {
      scc := [];
      ghost var whole := stack;
      while true
        invariant k < |stack| <= |whole| && stack == whole[..|stack|]
        invariant forall x :: x in onStack <==> x in stack
        invariant |scc| == |whole| - |stack|
        invariant forall i :: 0 <= i < |scc| ==> scc[i] == whole[|whole| - 1 - i]
        decreases |stack|
      {
        var w := stack[|stack| - 1];
        PopOne(stack);
        stack := stack[..|stack| - 1];
        onStack := onStack - {w};
        scc := scc + [w];
        if w == v {
          break;
        }
      }
      assert stack == whole[..k];
      forall x ensures x in scc <==> x in whole[k..] {
        assert forall i :: 0 <= i < |whole[k..]| ==> whole[k..][i] == scc[|scc| - 1 - i];
      }
    }

    method Enter(v: string)
      requires Valid()
      modifies this
      ensures Valid() && Snapshot() == Entered(old(Snapshot()), v)
      ensures lowlink == old(lowlink)[v := old(indexCounter)]
    {
      var idx := indexCounter;
      indexCounter := indexCounter + 1;
      index := index[v := idx];
      lowlink := lowlink[v := idx];
      stack := stack + [v];
      onStack := onStack + {v};
    }

    /** Lowers the lowlink of `v` to `low` if that is smaller. */
    method Lower(v: string, low: nat)
      requires Valid() && v in lowlink
      modifies this`lowlink
      ensures Valid() && lowlink == old(lowlink)[v := Min(old(lowlink)[v], low)]
    {
      var vLow := lowlink[v];
      if low < vLow {
        lowlink := lowlink[v := low];
      } else {
        assert lowlink == lowlink[v := vLow];
      }
    }

    /** Moves the stack down to and including `v` into the result, sorted. */
    method CloseComponent(v: string, ghost k: nat) returns (ghost part: seq<string>)
      requires Valid() && k < |stack| && stack[k] == v && Distinct(stack)
      modifies this
      ensures Valid() && Snapshot() == Closed(old(Snapshot()), k, part)
      ensures lowlink == old(lowlink)
      ensures Distinct(part) && forall x :: x in part <==> x in old(stack)[k..]
    {
      var scc := PopComponent(v, k);
      Sorting.SortIsPermutation(Sorting.StringLeq, scc);
      Sorting.SortKeepsDistinct(Sorting.StringLeq, scc);
      Sorting.SortsStrings(scc);
      scc := Sorting.Sort(Sorting.StringLeq, scc);
      result := result + [scc];
      part := scc;
    }

    /** Explores `v`, which is unvisited and reached by everything in `gray`. */
    method StrongConnect(graph: CallGraph, v: string, ghost gray: seq<string>, ghost universe: set<string>)
      requires Valid() && Searching(Calls(graph), Snapshot(), gray)
      requires v !in index && forall u :: u in gray ==> Reach(Calls(graph), u, v)
      requires v in universe && index.Keys <= universe && ClosedSet(Calls(graph), universe)
      modifies this
      ensures Valid() && Searching(Calls(graph), Snapshot(), gray)
      ensures v in lowlink && Explores(Calls(graph), old(Snapshot()), Snapshot(), v, lowlink[v])
      ensures KeepsLows(old(lowlink), lowlink)
      ensures index.Keys <= universe
      decreases universe - index.Keys
    {
      hide Searching, Edge, Reach, Explores, LowSoFar, Extends, Calls, AllSorted, KeepsLows, NewReached,
        ClosedSet, Ordered, Partitioned, GrayOnStack;
      ghost var g := Calls(graph);
      ghost var s0 := Snapshot();
      ghost var low0 := lowlink;
      BeforeEntering(g, s0, gray, v, low0);
      Enter(v);

      var edges := if v in graph then graph[v] else [];
      for i := 0 to |edges|
        invariant Valid() && Searching(g, Snapshot(), gray + [v])
        invariant Extends(Entered(s0, v), Snapshot()) && v in index && v in lowlink
        invariant LowSoFar(g, Snapshot(), s0.stack, v, lowlink[v], edges[..i])
        invariant KeepsLows(low0, lowlink)
        invariant index.Keys <= universe && s0.index.Keys + {v} <= index.Keys
        invariant NewReached(g, s0, Snapshot(), v)
      {
        var w := edges[i];
        CallEdge(graph, v, w);
        assert edges[..i + 1] == edges[..i] + [w];
        ghost var s := Snapshot();
        ghost var lows := lowlink;
        SearchOrdered(g, s, gray + [v]);
        if w !in index {
          GrayReachesEdge(g, gray, v, w);
          InUniverse(g, universe, v, w);
          StrongConnect(graph, w, gray + [v], universe);
          AfterRecursion(g, s0, s, Snapshot(), gray, v, lows[v], edges[..i], w, lowlink[w]);
          LowsKept(low0, lows, lowlink, v, Min(lows[v], lowlink[w]));
          Lower(v, lowlink[w]);
        } else {
          LowSeen(g, s0, s, v, lows[v], edges[..i], w);
          if w in onStack {
            LowsKept(low0, lows, lows, v, Min(lows[v], index[w]));
            Lower(v, index[w]);
          }
        }
      }
      assert edges[..|edges|] == edges;
      ghost var s := Snapshot();
      SearchOrdered(g, s, gray + [v]);
      EdgesFollowed(graph, v, edges);
      VIsStacked(s0, s, v);
      if lowlink[v] == index[v] {
        ghost var part := CloseComponent(v, |s0.stack|);
        LeaveClosed(g, s0, s, gray, v, edges, part);
      } else {
        LeaveStacked(g, s0, s, gray, v, lowlink[v], edges);
      }
    }
  }

  ghost predicate ReachedFrom(g: Graph<string>, nodes: set<string>, x: string) {
    exists n :: n in nodes && Reach(g, n, x)
  }

  ghost predicate ReachesPart(g: Graph<string>, n: string, part: seq<string>) {
    exists x :: x in part && Reach(g, n, x)
  }

  /**
    The least node that reaches a part is no later than the least node that reaches a part listed behind it.
   */
  ghost predicate ListedByLeastNode(g: Graph<string>, nodes: set<string>, result: seq<seq<string>>) {
    forall i, j, n :: 0 <= i < j < |result| && n in nodes && ReachesPart(g, n, result[j]) ==>
      exists m :: m in nodes && ReachesPart(g, m, result[i]) && Sorting.Lexicographic(m, n)
  }

  /** The first node in order to reach each part, by its place; a part is reached from there as a whole. */
  ghost predicate FirstNodes(g: Graph<string>, order: seq<string>, result: seq<seq<string>>, first: seq<nat>, n: nat)
    requires n <= |order|
  {
    && |first| == |result|
    && (forall j :: 0 <= j < |first| ==> first[j] < n)
    && (forall i, j :: 0 <= i < j < |first| ==> first[i] <= first[j])
    && (forall j, x :: 0 <= j < |first| && x in result[j] ==> Reach(g, order[first[j]], x))
    && (forall j, k, x :: 0 <= j < |first| && 0 <= k < first[j] && x in result[j] ==> !Reach(g, order[k], x))
  }

  /** A name in a part added by exploring `v` is new, and `v` reaches it. */
  lemma AddedIsNew(g: Graph<string>, s: Snap, t: Snap, v: string, low: nat, j: nat, x: string)
    requires Searching(g, s, []) && Searching(g, t, []) && Explores(g, s, t, v, low)
    requires |s.result| <= j < |t.result| && x in t.result[j]
    ensures x !in s.index && Reach(g, v, x) && s.stack == []
  {
    hide Reach, Finished, Ordered, Explored, GrayReaches, Anchored, Searching;
    NothingStacked(g, s);
    assert Partitioned(s) && Partitioned(t) by {
      SearchIsPartitioned(g, s);
      SearchIsPartitioned(g, t);
    }
    assert InResult(t.result, x);
  }

  lemma SearchIsPartitioned(g: Graph<string>, s: Snap)
    requires Searching(g, s, [])
    ensures Partitioned(s) && Finished(g, s.result)
  {
  }

  /** No name indexed before reaches a new one. */
  lemma OldReachesOld(g: Graph<string>, s: Snap, u: string, x: string)
    requires Searching(g, s, []) && u in s.index && Reach(g, u, x)
    ensures x in s.index
  {
    hide Reach, Finished, Searching, DisjointParts;
    NothingStacked(g, s);
    SearchIsPartitioned(g, s);
    EmptyStaysAbove(g, s);
    ReachStaysAbove(g, s, 0, u, x);
  }

  /** Exploring the next node: the parts it adds are reached from it and from no node before it. */
  lemma NextFirst(
    g: Graph<string>, order: seq<string>, s: Snap, t: Snap, low: nat, first: seq<nat>, n: nat) returns (more: seq<nat>)
    requires n < |order| && Searching(g, s, []) && Searching(g, t, []) && Explores(g, s, t, order[n], low)
    requires FirstNodes(g, order, s.result, first, n) && forall k :: 0 <= k < n ==> order[k] in s.index
    ensures FirstNodes(g, order, t.result, more, n + 1)
  {
    hide Reach, Searching;
    assert s.result <= t.result by {
      hide FirstNodes;
    }
    more := first + seq(|t.result| - |s.result|, _ => n);
    forall j, x | |s.result| <= j < |t.result| && x in t.result[j]
      ensures x !in s.index && Reach(g, order[n], x)
    {
      AddedIsNew(g, s, t, order[n], low, j, x);
    }
    forall j, k, x | |s.result| <= j < |t.result| && 0 <= k < n && x in t.result[j] ensures !Reach(g, order[k], x) {
      if Reach(g, order[k], x) {
        OldReachesOld(g, s, order[k], x);
      }
    }
    FirstNodesGrow(g, order, s.result, t.result, first, more, n);
  }

  lemma FirstNodesGrow(
    g: Graph<string>, order: seq<string>, before: seq<seq<string>>, result: seq<seq<string>>, first: seq<nat>,
    more: seq<nat>, n: nat)
    requires n < |order| && before <= result && FirstNodes(g, order, before, first, n)
    requires |more| == |result| && first <= more && forall j :: |before| <= j < |more| ==> more[j] == n
    requires forall j, x :: |before| <= j < |result| && x in result[j] ==> Reach(g, order[n], x)
    requires forall j, k, x :: |before| <= j < |result| && 0 <= k < n && x in result[j] ==> !Reach(g, order[k], x)
    ensures FirstNodes(g, order, result, more, n + 1)
  {
    hide Reach;
    assert forall j :: 0 <= j < |before| ==> result[j] == before[j];
    assert forall j :: 0 <= j < |first| ==> more[j] == first[j];
  }

  lemma EmptyStaysAbove(g: Graph<string>, s: Snap)
    requires s.stack == []
    ensures StaysAbove(g, s, 0)
  {
  }

  /** A node that reaches a part is no earlier than the first node that reaches a part listed before it. */
  lemma FirstIsEarlier(
    g: Graph<string>, order: seq<string>, result: seq<seq<string>>, first: seq<nat>, i: nat, j: nat, k: nat)
    requires FirstNodes(g, order, result, first, |order|) && i < j < |result| && k < |order|
    requires result[i] != [] && ReachesPart(g, order[k], result[j])
    ensures first[i] <= k && ReachesPart(g, order[first[i]], result[i])
  {
    hide Reach;
    var x :| x in result[j] && Reach(g, order[k], x);
    assert first[j] <= k;
    assert result[i][0] in result[i];
  }

  lemma FirstNodesList(
    g: Graph<string>, nodes: set<string>, order: seq<string>, result: seq<seq<string>>, first: seq<nat>)
    requires FirstNodes(g, order, result, first, |order|) && (forall x :: x in order <==> x in nodes)
    requires InLexicographicOrder(order) && DisjointParts(result)
    ensures ListedByLeastNode(g, nodes, result)
  {
    hide Reach, ReachesPart, Sorting.Lexicographic;
    forall i, j, n | 0 <= i < j < |result| && n in nodes && ReachesPart(g, n, result[j])
      ensures exists m :: m in nodes && ReachesPart(g, m, result[i]) && Sorting.Lexicographic(m, n)
    {
      assert n in order;
      var k: nat :| k < |order| && order[k] == n;
      FirstIsEarlier(g, order, result, first, i, j, k);
      var m := order[first[i]];
      assert m in order;
      SameIsLexicographic(n);
      assert Sorting.Lexicographic(m, n);
    }
  }

  lemma SameIsLexicographic(n: string)
    ensures Sorting.Lexicographic(n, n)
  {
  }

  /**
    `result` partitions the names reached from `nodes` into the classes of mutual reachability; each class is
    sorted, and an edge between two classes leads to the one listed earlier. Classes are listed by the least node that
    reaches them.
   */
  ghost predicate SccDecomposition(g: Graph<string>, nodes: set<string>, result: seq<seq<string>>) {
    && DisjointParts(result)
    && (forall x :: InResult(result, x) <==> ReachedFrom(g, nodes, x))
    && (forall i :: 0 <= i < |result| ==> IsComponent(g, result[i]) && PointsBack(g, result, i))
    && AllSorted(result) && ListedByLeastNode(g, nodes, result)
  }

  /** The elements of a set, in some order. */
  method Collect(nodes: set<string>) returns (list: seq<string>)
    ensures forall x :: x in list <==> x in nodes
    ensures Distinct(list)
  {
    list := [];
    var rest := nodes;
    while rest != {}
      invariant rest <= nodes && Distinct(list)
      invariant forall x :: x in list <==> x in nodes && x !in rest
    {
      var x :| x in rest;
      list := list + [x];
      rest := rest - {x};
    }
  }

  ghost function Universe(nodes: set<string>, graph: CallGraph): set<string> {
    nodes + set v, w | v in graph && w in graph[v] :: w
  }

  lemma UniverseIsClosed(nodes: set<string>, graph: CallGraph)
    ensures ClosedSet(Calls(graph), Universe(nodes, graph))
  {
    forall x, y | x in Universe(nodes, graph) && Edge(Calls(graph), x, y) ensures y in Universe(nodes, graph) {
      CallEdge(graph, x, y);
    }
  }

  lemma EmptySearch(g: Graph<string>)
    ensures Searching(g, Snap(0, map[], [], []), [])
  {
  }

  lemma StackedNeedsGray(g: Graph<string>, s: Snap, gray: seq<string>, i: nat)
    requires Searching(g, s, gray) && i < |s.stack|
    ensures gray != []
  {
    hide Reach, Partitioned, Finished, Explored, GrayReaches;
    assert s.stack[i] in s.stack;
    var u :| Anchor(g, s, gray, s.stack[i], u);
  }

  /** With nothing being explored the stack is empty. */
  lemma NothingStacked(g: Graph<string>, s: Snap)
    requires Searching(g, s, [])
    ensures s.stack == []
  {
    hide Searching;
    if s.stack != [] {
      StackedNeedsGray(g, s, [], 0);
    }
  }

  lemma SearchDecomposes(g: Graph<string>, nodes: set<string>, s: Snap)
    requires Searching(g, s, []) && AllSorted(s.result) && ListedByLeastNode(g, nodes, s.result)
    requires forall n :: n in nodes ==> n in s.index
    requires forall x :: x in s.index ==> ReachedFrom(g, nodes, x)
    ensures SccDecomposition(g, nodes, s.result)
  {
    hide Reach, DisjointParts, AllSorted, Explored, GrayReaches, Anchored, InResult, Ordered, IsComponent, PointsBack,
      ListedByLeastNode;
    NothingStacked(g, s);
    assert StaysAbove(g, s, 0);
    forall x | ReachedFrom(g, nodes, x) ensures InResult(s.result, x) {
      var n :| n in nodes && Reach(g, n, x);
      ReachStaysAbove(g, s, 0, n, x);
    }
  }

  lemma NoFirstNodes(g: Graph<string>, order: seq<string>)
    ensures FirstNodes(g, order, [], [], 0)
  {
  }

  lemma FirstNodesStay(g: Graph<string>, order: seq<string>, result: seq<seq<string>>, first: seq<nat>, n: nat)
    requires n < |order| && FirstNodes(g, order, result, first, n)
    ensures FirstNodes(g, order, result, first, n + 1)
  {
    hide Reach;
  }

  lemma PartsAreDisjoint(g: Graph<string>, s: Snap)
    requires Searching(g, s, [])
    ensures DisjointParts(s.result)
  {
  }

  method TarjanScc(nodes: set<string>, graph: CallGraph) returns (result: seq<seq<string>>)
    ensures SccDecomposition(Calls(graph), nodes, result)
  {
    hide Searching, Edge, Reach, Explores, Calls, AllSorted, ClosedSet, SccDecomposition, Universe, ReachedFrom,
      Sorting.Sort, Sorting.StringLeq, Sorting.Lexicographic, Distinct, FirstNodes, ListedByLeastNode, DisjointParts;
    ghost var g := Calls(graph);
    ghost var universe := Universe(nodes, graph);
    UniverseIsClosed(nodes, graph);
    EmptySearch(g);
    var state := new TarjanState();
    var sortedNodes := Collect(nodes);
    Sorting.SortIsPermutation(Sorting.StringLeq, sortedNodes);
    Sorting.SortsStrings(sortedNodes);
    sortedNodes := Sorting.Sort(Sorting.StringLeq, sortedNodes);
    ghost var first: seq<nat> := [];
    NoFirstNodes(g, sortedNodes);
    for i := 0 to |sortedNodes|
      invariant fresh(state) && state.Valid() && Searching(g, state.Snapshot(), [])
      invariant forall j :: 0 <= j < i ==> sortedNodes[j] in state.index
      invariant forall x :: x in state.index ==> ReachedFrom(g, nodes, x)
      invariant state.index.Keys <= universe
      invariant FirstNodes(g, sortedNodes, state.result, first, i)
    {
      var node := sortedNodes[i];
      assert node in sortedNodes;
      if node !in state.index {
        ghost var s := state.Snapshot();
        InUniverseSet(nodes, graph, node);
        state.StrongConnect(graph, node, [], universe);
        NowReached(g, nodes, s, state.Snapshot(), node, state.lowlink[node]);
        first := NextFirst(g, sortedNodes, s, state.Snapshot(), state.lowlink[node], first, i);
      } else {
        FirstNodesStay(g, sortedNodes, state.result, first, i);
      }
    }
    PartsAreDisjoint(g, state.Snapshot());
    FirstNodesList(g, nodes, sortedNodes, state.result, first);
    SearchDecomposes(g, nodes, state.Snapshot());
    result := state.result;
  }

  lemma InUniverseSet(nodes: set<string>, graph: CallGraph, n: string)
    requires n in nodes
    ensures n in Universe(nodes, graph)
  {
  }

  lemma NowReached(g: Graph<string>, nodes: set<string>, s: Snap, t: Snap, n: string, low: nat)
    requires n in nodes && Explores(g, s, t, n, low)
    requires forall x :: x in s.index ==> ReachedFrom(g, nodes, x)
    ensures forall x :: x in t.index ==> ReachedFrom(g, nodes, x)
    ensures n in t.index && s.index.Keys <= t.index.Keys
  {
    hide Reach;
  }
}
