/** Iterative depth-first search and the reverse postorder it yields. */
module ReversePostorders {
  import opened Basics
  import opened Graphs
  import opened Cfgs
  import opened LinkTables

  /** `rpo` lists exactly the reachable blocks, each once, entry first, and `pos` is its inverse. */
  ghost predicate IsListing(cfg: Cfg, rpo: seq<nat>, pos: seq<nat>)
    requires ValidCfg(cfg)
  {
    && |pos| == |cfg.blocks|
    && (forall i :: 0 <= i < |rpo| ==> rpo[i] < |pos| && pos[rpo[i]] == i)
    && (forall b :: 0 <= b < |pos| && pos[b] != UNDEFINED ==> pos[b] < |rpo| && rpo[pos[b]] == b)
    && (forall b: nat :: b < |pos| ==> (pos[b] != UNDEFINED <==> Reachable(cfg, b)))
    && rpo != [] && rpo[0] == cfg.entry
  }

  /** An edge to a block not listed later is closed by a path back to its source. */
  ghost predicate RetreatsCloseCycles(cfg: Cfg, pos: seq<nat>)
    requires ValidCfg(cfg) && |pos| == |cfg.blocks|
  {
    forall u: nat, v: nat :: u < |pos| && v < |pos| && pos[u] != UNDEFINED && Edge(Flow(cfg), u, v) && pos[v] <= pos[u]
      ==> Reach(Flow(cfg), v, u)
  }

  /** `parent` is a spanning tree of the listed blocks: each block has an edge from an earlier one. */
  ghost predicate IsTree(cfg: Cfg, pos: seq<nat>, parent: seq<nat>)
    requires ValidCfg(cfg)
  {
    && Links(pos, cfg.entry, parent)
    && |pos| == |cfg.blocks|
    && (forall b: nat :: b < |pos| ==> (Set(parent, b) <==> pos[b] != UNDEFINED))
    && (forall b: nat :: Set(parent, b) && b != cfg.entry ==> Edge(Flow(cfg), parent[b], b))
  }

  // ---------- the state of the search ----------

  /**
    A snapshot of the search: `path` holds the blocks of the stack, `next` how many successors of each have
    been looked at, `post` the finished blocks and `parent` the tree edges taken.
   */
  datatype Search = Search(visited: seq<bool>, path: seq<nat>, next: seq<nat>, post: seq<nat>, parent: seq<nat>)

  ghost predicate Shape(cfg: Cfg, s: Search)
    requires ValidCfg(cfg)
  {
    var n := |cfg.blocks|;
    && |s.visited| == n && |s.parent| == n && |s.next| == |s.path|
    && (forall i :: 0 <= i < |s.path| ==> s.path[i] < n && s.visited[s.path[i]])
    && (forall i :: 0 <= i < |s.post| ==> s.post[i] < n && s.visited[s.post[i]])
    && Distinct(s.path) && Distinct(s.post)
    && (forall i, j :: 0 <= i < |s.path| && 0 <= j < |s.post| ==> s.path[i] != s.post[j])
    && (forall i :: 0 <= i < |s.path| ==> s.next[i] <= |cfg.blocks[s.path[i]].successors|)
  }

  /** Every visited block is still on the stack or finished. */
  ghost predicate Kept(s: Search) {
    forall b: nat :: b < |s.visited| && s.visited[b] ==> b in s.path || b in s.post
  }

  ghost predicate Visits(cfg: Cfg, s: Search)
    requires ValidCfg(cfg) && Shape(cfg, s)
  {
    && (forall i, j :: 0 <= i < |s.path| && 0 <= j < s.next[i] ==> s.visited[cfg.blocks[s.path[i]].successors[j]])
    && (forall i, v :: 0 <= i < |s.post| && v in cfg.blocks[s.post[i]].successors ==> s.visited[v])
    && (forall b: nat :: b < |s.visited| && s.visited[b] ==> Reachable(cfg, b))
  }

  ghost predicate TreeEdge(cfg: Cfg, parent: seq<nat>, b: nat)
    requires ValidCfg(cfg) && b < |parent|
  {
    Set(parent, b) && b != cfg.entry ==>
      parent[b] < |parent| && Set(parent, parent[b]) && Edge(Flow(cfg), parent[b], b)
  }

  /** A finished block lies on a cycle with each successor still on the stack or finished after it. */
  ghost predicate Retreats(cfg: Cfg, s: Search)
    requires ValidCfg(cfg) && Shape(cfg, s)
  {
    && (forall i, j :: 0 <= i < |s.post| && 0 <= j < |s.path| && s.path[j] in cfg.blocks[s.post[i]].successors ==>
          Reach(Flow(cfg), s.path[j], s.post[i]))
    && (forall i, j :: 0 <= i < j < |s.post| && s.post[j] in cfg.blocks[s.post[i]].successors ==>
          Reach(Flow(cfg), s.post[j], s.post[i]))
  }

  ghost predicate Tree(cfg: Cfg, s: Search)
    requires ValidCfg(cfg) && Shape(cfg, s)
  {
    && (s.path != [] ==> s.path[0] == cfg.entry)
    && (s.path == [] ==> s.post != [] && s.post[|s.post| - 1] == cfg.entry)
    && s.visited[cfg.entry] && s.parent[cfg.entry] == cfg.entry
    && (forall b: nat :: b < |s.parent| ==> (s.visited[b] <==> Set(s.parent, b)))
    && (forall i, j {:trigger s.path[i], s.path[j]} :: 0 <= i < j < |s.path| && j == i + 1 ==>
          s.path[j] != cfg.entry && s.parent[s.path[j]] == s.path[i])
    && (forall b: nat :: b < |s.parent| ==> TreeEdge(cfg, s.parent, b))
    && (forall i, j :: 0 <= j <= i < |s.post| && s.post[i] != cfg.entry ==> s.parent[s.post[i]] != s.post[j])
  }

  ghost predicate Searching(cfg: Cfg, s: Search)
    requires ValidCfg(cfg)
  {
    Shape(cfg, s) && Kept(s) && Visits(cfg, s) && Retreats(cfg, s) && Tree(cfg, s)
  }

  function Top(path: seq<nat>): nat
    requires path != []
  {
    path[|path| - 1]
  }

  /** Every block of the stack reaches the top one. */
  lemma {:induction false} StackReaches(cfg: Cfg, s: Search, i: nat)
    requires ValidCfg(cfg) && Searching(cfg, s) && i < |s.path|
    ensures Reach(Flow(cfg), s.path[i], Top(s.path))
    decreases |s.path| - i
  {
    if i == |s.path| - 1 {
      ReachRefl(Flow(cfg), s.path[i]);
    } else {
      StackReaches(cfg, s, i + 1);
      var b := s.path[i + 1];
      assert TreeEdge(cfg, s.parent, b);
      assert s.parent[b] == s.path[i];
      ReachEdge(Flow(cfg), s.path[i], b);
      ReachTrans(Flow(cfg), s.path[i], b, Top(s.path));
    }
  }

  function Pushed(s: Search, b: nat): Search
    requires s.path != [] && |s.next| == |s.path| && b < |s.visited| && |s.parent| == |s.visited|
  {
    Search(s.visited[b := true], s.path + [b], s.next[|s.path| - 1 := s.next[|s.path| - 1] + 1] + [0], s.post,
           s.parent[b := Top(s.path)])
  }

  function Skipped(s: Search): Search
    requires s.path != [] && |s.next| == |s.path|
  {
    s.(next := s.next[|s.path| - 1 := s.next[|s.path| - 1] + 1])
  }

  function Popped(s: Search): Search
    requires s.path != [] && |s.next| == |s.path|
  {
    s.(path := s.path[..|s.path| - 1], next := s.next[..|s.path| - 1], post := s.post + [Top(s.path)])
  }

  /** The next successor of the top block, if any is left. */
  ghost predicate HasNext(cfg: Cfg, s: Search, b: nat)
    requires ValidCfg(cfg) && Shape(cfg, s)
  {
    && s.path != []
    && s.next[|s.path| - 1] < |cfg.blocks[Top(s.path)].successors|
    && b == cfg.blocks[Top(s.path)].successors[s.next[|s.path| - 1]]
  }

  lemma PushShape(cfg: Cfg, s: Search, b: nat)
    requires ValidCfg(cfg) && Shape(cfg, s) && HasNext(cfg, s, b) && !s.visited[b]
    ensures Shape(cfg, Pushed(s, b))
  {
    var t := Pushed(s, b);
    assert t.path[|s.path|] == b;
  }

  lemma PushKept(s: Search, b: nat)
    requires s.path != [] && |s.next| == |s.path| && b < |s.visited| && |s.parent| == |s.visited|
    requires Kept(s)
    ensures Kept(Pushed(s, b))
  {
    assert (s.path + [b])[|s.path|] == b;
  }

  lemma PushVisits(cfg: Cfg, s: Search, b: nat)
    requires ValidCfg(cfg) && Shape(cfg, s) && HasNext(cfg, s, b) && Visits(cfg, s) && Shape(cfg, Pushed(s, b))
    ensures Visits(cfg, Pushed(s, b))
  {
    hide Reach;
    assert Edge(Flow(cfg), Top(s.path), b);
    ReachStep(Flow(cfg), cfg.entry, Top(s.path), b);
  }

  lemma PushRetreats(cfg: Cfg, s: Search, b: nat)
    requires ValidCfg(cfg) && Shape(cfg, s) && HasNext(cfg, s, b) && !s.visited[b] && Shape(cfg, Pushed(s, b))
    requires Visits(cfg, s) && Retreats(cfg, s)
    ensures Retreats(cfg, Pushed(s, b))
  {
  }

  lemma PushTreeEdge(cfg: Cfg, s: Search, b: nat, x: nat)
    requires ValidCfg(cfg) && Shape(cfg, s) && HasNext(cfg, s, b) && !s.visited[b] && Tree(cfg, s) && x < |s.parent|
    ensures TreeEdge(cfg, Pushed(s, b).parent, x)
  {
    hide Reach, Distinct;
    assert TreeEdge(cfg, s.parent, x);
    assert Edge(Flow(cfg), Top(s.path), b);
  }

  lemma PushTree(cfg: Cfg, s: Search, b: nat)
    requires ValidCfg(cfg) && Shape(cfg, s) && HasNext(cfg, s, b) && !s.visited[b] && Shape(cfg, Pushed(s, b))
    requires Tree(cfg, s)
    ensures Tree(cfg, Pushed(s, b))
  {
    hide TreeEdge, Edge, Flow;
    var t := Pushed(s, b);
    forall x: nat | x < |t.parent| ensures TreeEdge(cfg, t.parent, x) {
      PushTreeEdge(cfg, s, b, x);
    }
  }

  lemma PushKeeps(cfg: Cfg, s: Search, b: nat)
    requires ValidCfg(cfg) && Searching(cfg, s) && HasNext(cfg, s, b) && !s.visited[b]
    ensures Searching(cfg, Pushed(s, b))
  {
    PushShape(cfg, s, b);
    PushKept(s, b);
    PushVisits(cfg, s, b);
    PushRetreats(cfg, s, b);
    PushTree(cfg, s, b);
  }

  lemma SkipShape(cfg: Cfg, s: Search, b: nat)
    requires ValidCfg(cfg) && Shape(cfg, s) && HasNext(cfg, s, b)
    ensures Shape(cfg, Skipped(s))
  {
  }

  lemma SkipVisits(cfg: Cfg, s: Search, b: nat)
    requires ValidCfg(cfg) && Shape(cfg, s) && HasNext(cfg, s, b) && s.visited[b] && Visits(cfg, s)
    requires Shape(cfg, Skipped(s))
    ensures Visits(cfg, Skipped(s))
  {
  }

  lemma SkipRest(cfg: Cfg, s: Search)
    requires ValidCfg(cfg) && Shape(cfg, s) && s.path != [] && Shape(cfg, Skipped(s))
    requires Kept(s) && Retreats(cfg, s) && Tree(cfg, s)
    ensures Kept(Skipped(s)) && Retreats(cfg, Skipped(s)) && Tree(cfg, Skipped(s))
  {
    hide Reach, Distinct, WellFormed, TreeEdge;
  }

  lemma SkipKeeps(cfg: Cfg, s: Search, b: nat)
    requires ValidCfg(cfg) && Searching(cfg, s) && HasNext(cfg, s, b) && s.visited[b]
    ensures Searching(cfg, Skipped(s))
  {
    hide Kept, Visits, Retreats, Tree;
    SkipShape(cfg, s, b);
    SkipVisits(cfg, s, b);
    SkipRest(cfg, s);
  }

  /** The top block is finished once all its successors have been looked at. */
  ghost predicate Finished(cfg: Cfg, s: Search)
    requires ValidCfg(cfg) && Shape(cfg, s)
  {
    s.path != [] && s.next[|s.path| - 1] == |cfg.blocks[Top(s.path)].successors|
  }

  lemma PopShape(cfg: Cfg, s: Search)
    requires ValidCfg(cfg) && Shape(cfg, s) && Finished(cfg, s)
    ensures Shape(cfg, Popped(s))
  {
  }

  lemma PopKept(s: Search)
    requires s.path != [] && |s.next| == |s.path| && Kept(s)
    ensures Kept(Popped(s))
  {
    assert s.path == Popped(s).path + [Top(s.path)];
  }

  lemma PopVisits(cfg: Cfg, s: Search)
    requires ValidCfg(cfg) && Shape(cfg, s) && Finished(cfg, s) && Visits(cfg, s) && Shape(cfg, Popped(s))
    ensures Visits(cfg, Popped(s))
  {
  }

  lemma PopRetreats(cfg: Cfg, s: Search)
    requires ValidCfg(cfg) && Shape(cfg, s) && Finished(cfg, s) && Retreats(cfg, s) && Shape(cfg, Popped(s))
    requires forall j :: 0 <= j < |s.path| ==> Reach(Flow(cfg), s.path[j], Top(s.path))
    ensures Retreats(cfg, Popped(s))
  {
  }

  lemma PopTree(cfg: Cfg, s: Search)
    requires ValidCfg(cfg) && Shape(cfg, s) && Finished(cfg, s) && Tree(cfg, s) && Shape(cfg, Popped(s))
    ensures Tree(cfg, Popped(s))
  {
    var k := |s.path| - 1;
    if k > 0 {
      assert s.parent[s.path[k]] == s.path[k - 1];
    }
  }

  lemma PopKeeps(cfg: Cfg, s: Search)
    requires ValidCfg(cfg) && Searching(cfg, s) && Finished(cfg, s)
    ensures Searching(cfg, Popped(s))
  {
    PopShape(cfg, s);
    PopKept(s);
    PopVisits(cfg, s);
    forall j | 0 <= j < |s.path| ensures Reach(Flow(cfg), s.path[j], Top(s.path)) {
      StackReaches(cfg, s, j);
    }
    PopRetreats(cfg, s);
    PopTree(cfg, s);
  }

  // ---------- the search itself ----------

  lemma {:induction false} DistinctBound(s: seq<nat>, n: nat)
    requires Distinct(s) && forall i :: 0 <= i < |s| ==> s[i] < n
    ensures |s| <= n
    decreases n
  {
    if s == [] {
    } else if i :| 0 <= i < |s| && s[i] == n - 1 {
      DistinctBound(s[..i] + s[i + 1..], n - 1);
    } else {
      assert s[0] < n;
      DistinctBound(s, n - 1);
    }
  }

  /** The table of positions counted from the end of the finished blocks. */
  ghost predicate Counts(s: Search, pos: seq<nat>) {
    && (forall i :: 0 <= i < |s.post| ==> s.post[i] < |pos| && pos[s.post[i]] == |s.post| - 1 - i)
    && (forall b: nat :: b < |pos| && b !in s.post ==> pos[b] == UNDEFINED)
  }

  lemma CountedPositions(cfg: Cfg, s: Search, pos: seq<nat>)
    requires ValidCfg(cfg) && Shape(cfg, s) && Tree(cfg, s) && s.path == [] && |pos| == |cfg.blocks| && Counts(s, pos)
    ensures Positions(pos, cfg.entry)
    ensures forall b: nat :: b < |pos| ==> (b in s.post <==> pos[b] != UNDEFINED)
  {
    DistinctBound(s.post, |pos|);
    forall a, b | 0 <= a < |pos| && 0 <= b < |pos| && pos[a] == pos[b] < UNDEFINED ensures a == b {
      assert a in s.post && b in s.post;
    }
  }

  lemma CountedTree(cfg: Cfg, s: Search, pos: seq<nat>)
    requires ValidCfg(cfg) && Shape(cfg, s) && Tree(cfg, s) && s.path == [] && |pos| == |cfg.blocks| && Counts(s, pos)
    requires Positions(pos, cfg.entry)
    requires forall b: nat :: b < |pos| ==> (b in s.post <==> pos[b] != UNDEFINED)
    requires forall b: nat :: b < |pos| ==> (b in s.post <==> s.visited[b])
    ensures IsTree(cfg, pos, s.parent)
  {
    hide Counts, Edge, Reach, Distinct;
    forall b: nat | Set(s.parent, b)
      ensures TreeEdge(cfg, s.parent, b) && (b != cfg.entry ==> pos[s.parent[b]] < pos[b] < UNDEFINED)
    {
      assert TreeEdge(cfg, s.parent, b);
      if b != cfg.entry {
        CountedEdge(cfg, s, pos, b);
      }
    }
  }

  lemma CountedEdge(cfg: Cfg, s: Search, pos: seq<nat>, b: nat)
    requires ValidCfg(cfg) && Shape(cfg, s) && Tree(cfg, s) && |pos| == |cfg.blocks| && Counts(s, pos)
    requires b < |pos| && b in s.post && b != cfg.entry && s.parent[b] in s.post
    ensures pos[s.parent[b]] < pos[b]
  {
    hide TreeEdge, Distinct;
    var i :| 0 <= i < |s.post| && s.post[i] == b;
    var j :| 0 <= j < |s.post| && s.post[j] == s.parent[b];
    assert s.parent[s.post[i]] == s.post[j];
  }

  lemma CountedRetreats(cfg: Cfg, s: Search, pos: seq<nat>)
    requires ValidCfg(cfg) && Shape(cfg, s) && Retreats(cfg, s) && s.path == []
    requires |pos| == |cfg.blocks| && Counts(s, pos)
    requires forall b: nat :: b < |pos| ==> (b in s.post <==> pos[b] != UNDEFINED)
    ensures RetreatsCloseCycles(cfg, pos)
  {
    forall u: nat, v: nat | u < |pos| && v < |pos| && pos[u] != UNDEFINED && Edge(Flow(cfg), u, v) && pos[v] <= pos[u]
      ensures Reach(Flow(cfg), v, u)
    {
      var i :| 0 <= i < |s.post| && s.post[i] == u;
      DistinctBound(s.post, |pos|);
      var j :| 0 <= j < |s.post| && s.post[j] == v;
      if i == j {
        ReachRefl(Flow(cfg), u);
      }
    }
  }

  /** The blocks finished by the search are the reachable ones. */
  lemma SearchedAll(cfg: Cfg, s: Search)
    requires ValidCfg(cfg) && Searching(cfg, s) && s.path == []
    ensures forall b: nat :: b < |cfg.blocks| ==> (b in s.post <==> Reachable(cfg, b))
    ensures forall b: nat :: b < |cfg.blocks| ==> (b in s.post <==> s.visited[b])
  {
    var seen := set b: nat | b < |cfg.blocks| && s.visited[b];
    forall x, y | x in seen && Edge(Flow(cfg), x, y) ensures y in seen {
      var i :| 0 <= i < |s.post| && s.post[i] == x;
    }
    forall b: nat | b < |cfg.blocks| && Reachable(cfg, b) ensures b in seen {
      ClosedUnderReach(Flow(cfg), seen, cfg.entry, b);
    }
  }

  /** What a step needs of the shape: the top block and its next successor are in range. */
  lemma SearchBounds(cfg: Cfg, s: Search)
    requires ValidCfg(cfg) && Searching(cfg, s)
    ensures Shape(cfg, s) && |s.visited| == |s.parent| == |cfg.blocks| && |s.next| == |s.path|
    ensures Visits(cfg, s) && Retreats(cfg, s) && Tree(cfg, s)
    ensures Distinct(s.post) && |s.post| <= |cfg.blocks|
    ensures s.path == [] ==> s.post != [] && s.post[|s.post| - 1] == cfg.entry
    ensures s.path != [] ==>
      && Top(s.path) < |cfg.blocks|
      && s.next[|s.path| - 1] <= |cfg.blocks[Top(s.path)].successors|
  {
    DistinctBound(s.post, |cfg.blocks|);
  }

  /** How many successors of the top block are still to be looked at. */
  ghost function Remaining(cfg: Cfg, s: Search): nat
    requires ValidCfg(cfg) && Searching(cfg, s) && s.path != []
  {
    |cfg.blocks[Top(s.path)].successors| - s.next[|s.path| - 1]
  }

  ghost function Start(cfg: Cfg): Search
    requires ValidCfg(cfg)
  {
    var n := |cfg.blocks|;
    Search(seq(n, _ => false)[cfg.entry := true], [cfg.entry], [0], [], seq(n, _ => UNDEFINED)[cfg.entry := cfg.entry])
  }

  lemma StartSearches(cfg: Cfg)
    requires ValidCfg(cfg)
    ensures Searching(cfg, Start(cfg))
  {
    hide Reach;
    ReachRefl(Flow(cfg), cfg.entry);
  }

  /** The concrete stack and flags agree with the snapshot. */
  ghost predicate Mirrors(s: Search, visited: seq<bool>, stack: seq<(nat, nat)>) {
    && visited == s.visited
    && |stack| == |s.path| == |s.next|
    && forall i :: 0 <= i < |stack| ==> stack[i] == (s.path[i], s.next[i])
  }

  lemma MirrorTop(s: Search, visited: seq<bool>, stack: seq<(nat, nat)>)
    requires Mirrors(s, visited, stack)
    ensures |stack| == |s.path| == |s.next| && visited == s.visited
    ensures stack != [] ==> stack[|stack| - 1] == (Top(s.path), s.next[|s.path| - 1])
  {
  }

  lemma MirrorMoves(s: Search, visited: seq<bool>, stack: seq<(nat, nat)>, next: nat)
    requires Mirrors(s, visited, stack) && stack != [] && next < |s.visited| == |s.parent|
    ensures var (b, idx) := stack[|stack| - 1];
      && Mirrors(Skipped(s), visited, stack[|stack| - 1 := (b, idx + 1)])
      && Mirrors(Pushed(s, next), visited[next := true], stack[|stack| - 1 := (b, idx + 1)] + [(next, 0)])
      && Mirrors(Popped(s), visited, stack[..|stack| - 1])
  {
  }

  /** The blocks in the order in which a depth-first search from the entry finishes them. */
  method Postorder(cfg: Cfg) returns (postorder: seq<nat>, ghost s: Search)
    requires ValidCfg(cfg)
    ensures Searching(cfg, s) && s.path == [] && s.post == postorder
  {
    hide Searching, Shape, Kept, Visits, Retreats, Tree, Reachable, Reach, Mirrors, WellFormed;
    var n := |cfg.blocks|;
    postorder := [];
    var visited := new bool[n](_ => false);
    var stack: seq<(nat, nat)> := [(cfg.entry, 0)];
    visited[cfg.entry] := true;
    s := Start(cfg);
    ghost var unseen := set b: nat | b < n && !s.visited[b];
    StartSearches(cfg);
    StartMirrors(cfg, visited[..]);
    while stack != []
      invariant Searching(cfg, s) && Mirrors(s, visited[..], stack)
      invariant |stack| == |s.path| && |s.visited| == n && postorder == s.post
      invariant forall b: nat :: b in unseen <==> b < n && !s.visited[b]
      decreases unseen, |stack|, if stack == [] then 0 else Remaining(cfg, s)
    {
      SearchBounds(cfg, s);
      MirrorTop(s, visited[..], stack);
      ghost var seen := visited[..];
      var (b, idx) := stack[|stack| - 1];
      var succs := cfg.blocks[b].successors;
      if idx < |succs| {
        var next := succs[idx];
        NextInRange(cfg, b, idx);
        MirrorMoves(s, seen, stack, next);
        stack := stack[|stack| - 1 := (b, idx + 1)];
        if !visited[next] {
          PushKeeps(cfg, s, next);
          visited[next] := true;
          assert visited[..] == seen[next := true];
          stack := stack + [(next, 0)];
          s := Pushed(s, next);
          unseen := unseen - {next};
        } else {
          SkipKeeps(cfg, s, next);
          s := Skipped(s);
        }
      } else {
        PopKeeps(cfg, s);
        MirrorMoves(s, seen, stack, b);
        postorder := postorder + [b];
        stack := stack[..|stack| - 1];
        s := Popped(s);
      }
    }
    MirrorTop(s, visited[..], stack);
  }

  lemma StartMirrors(cfg: Cfg, visited: seq<bool>)
    requires ValidCfg(cfg) && |visited| == |cfg.blocks|
    requires forall b :: 0 <= b < |visited| ==> visited[b] == (b == cfg.entry)
    ensures Mirrors(Start(cfg), visited, [(cfg.entry, 0)])
  {
    hide WellFormed;
    assert visited == Start(cfg).visited;
  }

  lemma NextInRange(cfg: Cfg, b: nat, idx: nat)
    requires ValidCfg(cfg) && b < |cfg.blocks| && idx < |cfg.blocks[b].successors|
    ensures cfg.blocks[b].successors[idx] < |cfg.blocks|
  {
  }

  lemma ReversedCounts(s: Search, rpo: seq<nat>, pos: seq<nat>)
    requires rpo == Reversed(s.post) && IsInverse(rpo, pos)
    ensures Counts(s, pos)
  {
    forall i | 0 <= i < |s.post| ensures s.post[i] < |pos| && pos[s.post[i]] == |s.post| - 1 - i {
      assert s.post[i] == rpo[|rpo| - 1 - i];
    }
  }

  lemma SearchedListing(cfg: Cfg, s: Search, rpo: seq<nat>, pos: seq<nat>)
    requires ValidCfg(cfg) && Searching(cfg, s) && s.path == [] && rpo == Reversed(s.post)
    requires |pos| == |cfg.blocks| && IsInverse(rpo, pos)
    ensures IsListing(cfg, rpo, pos) && IsTree(cfg, pos, s.parent) && RetreatsCloseCycles(cfg, pos)
  {
    hide Searching, Shape, Kept, Visits, Retreats, Tree, Reachable, RetreatsCloseCycles, IsTree, IsListing, Counts,
      Distinct, Positions;
    SearchBounds(cfg, s);
    ReversedCounts(s, rpo, pos);
    SearchedAll(cfg, s);
    CountedPositions(cfg, s, pos);
    CountedTree(cfg, s, pos);
    CountedRetreats(cfg, s, pos);
    CountedListing(cfg, rpo, pos);
  }

  lemma CountedListing(cfg: Cfg, rpo: seq<nat>, pos: seq<nat>)
    requires ValidCfg(cfg) && |pos| == |cfg.blocks| && IsInverse(rpo, pos)
    requires rpo != [] && rpo[0] == cfg.entry && |rpo| <= |pos|
    requires forall b: nat :: b < |cfg.blocks| ==> (b in rpo <==> Reachable(cfg, b))
    ensures IsListing(cfg, rpo, pos)
  {
    hide Reachable, WellFormed;
    forall b: nat | b < |pos| && pos[b] != UNDEFINED
      ensures pos[b] < |rpo| && rpo[pos[b]] == b && Reachable(cfg, b)
    {
      assert b in rpo;
    }
  }

  ghost predicate IsInverse(rpo: seq<nat>, pos: seq<nat>) {
    && (forall i :: 0 <= i < |rpo| ==> rpo[i] < |pos| && pos[rpo[i]] == i)
    && (forall b: nat :: b < |pos| && b !in rpo ==> pos[b] == UNDEFINED)
  }

  /** The position of each listed block, `UNDEFINED` elsewhere. */
  method IndexTable(rpo: seq<nat>, n: nat) returns (rpoIndex: array<nat>)
    requires Distinct(rpo) && forall i :: 0 <= i < |rpo| ==> rpo[i] < n
    ensures fresh(rpoIndex) && rpoIndex.Length == n && IsInverse(rpo, rpoIndex[..])
  {
    rpoIndex := new nat[n](_ => UNDEFINED);
    for i := 0 to |rpo|
      invariant forall j :: 0 <= j < i ==> rpoIndex[rpo[j]] == j
      invariant forall b: nat :: b < n && b !in rpo[..i] ==> rpoIndex[b] == UNDEFINED
    {
      rpoIndex[rpo[i]] := i;
    }
    assert rpo[..|rpo|] == rpo;
  }

  method ReversePostorder(cfg: Cfg) returns (rpo: seq<nat>, rpoIndex: array<nat>, ghost parent: seq<nat>)
    requires ValidCfg(cfg)
    ensures fresh(rpoIndex)
    ensures IsListing(cfg, rpo, rpoIndex[..])
    ensures IsTree(cfg, rpoIndex[..], parent)
    ensures RetreatsCloseCycles(cfg, rpoIndex[..])
  {
    hide IsListing, IsTree, RetreatsCloseCycles, Visits, Retreats, Kept, Tree;
    var postorder, s := Postorder(cfg);
    rpo := Reversed(postorder);
    rpoIndex := IndexTable(rpo, |cfg.blocks|);
    SearchedListing(cfg, s, rpo, rpoIndex[..]);
    parent := s.parent;
  }
}
