/** The paths of a built control-flow graph are exactly the runs of the function. */
module CfgTraces {
  import opened Graphs
  import opened Cfgs
  import opened CfgSyntax
  import opened CfgRuns
  import opened CfgLowering
  import opened CfgWalks
  import opened CfgExits
  import opened CfgComplete
  import opened CfgSound

  /** The entry and exit blocks, before anything is lowered. */
  function Start(): Blocks {
    NewBlock(NewBlock([]))
  }

  const TOP := Ctx(1, [], [])

  ghost function TopScope(body: Block): Scope {
    Scope(0, 0, false, DepthB(body))
  }

  ghost function Body(body: Block): (o: Out)
    requires OkB(body, [], false)
    ensures Grows(Start(), 0, o)
  {
    LowerB(body, Start(), 0, TOP, TopScope(body))
  }

  ghost function Built(body: Block): Cfg
    requires OkB(body, [], false)
  {
    Cfg(AddEdge(Body(body).bs, Body(body).cur, 1), 0, 1)
  }

  /** The uses of the blocks along a path. */
  ghost function Uses(blocks: Blocks, p: seq<nat>): Trace {
    if p == [] then [] else (if p[0] < |blocks| then blocks[p[0]].uses else []) + Uses(blocks, p[1..])
  }

  ghost predicate PathSpells(cfg: Cfg, p: seq<nat>, t: Trace) {
    PathFromTo(Flow(cfg), cfg.entry, p, cfg.exit) && t == Uses(cfg.blocks, p)
  }

  /** Control stops at the exit, which reads nothing. */
  predicate Final(g: Blocks, exit: nat) {
    exit < |g| && g[exit].uses == [] && g[exit].successors == []
  }

  lemma BuiltShape(body: Block)
    requires OkB(body, [], false)
    ensures
      var (g, o) := (Built(body).blocks, Body(body));
      Kept(g, Start(), 0, o) && Leaves(g, o, {1}) && Final(g, 1)
  {
    hide LowerB;
    var o := Body(body);
    assert o.bs[1] == Start()[1];
  }

  // ---------- walks and paths ----------

  lemma {:induction false} ReadAll(g: Blocks, b: nat, i: nat)
    requires b < |g| && i <= |g[b].uses|
    ensures Connects(g, Point(b, i), g[b].uses[i..], Point(b, |g[b].uses|))
    decreases |g[b].uses| - i
  {
    hide Connects;
    if i == |g[b].uses| {
      ConnectsSelf(g, Point(b, i));
    } else {
      ConnectsRead(g, Point(b, i));
      ReadAll(g, b, i + 1);
      ConnectsTrans(g, Point(b, i), [g[b].uses[i]], Point(b, i + 1), g[b].uses[i + 1..], Point(b, |g[b].uses|));
      assert g[b].uses[i..] == [g[b].uses[i]] + g[b].uses[i + 1..];
    }
  }

  lemma {:induction false} PathIsWalk(cfg: Cfg, b: nat, p: seq<nat>)
    requires PathFromTo(Flow(cfg), b, p, cfg.exit) && Final(cfg.blocks, cfg.exit)
    ensures Connects(cfg.blocks, Point(b, 0), Uses(cfg.blocks, p), Point(cfg.exit, 0))
    decreases |p|
  {
    hide Connects;
    var g := cfg.blocks;
    if |p| == 1 {
      ConnectsSelf(g, Point(b, 0));
      assert Uses(g, p[1..]) == [];
    } else {
      PathSplit(Flow(cfg), b, p, cfg.exit);
      PathIsWalk(cfg, p[1], p[1..]);
      ReadAll(g, b, 0);
      ConnectsJump(g, Point(b, |g[b].uses|), p[1]);
      ConnectsTrans(g, Point(b, |g[b].uses|), [], Point(p[1], 0), Uses(g, p[1..]), Point(cfg.exit, 0));
      assert [] + Uses(g, p[1..]) == Uses(g, p[1..]) && g[b].uses[0..] == g[b].uses;
      ConnectsTrans(g, Point(b, 0), g[b].uses, Point(b, |g[b].uses|), Uses(g, p[1..]), Point(cfg.exit, 0));
    }
  }

  lemma {:induction false} WalkIsPath(cfg: Cfg, b: nat, i: nat, t: Trace, n: nat) returns (p: seq<nat>)
    requires Walk(cfg.blocks, Point(b, i), t, Point(cfg.exit, 0), n) && Final(cfg.blocks, cfg.exit)
    requires b < |cfg.blocks| && i <= |cfg.blocks[b].uses|
    ensures PathFromTo(Flow(cfg), b, p, cfg.exit) && t == cfg.blocks[b].uses[i..] + Uses(cfg.blocks, p[1..])
    decreases n
  {
    hide Walk;
    var g := cfg.blocks;
    var q := Point(cfg.exit, 0);
    if b == cfg.exit {
      StopsAtExit(g, cfg.exit, t, n);
      p := [b];
      assert p[1..] == [];
    } else if i < |g[b].uses| {
      TakeRead(g, Point(b, i), t, q, n);
      p := WalkIsPath(cfg, b, i + 1, t[1..], n - 1);
      assert g[b].uses[i..] == [g[b].uses[i]] + g[b].uses[i + 1..];
    } else {
      var next := TakeJump(g, Point(b, i), t, q, n);
      InsideOf(g, next, t, q, n - 1);
      var rest := WalkIsPath(cfg, next, 0, t, n - 1);
      p := [b] + rest;
      assert p[1..] == rest;
      assert Edge(Flow(cfg), b, next);
    }
  }

  lemma StopsAtExit(g: Blocks, exit: nat, t: Trace, n: nat)
    requires Final(g, exit) && Walk(g, Point(exit, 0), t, Point(exit, 0), n)
    ensures n == 0 && t == []
  {
  }

  lemma InsideOf(g: Blocks, b: nat, t: Trace, q: Point, n: nat)
    requires Walk(g, Point(b, 0), t, q, n) && q.b < |g|
    ensures b < |g|
  {
  }

  // ---------- the main result ----------

  lemma RunIsPath(body: Block, r: Run, o: Outcome) returns (p: seq<nat>)
    requires OkB(body, [], false) && RunB(r, body, [], o)
    ensures PathSpells(Built(body), p, Spell(r))
  {
    hide Walk, LowerB, Kept, Leaves;
    var cfg := Built(body);
    var g, a, s := cfg.blocks, Body(body), TopScope(body);
    BuiltShape(body);
    BoundB(r, body, [], o, false);
    assert Inside(TOP, s) == [];
    CompleteB(body, r, o, Done, Start(), 0, TOP, s, g);
    assert Spell(r) + [] == Spell(r);
    if o == Normal {
      ConnectsSelf(g, Point(1, 0));
      GlueEdge(g, a, {1}, 1, [], Point(1, 0));
      ConnectsTrans(g, Point(0, 0), Spell(r), Here(a.bs, a.cur), [], Point(1, 0));
    }
    var n :| Walk(g, Point(0, 0), Spell(r), Point(1, 0), n);
    p := WalkIsPath(cfg, 0, 0, Spell(r), n);
    assert g[0].uses[0..] == g[0].uses;
  }

  lemma PathIsRun(body: Block, p: seq<nat>, t: Trace) returns (r: Run, o: Outcome)
    requires OkB(body, [], false) && PathSpells(Built(body), p, t)
    ensures RunB(r, body, [], o) && t == Spell(r)
  {
    hide Walk, LowerB, Kept, RunB, Rests, Leaves, Spell, OkB, DepthB;
    var cfg := Built(body);
    var g, a, s := cfg.blocks, Body(body), TopScope(body);
    BuiltShape(body);
    PathIsWalk(cfg, 0, p);
    var n :| Walk(g, Point(0, 0), t, Point(1, 0), n);
    assert Inside(TOP, s) == [];
    var f := SoundB(body, t, n, Start(), 0, TOP, s, g);
    r, o := f.r, f.o;
    BoundB(r, body, [], o, false);
    RestsAtExit(f, t, n, s, a, g);
  }

  /** A walk from the start of the function body that ends at the exit is the run found, to its end. */
  lemma RestsAtExit(f: Found, t: Trace, n: nat, s: Scope, a: Out, g: Blocks)
    requires Rests(f, t, n, TOP, s, a, g) && OutcomeOk(f.o, 0, false) && InScope(TOP, s)
    requires Final(g, 1) && Leaves(g, a, {1}) && a.cur != 1
    ensures t == Spell(f.r)
  {
    hide Walk;
    assert f.u == Done && Spell(f.r) + [] == Spell(f.r);
    var m := f.n;
    if f.o == Normal {
      var next := TakeEdge(g, a, {1}, f.rest, Point(1, 0), m);
      m := m - 1;
    }
    StopsAtExit(g, 1, f.rest, m);
  }

  /** The use sequences of the entry-to-exit paths are exactly the use traces of the runs that terminate. */
  lemma PathsAreRuns(body: Block, t: Trace)
    requires OkB(body, [], false)
    ensures FunctionTrace(body, t) <==> exists p :: PathSpells(Built(body), p, t)
  {
    hide RunB, PathSpells;
    if FunctionTrace(body, t) {
      var r, o :| RunB(r, body, [], o) && t == Spell(r);
      var p := RunIsPath(body, r, o);
    }
    if p :| PathSpells(Built(body), p, t) {
      var r, o := PathIsRun(body, p, t);
    }
  }
}
