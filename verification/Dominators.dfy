/**
  The Cooper-Harvey-Kennedy fixpoint over the reverse postorder.

  `d` is the table of immediate dominators found so far. Within one pass, `was` is the table at the
  start of the pass, and the blocks at positions below `k` have been evaluated.
 */
module DominatorFacts {
  import opened Graphs
  import opened Cfgs
  import opened LinkTables
  import opened ReversePostorders

  ghost predicate Setup(cfg: Cfg, pos: seq<nat>, parent: seq<nat>) {
    && ValidCfg(cfg) && |pos| == |cfg.blocks|
    && IsTree(cfg, pos, parent)
    && forall b: nat :: b < |pos| ==> (pos[b] != UNDEFINED <==> Reachable(cfg, b))
  }

  ghost predicate Pred(cfg: Cfg, p: nat, b: nat)
    requires ValidCfg(cfg)
  {
    Edge(Flow(cfg), p, b)
  }

  // ---------- what holds of every table the fixpoint goes through ----------

  /** Every link leads to a tree ancestor and keeps all dominators of its source. */
  ghost predicate SoundLink(cfg: Cfg, pos: seq<nat>, parent: seq<nat>, b: nat, c: nat)
    requires Setup(cfg, pos, parent) && Set(parent, b)
  {
    && On(pos, cfg.entry, parent, c, b)
    && forall a: nat :: a != b && Dominates(cfg, a, b) ==> Dominates(cfg, a, c)
  }

  ghost predicate Sound(cfg: Cfg, pos: seq<nat>, parent: seq<nat>, d: seq<nat>)
    requires Setup(cfg, pos, parent)
  {
    && Links(pos, cfg.entry, d)
    && forall b: nat :: Set(d, b) && b != cfg.entry ==> Set(parent, b) && SoundLink(cfg, pos, parent, b, d[b])
  }

  /** `a` is on the chain of every predecessor of `b` that has a link. */
  ghost predicate Common(cfg: Cfg, pos: seq<nat>, d: seq<nat>, a: nat, b: nat)
    requires ValidCfg(cfg) && Links(pos, cfg.entry, d)
  {
    forall p: nat :: Pred(cfg, p, b) && Set(d, p) ==> On(pos, cfg.entry, d, a, p)
  }

  /** Between passes: all links set, each on the chain of the tree parent and covering what the predecessors share. */
  ghost predicate Settled(cfg: Cfg, pos: seq<nat>, parent: seq<nat>, d: seq<nat>)
    requires Setup(cfg, pos, parent) && Links(pos, cfg.entry, d)
  {
    && (forall b: nat :: b < |pos| && pos[b] != UNDEFINED ==> Set(d, b))
    && (forall b: nat :: b < |pos| && pos[b] != UNDEFINED && b != cfg.entry ==>
          Set(d, parent[b]) && On(pos, cfg.entry, d, d[b], parent[b]))
    && (forall a: nat, b: nat :: b < |pos| && pos[b] != UNDEFINED && b != cfg.entry && Common(cfg, pos, d, a, b) ==>
          On(pos, cfg.entry, d, a, b))
  }

  ghost predicate Untouched(cfg: Cfg, d: seq<nat>) {
    forall b: nat :: Set(d, b) ==> b == cfg.entry
  }

  ghost predicate BetweenPasses(cfg: Cfg, pos: seq<nat>, parent: seq<nat>, d: seq<nat>)
    requires Setup(cfg, pos, parent)
  {
    Sound(cfg, pos, parent, d) && (Untouched(cfg, d) || Settled(cfg, pos, parent, d))
  }

  // ---------- within a pass ----------

  /** `a` was on the chain of predecessor `p` when `b` was evaluated. */
  ghost predicate Seen(cfg: Cfg, pos: seq<nat>, was: seq<nat>, d: seq<nat>, a: nat, p: nat, b: nat)
    requires ValidCfg(cfg) && Links(pos, cfg.entry, was) && Links(pos, cfg.entry, d)
    requires p < |pos| && b < |pos| && 0 < pos[b]
    requires forall x: nat :: x < |pos| && pos[x] < pos[b] ==> Set(d, x)
  {
    if pos[p] < pos[b] then On(pos, cfg.entry, d, a, p)
    else Set(was, p) ==> On(pos, cfg.entry, d, a, Below(pos, cfg.entry, was, p, pos[b]))
  }

  /** The chain of `b` holds exactly what the chains of its linked predecessors shared at its evaluation. */
  ghost predicate Evaluated(cfg: Cfg, pos: seq<nat>, was: seq<nat>, d: seq<nat>, b: nat)
    requires ValidCfg(cfg) && Links(pos, cfg.entry, was) && Links(pos, cfg.entry, d) && |pos| == |cfg.blocks|
    requires Set(d, b) && 0 < pos[b]
    requires forall x: nat :: x < |pos| && pos[x] < pos[b] ==> Set(d, x)
  {
    forall a: nat :: a < |pos| ==>
      (a != b && On(pos, cfg.entry, d, a, b) <==>
       pos[a] < pos[b] && forall p: nat :: p < |pos| && pos[p] != UNDEFINED && Pred(cfg, p, b) ==>
         Seen(cfg, pos, was, d, a, p, b))
  }

  /** The blocks before position `k` have links; those from `k` on keep the links of `was`. */
  ghost predicate Halfway(pos: seq<nat>, was: seq<nat>, d: seq<nat>, k: nat) {
    && |was| == |d| == |pos|
    && (forall x: nat {:trigger d[x]} {:trigger was[x]} :: x < |pos| && pos[x] >= k ==> d[x] == was[x])
    && (forall x: nat :: x < |pos| && pos[x] < k ==> Set(d, x))
  }

  ghost predicate DoneBefore(cfg: Cfg, pos: seq<nat>, parent: seq<nat>, was: seq<nat>, d: seq<nat>, k: nat)
    requires Setup(cfg, pos, parent) && Links(pos, cfg.entry, was)
    requires Links(pos, cfg.entry, d) && Halfway(pos, was, d, k)
  {
    forall b: nat :: b < |pos| && 0 < pos[b] < k ==>
      Set(d, parent[b]) && On(pos, cfg.entry, d, d[b], parent[b]) && Evaluated(cfg, pos, was, d, b)
  }

  /** Chains of `d` lie within chains of `was`: the effect of every step of a pass. */
  ghost predicate Shrinks(pos: seq<nat>, entry: nat, was: seq<nat>, d: seq<nat>)
    requires Links(pos, entry, was)
  {
    forall x: nat :: Set(was, x) ==> Set(d, x) && On(pos, entry, was, d[x], x)
  }

  ghost predicate InPass(cfg: Cfg, pos: seq<nat>, parent: seq<nat>, was: seq<nat>, d: seq<nat>, k: nat)
    requires Setup(cfg, pos, parent)
  {
    && k < UNDEFINED
    && Links(pos, cfg.entry, was)
    && Sound(cfg, pos, parent, d)
    && Halfway(pos, was, d, k)
    && Shrinks(pos, cfg.entry, was, d)
    && DoneBefore(cfg, pos, parent, was, d, k)
  }

  // ---------- tree paths and dominators ----------

  lemma TreeStep(cfg: Cfg, pos: seq<nat>, parent: seq<nat>, b: nat)
    requires Setup(cfg, pos, parent) && Set(parent, b)
    ensures Links(pos, cfg.entry, parent) && b < |pos|
    ensures b != cfg.entry ==> Set(parent, parent[b]) && pos[parent[b]] < pos[b] && Pred(cfg, parent[b], b)
  {
    hide Reachable, WellFormed;
    assert LinkOk(pos, cfg.entry, parent, b);
  }

  lemma {:induction false} TreePath(cfg: Cfg, pos: seq<nat>, parent: seq<nat>, c: nat, b: nat) returns (p: seq<nat>)
    requires Setup(cfg, pos, parent) && Set(parent, b) && On(pos, cfg.entry, parent, c, b)
    ensures PathFromTo(Flow(cfg), c, p, b) && forall x: nat :: x in p ==> x < |pos| && pos[c] <= pos[x]
    decreases pos[b]
  {
    hide Reachable, WellFormed, IsTree, Links, Positions;
    TreeStep(cfg, pos, parent, b);
    OnPos(pos, cfg.entry, parent, c, b);
    if b == c {
      p := [b];
    } else {
      p := TreePath(cfg, pos, parent, c, parent[b]);
      PathSnoc(Flow(cfg), c, p, parent[b], b);
      p := p + [b];
    }
  }

  /** A dominator above a tree ancestor of `b` dominates that ancestor as well. */
  lemma DominatesAncestor(cfg: Cfg, pos: seq<nat>, parent: seq<nat>, a: nat, c: nat, b: nat)
    requires Setup(cfg, pos, parent) && Set(parent, b) && On(pos, cfg.entry, parent, c, b)
    requires Dominates(cfg, a, b) && a < |pos| && (a == c || pos[a] < pos[c])
    ensures Dominates(cfg, a, c)
  {
    hide Reachable, WellFormed, IsTree, Links, On;
    var q := TreePath(cfg, pos, parent, c, b);
    forall p | PathFromTo(Flow(cfg), cfg.entry, p, c) ensures a in p {
      if a != c {
        var whole := p + q[1..];
        assert PathFromTo(Flow(cfg), cfg.entry, whole, b);
        assert a in whole;
        assert a !in q;
      }
    }
  }

  /** A strict dominator of `b` dominates every predecessor of `b`. */
  lemma DominatesPredecessor(cfg: Cfg, a: nat, p: nat, b: nat)
    requires ValidCfg(cfg) && Dominates(cfg, a, b) && a != b && Pred(cfg, p, b)
    ensures Dominates(cfg, a, p)
  {
    forall q | PathFromTo(Flow(cfg), cfg.entry, q, p) ensures a in q {
      PathSnoc(Flow(cfg), cfg.entry, q, p, b);
      assert a in q + [b];
    }
  }

  /** A dominator is among the listed blocks. */
  lemma DominatorInRange(cfg: Cfg, a: nat, b: nat)
    requires ValidCfg(cfg) && Dominates(cfg, a, b) && Reachable(cfg, b)
    ensures a < |cfg.blocks| && Reachable(cfg, a)
  {
    var p :| PathFromTo(Flow(cfg), cfg.entry, p, b);
    var i :| 0 <= i < |p| && p[i] == a;
    assert PathFromTo(Flow(cfg), cfg.entry, p[..i + 1], a);
    if i > 0 {
      assert Edge(Flow(cfg), p[i - 1], p[i]);
    }
  }

  /** Chains of a sound table hold every dominator. */
  lemma {:induction false} ChainHoldsDominators(cfg: Cfg, pos: seq<nat>, parent: seq<nat>, d: seq<nat>, a: nat, b: nat)
    requires Setup(cfg, pos, parent) && Sound(cfg, pos, parent, d) && Set(d, b) && Dominates(cfg, a, b)
    ensures On(pos, cfg.entry, d, a, b)
    decreases pos[b]
  {
    hide Reachable, WellFormed;
    if b == cfg.entry {
      assert PathFromTo(Flow(cfg), cfg.entry, [b], b);
    } else {
      if a != b {
        assert LinkOk(pos, cfg.entry, d, b);
        assert SoundLink(cfg, pos, parent, b, d[b]);
        ChainHoldsDominators(cfg, pos, parent, d, a, d[b]);
      }
    }
  }

  // ---------- one evaluation ----------

  /** What the intersection of the linked predecessors of `b` yields. */
  ghost predicate Meets(cfg: Cfg, pos: seq<nat>, d: seq<nat>, b: nat, r: nat)
    requires ValidCfg(cfg) && Links(pos, cfg.entry, d)
  {
    Set(d, r) && forall a: nat :: a < |pos| ==> (On(pos, cfg.entry, d, a, r) <==> Common(cfg, pos, d, a, b))
  }

  /** Chains of a sound table consist of tree ancestors. */
  lemma SoundShrinks(cfg: Cfg, pos: seq<nat>, parent: seq<nat>, d: seq<nat>, a: nat, b: nat)
    requires Setup(cfg, pos, parent) && Sound(cfg, pos, parent, d) && Set(d, b) && On(pos, cfg.entry, d, a, b)
    ensures Set(parent, b) && On(pos, cfg.entry, parent, a, b)
  {
    hide Reachable, Positions, WellFormed;
    assert forall x: nat :: Set(d, x) ==> Set(parent, x);
    forall x: nat | Set(d, x) && Set(parent, x) ensures Set(parent, d[x]) && On(pos, cfg.entry, parent, d[x], x) {
      if x != cfg.entry {
        assert SoundLink(cfg, pos, parent, x, d[x]);
      }
    }
    OnShrinks(pos, cfg.entry, parent, d, a, b);
  }

  /** The meet is placed before `b`, on the chain of its tree parent. */
  lemma MeetUnderParent(cfg: Cfg, pos: seq<nat>, parent: seq<nat>, d: seq<nat>, b: nat, r: nat)
    requires Setup(cfg, pos, parent) && Links(pos, cfg.entry, d) && Meets(cfg, pos, d, b, r)
    requires b < |pos| && 0 < pos[b] < UNDEFINED && Set(parent, b)
    requires forall x: nat :: x < |pos| && pos[x] < pos[b] ==> Set(d, x)
    ensures Set(d, parent[b]) && On(pos, cfg.entry, d, r, parent[b]) && r < |pos| && pos[r] < pos[b]
  {
    hide IsTree, Reachable, WellFormed, Positions, Links;
    TreeStep(cfg, pos, parent, b);
    StartsAtEntry(pos, cfg.entry, parent);
    StartsAtEntry(pos, cfg.entry, d);
    assert On(pos, cfg.entry, d, r, r);
    assert Common(cfg, pos, d, r, b);
    OnPos(pos, cfg.entry, d, r, parent[b]);
  }

  /** Evaluating `b` moves its link along the chain it had at the start of the pass. */
  lemma MeetMovesUp(cfg: Cfg, pos: seq<nat>, was: seq<nat>, d: seq<nat>, b: nat, r: nat)
    requires ValidCfg(cfg) && Links(pos, cfg.entry, was) && Links(pos, cfg.entry, d)
    requires Shrinks(pos, cfg.entry, was, d)
    requires Set(was, b) && forall a: nat :: Common(cfg, pos, was, a, b) ==> On(pos, cfg.entry, was, a, b)
    requires Meets(cfg, pos, d, b, r)
    ensures On(pos, cfg.entry, was, r, b)
  {
    hide WellFormed, Positions, Links;
    StartsAtEntry(pos, cfg.entry, d);
    assert On(pos, cfg.entry, d, r, r);
    assert Common(cfg, pos, d, r, b);
    forall p: nat | Pred(cfg, p, b) && Set(was, p) ensures On(pos, cfg.entry, was, r, p) {
      OnShrinks(pos, cfg.entry, was, d, r, p);
    }
    assert Common(cfg, pos, was, r, b);
  }

  lemma StepLinks(pos: seq<nat>, entry: nat, d: seq<nat>, b: nat, r: nat)
    requires Links(pos, entry, d) && b < |pos| && 0 < pos[b] < UNDEFINED
    requires Set(d, r) && pos[r] < pos[b] && r < UNDEFINED
    ensures Links(pos, entry, d[b := r])
  {
    hide Positions;
    StartsAtEntry(pos, entry, d);
    assert LinkOk(pos, entry, d, r);
    var e := d[b := r];
    forall x: nat | x < |d| ensures LinkOk(pos, entry, e, x) {
      assert LinkOk(pos, entry, d, x);
    }
  }

  /** Chains of blocks placed before `b` do not notice its new link. */
  lemma StepBefore(pos: seq<nat>, entry: nat, d: seq<nat>, b: nat, r: nat, a: nat, x: nat)
    requires b < |pos| == |d|
    requires Links(pos, entry, d) && Links(pos, entry, d[b := r])
    requires Set(d, x) && x < |pos| && pos[x] < pos[b]
    ensures Set(d[b := r], x) && (On(pos, entry, d, a, x) <==> On(pos, entry, d[b := r], a, x))
  {
    hide Links;
    OnLocal(pos, entry, d, d[b := r], a, x);
  }

  lemma StepSoundLink(cfg: Cfg, pos: seq<nat>, parent: seq<nat>, d: seq<nat>, b: nat, r: nat)
    requires Setup(cfg, pos, parent) && Sound(cfg, pos, parent, d) && Meets(cfg, pos, d, b, r)
    requires Set(parent, b) && b < |pos| && b != cfg.entry && pos[b] < UNDEFINED
    requires Set(d, parent[b]) && On(pos, cfg.entry, d, r, parent[b])
    ensures SoundLink(cfg, pos, parent, b, r)
  {
    hide IsTree, Sound, SoundLink, WellFormed, Positions, Links;
    SoundFacts(cfg, pos, parent, d);
    TreeStep(cfg, pos, parent, b);
    SoundShrinks(cfg, pos, parent, d, r, parent[b]);
    assert On(pos, cfg.entry, parent, r, b);
    forall a: nat | a != b && Dominates(cfg, a, b) ensures Dominates(cfg, a, r) {
      DominatorInRange(cfg, a, b);
      forall p: nat | Pred(cfg, p, b) && Set(d, p) ensures On(pos, cfg.entry, d, a, p) {
        DominatesPredecessor(cfg, a, p, b);
        ChainHoldsDominators(cfg, pos, parent, d, a, p);
      }
      assert Common(cfg, pos, d, a, b);
      OnPos(pos, cfg.entry, d, a, r);
      DominatesAncestor(cfg, pos, parent, a, r, b);
    }
    SoundLinkOf(cfg, pos, parent, b, r);
  }

  lemma SoundFacts(cfg: Cfg, pos: seq<nat>, parent: seq<nat>, d: seq<nat>)
    requires Setup(cfg, pos, parent) && Sound(cfg, pos, parent, d)
    ensures Links(pos, cfg.entry, d)
  {
  }

  lemma SoundLinkOf(cfg: Cfg, pos: seq<nat>, parent: seq<nat>, b: nat, c: nat)
    requires Setup(cfg, pos, parent) && Set(parent, b)
    requires On(pos, cfg.entry, parent, c, b)
    requires forall a: nat :: a != b && Dominates(cfg, a, b) ==> Dominates(cfg, a, c)
    ensures SoundLink(cfg, pos, parent, b, c)
  {
  }

  lemma StepSound(cfg: Cfg, pos: seq<nat>, parent: seq<nat>, d: seq<nat>, b: nat, r: nat)
    requires Setup(cfg, pos, parent) && Sound(cfg, pos, parent, d) && b < |d|
    requires Links(pos, cfg.entry, d[b := r]) && Set(parent, b) && SoundLink(cfg, pos, parent, b, r)
    ensures Sound(cfg, pos, parent, d[b := r])
  {
    hide Setup, SoundLink, Links;
  }

  /** The freshly evaluated block: its chain is what the predecessors' chains share. */
  lemma StepEvaluated(cfg: Cfg, pos: seq<nat>, was: seq<nat>, d: seq<nat>, b: nat, r: nat)
    requires ValidCfg(cfg) && |pos| == |cfg.blocks| == |was| == |d| && b < |d|
    requires Links(pos, cfg.entry, was) && Links(pos, cfg.entry, d) && Links(pos, cfg.entry, d[b := r])
    requires b < |pos| && 0 < pos[b] < UNDEFINED && Set(d, r) && r < |pos| && pos[r] < pos[b]
    requires forall x: nat {:trigger d[x]} {:trigger was[x]} :: x < |pos| && pos[x] >= pos[b] ==> d[x] == was[x]
    requires forall x: nat :: x < |pos| && pos[x] < pos[b] ==> Set(d, x)
    requires Meets(cfg, pos, d, b, r)
    requires exists p: nat :: p < |pos| && pos[p] < pos[b] && Pred(cfg, p, b)
    ensures forall x: nat :: x < |pos| && pos[x] < pos[b] ==> Set(d[b := r], x)
    ensures Set(d[b := r], b) && Evaluated(cfg, pos, was, d[b := r], b)
  {
    hide WellFormed, Positions, Links;
    StartsAtEntry(pos, cfg.entry, d);
    var e := d[b := r];
    forall x: nat | x < |pos| && pos[x] < pos[b] ensures Set(e, x) {
      StepBefore(pos, cfg.entry, d, b, r, x, x);
    }
    assert Set(e, b) by {
      StepBefore(pos, cfg.entry, d, b, r, r, r);
      SetInRange(pos, cfg.entry, d, r);
    }
    forall a: nat | a < |pos|
      ensures a != b && On(pos, cfg.entry, e, a, b) <==>
        pos[a] < pos[b] && forall p: nat :: p < |pos| && pos[p] != UNDEFINED && Pred(cfg, p, b) ==>
          Seen(cfg, pos, was, e, a, p, b)
    {
      StepBefore(pos, cfg.entry, d, b, r, a, r);
      assert a != b && On(pos, cfg.entry, e, a, b) <==> a != b && On(pos, cfg.entry, d, a, r);
      if On(pos, cfg.entry, d, a, r) {
        OnPos(pos, cfg.entry, d, a, r);
      }
      if pos[a] < pos[b] {
        forall p: nat | p < |pos| && pos[p] != UNDEFINED && Pred(cfg, p, b)
          ensures Seen(cfg, pos, was, e, a, p, b) <==> (Set(d, p) ==> On(pos, cfg.entry, d, a, p))
        {
          StepSeen(cfg, pos, was, d, b, r, a, p);
        }
        CommonInRange(cfg, pos, d, a, b);
      }
    }
  }

  lemma SetInRange(pos: seq<nat>, entry: nat, d: seq<nat>, b: nat)
    requires Links(pos, entry, d) && Set(d, b)
    ensures b < |pos| < UNDEFINED && pos[b] < UNDEFINED
  {
    assert LinkOk(pos, entry, d, b);
  }

  lemma CommonInRange(cfg: Cfg, pos: seq<nat>, d: seq<nat>, a: nat, b: nat)
    requires ValidCfg(cfg) && |pos| == |cfg.blocks| && Links(pos, cfg.entry, d)
    ensures Common(cfg, pos, d, a, b) <==>
      forall p: nat :: p < |pos| && pos[p] != UNDEFINED && Pred(cfg, p, b) ==>
        (Set(d, p) ==> On(pos, cfg.entry, d, a, p))
  {
    hide Positions, WellFormed, On;
    forall p: nat | Set(d, p) ensures p < |pos| && pos[p] != UNDEFINED {
      SetInRange(pos, cfg.entry, d, p);
    }
  }

  lemma StepSeen(cfg: Cfg, pos: seq<nat>, was: seq<nat>, d: seq<nat>, b: nat, r: nat, a: nat, p: nat)
    requires ValidCfg(cfg) && |pos| == |cfg.blocks| == |was| == |d| && b < |d|
    requires Links(pos, cfg.entry, was) && Links(pos, cfg.entry, d) && Links(pos, cfg.entry, d[b := r])
    requires b < |pos| && 0 < pos[b] < UNDEFINED && a < |pos| && pos[a] < pos[b] && p < |pos| && pos[p] != UNDEFINED
    requires forall x: nat {:trigger d[x]} {:trigger was[x]} :: x < |pos| && pos[x] >= pos[b] ==> d[x] == was[x]
    requires forall x: nat :: x < |pos| && pos[x] < pos[b] ==> Set(d, x) && Set(d[b := r], x)
    ensures Seen(cfg, pos, was, d[b := r], a, p, b) <==> (Set(d, p) ==> On(pos, cfg.entry, d, a, p))
  {
    hide WellFormed, Positions, Links, On;
    StartsAtEntry(pos, cfg.entry, d);
    if pos[p] < pos[b] {
      StepBefore(pos, cfg.entry, d, b, r, a, p);
    } else {
      assert d[p] == was[p];
      StartsAtEntry(pos, cfg.entry, was);
      if Set(was, p) {
        OnBelow(pos, cfg.entry, was, d, a, p, pos[b]);
        StepBefore(pos, cfg.entry, d, b, r, a, Below(pos, cfg.entry, was, p, pos[b]));
      }
    }
  }

  /** Blocks evaluated earlier in the pass are not affected. */
  lemma StepKeepsEvaluated(cfg: Cfg, pos: seq<nat>, was: seq<nat>, d: seq<nat>, b: nat, r: nat, c: nat)
    requires ValidCfg(cfg) && |pos| == |cfg.blocks| == |was| == |d| && b < |d|
    requires Links(pos, cfg.entry, was) && Links(pos, cfg.entry, d) && Links(pos, cfg.entry, d[b := r])
    requires c < |pos| && 0 < pos[c] < pos[b]
    requires forall x: nat :: x < |pos| && pos[x] < pos[b] ==> Set(d, x)
    requires Set(d, c) && Evaluated(cfg, pos, was, d, c)
    ensures forall x: nat :: x < |pos| && pos[x] < pos[b] ==> Set(d[b := r], x)
    ensures Set(d[b := r], c) && Evaluated(cfg, pos, was, d[b := r], c)
  {
    hide WellFormed, Positions, Links, On, Below;
    var e := d[b := r];
    forall x: nat, a: nat | x < |pos| && pos[x] < pos[b]
      ensures Set(e, x) && (On(pos, cfg.entry, d, a, x) <==> On(pos, cfg.entry, e, a, x))
    {
      StepBefore(pos, cfg.entry, d, b, r, a, x);
    }
    forall a: nat, p: nat | a < |pos| && p < |pos| && pos[p] != UNDEFINED
      ensures Seen(cfg, pos, was, d, a, p, c) <==> Seen(cfg, pos, was, e, a, p, c)
    {
      if pos[p] >= pos[c] && Set(was, p) {
        var y := Below(pos, cfg.entry, was, p, pos[c]);
        SetInRange(pos, cfg.entry, was, y);
      }
    }
  }

  lemma SettledCovers(cfg: Cfg, pos: seq<nat>, parent: seq<nat>, was: seq<nat>, b: nat)
    requires Setup(cfg, pos, parent) && BetweenPasses(cfg, pos, parent, was)
    requires Set(was, b) && b != cfg.entry && b < |pos| && pos[b] != UNDEFINED
    ensures Links(pos, cfg.entry, was) && forall a: nat :: Common(cfg, pos, was, a, b) ==> On(pos, cfg.entry, was, a, b)
  {
    hide IsTree, Reachable, WellFormed, SoundLink, Links, On, Common;
  }

  lemma TreeHolds(cfg: Cfg, pos: seq<nat>, parent: seq<nat>, b: nat)
    requires Setup(cfg, pos, parent) && b < |pos|
    ensures Links(pos, cfg.entry, parent) && (Set(parent, b) <==> pos[b] != UNDEFINED)
  {
    hide Reachable, WellFormed, SoundLink, Links, On, Common;
  }

  lemma StepHalfway(pos: seq<nat>, entry: nat, was: seq<nat>, d: seq<nat>, b: nat, r: nat)
    requires b < |pos| && pos[b] < UNDEFINED && r < UNDEFINED && Positions(pos, entry) && Halfway(pos, was, d, pos[b])
    ensures Halfway(pos, was, d[b := r], pos[b] + 1)
  {
  }

  lemma StepEarlier(cfg: Cfg, pos: seq<nat>, parent: seq<nat>, was: seq<nat>, d: seq<nat>, b: nat, r: nat, c: nat)
    requires Setup(cfg, pos, parent) && b < |pos| == |d| && InPass(cfg, pos, parent, was, d, pos[b])
    requires Links(pos, cfg.entry, d[b := r]) && Halfway(pos, was, d[b := r], pos[b] + 1)
    requires c < |pos| && 0 < pos[c] < pos[b]
    ensures Evaluated(cfg, pos, was, d[b := r], c)
    ensures Set(d[b := r], parent[c]) && On(pos, cfg.entry, d[b := r], d[c], parent[c])
  {
    hide IsTree, Reachable, WellFormed, Sound, SoundLink, Evaluated, Links, On, Shrinks;
    SoundFacts(cfg, pos, parent, d);
    TreeHolds(cfg, pos, parent, c);
    SetInRange(pos, cfg.entry, d, c);
    TreeStep(cfg, pos, parent, c);
    StartsAtEntry(pos, cfg.entry, parent);
    StepBefore(pos, cfg.entry, d, b, r, d[c], parent[c]);
    StepKeepsEvaluated(cfg, pos, was, d, b, r, c);
  }

  lemma StepShrinks(pos: seq<nat>, entry: nat, was: seq<nat>, d: seq<nat>, b: nat, r: nat)
    requires Links(pos, entry, was) && Shrinks(pos, entry, was, d) && b < |d| && r < UNDEFINED
    requires Set(was, b) ==> On(pos, entry, was, r, b)
    ensures Shrinks(pos, entry, was, d[b := r])
  {
    hide Links, On;
  }

  lemma MeetIsSet(cfg: Cfg, pos: seq<nat>, d: seq<nat>, b: nat, r: nat)
    requires ValidCfg(cfg) && Links(pos, cfg.entry, d) && Meets(cfg, pos, d, b, r)
    ensures Set(d, r)
  {
  }

  /** The new link of `b`: where it leads, and that the table stays sound. */
  lemma StepHere(cfg: Cfg, pos: seq<nat>, parent: seq<nat>, was: seq<nat>, d: seq<nat>, b: nat, r: nat)
    requires Setup(cfg, pos, parent) && BetweenPasses(cfg, pos, parent, was)
    requires b < |pos| == |d| && 0 < pos[b] < |pos| && InPass(cfg, pos, parent, was, d, pos[b])
    requires Meets(cfg, pos, d, b, r)
    ensures r < |pos| && pos[r] < pos[b] && Set(d, r) && Set(parent, b) && b != cfg.entry && Links(pos, cfg.entry, d)
    ensures Links(pos, cfg.entry, d[b := r]) && Sound(cfg, pos, parent, d[b := r])
    ensures Set(d, parent[b]) && On(pos, cfg.entry, d, r, parent[b])
    ensures Set(was, b) ==> On(pos, cfg.entry, was, r, b)
  {
    hide IsTree, Reachable, WellFormed, Sound, SoundLink, BetweenPasses, Evaluated, Links, Meets, On, Common,
      Shrinks, DoneBefore;
    TreeHolds(cfg, pos, parent, b);
    SoundFacts(cfg, pos, parent, d);
    StartsAtEntry(pos, cfg.entry, d);
    MeetUnderParent(cfg, pos, parent, d, b, r);
    if Set(was, b) {
      SettledCovers(cfg, pos, parent, was, b);
      MeetMovesUp(cfg, pos, was, d, b, r);
    }
    MeetIsSet(cfg, pos, d, b, r);
    StepLinks(pos, cfg.entry, d, b, r);
    StepSoundLink(cfg, pos, parent, d, b, r);
    StepSound(cfg, pos, parent, d, b, r);
  }

  lemma StepDone(cfg: Cfg, pos: seq<nat>, parent: seq<nat>, was: seq<nat>, d: seq<nat>, b: nat, r: nat)
    requires Setup(cfg, pos, parent) && b < |pos| == |d|
    requires 0 < pos[b] < |pos| && InPass(cfg, pos, parent, was, d, pos[b])
    requires Links(pos, cfg.entry, d) && Links(pos, cfg.entry, d[b := r]) && Halfway(pos, was, d[b := r], pos[b] + 1)
    requires Meets(cfg, pos, d, b, r) && r < |pos| && pos[r] < pos[b]
    requires Set(d, parent[b]) && On(pos, cfg.entry, d, r, parent[b])
    ensures DoneBefore(cfg, pos, parent, was, d[b := r], pos[b] + 1)
  {
    hide IsTree, Reachable, WellFormed, Sound, SoundLink, Evaluated, Links, Meets, On, Common, Shrinks;
    var e := d[b := r];
    StartsAtEntry(pos, cfg.entry, d);
    MeetIsSet(cfg, pos, d, b, r);
    TreeHolds(cfg, pos, parent, b);
    StartsAtEntry(pos, cfg.entry, parent);
    TreeStep(cfg, pos, parent, b);
    StepEvaluated(cfg, pos, was, d, b, r);
    StepBefore(pos, cfg.entry, d, b, r, r, parent[b]);
    forall c: nat | c < |pos| && 0 < pos[c] < pos[b] + 1
      ensures Set(e, parent[c]) && On(pos, cfg.entry, e, e[c], parent[c]) && Evaluated(cfg, pos, was, e, c)
    {
      if c != b {
        StepEarlier(cfg, pos, parent, was, d, b, r, c);
      }
    }
  }

  /** One evaluation carries the pass from position `k` to `k + 1`. */
  lemma StepInPass(cfg: Cfg, pos: seq<nat>, parent: seq<nat>, was: seq<nat>, d: seq<nat>, b: nat, r: nat)
    requires Setup(cfg, pos, parent) && BetweenPasses(cfg, pos, parent, was)
    requires b < |pos| == |d| && 0 < pos[b] < |pos| && InPass(cfg, pos, parent, was, d, pos[b])
    requires Meets(cfg, pos, d, b, r)
    ensures InPass(cfg, pos, parent, was, d[b := r], pos[b] + 1)
    ensures Set(was, b) ==> On(pos, cfg.entry, was, r, b)
    ensures r < |pos| && pos[r] < pos[b]
  {
    hide IsTree, Reachable, WellFormed, Sound, SoundLink, BetweenPasses, Evaluated, Links, Meets, On, Common,
      Shrinks, Halfway, DoneBefore;
    StepHere(cfg, pos, parent, was, d, b, r);
    StartsAtEntry(pos, cfg.entry, d);
    StepHalfway(pos, cfg.entry, was, d, b, r);
    StepShrinks(pos, cfg.entry, was, d, b, r);
    StepDone(cfg, pos, parent, was, d, b, r);
  }

  // ---------- the end of a pass ----------

  /** Following tree parents from `b` down to the ancestor `y` never loses a chain element above `y`. */
  lemma {:induction false} ChainUnderAncestor(
    cfg: Cfg, pos: seq<nat>, parent: seq<nat>, d: seq<nat>, a: nat, y: nat, b: nat)
    requires Setup(cfg, pos, parent) && Links(pos, cfg.entry, d) && Set(parent, b) && Set(d, b)
    requires forall x: nat :: x < |pos| && pos[x] != UNDEFINED && x != cfg.entry ==>
      Set(d, parent[x]) && On(pos, cfg.entry, d, d[x], parent[x])
    requires On(pos, cfg.entry, parent, y, b) && a < |pos| && y < |pos|
    requires pos[a] <= pos[y] && On(pos, cfg.entry, d, a, b)
    ensures Set(d, y) && On(pos, cfg.entry, d, a, y)
    decreases pos[b]
  {
    hide IsTree, Reachable, WellFormed, Links, Positions;
    TreeStep(cfg, pos, parent, b);
    SetInRange(pos, cfg.entry, parent, b);
    if y != b {
      OnPos(pos, cfg.entry, parent, y, b);
      OnTrans(pos, cfg.entry, d, a, d[b], parent[b]);
      ChainUnderAncestor(cfg, pos, parent, d, a, y, parent[b]);
    }
  }

  /** What all linked predecessors share at the end of a pass was shared when `b` was evaluated. */
  lemma SharedWasSeen(cfg: Cfg, pos: seq<nat>, parent: seq<nat>, was: seq<nat>, d: seq<nat>, a: nat, p: nat, b: nat)
    requires Setup(cfg, pos, parent) && Sound(cfg, pos, parent, was) && Sound(cfg, pos, parent, d)
    requires Shrinks(pos, cfg.entry, was, d)
    requires forall x: nat :: x < |pos| && pos[x] != UNDEFINED ==> Set(d, x)
    requires forall x: nat :: x < |pos| && pos[x] != UNDEFINED && x != cfg.entry ==>
      Set(d, parent[x]) && On(pos, cfg.entry, d, d[x], parent[x])
    requires b < |pos| && 0 < pos[b] < UNDEFINED && p < |pos| && pos[p] != UNDEFINED
    requires a < |pos| && pos[a] < pos[b] && On(pos, cfg.entry, d, a, p)
    ensures Links(pos, cfg.entry, was) && Links(pos, cfg.entry, d)
    ensures Seen(cfg, pos, was, d, a, p, b)
  {
    hide IsTree, Reachable, WellFormed, Sound, SoundLink, Links;
    SoundFacts(cfg, pos, parent, was);
    SoundFacts(cfg, pos, parent, d);
    StartsAtEntry(pos, cfg.entry, d);
    if pos[p] >= pos[b] && Set(was, p) {
      var y := Below(pos, cfg.entry, was, p, pos[b]);
      OnShrinks(pos, cfg.entry, was, d, a, p);
      OnBelow(pos, cfg.entry, was, was, a, p, pos[b]);
      OnPos(pos, cfg.entry, was, a, y);
      SoundShrinks(cfg, pos, parent, was, y, p);
      ChainUnderAncestor(cfg, pos, parent, d, a, y, p);
    }
  }

  lemma PassCovers(cfg: Cfg, pos: seq<nat>, parent: seq<nat>, was: seq<nat>, d: seq<nat>, a: nat, b: nat)
    requires Setup(cfg, pos, parent) && Sound(cfg, pos, parent, was) && InPass(cfg, pos, parent, was, d, |pos|)
    requires b < |pos| && 0 < pos[b] < UNDEFINED
    requires Links(pos, cfg.entry, d) && Common(cfg, pos, d, a, b)
    ensures Set(d, b) && On(pos, cfg.entry, d, a, b)
  {
    hide IsTree, Reachable, WellFormed, Sound, SoundLink, Links, Shrinks, Seen;
    StartsAtEntry(pos, cfg.entry, d);
    TreeHolds(cfg, pos, parent, b);
    TreeStep(cfg, pos, parent, b);
    OnPos(pos, cfg.entry, d, a, parent[b]);
    SetInRange(pos, cfg.entry, d, a);
    forall p: nat | p < |pos| && pos[p] != UNDEFINED && Pred(cfg, p, b) ensures Seen(cfg, pos, was, d, a, p, b) {
      SharedWasSeen(cfg, pos, parent, was, d, a, p, b);
    }
    assert Evaluated(cfg, pos, was, d, b);
  }

  lemma PassEnds(cfg: Cfg, pos: seq<nat>, parent: seq<nat>, was: seq<nat>, d: seq<nat>)
    requires Setup(cfg, pos, parent) && BetweenPasses(cfg, pos, parent, was) && InPass(cfg, pos, parent, was, d, |pos|)
    ensures BetweenPasses(cfg, pos, parent, d)
  {
    hide IsTree, Reachable, WellFormed, SoundLink, Shrinks, Evaluated, Common;
    SoundFacts(cfg, pos, parent, d);
    StartsAtEntry(pos, cfg.entry, d);
    forall a: nat, b: nat | b < |pos| && pos[b] != UNDEFINED && b != cfg.entry && Common(cfg, pos, d, a, b)
      ensures On(pos, cfg.entry, d, a, b)
    {
      PassCovers(cfg, pos, parent, was, d, a, b);
    }
    assert Settled(cfg, pos, parent, d);
  }

  // ---------- exactness ----------

  /** A pass that changed nothing leaves chains that every path must meet. */
  lemma {:induction false} PathsMeetChain(
    cfg: Cfg, pos: seq<nat>, parent: seq<nat>, d: seq<nat>, a: nat, b: nat, path: seq<nat>)
    requires Setup(cfg, pos, parent) && InPass(cfg, pos, parent, d, d, |pos|)
    requires PathFromTo(Flow(cfg), cfg.entry, path, b)
    requires Links(pos, cfg.entry, d) && Set(d, b) && On(pos, cfg.entry, d, a, b)
    ensures a in path
    decreases |path|
  {
    hide IsTree, Reachable, WellFormed, Sound, SoundLink, Links, Shrinks;
    if a != b && b != cfg.entry {
      PathSplit(Flow(cfg), cfg.entry, path, b);
      var q := path[|path| - 2];
      StartsAtEntry(pos, cfg.entry, d);
      SetInRange(pos, cfg.entry, d, b);
      OnPos(pos, cfg.entry, d, a, b);
      assert Evaluated(cfg, pos, d, d, b);
      PathIsReachable(cfg, path[..|path| - 1], q);
      assert Seen(cfg, pos, d, d, a, q, b);
      if pos[q] >= pos[b] {
        OnTrans(pos, cfg.entry, d, a, Below(pos, cfg.entry, d, q, pos[b]), q);
      }
      PathsMeetChain(cfg, pos, parent, d, a, q, path[..|path| - 1]);
    }
  }

  lemma PathIsReachable(cfg: Cfg, path: seq<nat>, q: nat)
    requires ValidCfg(cfg) && PathFromTo(Flow(cfg), cfg.entry, path, q)
    ensures q < |cfg.blocks| && Reachable(cfg, q)
  {
    if |path| > 1 {
      PathSplit(Flow(cfg), cfg.entry, path, q);
    }
  }

  /** After a pass that changed nothing, chains are exactly the dominators. */
  lemma FixpointIsExact(cfg: Cfg, pos: seq<nat>, parent: seq<nat>, d: seq<nat>, a: nat, b: nat)
    requires Setup(cfg, pos, parent) && InPass(cfg, pos, parent, d, d, |pos|)
    requires b < |pos| && pos[b] != UNDEFINED
    ensures Links(pos, cfg.entry, d) && Set(d, b)
    ensures On(pos, cfg.entry, d, a, b) <==> Dominates(cfg, a, b)
  {
    hide IsTree, Reachable, WellFormed, Sound, SoundLink, Links, Shrinks, DoneBefore, On;
    SoundFacts(cfg, pos, parent, d);
    StartsAtEntry(pos, cfg.entry, d);
    if On(pos, cfg.entry, d, a, b) {
      forall p | PathFromTo(Flow(cfg), cfg.entry, p, b) ensures a in p {
        PathsMeetChain(cfg, pos, parent, d, a, b, p);
      }
    }
    if Dominates(cfg, a, b) {
      ChainHoldsDominators(cfg, pos, parent, d, a, b);
    }
  }

  // ---------- termination ----------

  /** The sum of the positions of all links, an unset one counting as `|pos|`. */
  ghost function Weight(pos: seq<nat>, d: seq<nat>, m: nat): nat
    requires m <= |d| == |pos|
  {
    if m == 0 then 0
    else Weight(pos, d, m - 1) + Height(pos, d[m - 1])
  }

  ghost function Height(pos: seq<nat>, link: nat): nat {
    if link < |pos| then pos[link] else |pos|
  }

  lemma {:induction false} WeightUpdate(pos: seq<nat>, d: seq<nat>, b: nat, r: nat, m: nat)
    requires m <= |d| == |pos| && b < |d|
    ensures Weight(pos, d[b := r], m) ==
      Weight(pos, d, m) + if b < m then Height(pos, r) - Height(pos, d[b]) else 0
  {
    if m > 0 {
      WeightUpdate(pos, d, b, r, m - 1);
    }
  }

  /** An evaluation that changes the link of `b` places it strictly earlier. */
  lemma UpdateLowers(cfg: Cfg, pos: seq<nat>, parent: seq<nat>, was: seq<nat>, d: seq<nat>, b: nat, r: nat)
    requires Setup(cfg, pos, parent) && BetweenPasses(cfg, pos, parent, was)
    requires b < |pos| == |d| && 0 < pos[b] < |pos| && InPass(cfg, pos, parent, was, d, pos[b])
    requires Meets(cfg, pos, d, b, r) && r != d[b]
    ensures r < |pos| && pos[r] < Height(pos, d[b])
    ensures Weight(pos, d[b := r], |pos|) < Weight(pos, d, |pos|)
  {
    hide IsTree, Reachable, WellFormed, Sound, SoundLink, BetweenPasses, Links, Meets, Shrinks, DoneBefore;
    StepHere(cfg, pos, parent, was, d, b, r);
    if Set(was, b) {
      SetInRange(pos, cfg.entry, was, b);
      OnStep(pos, cfg.entry, was, b);
      OnPos(pos, cfg.entry, was, r, was[b]);
    }
    WeightUpdate(pos, d, b, r, |pos|);
  }

  lemma OnStep(pos: seq<nat>, entry: nat, d: seq<nat>, b: nat)
    requires Links(pos, entry, d) && Set(d, b)
    ensures Set(d, d[b]) && On(pos, entry, d, d[b], b) && d[b] < |pos|
  {
    assert LinkOk(pos, entry, d, b);
  }

  // ---------- the start ----------

  lemma PassStarts(cfg: Cfg, pos: seq<nat>, parent: seq<nat>, d: seq<nat>)
    requires Setup(cfg, pos, parent) && BetweenPasses(cfg, pos, parent, d)
    ensures InPass(cfg, pos, parent, d, d, 1)
  {
    hide IsTree, Reachable, WellFormed, SoundLink, Settled, Links, Evaluated;
    StartsAtEntry(pos, cfg.entry, d);
    forall x: nat | Set(d, x) ensures On(pos, cfg.entry, d, d[x], x) {
      OnStep(pos, cfg.entry, d, x);
    }
  }

  lemma FirstPass(cfg: Cfg, pos: seq<nat>, parent: seq<nat>)
    requires Setup(cfg, pos, parent)
    ensures BetweenPasses(cfg, pos, parent, seq(|pos|, _ => UNDEFINED)[cfg.entry := cfg.entry])
  {
    hide Reachable, WellFormed;
    var d := seq(|pos|, _ => UNDEFINED)[cfg.entry := cfg.entry];
    forall b: nat | b < |d| ensures LinkOk(pos, cfg.entry, d, b) {
    }
    assert Links(pos, cfg.entry, d);
  }
}

module Dominators {
  import opened Basics
  import opened Graphs
  import opened Cfgs
  import opened LinkTables
  import opened ReversePostorders
  import opened DominatorFacts

  datatype DominatorTree = DominatorTree(idoms: seq<Option<nat>>, rpo: seq<nat>, rpoIndex: seq<nat>)

  /** `d` strictly dominates `b` and every strict dominator of `b` dominates `d`. */
  ghost predicate ImmediatelyDominates(cfg: Cfg, d: nat, b: nat)
    requires ValidCfg(cfg)
  {
    d != b && forall a: nat :: a != b && Dominates(cfg, a, b) <==> Dominates(cfg, a, d)
  }

  /** The tree holds the immediate dominator of every reachable block but the entry. */
  ghost predicate IsDominatorTree(cfg: Cfg, t: DominatorTree)
    requires ValidCfg(cfg)
  {
    && |t.idoms| == |t.rpoIndex| == |cfg.blocks|
    && IsListing(cfg, t.rpo, t.rpoIndex)
    && forall b: nat :: b < |t.idoms| ==> IdomOk(cfg, t, b)
  }

  ghost predicate IdomOk(cfg: Cfg, t: DominatorTree, b: nat)
    requires ValidCfg(cfg) && b < |t.idoms| == |t.rpoIndex| == |cfg.blocks|
  {
    match t.idoms[b]
    case None => b == cfg.entry || !Reachable(cfg, b)
    case Some(d) =>
      && b != cfg.entry && Reachable(cfg, b)
      && d < |t.idoms| && t.rpoIndex[d] < t.rpoIndex[b] < UNDEFINED
      && Reachable(cfg, d) && ImmediatelyDominates(cfg, d, b)
  }

  /** `idom`: `None` out of range, for the entry and for unreachable blocks. */
  function Idom(t: DominatorTree, b: nat): Option<nat> {
    if b < |t.idoms| then t.idoms[b] else None
  }

  /** Walks both fingers up the links until they meet. */
  method Intersect(ghost entry: nat, b1: nat, b2: nat, idom: array<nat>, rpoIndex: array<nat>) returns (r: nat)
    requires Links(rpoIndex[..], entry, idom[..]) && Set(idom[..], b1) && Set(idom[..], b2)
    ensures Set(idom[..], r)
    ensures forall a: nat :: On(rpoIndex[..], entry, idom[..], a, r) <==>
      On(rpoIndex[..], entry, idom[..], a, b1) && On(rpoIndex[..], entry, idom[..], a, b2)
  {
    hide Links, Positions;
    ghost var pos, d := rpoIndex[..], idom[..];
    var f1, f2 := b1, b2;
    StartsAtEntry(pos, entry, d);
    SetInRange(pos, entry, d, b1);
    SetInRange(pos, entry, d, b2);
    while f1 != f2
      invariant Fingers(pos, entry, d, b1, b2, f1, f2)
      decreases pos[f1] + pos[f2]
    {
      ghost var start := pos[f1] + pos[f2];
      DistinctPositions(pos, entry, f1, f2);
      while rpoIndex[f1] > rpoIndex[f2]
        invariant Fingers(pos, entry, d, b1, b2, f1, f2)
        invariant pos[f1] + pos[f2] < start || (pos[f1] + pos[f2] == start && pos[f1] != pos[f2])
        decreases pos[f1]
      {
        FingerMoves(pos, entry, d, b1, b2, f1, f2);
        f1 := idom[f1];
      }
      while rpoIndex[f2] > rpoIndex[f1]
        invariant Fingers(pos, entry, d, b1, b2, f1, f2)
        invariant pos[f1] + pos[f2] < start || (pos[f1] + pos[f2] == start && pos[f1] < pos[f2])
        decreases pos[f2]
      {
        FingerMoves(pos, entry, d, b2, b1, f2, f1);
        f2 := idom[f2];
      }
    }
    r := f1;
  }

  /** The fingers keep exactly the blocks common to both chains. */
  ghost predicate Fingers(pos: seq<nat>, entry: nat, d: seq<nat>, b1: nat, b2: nat, f1: nat, f2: nat)
    requires Links(pos, entry, d) && Set(d, b1) && Set(d, b2)
  {
    && Set(d, f1) && Set(d, f2) && f1 < |pos| && f2 < |pos| && pos[f1] < UNDEFINED && pos[f2] < UNDEFINED
    && forall a: nat :: On(pos, entry, d, a, f1) && On(pos, entry, d, a, f2) <==>
         On(pos, entry, d, a, b1) && On(pos, entry, d, a, b2)
  }

  lemma DistinctPositions(pos: seq<nat>, entry: nat, a: nat, b: nat)
    requires Positions(pos, entry) && a < |pos| && b < |pos| && a != b && pos[a] < UNDEFINED
    ensures pos[a] != pos[b]
  {
  }

  lemma FingerMoves(pos: seq<nat>, entry: nat, d: seq<nat>, b1: nat, b2: nat, f1: nat, f2: nat)
    requires Links(pos, entry, d) && Set(d, b1) && Set(d, b2) && Fingers(pos, entry, d, b1, b2, f1, f2)
    requires pos[f1] > pos[f2]
    ensures Fingers(pos, entry, d, b1, b2, d[f1], f2) && pos[d[f1]] < pos[f1]
  {
    hide Positions;
    assert f1 != entry by {
      StartsAtEntry(pos, entry, d);
    }
    assert LinkOk(pos, entry, d, f1);
    forall a: nat | On(pos, entry, d, a, f2) ensures On(pos, entry, d, a, f1) <==> On(pos, entry, d, a, d[f1]) {
      OnPos(pos, entry, d, a, f2);
    }
    SetInRange(pos, entry, d, d[f1]);
  }

  /** Whether the first `k` of `preds` that carry a link all have `a` on their chain. */
  ghost predicate OnAll(pos: seq<nat>, entry: nat, d: seq<nat>, preds: seq<nat>, k: nat, a: nat)
    requires Links(pos, entry, d) && k <= |preds|
  {
    forall j :: 0 <= j < k && Set(d, preds[j]) ==> On(pos, entry, d, a, preds[j])
  }

  /** The new link of `b`: the intersection of its processed predecessors, `UNDEFINED` if there is none. */
  method NewIdom(cfg: Cfg, b: nat, idom: array<nat>, rpoIndex: array<nat>) returns (newIdom: nat)
    requires ValidCfg(cfg) && rpoIndex.Length == |cfg.blocks| && Links(rpoIndex[..], cfg.entry, idom[..])
    ensures newIdom == UNDEFINED <==> forall p: nat :: Pred(cfg, p, b) ==> !Set(idom[..], p)
    ensures newIdom != UNDEFINED ==> Meets(cfg, rpoIndex[..], idom[..], b, newIdom)
  {
    hide Links, Positions, WellFormed, On;
    ghost var pos, d := rpoIndex[..], idom[..];
    StartsAtEntry(pos, cfg.entry, d);
    var preds := Predecessors(cfg.blocks, b);
    newIdom := UNDEFINED;
    var i := 0;
    while i < |preds|
      invariant i <= |preds| && newIdom == UNDEFINED
      invariant forall j :: 0 <= j < i ==> !Set(d, preds[j])
    {
      assert preds[i] in preds;
      if idom[preds[i]] != UNDEFINED {
        newIdom := preds[i];
        SetInRange(pos, cfg.entry, d, preds[i]);
        break;
      }
      i := i + 1;
    }
    if newIdom == UNDEFINED {
      return;
    }
    ghost var first := newIdom;
    assert first in preds && Pred(cfg, first, b);
    for k := 0 to |preds|
      invariant Set(d, newIdom) && newIdom != UNDEFINED
      invariant forall a: nat :: On(pos, cfg.entry, d, a, newIdom) <==>
        On(pos, cfg.entry, d, a, first) && OnAll(pos, cfg.entry, d, preds, k, a)
    {
      var p := preds[k];
      assert p in preds;
      forall a: nat
        ensures OnAll(pos, cfg.entry, d, preds, k + 1, a) <==>
          OnAll(pos, cfg.entry, d, preds, k, a) && (Set(d, p) ==> On(pos, cfg.entry, d, a, p))
      {
      }
      ghost var before := newIdom;
      if p != newIdom && idom[p] != UNDEFINED {
        newIdom := Intersect(cfg.entry, p, newIdom, idom, rpoIndex);
        assert rpoIndex[..] == pos && idom[..] == d;
        SetInRange(pos, cfg.entry, d, newIdom);
      }
      forall a: nat
        ensures On(pos, cfg.entry, d, a, newIdom) <==>
          On(pos, cfg.entry, d, a, first) && OnAll(pos, cfg.entry, d, preds, k + 1, a)
      {
        assert On(pos, cfg.entry, d, a, newIdom) <==>
          On(pos, cfg.entry, d, a, before) && (Set(d, p) ==> On(pos, cfg.entry, d, a, p));
      }
    }
    forall a: nat | a < |pos| ensures OnAll(pos, cfg.entry, d, preds, |preds|, a) <==> Common(cfg, pos, d, a, b) {
    }
  }

  /** The public form: no immediate dominator for the entry and for unreachable blocks. */
  function PublicIdoms(idomRaw: seq<nat>, entry: nat): (idoms: seq<Option<nat>>)
    ensures |idoms| == |idomRaw|
    ensures forall b :: 0 <= b < |idoms| ==>
      idoms[b] == if idomRaw[b] == UNDEFINED || b == entry then None else Some(idomRaw[b])
  {
    seq(|idomRaw|, b requires 0 <= b < |idomRaw| =>
      if idomRaw[b] == UNDEFINED || b == entry then None else Some(idomRaw[b]))
  }

  lemma ExactIdoms(cfg: Cfg, rpo: seq<nat>, pos: seq<nat>, parent: seq<nat>, d: seq<nat>, b: nat)
    requires Setup(cfg, pos, parent) && InPass(cfg, pos, parent, d, d, |pos|) && IsListing(cfg, rpo, pos)
    requires |d| == |pos| && b < |d|
    ensures IdomOk(cfg, DominatorTree(PublicIdoms(d, cfg.entry), rpo, pos), b)
  {
    hide IsTree, WellFormed, Sound, SoundLink, Links, Shrinks, DoneBefore, Reachable, IsListing;
    SoundFacts(cfg, pos, parent, d);
    StartsAtEntry(pos, cfg.entry, d);
    if Set(d, b) && b != cfg.entry {
      SetInRange(pos, cfg.entry, d, b);
      OnStep(pos, cfg.entry, d, b);
      OnPos(pos, cfg.entry, d, d[b], b);
      LinkDescends(pos, cfg.entry, d, b);
      SetInRange(pos, cfg.entry, d, d[b]);
      forall a: nat ensures a != b && Dominates(cfg, a, b) <==> Dominates(cfg, a, d[b]) {
        FixpointIsExact(cfg, pos, parent, d, a, b);
        FixpointIsExact(cfg, pos, parent, d, a, d[b]);
        if On(pos, cfg.entry, d, a, d[b]) {
          OnPos(pos, cfg.entry, d, a, d[b]);
        }
      }
    }
  }

  lemma LinkDescends(pos: seq<nat>, entry: nat, d: seq<nat>, b: nat)
    requires Links(pos, entry, d) && Set(d, b) && b != entry
    ensures b < |pos| && d[b] < |pos| && pos[d[b]] < pos[b]
  {
    assert LinkOk(pos, entry, d, b);
  }

  /** The table of a pass without changes, made public. */
  lemma TreeIsExact(cfg: Cfg, rpo: seq<nat>, pos: seq<nat>, parent: seq<nat>, d: seq<nat>)
    requires Setup(cfg, pos, parent) && InPass(cfg, pos, parent, d, d, |pos|) && IsListing(cfg, rpo, pos)
    requires |d| == |pos|
    ensures IsDominatorTree(cfg, DominatorTree(PublicIdoms(d, cfg.entry), rpo, pos))
  {
    hide IsTree, WellFormed, InPass, IdomOk, IsListing;
    var t := DominatorTree(PublicIdoms(d, cfg.entry), rpo, pos);
    forall b: nat | b < |t.idoms| ensures IdomOk(cfg, t, b) {
      ExactIdoms(cfg, rpo, pos, parent, d, b);
    }
  }

  /** Computes the dominator tree of any control-flow graph. */
  method ComputeDominators(cfg: Cfg) returns (t: DominatorTree)
    requires ValidCfg(cfg)
    ensures IsDominatorTree(cfg, t)
  {
    hide IsTree, IsListing, WellFormed, BetweenPasses, InPass, Links, Reachable, Weight, IdomOk, PublicIdoms, Setup,
      IsDominatorTree, Meets;
    var n := |cfg.blocks|;
    var rpo, rpoIndex, parent := ReversePostorder(cfg);
    ghost var pos := rpoIndex[..];
    SetupOf(cfg, rpo, pos, parent);
    var idomRaw := new nat[n](_ => UNDEFINED);
    idomRaw[cfg.entry] := cfg.entry;
    FirstPass(cfg, pos, parent);
    assert idomRaw[..] == seq(|pos|, _ => UNDEFINED)[cfg.entry := cfg.entry];
    var changed := true;
    while changed
      invariant rpoIndex[..] == pos
      invariant BetweenPasses(cfg, pos, parent, idomRaw[..])
      invariant !changed ==> InPass(cfg, pos, parent, idomRaw[..], idomRaw[..], n)
      decreases Weight(pos, idomRaw[..], n), changed
    {
      changed := false;
      ghost var was := idomRaw[..];
      PassStarts(cfg, pos, parent, was);
      for i := 0 to |rpo|
        invariant rpoIndex[..] == pos
        invariant InPass(cfg, pos, parent, was, idomRaw[..], if i == 0 then 1 else i)
        invariant if changed then Weight(pos, idomRaw[..], n) < Weight(pos, was, n) else idomRaw[..] == was
      {
        var b := rpo[i];
        ListedAt(cfg, rpo, pos, i);
        if b != cfg.entry {
          ghost var d := idomRaw[..];
          PassHasLinks(cfg, pos, parent, was, d, b);
          var newIdom := NewIdom(cfg, b, idomRaw, rpoIndex);
          if newIdom != UNDEFINED {
            StepInPass(cfg, pos, parent, was, d, b, newIdom);
            if idomRaw[b] != newIdom {
              UpdateLowers(cfg, pos, parent, was, d, b, newIdom);
              idomRaw[b] := newIdom;
              changed := true;
              assert idomRaw[..] == d[b := newIdom];
            } else {
              assert d == d[b := newIdom];
            }
          }
        }
      }
      PassReachesEnd(cfg, rpo, pos, parent, was, idomRaw[..]);
      PassEnds(cfg, pos, parent, was, idomRaw[..]);
    }
    t := DominatorTree(PublicIdoms(idomRaw[..], cfg.entry), rpo, rpoIndex[..]);
    TreeIsExact(cfg, rpo, pos, parent, idomRaw[..]);
  }

  lemma SetupOf(cfg: Cfg, rpo: seq<nat>, pos: seq<nat>, parent: seq<nat>)
    requires ValidCfg(cfg) && IsListing(cfg, rpo, pos) && IsTree(cfg, pos, parent)
    ensures Setup(cfg, pos, parent) && 0 < |rpo| <= |pos| == |cfg.blocks|
  {
    hide IsTree, WellFormed;
    DistinctBound(rpo, |pos|);
  }

  lemma ListedAt(cfg: Cfg, rpo: seq<nat>, pos: seq<nat>, i: nat)
    requires ValidCfg(cfg) && IsListing(cfg, rpo, pos) && i < |rpo|
    ensures rpo[i] < |pos| && pos[rpo[i]] == i && (rpo[i] == cfg.entry <==> i == 0)
  {
  }

  /** The tree parent of `b` is linked by the time `b` is evaluated. */
  lemma PassHasLinks(cfg: Cfg, pos: seq<nat>, parent: seq<nat>, was: seq<nat>, d: seq<nat>, b: nat)
    requires Setup(cfg, pos, parent) && b < |pos| && 0 < pos[b] < UNDEFINED
    requires InPass(cfg, pos, parent, was, d, pos[b])
    ensures Links(pos, cfg.entry, d) && |d| == |pos| && exists p: nat :: Pred(cfg, p, b) && Set(d, p)
  {
    hide IsTree, WellFormed, SoundLink, Links, Shrinks, DoneBefore, Reachable;
    TreeHolds(cfg, pos, parent, b);
    TreeStep(cfg, pos, parent, b);
    StartsAtEntry(pos, cfg.entry, parent);
    assert Pred(cfg, parent[b], b);
  }

  lemma PassReachesEnd(cfg: Cfg, rpo: seq<nat>, pos: seq<nat>, parent: seq<nat>, was: seq<nat>, d: seq<nat>)
    requires Setup(cfg, pos, parent) && IsListing(cfg, rpo, pos) && |rpo| <= |pos|
    requires InPass(cfg, pos, parent, was, d, |rpo|)
    ensures InPass(cfg, pos, parent, was, d, |pos|) && |d| == |pos|
  {
    hide IsTree, WellFormed, Sound, SoundLink, Links, Shrinks, Evaluated, Reachable;
    forall x: nat | x < |pos| && pos[x] < |pos| ensures pos[x] < |rpo| {
    }
  }

  /** Reflexive dominance, answered by walking the chain of immediate dominators from `b`. */
  method DominatesQuery(ghost cfg: Cfg, t: DominatorTree, a: nat, b: nat) returns (r: bool)
    requires ValidCfg(cfg) && IsDominatorTree(cfg, t)
    ensures b < |t.idoms| && Reachable(cfg, b) ==> (r <==> Dominates(cfg, a, b))
    ensures !(b < |t.idoms| && Reachable(cfg, b)) ==> (r <==> a == b)
  {
    hide IsListing, WellFormed, Reachable;
    if a == b {
      DominatesSelf(cfg, b);
      return true;
    }
    var cur: nat := b;
    while Idom(t, cur).Some?
      invariant cur == b || (cur < |t.idoms| && Reachable(cfg, cur) && b < |t.idoms| && Reachable(cfg, b))
      invariant a != cur
      invariant b < |t.idoms| && Reachable(cfg, b) ==> (Dominates(cfg, a, b) <==> Dominates(cfg, a, cur))
      decreases if cur < |t.idoms| then t.rpoIndex[cur] else 0
    {
      assert IdomOk(cfg, t, cur);
      var d := Idom(t, cur).value;
      if d == a {
        DominatesSelf(cfg, d);
        return true;
      }
      if d == cur {
        return false;
      }
      cur := d;
    }
    if cur < |t.idoms| && Reachable(cfg, cur) {
      assert IdomOk(cfg, t, cur);
      OnlyEntryDominatesEntry(cfg, a);
    }
    return false;
  }

  lemma DominatesSelf(cfg: Cfg, b: nat)
    requires ValidCfg(cfg)
    ensures Dominates(cfg, b, b)
  {
  }

  lemma OnlyEntryDominatesEntry(cfg: Cfg, a: nat)
    requires ValidCfg(cfg) && a != cfg.entry
    ensures !Dominates(cfg, a, cfg.entry)
  {
    assert PathFromTo(Flow(cfg), cfg.entry, [cfg.entry], cfg.entry);
  }
}
