/** The control-flow graph shared by the builder and the dominator pass. */
module Cfgs {
  import opened Graphs

  datatype UseKind = Read | Consume | Reassign

  /** A recorded use of a binding; `span` stands for the source position. */
  datatype UseSite = UseSite(binding: string, kind: UseKind, span: nat)

  datatype BasicBlock = BasicBlock(id: nat, uses: seq<UseSite>, successors: seq<nat>)

  datatype Cfg = Cfg(blocks: seq<BasicBlock>, entry: nat, exit: nat)

  /** `usize::MAX`: the marker of an index not yet assigned. */
  const UNDEFINED: nat := 0xFFFF_FFFF_FFFF_FFFF

  /** Every block carries its own index and edges stay inside the block list. */
  ghost predicate WellFormed(blocks: seq<BasicBlock>) {
    forall i :: 0 <= i < |blocks| ==>
      blocks[i].id == i && forall j :: 0 <= j < |blocks[i].successors| ==> blocks[i].successors[j] < |blocks|
  }

  /** What holds of every `Cfg` value: well-formed blocks, few enough to be indexed by `usize`. */
  ghost predicate ValidCfg(cfg: Cfg) {
    cfg.entry < |cfg.blocks| < UNDEFINED && WellFormed(cfg.blocks)
  }

  ghost function Flow(cfg: Cfg): (g: Graph<nat>) {
    map b: nat | b < |cfg.blocks| :: set s | s in cfg.blocks[b].successors
  }

  /** The blocks listing `id` as a successor, in block order. */
  function Predecessors(blocks: seq<BasicBlock>, id: nat): (preds: seq<nat>)
    requires WellFormed(blocks)
    ensures forall p: nat :: p in preds <==> p < |blocks| && id in blocks[p].successors
    ensures forall i, k :: 0 <= i < k < |preds| ==> preds[i] < preds[k]
  {
    PredecessorsBelow(blocks, id, |blocks|)
  }

  function PredecessorsBelow(blocks: seq<BasicBlock>, id: nat, n: nat): (preds: seq<nat>)
    requires WellFormed(blocks) && n <= |blocks|
    ensures forall p: nat :: p in preds <==> p < n && id in blocks[p].successors
    ensures forall i, k :: 0 <= i < k < |preds| ==> preds[i] < preds[k]
  {
    if n == 0 then []
    else
      var before := PredecessorsBelow(blocks, id, n - 1);
      assert forall i :: 0 <= i < |before| ==> before[i] in before;
      before + if id in blocks[n - 1].successors then [blocks[n - 1].id] else []
  }

  ghost predicate Reachable(cfg: Cfg, b: nat) {
    Reach(Flow(cfg), cfg.entry, b)
  }

  /** `a` lies on every path from the entry to `b`. */
  ghost predicate Dominates(cfg: Cfg, a: nat, b: nat) {
    forall p :: PathFromTo(Flow(cfg), cfg.entry, p, b) ==> a in p
  }
}
