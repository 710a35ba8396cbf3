/**
  Reverse postorder and the Cooper-Harvey-Kennedy dominator fixpoint.

  A *link table* maps each block to an earlier one; following the links from a block gives
  its chain. The depth-first tree and the immediate dominators found so far are both link tables.
 */
module LinkTables {
  import opened Cfgs

  /** Positions in reverse postorder: `UNDEFINED` off the list, distinct on it, 0 at the entry. */
  ghost predicate Positions(pos: seq<nat>, entry: nat) {
    && |pos| < UNDEFINED && entry < |pos| && pos[entry] == 0
    && (forall b :: 0 <= b < |pos| ==> pos[b] < |pos| || pos[b] == UNDEFINED)
    && (forall a, b :: 0 <= a < |pos| && 0 <= b < |pos| && pos[a] == pos[b] < UNDEFINED ==> a == b)
  }

  predicate Set(d: seq<nat>, b: nat) {
    b < |d| && d[b] != UNDEFINED
  }

  ghost predicate LinkOk(pos: seq<nat>, entry: nat, d: seq<nat>, b: nat) {
    Set(d, b) ==>
      b < |pos| && pos[b] != UNDEFINED && Set(d, d[b]) && d[b] < |pos| && (b != entry ==> pos[d[b]] < pos[b])
  }

  /** Every set link other than the entry's leads to a set block strictly earlier in reverse postorder. */
  ghost predicate Links(pos: seq<nat>, entry: nat, d: seq<nat>) {
    && Positions(pos, entry)
    && |d| == |pos| && d[entry] == entry
    && forall b: nat :: b < |d| ==> LinkOk(pos, entry, d, b)
  }

  /** `a` is met when following links from `b`. */
  ghost predicate On(pos: seq<nat>, entry: nat, d: seq<nat>, a: nat, b: nat): (r: bool)
    requires Links(pos, entry, d) && Set(d, b)
    ensures r ==> Set(d, a)
    decreases pos[b]
  {
    assert LinkOk(pos, entry, d, b);
    a == b || (b != entry && On(pos, entry, d, a, d[b]))
  }

  lemma StartsAtEntry(pos: seq<nat>, entry: nat, d: seq<nat>)
    requires Links(pos, entry, d)
    ensures Positions(pos, entry) && pos[entry] == 0 && d[entry] == entry && |d| == |pos|
  {
  }

  lemma {:induction false} OnPos(pos: seq<nat>, entry: nat, d: seq<nat>, a: nat, b: nat)
    requires Links(pos, entry, d) && Set(d, b) && On(pos, entry, d, a, b)
    ensures Set(d, a) && pos[a] <= pos[b] < UNDEFINED && (a != b ==> pos[a] < pos[b])
    decreases pos[b]
  {
    assert LinkOk(pos, entry, d, b);
    if a != b {
      OnPos(pos, entry, d, a, d[b]);
    }
  }

  lemma {:induction false} OnTrans(pos: seq<nat>, entry: nat, d: seq<nat>, a: nat, b: nat, c: nat)
    requires Links(pos, entry, d) && Set(d, c) && Set(d, b) && On(pos, entry, d, a, b) && On(pos, entry, d, b, c)
    ensures On(pos, entry, d, a, c)
    decreases pos[c]
  {
    assert LinkOk(pos, entry, d, c);
    if b != c {
      OnTrans(pos, entry, d, a, b, d[c]);
    }
  }

  /** Links at or before `b` fix the chain of `b`. */
  lemma {:induction false} OnLocal(pos: seq<nat>, entry: nat, d: seq<nat>, e: seq<nat>, a: nat, b: nat)
    requires Links(pos, entry, d) && Links(pos, entry, e) && Set(d, b)
    requires forall x {:trigger d[x]} {:trigger e[x]} :: 0 <= x < |pos| && pos[x] <= pos[b] ==> d[x] == e[x]
    ensures Set(e, b) && (On(pos, entry, d, a, b) <==> On(pos, entry, e, a, b))
    decreases pos[b]
  {
    assert LinkOk(pos, entry, d, b);
    if a != b && b != entry {
      OnLocal(pos, entry, d, e, a, d[b]);
    }
  }

  /** If every link of `e` ends on the chain of `d`, then chains of `e` are contained in chains of `d`. */
  lemma {:induction false} OnShrinks(pos: seq<nat>, entry: nat, d: seq<nat>, e: seq<nat>, a: nat, b: nat)
    requires Links(pos, entry, d) && Links(pos, entry, e) && Set(d, b) && Set(e, b)
    requires forall x: nat {:trigger e[x]} :: Set(e, x) && Set(d, x) ==> Set(d, e[x]) && On(pos, entry, d, e[x], x)
    requires On(pos, entry, e, a, b)
    ensures On(pos, entry, d, a, b)
    decreases pos[b]
  {
    assert LinkOk(pos, entry, d, b);
    assert LinkOk(pos, entry, e, b);
    if a != b {
      OnShrinks(pos, entry, d, e, a, e[b]);
      OnTrans(pos, entry, d, a, e[b], b);
    }
  }

  /** The first block on the chain of `b` placed before `limit`. */
  ghost function Below(pos: seq<nat>, entry: nat, d: seq<nat>, b: nat, limit: nat): (r: nat)
    requires Links(pos, entry, d) && Set(d, b) && 0 < limit
    ensures Set(d, r) && pos[r] < limit && On(pos, entry, d, r, b)
    decreases pos[b]
  {
    assert LinkOk(pos, entry, d, b);
    if pos[b] < limit then b else Below(pos, entry, d, d[b], limit)
  }

  /** A table that keeps the links of `d` from `limit` on enters the earlier part at the same block. */
  lemma {:induction false} OnBelow(pos: seq<nat>, entry: nat, d: seq<nat>, e: seq<nat>, a: nat, b: nat, limit: nat)
    requires Links(pos, entry, d) && Links(pos, entry, e) && Set(d, b) && Set(e, b) && 0 < limit
    requires forall x {:trigger d[x]} {:trigger e[x]} :: 0 <= x < |pos| && pos[x] >= limit ==> d[x] == e[x]
    requires a < |pos| && pos[a] < limit
    ensures var r := Below(pos, entry, d, b, limit);
      Set(e, r) && (On(pos, entry, e, a, b) <==> On(pos, entry, e, a, r))
    decreases pos[b]
  {
    assert LinkOk(pos, entry, d, b);
    assert LinkOk(pos, entry, d, b) && LinkOk(pos, entry, e, b);
    if pos[b] >= limit {
      OnBelow(pos, entry, d, e, a, d[b], limit);
    }
  }
}
