/** Applying the edits attached to diagnostics to a source text. */
module CmdFix {
  import opened Basics
  import Sorting
  import opened Utf8

  const USIZE_MAX: nat := 0xFFFF_FFFF_FFFF_FFFF

  /** No string is longer. */
  const ISIZE_MAX: nat := 0x7FFF_FFFF_FFFF_FFFF

  type Usize = n: nat | n <= USIZE_MAX

  /** The bytes of a Rust string, as far as it matters here: they do not start inside a character. */
  type Text = b: seq<Byte> | b == [] || !IsTail(b[0])

  datatype TextEdit = TextEdit(offset: Usize, length: Usize, replacement: Text)

  /** Where the replaced range ends; the addition saturates. */
  function End(e: TextEdit): Usize {
    if e.offset + e.length <= USIZE_MAX then e.offset + e.length else USIZE_MAX
  }

  predicate Apart(a: TextEdit, b: TextEdit) {
    End(a) <= b.offset || End(b) <= a.offset
  }

  predicate Later(a: TextEdit, b: TextEdit) {
    a.offset >= b.offset
  }

  lemma LaterIsAnOrder()
    ensures Sorting.TotalPreorder(Later)
  {
  }

  /** By descending offset; edits at the same offset keep their order. */
  function Descending(edits: seq<TextEdit>): seq<TextEdit> {
    Sorting.Sort(Later, edits)
  }

  function At(edits: seq<TextEdit>, offset: Usize): seq<TextEdit> {
    if edits == [] then []
    else At(edits[..|edits| - 1], offset) + if edits[|edits| - 1].offset == offset then [edits[|edits| - 1]] else []
  }

  lemma {:induction false} InsertIsStable(e: TextEdit, edits: seq<TextEdit>, offset: Usize)
    requires Sorting.Sorted(Later, edits)
    ensures At(Sorting.Insert(Later, e, edits), offset) == At(edits, offset) + if e.offset == offset then [e] else []
  {
    if edits == [] || Later(edits[|edits| - 1], e) {
      assert (edits + [e])[..|edits|] == edits;
    } else {
      var front, last := edits[..|edits| - 1], edits[|edits| - 1];
      InsertIsStable(e, front, offset);
      var r := Sorting.Insert(Later, e, front);
      assert (r + [last])[..|r|] == r;
    }
  }

  lemma {:induction false} DescendingIsStable(edits: seq<TextEdit>, offset: Usize)
    ensures At(Descending(edits), offset) == At(edits, offset)
    ensures Sorting.Sorted(Later, Descending(edits)) && multiset(Descending(edits)) == multiset(edits)
  {
    LaterIsAnOrder();
    Sorting.SortSorts(Later, edits);
    Sorting.SortIsPermutation(Later, edits);
    if edits != [] {
      var front := edits[..|edits| - 1];
      DescendingIsStable(front, offset);
      InsertIsStable(edits[|edits| - 1], Descending(front), offset);
    }
  }

  // ---------- dropping overlaps ----------

  /** Walks down the offsets, dropping every edit that reaches past the start of the last one kept. */
  function Keep(edits: seq<TextEdit>, lastStart: Usize): seq<TextEdit> {
    if edits == [] then []
    else if End(edits[0]) > lastStart then Keep(edits[1..], lastStart)
    else [edits[0]] + Keep(edits[1..], edits[0].offset)
  }

  function Kept(edits: seq<TextEdit>): seq<TextEdit> {
    Keep(Descending(edits), USIZE_MAX)
  }

  method DropOverlaps(edits: seq<TextEdit>) returns (deduped: seq<TextEdit>)
    ensures deduped == Kept(edits)
  {
    var sorted := Descending(edits);
    deduped := [];
    var lastStart: Usize := USIZE_MAX;
    for i := 0 to |sorted|
      invariant deduped + Keep(sorted[i..], lastStart) == Kept(edits)
    {
      var edit := sorted[i];
      assert sorted[i..][0] == edit && sorted[i..][1..] == sorted[i + 1..];
      var end := End(edit);
      if end > lastStart {
        continue;
      }
      lastStart := edit.offset;
      deduped := deduped + [edit];
    }
  }

  /** From the right end of the text to the left, each edit ends before the one before it starts. */
  ghost predicate Chain(edits: seq<TextEdit>, bound: Usize) {
    forall i, j :: 0 <= i < |edits| ==> End(edits[i]) <= bound && (i < j < |edits| ==> End(edits[j]) <= edits[i].offset)
  }

  lemma {:induction false} KeepIsAChain(edits: seq<TextEdit>, lastStart: Usize)
    ensures Chain(Keep(edits, lastStart), lastStart)
    ensures forall e :: e in Keep(edits, lastStart) ==> e in edits
  {
    if edits != [] {
      if End(edits[0]) > lastStart {
        KeepIsAChain(edits[1..], lastStart);
      } else {
        var rest := Keep(edits[1..], edits[0].offset);
        KeepIsAChain(edits[1..], edits[0].offset);
        forall i, j | 0 <= i < |rest| + 1
          ensures End(([edits[0]] + rest)[i]) <= lastStart
          ensures i < j < |rest| + 1 ==> End(([edits[0]] + rest)[j]) <= ([edits[0]] + rest)[i].offset
        {
          assert i > 0 ==> End(rest[i - 1]) <= edits[0].offset <= End(edits[0]);
          assert i < j < |rest| + 1 ==> ([edits[0]] + rest)[j] == rest[j - 1];
        }
      }
    }
  }

  /** Kept edits are given edits, and no two overlap. */
  lemma {:induction false} KeptAreApart(edits: seq<TextEdit>)
    ensures forall e :: e in Kept(edits) ==> e in edits
    ensures forall i, j :: 0 <= i < j < |Kept(edits)| ==> Apart(Kept(edits)[i], Kept(edits)[j])
    ensures edits != [] ==> Kept(edits) != []
  {
    KeepIsAChain(Descending(edits), USIZE_MAX);
    Sorting.SortIsPermutation(Later, edits);
  }

  ghost predicate PairwiseApart(edits: seq<TextEdit>) {
    forall i, j :: 0 <= i < j < |edits| ==> Apart(edits[i], edits[j])
  }

  /** An edit that replaces nothing, as insertions do. */
  predicate IsEmpty(e: TextEdit) {
    End(e) == e.offset
  }

  /** Among the edits at one offset, no empty one stands before one that is not. */
  ghost predicate EmptiesLast(edits: seq<TextEdit>) {
    forall i, j :: 0 <= i < j < |edits| && edits[i].offset == edits[j].offset && IsEmpty(edits[i]) ==> IsEmpty(edits[j])
  }

  function Without(edits: seq<TextEdit>, k: nat): (r: seq<TextEdit>)
    requires k < |edits|
    ensures multiset(edits) == multiset(r) + multiset{edits[k]} && |r| == |edits| - 1
  {
    assert edits == edits[..k] + [edits[k]] + edits[k + 1..];
    edits[..k] + edits[k + 1..]
  }

  lemma {:induction false} WithoutKeepsApart(edits: seq<TextEdit>, k: nat)
    requires PairwiseApart(edits) && k < |edits|
    ensures PairwiseApart(Without(edits, k))
    ensures forall x :: x in Without(edits, k) ==> exists i :: 0 <= i < |edits| && i != k && edits[i] == x
  {
    var r := Without(edits, k);
    forall i, j | 0 <= i < j < |r| ensures Apart(r[i], r[j]) {
      assert r[i] == edits[if i < k then i else i + 1] && r[j] == edits[if j < k then j else j + 1];
    }
    forall x | x in r ensures exists i :: 0 <= i < |edits| && i != k && edits[i] == x {
      var i :| 0 <= i < |r| && r[i] == x;
      assert edits[if i < k then i else i + 1] == x;
    }
  }

  /** Every edit up to the bound that replaces something is kept or overlaps a kept one. */
  ghost predicate Crowded(edits: seq<TextEdit>, bound: Usize) {
    forall e :: e in edits && End(e) <= bound && !IsEmpty(e) && e !in Keep(edits, bound) ==>
      Clashes(e, Keep(edits, bound))
  }

  ghost predicate Clashes(e: TextEdit, kept: seq<TextEdit>) {
    exists k :: k in kept && !Apart(e, k)
  }

  lemma {:induction false} HeadIsLast(edits: seq<TextEdit>, e: TextEdit)
    requires Sorting.Sorted(Later, edits) && e in edits
    ensures e.offset <= edits[0].offset
  {
    var i :| 0 <= i < |edits| && edits[i] == e;
    assert i > 0 ==> Later(edits[0], edits[i]);
  }

  lemma KeepFirst(edits: seq<TextEdit>, bound: Usize)
    requires edits != [] && End(edits[0]) <= bound
    ensures Keep(edits, bound) == [edits[0]] + Keep(edits[1..], edits[0].offset)
    ensures forall k :: k in Keep(edits, bound) ==> k == edits[0] || End(k) <= edits[0].offset
  {
    KeepIsAChain(edits[1..], edits[0].offset);
  }

  /** An edit that reaches past the start of the first one overlaps it. */
  lemma {:induction false} FirstClashes(edits: seq<TextEdit>, bound: Usize, e: TextEdit)
    requires edits != [] && Sorting.Sorted(Later, edits) && Crowded(edits, bound) && End(edits[0]) <= bound
    requires e in edits && edits[0].offset < End(e) <= bound
    ensures !Apart(e, edits[0]) && !Apart(edits[0], e)
  {
    hide Keep, Clashes;
    HeadIsLast(edits, e);
    if IsEmpty(edits[0]) && e.offset == edits[0].offset {
      Stranded(edits, bound, e);
    }
  }

  /** What the first edit crowds out at its own offset, though it is empty, overlaps nothing kept. */
  lemma Stranded(edits: seq<TextEdit>, bound: Usize, e: TextEdit)
    requires edits != [] && End(edits[0]) <= bound && IsEmpty(edits[0])
    requires e.offset == edits[0].offset && !IsEmpty(e)
    ensures e !in Keep(edits, bound) && !Clashes(e, Keep(edits, bound))
  {
    hide Keep;
    KeepFirst(edits, bound);
  }

  lemma {:induction false} CrowdedTail(edits: seq<TextEdit>, bound: Usize)
    requires edits != [] && Crowded(edits, bound)
    ensures Crowded(edits[1..], if End(edits[0]) > bound then bound else edits[0].offset)
  {
    if End(edits[0]) <= bound {
      var first, rest := edits[0], Keep(edits[1..], edits[0].offset);
      KeepFirst(edits, bound);
      forall e | e in edits[1..] && End(e) <= first.offset && !IsEmpty(e) && e !in rest ensures Clashes(e, rest) {
        var k :| k in Keep(edits, bound) && !Apart(e, k);
        assert k in rest;
      }
    }
  }

  /** Leaving out the one edit that reaches past the start of the first leaves none that does, nor the first itself. */
  lemma {:induction false} LeaveOut(edits: seq<TextEdit>, bound: Usize, others: seq<TextEdit>, k: nat)
    requires edits != [] && Sorting.Sorted(Later, edits) && Crowded(edits, bound) && End(edits[0]) <= bound
    requires PairwiseApart(others) && forall e :: e in others ==> e in edits && End(e) <= bound
    requires k < |others| && End(others[k]) > edits[0].offset
    ensures PairwiseApart(Without(others, k))
    ensures forall e :: e in Without(others, k) ==> End(e) <= edits[0].offset && e != edits[0]
  {
    hide Crowded, Without;
    WithoutKeepsApart(others, k);
    forall e | e in Without(others, k) ensures End(e) <= edits[0].offset && e != edits[0] {
      var i :| 0 <= i < |others| && i != k && others[i] == e;
      assert Apart(others[k], e) || Apart(e, others[k]);
      HeadIsLast(edits, e);
      HeadIsLast(edits, others[k]);
      FirstClashes(edits, bound, others[k]);
    }
  }

  lemma {:induction false} TailIsFine(edits: seq<TextEdit>)
    requires edits != [] && Sorting.Sorted(Later, edits)
    ensures Sorting.Sorted(Later, edits[1..])
    ensures multiset(edits) == multiset{edits[0]} + multiset(edits[1..])
  {
    assert edits == [edits[0]] + edits[1..];
  }

  lemma InRest(edits: seq<TextEdit>, others: seq<TextEdit>)
    requires edits != [] && multiset(others) <= multiset(edits) && edits[0] !in others
    ensures multiset(others) <= multiset(edits[1..])
  {
    assert edits == [edits[0]] + edits[1..];
    assert edits[0] !in multiset(others);
  }

  lemma LeaveOneOut(a: multiset<TextEdit>, b: multiset<TextEdit>, e: TextEdit)
    requires a + multiset{e} <= multiset{e} + b
    ensures a <= b
  {
    forall x | x in a ensures a[x] <= b[x] {
      assert (a + multiset{e})[x] <= (multiset{e} + b)[x];
    }
  }

  lemma {:induction false} FewerEnds(others: seq<TextEdit>, k: nat, bound: Usize)
    requires k < |others| && forall e :: e in others ==> End(e) <= bound
    ensures forall e :: e in Without(others, k) ==> End(e) <= bound
  {
    forall e | e in Without(others, k) ensures e in others {
      assert e in multiset(Without(others, k));
      assert e in multiset(others);
    }
  }

  /**
    From any bound, no choice without overlaps is larger than the kept one, if what is dropped overlaps what is kept.
   */
  lemma {:induction false} KeepIsLargest(edits: seq<TextEdit>, lastStart: Usize, others: seq<TextEdit>)
    requires Sorting.Sorted(Later, edits) && Crowded(edits, lastStart)
    requires PairwiseApart(others) && multiset(others) <= multiset(edits)
    requires forall e :: e in others ==> End(e) <= lastStart
    ensures |others| <= |Keep(edits, lastStart)|
    decreases edits
  {
    hide IsEmpty, Apart, Crowded, Sorting.Sorted;
    if edits == [] {
      assert |multiset(others)| == 0;
      return;
    }
    TailIsFine(edits);
    CrowdedTail(edits, lastStart);
    if End(edits[0]) > lastStart {
      InRest(edits, others);
      KeepIsLargest(edits[1..], lastStart, others);
    } else {
      LargestWithFirst(edits, lastStart, others);
    }
  }

  lemma {:induction false} LargestWithFirst(edits: seq<TextEdit>, lastStart: Usize, others: seq<TextEdit>)
    requires Sorting.Sorted(Later, edits) && Crowded(edits, lastStart) && edits != [] && End(edits[0]) <= lastStart
    requires Sorting.Sorted(Later, edits[1..]) && Crowded(edits[1..], edits[0].offset)
    requires multiset(edits) == multiset{edits[0]} + multiset(edits[1..])
    requires PairwiseApart(others) && multiset(others) <= multiset(edits)
    requires forall e :: e in others ==> End(e) <= lastStart
    ensures |others| <= |Keep(edits, lastStart)|
    decreases edits, 0
  {
    hide IsEmpty, Apart, Crowded, Sorting.Sorted, End, PairwiseApart;
    var first := edits[0];
    forall e | e in others ensures e in edits {
      assert e in multiset(others);
    }
    if k: nat :| k < |others| && End(others[k]) > first.offset {
      var rest := Without(others, k);
      LeaveOut(edits, lastStart, others, k);
      InRest(edits, rest);
      KeepIsLargest(edits[1..], first.offset, rest);
      return;
    }
    forall e | e in others ensures End(e) <= first.offset {
      var i: nat :| i < |others| && others[i] == e;
      assert !(End(others[i]) > first.offset);
    }
    if first in others {
      var k: nat :| k < |others| && others[k] == first;
      WithoutKeepsApart(others, k);
      FewerEnds(others, k, first.offset);
      LeaveOneOut(multiset(Without(others, k)), multiset(edits[1..]), first);
      KeepIsLargest(edits[1..], first.offset, Without(others, k));
    } else {
      InRest(edits, others);
      KeepIsLargest(edits[1..], first.offset, others);
    }
  }

  /** Where no empty edit stands before another at its offset, everything dropped overlaps something kept. */
  lemma {:induction false} EmptiesLastCrowds(edits: seq<TextEdit>, bound: Usize)
    requires Sorting.Sorted(Later, edits) && EmptiesLast(edits)
    ensures forall e :: e in edits && End(e) <= bound && e !in Keep(edits, bound) ==> Clashes(e, Keep(edits, bound))
  {
    if edits != [] {
      var first := edits[0];
      assert Sorting.Sorted(Later, edits[1..]) && EmptiesLast(edits[1..]);
      EmptiesLastCrowds(edits[1..], if End(first) > bound then bound else first.offset);
      forall e | e in edits && End(e) <= bound && e !in Keep(edits, bound) ensures Clashes(e, Keep(edits, bound)) {
        var i :| 0 <= i < |edits| && edits[i] == e;
        HeadIsLast(edits, e);
        if End(first) <= bound {
          assert first in Keep(edits, bound);
          if End(e) > first.offset {
            assert i > 0 && !Apart(e, first);
          } else {
            assert e in edits[1..] && e !in Keep(edits[1..], first.offset);
            var k :| k in Keep(edits[1..], first.offset) && !Apart(e, k);
            assert k in Keep(edits, bound);
          }
        }
      }
    }
  }

  /** Edits at one offset stand among those at that offset in the order they stand in. */
  lemma {:induction false} AtKeepsOrder(edits: seq<TextEdit>, i: nat, j: nat) returns (x: nat, y: nat)
    requires i < j < |edits| && edits[i].offset == edits[j].offset
    ensures var s := At(edits, edits[i].offset); x < y < |s| && s[x] == edits[i] && s[y] == edits[j]
  {
    var front := edits[..|edits| - 1];
    if j < |front| {
      x, y := AtKeepsOrder(front, i, j);
    } else {
      x := AtHolds(front, i);
      y := |At(front, edits[i].offset)|;
    }
  }

  lemma {:induction false} AtHolds(edits: seq<TextEdit>, i: nat) returns (x: nat)
    requires i < |edits|
    ensures var s := At(edits, edits[i].offset); x < |s| && s[x] == edits[i]
  {
    if i < |edits| - 1 {
      x := AtHolds(edits[..|edits| - 1], i);
    } else {
      x := |At(edits[..i], edits[i].offset)|;
    }
  }

  /** Conversely, for two edits at one offset. */
  lemma {:induction false} AtComesFrom(edits: seq<TextEdit>, offset: Usize, x: nat, y: nat) returns (i: nat, j: nat)
    requires x < y < |At(edits, offset)|
    ensures i < j < |edits| && edits[i] == At(edits, offset)[x] && edits[j] == At(edits, offset)[y]
    ensures edits[i].offset == edits[j].offset == offset
  {
    var front := edits[..|edits| - 1];
    if y < |At(front, offset)| {
      i, j := AtComesFrom(front, offset, x, y);
    } else {
      i := OneComesFrom(front, offset, x);
      j := |front|;
    }
  }

  lemma {:induction false} OneComesFrom(edits: seq<TextEdit>, offset: Usize, x: nat) returns (i: nat)
    requires x < |At(edits, offset)|
    ensures i < |edits| && edits[i] == At(edits, offset)[x] && edits[i].offset == offset
  {
    var front := edits[..|edits| - 1];
    if x < |At(front, offset)| {
      i := OneComesFrom(front, offset, x);
    } else {
      i := |front|;
    }
  }

  lemma {:induction false} SortingKeepsEmptiesLast(edits: seq<TextEdit>)
    requires EmptiesLast(edits)
    ensures EmptiesLast(Descending(edits))
  {
    var s := Descending(edits);
    forall i, j | 0 <= i < j < |s| && s[i].offset == s[j].offset && IsEmpty(s[i]) ensures IsEmpty(s[j]) {
      var x, y := AtKeepsOrder(s, i, j);
      DescendingIsStable(edits, s[i].offset);
      var k, l := AtComesFrom(edits, s[i].offset, x, y);
    }
  }

  /** No choice of given edits without overlaps is larger than the kept one. */
  ghost predicate KeptIsLargest(edits: seq<TextEdit>) {
    forall others :: PairwiseApart(others) && multiset(others) <= multiset(edits) ==> |others| <= |Kept(edits)|
  }

  /** The kept edits are a largest choice exactly if every dropped edit overlaps a kept one. */
  lemma {:induction false} LargestExactlyIfCrowded(edits: seq<TextEdit>)
    ensures KeptIsLargest(edits) <==> forall e :: e in edits && e !in Kept(edits) ==> Clashes(e, Kept(edits))
  {
    hide Clashes, PairwiseApart;
    DescendingIsStable(edits, 0);
    SameElements(Descending(edits), edits);
    if forall e :: e in edits && e !in Kept(edits) ==> Clashes(e, Kept(edits)) {
      forall others | PairwiseApart(others) && multiset(others) <= multiset(edits) ensures |others| <= |Kept(edits)| {
        KeepIsLargest(Descending(edits), USIZE_MAX, others);
      }
    } else {
      var e :| e in edits && e !in Kept(edits) && !Clashes(e, Kept(edits));
      OneMoreApart(edits, e);
      assert |Kept(edits) + [e]| > |Kept(edits)|;
    }
  }

  lemma SameElements(a: seq<TextEdit>, b: seq<TextEdit>)
    requires multiset(a) == multiset(b)
    ensures forall e :: e in a <==> e in b
  {
    assert forall e :: e in a <==> e in multiset(a);
    assert forall e :: e in b <==> e in multiset(b);
  }

  /** A dropped edit that overlaps nothing kept could have been kept as well. */
  lemma OneMoreApart(edits: seq<TextEdit>, e: TextEdit)
    requires e in edits && e !in Kept(edits) && !Clashes(e, Kept(edits))
    ensures PairwiseApart(Kept(edits) + [e]) && multiset(Kept(edits) + [e]) <= multiset(edits)
  {
    hide Kept, Apart;
    var kept := Kept(edits);
    KeptAreApart(edits);
    forall i, j | 0 <= i < j < |kept + [e]| ensures Apart((kept + [e])[i], (kept + [e])[j]) {
      if j == |kept| {
        assert kept[i] in kept;
        ApartBothWays(e, kept[i]);
      }
    }
    KeptAreGiven(edits);
    assert e in multiset(edits) && multiset(kept)[e] == 0;
    assert multiset(kept + [e]) == multiset(kept) + multiset{e};
  }

  lemma ApartBothWays(a: TextEdit, b: TextEdit)
    ensures Apart(a, b) <==> Apart(b, a)
  {
  }

  lemma KeptAreGiven(edits: seq<TextEdit>)
    ensures multiset(Kept(edits)) <= multiset(edits)
  {
    DescendingIsStable(edits, 0);
    KeepIsSmaller(Descending(edits), USIZE_MAX);
  }

  lemma {:induction false} KeepIsSmaller(edits: seq<TextEdit>, bound: Usize)
    ensures multiset(Keep(edits, bound)) <= multiset(edits)
  {
    if edits != [] {
      assert edits == [edits[0]] + edits[1..];
      KeepIsSmaller(edits[1..], if End(edits[0]) > bound then bound else edits[0].offset);
    }
  }

  /** What drops an edit: a kept one that starts inside it. */
  lemma {:induction false} DroppedBy(edits: seq<TextEdit>, bound: Usize, e: TextEdit) returns (k: TextEdit)
    requires Sorting.Sorted(Later, edits) && e in edits && End(e) <= bound && e !in Keep(edits, bound)
    ensures k in Keep(edits, bound) && e.offset <= k.offset < End(e)
  {
    var first := edits[0];
    HeadIsLast(edits, e);
    TailIsFine(edits);
    if End(first) > bound {
      k := DroppedBy(edits[1..], bound, e);
    } else if End(e) > first.offset {
      k := first;
    } else {
      k := DroppedBy(edits[1..], first.offset, e);
    }
  }

  /**
    A dropped edit overlaps nothing kept exactly if it replaces something, what is kept at its offset is there and
    replaces nothing, and it ends before any kept edit further right starts.
   */
  lemma StrandedExactly(edits: seq<TextEdit>, e: TextEdit)
    requires e in edits && e !in Kept(edits)
    ensures !Clashes(e, Kept(edits)) <==>
      && !IsEmpty(e)
      && (exists k :: k in Kept(edits) && k.offset == e.offset)
      && (forall k :: k in Kept(edits) && k.offset == e.offset ==> IsEmpty(k))
      && (forall k :: k in Kept(edits) && k.offset > e.offset ==> End(e) <= k.offset)
  {
    hide Kept, Clashes, IsEmpty;
    if !Clashes(e, Kept(edits)) {
      StrandedStands(edits, e);
    } else {
      ClashesSomewhere(edits, e);
    }
  }

  lemma StrandedStands(edits: seq<TextEdit>, e: TextEdit)
    requires e in edits && e !in Kept(edits) && !Clashes(e, Kept(edits))
    ensures !IsEmpty(e) && exists k :: k in Kept(edits) && k.offset == e.offset
    ensures forall k :: k in Kept(edits) && k.offset == e.offset ==> IsEmpty(k)
    ensures forall k :: k in Kept(edits) && k.offset > e.offset ==> End(e) <= k.offset
  {
    hide Keep, Sorting.Sorted, Descending;
    DescendingIsStable(edits, 0);
    SameElements(Descending(edits), edits);
    var k := DroppedBy(Descending(edits), USIZE_MAX, e);
    assert k in Kept(edits) && Apart(e, k);
  }

  lemma ClashesSomewhere(edits: seq<TextEdit>, e: TextEdit)
    requires Clashes(e, Kept(edits))
    ensures
      || IsEmpty(e)
      || (forall k :: k in Kept(edits) ==> k.offset != e.offset)
      || (exists k :: k in Kept(edits) && k.offset == e.offset && !IsEmpty(k))
      || (exists k :: k in Kept(edits) && k.offset > e.offset && End(e) > k.offset)
  {
    hide Kept;
    var k :| k in Kept(edits) && !Apart(e, k);
    if a :| a in Kept(edits) && a.offset == e.offset && k.offset < e.offset {
      KeptApart(edits, a, k);
    }
  }

  lemma KeptApart(edits: seq<TextEdit>, a: TextEdit, b: TextEdit)
    requires a in Kept(edits) && b in Kept(edits) && a != b
    ensures Apart(a, b)
  {
    hide Kept;
    KeptAreApart(edits);
    var kept := Kept(edits);
    var i :| 0 <= i < |kept| && kept[i] == a;
    var j :| 0 <= j < |kept| && kept[j] == b;
    assert if i < j then Apart(kept[i], kept[j]) else Apart(kept[j], kept[i]);
  }

  /** It is a largest choice if no empty edit stands before another edit at the same offset. */
  lemma {:induction false} KeptAreMost(edits: seq<TextEdit>)
    requires EmptiesLast(edits)
    ensures KeptIsLargest(edits)
  {
    hide EmptiesLast, Clashes;
    DescendingIsStable(edits, 0);
    SameElements(Descending(edits), edits);
    SortingKeepsEmptiesLast(edits);
    EmptiesLastCrowds(Descending(edits), USIZE_MAX);
    LargestExactlyIfCrowded(edits);
  }

  /** An empty edit in front of any other edit at its offset: the other is lost although the two do not overlap. */
  lemma {:induction false} InsertionsCanLose(a: TextEdit, b: TextEdit)
    requires IsEmpty(a) && !IsEmpty(b) && a.offset == b.offset
    ensures Kept([a, b]) == [a] && Apart(a, b) && Kept([b, a]) == [b, a]
  {
    SortsPair(a, b);
    SortsPair(b, a);
    assert [a, b][1..] == [b] && [b][1..] == [] && [b, a][1..] == [a] && [a][1..] == [];
    assert Keep([b], a.offset) == [] && Keep([a], b.offset) == [a] + Keep([], a.offset);
  }

  lemma {:induction false} SortsPair(a: TextEdit, b: TextEdit)
    requires a.offset == b.offset
    ensures Descending([a, b]) == [a, b]
  {
    assert [a, b][..1] == [a] && [a][..0] == [];
    assert Sorting.Sort(Later, [a]) == [a];
  }

  // ---------- rewriting ----------

  /** A text of at most `isize::MAX` bytes is too short for the difference to matter. */
  lemma EndIsPast(e: TextEdit, n: nat)
    requires n <= ISIZE_MAX
    ensures End(e) <= n <==> e.offset + e.length <= n
    ensures End(e) <= n ==> End(e) == e.offset + e.length
  {
  }

  /** Edits in ascending order, each ending before the next starts. */
  ghost predicate Ascending(source: seq<Byte>, edits: seq<TextEdit>, from: nat) {
    if edits == [] then from <= |source|
    else from <= edits[0].offset && Ascending(source, edits[1..], edits[0].offset + edits[0].length)
  }

  /** The source from `from` on with all edits made at once, read from left to right. */
  ghost function Splice(source: seq<Byte>, edits: seq<TextEdit>, from: nat): seq<Byte>
    requires Ascending(source, edits, from)
  {
    if edits == [] then source[from..]
    else
      InSource(source, edits, from);
      var rest := Splice(source, edits[1..], edits[0].offset + edits[0].length);
      source[from..edits[0].offset] + edits[0].replacement + rest
  }

  lemma {:induction false} InSource(source: seq<Byte>, edits: seq<TextEdit>, from: nat)
    requires Ascending(source, edits, from)
    ensures from <= |source|
    ensures edits != [] ==> from <= edits[0].offset <= edits[0].offset + edits[0].length <= |source|
  {
    if edits != [] {
      InSource(source, edits[1..], edits[0].offset + edits[0].length);
    }
  }

  /** The text before the first edit is copied. */
  lemma {:induction false} SpliceCopies(source: seq<Byte>, edits: seq<TextEdit>, from: nat, k: nat)
    requires Ascending(source, edits, k) && from <= k
    ensures Ascending(source, edits, from) && k <= |source|
    ensures Splice(source, edits, from) == source[from..k] + Splice(source, edits, k)
  {
    InSource(source, edits, k);
    if edits == [] {
      assert source[from..] == source[from..k] + source[k..];
    } else {
      var first := edits[0].offset;
      var tail := Splice(source, edits[1..], edits[0].offset + edits[0].length);
      assert source[from..first] == source[from..k] + source[k..first];
      Regroup(source[from..k], source[k..first], edits[0].replacement, tail);
    }
  }

  lemma Regroup(a: seq<Byte>, b: seq<Byte>, c: seq<Byte>, d: seq<Byte>)
    ensures (a + b) + c + d == a + (b + c + d)
  {
  }

  /** Making one more edit in place, to the left of those already made. */
  lemma {:induction false} OneMoreEdit(
    source: seq<Byte>, done: seq<TextEdit>, from: nat, edit: TextEdit, buffer: seq<Byte>)
    requires Ascending(source, done, from) && edit.offset + edit.length <= from <= |source|
    requires buffer == source[..from] + Splice(source, done, from)
    ensures |buffer| >= edit.offset + edit.length >= edit.offset && Ascending(source, [edit] + done, edit.offset)
    ensures buffer[..edit.offset] + edit.replacement + buffer[edit.offset + edit.length..]
         == source[..edit.offset] + Splice(source, [edit] + done, edit.offset)
  {
    hide Ascending;
    var end, next := edit.offset + edit.length, [edit] + done;
    assert next[1..] == done;
    SpliceCopies(source, done, end, from);
    SpliceStarts(source, edit, done);
    assert buffer[..edit.offset] == source[..edit.offset];
    assert buffer[end..] == source[end..from] + Splice(source, done, from);
    Regroup(source[..edit.offset], edit.replacement, buffer[end..], []);
  }

  lemma {:induction false} SpliceStarts(source: seq<Byte>, edit: TextEdit, done: seq<TextEdit>)
    requires Ascending(source, done, edit.offset + edit.length)
    ensures Ascending(source, [edit] + done, edit.offset)
    ensures Splice(source, [edit] + done, edit.offset) ==
      edit.replacement + Splice(source, done, edit.offset + edit.length)
  {
    assert ([edit] + done)[1..] == done;
    InSource(source, [edit] + done, edit.offset);
    assert source[edit.offset..edit.offset] == [];
  }

  // ---------- what is replaced, and by how much ----------

  ghost function Lengths(edits: seq<TextEdit>): nat {
    if edits == [] then 0 else edits[0].length + Lengths(edits[1..])
  }

  ghost function Replacements(edits: seq<TextEdit>): nat {
    if edits == [] then 0 else |edits[0].replacement| + Replacements(edits[1..])
  }

  lemma {:induction false} SpliceLength(source: seq<Byte>, edits: seq<TextEdit>, from: nat)
    requires Ascending(source, edits, from)
    ensures from <= |source|
    ensures |Splice(source, edits, from)| + from + Lengths(edits) == |source| + Replacements(edits)
  {
    InSource(source, edits, from);
    if edits != [] {
      SpliceLength(source, edits[1..], edits[0].offset + edits[0].length);
    }
  }

  lemma {:induction false} SumsAppend(edits: seq<TextEdit>, e: TextEdit)
    ensures Lengths(edits + [e]) == Lengths(edits) + e.length
    ensures Replacements(edits + [e]) == Replacements(edits) + |e.replacement|
  {
    if edits == [] {
      assert edits + [e] == [e] && [e][1..] == [];
    } else {
      assert (edits + [e])[1..] == edits[1..] + [e];
      SumsAppend(edits[1..], e);
    }
  }

  lemma {:induction false} SumsReversed(edits: seq<TextEdit>)
    ensures Lengths(Reversed(edits)) == Lengths(edits) && Replacements(Reversed(edits)) == Replacements(edits)
  {
    if edits != [] {
      SumsReversed(edits[1..]);
      SumsAppend(Reversed(edits[1..]), edits[0]);
    }
  }

  // ---------- character boundaries ----------

  /** Rust's `is_char_boundary`. */
  predicate IsBoundary(text: seq<Byte>, k: nat) {
    k == 0 || k == |text| || (k < |text| && !IsTail(text[k]))
  }

  /** The range of the edit lies in the text and splits no character. */
  predicate Replaceable(text: seq<Byte>, e: TextEdit) {
    e.offset + e.length <= |text| && IsBoundary(text, e.offset) && IsBoundary(text, e.offset + e.length)
  }

  /** Replacing a range keeps the boundaries to its left. */
  lemma BoundariesStay(text: seq<Byte>, e: TextEdit, k: nat)
    requires Replaceable(text, e) && k <= e.offset
    ensures IsBoundary(text[..e.offset] + e.replacement + text[e.offset + e.length..], k) <==> IsBoundary(text, k)
  {
    var next := text[..e.offset] + e.replacement + text[e.offset + e.length..];
    if k == e.offset {
      assert e.replacement != [] ==> next[k] == e.replacement[0];
      assert e.replacement == [] && e.offset + e.length < |text| ==> next[k] == text[e.offset + e.length];
    } else {
      assert next[k] == text[k];
    }
  }

  /** In encoded text the boundaries are the ends of its characters. */
  lemma {:induction false} BoundaryIsBetween(s: string, k: nat)
    ensures IsBoundary(Encode(s), k) <==> exists j :: 0 <= j <= |s| && k == |Encode(s[..j])|
  {
    hide EncodeChar;
    if s == "" {
      assert s[..0] == "";
    } else {
      var first, rest := EncodeChar(s[0]), Encode(s[1..]);
      BytesOfChar(s[0]);
      assert s[..0] == "" && Encode(s[..0]) == [];
      forall j | 1 <= j <= |s| ensures Encode(s[..j]) == first + Encode(s[1..][..j - 1]) {
        assert s[..j][1..] == s[1..][..j - 1];
      }
      if k >= |first| {
        BoundaryIsBetween(s[1..], k - |first|);
        assert k < |Encode(s)| ==> Encode(s)[k] == rest[k - |first|];
        BoundaryAfter(s[1..]);
        if IsBoundary(Encode(s), k) {
          var j :| 0 <= j <= |s[1..]| && k - |first| == |Encode(s[1..][..j])|;
          assert k == |Encode(s[..j + 1])|;
        }
        if j :| 0 <= j <= |s| && k == |Encode(s[..j])| {
          assert j >= 1 && k - |first| == |Encode(s[1..][..j - 1])|;
        }
      }
    }
  }

  /** The first byte of a character continues none, the others do. */
  lemma BytesOfChar(c: char)
    ensures !IsTail(EncodeChar(c)[0]) && forall i :: 1 <= i < |EncodeChar(c)| ==> IsTail(EncodeChar(c)[i])
  {
  }

  lemma BoundaryAfter(s: string)
    ensures Encode(s) != [] ==> !IsTail(Encode(s)[0])
  {
    hide EncodeChar;
    if s != "" {
      BytesOfChar(s[0]);
    }
  }

  /** Some string is encoded in these bytes. */
  ghost predicate IsText(bytes: seq<Byte>) {
    exists s :: bytes == Encode(s)
  }

  lemma TextCut(s: string, k: nat)
    requires k <= |Encode(s)| && IsBoundary(Encode(s), k)
    ensures IsText(Encode(s)[..k]) && IsText(Encode(s)[k..])
  {
    hide EncodeChar, IsBoundary;
    BoundaryIsBetween(s, k);
    var j :| 0 <= j <= |s| && k == |Encode(s[..j])|;
    assert s == s[..j] + s[j..];
    EncodeAppends(s[..j], s[j..]);
    assert Encode(s)[..k] == Encode(s[..j]) && Encode(s)[k..] == Encode(s[j..]);
  }

  lemma TextJoined(a: seq<Byte>, b: seq<Byte>)
    requires IsText(a) && IsText(b)
    ensures IsText(a + b)
  {
    hide EncodeChar;
    var s, t :| a == Encode(s) && b == Encode(t);
    EncodeAppends(s, t);
  }

  lemma TextBetween(text: seq<Byte>, from: nat, to: nat)
    requires IsText(text) && from <= to <= |text| && IsBoundary(text, from) && IsBoundary(text, to)
    ensures IsText(text[from..to]) && IsText(text[from..])
  {
    hide EncodeChar;
    var s :| text == Encode(s);
    TextCut(s, to);
    var t :| text[..to] == Encode(t);
    assert from < to ==> text[..to][from] == text[from];
    TextCut(t, from);
    assert text[..to][from..] == text[from..to];
    TextCut(s, from);
  }

  /** Replacing ranges of whole characters by strings leaves a string. */
  lemma {:induction false} SpliceIsText(source: seq<Byte>, edits: seq<TextEdit>, from: nat)
    requires IsText(source) && Ascending(source, edits, from) && from <= |source| && IsBoundary(source, from)
    requires forall i :: 0 <= i < |edits| ==> Replaceable(source, edits[i]) && IsText(edits[i].replacement)
    ensures IsText(Splice(source, edits, from))
  {
    hide IsText, IsBoundary;
    InSource(source, edits, from);
    if edits == [] {
      TextBetween(source, from, from);
    } else {
      var e, rest := edits[0], Splice(source, edits[1..], edits[0].offset + edits[0].length);
      assert Replaceable(source, e);
      SpliceIsText(source, edits[1..], e.offset + e.length);
      TextBetween(source, from, e.offset);
      TextJoined(source[from..e.offset], e.replacement);
      TextJoined(source[from..e.offset] + e.replacement, rest);
    }
  }

  // ---------- the command ----------

  /** A line of a dry run: the place, the text to be replaced, if the range can be read, and its replacement. */
  datatype Preview = Preview(line: nat, column: nat, original: Option<seq<Byte>>, replacement: Text)

  datatype Outcome =
    | NothingToFix
    | Listed(previews: seq<Preview>)
    | Aborted(end: nat, length: nat)
    | Panicked
    | Rewritten(text: seq<Byte>, count: nat)

  /** `str::get` on a range. */
  function Original(source: seq<Byte>, e: TextEdit): Option<seq<Byte>> {
    if End(e) <= |source| && IsBoundary(source, e.offset) && IsBoundary(source, End(e))
    then Some(source[e.offset..End(e)])
    else None
  }

  const NEWLINE: Byte := 0x0A

  function Newlines(text: seq<Byte>): nat {
    if text == [] then 0
    else Newlines(text[..|text| - 1]) + if text[|text| - 1] == NEWLINE then 1 else 0
  }

  /** The text behind the last newline. */
  function LastLine(text: seq<Byte>): (line: seq<Byte>)
    ensures NEWLINE !in line && |line| <= |text| && text[|text| - |line|..] == line
    ensures |line| < |text| ==> text[|text| - |line| - 1] == NEWLINE
  {
    if text == [] || text[|text| - 1] == NEWLINE then []
    else LastLine(text[..|text| - 1]) + [text[|text| - 1]]
  }

  /** Every character has one byte that does not continue another. */
  function Characters(text: seq<Byte>): nat {
    if text == [] then 0
    else Characters(text[..|text| - 1]) + if IsTail(text[|text| - 1]) then 0 else 1
  }

  function Before(source: seq<Byte>, offset: nat): seq<Byte> {
    source[..Min(offset, |source|)]
  }

  lemma OneMoreByte(source: seq<Byte>, i: nat)
    requires i < |source|
    ensures Newlines(source[..i + 1]) == Newlines(source[..i]) + if source[i] == NEWLINE then 1 else 0
    ensures Characters(LastLine(source[..i + 1])) ==
      if source[i] == NEWLINE then 0
      else Characters(LastLine(source[..i])) + if IsTail(source[i]) then 0 else 1
  {
    var before, line := source[..i + 1], LastLine(source[..i]);
    assert before[..i] == source[..i] && before[i] == source[i];
    assert (line + [source[i]])[..|line|] == line;
  }

  lemma NothingBefore()
    ensures Newlines([]) == 0 && LastLine([]) == [] && Characters([]) == 0
  {
  }

  /** One-based line and column of an offset, counted in characters. */
  method LineColumn(source: seq<Byte>, offset: nat) returns (line: nat, column: nat)
    ensures line == 1 + Newlines(Before(source, offset))
    ensures column == 1 + Characters(LastLine(Before(source, offset)))
  {
    hide Newlines, LastLine, Characters;
    line, column := 1, 1;
    var n := Min(offset, |source|);
    NothingBefore();
    assert source[..0] == [];
    for i := 0 to n
      invariant line == 1 + Newlines(source[..i]) && column == 1 + Characters(LastLine(source[..i]))
    {
      OneMoreByte(source, i);
      if IsTail(source[i]) {
        continue;
      }
      if source[i] == NEWLINE {
        line, column := line + 1, 1;
      } else {
        column := column + 1;
      }
    }
  }

  /** One more byte of a text. */
  lemma NextByte(text: seq<Byte>, b: Byte)
    ensures Newlines(text + [b]) == Newlines(text) + if b == NEWLINE then 1 else 0
    ensures Characters(LastLine(text + [b])) ==
      if b == NEWLINE then 0 else Characters(LastLine(text)) + if IsTail(b) then 0 else 1
  {
    OneMoreByte(text + [b], |text|);
    assert (text + [b])[..|text| + 1] == text + [b] && (text + [b])[..|text|] == text;
  }

  /** The bytes of one more character: its first one counts, unless it ends the line. */
  lemma NextCharacter(text: seq<Byte>, c: char)
    ensures Newlines(text + EncodeChar(c)) == Newlines(text) + if c == '\n' then 1 else 0
    ensures Characters(LastLine(text + EncodeChar(c))) == if c == '\n' then 0 else Characters(LastLine(text)) + 1
  {
    hide EncodeChar, Newlines, Characters, LastLine;
    var bytes := EncodeChar(c);
    LeadTellsLength(c);
    BytesOfChar(c);
    NextByte(text, bytes[0]);
    assert text + bytes == text + [bytes[0]] + bytes[1..];
    MoreTails(text + [bytes[0]], bytes[1..]);
    assert bytes[0] == NEWLINE <==> c == '\n';
  }

  lemma {:induction false} MoreTails(text: seq<Byte>, tails: seq<Byte>)
    requires forall i :: 0 <= i < |tails| ==> IsTail(tails[i])
    ensures Newlines(text + tails) == Newlines(text)
    ensures Characters(LastLine(text + tails)) == Characters(LastLine(text))
    decreases |tails|
  {
    hide Newlines, Characters, LastLine;
    if tails == [] {
      assert text + tails == text;
    } else {
      NextByte(text, tails[0]);
      assert text + tails == text + [tails[0]] + tails[1..];
      MoreTails(text + [tails[0]], tails[1..]);
    }
  }

  /** The last line of the string starts here. */
  predicate LineStart(s: string, start: nat) {
    start <= |s| && '\n' !in s[start..] && (start > 0 ==> s[start - 1] == '\n')
  }

  lemma LineStartGrows(s: string, c: char, start: nat)
    requires LineStart(s, start)
    ensures LineStart(s + [c], if c == '\n' then |s| + 1 else start)
  {
    assert (s + [c])[start..] == s[start..] + [c];
    assert (s + [c])[|s| + 1..] == "";
  }

  /** In a string, newline characters separate lines, and a column counts the characters behind the last one. */
  lemma {:induction false} PlaceOfCharacter(s: string) returns (start: nat)
    ensures Newlines(Encode(s)) == multiset(s)['\n'] && LineStart(s, start)
    ensures Characters(LastLine(Encode(s))) == |s| - start
  {
    hide Encode, EncodeChar, Newlines, Characters, LastLine, LineStart;
    if s == "" {
      NothingEncoded();
      NothingBefore();
      start := 0;
      EmptyLine();
    } else {
      var front, c := s[..|s| - 1], s[|s| - 1];
      var before := PlaceOfCharacter(front);
      assert s == front + [c];
      LastEncoded(front, c);
      NextCharacter(Encode(front), c);
      LineStartGrows(front, c, before);
      start := if c == '\n' then |s| else before;
    }
  }

  lemma EmptyLine()
    ensures LineStart("", 0)
  {
  }

  lemma NothingEncoded()
    ensures Encode("") == []
  {
  }

  lemma LastEncoded(s: string, c: char)
    ensures Encode(s + [c]) == Encode(s) + EncodeChar(c)
  {
    hide EncodeChar;
    EncodeAppends(s, [c]);
    assert [c][1..] == "";
  }

  ghost function PreviewOf(source: seq<Byte>, e: TextEdit): Preview {
    var before := Before(source, e.offset);
    Preview(1 + Newlines(before), 1 + Characters(LastLine(before)), TextOf(source, e), e.replacement)
  }

  /** The text an edit replaces, if its range can be read. */
  ghost function TextOf(source: seq<Byte>, e: TextEdit): Option<seq<Byte>> {
    if Replaceable(source, e) then Some(source[e.offset..e.offset + e.length]) else None
  }

  method Show(source: seq<Byte>, e: TextEdit) returns (preview: Preview)
    requires |source| <= ISIZE_MAX
    ensures preview == PreviewOf(source, e)
  {
    hide Newlines, LastLine, Characters, Before, IsBoundary;
    var line, column := LineColumn(source, e.offset);
    EndIsPast(e, |source|);
    preview := Preview(line, column, Original(source, e), e.replacement);
  }

  /** Lists the edits in source order. */
  method List(source: seq<Byte>, deduped: seq<TextEdit>) returns (previews: seq<Preview>)
    requires |source| <= ISIZE_MAX
    ensures |previews| == |deduped|
    ensures forall i :: 0 <= i < |deduped| ==> previews[i] == PreviewOf(source, Reversed(deduped)[i])
  {
    hide PreviewOf, Reversed;
    previews := [];
    for i := |deduped| downto 0
      invariant |previews| == |deduped| - i
      invariant forall k :: 0 <= k < |previews| ==> previews[k] == PreviewOf(source, Reversed(deduped)[k])
    {
      var preview := Show(source, deduped[i]);
      previews := previews + [preview];
    }
  }

  /**
    Rewrites the buffer in place, from the last edit to the first. The first edit applied ends past the source, and
    nothing is written; or some range splits a character, and replacing it panics; or the result is the source with all
    edits made at once.
   */
  method Rewrite(source: seq<Byte>, deduped: seq<TextEdit>) returns (r: Outcome)
    requires Chain(deduped, USIZE_MAX) && |source| <= ISIZE_MAX
    ensures r.Aborted? <==> exists k :: 0 <= k < |deduped| && deduped[k].offset + deduped[k].length > |source|
    ensures r.Aborted? ==>
      deduped != [] && r == Aborted(Min(deduped[0].offset + deduped[0].length, USIZE_MAX), |source|)
    ensures r.Rewritten? <==> forall k :: 0 <= k < |deduped| ==> Replaceable(source, deduped[k])
    ensures r.Rewritten? ==>
      && Ascending(source, Reversed(deduped), 0)
      && r == Rewritten(Splice(source, Reversed(deduped), 0), |deduped|)
    ensures r.Aborted? || r.Panicked? || r.Rewritten?
  {
    hide Splice, Ascending, Reversed, IsBoundary, Replaceable;
    var rewritten := source;
    ghost var from: nat := |source|;
    ghost var done: seq<TextEdit> := [];
    ReversedEnds(deduped);
    NothingSpliced(source);
    for i := 0 to |deduped|
      invariant done == Reversed(deduped[..i])
      invariant from <= |source| && (i == 0 ==> from == |source|) && (i > 0 ==> from == deduped[i - 1].offset)
      invariant Ascending(source, done, from) && rewritten == source[..from] + Splice(source, done, from)
      invariant forall k: nat :: k <= from ==> (IsBoundary(rewritten, k) <==> IsBoundary(source, k))
      invariant forall k :: 0 <= k < i ==> Replaceable(source, deduped[k])
      invariant i > 0 ==> AllInside(source, deduped)
    {
      var edit := deduped[i];
      var end := End(edit);
      EndIsPast(edit, |source|);
      if end > |rewritten| {
        PastIsNot(source, edit);
        return Aborted(end, |rewritten|);
      }
      ChainInside(source, deduped);
      OneMoreEdit(source, done, from, edit, rewritten);
      SameRange(source, rewritten, from, edit);
      if !IsBoundary(rewritten, edit.offset) || !IsBoundary(rewritten, end) {
        return Panicked;
      }
      forall k: nat | k <= edit.offset
        ensures IsBoundary(rewritten[..edit.offset] + edit.replacement + rewritten[end..], k) <==>
          IsBoundary(rewritten, k)
      {
        BoundariesStay(rewritten, edit, k);
      }
      rewritten := rewritten[..edit.offset] + edit.replacement + rewritten[end..];
      ReversedGrows(deduped, i);
      done, from := [edit] + done, edit.offset;
    }
    assert deduped[..|deduped|] == deduped;
    SpliceCopies(source, done, 0, from);
    assert source[0..from] == source[..from];
    return Rewritten(rewritten, |deduped|);
  }

  /** The range of an edit to the left of those made is as good in the source as in the buffer. */
  lemma SameRange(source: seq<Byte>, buffer: seq<Byte>, from: nat, e: TextEdit)
    requires |source| <= ISIZE_MAX && e.offset + e.length <= from <= |source| && from <= |buffer|
    requires forall k: nat :: k <= from ==> (IsBoundary(buffer, k) <==> IsBoundary(source, k))
    ensures Replaceable(source, e) <==> IsBoundary(buffer, e.offset) && IsBoundary(buffer, e.offset + e.length)
    ensures Replaceable(source, e) <==> Replaceable(buffer, e)
  {
    hide IsBoundary;
  }

  /** An edit past the end cannot be made. */
  lemma PastIsNot(source: seq<Byte>, e: TextEdit)
    ensures Replaceable(source, e) ==> e.offset + e.length <= |source|
  {
  }

  ghost predicate AllInside(source: seq<Byte>, edits: seq<TextEdit>) {
    forall k :: 0 <= k < |edits| ==> edits[k].offset + edits[k].length <= |source|
  }

  /** If the rightmost edit ends inside the source, all do. */
  lemma ChainInside(source: seq<Byte>, edits: seq<TextEdit>)
    requires Chain(edits, USIZE_MAX) && edits != [] && |source| <= ISIZE_MAX
    ensures AllInside(source, edits) <==> End(edits[0]) <= |source|
  {
    EndIsPast(edits[0], |source|);
    forall k | 0 <= k < |edits| && End(edits[0]) <= |source|
      ensures edits[k].offset + edits[k].length <= |source|
    {
      EndIsPast(edits[k], |source|);
    }
  }

  lemma {:induction false} ReversedGrows(edits: seq<TextEdit>, i: nat)
    requires i < |edits|
    ensures Reversed(edits[..i + 1]) == [edits[i]] + Reversed(edits[..i])
    decreases i
  {
    if i > 0 {
      assert edits[1..][..i] == edits[..i + 1][1..] && edits[1..][..i - 1] == edits[..i][1..];
      ReversedGrows(edits[1..], i - 1);
    } else {
      assert edits[..1][1..] == [];
    }
  }

  lemma NothingSpliced(source: seq<Byte>)
    ensures Ascending(source, [], |source|) && Splice(source, [], |source|) == []
  {
  }

  lemma ReversedEnds(edits: seq<TextEdit>)
    ensures Reversed(edits[..0]) == []
  {
  }

  /** Fixes a file's text: sorts the edits, drops overlaps, and lists or rewrites. */
  method Fix(source: seq<Byte>, edits: seq<TextEdit>, dryRun: bool) returns (r: Outcome)
    requires |source| <= ISIZE_MAX
    ensures r == NothingToFix <==> edits == []
    ensures edits != [] ==> (r.Listed? <==> dryRun)
    ensures r.Listed? ==> |r.previews| == |Kept(edits)|
    ensures r.Listed? ==>
      forall i :: 0 <= i < |Kept(edits)| ==> r.previews[i] == PreviewOf(source, Reversed(Kept(edits))[i])
    ensures edits != [] && !dryRun ==>
      && (r.Aborted? <==> exists e :: e in Kept(edits) && e.offset + e.length > |source|)
      && (r.Rewritten? <==> forall e :: e in Kept(edits) ==> Replaceable(source, e))
      && (!r.Aborted? && !r.Rewritten? ==> r == Panicked)
    ensures r.Aborted? ==>
      Kept(edits) != [] && r == Aborted(Min(Kept(edits)[0].offset + Kept(edits)[0].length, USIZE_MAX), |source|)
    ensures r.Rewritten? ==>
      && Ascending(source, Reversed(Kept(edits)), 0)
      && r == Rewritten(Splice(source, Reversed(Kept(edits)), 0), |Kept(edits)|)
    ensures r.Rewritten? ==> |r.text| + Lengths(Kept(edits)) == |source| + Replacements(Kept(edits))
    ensures r.Rewritten? && IsText(source) && (forall e :: e in edits ==> IsText(e.replacement)) ==> IsText(r.text)
  {
    hide Replaceable, Splice, Ascending, Lengths, Replacements, IsText;
    if edits == [] {
      return NothingToFix;
    }
    var deduped := DropOverlaps(edits);
    KeptAreApart(edits);
    KeepIsAChain(Descending(edits), USIZE_MAX);
    if dryRun {
      var previews := List(source, deduped);
      return Listed(previews);
    }
    r := Rewrite(source, deduped);
    if r.Rewritten? {
      SpliceLength(source, Reversed(deduped), 0);
      SumsReversed(deduped);
      ghost var texts := IsText(source) && forall e :: e in edits ==> IsText(e.replacement);
      if texts {
        KeptSplicesText(source, edits);
      }
    }
  }

  lemma KeptSplicesText(source: seq<Byte>, edits: seq<TextEdit>)
    requires IsText(source) && forall e :: e in edits ==> IsText(e.replacement)
    requires (forall e :: e in Kept(edits) ==> Replaceable(source, e)) && Ascending(source, Reversed(Kept(edits)), 0)
    ensures IsText(Splice(source, Reversed(Kept(edits)), 0))
  {
    hide Replaceable, Kept, IsText, Ascending, Splice;
    KeptAreApart(edits);
    var kept, r := Kept(edits), Reversed(Kept(edits));
    forall i | 0 <= i < |r| ensures Replaceable(source, r[i]) && IsText(r[i].replacement) {
      assert r[i] == kept[|kept| - 1 - i];
    }
    SpliceIsText(source, r, 0);
  }
}
