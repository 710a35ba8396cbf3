/** When two statements of a body conflict, and what their footprints have to do with it. */
module Conflicts {

  datatype Verb = Reads | Writes | Sends | Receives | Allocates | Panics | Blocks | Suspends | UserDefined(name: string)

  datatype Effect = Effect(verb: Verb, resource: string)

  datatype StmtInfo = StmtInfo(
    defines: set<string>,
    letIntroduced: set<string>,
    read: set<string>,
    effects: seq<Effect>,
    callsPolymorphic: bool,
    isSeq: bool,
    hasEarlyExit: bool,
    isConstantInit: bool
  )

  predicate TwoEffectsConflict(a: Effect, b: Effect) {
    a.resource == b.resource &&
    match (a.verb, b.verb)
    case (Reads, Reads) => false
    case (Reads, Writes) => true
    case (Writes, Reads) => true
    case (Writes, Writes) => true
    case (Sends, Sends) => true
    case (Receives, Receives) => true
    case (Sends, Receives) => false
    case (Receives, Sends) => false
    case (Allocates, Allocates) => true
    case (Panics, Panics) => true
    case (Blocks, Blocks) => true
    case (Suspends, Suspends) => true
    case (UserDefined(x), UserDefined(y)) => x == y
    case _ => false
  }

  /** On one resource, two effects of the same verb conflict unless both read, and a read and a write do. */
  lemma ConflictsExactly(a: Effect, b: Effect)
    ensures TwoEffectsConflict(a, b) <==>
      && a.resource == b.resource
      && if a.verb == b.verb then a.verb != Reads else multiset{a.verb, b.verb} == multiset{Reads, Writes}
  {
    assert Reads in multiset{Reads, Writes} && Writes in multiset{Reads, Writes};
    assert a.verb in multiset{a.verb, b.verb} && b.verb in multiset{a.verb, b.verb};
  }

  ghost predicate SomeEffectsConflict(a: seq<Effect>, b: seq<Effect>) {
    exists i, j :: 0 <= i < |a| && 0 <= j < |b| && TwoEffectsConflict(a[i], b[j])
  }

  method EffectsConflict(a: seq<Effect>, b: seq<Effect>) returns (r: bool)
    ensures r <==> SomeEffectsConflict(a, b)
  {
    for i := 0 to |a|
      invariant forall k, l :: 0 <= k < i && 0 <= l < |b| ==> !TwoEffectsConflict(a[k], b[l])
    {
      for j := 0 to |b|
        invariant forall l :: 0 <= l < j ==> !TwoEffectsConflict(a[i], b[l])
      {
        if TwoEffectsConflict(a[i], b[j]) {
          return true;
        }
      }
    }
    return false;
  }

  ghost predicate Conflict(a: StmtInfo, b: StmtInfo) {
    || a.isSeq || b.isSeq
    || !(a.defines !! b.read) || !(b.defines !! a.read) || !(a.defines !! b.defines)
    || (a.callsPolymorphic && (b.callsPolymorphic || b.effects != []))
    || (b.callsPolymorphic && a.effects != [])
    || SomeEffectsConflict(a.effects, b.effects)
  }

  method StatementsConflict(a: StmtInfo, b: StmtInfo) returns (r: bool)
    ensures r <==> Conflict(a, b)
  {
    if a.isSeq || b.isSeq {
      return true;
    }
    if !(a.defines !! b.read) || !(b.defines !! a.read) {
      return true;
    }
    if !(a.defines !! b.defines) {
      return true;
    }
    if a.callsPolymorphic && (b.callsPolymorphic || b.effects != []) {
      return true;
    }
    if b.callsPolymorphic && a.effects != [] {
      return true;
    }
    r := EffectsConflict(a.effects, b.effects);
  }

  // ---------- footprints ----------

  /** The part of a resource a verb concerns; reads and writes concern the same part. */
  datatype Category = Contents | Outbox | Inbox | Allocation | Panicking | Blocking | Suspending | Custom(name: string)

  function CategoryOf(v: Verb): Category {
    match v
    case Reads => Contents
    case Writes => Contents
    case Sends => Outbox
    case Receives => Inbox
    case Allocates => Allocation
    case Panics => Panicking
    case Blocks => Blocking
    case Suspends => Suspending
    case UserDefined(name) => Custom(name)
  }

  datatype Cell = Variable(name: string) | Resource(name: string, category: Category)

  predicate Concerns(e: Effect, c: Cell) {
    c.Resource? && e.resource == c.name && CategoryOf(e.verb) == c.category
  }

  /** The cells the steps of a statement may depend on; a polymorphic call may involve any resource. */
  ghost predicate Touches(info: StmtInfo, c: Cell) {
    match c
    case Variable(x) => x in info.read || x in info.defines
    case Resource(_, _) => info.callsPolymorphic || exists i :: 0 <= i < |info.effects| && Concerns(info.effects[i], c)
  }

  /** The cells they may change: reading a resource leaves it alone. */
  ghost predicate Changes(info: StmtInfo, c: Cell) {
    match c
    case Variable(x) => x in info.defines
    case Resource(_, _) =>
      || info.callsPolymorphic
      || exists i :: 0 <= i < |info.effects| && Concerns(info.effects[i], c) && info.effects[i].verb != Reads
  }

  ghost predicate InterfereAt(a: StmtInfo, b: StmtInfo, c: Cell) {
    (Changes(a, c) && Touches(b, c)) || (Changes(b, c) && Touches(a, c))
  }

  lemma EffectsInterfere(a: Effect, b: Effect)
    ensures TwoEffectsConflict(a, b) <==>
      exists c :: Concerns(a, c) && Concerns(b, c) && (a.verb != Reads || b.verb != Reads)
  {
    var c := Resource(a.resource, CategoryOf(a.verb));
    assert Concerns(a, c);
  }

  /**
    The conflict test is exact: apart from `seq` blocks, it holds just when one footprint changes a cell of the
    other.
   */
  lemma ConflictMeansInterference(a: StmtInfo, b: StmtInfo)
    ensures Conflict(a, b) <==> a.isSeq || b.isSeq || exists c :: InterfereAt(a, b, c)
  {
    if c :| InterfereAt(a, b, c) && !a.isSeq && !b.isSeq {
      InterferenceConflicts(a, b, c);
    }
    if Conflict(a, b) && !a.isSeq && !b.isSeq {
      var c := ConflictInterferes(a, b);
    }
  }

  lemma InterferenceConflicts(a: StmtInfo, b: StmtInfo, c: Cell)
    requires InterfereAt(a, b, c)
    ensures Conflict(a, b)
  {
    if c.Resource? && !a.callsPolymorphic && !b.callsPolymorphic {
      var i :| 0 <= i < |a.effects| && Concerns(a.effects[i], c) && (Changes(a, c) ==> a.effects[i].verb != Reads);
      var j :| 0 <= j < |b.effects| && Concerns(b.effects[j], c) && (Changes(b, c) ==> b.effects[j].verb != Reads);
      EffectsInterfere(a.effects[i], b.effects[j]);
    }
  }

  lemma ConflictInterferes(a: StmtInfo, b: StmtInfo) returns (c: Cell)
    requires Conflict(a, b) && !a.isSeq && !b.isSeq
    ensures InterfereAt(a, b, c)
  {
    if x :| x in a.defines && (x in b.read || x in b.defines) {
      c := Variable(x);
    } else if x :| x in b.defines && x in a.read {
      c := Variable(x);
    } else if a.callsPolymorphic && b.callsPolymorphic {
      c := Resource("", Contents);
    } else if a.callsPolymorphic && b.effects != [] {
      c := Resource(b.effects[0].resource, CategoryOf(b.effects[0].verb));
      assert Concerns(b.effects[0], c);
    } else if b.callsPolymorphic && a.effects != [] {
      c := Resource(a.effects[0].resource, CategoryOf(a.effects[0].verb));
      assert Concerns(a.effects[0], c);
    } else {
      var i, j :| 0 <= i < |a.effects| && 0 <= j < |b.effects| && TwoEffectsConflict(a.effects[i], b.effects[j]);
      EffectsInterfere(a.effects[i], b.effects[j]);
      c :|
        && Concerns(a.effects[i], c) && Concerns(b.effects[j], c)
        && (a.effects[i].verb != Reads || b.effects[j].verb != Reads);
    }
  }

  lemma ConflictSymmetric(a: StmtInfo, b: StmtInfo)
    ensures Conflict(a, b) <==> Conflict(b, a)
  {
    ConflictMeansInterference(a, b);
    ConflictMeansInterference(b, a);
    assert forall c :: InterfereAt(a, b, c) <==> InterfereAt(b, a, c);
  }
}

/** Grouping the statements of a body into contiguous runs without conflicts. */
module ParallelGroups {
  import opened Conflicts

  datatype ParallelGroup = ParallelGroup(indices: seq<nat>, isTrivial: bool, capturedMutations: set<string>)

  /** From `lo` up to and not including `hi`. */
  datatype Run = Run(lo: nat, hi: nat)

  /** A run that may share a parallel group: no early exits, and no two statements that conflict. */
  ghost predicate Free(infos: seq<StmtInfo>, r: Run) {
    && r.lo <= r.hi <= |infos|
    && (forall i :: r.lo <= i < r.hi ==> !infos[i].hasEarlyExit)
    && (forall i, j :: r.lo <= i < j < r.hi ==> !Conflict(infos[i], infos[j]))
  }

  ghost predicate Covered(cut: seq<Run>, i: nat) {
    exists k :: 0 <= k < |cut| && cut[k].lo <= i < cut[k].hi
  }

  /** Free runs that together hold every statement without an early exit, from `from` on. */
  ghost predicate CutFrom(infos: seq<StmtInfo>, from: nat, cut: seq<Run>) {
    && (forall k :: 0 <= k < |cut| ==> Free(infos, cut[k]))
    && forall i: nat :: from <= i < |infos| && !infos[i].hasEarlyExit ==> Covered(cut, i)
  }

  /** How far the group started at `lo` and grown to `hi` goes on. */
  ghost function Extend(infos: seq<StmtInfo>, lo: nat, hi: nat): (end: nat)
    requires lo < hi <= |infos| && Free(infos, Run(lo, hi))
    ensures hi <= end <= |infos| && Free(infos, Run(lo, end))
    decreases |infos| - hi
  {
    if hi < |infos| && !infos[hi].hasEarlyExit && forall i :: lo <= i < hi ==> !Conflict(infos[i], infos[hi])
    then Extend(infos, lo, hi + 1)
    else hi
  }

  /** The runs the walk over the statements makes, one-statement runs included. */
  ghost function Runs(infos: seq<StmtInfo>, from: nat): seq<Run>
    requires from <= |infos|
    decreases |infos| - from
  {
    if from == |infos| then []
    else if infos[from].hasEarlyExit then Runs(infos, from + 1)
    else
      var end := Extend(infos, from, from + 1);
      [Run(from, end)] + Runs(infos, end)
  }

  lemma {:induction false} ExtendIsMaximal(infos: seq<StmtInfo>, lo: nat, hi: nat, r: Run)
    requires lo < hi <= |infos| && Free(infos, Run(lo, hi)) && Free(infos, r) && r.lo <= lo < r.hi
    ensures r.hi <= Extend(infos, lo, hi)
    decreases |infos| - hi
  {
    if hi < r.hi {
      assert !infos[hi].hasEarlyExit;
      ExtendIsMaximal(infos, lo, hi + 1, r);
    }
  }

  lemma RunsStep(infos: seq<StmtInfo>, from: nat)
    requires from < |infos|
    ensures infos[from].hasEarlyExit ==> Runs(infos, from) == Runs(infos, from + 1)
    ensures !infos[from].hasEarlyExit ==>
      && Free(infos, Run(from, from + 1))
      && var end := Extend(infos, from, from + 1);
         && from < end <= |infos| && Free(infos, Run(from, end))
         && Runs(infos, from) == [Run(from, end)] + Runs(infos, end)
  {
    hide Conflict;
  }

  /** Runs in order and without overlap, none of them empty or before `from`. */
  ghost predicate InOrder(cut: seq<Run>, from: nat) {
    && (forall k :: 0 <= k < |cut| ==> from <= cut[k].lo < cut[k].hi)
    && forall k, l :: 0 <= k < l < |cut| ==> cut[k].hi <= cut[l].lo
  }

  /** One more run in front of a cut. */
  lemma CutGrows(infos: seq<StmtInfo>, r: Run, cut: seq<Run>)
    requires r.lo < r.hi && Free(infos, r) && CutFrom(infos, r.hi, cut) && InOrder(cut, r.hi)
    ensures CutFrom(infos, r.lo, [r] + cut) && InOrder([r] + cut, r.lo)
  {
    hide Free;
    forall i: nat | r.lo <= i < |infos| && !infos[i].hasEarlyExit ensures Covered([r] + cut, i) {
      if i < r.hi {
        assert ([r] + cut)[0] == r;
      } else {
        assert Covered(cut, i);
        var k :| 0 <= k < |cut| && cut[k].lo <= i < cut[k].hi;
        assert ([r] + cut)[k + 1] == cut[k];
      }
    }
  }

  /** The runs cut the statements as required, in order and without overlap. */
  lemma {:induction false} RunsAreACut(infos: seq<StmtInfo>, from: nat)
    requires from <= |infos|
    ensures CutFrom(infos, from, Runs(infos, from)) && InOrder(Runs(infos, from), from)
    decreases |infos| - from
  {
    hide Free, Extend, Covered, Conflict;
    if from < |infos| {
      RunsStep(infos, from);
      if infos[from].hasEarlyExit {
        RunsAreACut(infos, from + 1);
      } else {
        var end := Extend(infos, from, from + 1);
        RunsAreACut(infos, end);
        CutGrows(infos, Run(from, end), Runs(infos, end));
      }
    }
  }

  /** No cut into free contiguous runs, overlapping or not, has fewer runs. */
  lemma {:induction false} RunsAreFewest(infos: seq<StmtInfo>, from: nat, cut: seq<Run>)
    requires from <= |infos| && CutFrom(infos, from, cut)
    ensures |Runs(infos, from)| <= |cut|
    decreases |infos| - from
  {
    hide Free, Extend, Conflict;
    if from < |infos| {
      RunsStep(infos, from);
      if infos[from].hasEarlyExit {
        RunsAreFewest(infos, from + 1, cut);
      } else {
        var end := Extend(infos, from, from + 1);
        var rest := OneRunLess(infos, from, end, cut);
        RunsAreFewest(infos, end, rest);
      }
    }
  }

  /** Without the run that covers its first statement, a cut still serves from where the greedy run ends. */
  lemma {:induction false} OneRunLess(infos: seq<StmtInfo>, from: nat, end: nat, cut: seq<Run>) returns (rest: seq<Run>)
    requires from < end <= |infos| && Free(infos, Run(from, from + 1)) && CutFrom(infos, from, cut)
    requires end == Extend(infos, from, from + 1)
    ensures |rest| == |cut| - 1 && CutFrom(infos, end, rest)
  {
    hide Free, Extend, Conflict;
    FirstIsFree(infos, from);
    assert Covered(cut, from);
    var k :| 0 <= k < |cut| && cut[k].lo <= from < cut[k].hi;
    ExtendIsMaximal(infos, from, from + 1, cut[k]);
    rest := cut[..k] + cut[k + 1..];
    assert forall j :: 0 <= j < |rest| ==> rest[j] == cut[if j < k then j else j + 1];
    forall i: nat | end <= i < |infos| && !infos[i].hasEarlyExit ensures Covered(rest, i) {
      assert Covered(cut, i);
      var j :| 0 <= j < |cut| && cut[j].lo <= i < cut[j].hi;
      assert rest[if j < k then j else j - 1] == cut[j];
    }
  }

  lemma FirstIsFree(infos: seq<StmtInfo>, from: nat)
    requires from < |infos| && Free(infos, Run(from, from + 1))
    ensures !infos[from].hasEarlyExit
  {
    hide Conflict;
  }

  // ---------- groups ----------

  function Indices(lo: nat, hi: nat): (s: seq<nat>)
    requires lo <= hi
    ensures |s| == hi - lo && forall k :: 0 <= k < |s| ==> s[k] == lo + k
  {
    seq(hi - lo, k requires 0 <= k => lo + k)
  }

  /** The names in the run's statements that are assigned but not introduced by the same statement. */
  ghost function Captured(infos: seq<StmtInfo>, r: Run): set<string>
    requires r.lo <= r.hi <= |infos|
  {
    set i, x | r.lo <= i < r.hi && x in infos[i].defines && x !in infos[i].letIntroduced :: x
  }

  ghost predicate Pure(infos: seq<StmtInfo>, r: Run)
    requires r.lo <= r.hi <= |infos|
  {
    forall i :: r.lo <= i < r.hi ==> infos[i].effects == [] && !infos[i].callsPolymorphic
  }

  /** At most one statement does more than initialise a constant. */
  ghost predicate AtMostOneWorks(infos: seq<StmtInfo>, r: Run)
    requires r.lo <= r.hi <= |infos|
  {
    forall i, j :: r.lo <= i < r.hi && r.lo <= j < r.hi && !infos[i].isConstantInit && !infos[j].isConstantInit ==>
      i == j
  }

  ghost predicate IsGroup(infos: seq<StmtInfo>, r: Run, g: ParallelGroup) {
    && Free(infos, r)
    && g.indices == Indices(r.lo, r.hi)
    && (g.isTrivial <==> Pure(infos, r) || AtMostOneWorks(infos, r))
    && g.capturedMutations == Captured(infos, r)
  }

  /** Only runs of two statements or more become groups. */
  ghost function Wide(cut: seq<Run>): seq<Run> {
    if cut == [] then []
    else (if cut[0].hi > cut[0].lo + 1 then [cut[0]] else []) + Wide(cut[1..])
  }

  ghost predicate AreGroups(infos: seq<StmtInfo>, runs: seq<Run>, groups: seq<ParallelGroup>) {
    |groups| == |runs| && forall k :: 0 <= k < |runs| ==> IsGroup(infos, runs[k], groups[k])
  }

  /** The matrix holds the conflicts. */
  ghost predicate IsEdgeMatrix(infos: seq<StmtInfo>, hasEdge: array2<bool>)
    reads hasEdge
  {
    && hasEdge.Length0 == |infos| && hasEdge.Length1 == |infos|
    && forall i, j :: 0 <= i < |infos| && 0 <= j < |infos| ==>
         (hasEdge[i, j] <==> i != j && Conflict(infos[i], infos[j]))
  }

  method BuildEdges(infos: seq<StmtInfo>) returns (hasEdge: array2<bool>)
    ensures fresh(hasEdge) && IsEdgeMatrix(infos, hasEdge)
  {
    hide Conflict;
    var n := |infos|;
    hasEdge := new bool[n, n]((_, _) => false);
    for i: nat := 0 to n
      invariant forall k, l :: 0 <= k < n && 0 <= l < n ==>
        (hasEdge[k, l] <==> k < i && l < i && k != l && Conflict(infos[k], infos[l]))
    {
      for j := 0 to i
        invariant forall k, l :: 0 <= k < n && 0 <= l < n ==>
          (hasEdge[k, l] <==>
            && k != l && Conflict(infos[k], infos[l])
            && ((k < i && l < i) || (k == i && l < j) || (l == i && k < j)))
      {
        ConflictSymmetric(infos[j], infos[i]);
        var conflict := StatementsConflict(infos[j], infos[i]);
        if conflict {
          hasEdge[i, j] := true;
          hasEdge[j, i] := true;
        }
      }
    }
  }

  /** The statements of the run that do more than initialise a constant. */
  ghost function Working(infos: seq<StmtInfo>, r: Run): nat
    requires r.lo <= r.hi <= |infos|
    decreases r.hi
  {
    if r.hi == r.lo then 0
    else Working(infos, Run(r.lo, r.hi - 1)) + if infos[r.hi - 1].isConstantInit then 0 else 1
  }

  lemma {:induction false} WorkingCounts(infos: seq<StmtInfo>, r: Run)
    requires r.lo <= r.hi <= |infos|
    ensures Working(infos, r) == 0 <==> forall i :: r.lo <= i < r.hi ==> infos[i].isConstantInit
    ensures Working(infos, r) <= 1 <==> AtMostOneWorks(infos, r)
    decreases r.hi
  {
    if r.lo < r.hi {
      var less := Run(r.lo, r.hi - 1);
      WorkingCounts(infos, less);
      if infos[r.hi - 1].isConstantInit {
        assert AtMostOneWorks(infos, r) <==> AtMostOneWorks(infos, less);
      } else if Working(infos, less) != 0 {
        var i :| r.lo <= i < r.hi - 1 && !infos[i].isConstantInit;
        assert !AtMostOneWorks(infos, r);
      }
    }
  }

  lemma OneMoreStatement(infos: seq<StmtInfo>, lo: nat, hi: nat)
    requires lo <= hi < |infos|
    ensures Pure(infos, Run(lo, hi + 1)) <==>
      Pure(infos, Run(lo, hi)) && infos[hi].effects == [] && !infos[hi].callsPolymorphic
    ensures Working(infos, Run(lo, hi + 1)) == Working(infos, Run(lo, hi)) + if infos[hi].isConstantInit then 0 else 1
    ensures Captured(infos, Run(lo, hi + 1)) ==
      Captured(infos, Run(lo, hi)) + (infos[hi].defines - infos[hi].letIntroduced)
  {
  }

  lemma NoStatement(infos: seq<StmtInfo>, lo: nat)
    requires lo <= |infos|
    ensures Pure(infos, Run(lo, lo)) && Working(infos, Run(lo, lo)) == 0 && Captured(infos, Run(lo, lo)) == {}
  {
  }

  method MakeGroup(infos: seq<StmtInfo>, indices: seq<nat>, ghost r: Run) returns (g: ParallelGroup)
    requires Free(infos, r) && indices == Indices(r.lo, r.hi)
    ensures IsGroup(infos, r, g)
  {
    hide Working, AtMostOneWorks, Conflict;
    assert r.lo <= r.hi <= |infos|;
    hide Free, Pure, Captured;
    NoStatement(infos, r.lo);
    var allPure, working := true, 0;
    var captured: set<string> := {};
    for k := 0 to |indices|
      invariant allPure <==> Pure(infos, Run(r.lo, r.lo + k))
      invariant working == Working(infos, Run(r.lo, r.lo + k))
      invariant captured == Captured(infos, Run(r.lo, r.lo + k))
    {
      OneMoreStatement(infos, r.lo, r.lo + k);
      var info := infos[indices[k]];
      allPure := allPure && info.effects == [] && !info.callsPolymorphic;
      if !info.isConstantInit {
        working := working + 1;
      }
      captured := captured + (info.defines - info.letIntroduced);
    }
    assert Run(r.lo, r.lo + |indices|) == r;
    WorkingCounts(infos, r);
    g := ParallelGroup(indices, allPure || working <= 1, captured);
  }

  predicate IsMarked(taken: seq<bool>, next: nat) {
    forall i :: 0 <= i < |taken| ==> (taken[i] <==> i < next)
  }

  lemma {:induction false} ExtendStep(infos: seq<StmtInfo>, lo: nat, hi: nat, grows: bool)
    requires lo < hi < |infos| && Free(infos, Run(lo, hi))
    requires grows <==> !infos[hi].hasEarlyExit && forall i :: lo <= i < hi ==> !Conflict(infos[i], infos[hi])
    ensures grows ==> Free(infos, Run(lo, hi + 1)) && Extend(infos, lo, hi) == Extend(infos, lo, hi + 1)
    ensures !grows ==> Extend(infos, lo, hi) == hi
  {
  }

  /** Adds the statements after `start` to its group, up to the first that conflicts, leaves early or is taken. */
  method GrowGroup(infos: seq<StmtInfo>, hasEdge: array2<bool>, start: nat, taken: array<bool>)
    returns (indices: seq<nat>)
    requires IsEdgeMatrix(infos, hasEdge) && start < |infos| == taken.Length && Free(infos, Run(start, start + 1))
    requires IsMarked(taken[..], start + 1)
    modifies taken
    ensures
      var end := Extend(infos, start, start + 1);
      indices == Indices(start, end) && IsMarked(taken[..], end)
  {
    hide Conflict, Extend, Free;
    indices := [start];
    var candidate := start + 1;
    while candidate < |infos|
      invariant start < candidate <= |infos| && Free(infos, Run(start, candidate))
      invariant indices == Indices(start, candidate)
      invariant IsMarked(taken[..], candidate)
      invariant Extend(infos, start, start + 1) == Extend(infos, start, candidate)
    {
      if taken[candidate] {
        break;
      }
      if infos[candidate].hasEarlyExit {
        ExtendStep(infos, start, candidate, false);
        return;
      }
      var independent := true;
      for k := 0 to |indices|
        invariant IsMarked(taken[..], candidate)
        invariant independent <==> forall i :: start <= i < start + k ==> !Conflict(infos[i], infos[candidate])
      {
        ConflictSymmetric(infos[candidate], infos[start + k]);
        independent := independent && !hasEdge[candidate, indices[k]];
      }
      ExtendStep(infos, start, candidate, independent);
      if !independent {
        return;
      }
      indices := indices + [candidate];
      taken[candidate] := true;
      candidate := candidate + 1;
    }
    ExtendStops(infos, start);
  }

  lemma {:induction false} ExtendStops(infos: seq<StmtInfo>, lo: nat)
    requires lo < |infos| && Free(infos, Run(lo, |infos|))
    ensures Extend(infos, lo, |infos|) == |infos|
  {
  }

  method FindParallelGroups(infos: seq<StmtInfo>, hasEdge: array2<bool>) returns (groups: seq<ParallelGroup>)
    requires IsEdgeMatrix(infos, hasEdge)
    ensures AreGroups(infos, Wide(Runs(infos, 0)), groups)
  {
    hide Conflict, IsGroup, Extend, Wide, Runs, Free, AreGroups, Indices;
    NothingLeft(infos);
    var n := |infos|;
    groups := [];
    var taken := new bool[n](_ => false);
    ghost var next := 0;
    ghost var done: seq<Run> := [];
    for start := 0 to n
      invariant start <= next <= n && IsMarked(taken[..], next)
      invariant AreGroups(infos, done, groups)
      invariant Wide(Runs(infos, 0)) == done + Wide(Runs(infos, next))
    {
      if taken[start] {
        continue;
      }
      RunsStep(infos, start);
      if infos[start].hasEarlyExit {
        taken[start] := true;
        next := start + 1;
        continue;
      }
      taken[start] := true;
      var indices := GrowGroup(infos, hasEdge, start, taken);
      next := Extend(infos, start, start + 1);
      ghost var r := Run(start, next);
      WideStep(r, Runs(infos, next));
      if |indices| > 1 {
        var g := MakeGroup(infos, indices, r);
        GroupsGrow(infos, done, groups, r, g);
        groups, done := groups + [g], done + [r];
      }
    }
    assert done + [] == done;
  }

  lemma GroupsGrow(infos: seq<StmtInfo>, done: seq<Run>, groups: seq<ParallelGroup>, r: Run, g: ParallelGroup)
    requires AreGroups(infos, done, groups) && IsGroup(infos, r, g)
    ensures AreGroups(infos, done + [r], groups + [g])
  {
    hide IsGroup;
  }

  lemma NothingLeft(infos: seq<StmtInfo>)
    ensures Runs(infos, |infos|) == [] && Wide([]) == [] && AreGroups(infos, [], [])
  {
  }

  lemma {:induction false} WideStep(r: Run, rest: seq<Run>)
    ensures Wide([r] + rest) == (if r.hi > r.lo + 1 then [r] else []) + Wide(rest)
  {
    assert ([r] + rest)[1..] == rest;
  }

  method AnalyzeBody(infos: seq<StmtInfo>) returns (groups: seq<ParallelGroup>)
    ensures AreGroups(infos, Wide(Runs(infos, 0)), groups)
  {
    if |infos| == 0 {
      return [];
    }
    var hasEdge := BuildEdges(infos);
    groups := FindParallelGroups(infos, hasEdge);
  }

  /** No two statements of an emitted group conflict. */
  lemma {:induction false} GroupsAreFree(infos: seq<StmtInfo>, groups: seq<ParallelGroup>, k: nat, i: nat, j: nat)
    requires AreGroups(infos, Wide(Runs(infos, 0)), groups) && k < |groups|
    requires i < j < |groups[k].indices|
    ensures groups[k].indices[j] < |infos| && groups[k].indices[i] < groups[k].indices[j]
    ensures !Conflict(infos[groups[k].indices[i]], infos[groups[k].indices[j]])
  {
    hide Conflict;
    var r := Wide(Runs(infos, 0))[k];
    assert IsGroup(infos, r, groups[k]);
  }
}
