/** Running the statements of a parallel group in any interleaving of their steps. */
module Interleavings {
  import opened Basics
  import opened Conflicts
  import opened ParallelGroups

  type Store = Cell -> int

  /** A statement in execution: its local state holds its progress and temporaries; a step also sees the store. */
  datatype Process<!L> = Process(step: (L, Store) -> (L, Store), finished: L -> bool)

  datatype Config<!L> = Config(locals: seq<L>, store: Store)

  ghost predicate Agree(info: StmtInfo, a: Store, b: Store) {
    forall c :: Touches(info, c) ==> a(c) == b(c)
  }

  /** Steps change only what the footprint lets them change, and depend only on what it lets them touch. */
  ghost predicate Respects<L(!new)>(p: Process<L>, info: StmtInfo) {
    && (forall l, st, c :: !Changes(info, c) ==> p.step(l, st).1(c) == st(c))
    && (forall l, a, b :: Agree(info, a, b) ==>
          p.step(l, a).0 == p.step(l, b).0 && Agree(info, p.step(l, a).1, p.step(l, b).1))
  }

  /** The processes carry out the statements, of which no two conflict. */
  ghost predicate Carry<L(!new)>(ps: seq<Process<L>>, infos: seq<StmtInfo>, cfg: Config<L>) {
    && |ps| == |infos| == |cfg.locals|
    && (forall k :: 0 <= k < |ps| ==> Respects(ps[k], infos[k]))
    && (forall i, j :: 0 <= i < j < |infos| ==> !Conflict(infos[i], infos[j]))
  }

  ghost predicate CanStep<L>(ps: seq<Process<L>>, cfg: Config<L>, k: nat) {
    k < |ps| == |cfg.locals| && !ps[k].finished(cfg.locals[k])
  }

  ghost function Step<L>(ps: seq<Process<L>>, cfg: Config<L>, k: nat): Config<L>
    requires k < |ps| == |cfg.locals|
  {
    var (l, st) := ps[k].step(cfg.locals[k], cfg.store);
    Config(cfg.locals[k := l], st)
  }

  /** Follows a schedule, naming the process that takes each step; a finished process takes none. */
  ghost function Execute<L>(ps: seq<Process<L>>, cfg: Config<L>, schedule: seq<nat>): (r: Option<Config<L>>)
    ensures r.Some? ==> |r.value.locals| == |cfg.locals|
  {
    if schedule == [] then Some(cfg)
    else
      var k := schedule[|schedule| - 1];
      match Execute(ps, cfg, schedule[..|schedule| - 1])
      case None => None
      case Some(mid) => if CanStep(ps, mid, k) then Some(Step(ps, mid, k)) else None
  }

  ghost predicate AllFinished<L>(ps: seq<Process<L>>, cfg: Config<L>) {
    |ps| == |cfg.locals| && forall k :: 0 <= k < |ps| ==> ps[k].finished(cfg.locals[k])
  }

  /** The schedule runs every statement to its end. */
  ghost predicate Completes<L>(ps: seq<Process<L>>, cfg: Config<L>, schedule: seq<nat>, end: Config<L>) {
    Execute(ps, cfg, schedule) == Some(end) && AllFinished(ps, end)
  }

  ghost predicate SameOutcome<L>(a: Config<L>, b: Config<L>) {
    a.locals == b.locals && forall c :: a.store(c) == b.store(c)
  }

  /** Each statement starts after those before it have taken their last step. */
  ghost predicate InSourceOrder(schedule: seq<nat>) {
    forall i, j :: 0 <= i < j < |schedule| ==> schedule[i] <= schedule[j]
  }

  // ---------- each process on its own ----------

  ghost function Solo<L>(p: Process<L>, l: L, st: Store, n: nat): (L, Store) {
    if n == 0 then (l, st)
    else
      var (m, mid) := Solo(p, l, st, n - 1);
      p.step(m, mid)
  }

  ghost function Count(schedule: seq<nat>, k: nat): nat {
    if schedule == [] then 0
    else Count(schedule[..|schedule| - 1], k) + if schedule[|schedule| - 1] == k then 1 else 0
  }

  /** What process `k` sees after some steps of a schedule is what it would see running alone. */
  ghost predicate SeenAlone<L>(
    ps: seq<Process<L>>, infos: seq<StmtInfo>, cfg: Config<L>, n: nat, now: Config<L>, k: nat)
    requires k < |ps| == |infos| == |cfg.locals| == |now.locals|
  {
    var (l, st) := Solo(ps[k], cfg.locals[k], cfg.store, n);
    now.locals[k] == l && Agree(infos[k], now.store, st)
  }

  lemma {:induction false} NoInterference(infos: seq<StmtInfo>, i: nat, j: nat, c: Cell)
    requires i < |infos| && j < |infos| && i != j
    requires forall a, b :: 0 <= a < b < |infos| ==> !Conflict(infos[a], infos[b])
    requires Changes(infos[i], c)
    ensures !Touches(infos[j], c)
  {
    hide Conflict;
    if Touches(infos[j], c) {
      if i < j {
        assert InterfereAt(infos[i], infos[j], c);
        ConflictMeansInterference(infos[i], infos[j]);
      } else {
        assert InterfereAt(infos[j], infos[i], c);
        ConflictMeansInterference(infos[j], infos[i]);
      }
    }
  }

  lemma {:induction false} StepIsSeenAlone<L(!new)>(
    ps: seq<Process<L>>, infos: seq<StmtInfo>, cfg: Config<L>, n: nat, now: Config<L>, i: nat, k: nat)
    requires Carry(ps, infos, cfg) && |now.locals| == |ps| && i < |ps| && k < |ps|
    requires SeenAlone(ps, infos, cfg, n, now, k)
    ensures SeenAlone(ps, infos, cfg, if i == k then n + 1 else n, Step(ps, now, i), k)
  {
    hide Conflict, Touches, Changes;
    var (l, st) := Solo(ps[k], cfg.locals[k], cfg.store, n);
    assert Respects(ps[i], infos[i]) && Respects(ps[k], infos[k]);
    if i != k {
      forall c | Touches(infos[k], c) ensures Step(ps, now, i).store(c) == st(c) {
        if Changes(infos[i], c) {
          NoInterference(infos, i, k, c);
        }
      }
    }
  }

  /** After any schedule each process has gone as far as it would have alone, and the rest of the store is as it was. */
  lemma {:induction false} EachGoesItsOwnWay<L(!new)>(
    ps: seq<Process<L>>, infos: seq<StmtInfo>, cfg: Config<L>, schedule: seq<nat>, end: Config<L>)
    requires Carry(ps, infos, cfg) && Execute(ps, cfg, schedule) == Some(end)
    ensures forall k: nat :: k < |ps| ==> SeenAlone(ps, infos, cfg, Count(schedule, k), end, k)
    ensures forall c :: (forall k :: 0 <= k < |ps| ==> !Changes(infos[k], c)) ==> end.store(c) == cfg.store(c)
    decreases schedule
  {
    hide Conflict, Touches, Changes;
    if schedule != [] {
      var front, i := schedule[..|schedule| - 1], schedule[|schedule| - 1];
      var mid := Execute(ps, cfg, front).value;
      EachGoesItsOwnWay(ps, infos, cfg, front, mid);
      assert Respects(ps[i], infos[i]);
      forall k: nat | k < |ps| ensures SeenAlone(ps, infos, cfg, Count(schedule, k), end, k) {
        StepIsSeenAlone(ps, infos, cfg, Count(front, k), mid, i, k);
      }
    }
  }

  /** A schedule can be followed exactly if it asks no process for more steps than it takes alone. */
  ghost predicate Affordable<L>(ps: seq<Process<L>>, cfg: Config<L>, schedule: seq<nat>)
    requires |ps| == |cfg.locals|
  {
    && (forall i :: 0 <= i < |schedule| ==> schedule[i] < |ps|)
    && forall k: nat, n: nat :: k < |ps| && n < Count(schedule, k) ==>
         !ps[k].finished(Solo(ps[k], cfg.locals[k], cfg.store, n).0)
  }

  lemma {:induction false} ExecutesIfAffordable<L(!new)>(
    ps: seq<Process<L>>, infos: seq<StmtInfo>, cfg: Config<L>, schedule: seq<nat>)
    requires Carry(ps, infos, cfg)
    ensures Execute(ps, cfg, schedule).Some? <==> Affordable(ps, cfg, schedule)
    decreases schedule
  {
    hide Carry, Step;
    CarriedTogether(ps, infos, cfg);
    if schedule != [] {
      var front, i := schedule[..|schedule| - 1], schedule[|schedule| - 1];
      ExecutesIfAffordable(ps, infos, cfg, front);
      if Execute(ps, cfg, front).Some? && i < |ps| {
        var mid := Execute(ps, cfg, front).value;
        CarriedTogether(ps, infos, cfg);
        EachGoesItsOwnWay(ps, infos, cfg, front, mid);
        assert SeenAlone(ps, infos, cfg, Count(front, i), mid, i);
      }
      assert forall k: nat :: Count(front, k) <= Count(schedule, k);
    }
  }

  lemma {:induction false} CarriedTogether<L(!new)>(ps: seq<Process<L>>, infos: seq<StmtInfo>, cfg: Config<L>)
    requires Carry(ps, infos, cfg)
    ensures |ps| == |infos| == |cfg.locals|
  {
  }

  // ---------- comparing schedules ----------

  /** A statement takes the same number of steps in all schedules that complete, and never more. */
  lemma {:induction false} StepsAreFixed<L(!new)>(
    ps: seq<Process<L>>, infos: seq<StmtInfo>, cfg: Config<L>, a: seq<nat>, b: seq<nat>, end: Config<L>, k: nat)
    requires Carry(ps, infos, cfg) && Execute(ps, cfg, a).Some? && Completes(ps, cfg, b, end) && k < |ps|
    ensures Count(a, k) <= Count(b, k)
  {
    hide Carry, Respects, Conflict;
    CarriedTogether(ps, infos, cfg);
    ExecutesIfAffordable(ps, infos, cfg, a);
    EachGoesItsOwnWay(ps, infos, cfg, b, end);
    assert SeenAlone(ps, infos, cfg, Count(b, k), end, k);
  }

  /** All schedules that complete end alike. */
  lemma {:induction false} SchedulesAgree<L(!new)>(
    ps: seq<Process<L>>, infos: seq<StmtInfo>, cfg: Config<L>, a: seq<nat>, endA: Config<L>, b: seq<nat>,
    endB: Config<L>)
    requires Carry(ps, infos, cfg) && Completes(ps, cfg, a, endA) && Completes(ps, cfg, b, endB)
    ensures SameOutcome(endA, endB)
  {
    hide Carry, Respects, Conflict, Touches, Changes, Count;
    CarriedTogether(ps, infos, cfg);
    EachGoesItsOwnWay(ps, infos, cfg, a, endA);
    EachGoesItsOwnWay(ps, infos, cfg, b, endB);
    forall k: nat | k < |ps|
      ensures endA.locals[k] == endB.locals[k] && Agree(infos[k], endA.store, endB.store)
    {
      StepsAreFixed(ps, infos, cfg, a, b, endB, k);
      StepsAreFixed(ps, infos, cfg, b, a, endA, k);
      assert SeenAlone(ps, infos, cfg, Count(a, k), endA, k) && SeenAlone(ps, infos, cfg, Count(b, k), endB, k);
    }
    forall c ensures endA.store(c) == endB.store(c) {
      if k: nat :| k < |ps| && Changes(infos[k], c) {
        ChangesAreTouched(infos[k], c);
      }
    }
  }

  lemma ChangesAreTouched(info: StmtInfo, c: Cell)
    requires Changes(info, c)
    ensures Touches(info, c)
  {
  }

  /** The steps of the first `m` processes, statement by statement. */
  ghost function Sorted(schedule: seq<nat>, m: nat): seq<nat> {
    if m == 0 then [] else Sorted(schedule, m - 1) + seq(Count(schedule, m - 1), _ => m - 1)
  }

  lemma {:induction false} CountAppends(a: seq<nat>, b: seq<nat>, k: nat)
    ensures Count(a + b, k) == Count(a, k) + Count(b, k)
    decreases b
  {
    if b == [] {
      assert a + b == a;
    } else {
      assert (a + b)[..|a + b| - 1] == a + b[..|b| - 1];
      CountAppends(a, b[..|b| - 1], k);
    }
  }

  lemma {:induction false} CountRepeats(x: nat, n: nat, k: nat)
    ensures Count(seq(n, _ => x), k) == if x == k then n else 0
  {
    if n > 0 {
      assert seq(n, _ => x)[..n - 1] == seq(n - 1, _ => x);
      CountRepeats(x, n - 1, k);
    }
  }

  lemma {:induction false} SortedCounts(schedule: seq<nat>, m: nat)
    ensures InSourceOrder(Sorted(schedule, m))
    ensures forall i :: 0 <= i < |Sorted(schedule, m)| ==> Sorted(schedule, m)[i] < m
    ensures forall k: nat :: Count(Sorted(schedule, m), k) == if k < m then Count(schedule, k) else 0
  {
    if m > 0 {
      SortedCounts(schedule, m - 1);
      forall k: nat ensures Count(Sorted(schedule, m), k) == if k < m then Count(schedule, k) else 0 {
        CountAppends(Sorted(schedule, m - 1), seq(Count(schedule, m - 1), _ => m - 1), k);
        CountRepeats(m - 1, Count(schedule, m - 1), k);
      }
    }
  }

  /** When an interleaving completes, so do the statements in source order. */
  lemma {:induction false} SourceOrderCompletes<L(!new)>(
    ps: seq<Process<L>>, infos: seq<StmtInfo>, cfg: Config<L>, schedule: seq<nat>, end: Config<L>)
    returns (ordered: seq<nat>, endOrdered: Config<L>)
    requires Carry(ps, infos, cfg) && Completes(ps, cfg, schedule, end)
    ensures InSourceOrder(ordered) && Completes(ps, cfg, ordered, endOrdered) && SameOutcome(end, endOrdered)
  {
    hide Carry, Respects, Conflict, Touches, Changes, Count;
    CarriedTogether(ps, infos, cfg);
    ordered := Sorted(schedule, |ps|);
    SortedCounts(schedule, |ps|);
    ExecutesIfAffordable(ps, infos, cfg, schedule);
    ExecutesIfAffordable(ps, infos, cfg, ordered);
    endOrdered := Execute(ps, cfg, ordered).value;
    EachGoesItsOwnWay(ps, infos, cfg, schedule, end);
    EachGoesItsOwnWay(ps, infos, cfg, ordered, endOrdered);
    forall k: nat | k < |ps| ensures ps[k].finished(endOrdered.locals[k]) {
      assert SeenAlone(ps, infos, cfg, Count(schedule, k), end, k);
      assert SeenAlone(ps, infos, cfg, Count(ordered, k), endOrdered, k);
    }
    SchedulesAgree(ps, infos, cfg, schedule, end, ordered, endOrdered);
  }

  // ---------- emitted groups ----------

  /** The metadata of the statements of a group. */
  ghost function Members(infos: seq<StmtInfo>, g: ParallelGroup): seq<StmtInfo>
    requires forall i :: 0 <= i < |g.indices| ==> g.indices[i] < |infos|
  {
    seq(|g.indices|, i requires 0 <= i < |g.indices| => infos[g.indices[i]])
  }

  /**
    Any interleaving of an emitted group that runs all statements to their ends has the outcome of source order, which
    then completes as well; and no interleaving takes more steps than source order does, so all of them end when it
    does.
   */
  lemma {:induction false} InterleavingIsSafe<L(!new)>(
    infos: seq<StmtInfo>, groups: seq<ParallelGroup>, g: nat, ps: seq<Process<L>>, cfg: Config<L>, schedule: seq<nat>)
    requires AreGroups(infos, Wide(Runs(infos, 0)), groups) && g < |groups|
    requires |ps| == |groups[g].indices| == |cfg.locals|
    requires forall k :: 0 <= k < |ps| ==>
      groups[g].indices[k] < |infos| && Respects(ps[k], infos[groups[g].indices[k]])
    ensures forall end :: Completes(ps, cfg, schedule, end) ==>
      exists ordered, endOrdered ::
        InSourceOrder(ordered) && Completes(ps, cfg, ordered, endOrdered) && SameOutcome(end, endOrdered)
    ensures forall ordered, end, k: nat ::
      InSourceOrder(ordered) && Completes(ps, cfg, ordered, end) && Execute(ps, cfg, schedule).Some? && k < |ps|
      ==> Count(schedule, k) <= Count(ordered, k)
  {
    hide Conflict, Respects, Completes, AreGroups, Runs, Wide;
    var members := Members(infos, groups[g]);
    forall i, j | 0 <= i < j < |members| ensures !Conflict(members[i], members[j]) {
      GroupsAreFree(infos, groups, g, i, j);
    }
    assert Carry(ps, members, cfg);
    forall end | Completes(ps, cfg, schedule, end)
      ensures exists ordered, endOrdered ::
        InSourceOrder(ordered) && Completes(ps, cfg, ordered, endOrdered) && SameOutcome(end, endOrdered)
    {
      var ordered, endOrdered := SourceOrderCompletes(ps, members, cfg, schedule, end);
    }
    forall ordered, end, k: nat |
      InSourceOrder(ordered) && Completes(ps, cfg, ordered, end) && Execute(ps, cfg, schedule).Some? && k < |ps|
      ensures Count(schedule, k) <= Count(ordered, k)
    {
      StepsAreFixed(ps, members, cfg, schedule, ordered, end, k);
    }
  }

  // ---------- what an emitted group says of itself ----------

  /** The group is one of those emitted. */
  ghost predicate Emitted(infos: seq<StmtInfo>, groups: seq<ParallelGroup>, g: nat) {
    && AreGroups(infos, Wide(Runs(infos, 0)), groups) && g < |groups|
    && forall i :: 0 <= i < |groups[g].indices| ==> groups[g].indices[i] < |infos|
  }

  /** A captured name is assigned and not introduced by one member, and no other member reads or assigns it. */
  lemma CapturedExactly(infos: seq<StmtInfo>, groups: seq<ParallelGroup>, g: nat, x: string)
    requires Emitted(infos, groups, g)
    ensures var members := Members(infos, groups[g]);
      x in groups[g].capturedMutations <==>
      exists k :: 0 <= k < |members| && x in members[k].defines && x !in members[k].letIntroduced &&
        forall l :: 0 <= l < |members| && l != k ==> x !in members[l].defines && x !in members[l].read
  {
    hide Conflict, Runs, Wide;
    var r, members := Wide(Runs(infos, 0))[g], Members(infos, groups[g]);
    assert IsGroup(infos, r, groups[g]);
    if i :| r.lo <= i < r.hi && x in infos[i].defines && x !in infos[i].letIntroduced {
      var k := i - r.lo;
      assert members[k] == infos[i];
      forall l | 0 <= l < |members| && l != k ensures x !in members[l].defines && x !in members[l].read {
        MembersAreFree(infos, groups, g, k, l);
        FreeIsApart(members[k], members[l], x);
      }
    }
    if k :| 0 <= k < |members| && x in members[k].defines && x !in members[k].letIntroduced {
      assert members[k] == infos[r.lo + k];
    }
  }

  lemma MembersAreFree(infos: seq<StmtInfo>, groups: seq<ParallelGroup>, g: nat, k: nat, l: nat)
    requires Emitted(infos, groups, g) && k < |groups[g].indices| && l < |groups[g].indices| && k != l
    ensures !Conflict(Members(infos, groups[g])[k], Members(infos, groups[g])[l])
  {
    hide Conflict, AreGroups, Runs, Wide;
    var members := Members(infos, groups[g]);
    if k < l {
      GroupsAreFree(infos, groups, g, k, l);
    } else {
      GroupsAreFree(infos, groups, g, l, k);
      ConflictSymmetric(members[k], members[l]);
    }
  }

  lemma FreeIsApart(a: StmtInfo, b: StmtInfo, x: string)
    requires !Conflict(a, b) && x in a.defines
    ensures x !in b.defines && x !in b.read
  {
  }

  /** Running an emitted group changes no variable but captured ones and those its members introduce. */
  lemma OnlyCapturedChanges<L(!new)>(
    infos: seq<StmtInfo>, groups: seq<ParallelGroup>, g: nat, ps: seq<Process<L>>, cfg: Config<L>, schedule: seq<nat>,
    end: Config<L>, x: string)
    requires Emitted(infos, groups, g) && |ps| == |groups[g].indices| == |cfg.locals|
    requires forall k :: 0 <= k < |ps| ==> Respects(ps[k], infos[groups[g].indices[k]])
    requires Execute(ps, cfg, schedule) == Some(end) && end.store(Variable(x)) != cfg.store(Variable(x))
    ensures
      || x in groups[g].capturedMutations
      || exists k :: 0 <= k < |ps| && x in infos[groups[g].indices[k]].letIntroduced
  {
    hide Conflict, Respects, AreGroups, Runs, Wide;
    var members := Members(infos, groups[g]);
    forall i, j | 0 <= i < j < |members| ensures !Conflict(members[i], members[j]) {
      GroupsAreFree(infos, groups, g, i, j);
    }
    assert Carry(ps, members, cfg);
    EachGoesItsOwnWay(ps, members, cfg, schedule, end);
    var k :| 0 <= k < |ps| && Changes(members[k], Variable(x));
    if x !in members[k].letIntroduced {
      forall l | 0 <= l < |members| && l != k ensures x !in members[l].defines && x !in members[l].read {
        MembersAreFree(infos, groups, g, k, l);
        FreeIsApart(members[k], members[l], x);
      }
      CapturedExactly(infos, groups, g, x);
    }
  }

  ghost predicate OthersInitialise(members: seq<StmtInfo>, k: nat) {
    forall l :: 0 <= l < |members| && l != k ==> members[l].isConstantInit
  }

  /** A group is trivial if no member touches a resource, or all but one of them only initialise constants. */
  lemma TrivialExactly(infos: seq<StmtInfo>, groups: seq<ParallelGroup>, g: nat)
    requires Emitted(infos, groups, g)
    ensures var members := Members(infos, groups[g]);
      groups[g].isTrivial <==>
      || (forall k, c :: 0 <= k < |members| && Touches(members[k], c) ==> c.Variable?)
      || exists k: nat :: k < |members| && OthersInitialise(members, k)
  {
    hide Conflict, Runs, Touches, OthersInitialise, Pure, AtMostOneWorks;
    var r, members := Wide(Runs(infos, 0))[g], Members(infos, groups[g]);
    assert IsGroup(infos, r, groups[g]);
    assert |members| == r.hi - r.lo && forall k :: 0 <= k < |members| ==> members[k] == infos[r.lo + k];
    WideHasTwo(Runs(infos, 0), g);
    PureTouchesNothing(infos, r, members);
    OneWorks(infos, r, members);
  }

  lemma PureTouchesNothing(infos: seq<StmtInfo>, r: Run, members: seq<StmtInfo>)
    requires r.lo <= r.hi <= |infos| && members == infos[r.lo..r.hi]
    ensures Pure(infos, r) <==> forall k, c :: 0 <= k < |members| && Touches(members[k], c) ==> c.Variable?
  {
    hide Touches;
    forall k | 0 <= k < |members|
      ensures (forall c :: Touches(members[k], c) ==> c.Variable?) <==>
        infos[r.lo + k].effects == [] && !infos[r.lo + k].callsPolymorphic
    {
      TouchesNoResource(members[k]);
    }
    assert forall i :: r.lo <= i < r.hi ==> infos[i] == members[i - r.lo];
  }

  lemma OneWorks(infos: seq<StmtInfo>, r: Run, members: seq<StmtInfo>)
    requires r.lo < r.hi <= |infos| && members == infos[r.lo..r.hi]
    ensures AtMostOneWorks(infos, r) <==> exists k: nat :: k < |members| && OthersInitialise(members, k)
  {
    if AtMostOneWorks(infos, r) {
      var k: nat := 0;
      if i :| r.lo <= i < r.hi && !infos[i].isConstantInit {
        k := i - r.lo;
      }
      assert OthersInitialise(members, k);
    }
    if k: nat :| k < |members| && OthersInitialise(members, k) {
      forall i | r.lo <= i < r.hi && !infos[i].isConstantInit ensures i == r.lo + k {
        assert infos[i] == members[i - r.lo];
      }
    }
  }

  lemma TouchesNoResource(info: StmtInfo)
    ensures (forall c :: Touches(info, c) ==> c.Variable?) <==> info.effects == [] && !info.callsPolymorphic
  {
    if info.effects != [] {
      var c := Resource(info.effects[0].resource, CategoryOf(info.effects[0].verb));
      assert Concerns(info.effects[0], c) && Touches(info, c);
    } else if info.callsPolymorphic {
      assert Touches(info, Resource("", Contents));
    }
  }

  lemma {:induction false} WideHasTwo(cut: seq<Run>, g: nat)
    requires g < |Wide(cut)|
    ensures Wide(cut)[g].lo + 1 < Wide(cut)[g].hi
  {
    if cut[0].hi > cut[0].lo + 1 {
      if g > 0 {
        WideHasTwo(cut[1..], g - 1);
      }
    } else {
      WideHasTwo(cut[1..], g);
    }
  }
}
