/** Exhaustiveness, reachability and irrefutability of match arms. */
module Exhaustive {
  import opened Basics
  import opened Patterns
  import opened Matrices
  import opened TypeParts
  import opened Usefulness
  import opened Termination
  import opened Misleading
  import opened Lowering

  /** Guards and bodies stand for themselves: a guard is named by a number, a body by another. */
  datatype Arm = Arm(pattern: Pattern, guard: Option<nat>, body: nat)

  /** `NoVerdict` stands for a recursion that leaves no room on the stack. */
  datatype Verdict = Exhaustive | NonExhaustive(missing: Pat) | Skipped | NoVerdict

  predicate IsHandledScrutinee(ty: Type) {
    !ty.SkippedType? && !ty.UnitType?
  }

  /** A type whose values patterns can tell apart is not skipped; nor is one without values. */
  lemma SplitIsHandled(ty: Type, env: Env)
    ensures Splits([ty], env) || !HasValue(ty, env) ==> IsHandledScrutinee(ty)
  {
    if Splits([ty], env) {
      var n: nat :| SplitsIn(n, [ty], env);
      if !SplitsIn(n - 1, [ty][1..], env) {
        var c :| CtorOf(c, ty, env);
      }
    }
    if !IsHandledScrutinee(ty) {
      assert HasType(Opaque(0), ty, env);
    }
  }

  ghost predicate ArmsOk(arms: seq<Arm>, ty: Type, env: Env) {
    forall i :: 0 <= i < |arms| ==> WellTyped(arms[i].pattern, ty, env)
  }

  /** The covering matrix: the lowered unguarded arms. */
  function CoveringRows(arms: seq<Arm>, ty: Type, env: Env): Matrix {
    if arms == [] then []
    else
      CoveringRows(arms[..|arms| - 1], ty, env) +
      if arms[|arms| - 1].guard.None? then [[Lower(arms[|arms| - 1].pattern, ty, env)]] else []
  }

  /** Some unguarded arm accepts the value. */
  ghost predicate Applies(arms: seq<Arm>, v: Value, ty: Type, env: Env) {
    exists i :: 0 <= i < |arms| && arms[i].guard.None? && Accepts(arms[i].pattern, v, ty, env)
  }

  /** One more arm. */
  lemma AppliesStep(arms: seq<Arm>, k: nat, v: Value, ty: Type, env: Env)
    requires k < |arms|
    ensures Applies(arms[..k + 1], v, ty, env) <==>
      Applies(arms[..k], v, ty, env) || (arms[k].guard.None? && Accepts(arms[k].pattern, v, ty, env))
  {
    hide Accepts;
    var front := arms[..k];
    assert arms[..k + 1] == front + [arms[k]];
    if i :| 0 <= i < k && front[i].guard.None? && Accepts(front[i].pattern, v, ty, env) {
      assert arms[..k + 1][i] == front[i];
    }
    assert arms[..k + 1][k] == arms[k];
  }

  lemma {:induction false} RowsMeanApplies(arms: seq<Arm>, v: Value, ty: Type, env: Env)
    requires ArmsOk(arms, ty, env) && HasType(v, ty, env)
    ensures Covers(CoveringRows(arms, ty, env), [v]) <==> Applies(arms, v, ty, env)
    ensures RowsOk(CoveringRows(arms, ty, env), [ty], env)
  {
    hide WellTyped, HasType, Accepts, Matches, MatchesAll, PatOk, Lower, Covers, Applies;
    CoveringRowsOk(arms, ty, env);
    if arms == [] {
      NothingCovers(v, ty, env);
    } else {
      var front, last := arms[..|arms| - 1], arms[|arms| - 1];
      RowsMeanApplies(front, v, ty, env);
      var row := [Lower(last.pattern, ty, env)];
      CoversConcat(CoveringRows(front, ty, env), if last.guard.None? then [row] else [], [v]);
      LowerMatches(last.pattern, v, ty, env);
      CoversOne(row, [v]);
      MatchesOne(Lower(last.pattern, ty, env), v);
      NothingCovers(v, ty, env);
      assert arms[..|arms|] == arms;
      AppliesStep(arms, |arms| - 1, v, ty, env);
    }
  }

  lemma NothingCovers(v: Value, ty: Type, env: Env)
    ensures !Covers([], [v]) && !Applies([], v, ty, env)
  {
  }

  lemma MatchesOne(p: Pat, v: Value)
    ensures MatchesAll([p], [v]) <==> Matches(p, v)
  {
    assert MatchesAll([p], [v]) <==> Matches([p][0], [v][0]);
  }

  lemma {:induction false} CoveringRowsOk(arms: seq<Arm>, ty: Type, env: Env)
    requires ArmsOk(arms, ty, env)
    ensures RowsOk(CoveringRows(arms, ty, env), [ty], env)
  {
    hide WellTyped, PatOk, Lower;
    if arms != [] {
      CoveringRowsOk(arms[..|arms| - 1], ty, env);
      LowerIsOk(arms[|arms| - 1].pattern, ty, env);
    }
  }

  // ---------- what the usefulness of one column says about arms ----------

  /** The answer for one pattern against the unguarded arms. */
  function PatternAnswer(depth: nat, arms: seq<Arm>, p: Pattern, ty: Type, env: Env): Answer {
    Useful(depth, true, CoveringRows(arms, ty, env), [Lower(p, ty, env)], [ty], env)
  }

  /** A covered pattern: every value it accepts has an unguarded arm. */
  lemma CoveredPattern(depth: nat, arms: seq<Arm>, p: Pattern, ty: Type, env: Env, v: Value)
    requires ArmsOk(arms, ty, env) && WellTyped(p, ty, env) && PatternAnswer(depth, arms, p, ty, env).Covered?
    requires HasType(v, ty, env) && Accepts(p, v, ty, env)
    ensures Applies(arms, v, ty, env)
  {
    hide WellTyped, HasType, Accepts, PatOk, Lower, Covers, Useful, Applies, Matches, RowsOk, ArmsOk;
    var q := [Lower(p, ty, env)];
    LowerMatches(p, v, ty, env);
    LowerIsOk(p, ty, env);
    CoveringRowsOk(arms, ty, env);
    CoveredMeans(depth, true, CoveringRows(arms, ty, env), q, [ty], env, [v]);
    assert HaveTypes([v], [ty], env) && MatchesAll(q, [v]);
    RowsMeanApplies(arms, v, ty, env);
  }

  /** An uncovered pattern: some value it accepts has no unguarded arm. */
  lemma UncoveredPattern(depth: nat, arms: seq<Arm>, p: Pattern, ty: Type, env: Env) returns (v: Value)
    requires !Misleads([ty], env) && ArmsOk(arms, ty, env) && WellTyped(p, ty, env)
    requires PatternAnswer(depth, arms, p, ty, env).Uncovered?
    ensures HasType(v, ty, env) && Accepts(p, v, ty, env) && !Applies(arms, v, ty, env)
    ensures var w := PatternAnswer(depth, arms, p, ty, env).missing;
      |w| == 1 && Matches(w[0], v)
  {
    hide WellTyped, HasType, Accepts, PatOk, Lower, Misleads, Covers, Useful, Applies, Matches, RowsOk, ArmsOk;
    var q := [Lower(p, ty, env)];
    LowerIsOk(p, ty, env);
    CoveringRowsOk(arms, ty, env);
    var vs := UncoveredMeans(depth, true, CoveringRows(arms, ty, env), q, [ty], env);
    v := vs[0];
    assert vs == [v] && q[0] == Lower(p, ty, env);
    assert HasType(vs[0], [ty][0], env) && Matches(q[0], vs[0]);
    LowerMatches(p, v, ty, env);
    RowsMeanApplies(arms, v, ty, env);
  }

  /** Over a grounded type there is an answer, given room enough. */
  lemma GroundedIsAnswered(narrow: bool, arms: seq<Arm>, p: Pattern, ty: Type, env: Env) returns (depth: nat)
    requires Grounded(narrow, ty, env) && WellTyped(p, ty, env)
    ensures !PatternAnswer(depth, arms, p, ty, env).Unfinished?
  {
    hide WellTyped, PatOk, Lower, Grounded, Useful;
    var rows, q := CoveringRows(arms, ty, env), [Lower(p, ty, env)];
    LowerIsOk(p, ty, env);
    GroundedEnds(narrow, true, rows, q, [ty], env);
    depth :| !Useful(depth, true, rows, q, [ty], env).Unfinished?;
  }

  // ---------- exhaustiveness ----------

  ghost predicate AlwaysApplies(arms: seq<Arm>, ty: Type, env: Env) {
    forall v :: HasType(v, ty, env) ==> Applies(arms, v, ty, env)
  }

  /** Whether the matrix of the unguarded arms covers a wildcard. */
  function MatchAnswer(depth: nat, arms: seq<Arm>, ty: Type, env: Env): Answer {
    PatternAnswer(depth, arms, WildcardPattern, ty, env)
  }

  /**
    A match reported exhaustive always has an unguarded arm that applies; the converse needs a type that does not
    mislead.
   */
  lemma ExhaustiveMeans(depth: nat, arms: seq<Arm>, ty: Type, env: Env)
    requires ArmsOk(arms, ty, env)
    ensures MatchAnswer(depth, arms, ty, env).Covered? ==> AlwaysApplies(arms, ty, env)
    ensures !Misleads([ty], env) && MatchAnswer(depth, arms, ty, env).Uncovered? ==> !AlwaysApplies(arms, ty, env)
  {
    hide HasType, Misleads, Applies, ArmsOk, PatternAnswer;
    if MatchAnswer(depth, arms, ty, env).Covered? {
      forall v | HasType(v, ty, env) ensures Applies(arms, v, ty, env) {
        CoveredPattern(depth, arms, WildcardPattern, ty, env, v);
      }
    } else if MatchAnswer(depth, arms, ty, env).Uncovered? && !Misleads([ty], env) {
      var v := UncoveredPattern(depth, arms, WildcardPattern, ty, env);
    }
  }

  /**
    The constructor that a missing value is reported for: those enumerated before it have unguarded arms for all their
    values.
   */
  lemma WitnessIsFirst(depth: nat, arms: seq<Arm>, ty: Type, env: Env, all: seq<Ctor>) returns (k: nat)
    requires ArmsOk(arms, ty, env) && EnumerateCtors(ty, env) == Some(all)
    requires MatchAnswer(depth, arms, ty, env).Uncovered?
    ensures var w := MatchAnswer(depth, arms, ty, env).missing;
      k < |all| && w != [] && w[0].Con? && w[0].ctor == all[k]
    ensures forall j, v :: 0 <= j < k && HasType(v, ty, env) && v.Built? && v.ctor == all[j] ==>
      Applies(arms, v, ty, env)
  {
    hide HasType, Applies, ArmsOk, UsefulCtors, EnumerateCtors, CoveringRows, RowsOk, Escapes, AllWild;
    var rows, rest: seq<Pat>, tys := CoveringRows(arms, ty, env), [], [ty];
    LowerWildcard(ty, env);
    CoveringRowsOk(arms, ty, env);
    assert tys[1..] == [] && [Wildcard] + rest == [Wildcard];
    WildcardOpens(depth, rows, ty, env, all);
    k := FirstUncovered(depth - 1, true, all, rows, rest, tys, env);
    forall j, v | 0 <= j < k && HasType(v, ty, env) && v.Built? && v.ctor == all[j] ensures Applies(arms, v, ty, env) {
      RowsMeanApplies(arms, v, ty, env);
      assert [v] + [] == [v];
      assert !Escapes(rows, [Wildcard] + rest, tys, env, [v] + []);
      CoveredOne(rows, ty, env, v);
    }
  }

  /** A wildcard that is left uncovered at a closed type was opened. */
  lemma WildcardOpens(depth: nat, rows: Matrix, ty: Type, env: Env, all: seq<Ctor>)
    requires EnumerateCtors(ty, env) == Some(all) && Useful(depth, true, rows, [Wildcard], [ty], env).Uncovered?
    ensures depth > 0
    ensures Useful(depth, true, rows, [Wildcard], [ty], env) ==
      UsefulCtors(depth - 1, true, all, rows, [], ty, [], env)
  {
    hide UsefulCtors, EnumerateCtors;
    assert [Wildcard][1..] == [] && [ty][1..] == [];
  }

  lemma CoveredOne(rows: Matrix, ty: Type, env: Env, v: Value)
    requires HasType(v, ty, env) && !Escapes(rows, [Wildcard], [ty], env, [v])
    ensures Covers(rows, [v])
  {
    hide HasType, Covers;
  }

  /** Constructors are enumerated as they are declared. */
  lemma EnumeratedAsDeclared(ty: Type, env: Env)
    ensures ty == BoolType ==> EnumerateCtors(ty, env) == Some([BoolCtor(true), BoolCtor(false)])
    ensures ty.Named? && ty.name in env.enums ==>
      && EnumerateCtors(ty, env).Some? && |EnumerateCtors(ty, env).value| == |env.enums[ty.name]|
      && forall i :: 0 <= i < |env.enums[ty.name]| ==>
           EnumerateCtors(ty, env).value[i] == VariantCtor(env.enums[ty.name][i].0)
  {
  }

  lemma GroundedNeverMisleads(ty: Type, env: Env)
    requires Grounded(true, ty, env)
    ensures !Misleads([ty], env)
  {
    hide Grounded, Inhabited, MisleadsIn;
    GroundedIsInhabited(ty, env);
    assert AllInhabited([ty], env);
    forall n: nat ensures !MisleadsIn(n, [ty], env) {
      InhabitedNeverMislead(n, [ty], env);
    }
  }

  /** A type that misleads: one pattern that accepts every value, and a check that finds one missing. */
  lemma MisleadingPattern(ty: Type, env: Env) returns (p: Pattern, depth: nat)
    requires Misleads([ty], env) && FieldsDistinct(env)
    ensures WellTyped(p, ty, env) && forall v :: HasType(v, ty, env) ==> Accepts(p, v, ty, env)
    ensures MatchAnswer(depth, [Arm(p, None, 0)], ty, env).Uncovered?
  {
    hide WellTyped, HasType, Accepts, PatOk, Lower, Useful, Matches, FieldsDistinct, Misleads;
    var pat;
    pat, depth := MisleadingPat(ty, env);
    p := LowerIsOnto(pat, ty, env);
    OneArm(p, ty, env);
    LowerWildcard(ty, env);
    forall v | HasType(v, ty, env) ensures Accepts(p, v, ty, env) {
      LowerMatches(p, v, ty, env);
    }
  }

  lemma LowerWildcard(ty: Type, env: Env)
    ensures Lower(WildcardPattern, ty, env) == Wildcard
  {
  }

  lemma OneArm(p: Pattern, ty: Type, env: Env)
    ensures CoveringRows([Arm(p, None, 0)], ty, env) == [[Lower(p, ty, env)]]
    ensures WellTyped(p, ty, env) ==> ArmsOk([Arm(p, None, 0)], ty, env)
    ensures forall v :: Applies([Arm(p, None, 0)], v, ty, env) <==> Accepts(p, v, ty, env)
  {
    hide WellTyped, Accepts, Lower;
    var arms := [Arm(p, None, 0)];
    assert arms[..0] == [] && arms[0].pattern == p;
    assert CoveringRows(arms[..0], ty, env) == [];
  }

  /** The verdict that a value is missing is right for every match over a type exactly if the type does not mislead. */
  lemma VerdictIsRightExactly(ty: Type, env: Env)
    requires FieldsDistinct(env)
    ensures !Misleads([ty], env) <==>
      forall depth: nat, arms ::
        ArmsOk(arms, ty, env) && MatchAnswer(depth, arms, ty, env).Uncovered? ==> !AlwaysApplies(arms, ty, env)
  {
    hide MatchAnswer, AlwaysApplies, ArmsOk, Misleads;
    if Misleads([ty], env) {
      var depth, arms := FalseVerdict(ty, env);
    } else {
      forall depth: nat, arms | ArmsOk(arms, ty, env) && MatchAnswer(depth, arms, ty, env).Uncovered?
        ensures !AlwaysApplies(arms, ty, env)
      {
        ExhaustiveMeans(depth, arms, ty, env);
      }
    }
  }

  lemma FalseVerdict(ty: Type, env: Env) returns (depth: nat, arms: seq<Arm>)
    requires Misleads([ty], env) && FieldsDistinct(env)
    ensures ArmsOk(arms, ty, env) && MatchAnswer(depth, arms, ty, env).Uncovered? && AlwaysApplies(arms, ty, env)
  {
    hide MatchAnswer, Misleads, HasType, Accepts, Applies, ArmsOk;
    var p;
    p, depth := MisleadingPattern(ty, env);
    arms := [Arm(p, None, 0)];
    OneArm(p, ty, env);
  }

  /** For a pair with a boolean behind: right for every match exactly if every type met in front has a value. */
  lemma PairVerdictIsRightExactly(ty: Type, env: Env)
    requires FieldsDistinct(env)
    ensures var pair := TupleType([ty, BoolType]);
      Inhabited(ty, env) <==>
      forall depth: nat, arms ::
        ArmsOk(arms, pair, env) && MatchAnswer(depth, arms, pair, env).Uncovered? ==> !AlwaysApplies(arms, pair, env)
  {
    hide MatchAnswer, AlwaysApplies, ArmsOk, Misleads, Inhabited;
    PairMisleads(ty, env);
    VerdictIsRightExactly(TupleType([ty, BoolType]), env);
  }

  lemma VoidPairOpens(env: Env)
    ensures var row := [Wildcard, Con(BoolCtor(true), [])];
      UsefulCtors(
        3, true, [TupleCtor], [[Con(TupleCtor, row)]], [], TupleType([NeverType, BoolType]), [], env).Uncovered?
  {
    hide Useful;
    var row: seq<Pat>, none: seq<Pat> := [Wildcard, Con(BoolCtor(true), [])], [];
    SpecializeOne(Con(TupleCtor, row), none, TupleCtor, 2);
    assert [Con(TupleCtor, row)] + none == [Con(TupleCtor, row)] && row + none == row;
    VoidColumnUncovered(env);
    assert Wildcards(2) + none == [Wildcard, Wildcard];
    assert [NeverType, BoolType] + [] == [NeverType, BoolType];
  }

  lemma VoidPairUncovered(env: Env)
    ensures var row := [Wildcard, Con(BoolCtor(true), [])];
      Useful(4, true, [[Con(TupleCtor, row)]], [Wildcard], [TupleType([NeverType, BoolType])], env).Uncovered?
  {
    hide UsefulCtors;
    var none: seq<Pat> := [];
    VoidPairOpens(env);
    assert [Wildcard][1..] == none && [TupleType([NeverType, BoolType])][1..] == [];
  }

  lemma VoidPairHasNoValue(v: Value, env: Env)
    ensures !HasType(v, TupleType([NeverType, BoolType]), env)
  {
    if v.Built? && |v.args| == 2 {
      assert !HasType(v.args[0], NeverType, env);
    }
  }

  /**
    A pair of the never type and a boolean has no values, and a match on it with the one arm `(_, true)` is refused.
   */
  lemma VoidElementMisleads(env: Env)
    ensures
      var pair := TupleType([NeverType, BoolType]);
      var arms := [Arm(TuplePattern([WildcardPattern, BoolPattern(true)]), None, 0)];
      && ArmsOk(arms, pair, env) && MatchAnswer(4, arms, pair, env).Uncovered? && AlwaysApplies(arms, pair, env)
  {
    hide Useful, HasType;
    var p, pair := TuplePattern([WildcardPattern, BoolPattern(true)]), TupleType([NeverType, BoolType]);
    OneArm(p, pair, env);
    assert LowerAll([WildcardPattern, BoolPattern(true)], pair.elems, env) == [Wildcard, Con(BoolCtor(true), [])];
    VoidPairUncovered(env);
    forall v ensures !HasType(v, pair, env) {
      VoidPairHasNoValue(v, env);
    }
  }

  /**
    Over a type whose chains of first constructors end, or whose chains of all constructors end and that does not
    mislead, the check ends, and it says exhaustive exactly if every value has an unguarded arm.
   */
  lemma GroundedIsDecided(narrow: bool, arms: seq<Arm>, ty: Type, env: Env) returns (depth: nat)
    requires Grounded(narrow, ty, env) && (narrow || !Misleads([ty], env)) && ArmsOk(arms, ty, env)
    ensures MatchAnswer(depth, arms, ty, env) == Covered <==> AlwaysApplies(arms, ty, env)
    ensures MatchAnswer(depth, arms, ty, env).Uncovered? <==> !AlwaysApplies(arms, ty, env)
  {
    hide Grounded, Misleads, AlwaysApplies, PatternAnswer, ArmsOk;
    depth := GroundedIsAnswered(narrow, arms, WildcardPattern, ty, env);
    if narrow {
      GroundedNeverMisleads(ty, env);
    }
    ExhaustiveMeans(depth, arms, ty, env);
  }

  /** Lowers the unguarded arms, in order. */
  method BuildMatrix(arms: seq<Arm>, ty: Type, env: Env) returns (rows: Matrix)
    ensures rows == CoveringRows(arms, ty, env)
  {
    rows := [];
    for i := 0 to |arms|
      invariant rows == CoveringRows(arms[..i], ty, env)
    {
      assert arms[..i + 1][..i] == arms[..i];
      if arms[i].guard.Some? {
        continue;
      }
      rows := rows + [[Lower(arms[i].pattern, ty, env)]];
    }
    assert arms[..|arms|] == arms;
  }

  method CheckMatchExhaustive(depth: nat, ty: Type, arms: seq<Arm>, env: Env) returns (r: Verdict)
    requires ArmsOk(arms, ty, env)
    ensures r.Skipped? <==> ty.SkippedType? || ty.UnitType?
    ensures r.NoVerdict? <==> !r.Skipped? && MatchAnswer(depth, arms, ty, env).Unfinished?
    ensures r.Exhaustive? ==> AlwaysApplies(arms, ty, env)
    ensures r.NonExhaustive? && !Misleads([ty], env) ==>
      exists v :: HasType(v, ty, env) && Matches(r.missing, v) && !Applies(arms, v, ty, env)
    ensures r.NonExhaustive? ==> MatchAnswer(depth, arms, ty, env) == Uncovered([r.missing])
  {
    hide HasType, Misleads, Applies, ArmsOk, Useful, Matches;
    if !IsHandledScrutinee(ty) {
      return Skipped;
    }
    var rows := BuildMatrix(arms, ty, env);
    var a := Useful(depth, true, rows, [Wildcard], [ty], env);
    ExhaustiveMeans(depth, arms, ty, env);
    assert a == MatchAnswer(depth, arms, ty, env);
    match a
    case Unfinished =>
      return NoVerdict;
    case Covered =>
      return Exhaustive;
    case Uncovered(missing) =>
      ghost var honest := !Misleads([ty], env);
      if honest {
        var v := UncoveredPattern(depth, arms, WildcardPattern, ty, env);
      }
      MissingLength(depth, true, rows, [Wildcard], [ty], env);
      return NonExhaustive(if missing == [] then Wildcard else missing[0]);
  }

  // ---------- irrefutability ----------

  datatype Refutability = Irrefutable | Refutable | NotHandled | NotDecided

  method IsPatternIrrefutable(depth: nat, p: Pattern, ty: Type, env: Env) returns (r: Refutability)
    requires WellTyped(p, ty, env)
    ensures r.NotHandled? <==> ty.SkippedType? || ty.UnitType?
    ensures r.NotDecided? <==> !r.NotHandled? && MatchAnswer(depth, [Arm(p, None, 0)], ty, env).Unfinished?
    ensures r.Irrefutable? ==> forall v :: HasType(v, ty, env) ==> Accepts(p, v, ty, env)
    ensures r.Refutable? && !Misleads([ty], env) ==> exists v :: HasType(v, ty, env) && !Accepts(p, v, ty, env)
  {
    hide HasType, Misleads, Useful, Accepts, WellTyped;
    if !IsHandledScrutinee(ty) {
      return NotHandled;
    }
    var rows := [[Lower(p, ty, env)]];
    ghost var arms := [Arm(p, None, 0)];
    assert arms[..0] == [];
    assert CoveringRows(arms[..0], ty, env) == [];
    assert rows == CoveringRows(arms, ty, env);
    ExhaustiveMeans(depth, arms, ty, env);
    assert forall v :: Applies(arms, v, ty, env) <==> Accepts(arms[0].pattern, v, ty, env);
    match Useful(depth, true, rows, [Wildcard], [ty], env)
    case Unfinished =>
      return NotDecided;
    case Covered =>
      return Irrefutable;
    case Uncovered(_) =>
      return Refutable;
  }

  /** Some value of the type is not accepted. */
  ghost predicate MissesValue(p: Pattern, ty: Type, env: Env) {
    exists v :: HasType(v, ty, env) && !Accepts(p, v, ty, env)
  }

  /** The answer that a pattern is refutable is right for every pattern exactly if the type does not mislead. */
  lemma RefutableIsRightExactly(ty: Type, env: Env)
    requires FieldsDistinct(env)
    ensures !Misleads([ty], env) <==>
      forall depth: nat, p ::
        WellTyped(p, ty, env) && MatchAnswer(depth, [Arm(p, None, 0)], ty, env).Uncovered? ==> MissesValue(p, ty, env)
  {
    hide MatchAnswer, ArmsOk, Misleads, HasType, Accepts, WellTyped, FieldsDistinct, Applies;
    if Misleads([ty], env) {
      var p, depth := MisleadingPattern(ty, env);
    } else {
      forall depth: nat, p | WellTyped(p, ty, env) && MatchAnswer(depth, [Arm(p, None, 0)], ty, env).Uncovered?
        ensures MissesValue(p, ty, env)
      {
        OneArm(p, ty, env);
        ExhaustiveMeans(depth, [Arm(p, None, 0)], ty, env);
      }
    }
  }

  // ---------- reachability ----------

  /** Every value the arm accepts has an earlier unguarded arm. */
  ghost predicate Shadowed(arms: seq<Arm>, i: nat, ty: Type, env: Env)
    requires i < |arms|
  {
    forall v :: HasType(v, ty, env) && Accepts(arms[i].pattern, v, ty, env) ==> Applies(arms[..i], v, ty, env)
  }

  /** The test made for arm `i` against the unguarded arms before it. */
  function ArmAnswer(depth: nat, arms: seq<Arm>, i: nat, ty: Type, env: Env): Answer
    requires i < |arms|
  {
    PatternAnswer(depth, arms[..i], arms[i].pattern, ty, env)
  }

  /** An arm is flagged only if it is shadowed, and never spared if it is and the type does not mislead. */
  lemma FlaggedMeansShadowed(depth: nat, arms: seq<Arm>, i: nat, ty: Type, env: Env)
    requires ArmsOk(arms, ty, env) && i < |arms|
    ensures ArmAnswer(depth, arms, i, ty, env).Covered? ==> Shadowed(arms, i, ty, env)
    ensures !Misleads([ty], env) && ArmAnswer(depth, arms, i, ty, env).Uncovered? ==> !Shadowed(arms, i, ty, env)
  {
    hide HasType, Misleads, Applies, Accepts, WellTyped, PatternAnswer;
    if ArmAnswer(depth, arms, i, ty, env).Covered? {
      forall v | HasType(v, ty, env) && Accepts(arms[i].pattern, v, ty, env) ensures Applies(arms[..i], v, ty, env) {
        CoveredPattern(depth, arms[..i], arms[i].pattern, ty, env, v);
      }
    } else if ArmAnswer(depth, arms, i, ty, env).Uncovered? && !Misleads([ty], env) {
      var v := UncoveredPattern(depth, arms[..i], arms[i].pattern, ty, env);
    }
  }

  /** An arm that is not flagged can be reached, in every match over a type, exactly if the type does not mislead. */
  lemma SparedIsRightExactly(ty: Type, env: Env)
    requires FieldsDistinct(env)
    ensures !Misleads([ty], env) <==>
      forall depth: nat, arms, i: nat ::
        i < |arms| && ArmsOk(arms, ty, env) && ArmAnswer(depth, arms, i, ty, env).Uncovered? ==>
        !Shadowed(arms, i, ty, env)
  {
    hide ArmAnswer, Shadowed, ArmsOk, Misleads, FieldsDistinct;
    if Misleads([ty], env) {
      var depth, arms := FalselySpared(ty, env);
    } else {
      forall depth: nat, arms, i: nat |
        i < |arms| && ArmsOk(arms, ty, env) && ArmAnswer(depth, arms, i, ty, env).Uncovered?
        ensures !Shadowed(arms, i, ty, env)
      {
        FlaggedMeansShadowed(depth, arms, i, ty, env);
      }
    }
  }

  lemma FalselySpared(ty: Type, env: Env) returns (depth: nat, arms: seq<Arm>)
    requires Misleads([ty], env) && FieldsDistinct(env)
    ensures |arms| == 2 && ArmsOk(arms, ty, env) && ArmAnswer(depth, arms, 1, ty, env).Uncovered?
    ensures Shadowed(arms, 1, ty, env)
  {
    hide Useful, Misleads, HasType, Accepts, WellTyped, FieldsDistinct, Applies, Lower;
    var p;
    p, depth := MisleadingPattern(ty, env);
    arms := [Arm(p, None, 0), Arm(WildcardPattern, None, 1)];
    assert arms[..1] == [Arm(p, None, 0)];
    OneArm(p, ty, env);
    WildcardIsTyped(ty, env);
  }

  lemma WildcardIsTyped(ty: Type, env: Env)
    ensures WellTyped(WildcardPattern, ty, env)
  {
  }

  /** `None` if the recursion for some arm leaves no room on the stack. */
  method UnreachableArms(depth: nat, ty: Type, arms: seq<Arm>, env: Env) returns (r: Option<seq<nat>>)
    requires ArmsOk(arms, ty, env)
    ensures ty.SkippedType? || ty.UnitType? ==> r == Some([])
    ensures r.None? <==>
      !ty.SkippedType? && !ty.UnitType? && exists i: nat :: i < |arms| && ArmAnswer(depth, arms, i, ty, env).Unfinished?
    ensures r.Some? ==> forall i, k :: 0 <= i < k < |r.value| ==> r.value[i] < r.value[k]
    ensures r.Some? ==> forall i :: i in r.value ==> i < |arms| && Shadowed(arms, i, ty, env)
    ensures r.Some? && !ty.SkippedType? && !ty.UnitType? && !Misleads([ty], env) ==>
      forall i: nat :: i < |arms| && Shadowed(arms, i, ty, env) ==> i in r.value
  {
    hide Shadowed, Misleads, ArmsOk, Useful;
    if !IsHandledScrutinee(ty) {
      return Some([]);
    }
    var unreachable: seq<nat> := [];
    var covering: Matrix := [];
    for i := 0 to |arms|
      invariant covering == CoveringRows(arms[..i], ty, env)
      invariant forall k: nat :: k < i ==> !ArmAnswer(depth, arms, k, ty, env).Unfinished?
      invariant forall k :: 0 <= k < |unreachable| ==> unreachable[k] < i
      invariant forall k, m :: 0 <= k < m < |unreachable| ==> unreachable[k] < unreachable[m]
      invariant forall k :: k in unreachable ==> k < |arms| && Shadowed(arms, k, ty, env)
      invariant !Misleads([ty], env) ==>
        forall k: nat :: k < i && Shadowed(arms, k, ty, env) ==> k in unreachable
    {
      var pat := Lower(arms[i].pattern, ty, env);
      FlaggedMeansShadowed(depth, arms, i, ty, env);
      var a := Useful(depth, true, covering, [pat], [ty], env);
      assert a == ArmAnswer(depth, arms, i, ty, env);
      if a.Unfinished? {
        return None;
      }
      if a.Covered? {
        unreachable := unreachable + [i];
      }
      assert arms[..i + 1][..i] == arms[..i];
      if arms[i].guard.None? {
        covering := covering + [[pat]];
      }
    }
    return Some(unreachable);
  }

  /** Over such a type every arm is tested, given room enough, and flagged exactly if it is shadowed. */
  lemma GroundedArmIsDecided(narrow: bool, arms: seq<Arm>, i: nat, ty: Type, env: Env) returns (depth: nat)
    requires Grounded(narrow, ty, env) && (narrow || !Misleads([ty], env)) && ArmsOk(arms, ty, env) && i < |arms|
    ensures ArmAnswer(depth, arms, i, ty, env) == Covered <==> Shadowed(arms, i, ty, env)
    ensures ArmAnswer(depth, arms, i, ty, env).Uncovered? <==> !Shadowed(arms, i, ty, env)
  {
    hide Grounded, Misleads, Shadowed, PatternAnswer, WellTyped;
    depth := GroundedIsAnswered(narrow, arms[..i], arms[i].pattern, ty, env);
    if narrow {
      GroundedNeverMisleads(ty, env);
    }
    FlaggedMeansShadowed(depth, arms, i, ty, env);
  }

  // ---------- deleting the flagged arms ----------

  /** The body that runs: the first arm that accepts the value and whose guard, if any, holds. */
  ghost function Selected(arms: seq<Arm>, v: Value, ty: Type, env: Env, holds: nat -> bool): Option<nat> {
    if arms == [] then None
    else if Accepts(arms[0].pattern, v, ty, env) && (arms[0].guard.None? || holds(arms[0].guard.value)) then
      Some(arms[0].body)
    else Selected(arms[1..], v, ty, env, holds)
  }

  /** Deletes all arms whose index, counted from `base`, is in `dead`. */
  function Delete(arms: seq<Arm>, dead: set<nat>, base: nat): seq<Arm> {
    if arms == [] then []
    else (if base in dead then [] else [arms[0]]) + Delete(arms[1..], dead, base + 1)
  }

  ghost predicate Dead(arms: seq<Arm>, dead: set<nat>, ty: Type, env: Env) {
    forall i :: i in dead ==> i < |arms| && Shadowed(arms, i, ty, env)
  }

  lemma DeleteStep(arms: seq<Arm>, k: nat, dead: set<nat>)
    requires k < |arms|
    ensures Delete(arms[k..], dead, k) == (if k in dead then [] else [arms[k]]) + Delete(arms[k + 1..], dead, k + 1)
  {
    assert arms[k..][1..] == arms[k + 1..];
  }

  lemma SelectedStep(arm: Arm, rest: seq<Arm>, v: Value, ty: Type, env: Env, holds: nat -> bool)
    ensures Selected([arm] + rest, v, ty, env, holds) ==
      if Accepts(arm.pattern, v, ty, env) && (arm.guard.None? || holds(arm.guard.value)) then Some(arm.body)
      else Selected(rest, v, ty, env, holds)
  {
    hide Accepts;
    assert ([arm] + rest)[1..] == rest;
  }

  /** From an arm that a value gets to, deletion makes no difference: no unguarded arm before it accepts the value. */
  lemma {:induction false} DeleteKeepsSelection(
    arms: seq<Arm>, k: nat, dead: set<nat>, v: Value, ty: Type, env: Env, holds: nat -> bool)
    requires k <= |arms| && HasType(v, ty, env) && Dead(arms, dead, ty, env)
    requires !Applies(arms[..k], v, ty, env)
    ensures Selected(Delete(arms[k..], dead, k), v, ty, env, holds) == Selected(arms[k..], v, ty, env, holds)
    decreases |arms| - k
  {
    hide HasType, Accepts, Applies, Selected, Delete;
    if k < |arms| {
      var arm, rest, left := arms[k], arms[k + 1..], Delete(arms[k + 1..], dead, k + 1);
      DeleteStep(arms, k, dead);
      AppliesStep(arms, k, v, ty, env);
      assert arms[k..] == [arm] + rest;
      SelectedStep(arm, rest, v, ty, env, holds);
      SelectedStep(arm, left, v, ty, env, holds);
      if !Applies(arms[..k + 1], v, ty, env) {
        DeleteKeepsSelection(arms, k + 1, dead, v, ty, env, holds);
      }
      if k in dead {
        assert Shadowed(arms, k, ty, env) && [] + left == left;
      }
    } else {
      assert arms[k..] == [] && Delete([], dead, k) == [] by {
        NothingDeleted(dead, k);
      }
    }
  }

  lemma NothingDeleted(dead: set<nat>, base: nat)
    ensures Delete([], dead, base) == []
  {
  }

  /** Deleting all shadowed arms at once changes the body selected for no value and no guard outcomes. */
  lemma DeletionIsInvisible(arms: seq<Arm>, dead: set<nat>, v: Value, ty: Type, env: Env, holds: nat -> bool)
    requires HasType(v, ty, env) && Dead(arms, dead, ty, env)
    ensures Selected(Delete(arms, dead, 0), v, ty, env, holds) == Selected(arms, v, ty, env, holds)
  {
    hide HasType, Accepts, Dead;
    assert arms[0..] == arms;
    DeleteKeepsSelection(arms, 0, dead, v, ty, env, holds);
  }

  /** With all guards failing, a body is selected exactly if an unguarded arm applies. */
  lemma {:induction false} SelectedWithoutGuards(arms: seq<Arm>, v: Value, ty: Type, env: Env)
    ensures Selected(arms, v, ty, env, _ => false).Some? <==> Applies(arms, v, ty, env)
  {
    hide Accepts;
    if arms != [] {
      SelectedWithoutGuards(arms[1..], v, ty, env);
      assert Applies(arms, v, ty, env) <==>
        (arms[0].guard.None? && Accepts(arms[0].pattern, v, ty, env)) || Applies(arms[1..], v, ty, env)
      by {
        if i :| 0 <= i < |arms| && arms[i].guard.None? && Accepts(arms[i].pattern, v, ty, env) {
          assert i > 0 ==> arms[1..][i - 1] == arms[i];
        }
        if i :| 0 <= i < |arms[1..]| && arms[1..][i].guard.None? && Accepts(arms[1..][i].pattern, v, ty, env) {
          assert arms[i + 1] == arms[1..][i];
        }
      }
    }
  }

  lemma {:induction false} DeleteOk(arms: seq<Arm>, dead: set<nat>, base: nat, ty: Type, env: Env)
    requires ArmsOk(arms, ty, env)
    ensures ArmsOk(Delete(arms, dead, base), ty, env)
  {
    hide WellTyped;
    if arms != [] {
      DeleteOk(arms[1..], dead, base + 1, ty, env);
    }
  }

  /** Deleting all shadowed arms at once does not change the exhaustiveness verdict, where both checks give one. */
  lemma DeletionKeepsVerdict(d: nat, e: nat, arms: seq<Arm>, dead: set<nat>, ty: Type, env: Env)
    requires !Misleads([ty], env) && ArmsOk(arms, ty, env) && Dead(arms, dead, ty, env)
    requires !MatchAnswer(d, Delete(arms, dead, 0), ty, env).Unfinished?
    requires !MatchAnswer(e, arms, ty, env).Unfinished?
    ensures MatchAnswer(d, Delete(arms, dead, 0), ty, env).Covered? <==> MatchAnswer(e, arms, ty, env).Covered?
  {
    hide HasType, Misleads, Applies, ArmsOk, Dead, MatchAnswer;
    DeleteOk(arms, dead, 0, ty, env);
    ExhaustiveMeans(e, arms, ty, env);
    ExhaustiveMeans(d, Delete(arms, dead, 0), ty, env);
    forall v | HasType(v, ty, env)
      ensures Applies(Delete(arms, dead, 0), v, ty, env) <==> Applies(arms, v, ty, env)
    {
      DeletionIsInvisible(arms, dead, v, ty, env, _ => false);
      SelectedWithoutGuards(arms, v, ty, env);
      SelectedWithoutGuards(Delete(arms, dead, 0), v, ty, env);
    }
  }
}
