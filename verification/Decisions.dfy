/**
  When the checks of match arms are decided rightly.

  For every match over a type there is room enough on the stack for the right answer exactly if every search the
  recursion can come to ends and the type does not mislead.
 */
module Decisions {
  import opened Basics
  import opened Patterns
  import opened Matrices
  import opened TypeParts
  import opened Usefulness
  import opened Termination
  import opened Searching
  import opened WildSearching
  import opened Lowering
  import opened Exhaustive

  /** Every typed matrix of one column is that of some arms. */
  lemma {:induction false} ArmsOnto(rows: Matrix, ty: Type, env: Env) returns (arms: seq<Arm>)
    requires RowsOk(rows, [ty], env) && FieldsDistinct(env)
    ensures ArmsOk(arms, ty, env) && CoveringRows(arms, ty, env) == rows
  {
    hide PatOk, WellTyped, Lower, FieldsDistinct;
    arms := [];
    if rows != [] {
      var front, last := rows[..|rows| - 1], rows[|rows| - 1];
      assert PatsOk(last, [ty], env);
      assert PatOk(last[0], [ty][0], env);
      var before := ArmsOnto(front, ty, env);
      var p := LowerIsOnto(last[0], ty, env);
      arms := before + [Arm(p, None, 0)];
      assert arms[..|arms| - 1] == before;
      assert last == [Lower(p, ty, env)] && front + [last] == rows;
    }
  }

  // ---------- the match ----------

  /** With room enough, the check of the match gives the right verdict. */
  ghost predicate MatchDecided(arms: seq<Arm>, ty: Type, env: Env) {
    exists depth: nat ::
      && !MatchAnswer(depth, arms, ty, env).Unfinished?
      && (MatchAnswer(depth, arms, ty, env).Covered? <==> AlwaysApplies(arms, ty, env))
  }

  /** Every match over a type is decided rightly exactly if every search ends and the type does not mislead. */
  lemma MatchesAreDecidedExactly(ty: Type, env: Env)
    requires FieldsDistinct(env)
    ensures WildSearchable(ty, env) && !Misleads([ty], env) <==>
      forall arms :: ArmsOk(arms, ty, env) ==> MatchDecided(arms, ty, env)
  {
    hide WildSearchable, Misleads, MatchDecided, ArmsOk, FieldsDistinct;
    if WildSearchable(ty, env) && !Misleads([ty], env) {
      forall arms | ArmsOk(arms, ty, env) ensures MatchDecided(arms, ty, env) {
        SearchableIsDecided(arms, ty, env);
      }
    }
    if forall arms :: ArmsOk(arms, ty, env) ==> MatchDecided(arms, ty, env) {
      DecidedIsSearchable(ty, env);
      if Misleads([ty], env) {
        var depth, arms := FalseVerdict(ty, env);
        FalseIsNotDecided(depth, arms, ty, env);
      }
    }
  }

  lemma SearchableIsDecided(arms: seq<Arm>, ty: Type, env: Env)
    requires WildSearchable(ty, env) && !Misleads([ty], env) && ArmsOk(arms, ty, env)
    ensures MatchDecided(arms, ty, env)
  {
    hide WildSearchable, Misleads, ArmsOk, AlwaysApplies, RowsOk, Useful;
    CoveringRowsOk(arms, ty, env);
    WildEndsExactly(ty, env);
    LowerWildcard(ty, env);
    var rows := CoveringRows(arms, ty, env);
    assert Ends(true, rows, [Wildcard], [ty], env);
    var depth: nat :| !Useful(depth, true, rows, [Wildcard], [ty], env).Unfinished?;
    ExhaustiveMeans(depth, arms, ty, env);
    assert !MatchAnswer(depth, arms, ty, env).Unfinished?;
  }

  lemma DecidedIsSearchable(ty: Type, env: Env)
    requires FieldsDistinct(env) && forall arms :: ArmsOk(arms, ty, env) ==> MatchDecided(arms, ty, env)
    ensures WildSearchable(ty, env)
  {
    hide WildSearchable, ArmsOk, AlwaysApplies, RowsOk, Useful, FieldsDistinct;
    forall rows: Matrix | RowsOk(rows, [ty], env) ensures Ends(true, rows, [Wildcard], [ty], env) {
      var arms := ArmsOnto(rows, ty, env);
      LowerWildcard(ty, env);
      assert MatchDecided(arms, ty, env);
      var depth: nat :| !MatchAnswer(depth, arms, ty, env).Unfinished?;
    }
    WildEndsExactly(ty, env);
  }

  lemma FalseIsNotDecided(depth: nat, arms: seq<Arm>, ty: Type, env: Env)
    requires MatchAnswer(depth, arms, ty, env).Uncovered? && AlwaysApplies(arms, ty, env)
    ensures !MatchDecided(arms, ty, env)
  {
    hide AlwaysApplies, Useful, CoveringRows, Lower;
    forall d: nat | !MatchAnswer(d, arms, ty, env).Unfinished? ensures MatchAnswer(d, arms, ty, env).Uncovered? {
      SameAnswer(d, depth, CoveringRows(arms, ty, env), [Lower(WildcardPattern, ty, env)], [ty], env);
    }
  }

  // ---------- its arms ----------

  /** With room enough, arm `i` is flagged exactly if it is shadowed. */
  ghost predicate ArmDecided(arms: seq<Arm>, i: nat, ty: Type, env: Env)
    requires i < |arms|
  {
    exists depth: nat ::
      && !ArmAnswer(depth, arms, i, ty, env).Unfinished?
      && (ArmAnswer(depth, arms, i, ty, env).Covered? <==> Shadowed(arms, i, ty, env))
  }

  /** Every arm over a type is decided rightly exactly if every search ends and the type does not mislead. */
  lemma ArmsAreDecidedExactly(ty: Type, env: Env)
    requires FieldsDistinct(env)
    ensures Searchable(ty, env) && !Misleads([ty], env) <==>
      forall arms, i: nat :: i < |arms| && ArmsOk(arms, ty, env) ==> ArmDecided(arms, i, ty, env)
  {
    hide Searchable, Misleads, ArmDecided, ArmsOk, FieldsDistinct, Shadowed, ArmAnswer;
    if Searchable(ty, env) && !Misleads([ty], env) {
      forall arms, i: nat | i < |arms| && ArmsOk(arms, ty, env) ensures ArmDecided(arms, i, ty, env) {
        SearchableArmIsDecided(arms, i, ty, env);
      }
    }
    if forall arms, i: nat :: i < |arms| && ArmsOk(arms, ty, env) ==> ArmDecided(arms, i, ty, env) {
      DecidedArmsAreSearchable(ty, env);
      if Misleads([ty], env) {
        var depth, arms := FalselySpared(ty, env);
        SparedIsNotDecided(depth, arms, 1, ty, env);
      }
    }
  }

  lemma SearchableArmIsDecided(arms: seq<Arm>, i: nat, ty: Type, env: Env)
    requires Searchable(ty, env) && !Misleads([ty], env) && ArmsOk(arms, ty, env) && i < |arms|
    ensures ArmDecided(arms, i, ty, env)
  {
    hide Searchable, Misleads, Shadowed, RowsOk, PatOk, WellTyped, Lower, Useful;
    CoveringRowsOk(arms[..i], ty, env);
    LowerIsOk(arms[i].pattern, ty, env);
    EndsExactly(ty, env);
    var rows, p := CoveringRows(arms[..i], ty, env), Lower(arms[i].pattern, ty, env);
    assert Ends(true, rows, [p], [ty], env);
    var depth: nat :| !Useful(depth, true, rows, [p], [ty], env).Unfinished?;
    FlaggedMeansShadowed(depth, arms, i, ty, env);
    assert !ArmAnswer(depth, arms, i, ty, env).Unfinished?;
  }

  lemma DecidedArmsAreSearchable(ty: Type, env: Env)
    requires FieldsDistinct(env)
    requires forall arms, i: nat :: i < |arms| && ArmsOk(arms, ty, env) ==> ArmDecided(arms, i, ty, env)
    ensures Searchable(ty, env)
  {
    hide Searchable, WellTyped, Shadowed, RowsOk, PatOk, Useful, FieldsDistinct, Lower, CoveringRows;
    forall rows: Matrix, p | RowsOk(rows, [ty], env) && PatOk(p, ty, env) ensures Ends(true, rows, [p], [ty], env) {
      var front := ArmsOnto(rows, ty, env);
      var sp := LowerIsOnto(p, ty, env);
      var arms := front + [Arm(sp, None, 0)];
      assert arms[..|front|] == front;
      assert ArmDecided(arms, |front|, ty, env);
      var depth: nat :| !ArmAnswer(depth, arms, |front|, ty, env).Unfinished?;
    }
    EndsExactly(ty, env);
  }

  lemma SparedIsNotDecided(depth: nat, arms: seq<Arm>, i: nat, ty: Type, env: Env)
    requires i < |arms| && ArmAnswer(depth, arms, i, ty, env).Uncovered? && Shadowed(arms, i, ty, env)
    ensures !ArmDecided(arms, i, ty, env)
  {
    hide Shadowed, Useful, CoveringRows, Lower;
    forall d: nat | !ArmAnswer(d, arms, i, ty, env).Unfinished? ensures ArmAnswer(d, arms, i, ty, env).Uncovered? {
      SameAnswer(d, depth, CoveringRows(arms[..i], ty, env), [Lower(arms[i].pattern, ty, env)], [ty], env);
    }
  }
}
