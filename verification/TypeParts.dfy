/** The types met on the way into a type. */
module TypeParts {
  import opened Basics
  import opened Patterns

  /** `part` is reached from `ty` by at most `n` steps from a type to a field of one of its constructors. */
  ghost predicate ReachesIn(n: nat, ty: Type, part: Type, env: Env) {
    || ty == part
    || (n > 0 &&
        exists c, i ::
          && CtorOf(c, ty, env) && 0 <= i < |CtorFieldTypes(c, ty, env)|
          && ReachesIn(n - 1, CtorFieldTypes(c, ty, env)[i], part, env))
  }

  ghost predicate Reaches(ty: Type, part: Type, env: Env) {
    exists n: nat :: ReachesIn(n, ty, part, env)
  }

  lemma ReachesSelf(ty: Type, env: Env)
    ensures Reaches(ty, ty, env)
  {
    assert ReachesIn(0, ty, ty, env);
  }

  /** What a field reaches, its type reaches. */
  lemma ReachesField(c: Ctor, i: nat, ty: Type, part: Type, env: Env)
    requires CtorOf(c, ty, env) && i < |CtorFieldTypes(c, ty, env)|
    requires Reaches(CtorFieldTypes(c, ty, env)[i], part, env)
    ensures Reaches(ty, part, env)
  {
    hide CtorOf, CtorFieldTypes;
    var n: nat :| ReachesIn(n, CtorFieldTypes(c, ty, env)[i], part, env);
    assert ReachesIn(n + 1, ty, part, env);
  }

  ghost predicate HasValue(ty: Type, env: Env) {
    exists v :: HasType(v, ty, env)
  }

  /** Every type reached from `ty`, itself included, has a value. */
  ghost predicate Inhabited(ty: Type, env: Env) {
    forall part :: Reaches(ty, part, env) ==> HasValue(part, env)
  }

  ghost predicate AllInhabited(tys: seq<Type>, env: Env) {
    forall i :: 0 <= i < |tys| ==> Inhabited(tys[i], env)
  }

  lemma FieldsInhabited(c: Ctor, ty: Type, env: Env)
    requires Inhabited(ty, env) && CtorOf(c, ty, env)
    ensures AllInhabited(CtorFieldTypes(c, ty, env), env)
  {
    hide CtorOf, CtorFieldTypes, Reaches, HasValue;
    var fields := CtorFieldTypes(c, ty, env);
    forall i, part | 0 <= i < |fields| && Reaches(fields[i], part, env) ensures HasValue(part, env) {
      ReachesField(c, i, ty, part, env);
    }
  }

  // ---------- where the shortcut misleads ----------

  ghost predicate AllHaveValue(tys: seq<Type>, env: Env) {
    forall i :: 0 <= i < |tys| ==> HasValue(tys[i], env)
  }

  /** The columns after opening the first one with a constructor. */
  function OpenedTypes(c: Ctor, tys: seq<Type>, env: Env): seq<Type>
    requires tys != []
  {
    CtorFieldTypes(c, tys[0], env) + tys[1..]
  }

  /**
    Patterns can tell values of these columns apart: skipping columns and opening constructors, in at most `n` steps,
    one comes to a column with two constructors, one of which can be built together with all columns still behind it.
   */
  ghost predicate SplitsIn(n: nat, tys: seq<Type>, env: Env) {
    && n > 0 && tys != []
    && (|| SplitsIn(n - 1, tys[1..], env)
        || (exists c :: CtorOf(c, tys[0], env) && SplitsIn(n - 1, OpenedTypes(c, tys, env), env))
        || Parts(tys, env))
  }

  /** The first column has two constructors, one of which can be built together with all columns behind it. */
  ghost predicate Parts(tys: seq<Type>, env: Env)
    requires tys != []
  {
    exists c, d ::
      && CtorOf(c, tys[0], env) && CtorOf(d, tys[0], env) && c != d
      && AllHaveValue(OpenedTypes(c, tys, env), env)
  }

  ghost predicate Splits(tys: seq<Type>, env: Env) {
    exists n: nat :: SplitsIn(n, tys, env)
  }

  /**
    Skipping and opening, in at most `n` steps, one comes to a column without values, and those behind it can be
    split.
   */
  ghost predicate MisleadsIn(n: nat, tys: seq<Type>, env: Env) {
    && n > 0 && tys != []
    && (|| (!HasValue(tys[0], env) && Splits(tys[1..], env))
        || MisleadsIn(n - 1, tys[1..], env)
        || (exists c :: CtorOf(c, tys[0], env) && MisleadsIn(n - 1, OpenedTypes(c, tys, env), env)))
  }

  ghost predicate Misleads(tys: seq<Type>, env: Env) {
    exists n: nat :: MisleadsIn(n, tys, env)
  }

  lemma SplitsSkip(tys: seq<Type>, env: Env)
    requires tys != [] && Splits(tys[1..], env)
    ensures Splits(tys, env)
  {
    var n: nat :| SplitsIn(n, tys[1..], env);
    assert SplitsIn(n + 1, tys, env);
  }

  lemma SplitsOpen(c: Ctor, tys: seq<Type>, env: Env)
    requires tys != [] && CtorOf(c, tys[0], env) && Splits(OpenedTypes(c, tys, env), env)
    ensures Splits(tys, env)
  {
    hide CtorOf, OpenedTypes;
    var n: nat :| SplitsIn(n, OpenedTypes(c, tys, env), env);
    assert SplitsIn(n + 1, tys, env);
  }

  lemma SplitsHere(c: Ctor, d: Ctor, tys: seq<Type>, env: Env)
    requires tys != [] && CtorOf(c, tys[0], env) && CtorOf(d, tys[0], env) && c != d
    requires AllHaveValue(OpenedTypes(c, tys, env), env)
    ensures Splits(tys, env)
  {
    hide CtorOf, OpenedTypes, AllHaveValue;
    assert Parts(tys, env);
    assert SplitsIn(1, tys, env);
  }

  lemma MisleadsVoid(tys: seq<Type>, env: Env)
    requires tys != [] && !HasValue(tys[0], env) && Splits(tys[1..], env)
    ensures Misleads(tys, env)
  {
    assert MisleadsIn(1, tys, env);
  }

  lemma MisleadsSkip(tys: seq<Type>, env: Env)
    requires tys != [] && Misleads(tys[1..], env)
    ensures Misleads(tys, env)
  {
    var n: nat :| MisleadsIn(n, tys[1..], env);
    assert MisleadsIn(n + 1, tys, env);
  }

  lemma MisleadsOpen(c: Ctor, tys: seq<Type>, env: Env)
    requires tys != [] && CtorOf(c, tys[0], env) && Misleads(OpenedTypes(c, tys, env), env)
    ensures Misleads(tys, env)
  {
    hide CtorOf, OpenedTypes;
    var n: nat :| MisleadsIn(n, OpenedTypes(c, tys, env), env);
    assert MisleadsIn(n + 1, tys, env);
  }

  /** Where every type met has a value, nothing misleads. */
  lemma {:induction false} InhabitedNeverMislead(n: nat, tys: seq<Type>, env: Env)
    requires AllInhabited(tys, env)
    ensures !MisleadsIn(n, tys, env)
    decreases n
  {
    hide CtorOf, CtorFieldTypes, HasValue, Splits, Reaches;
    if n > 0 && tys != [] {
      ReachesSelf(tys[0], env);
      assert HasValue(tys[0], env);
      InhabitedNeverMislead(n - 1, tys[1..], env);
      forall c | CtorOf(c, tys[0], env) ensures !MisleadsIn(n - 1, OpenedTypes(c, tys, env), env) {
        FieldsInhabited(c, tys[0], env);
        InhabitedNeverMislead(n - 1, OpenedTypes(c, tys, env), env);
      }
    }
  }

  // ---------- a column of booleans behind ----------

  lemma {:induction false} SplitsBehind(front: seq<Type>, tys: seq<Type>, env: Env)
    requires Splits(tys, env)
    ensures Splits(front + tys, env)
  {
    hide Splits;
    if front == [] {
      assert front + tys == tys;
    } else {
      SplitsBehind(front[1..], tys, env);
      assert (front + tys)[1..] == front[1..] + tys;
      SplitsSkip(front + tys, env);
    }
  }

  lemma {:induction false} MisleadsBehind(front: seq<Type>, tys: seq<Type>, env: Env)
    requires Misleads(tys, env)
    ensures Misleads(front + tys, env)
  {
    hide Misleads;
    if front == [] {
      assert front + tys == tys;
    } else {
      MisleadsBehind(front[1..], tys, env);
      assert (front + tys)[1..] == front[1..] + tys;
      MisleadsSkip(front + tys, env);
    }
  }

  /** A part without values in front of columns that split. */
  lemma {:induction false} VoidPartMisleads(n: nat, ty: Type, part: Type, rest: seq<Type>, env: Env)
    requires ReachesIn(n, ty, part, env) && !HasValue(part, env) && Splits(rest, env)
    ensures Misleads([ty] + rest, env)
    decreases n
  {
    hide Misleads, Splits, CtorOf, CtorFieldTypes, HasValue;
    var tys := [ty] + rest;
    assert tys[1..] == rest;
    if ty == part {
      MisleadsVoid(tys, env);
    } else {
      var c, i :|
        && CtorOf(c, ty, env) && 0 <= i < |CtorFieldTypes(c, ty, env)|
        && ReachesIn(n - 1, CtorFieldTypes(c, ty, env)[i], part, env);
      var fields := CtorFieldTypes(c, ty, env);
      SplitsBehind(fields[i + 1..], rest, env);
      VoidPartMisleads(n - 1, fields[i], part, fields[i + 1..] + rest, env);
      MisleadsBehind(fields[..i], [fields[i]] + (fields[i + 1..] + rest), env);
      assert OpenedTypes(c, tys, env) == fields[..i] + ([fields[i]] + (fields[i + 1..] + rest));
      MisleadsOpen(c, tys, env);
    }
  }

  lemma BoolSplits(env: Env)
    ensures Splits([BoolType], env)
  {
    assert [BoolCtor(true), BoolCtor(false)][1] == BoolCtor(false);
    assert OpenedTypes(BoolCtor(true), [BoolType], env) == [];
    SplitsHere(BoolCtor(true), BoolCtor(false), [BoolType], env);
  }

  /** A pair with a boolean behind misleads exactly if some type met has no value. */
  lemma PairMisleads(ty: Type, env: Env)
    ensures Misleads([TupleType([ty, BoolType])], env) <==> !Inhabited(ty, env)
  {
    hide Misleads, Splits, HasValue, ReachesIn, CtorOf, Inhabited;
    var pair, parts := [TupleType([ty, BoolType])], [ty, BoolType];
    PairOpens(ty, env);
    if !Inhabited(ty, env) {
      var part := VoidPart(ty, env);
      var n: nat :| ReachesIn(n, ty, part, env);
      BoolSplits(env);
      VoidPartMisleads(n, ty, part, [BoolType], env);
      assert [ty] + [BoolType] == parts;
    } else {
      InhabitedPair(ty, env);
    }
  }

  lemma VoidPart(ty: Type, env: Env) returns (part: Type)
    requires !Inhabited(ty, env)
    ensures Reaches(ty, part, env) && !HasValue(part, env)
  {
    hide Reaches, HasValue;
    part :| Reaches(ty, part, env) && !HasValue(part, env);
  }

  lemma InhabitedPair(ty: Type, env: Env)
    requires Inhabited(ty, env)
    ensures !Misleads([ty, BoolType], env)
  {
    hide MisleadsIn, HasType, Inhabited;
    BoolInhabited(env);
    assert AllInhabited([ty, BoolType], env);
    forall n: nat ensures !MisleadsIn(n, [ty, BoolType], env) {
      InhabitedNeverMislead(n, [ty, BoolType], env);
    }
  }

  lemma BoolInhabited(env: Env)
    ensures Inhabited(BoolType, env)
  {
    assert HasType(Built(BoolCtor(true), []), BoolType, env);
    forall part | Reaches(BoolType, part, env) ensures HasValue(part, env) {
      var n: nat :| ReachesIn(n, BoolType, part, env);
    }
  }

  lemma PairOpens(ty: Type, env: Env)
    ensures Misleads([TupleType([ty, BoolType])], env) <==> Misleads([ty, BoolType], env)
  {
    var pair, parts := [TupleType([ty, BoolType])], [ty, BoolType];
    assert OpenedTypes(TupleCtor, pair, env) == parts;
    if Misleads(parts, env) {
      MisleadsOpen(TupleCtor, pair, env);
    }
    if n: nat :| MisleadsIn(n, pair, env) {
      var c := OneColumnMisleads(n, pair[0], env);
      assert c == TupleCtor;
    }
  }

  lemma NothingMisleads(env: Env)
    ensures !Splits([], env) && forall m: nat :: !MisleadsIn(m, [], env)
  {
  }

  /** One column misleads through a constructor. */
  lemma OneColumnMisleads(n: nat, ty: Type, env: Env) returns (c: Ctor)
    requires MisleadsIn(n, [ty], env)
    ensures n > 0 && CtorOf(c, ty, env) && MisleadsIn(n - 1, OpenedTypes(c, [ty], env), env)
  {
    hide CtorOf, OpenedTypes, Splits;
    NothingMisleads(env);
    assert [ty][1..] == [];
    c :| CtorOf(c, ty, env) && MisleadsIn(n - 1, OpenedTypes(c, [ty], env), env);
  }

  // ---------- a type without values that does no harm ----------

  function ResultEnv(): Env {
    Env(map["Result" := [("Ok", TupleVariant([IntType])), ("Err", TupleVariant([NeverType]))]], map[])
  }

  lemma ResultFacts()
    ensures EnumerateCtors(Named("Result"), ResultEnv()) == Some([VariantCtor("Ok"), VariantCtor("Err")])
    ensures CtorFieldTypes(VariantCtor("Ok"), Named("Result"), ResultEnv()) == [IntType]
    ensures CtorFieldTypes(VariantCtor("Err"), Named("Result"), ResultEnv()) == [NeverType]
  {
    var variants := ResultEnv().enums["Result"];
    assert |"Ok"| != |"Err"| && variants[1..][0] == ("Err", TupleVariant([NeverType]));
    assert VariantCtors(variants) == [VariantCtor("Ok"), VariantCtor("Err")];
  }

  /** A variant that cannot be built does not mislead when nothing stands behind it. */
  lemma VoidPayloadIsHarmless()
    ensures !Misleads([Named("Result")], ResultEnv()) && !Inhabited(Named("Result"), ResultEnv())
  {
    hide ResultEnv, CtorFieldTypes;
    var env, ty := ResultEnv(), Named("Result");
    ResultFacts();
    if n: nat :| MisleadsIn(n, [ty], env) {
      var c := OneColumnMisleads(n, ty, env);
      assert OpenedTypes(c, [ty], env) == CtorFieldTypes(c, ty, env);
      var d := OneColumnMisleads(n - 1, CtorFieldTypes(c, ty, env)[0], env);
      LiteralOpens(d, env);
      NothingMisleads(env);
    }
    assert ReachesIn(0, NeverType, NeverType, env);
    ReachesField(VariantCtor("Err"), 0, ty, NeverType, env);
    assert !HasValue(NeverType, env);
  }

  lemma LiteralOpens(d: Ctor, env: Env)
    requires CtorOf(d, IntType, env)
    ensures OpenedTypes(d, [IntType], env) == []
  {
  }
}
