/**
  When the usefulness recursion ends.

  Over an empty matrix the recursion follows first constructors only, and over any other matrix every step that opens
  a constructor without a row of wildcards shrinks the matrix. So the recursion ends on every query exactly if, from
  every type it can meet, the chain of first constructors ends.
 */
module MatrixWeights {
  import opened Patterns
  import opened Matrices

  /** The number of rows a pattern can be split into, constructors counted. */
  ghost function PatWeight(p: Pat): (n: nat)
    ensures n > 0
    decreases p, 1
  {
    match p
    case Wildcard => 1
    case Con(_, args) => 1 + RowWeight(args)
    case Or(alts) => 1 + AltsWeight(alts)
  }

  ghost function AltsWeight(alts: seq<Pat>): nat
    decreases alts, 0
  {
    if alts == [] then 0 else PatWeight(alts[0]) + AltsWeight(alts[1..])
  }

  ghost function RowWeight(row: seq<Pat>): (n: nat)
    ensures n > 0
    decreases row, 0
  {
    if row == [] then 1 else Times(PatWeight(row[0]), RowWeight(row[1..]))
  }

  ghost function Times(a: nat, b: nat): (n: nat)
    ensures a > 0 && b > 0 ==> n > 0
  {
    if a == 0 then 0 else b + Times(a - 1, b)
  }

  ghost function MatrixWeight(rows: Matrix): nat {
    if rows == [] then 0 else RowWeight(rows[0]) + MatrixWeight(rows[1..])
  }

  lemma {:induction false} TimesSum(a: nat, b: nat, c: nat)
    ensures Times(a + b, c) == Times(a, c) + Times(b, c)
  {
    if a > 0 {
      TimesSum(a - 1, b, c);
    }
  }

  lemma {:induction false} TimesTimes(a: nat, b: nat, c: nat)
    ensures Times(Times(a, b), c) == Times(a, Times(b, c))
  {
    if a > 0 {
      TimesTimes(a - 1, b, c);
      TimesSum(b, Times(a - 1, b), c);
    }
  }

  lemma {:induction false} RowWeightConcat(a: seq<Pat>, b: seq<Pat>)
    ensures RowWeight(a + b) == Times(RowWeight(a), RowWeight(b))
  {
    if a == [] {
      assert a + b == b;
    } else {
      assert (a + b)[1..] == a[1..] + b;
      RowWeightConcat(a[1..], b);
      TimesTimes(PatWeight(a[0]), RowWeight(a[1..]), RowWeight(b));
    }
  }

  lemma {:induction false} WildcardsWeight(n: nat)
    ensures RowWeight(Wildcards(n)) == 1
  {
    if n > 0 {
      assert Wildcards(n)[1..] == Wildcards(n - 1);
      WildcardsWeight(n - 1);
    }
  }

  lemma {:induction false} MatrixWeightConcat(a: Matrix, b: Matrix)
    ensures MatrixWeight(a + b) == MatrixWeight(a) + MatrixWeight(b)
  {
    if a == [] {
      assert a + b == b;
    } else {
      assert (a + b)[1..] == a[1..] + b;
      MatrixWeightConcat(a[1..], b);
    }
  }

  lemma OneRowWeight(row: seq<Pat>)
    ensures MatrixWeight([row]) == RowWeight(row)
  {
    assert [row][1..] == [];
  }

  /** Opening a head never grows a row, and shrinks it unless the head is a wildcard. */
  lemma {:induction false} SpecializeHeadShrinks(head: Pat, tail: seq<Pat>, c: Ctor, arity: nat)
    ensures MatrixWeight(SpecializeHead(head, tail, c, arity)) <= RowWeight([head] + tail)
    ensures !head.Wildcard? ==> MatrixWeight(SpecializeHead(head, tail, c, arity)) < RowWeight([head] + tail)
    decreases head, 1
  {
    assert ([head] + tail)[1..] == tail;
    match head
    case Wildcard =>
      OneRowWeight(Wildcards(arity) + tail);
      WildcardsWeight(arity);
      RowWeightConcat(Wildcards(arity), tail);
    case Con(_, args) =>
      OneRowWeight(args + tail);
      RowWeightConcat(args, tail);
    case Or(alts) =>
      SpecializeAltsShrinks(alts, tail, c, arity);
  }

  lemma {:induction false} SpecializeAltsShrinks(alts: seq<Pat>, tail: seq<Pat>, c: Ctor, arity: nat)
    ensures MatrixWeight(SpecializeAlts(alts, tail, c, arity)) <= Times(AltsWeight(alts), RowWeight(tail))
    decreases alts, 0
  {
    if alts != [] {
      SpecializeHeadShrinks(alts[0], tail, c, arity);
      assert ([alts[0]] + tail)[1..] == tail;
      SpecializeAltsShrinks(alts[1..], tail, c, arity);
      MatrixWeightConcat(SpecializeHead(alts[0], tail, c, arity), SpecializeAlts(alts[1..], tail, c, arity));
      TimesSum(PatWeight(alts[0]), AltsWeight(alts[1..]), RowWeight(tail));
    }
  }

  /** `S(c, P)` is no larger than `P`, and smaller unless the first column holds wildcards only. */
  lemma {:induction false} SpecializeShrinks(rows: Matrix, c: Ctor, arity: nat)
    ensures MatrixWeight(Specialize(rows, c, arity)) <= MatrixWeight(rows)
    ensures !AllWild(rows) ==> MatrixWeight(Specialize(rows, c, arity)) < MatrixWeight(rows)
  {
    if rows != [] {
      SpecializeShrinks(rows[1..], c, arity);
      if rows[0] != [] {
        SpecializeHeadShrinks(rows[0][0], rows[0][1..], c, arity);
        assert rows[0] == [rows[0][0]] + rows[0][1..];
        MatrixWeightConcat(SpecializeHead(rows[0][0], rows[0][1..], c, arity), Specialize(rows[1..], c, arity));
      } else {
        assert [] + Specialize(rows[1..], c, arity) == Specialize(rows[1..], c, arity);
      }
      if !AllWild(rows) && rows[0] != [] && rows[0][0].Wildcard? {
        assert !AllWild(rows[1..]);
      }
    }
  }

  lemma {:induction false} DefaultHeadShrinks(head: Pat, tail: seq<Pat>)
    ensures MatrixWeight(DefaultHead(head, tail)) <= RowWeight([head] + tail)
    decreases head, 1
  {
    assert ([head] + tail)[1..] == tail;
    match head
    case Wildcard =>
      OneRowWeight(tail);
    case Con(_, _) =>
    case Or(alts) =>
      DefaultAltsShrinks(alts, tail);
  }

  lemma {:induction false} DefaultAltsShrinks(alts: seq<Pat>, tail: seq<Pat>)
    ensures MatrixWeight(DefaultAlts(alts, tail)) <= Times(AltsWeight(alts), RowWeight(tail))
    decreases alts, 0
  {
    if alts != [] {
      DefaultHeadShrinks(alts[0], tail);
      assert ([alts[0]] + tail)[1..] == tail;
      DefaultAltsShrinks(alts[1..], tail);
      MatrixWeightConcat(DefaultHead(alts[0], tail), DefaultAlts(alts[1..], tail));
      TimesSum(PatWeight(alts[0]), AltsWeight(alts[1..]), RowWeight(tail));
    }
  }

  /** `D(P)` is no larger than `P`. */
  lemma {:induction false} DefaultShrinks(rows: Matrix)
    ensures MatrixWeight(DefaultMatrix(rows)) <= MatrixWeight(rows)
  {
    if rows != [] {
      DefaultShrinks(rows[1..]);
      if rows[0] != [] {
        DefaultHeadShrinks(rows[0][0], rows[0][1..]);
        assert rows[0] == [rows[0][0]] + rows[0][1..];
        MatrixWeightConcat(DefaultHead(rows[0][0], rows[0][1..]), DefaultMatrix(rows[1..]));
      } else {
        assert [] + DefaultMatrix(rows[1..]) == DefaultMatrix(rows[1..]);
      }
    }
  }
}

module Termination {
  import opened Basics
  import opened Patterns
  import opened Matrices
  import opened TypeParts
  import opened Usefulness
  import opened MatrixWeights

  // ---------- grounded types ----------

  /** The constructors to follow from a type: the first one, or all of them. */
  function Followed(all: seq<Ctor>, narrow: bool): seq<Ctor> {
    if narrow && all != [] then all[..1] else all
  }

  /** Following constructors from a type ends within `n` steps; the first constructors alone must also exist. */
  ghost predicate Founded(n: nat, narrow: bool, ty: Type, env: Env)
    decreases n, 0
  {
    match EnumerateCtors(ty, env)
    case None => true
    case Some(all) =>
      && n > 0 && (narrow ==> all != [])
      && forall c :: c in Followed(all, narrow) ==> AllFounded(n - 1, narrow, CtorFieldTypes(c, ty, env), env)
  }

  ghost predicate AllFounded(n: nat, narrow: bool, tys: seq<Type>, env: Env)
    decreases n, 1
  {
    forall i :: 0 <= i < |tys| ==> Founded(n, narrow, tys[i], env)
  }

  ghost predicate IsFounded(narrow: bool, ty: Type, env: Env) {
    exists n: nat :: Founded(n, narrow, ty, env)
  }

  /** Following constructors ends from every type reached from `ty`. */
  ghost predicate Grounded(narrow: bool, ty: Type, env: Env) {
    forall part :: Reaches(ty, part, env) ==> IsFounded(narrow, part, env)
  }

  ghost predicate AllGrounded(narrow: bool, tys: seq<Type>, env: Env) {
    forall i :: 0 <= i < |tys| ==> Grounded(narrow, tys[i], env)
  }

  /** No type reached from `ty` is without constructors. */
  ghost predicate NonVoid(ty: Type, env: Env) {
    forall part :: Reaches(ty, part, env) ==> EnumerateCtors(part, env) != Some([])
  }

  ghost predicate AllNonVoid(tys: seq<Type>, env: Env) {
    forall i :: 0 <= i < |tys| ==> NonVoid(tys[i], env)
  }

  lemma {:induction false} FoundedLonger(m: nat, n: nat, narrow: bool, ty: Type, env: Env)
    requires m <= n && Founded(m, narrow, ty, env)
    ensures Founded(n, narrow, ty, env)
    decreases m
  {
    hide CtorFieldTypes;
    match EnumerateCtors(ty, env)
    case None =>
    case Some(all) =>
      forall c, i | c in Followed(all, narrow) && 0 <= i < |CtorFieldTypes(c, ty, env)|
        ensures Founded(n - 1, narrow, CtorFieldTypes(c, ty, env)[i], env)
      {
        assert AllFounded(m - 1, narrow, CtorFieldTypes(c, ty, env), env);
        FoundedLonger(m - 1, n - 1, narrow, CtorFieldTypes(c, ty, env)[i], env);
      }
  }

  lemma AllFoundedLonger(m: nat, n: nat, narrow: bool, tys: seq<Type>, env: Env)
    requires m <= n && AllFounded(m, narrow, tys, env)
    ensures AllFounded(n, narrow, tys, env)
  {
    hide Founded;
    forall i | 0 <= i < |tys| ensures Founded(n, narrow, tys[i], env) {
      FoundedLonger(m, n, narrow, tys[i], env);
    }
  }

  lemma FieldsGrounded(c: Ctor, narrow: bool, ty: Type, env: Env)
    requires Grounded(narrow, ty, env) && CtorOf(c, ty, env)
    ensures AllGrounded(narrow, CtorFieldTypes(c, ty, env), env)
  {
    hide CtorOf, CtorFieldTypes, Reaches, IsFounded;
    var fields := CtorFieldTypes(c, ty, env);
    forall i, part | 0 <= i < |fields| && Reaches(fields[i], part, env) ensures IsFounded(narrow, part, env) {
      ReachesField(c, i, ty, part, env);
    }
  }

  lemma FieldsNonVoid(c: Ctor, ty: Type, env: Env)
    requires NonVoid(ty, env) && CtorOf(c, ty, env)
    ensures AllNonVoid(CtorFieldTypes(c, ty, env), env)
  {
    hide CtorOf, CtorFieldTypes, Reaches, EnumerateCtors;
    var fields := CtorFieldTypes(c, ty, env);
    forall i, part | 0 <= i < |fields| && Reaches(fields[i], part, env) ensures EnumerateCtors(part, env) != Some([]) {
      ReachesField(c, i, ty, part, env);
    }
  }

  lemma GroundedIsNonVoid(ty: Type, env: Env)
    requires Grounded(true, ty, env)
    ensures NonVoid(ty, env)
  {
    hide Reaches, EnumerateCtors;
    forall part | Reaches(ty, part, env) ensures EnumerateCtors(part, env) != Some([]) {
      var n: nat :| Founded(n, true, part, env);
    }
  }

  /** A chain of first constructors that ends builds a value. */
  lemma {:induction false} FoundedHasValue(n: nat, ty: Type, env: Env) returns (v: Value)
    requires Founded(n, true, ty, env)
    ensures HasType(v, ty, env)
    decreases n, 1
  {
    hide HasType, CtorFieldTypes;
    match EnumerateCtors(ty, env)
    case None =>
      v := FreshValue(ty, env, {});
    case Some(all) =>
      var c := all[0];
      assert c in Followed(all, true);
      var args := FoundedHaveValues(n - 1, CtorFieldTypes(c, ty, env), env);
      v := Built(c, args);
      BuiltHasType(c, args, ty, env);
  }

  lemma {:induction false} FoundedHaveValues(n: nat, tys: seq<Type>, env: Env) returns (vs: seq<Value>)
    requires AllFounded(n, true, tys, env)
    ensures HaveTypes(vs, tys, env)
    decreases n, 2, |tys|
  {
    hide HasType, Founded;
    vs := [];
    if tys != [] {
      var v := FoundedHasValue(n, tys[0], env);
      var more := FoundedHaveValues(n, tys[1..], env);
      vs := [v] + more;
      HaveTypesCons(v, more, tys, env);
    }
  }

  /** Grounded types are inhabited. */
  lemma GroundedIsInhabited(ty: Type, env: Env)
    requires Grounded(true, ty, env)
    ensures Inhabited(ty, env)
  {
    hide Reaches, HasType, Founded;
    forall part | Reaches(ty, part, env) ensures HasValue(part, env) {
      var n: nat :| Founded(n, true, part, env);
      var v := FoundedHasValue(n, part, env);
    }
  }

  // ---------- ending ----------

  ghost predicate Ends(fast: bool, rows: Matrix, q: seq<Pat>, tys: seq<Type>, env: Env)
    requires |q| == |tys|
  {
    exists depth: nat :: !Useful(depth, fast, rows, q, tys, env).Unfinished?
  }

  /** More room on the stack does not change an answer. */
  lemma {:induction false} MoreRoom(d: nat, e: nat, fast: bool, rows: Matrix, q: seq<Pat>, tys: seq<Type>, env: Env)
    requires d <= e && |q| == |tys| && !Useful(d, fast, rows, q, tys, env).Unfinished?
    ensures Useful(e, fast, rows, q, tys, env) == Useful(d, fast, rows, q, tys, env)
    decreases d, 0
  {
    hide EnumerateCtors, CtorFieldTypes, AllWild, Specialize, DefaultMatrix;
    if q != [] {
      var (head, rest, ty, restTys) := (q[0], q[1..], tys[0], tys[1..]);
      match head
      case Or(alts) =>
        MoreRoomAlts(d - 1, e - 1, fast, alts, rows, rest, ty, restTys, env);
      case Con(c, args) =>
        var fields := Resize(CtorFieldTypes(c, ty, env), |args|);
        MoreRoom(d - 1, e - 1, fast, Specialize(rows, c, |args|), args + rest, fields + restTys, env);
      case Wildcard =>
        if (fast && rows != [] && AllWild(rows)) || EnumerateCtors(ty, env).None? {
          MoreRoom(d - 1, e - 1, fast, DefaultMatrix(rows), rest, restTys, env);
        } else {
          MoreRoomCtors(d - 1, e - 1, fast, EnumerateCtors(ty, env).value, rows, rest, ty, restTys, env);
        }
    }
  }

  lemma {:induction false} MoreRoomAlts(
    d: nat, e: nat, fast: bool, alts: seq<Pat>, rows: Matrix, rest: seq<Pat>, ty: Type, restTys: seq<Type>, env: Env)
    requires d <= e && |rest| == |restTys| && !UsefulAlts(d, fast, alts, rows, rest, ty, restTys, env).Unfinished?
    ensures UsefulAlts(e, fast, alts, rows, rest, ty, restTys, env) ==
      UsefulAlts(d, fast, alts, rows, rest, ty, restTys, env)
    decreases d, 1 + |alts|
  {
    hide Useful;
    if alts != [] {
      MoreRoom(d, e, fast, rows, [alts[0]] + rest, [ty] + restTys, env);
      if Useful(d, fast, rows, [alts[0]] + rest, [ty] + restTys, env).Covered? {
        MoreRoomAlts(d, e, fast, alts[1..], rows, rest, ty, restTys, env);
      }
    }
  }

  lemma {:induction false} MoreRoomCtors(
    d: nat, e: nat, fast: bool, ctors: seq<Ctor>, rows: Matrix, rest: seq<Pat>, ty: Type, restTys: seq<Type>, env: Env)
    requires d <= e && |rest| == |restTys| && !UsefulCtors(d, fast, ctors, rows, rest, ty, restTys, env).Unfinished?
    ensures UsefulCtors(e, fast, ctors, rows, rest, ty, restTys, env) ==
      UsefulCtors(d, fast, ctors, rows, rest, ty, restTys, env)
    decreases d, 1 + |ctors|
  {
    hide Useful, CtorFieldTypes, Specialize;
    if ctors != [] {
      var fields := CtorFieldTypes(ctors[0], ty, env);
      var inner := Specialize(rows, ctors[0], |fields|);
      MoreRoom(d, e, fast, inner, Wildcards(|fields|) + rest, fields + restTys, env);
      if Useful(d, fast, inner, Wildcards(|fields|) + rest, fields + restTys, env).Covered? {
        MoreRoomCtors(d, e, fast, ctors[1..], rows, rest, ty, restTys, env);
      }
    }
  }

  lemma {:induction false} AltsEnd(
    fast: bool, alts: seq<Pat>, rows: Matrix, rest: seq<Pat>, ty: Type, restTys: seq<Type>, env: Env)
    returns (d: nat)
    requires |rest| == |restTys|
    requires forall i :: 0 <= i < |alts| ==> Ends(fast, rows, [alts[i]] + rest, [ty] + restTys, env)
    ensures !UsefulAlts(d, fast, alts, rows, rest, ty, restTys, env).Unfinished?
    decreases |alts|
  {
    hide Useful;
    d := 0;
    if alts != [] {
      assert Ends(fast, rows, [alts[0]] + rest, [ty] + restTys, env);
      var a: nat :| !Useful(a, fast, rows, [alts[0]] + rest, [ty] + restTys, env).Unfinished?;
      var b := AltsEnd(fast, alts[1..], rows, rest, ty, restTys, env);
      d := if a < b then b else a;
      MoreRoom(a, d, fast, rows, [alts[0]] + rest, [ty] + restTys, env);
      MoreRoomAlts(b, d, fast, alts[1..], rows, rest, ty, restTys, env);
    }
  }

  /** The query that opens a wildcard with one constructor. */
  ghost predicate OpenedEnds(
    fast: bool, c: Ctor, rows: Matrix, rest: seq<Pat>, ty: Type, restTys: seq<Type>, env: Env)
    requires |rest| == |restTys|
  {
    var fields := CtorFieldTypes(c, ty, env);
    Ends(fast, Specialize(rows, c, |fields|), Wildcards(|fields|) + rest, fields + restTys, env)
  }

  lemma {:induction false} CtorsEnd(
    fast: bool, ctors: seq<Ctor>, rows: Matrix, rest: seq<Pat>, ty: Type, restTys: seq<Type>, env: Env)
    returns (d: nat)
    requires |rest| == |restTys| && forall c :: c in ctors ==> OpenedEnds(fast, c, rows, rest, ty, restTys, env)
    ensures !UsefulCtors(d, fast, ctors, rows, rest, ty, restTys, env).Unfinished?
    decreases |ctors|
  {
    hide Useful, Specialize, CtorFieldTypes;
    d := 0;
    if ctors != [] {
      var fields := CtorFieldTypes(ctors[0], ty, env);
      var inner := Specialize(rows, ctors[0], |fields|);
      assert OpenedEnds(fast, ctors[0], rows, rest, ty, restTys, env);
      var a: nat :| !Useful(a, fast, inner, Wildcards(|fields|) + rest, fields + restTys, env).Unfinished?;
      var b := CtorsEnd(fast, ctors[1..], rows, rest, ty, restTys, env);
      d := if a < b then b else a;
      MoreRoom(a, d, fast, inner, Wildcards(|fields|) + rest, fields + restTys, env);
      MoreRoomCtors(b, d, fast, ctors[1..], rows, rest, ty, restTys, env);
    }
  }

  // ---------- grounded types end ----------

  /** An empty matrix covers nothing, where every type has a constructor. */
  lemma {:induction false} EmptyCoversNothing(depth: nat, fast: bool, q: seq<Pat>, tys: seq<Type>, env: Env)
    requires PatsOk(q, tys, env) && AllNonVoid(tys, env)
    ensures !Useful(depth, fast, [], q, tys, env).Covered?
    decreases depth, 0
  {
    hide NonVoid, CtorFieldTypes, CtorOf;
    if depth > 0 && q != [] {
      assert PatOk(q[0], tys[0], env) && PatsOk(q[1..], tys[1..], env);
      match q[0]
      case Or(alts) =>
        EmptyCoversNothing(depth - 1, fast, [alts[0]] + q[1..], [tys[0]] + tys[1..], env);
      case Con(c, args) =>
        FieldsNonVoid(c, tys[0], env);
        var fields := CtorFieldTypes(c, tys[0], env);
        EmptyCoversNothing(depth - 1, fast, args + q[1..], fields + tys[1..], env);
      case Wildcard =>
        match EnumerateCtors(tys[0], env) {
          case None =>
            EmptyCoversNothing(depth - 1, fast, q[1..], tys[1..], env);
          case Some(all) =>
            EmptyCtors(depth - 1, fast, all, q[1..], tys[0], tys[1..], env);
        }
    }
  }

  lemma {:induction false} EmptyCtors(
    depth: nat, fast: bool, all: seq<Ctor>, rest: seq<Pat>, ty: Type, restTys: seq<Type>, env: Env)
    requires EnumerateCtors(ty, env) == Some(all)
    requires PatsOk(rest, restTys, env) && NonVoid(ty, env) && AllNonVoid(restTys, env)
    ensures all != [] && !UsefulCtors(depth, fast, all, [], rest, ty, restTys, env).Covered?
    decreases depth, 1
  {
    hide NonVoid, CtorFieldTypes, EnumerateCtors, Useful, PatOk;
    HasCtor(ty, env);
    FieldsNonVoid(all[0], ty, env);
    var fields := CtorFieldTypes(all[0], ty, env);
    WildcardsOk(fields, env);
    PatsOkSplit(Wildcards(|fields|), rest, fields, restTys, env);
    EmptyCoversNothing(depth, fast, Wildcards(|fields|) + rest, fields + restTys, env);
  }

  lemma HasCtor(ty: Type, env: Env)
    requires NonVoid(ty, env)
    ensures EnumerateCtors(ty, env).Some? ==>
      EnumerateCtors(ty, env).value != [] && CtorOf(EnumerateCtors(ty, env).value[0], ty, env)
  {
    hide Reaches, EnumerateCtors;
    ReachesSelf(ty, env);
  }

  /** What is asked of the columns of a query. */
  ghost predicate Proper(narrow: bool, q: seq<Pat>, tys: seq<Type>, env: Env) {
    PatsOk(q, tys, env) && AllGrounded(narrow, tys, env)
  }

  /** The query ends on every matrix; in the narrow case, on those of at most weight `m`. */
  ghost predicate EndsOn(m: nat, narrow: bool, fast: bool, q: seq<Pat>, tys: seq<Type>, env: Env)
    requires |q| == |tys|
  {
    forall rows: Matrix :: (narrow ==> MatrixWeight(rows) <= m) ==> Ends(fast, rows, q, tys, env)
  }

  /** Wildcards at founded types end if what follows them does; in the narrow case, on the empty matrix. */
  lemma {:induction false} WildcardsEnd(
    n: nat, narrow: bool, fast: bool, fields: seq<Type>, rest: seq<Pat>, restTys: seq<Type>, env: Env)
    requires AllFounded(n, narrow, fields, env) && AllGrounded(narrow, fields, env)
    requires Proper(narrow, rest, restTys, env) && EndsOn(0, narrow, fast, rest, restTys, env)
    ensures EndsOn(0, narrow, fast, Wildcards(|fields|) + rest, fields + restTys, env)
    decreases n, |fields|
  {
    hide Useful, Founded, Grounded, PatOk, EnumerateCtors, CtorFieldTypes, MatrixWeight, Ends, Specialize;
    if fields == [] {
      assert Wildcards(0) + rest == rest && fields + restTys == restTys;
    } else {
      var ty, more := fields[0], fields[1..];
      WildcardsEnd(n, narrow, fast, more, rest, restTys, env);
      var q, tys := Wildcards(|more|) + rest, more + restTys;
      WildcardsProper(narrow, more, rest, restTys, env);
      assert Wildcards(|fields|) + rest == [Wildcard] + q && fields + restTys == [ty] + tys;
      forall rows: Matrix | narrow ==> MatrixWeight(rows) <= 0
        ensures Ends(fast, rows, [Wildcard] + q, [ty] + tys, env)
      {
        WildcardEnds(n, narrow, fast, rows, q, ty, tys, env);
      }
    }
  }

  lemma WildcardsProper(narrow: bool, fields: seq<Type>, rest: seq<Pat>, restTys: seq<Type>, env: Env)
    requires AllGrounded(narrow, fields, env) && Proper(narrow, rest, restTys, env)
    ensures Proper(narrow, Wildcards(|fields|) + rest, fields + restTys, env)
  {
    hide Grounded, PatOk;
    WildcardsOk(fields, env);
    PatsOkSplit(Wildcards(|fields|), rest, fields, restTys, env);
  }

  lemma {:induction false} WildcardEnds(
    n: nat, narrow: bool, fast: bool, rows: Matrix, q: seq<Pat>, ty: Type, tys: seq<Type>, env: Env)
    requires Founded(n, narrow, ty, env) && Grounded(narrow, ty, env) && (narrow ==> MatrixWeight(rows) == 0)
    requires Proper(narrow, q, tys, env) && EndsOn(0, narrow, fast, q, tys, env)
    ensures Ends(fast, rows, [Wildcard] + q, [ty] + tys, env)
    decreases n, 0
  {
    hide Useful, Grounded, PatOk, CtorFieldTypes, MatrixWeight, Specialize, Ends, PatsOk;
    PatsOkLength(q, tys, env);
    if (fast && rows != [] && AllWild(rows)) || EnumerateCtors(ty, env).None? {
      DefaultShrinks(rows);
      SkipEnds(fast, rows, q, ty, tys, env);
    } else {
      var all := EnumerateCtors(ty, env).value;
      forall c | c in Followed(all, narrow) ensures OpenedEnds(fast, c, rows, q, ty, tys, env) {
        var fields := CtorFieldTypes(c, ty, env);
        assert AllFounded(n - 1, narrow, fields, env);
        FieldsGrounded(c, narrow, ty, env);
        WildcardsEnd(n - 1, narrow, fast, fields, q, tys, env);
        SpecializeShrinks(rows, c, |fields|);
      }
      FollowedEnd(narrow, fast, all, rows, q, ty, tys, env);
    }
  }

  /** The steps of `Useful`, one at a time. */
  lemma SkipEnds(fast: bool, rows: Matrix, q: seq<Pat>, ty: Type, tys: seq<Type>, env: Env)
    requires |q| == |tys| && Ends(fast, DefaultMatrix(rows), q, tys, env)
    requires (fast && rows != [] && AllWild(rows)) || EnumerateCtors(ty, env).None?
    ensures Ends(fast, rows, [Wildcard] + q, [ty] + tys, env)
  {
    hide EnumerateCtors, DefaultMatrix, AllWild;
    var d: nat :| !Useful(d, fast, DefaultMatrix(rows), q, tys, env).Unfinished?;
    assert ([Wildcard] + q)[1..] == q && ([ty] + tys)[1..] == tys;
    assert !Useful(d + 1, fast, rows, [Wildcard] + q, [ty] + tys, env).Unfinished?;
  }

  lemma OpensEnd(d: nat, fast: bool, all: seq<Ctor>, rows: Matrix, q: seq<Pat>, ty: Type, tys: seq<Type>, env: Env)
    requires |q| == |tys| && !(fast && rows != [] && AllWild(rows)) && EnumerateCtors(ty, env) == Some(all)
    requires !UsefulCtors(d, fast, all, rows, q, ty, tys, env).Unfinished?
    ensures Ends(fast, rows, [Wildcard] + q, [ty] + tys, env)
  {
    hide EnumerateCtors, UsefulCtors, AllWild;
    assert ([Wildcard] + q)[1..] == q && ([ty] + tys)[1..] == tys;
    assert !Useful(d + 1, fast, rows, [Wildcard] + q, [ty] + tys, env).Unfinished?;
  }

  lemma ConEnds(
    fast: bool, c: Ctor, args: seq<Pat>, rows: Matrix, q: seq<Pat>, ty: Type, tys: seq<Type>, env: Env)
    requires |q| == |tys| && |args| == |CtorFieldTypes(c, ty, env)|
    requires Ends(fast, Specialize(rows, c, |args|), args + q, CtorFieldTypes(c, ty, env) + tys, env)
    ensures Ends(fast, rows, [Con(c, args)] + q, [ty] + tys, env)
  {
    hide CtorFieldTypes, Specialize;
    var fields := CtorFieldTypes(c, ty, env);
    var d: nat :| !Useful(d, fast, Specialize(rows, c, |args|), args + q, fields + tys, env).Unfinished?;
    assert ([Con(c, args)] + q)[1..] == q && ([ty] + tys)[1..] == tys;
    assert !Useful(d + 1, fast, rows, [Con(c, args)] + q, [ty] + tys, env).Unfinished?;
  }

  lemma OrEnds(fast: bool, alts: seq<Pat>, rows: Matrix, q: seq<Pat>, ty: Type, tys: seq<Type>, env: Env)
    requires |q| == |tys|
    requires forall i :: 0 <= i < |alts| ==> Ends(fast, rows, [alts[i]] + q, [ty] + tys, env)
    ensures Ends(fast, rows, [Or(alts)] + q, [ty] + tys, env)
  {
    hide UsefulAlts;
    var d := AltsEnd(fast, alts, rows, q, ty, tys, env);
    assert ([Or(alts)] + q)[1..] == q && ([ty] + tys)[1..] == tys;
    assert !Useful(d + 1, fast, rows, [Or(alts)] + q, [ty] + tys, env).Unfinished?;
  }

  /** It is enough that the followed constructors end: over the empty matrix the first one stops the search. */
  lemma {:induction false} FollowedEnd(
    narrow: bool, fast: bool, all: seq<Ctor>, rows: Matrix, q: seq<Pat>, ty: Type, tys: seq<Type>, env: Env)
    requires EnumerateCtors(ty, env) == Some(all) && !(fast && rows != [] && AllWild(rows))
    requires Grounded(narrow, ty, env) && Proper(narrow, q, tys, env) && (narrow ==> MatrixWeight(rows) == 0)
    requires forall c :: c in Followed(all, narrow) ==> OpenedEnds(fast, c, rows, q, ty, tys, env)
    ensures Ends(fast, rows, [Wildcard] + q, [ty] + tys, env)
  {
    hide Grounded, PatOk, EnumerateCtors, AllWild, OpenedEnds, Ends, Useful, UsefulCtors, NonVoid;
    PatsOkLength(q, tys, env);
    if narrow {
      assert rows == [];
      GroundedIsNonVoid(ty, env);
      forall i | 0 <= i < |tys| ensures NonVoid(tys[i], env) {
        GroundedIsNonVoid(tys[i], env);
      }
      HasCtor(ty, env);
      var d := CtorsEnd(fast, all[..1], [], q, ty, tys, env);
      FirstDecides(d, fast, all, q, ty, tys, env);
      OpensEnd(d, fast, all, rows, q, ty, tys, env);
    } else {
      var d := CtorsEnd(fast, all, rows, q, ty, tys, env);
      OpensEnd(d, fast, all, rows, q, ty, tys, env);
    }
  }

  lemma FirstDecides(d: nat, fast: bool, all: seq<Ctor>, q: seq<Pat>, ty: Type, tys: seq<Type>, env: Env)
    requires |q| == |tys| && all != [] && !UsefulCtors(d, fast, all[..1], [], q, ty, tys, env).Unfinished?
    requires PatsOk(q, tys, env) && NonVoid(ty, env) && AllNonVoid(tys, env)
    requires EnumerateCtors(ty, env) == Some(all)
    ensures !UsefulCtors(d, fast, all, [], q, ty, tys, env).Unfinished?
  {
    hide PatOk, EnumerateCtors, Useful, NonVoid, CtorFieldTypes;
    FieldsNonVoid(all[0], ty, env);
    var fields := CtorFieldTypes(all[0], ty, env);
    WildcardsOk(fields, env);
    PatsOkSplit(Wildcards(|fields|), q, fields, tys, env);
    EmptyCoversNothing(d, fast, Wildcards(|fields|) + q, fields + tys, env);
  }

  /** Patterns at grounded types end if what follows them does. */
  lemma {:induction false} PatternsEnd(
    m: nat, narrow: bool, fast: bool, ps: seq<Pat>, tys: seq<Type>, rest: seq<Pat>, restTys: seq<Type>, env: Env)
    requires (narrow ==> fast) && Proper(narrow, ps, tys, env) && Proper(narrow, rest, restTys, env)
    requires |rest| == |restTys| && EndsOn(m, narrow, fast, rest, restTys, env)
    ensures |ps| == |tys| && EndsOn(m, narrow, fast, ps + rest, tys + restTys, env)
    decreases m, ps, 0
  {
    hide Grounded, PatOk, EndsOn;
    PatsOkLength(ps, tys, env);
    if ps == [] {
      assert ps + rest == rest && tys + restTys == restTys;
    } else {
      PatternsEnd(m, narrow, fast, ps[1..], tys[1..], rest, restTys, env);
      ProperConcat(narrow, ps[1..], tys[1..], rest, restTys, env);
      PatternEnds(m, narrow, fast, ps[0], tys[0], ps[1..] + rest, tys[1..] + restTys, env);
      assert ps + rest == [ps[0]] + (ps[1..] + rest) && tys + restTys == [tys[0]] + (tys[1..] + restTys);
    }
  }

  lemma ProperConcat(narrow: bool, ps: seq<Pat>, tys: seq<Type>, rest: seq<Pat>, restTys: seq<Type>, env: Env)
    requires Proper(narrow, ps, tys, env) && Proper(narrow, rest, restTys, env)
    ensures Proper(narrow, ps + rest, tys + restTys, env)
  {
    hide Grounded, PatOk;
    PatsOkLength(ps, tys, env);
    PatsOkSplit(ps, rest, tys, restTys, env);
  }

  lemma {:induction false} PatternEnds(
    m: nat, narrow: bool, fast: bool, p: Pat, ty: Type, q: seq<Pat>, tys: seq<Type>, env: Env)
    requires (narrow ==> fast) && PatOk(p, ty, env) && Grounded(narrow, ty, env)
    requires Proper(narrow, q, tys, env) && |q| == |tys| && EndsOn(m, narrow, fast, q, tys, env)
    ensures EndsOn(m, narrow, fast, [p] + q, [ty] + tys, env)
    decreases m, p, 2
  {
    hide Grounded, CtorFieldTypes, Ends, MatrixWeight, Specialize, PatsOk, CtorOf;
    match p
    case Wildcard =>
      forall rows: Matrix | narrow ==> MatrixWeight(rows) <= m ensures Ends(fast, rows, [p] + q, [ty] + tys, env) {
        AnyWildcardEnds(m, narrow, fast, rows, ty, q, tys, env);
      }
    case Con(c, args) =>
      var fields := CtorFieldTypes(c, ty, env);
      FieldsGrounded(c, narrow, ty, env);
      ArgsProper(narrow, c, args, ty, env);
      PatternsEnd(m, narrow, fast, args, fields, q, tys, env);
      forall rows: Matrix | narrow ==> MatrixWeight(rows) <= m ensures Ends(fast, rows, [p] + q, [ty] + tys, env) {
        SpecializeShrinks(rows, c, |args|);
        ConEnds(fast, c, args, rows, q, ty, tys, env);
      }
    case Or(alts) =>
      forall i | 0 <= i < |alts| ensures EndsOn(m, narrow, fast, [alts[i]] + q, [ty] + tys, env) {
        PatternEnds(m, narrow, fast, alts[i], ty, q, tys, env);
      }
      forall rows: Matrix | narrow ==> MatrixWeight(rows) <= m ensures Ends(fast, rows, [p] + q, [ty] + tys, env) {
        OrEnds(fast, alts, rows, q, ty, tys, env);
      }
  }

  lemma ArgsProper(narrow: bool, c: Ctor, args: seq<Pat>, ty: Type, env: Env)
    requires PatOk(Con(c, args), ty, env) && Grounded(narrow, ty, env)
    ensures CtorOf(c, ty, env) && Proper(narrow, args, CtorFieldTypes(c, ty, env), env)
  {
    hide Grounded, CtorFieldTypes, CtorOf;
    FieldsGrounded(c, narrow, ty, env);
  }

  /** A wildcard in head position, over a matrix of any weight. */
  lemma {:induction false} AnyWildcardEnds(
    m: nat, narrow: bool, fast: bool, rows: Matrix, ty: Type, q: seq<Pat>, tys: seq<Type>, env: Env)
    requires (narrow ==> fast && MatrixWeight(rows) <= m) && Grounded(narrow, ty, env)
    requires Proper(narrow, q, tys, env) && |q| == |tys| && EndsOn(m, narrow, fast, q, tys, env)
    ensures Ends(fast, rows, [Wildcard] + q, [ty] + tys, env)
    decreases m, Wildcard, 1
  {
    hide Founded, CtorFieldTypes, Ends, Specialize, PatsOk, EnumerateCtors, Reaches, AllWild;
    if !narrow || rows == [] {
      ReachesSelf(ty, env);
      var n: nat :| Founded(n, narrow, ty, env);
      WildcardEnds(n, narrow, fast, rows, q, ty, tys, env);
    } else if AllWild(rows) || EnumerateCtors(ty, env).None? {
      DefaultShrinks(rows);
      SkipEnds(fast, rows, q, ty, tys, env);
    } else {
      var all := EnumerateCtors(ty, env).value;
      forall c | c in all ensures OpenedEnds(fast, c, rows, q, ty, tys, env) {
        SmallerEnds(m, fast, c, rows, ty, q, tys, env);
      }
      var d := CtorsEnd(fast, all, rows, q, ty, tys, env);
      OpensEnd(d, fast, all, rows, q, ty, tys, env);
    }
  }

  /** Opening a column that holds more than wildcards leaves a smaller matrix. */
  lemma {:induction false} SmallerEnds(
    m: nat, fast: bool, c: Ctor, rows: Matrix, ty: Type, q: seq<Pat>, tys: seq<Type>, env: Env)
    requires fast && MatrixWeight(rows) <= m && !AllWild(rows) && Grounded(true, ty, env) && CtorOf(c, ty, env)
    requires Proper(true, q, tys, env) && |q| == |tys| && EndsOn(m, true, fast, q, tys, env)
    ensures OpenedEnds(fast, c, rows, q, ty, tys, env)
    decreases m, Wildcard, 0
  {
    hide Grounded, CtorFieldTypes, Ends, Specialize, AllWild, MatrixWeight, CtorOf, PatOk;
    var fields := CtorFieldTypes(c, ty, env);
    SpecializeShrinks(rows, c, |fields|);
    FieldsGrounded(c, true, ty, env);
    WildcardsOk(fields, env);
    PatternsEnd(m - 1, true, fast, Wildcards(|fields|), fields, q, tys, env);
  }

  /**
    The recursion ends on every typed query: with the shortcut on, if all chains of first constructors end; with the
    shortcut on or off, if all chains of constructors end.
   */
  lemma GroundedEnds(narrow: bool, fast: bool, rows: Matrix, q: seq<Pat>, tys: seq<Type>, env: Env)
    requires (narrow ==> fast) && PatsOk(q, tys, env) && AllGrounded(narrow, tys, env)
    ensures |q| == |tys| && Ends(fast, rows, q, tys, env)
  {
    hide Grounded, PatOk;
    var m := MatrixWeight(rows);
    assert EndsOn(m, narrow, fast, [], [], env) by {
      forall other: Matrix ensures Ends(fast, other, [], [], env) {
        assert !Useful(1, fast, other, [], [], env).Unfinished?;
      }
    }
    PatternsEnd(m, narrow, fast, q, tys, [], [], env);
    assert q + [] == q && tys + [] == tys;
  }

  // ---------- what ends is grounded ----------

  lemma FirstIsFounded(n: nat, ty: Type, all: seq<Ctor>, env: Env)
    requires EnumerateCtors(ty, env) == Some(all) && all != [] && n > 0
    requires AllFounded(n - 1, true, CtorFieldTypes(all[0], ty, env), env)
    ensures Founded(n, true, ty, env)
  {
    hide EnumerateCtors, CtorFieldTypes;
  }

  lemma AllFoundedSplit(n: nat, a: seq<Type>, b: seq<Type>, env: Env)
    requires AllFounded(n, true, a + b, env)
    ensures AllFounded(n, true, a, env) && AllFounded(n, true, b, env)
  {
    hide Founded;
    assert forall i :: 0 <= i < |a| ==> (a + b)[i] == a[i];
    assert forall i :: 0 <= i < |b| ==> (a + b)[|a| + i] == b[i];
  }

  lemma WildcardsConcat(a: nat, b: nat)
    ensures Wildcards(a) + Wildcards(b) == Wildcards(a + b)
  {
  }

  /** An answer for wildcards over the empty matrix bounds the chains of first constructors. */
  lemma {:induction false} AnsweredIsFounded(depth: nat, fast: bool, tys: seq<Type>, env: Env)
    requires AllNonVoid(tys, env) && !Useful(depth, fast, [], Wildcards(|tys|), tys, env).Unfinished?
    ensures AllFounded(depth, true, tys, env)
    decreases depth
  {
    hide Founded, NonVoid, CtorFieldTypes, CtorOf, EnumerateCtors;
    if tys != [] {
      var ty, rest, n := tys[0], tys[1..], depth - 1;
      assert Wildcards(|tys|)[1..] == Wildcards(|rest|);
      match EnumerateCtors(ty, env)
      case None =>
        AnsweredIsFounded(n, fast, rest, env);
        AllFoundedLonger(n, depth, true, rest, env);
        OpenIsFounded(depth, ty, env);
        assert tys == [ty] + rest;
      case Some(all) =>
        HasCtor(ty, env);
        var fields := CtorFieldTypes(all[0], ty, env);
        WildcardsConcat(|fields|, |rest|);
        FieldsNonVoid(all[0], ty, env);
        AnsweredIsFounded(n, fast, fields + rest, env);
        AllFoundedSplit(n, fields, rest, env);
        FirstIsFounded(depth, ty, all, env);
        AllFoundedLonger(n, depth, true, rest, env);
        assert tys == [ty] + rest;
    }
  }

  lemma OpenIsFounded(n: nat, ty: Type, env: Env)
    requires EnumerateCtors(ty, env).None?
    ensures Founded(n, true, ty, env)
  {
  }

  /** Wildcards in front can be skipped over the empty matrix. */
  lemma {:induction false} SkipWildcards(
    depth: nat, fast: bool, front: seq<Type>, q: seq<Pat>, tys: seq<Type>, env: Env)
    requires |q| == |tys| && AllNonVoid(front, env)
    requires !Useful(depth, fast, [], Wildcards(|front|) + q, front + tys, env).Unfinished?
    ensures !Useful(depth, fast, [], q, tys, env).Unfinished?
    decreases depth
  {
    hide NonVoid, CtorFieldTypes, CtorOf, EnumerateCtors;
    if front == [] {
      assert Wildcards(0) + q == q && front + tys == tys;
    } else {
      var ty, rest, n := front[0], front[1..], depth - 1;
      assert Wildcards(|front|) + q == [Wildcard] + (Wildcards(|rest|) + q);
      assert (Wildcards(|front|) + q)[1..] == Wildcards(|rest|) + q && (front + tys)[1..] == rest + tys;
      match EnumerateCtors(ty, env)
      case None =>
        SkipWildcards(n, fast, rest, q, tys, env);
        MoreRoom(n, depth, fast, [], q, tys, env);
      case Some(all) =>
        HasCtor(ty, env);
        var fields := CtorFieldTypes(all[0], ty, env);
        FieldsNonVoid(all[0], ty, env);
        WildcardsConcat(|fields|, |rest|);
        assert Wildcards(|fields|) + (Wildcards(|rest|) + q) == Wildcards(|fields + rest|) + q;
        assert fields + (rest + tys) == (fields + rest) + tys;
        SkipWildcards(n, fast, fields + rest, q, tys, env);
        MoreRoom(n, depth, fast, [], q, tys, env);
    }
  }

  /** The first step on the way from a type to a part of it. */
  ghost function Way(n: nat, ty: Type, part: Type, env: Env): (r: (Ctor, nat))
    requires ReachesIn(n, ty, part, env) && ty != part
    ensures n > 0 && CtorOf(r.0, ty, env) && r.1 < |CtorFieldTypes(r.0, ty, env)|
    ensures ReachesIn(n - 1, CtorFieldTypes(r.0, ty, env)[r.1], part, env)
  {
    var c, i :|
      && CtorOf(c, ty, env) && 0 <= i < |CtorFieldTypes(c, ty, env)|
      && ReachesIn(n - 1, CtorFieldTypes(c, ty, env)[i], part, env);
    (c, i)
  }

  /** One field pattern, and wildcards for the other fields. */
  ghost function Around(i: nat, p: Pat, n: nat): (args: seq<Pat>)
    requires i < n
    ensures |args| == n && forall k :: 0 <= k < n ==> args[k] == if k == i then p else Wildcard
  {
    Wildcards(i) + [p] + Wildcards(n - i - 1)
  }

  /** A pattern that opens the way from a type to a part of it. */
  ghost function Probe(n: nat, ty: Type, part: Type, env: Env): Pat
    requires ReachesIn(n, ty, part, env)
  {
    if ty == part then Wildcard
    else
      var (c, i) := Way(n, ty, part, env);
      var fields := CtorFieldTypes(c, ty, env);
      Con(c, Around(i, Probe(n - 1, fields[i], part, env), |fields|))
  }

  lemma {:induction false} ProbeIsOk(n: nat, ty: Type, part: Type, env: Env)
    requires ReachesIn(n, ty, part, env)
    ensures PatOk(Probe(n, ty, part, env), ty, env)
  {
    hide CtorOf, CtorFieldTypes, ReachesIn, Way, Around;
    if ty != part {
      var (c, i) := Way(n, ty, part, env);
      ProbeIsOk(n - 1, CtorFieldTypes(c, ty, env)[i], part, env);
    }
  }

  /** An answer for a probe over the empty matrix bounds the chain from the part. */
  lemma {:induction false} ProbedIsFounded(
    depth: nat, fast: bool, n: nat, ty: Type, part: Type, tys: seq<Type>, env: Env)
    requires ReachesIn(n, ty, part, env) && NonVoid(ty, env) && AllNonVoid(tys, env)
    requires !Useful(depth, fast, [], [Probe(n, ty, part, env)] + Wildcards(|tys|), [ty] + tys, env).Unfinished?
    ensures Founded(depth, true, part, env)
    decreases n
  {
    hide NonVoid, CtorFieldTypes, CtorOf, ReachesIn, Founded, Useful, Way, Around;
    if ty == part {
      assert [Wildcard] + Wildcards(|tys|) == Wildcards(|[ty] + tys|);
      AnsweredIsFounded(depth, fast, [ty] + tys, env);
      assert ([ty] + tys)[0] == ty;
    } else {
      var (c, i) := Way(n, ty, part, env);
      var fields := CtorFieldTypes(c, ty, env);
      var inner := Probe(n - 1, fields[i], part, env);
      FieldsNonVoid(c, ty, env);
      Opened(depth, fast, c, Around(i, inner, |fields|), Wildcards(|tys|), ty, tys, env);
      AroundSkipped(depth - 1, fast, i, inner, fields, tys, env);
      ProbedIsFounded(depth - 1, fast, n - 1, fields[i], part, fields[i + 1..] + tys, env);
      FoundedLonger(depth - 1, depth, true, part, env);
    }
  }

  lemma AroundSkipped(depth: nat, fast: bool, i: nat, p: Pat, fields: seq<Type>, tys: seq<Type>, env: Env)
    requires i < |fields| && AllNonVoid(fields, env)
    requires !Useful(depth, fast, [], Around(i, p, |fields|) + Wildcards(|tys|), fields + tys, env).Unfinished?
    ensures var after := fields[i + 1..] + tys;
      !Useful(depth, fast, [], [p] + Wildcards(|after|), [fields[i]] + after, env).Unfinished?
  {
    hide NonVoid, Useful;
    var after := fields[i + 1..] + tys;
    WildcardsConcat(|fields| - i - 1, |tys|);
    assert Around(i, p, |fields|) + Wildcards(|tys|) == Wildcards(|fields[..i]|) + ([p] + Wildcards(|after|));
    assert fields + tys == fields[..i] + ([fields[i]] + after);
    SkipWildcards(depth, fast, fields[..i], [p] + Wildcards(|after|), [fields[i]] + after, env);
  }

  lemma Opened(
    depth: nat, fast: bool, c: Ctor, args: seq<Pat>, rest: seq<Pat>, ty: Type, tys: seq<Type>, env: Env)
    requires |rest| == |tys| && |args| == |CtorFieldTypes(c, ty, env)|
    requires !Useful(depth, fast, [], [Con(c, args)] + rest, [ty] + tys, env).Unfinished?
    ensures depth > 0 && !Useful(depth - 1, fast, [], args + rest, CtorFieldTypes(c, ty, env) + tys, env).Unfinished?
  {
    hide CtorFieldTypes;
    assert ([Con(c, args)] + rest)[1..] == rest && ([ty] + tys)[1..] == tys;
  }

  /** The recursion ends on every typed pattern and every matrix exactly if all chains of first constructors end. */
  lemma EndsExactlyIfGrounded(ty: Type, env: Env)
    requires NonVoid(ty, env)
    ensures Grounded(true, ty, env) <==>
      forall rows: Matrix, p :: PatOk(p, ty, env) ==> Ends(true, rows, [p], [ty], env)
  {
    hide NonVoid, Grounded, PatOk, Ends;
    if Grounded(true, ty, env) {
      forall rows: Matrix, p | PatOk(p, ty, env) ensures Ends(true, rows, [p], [ty], env) {
        GroundedEnds(true, true, rows, [p], [ty], env);
      }
    }
    if forall rows: Matrix, p :: PatOk(p, ty, env) ==> Ends(true, rows, [p], [ty], env) {
      AllEndIsGrounded(ty, env);
    }
  }

  lemma AllEndIsGrounded(ty: Type, env: Env)
    requires NonVoid(ty, env)
    requires forall p :: PatOk(p, ty, env) ==> Ends(true, [], [p], [ty], env)
    ensures Grounded(true, ty, env)
  {
    hide NonVoid, PatOk, Founded, ReachesIn;
    forall part | Reaches(ty, part, env) ensures IsFounded(true, part, env) {
      var n: nat :| ReachesIn(n, ty, part, env);
      ProbeIsOk(n, ty, part, env);
      var p := Probe(n, ty, part, env);
      assert Ends(true, [], [p], [ty], env);
      var depth: nat :| !Useful(depth, true, [], [p], [ty], env).Unfinished?;
      assert [p] + Wildcards(0) == [p] && [ty] + [] == [ty];
      ProbedIsFounded(depth, true, n, ty, part, [], env);
    }
  }

  // ---------- the order of the variants matters ----------

  const CONS: Variant := ("Cons", TupleVariant([TupleType([IntType, Named("List")])]))
  const NIL: Variant := ("Nil", UnitVariant)

  /** A list whose elements are held in pairs, with either variant declared first. */
  function ListEnv(consFirst: bool): Env {
    Env(map["List" := if consFirst then [CONS, NIL] else [NIL, CONS]], map[])
  }

  lemma FirstUnfinished(depth: nat, rows: Matrix, c: Ctor, fields: seq<Type>, ty: Type, env: Env)
    requires !(rows != [] && AllWild(rows)) && fields == CtorFieldTypes(c, ty, env)
    requires EnumerateCtors(ty, env).Some? && [c] <= EnumerateCtors(ty, env).value
    requires depth > 0 ==>
      Useful(depth - 1, true, Specialize(rows, c, |fields|), Wildcards(|fields|), fields, env) == Unfinished
    ensures Useful(depth, true, rows, [Wildcard], [ty], env) == Unfinished
  {
    hide CtorFieldTypes, EnumerateCtors, Specialize, AllWild;
    assert [Wildcard][1..] == [] && [ty][1..] == [];
    assert Wildcards(|fields|) + [] == Wildcards(|fields|) && fields + [] == fields;
  }

  /** From a list with `Cons` first, the recursion over the empty matrix comes back to the list, whatever the room. */
  lemma {:induction false} ConsFirstLoops(depth: nat)
    ensures Useful(depth, true, [], [Wildcard], [Named("List")], ListEnv(true)) == Unfinished
  {
    hide Useful, ListEnv;
    var env, list, pair := ListEnv(true), Named("List"), TupleType([IntType, Named("List")]);
    ListFacts(true);
    assert Wildcards(1) == [Wildcard] && Wildcards(2) == [Wildcard, Wildcard];
    if depth > 0 {
      if depth > 1 {
        PairUnfinished(depth - 2);
      }
      FirstUnfinished(depth - 1, [], TupleCtor, [IntType, list], pair, env);
    }
    FirstUnfinished(depth, [], VariantCtor("Cons"), [pair], list, env);
  }

  lemma {:induction false} PairUnfinished(depth: nat)
    ensures Useful(depth, true, [], [Wildcard, Wildcard], [IntType, Named("List")], ListEnv(true)) == Unfinished
  {
    if depth > 0 {
      ConsFirstLoops(depth - 1);
      assert [Wildcard, Wildcard][1..] == [Wildcard] && [IntType, Named("List")][1..] == [Named("List")];
    }
  }

  lemma ListFacts(consFirst: bool)
    ensures EnumerateCtors(Named("List"), ListEnv(consFirst)) ==
      Some(if consFirst then [VariantCtor("Cons"), VariantCtor("Nil")] else [VariantCtor("Nil"), VariantCtor("Cons")])
    ensures CtorFieldTypes(VariantCtor("Cons"), Named("List"), ListEnv(consFirst)) ==
      [TupleType([IntType, Named("List")])]
    ensures CtorFieldTypes(VariantCtor("Nil"), Named("List"), ListEnv(consFirst)) == []
  {
    var variants := ListEnv(consFirst).enums["List"];
    assert variants[1..][0] == if consFirst then NIL else CONS;
    assert VariantCtors(variants) == [VariantCtor(variants[0].0), VariantCtor(variants[1].0)];
    assert PayloadTypes(CONS.1) == [TupleType([IntType, Named("List")])];
  }

  /** With `Cons` declared first, a match with only a `Nil` arm is never answered. */
  lemma ConsFirstNeverEnds(depth: nat)
    ensures var nilArm := [Con(VariantCtor("Nil"), [])];
      Useful(depth, true, [nilArm], [Wildcard], [Named("List")], ListEnv(true)) == Unfinished
  {
    hide Useful, ListEnv;
    var env, list, pair := ListEnv(true), Named("List"), TupleType([IntType, Named("List")]);
    ListFacts(true);
    assert Wildcards(1) == [Wildcard] && Wildcards(2) == [Wildcard, Wildcard];
    if depth > 0 {
      if depth > 1 {
        PairUnfinished(depth - 2);
      }
      FirstUnfinished(depth - 1, [], TupleCtor, [IntType, list], pair, env);
    }
    var row := [Con(VariantCtor("Nil"), [])];
    assert [row][0] == row && [row][1..] == [] && |"Nil"| != |"Cons"|;
    assert Specialize([row], VariantCtor("Cons"), 1) == [];
    FirstUnfinished(depth, [row], VariantCtor("Cons"), [pair], list, env);
  }

  /** Every field type of a type in the set is in the set. */
  ghost predicate Closed(types: set<Type>, env: Env) {
    forall t, c, i ::
      t in types && CtorOf(c, t, env) && 0 <= i < |CtorFieldTypes(c, t, env)| ==> CtorFieldTypes(c, t, env)[i] in types
  }

  lemma {:induction false} ReachesWithin(n: nat, ty: Type, part: Type, types: set<Type>, env: Env)
    requires ReachesIn(n, ty, part, env) && ty in types && Closed(types, env)
    ensures part in types
  {
    hide CtorOf, CtorFieldTypes;
    if ty != part {
      var (c, i) := Way(n, ty, part, env);
      ReachesWithin(n - 1, CtorFieldTypes(c, ty, env)[i], part, types, env);
    }
  }

  /** With `Nil` declared first, the same type is grounded: every query on it is answered. */
  lemma NilFirstIsGrounded()
    ensures Grounded(true, Named("List"), ListEnv(false))
  {
    hide ListEnv, EnumerateCtors, CtorOf, Closed, ReachesIn;
    var env, list, pair := ListEnv(false), Named("List"), TupleType([IntType, Named("List")]);
    ListIsFounded();
    ListIsClosed();
    forall part | Reaches(list, part, env) ensures IsFounded(true, part, env) {
      var n: nat :| ReachesIn(n, list, part, env);
      ReachesWithin(n, list, part, {list, pair, IntType}, env);
    }
  }

  lemma ListIsClosed()
    ensures Closed({Named("List"), TupleType([IntType, Named("List")]), IntType}, ListEnv(false))
  {
    hide ListEnv;
    ListFacts(false);
  }

  lemma ListIsFounded()
    ensures Founded(1, true, Named("List"), ListEnv(false)) && Founded(0, true, IntType, ListEnv(false))
    ensures Founded(2, true, TupleType([IntType, Named("List")]), ListEnv(false))
  {
    hide ListEnv;
    ListFacts(false);
    FoundedLonger(0, 1, true, IntType, ListEnv(false));
  }
}
