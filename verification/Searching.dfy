/**
  When the usefulness recursion ends, over any types.

  With rows, every step shrinks the matrix or the query; without rows, a wildcard starts a search. So the recursion
  ends on every matrix and pattern of a type exactly if every search it can come to ends.
 */
module Searching {
  import opened Basics
  import opened Patterns
  import opened Matrices
  import opened TypeParts
  import opened Usefulness
  import opened MatrixWeights
  import opened Termination
  import opened Misleading
  import opened Searches

  // ---------- the searches the recursion can come to ----------

  /**
    From columns `tys`, over a matrix with rows if `full` holds, at most `n` steps lead to the empty matrix over `us`.
    A column is skipped if there are rows to show for it, or if it has a value; a constructor that is opened leaves no
    row if all rows have another one.
   */
  ghost predicate ComesTo(n: nat, full: bool, tys: seq<Type>, us: seq<Type>, env: Env)
    decreases n, 0
  {
    || (!full && tys == us)
    || (n > 0 && tys != [] &&
        (|| ((full || HasValue(tys[0], env)) && ComesTo(n - 1, full, tys[1..], us, env))
         || exists c :: CtorOf(c, tys[0], env) && Opens(n - 1, full, c, tys, us, env)))
  }

  ghost predicate Opens(n: nat, full: bool, c: Ctor, tys: seq<Type>, us: seq<Type>, env: Env)
    requires tys != []
    decreases n, 1
  {
    || ComesTo(n, full, OpenedTypes(c, tys, env), us, env)
    || (full && ComesTo(n, false, OpenedTypes(c, tys, env), us, env) && exists d :: CtorOf(d, tys[0], env) && d != c)
  }

  /** The searches of the first column end: those that may succeed, and those that may be in vain. */
  ghost predicate Searched(us: seq<Type>, env: Env)
    requires us != []
  {
    && (AllHaveValue(us[1..], env) ==> CanSearch(us[0], true, env))
    && (!AllInhabited(us[1..], env) ==> CanSearch(us[0], false, env))
  }

  ghost predicate AllSearched(full: bool, tys: seq<Type>, env: Env) {
    forall n: nat, us :: ComesTo(n, full, tys, us, env) && us != [] ==> Searched(us, env)
  }

  /** Every search the recursion can come to from one column of type `ty` ends. */
  ghost predicate Searchable(ty: Type, env: Env) {
    AllSearched(false, [ty], env) && AllSearched(true, [ty], env)
  }

  // ---------- patterns that can be matched ----------

  /** A typed pattern matches some value, where all types met have values. */
  lemma {:induction false} SomeMatch(p: Pat, ty: Type, env: Env) returns (v: Value)
    requires PatOk(p, ty, env) && Inhabited(ty, env)
    ensures HasType(v, ty, env) && Matches(p, v)
    decreases p, 0
  {
    hide CtorFieldTypes, CtorOf, Inhabited;
    match p
    case Wildcard =>
      assert HasValue(ty, env) by {
        InhabitedSelf(ty, env);
      }
      v :| HasType(v, ty, env);
    case Or(alts) =>
      v := SomeMatch(alts[0], ty, env);
    case Con(c, args) =>
      var fields := CtorFieldTypes(c, ty, env);
      FieldsInhabited(c, ty, env);
      var vs := SomeMatches(args, fields, env);
      v := Built(c, vs);
  }

  lemma InhabitedSelf(ty: Type, env: Env)
    requires Inhabited(ty, env)
    ensures HasValue(ty, env)
  {
    hide Reaches, HasValue;
    ReachesSelf(ty, env);
  }

  lemma {:induction false} SomeMatches(ps: seq<Pat>, tys: seq<Type>, env: Env) returns (vs: seq<Value>)
    requires PatsOk(ps, tys, env) && AllInhabited(tys, env)
    ensures HaveTypes(vs, tys, env) && MatchesAll(ps, vs)
    decreases ps, 1
  {
    hide PatOk, Inhabited, HasType, Matches;
    vs := [];
    if ps != [] {
      var v := SomeMatch(ps[0], tys[0], env);
      var more := SomeMatches(ps[1..], tys[1..], env);
      vs := [v] + more;
    }
  }

  /** A value that a probe matches holds a value of the probed part. */
  lemma {:induction false} ProbedHasValue(n: nat, ty: Type, part: Type, env: Env, v: Value)
    requires ReachesIn(n, ty, part, env) && HasType(v, ty, env) && Matches(Probe(n, ty, part, env), v)
    ensures HasValue(part, env)
    decreases n
  {
    hide CtorOf, CtorFieldTypes, ReachesIn, Way, Around;
    if ty != part {
      var (c, i) := Way(n, ty, part, env);
      var fields := CtorFieldTypes(c, ty, env);
      var inner := Probe(n - 1, fields[i], part, env);
      var args := Around(i, inner, |fields|);
      assert args[i] == inner && Matches(args[i], v.args[i]);
      ProbedHasValue(n - 1, fields[i], part, env, v.args[i]);
    }
  }

  /** Columns with a part without values have typed patterns that nothing matches. */
  lemma {:induction false} Unmatchable(tys: seq<Type>, env: Env) returns (q: seq<Pat>)
    requires !AllInhabited(tys, env)
    ensures PatsOk(q, tys, env) && !Matchable(q, tys, env)
  {
    hide HasValue, ReachesIn, PatOk, HasType, Matches;
    var i :| 0 <= i < |tys| && !Inhabited(tys[i], env);
    var part :| Reaches(tys[i], part, env) && !HasValue(part, env);
    var n: nat :| ReachesIn(n, tys[i], part, env);
    var probe := Probe(n, tys[i], part, env);
    ProbeIsOk(n, tys[i], part, env);
    WildcardsOk(tys, env);
    q := Wildcards(|tys|)[i := probe];
    forall vs | HaveTypes(vs, tys, env) && MatchesAll(q, vs) ensures false {
      assert HasType(vs[i], tys[i], env) && Matches(q[i], vs[i]);
      ProbedHasValue(n, tys[i], part, env, vs[i]);
    }
  }

  // ---------- where all searches end, the recursion ends ----------

  lemma SkipSearched(full: bool, tys: seq<Type>, env: Env)
    requires tys != [] && AllSearched(full, tys, env) && (full || HasValue(tys[0], env))
    ensures AllSearched(full, tys[1..], env)
  {
    hide HasValue, Searched, CtorOf;
    forall n: nat, us | ComesTo(n, full, tys[1..], us, env) && us != [] ensures Searched(us, env) {
      assert ComesTo(n + 1, full, tys, us, env);
    }
  }

  lemma OpenSearched(full: bool, c: Ctor, tys: seq<Type>, env: Env)
    requires tys != [] && AllSearched(full, tys, env) && CtorOf(c, tys[0], env)
    ensures AllSearched(full, OpenedTypes(c, tys, env), env)
    ensures full && (exists d :: CtorOf(d, tys[0], env) && d != c) ==> AllSearched(false, OpenedTypes(c, tys, env), env)
  {
    hide HasValue, Searched, CtorOf, OpenedTypes;
    forall n: nat, us | ComesTo(n, full, OpenedTypes(c, tys, env), us, env) && us != [] ensures Searched(us, env) {
      assert Opens(n, full, c, tys, us, env);
      assert ComesTo(n + 1, full, tys, us, env);
    }
    if full && exists d :: CtorOf(d, tys[0], env) && d != c {
      forall n: nat, us | ComesTo(n, false, OpenedTypes(c, tys, env), us, env) && us != [] ensures Searched(us, env) {
        assert Opens(n, full, c, tys, us, env);
        assert ComesTo(n + 1, full, tys, us, env);
      }
    }
  }

  lemma OpenedSearched(rows: Matrix, c: Ctor, tys: seq<Type>, env: Env)
    requires tys != [] && RowsOk(rows, tys, env) && AllSearched(rows != [], tys, env) && CtorOf(c, tys[0], env)
    ensures AllSearched(
      Specialize(rows, c, |CtorFieldTypes(c, tys[0], env)|) != [], OpenedTypes(c, tys, env), env)
  {
    hide CtorOf, CtorFieldTypes, PatOk, AllSearched;
    var arity := |CtorFieldTypes(c, tys[0], env)|;
    OpenSearched(rows != [], c, tys, env);
    if rows != [] && Specialize(rows, c, arity) == [] {
      assert PatsOk(rows[0], tys, env);
      var d := Emptied(rows[0][0], rows[0][1..], c, arity, tys[0], env);
    }
  }

  lemma DefaultSearched(rows: Matrix, tys: seq<Type>, env: Env)
    requires tys != [] && RowsOk(rows, tys, env) && rows != [] && AllSearched(true, tys, env)
    requires AllWild(rows) || EnumerateCtors(tys[0], env).None?
    ensures AllSearched(DefaultMatrix(rows) != [], tys[1..], env)
  {
    hide CtorOf, EnumerateCtors, PatOk, AllSearched, HasValue;
    SkipSearched(true, tys, env);
    if DefaultMatrix(rows) == [] {
      assert PatsOk(rows[0], tys, env);
      var c := EmptiedByDefault(rows[0][0], rows[0][1..], tys[0], env);
      var d := AnotherLiteral(c, tys[0], env);
      LiteralFields(c, tys, env);
      OpenSearched(true, c, tys, env);
    }
  }

  lemma {:induction false} AltLighter(alts: seq<Pat>, i: nat, rest: seq<Pat>)
    requires i < |alts|
    ensures RowWeight([alts[i]] + rest) < RowWeight([Or(alts)] + rest)
  {
    var a, b := PatWeight(alts[i]), RowWeight(rest);
    AltWeight(alts, i);
    assert ([alts[i]] + rest)[1..] == rest && ([Or(alts)] + rest)[1..] == rest;
    TimesSum(a, AltsWeight(alts) - a, b);
  }

  lemma {:induction false} AltWeight(alts: seq<Pat>, i: nat)
    requires i < |alts|
    ensures PatWeight(alts[i]) <= AltsWeight(alts)
  {
    if i > 0 {
      AltWeight(alts[1..], i - 1);
    }
  }

  lemma ArgsLighter(c: Ctor, args: seq<Pat>, rest: seq<Pat>)
    ensures RowWeight(args + rest) < RowWeight([Con(c, args)] + rest)
  {
    RowWeightConcat(args, rest);
    assert ([Con(c, args)] + rest)[1..] == rest;
  }

  lemma RestNoHeavier(rest: seq<Pat>)
    ensures RowWeight(rest) <= RowWeight([Wildcard] + rest)
  {
    assert ([Wildcard] + rest)[1..] == rest;
  }

  lemma {:induction false} TypedEnds(rows: Matrix, q: seq<Pat>, tys: seq<Type>, env: Env)
    requires PatsOk(q, tys, env) && RowsOk(rows, tys, env) && AllSearched(rows != [], tys, env)
    ensures |q| == |tys| && Ends(true, rows, q, tys, env)
    decreases MatrixWeight(rows), RowWeight(q), |q|, 2
  {
    hide CtorOf, CtorFieldTypes, EnumerateCtors, PatOk, RowsOk, AllSearched, Ends, MatrixWeight, RowWeight, Specialize,
      DefaultMatrix, AllWild;
    PatsOkLength(q, tys, env);
    if q == [] {
      NoColumnsEnd(rows, env);
    } else {
      assert q == [q[0]] + q[1..] && tys == [tys[0]] + tys[1..];
      HeadEnds(rows, q[0], q[1..], tys, env);
    }
  }

  lemma NoColumnsEnd(rows: Matrix, env: Env)
    ensures Ends(true, rows, [], [], env)
  {
    assert !Useful(1, true, rows, [], [], env).Unfinished?;
  }

  lemma {:induction false} HeadEnds(rows: Matrix, head: Pat, rest: seq<Pat>, tys: seq<Type>, env: Env)
    requires tys != [] && PatOk(head, tys[0], env) && PatsOk(rest, tys[1..], env) && |rest| == |tys[1..]|
    requires RowsOk(rows, tys, env) && AllSearched(rows != [], tys, env)
    ensures Ends(true, rows, [head] + rest, tys, env)
    decreases MatrixWeight(rows), RowWeight([head] + rest), |rest| + 1, 1
  {
    hide CtorOf, CtorFieldTypes, EnumerateCtors, PatsOk, RowsOk, AllSearched, Ends, MatrixWeight, RowWeight, Specialize,
      DefaultMatrix, AllWild;
    assert [tys[0]] + tys[1..] == tys;
    match head
    case Or(alts) =>
      forall i | 0 <= i < |alts| ensures Ends(true, rows, [alts[i]] + rest, tys, env) {
        AltLighter(alts, i, rest);
        HeadEnds(rows, alts[i], rest, tys, env);
      }
      OrEnds(true, alts, rows, rest, tys[0], tys[1..], env);
    case Con(c, args) =>
      ArgsLighter(c, args, rest);
      SpecializeShrinks(rows, c, |args|);
      ArgsOk(c, args, tys[0], env);
      OpenedEnd(rows, c, args, rest, tys, env);
      ConEnds(true, c, args, rows, rest, tys[0], tys[1..], env);
    case Wildcard =>
      if rows == [] {
        SearchedEnds(rest, tys, env);
      } else if AllWild(rows) || EnumerateCtors(tys[0], env).None? {
        RestNoHeavier(rest);
        DefaultShrinks(rows);
        DefaultOk(rows, tys, env);
        DefaultSearched(rows, tys, env);
        TypedEnds(DefaultMatrix(rows), rest, tys[1..], env);
        SkipEnds(true, rows, rest, tys[0], tys[1..], env);
      } else {
        TriedEnds(rows, rest, tys, env);
      }
  }

  lemma ArgsOk(c: Ctor, args: seq<Pat>, ty: Type, env: Env)
    requires PatOk(Con(c, args), ty, env)
    ensures CtorOf(c, ty, env) && PatsOk(args, CtorFieldTypes(c, ty, env), env)
  {
  }

  lemma {:induction false} OpenedEnd(
    rows: Matrix, c: Ctor, args: seq<Pat>, rest: seq<Pat>, tys: seq<Type>, env: Env)
    requires tys != [] && CtorOf(c, tys[0], env) && PatsOk(args, CtorFieldTypes(c, tys[0], env), env)
    requires |args| == |CtorFieldTypes(c, tys[0], env)| && |rest| == |tys[1..]|
    requires PatsOk(rest, tys[1..], env) && RowsOk(rows, tys, env) && AllSearched(rows != [], tys, env)
    ensures Ends(true, Specialize(rows, c, |args|), args + rest, CtorFieldTypes(c, tys[0], env) + tys[1..], env)
    decreases MatrixWeight(Specialize(rows, c, |args|)), RowWeight(args + rest), |args + rest|, 3
  {
    hide CtorOf, CtorFieldTypes, PatsOk, RowsOk, AllSearched, Ends, MatrixWeight, RowWeight, Specialize;
    SpecializeOk(rows, c, tys, env);
    OpenedSearched(rows, c, tys, env);
    PatsOkSplit(args, rest, CtorFieldTypes(c, tys[0], env), tys[1..], env);
    TypedEnds(Specialize(rows, c, |args|), args + rest, OpenedTypes(c, tys, env), env);
  }

  /** A wildcard over rows of which some start with a constructor. */
  lemma {:induction false} TriedEnds(rows: Matrix, rest: seq<Pat>, tys: seq<Type>, env: Env)
    requires tys != [] && PatsOk(rest, tys[1..], env) && |rest| == |tys[1..]| && EnumerateCtors(tys[0], env).Some?
    requires rows != [] && !AllWild(rows) && RowsOk(rows, tys, env) && AllSearched(true, tys, env)
    ensures Ends(true, rows, [Wildcard] + rest, tys, env)
    decreases MatrixWeight(rows), 0, 0, 0
  {
    hide CtorFieldTypes, PatsOk, RowsOk, AllSearched, Ends, MatrixWeight, Specialize, AllWild, EnumerateCtors;
    var all := EnumerateCtors(tys[0], env).value;
    forall c | c in all ensures OpenedEnds(true, c, rows, rest, tys[0], tys[1..], env) {
      var fields := CtorFieldTypes(c, tys[0], env);
      SpecializeShrinks(rows, c, |fields|);
      WildcardsOk(fields, env);
      OpenedEnd(rows, c, Wildcards(|fields|), rest, tys, env);
    }
    var d := CtorsEnd(true, all, rows, rest, tys[0], tys[1..], env);
    OpensEnd(d, true, all, rows, rest, tys[0], tys[1..], env);
    assert [tys[0]] + tys[1..] == tys;
  }

  /** A wildcard over the empty matrix. */
  lemma {:induction false} SearchedEnds(rest: seq<Pat>, tys: seq<Type>, env: Env)
    requires tys != [] && PatsOk(rest, tys[1..], env) && |rest| == |tys[1..]| && AllSearched(false, tys, env)
    ensures Ends(true, [], [Wildcard] + rest, tys, env)
    decreases MatrixWeight([]), RowWeight([Wildcard] + rest), |rest| + 1, 0
  {
    hide PatOk, RowWeight, Ends, Matchable, HasValue, SearchesIn, ComesTo;
    assert ComesTo(0, false, tys, tys, env) by {
      ComesHere(tys, env);
    }
    assert Searched(tys, env);
    MatchableIsSearched(rest, tys[1..], env);
    var n: nat :| SearchesIn(n, [tys[0]], Matchable(rest, tys[1..], env), env);
    if AllHaveValue([tys[0]], env) {
      assert HasValue([tys[0]][0], env);
      SkipSearched(false, tys, env);
      RestNoHeavier(rest);
      TypedEnds([], rest, tys[1..], env);
    }
    SearchEnds(n, [tys[0]], rest, tys[1..], env);
    assert Wildcards(1) == [Wildcard] && [tys[0]] + tys[1..] == tys;
  }

  lemma ComesHere(tys: seq<Type>, env: Env)
    ensures ComesTo(0, false, tys, tys, env)
  {
  }

  lemma MatchableIsSearched(q: seq<Pat>, tys: seq<Type>, env: Env)
    requires PatsOk(q, tys, env)
    ensures Matchable(q, tys, env) ==> AllHaveValue(tys, env)
    ensures !Matchable(q, tys, env) ==> !AllInhabited(tys, env)
  {
    hide PatOk, HasType, Matches, Inhabited;
    if vs :| HaveTypes(vs, tys, env) && MatchesAll(q, vs) {
      assert forall i :: 0 <= i < |tys| ==> HasType(vs[i], tys[i], env);
    }
    if AllInhabited(tys, env) {
      var vs := SomeMatches(q, tys, env);
    }
  }

  // ---------- a search that does not end, and a query that comes to it ----------

  /** Wildcards in front of a query, at types with values: the query is answered with them. */
  lemma {:induction false} FrontEnds(depth: nat, tys: seq<Type>, q: seq<Pat>, behind: seq<Type>, env: Env)
    requires PatsOk(q, behind, env) && |q| == |behind| && AllHaveValue(tys, env)
    requires !Useful(depth, true, [], Wildcards(|tys|) + q, tys + behind, env).Unfinished?
    ensures Ends(true, [], q, behind, env)
    decreases depth
  {
    hide PatOk, Matchable, HasValue, CtorFieldTypes, UsefulCtors, CtorOf;
    if tys == [] {
      assert Wildcards(0) + q == q && tys + behind == behind;
    } else {
      var rest := Wildcards(|tys[1..]|) + q;
      assert Wildcards(|tys|) + q == [Wildcard] + rest && tys + behind == [tys[0]] + (tys[1..] + behind);
      assert ([Wildcard] + rest)[1..] == rest && ([tys[0]] + (tys[1..] + behind))[1..] == tys[1..] + behind;
      match EnumerateCtors(tys[0], env)
      case None =>
        FrontEnds(depth - 1, tys[1..], q, behind, env);
      case Some(all) =>
        var i := Buildable(tys, all, Matchable(q, behind, env), env);
        assert all[0..] == all;
        TriedIsReached(depth - 1, all, 0, i, tys, q, behind, env);
        FrontEnds(depth - 1, OpenedTypes(all[i], tys, env), q, behind, env);
    }
  }

  /** The first constructor that can be built together with the columns behind it. */
  lemma Buildable(tys: seq<Type>, all: seq<Ctor>, matched: bool, env: Env) returns (i: nat)
    requires tys != [] && AllHaveValue(tys, env) && EnumerateCtors(tys[0], env) == Some(all)
    ensures i < |all| && Tried(all, i, tys, matched, env) && AllHaveValue(OpenedTypes(all[i], tys, env), env)
  {
    hide CtorFieldTypes, HasType, EnumerateCtors;
    assert HasValue(tys[0], env);
    var v :| HasType(v, tys[0], env);
    var w := HeadValue([v], [tys[0]], all, env);
    var k :| 0 <= k < |all| && all[k] == w.ctor;
    ArgsHaveValues(w.args, CtorFieldTypes(w.ctor, tys[0], env), tys, env);
    i := 0;
    while !AllHaveValue(OpenedTypes(all[i], tys, env), env)
      invariant i <= k && forall j :: 0 <= j < i ==> !AllHaveValue(OpenedTypes(all[j], tys, env), env)
      decreases k - i
    {
      i := i + 1;
    }
  }

  lemma ArgsHaveValues(args: seq<Value>, fields: seq<Type>, tys: seq<Type>, env: Env)
    requires HaveTypes(args, fields, env) && tys != [] && AllHaveValue(tys, env)
    ensures AllHaveValue(fields + tys[1..], env)
  {
    hide HasType;
    forall i | 0 <= i < |fields| ensures HasValue(fields[i], env) {
      assert HasType(args[i], fields[i], env);
    }
    assert forall i :: 0 <= i < |tys[1..]| ==> HasValue(tys[1..][i], env);
  }

  /** A typed matrix and query over the types on which the recursion does not end. */
  ghost predicate Endless(rows: Matrix, q: seq<Pat>, tys: seq<Type>, env: Env) {
    RowsOk(rows, tys, env) && PatsOk(q, tys, env) && |q| == |tys| && !Ends(true, rows, q, tys, env)
  }

  lemma SkipEndless(rows: Matrix, q: seq<Pat>, tys: seq<Type>, env: Env)
    requires tys != [] && Endless(rows, q, tys[1..], env) && (rows != [] || HasValue(tys[0], env))
    ensures Endless(Skipping(rows), [Wildcard] + q, tys, env)
  {
    hide PatOk, HasValue, Useful;
    WildcardIsOk(tys[0], env);
    ConsOk(Wildcard, q, tys, env);
    forall i | 0 <= i < |rows| ensures PatsOk(Skipping(rows)[i], tys, env) {
      ConsOk(Wildcard, rows[i], tys, env);
    }
    if Ends(true, Skipping(rows), [Wildcard] + q, tys, env) {
      var depth: nat :| !Useful(depth, true, Skipping(rows), [Wildcard] + q, tys, env).Unfinished?;
      if rows == [] {
        assert Wildcards(1) == [Wildcard] && tys == [tys[0]] + tys[1..];
        FrontEnds(depth, [tys[0]], q, tys[1..], env);
      } else {
        SkippedEnds(depth, rows, q, tys, env);
      }
    }
  }

  lemma SkippedEnds(depth: nat, rows: Matrix, q: seq<Pat>, tys: seq<Type>, env: Env)
    requires tys != [] && |q| == |tys[1..]| && rows != []
    requires !Useful(depth, true, Skipping(rows), [Wildcard] + q, tys, env).Unfinished?
    ensures Ends(true, rows, q, tys[1..], env)
  {
    hide EnumerateCtors, AllWild, DefaultMatrix;
    DefaultOfSkipping(rows);
    assert ([Wildcard] + q)[1..] == q;
  }

  /** Opening a column with `c`, over rows that `c` opens to `inner`. */
  lemma OpenEndless(c: Ctor, rows: Matrix, inner: Matrix, q: seq<Pat>, tys: seq<Type>, env: Env)
    returns (p: seq<Pat>)
    requires tys != [] && CtorOf(c, tys[0], env) && RowsOk(rows, tys, env)
    requires inner == Specialize(rows, c, |CtorFieldTypes(c, tys[0], env)|)
    requires Endless(inner, q, OpenedTypes(c, tys, env), env)
    ensures Endless(rows, p, tys, env)
  {
    hide CtorOf, CtorFieldTypes, Specialize, PatOk, RowsOk, Useful;
    var k := |CtorFieldTypes(c, tys[0], env)|;
    var args, rest := q[..k], q[k..];
    p := [Con(c, args)] + rest;
    assert q == args + rest;
    FoldedIsOk(c, q, tys, env);
    if Ends(true, rows, p, tys, env) {
      var depth: nat :| !Useful(depth, true, rows, p, tys, env).Unfinished?;
      FoldedEnds(depth, c, args, rest, rows, tys, env);
    }
  }

  lemma FoldedIsOk(c: Ctor, q: seq<Pat>, tys: seq<Type>, env: Env)
    requires tys != [] && CtorOf(c, tys[0], env) && PatsOk(q, OpenedTypes(c, tys, env), env)
    ensures var k := |CtorFieldTypes(c, tys[0], env)|;
      k <= |q| && PatsOk([Con(c, q[..k])] + q[k..], tys, env)
  {
    hide CtorOf, CtorFieldTypes, PatOk;
    var rows: Matrix := [q];
    PatsOkLength(q, OpenedTypes(c, tys, env), env);
    FoldedOk(c, rows, tys, env);
    var k := |CtorFieldTypes(c, tys[0], env)|;
    assert Folded(c, k, rows)[0] == [Con(c, q[..k])] + q[k..];
  }

  lemma FoldedEnds(
    depth: nat, c: Ctor, args: seq<Pat>, rest: seq<Pat>, rows: Matrix, tys: seq<Type>, env: Env)
    requires tys != [] && |rest| == |tys[1..]| && |args| == |CtorFieldTypes(c, tys[0], env)|
    requires !Useful(depth, true, rows, [Con(c, args)] + rest, tys, env).Unfinished?
    ensures Ends(true, Specialize(rows, c, |args|), args + rest, OpenedTypes(c, tys, env), env)
  {
    hide CtorFieldTypes, Specialize;
    assert ([Con(c, args)] + rest)[1..] == rest;
  }

  lemma {:induction false} LeadsTo(n: nat, full: bool, tys: seq<Type>, us: seq<Type>, p: seq<Pat>, env: Env)
    returns (rows: Matrix, q: seq<Pat>)
    requires ComesTo(n, full, tys, us, env) && Endless([], p, us, env)
    ensures Endless(rows, q, tys, env) && (rows != [] <==> full)
    decreases n, 0
  {
    hide CtorOf, Endless, HasValue, Opens;
    if !full && tys == us {
      rows, q := [], p;
    } else if (full || HasValue(tys[0], env)) && ComesTo(n - 1, full, tys[1..], us, env) {
      rows, q := LeadsTo(n - 1, full, tys[1..], us, p, env);
      SkipEndless(rows, q, tys, env);
      rows, q := Skipping(rows), [Wildcard] + q;
    } else {
      var c :| CtorOf(c, tys[0], env) && Opens(n - 1, full, c, tys, us, env);
      rows, q := OpeningLeadsTo(n - 1, full, c, tys, us, p, env);
    }
  }

  lemma {:induction false} OpeningLeadsTo(
    n: nat, full: bool, c: Ctor, tys: seq<Type>, us: seq<Type>, p: seq<Pat>, env: Env)
    returns (rows: Matrix, q: seq<Pat>)
    requires tys != [] && CtorOf(c, tys[0], env) && Opens(n, full, c, tys, us, env) && Endless([], p, us, env)
    ensures Endless(rows, q, tys, env) && (rows != [] <==> full)
    decreases n, 1
  {
    hide CtorOf, CtorFieldTypes, PatOk, Ends, ComesTo, Specialize;
    var k := |CtorFieldTypes(c, tys[0], env)|;
    if ComesTo(n, full, OpenedTypes(c, tys, env), us, env) {
      var inner, more := LeadsTo(n, full, OpenedTypes(c, tys, env), us, p, env);
      forall i | 0 <= i < |inner| ensures k <= |inner[i]| {
        assert PatsOk(inner[i], OpenedTypes(c, tys, env), env);
      }
      rows := Folded(c, k, inner);
      FoldedOk(c, inner, tys, env);
      SpecializeFolded(c, k, inner, c, k);
      q := OpenEndless(c, rows, inner, more, tys, env);
    } else {
      var d :| CtorOf(d, tys[0], env) && d != c;
      var inner, more := LeadsTo(n, false, OpenedTypes(c, tys, env), us, p, env);
      rows := [OtherRow(d, tys, env)];
      OtherOk(d, tys, env);
      SpecializeOther(d, c, tys, env);
      q := OpenEndless(c, rows, inner, more, tys, env);
    }
  }

  /** A search that does not end: a query over the empty matrix that does not end. */
  lemma SearchEndless(us: seq<Type>, env: Env) returns (p: seq<Pat>)
    requires us != [] && !Searched(us, env)
    ensures Endless([], p, us, env)
  {
    hide CanSearch, PatOk, Matchable, Inhabited, HasValue;
    var q := Wildcards(|us| - 1);
    WildcardsOk(us[1..], env);
    if AllHaveValue(us[1..], env) && !CanSearch(us[0], true, env) {
      WildcardsMatchable(us[1..], env);
    } else {
      q := Unmatchable(us[1..], env);
    }
    p := [Wildcard] + q;
    WildcardIsOk(us[0], env);
    ConsOk(Wildcard, q, us, env);
    PatsOkLength(q, us[1..], env);
    if Ends(true, [], p, us, env) {
      AnsweredSearch(q, us, env);
    }
  }

  lemma AnsweredSearch(q: seq<Pat>, us: seq<Type>, env: Env)
    requires us != [] && PatsOk(q, us[1..], env) && |q| == |us[1..]| && Ends(true, [], [Wildcard] + q, us, env)
    ensures CanSearch(us[0], Matchable(q, us[1..], env), env)
  {
    hide PatOk, Matchable, Useful, SearchesIn;
    var depth: nat :| !Useful(depth, true, [], [Wildcard] + q, us, env).Unfinished?;
    assert Wildcards(1) == [Wildcard] && [us[0]] + us[1..] == us;
    EndsSearch(depth, [us[0]], q, us[1..], env);
  }

  lemma WildcardsMatchable(tys: seq<Type>, env: Env)
    requires AllHaveValue(tys, env)
    ensures Matchable(Wildcards(|tys|), tys, env)
  {
    hide HasType, Matches;
    var vs := SomeValues(tys, env);
    WildcardsMatch(vs);
  }

  /** The recursion ends on every typed matrix and pattern of a type exactly if every search it can come to ends. */
  lemma EndsExactly(ty: Type, env: Env)
    ensures Searchable(ty, env) <==>
      forall rows: Matrix, p :: RowsOk(rows, [ty], env) && PatOk(p, ty, env) ==> Ends(true, rows, [p], [ty], env)
  {
    hide AllSearched, PatOk, RowsOk, Ends;
    if Searchable(ty, env) {
      forall rows: Matrix, p | RowsOk(rows, [ty], env) && PatOk(p, ty, env) ensures Ends(true, rows, [p], [ty], env) {
        TypedEnds(rows, [p], [ty], env);
      }
    }
    if !AllSearched(false, [ty], env) {
      var rows, p := UnsearchedIsEndless(false, ty, env);
    }
    if !AllSearched(true, [ty], env) {
      var rows, p := UnsearchedIsEndless(true, ty, env);
    }
  }

  lemma UnsearchedIsEndless(full: bool, ty: Type, env: Env) returns (rows: Matrix, p: Pat)
    requires !AllSearched(full, [ty], env)
    ensures RowsOk(rows, [ty], env) && PatOk(p, ty, env) && !Ends(true, rows, [p], [ty], env)
  {
    hide PatOk, RowsOk, Ends, Searched, ComesTo;
    var n: nat, us :| ComesTo(n, full, [ty], us, env) && us != [] && !Searched(us, env);
    var qu := SearchEndless(us, env);
    var matrix, q := LeadsTo(n, full, [ty], us, qu, env);
    rows, p := matrix, q[0];
    assert q == [p] && PatOk(q[0], [ty][0], env);
  }

  /** Types whose chains of first constructors, or of all constructors, end. */
  lemma GroundedIsSearchable(narrow: bool, ty: Type, env: Env)
    requires Grounded(narrow, ty, env)
    ensures Searchable(ty, env)
  {
    hide Searchable, Grounded, PatOk, Ends;
    forall rows: Matrix, p | RowsOk(rows, [ty], env) && PatOk(p, ty, env) ensures Ends(true, rows, [p], [ty], env) {
      GroundedEnds(narrow, true, rows, [p], [ty], env);
    }
    EndsExactly(ty, env);
  }

  /** Where no type met is without constructors, the chains of first constructors decide. */
  lemma SearchableIsGrounded(ty: Type, env: Env)
    requires NonVoid(ty, env)
    ensures Searchable(ty, env) <==> Grounded(true, ty, env)
  {
    hide Searchable, PatOk, Ends, Grounded, NonVoid;
    if Searchable(ty, env) {
      EndsExactly(ty, env);
      forall p | PatOk(p, ty, env) ensures Ends(true, [], [p], [ty], env) {
        assert RowsOk([], [ty], env);
      }
      AllEndIsGrounded(ty, env);
    }
    if Grounded(true, ty, env) {
      GroundedIsSearchable(true, ty, env);
    }
  }
}
