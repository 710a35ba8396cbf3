/**
  Searches over the empty matrix.

  There a wildcard is searched for: constructors are tried in order, up to the first that can be built together with
  what is behind it, if that can be matched at all.
 */
module Searches {
  import opened Basics
  import opened Patterns
  import opened Matrices
  import opened TypeParts
  import opened Usefulness
  import opened MatrixWeights
  import opened Termination

  // ---------- searches ----------

  /**
    No constructor before the `i`-th can be built with the columns behind it, if what is behind them all is `matched`.
   */
  ghost predicate Tried(all: seq<Ctor>, i: nat, tys: seq<Type>, matched: bool, env: Env)
    requires tys != [] && i <= |all|
  {
    forall j :: 0 <= j < i ==> !(matched && AllHaveValue(OpenedTypes(all[j], tys, env), env))
  }

  /** The search for values of the types ends within `n` steps; `matched` says whether what is behind can be matched. */
  ghost predicate SearchesIn(n: nat, tys: seq<Type>, matched: bool, env: Env) {
    || tys == []
    || (n > 0 &&
        match EnumerateCtors(tys[0], env)
        case None => SearchesIn(n - 1, tys[1..], matched, env)
        case Some(all) =>
          forall i :: 0 <= i < |all| && Tried(all, i, tys, matched, env) ==>
            SearchesIn(n - 1, OpenedTypes(all[i], tys, env), matched, env))
  }

  ghost predicate CanSearch(ty: Type, matched: bool, env: Env) {
    exists n: nat :: SearchesIn(n, [ty], matched, env)
  }

  /** Wildcards in front can be matched if their types have values. */
  lemma MatchableBehind(fs: seq<Type>, q: seq<Pat>, behind: seq<Type>, env: Env)
    requires |q| == |behind|
    ensures Matchable(Wildcards(|fs|) + q, fs + behind, env) <==> AllHaveValue(fs, env) && Matchable(q, behind, env)
  {
    hide HasType, Matches;
    if Matchable(Wildcards(|fs|) + q, fs + behind, env) {
      var vs :| HaveTypes(vs, fs + behind, env) && MatchesAll(Wildcards(|fs|) + q, vs);
      var a, b := vs[..|fs|], vs[|fs|..];
      assert vs == a + b;
      HaveTypesSplit(a, b, fs, behind, env);
      MatchesSplit(Wildcards(|fs|), q, a, b);
      forall i | 0 <= i < |fs| ensures HasValue(fs[i], env) {
        assert HasType(a[i], fs[i], env);
      }
    }
    if AllHaveValue(fs, env) && Matchable(q, behind, env) {
      var a := SomeValues(fs, env);
      var b :| HaveTypes(b, behind, env) && MatchesAll(q, b);
      HaveTypesSplit(a, b, fs, behind, env);
      MatchesSplit(Wildcards(|fs|), q, a, b);
      WildcardsMatch(a);
    }
  }

  /** Over the empty matrix an answer says whether the query can be matched. */
  lemma EmptyAnswer(depth: nat, q: seq<Pat>, tys: seq<Type>, env: Env)
    requires PatsOk(q, tys, env) && !Useful(depth, true, [], q, tys, env).Unfinished?
    ensures Useful(depth, true, [], q, tys, env).Uncovered? <==> Matchable(q, tys, env)
  {
    hide HaveTypes, MatchesAll, Useful, PatOk, RowsOk;
    if Useful(depth, true, [], q, tys, env).Uncovered? {
      EmptyUncovered(depth, true, q, tys, env);
    } else if vs :| HaveTypes(vs, tys, env) && MatchesAll(q, vs) {
      NoRows(tys, vs, env);
      CoveredMeans(depth, true, [], q, tys, env, vs);
    }
  }

  lemma NoRows(tys: seq<Type>, vs: seq<Value>, env: Env)
    ensures RowsOk([], tys, env) && !Covers([], vs)
  {
  }

  // ---------- a search that ends ----------

  lemma {:induction false} SearchEnds(n: nat, tys: seq<Type>, q: seq<Pat>, behind: seq<Type>, env: Env)
    requires PatsOk(q, behind, env) && |q| == |behind| && SearchesIn(n, tys, Matchable(q, behind, env), env)
    requires AllHaveValue(tys, env) ==> Ends(true, [], q, behind, env)
    ensures Ends(true, [], Wildcards(|tys|) + q, tys + behind, env)
    decreases n, 0
  {
    hide Ends, Useful, PatOk, Matchable, HasValue, CtorFieldTypes;
    if tys == [] {
      assert Wildcards(0) + q == q && tys + behind == behind;
    } else {
      var rest := Wildcards(|tys[1..]|) + q;
      assert Wildcards(|tys|) + q == [Wildcard] + rest && tys + behind == [tys[0]] + (tys[1..] + behind);
      match EnumerateCtors(tys[0], env)
      case None =>
        OpenHasValue(tys[0], env);
        SearchEnds(n - 1, tys[1..], q, behind, env);
        SkipEnds(true, [], rest, tys[0], tys[1..] + behind, env);
      case Some(all) =>
        var d := TriedEnd(n - 1, all, 0, tys, q, behind, env);
        assert all[0..] == all;
        OpensEnd(d, true, all, [], rest, tys[0], tys[1..] + behind, env);
    }
  }

  lemma {:induction false} TriedEnd(
    n: nat, all: seq<Ctor>, i: nat, tys: seq<Type>, q: seq<Pat>, behind: seq<Type>, env: Env) returns (d: nat)
    requires tys != [] && EnumerateCtors(tys[0], env) == Some(all) && i <= |all|
    requires PatsOk(q, behind, env) && |q| == |behind| && Tried(all, i, tys, Matchable(q, behind, env), env)
    requires forall k :: 0 <= k < |all| && Tried(all, k, tys, Matchable(q, behind, env), env) ==>
      SearchesIn(n, OpenedTypes(all[k], tys, env), Matchable(q, behind, env), env)
    requires AllHaveValue(tys, env) ==> Ends(true, [], q, behind, env)
    ensures !UsefulCtors(
      d, true, all[i..], [], Wildcards(|tys[1..]|) + q, tys[0], tys[1..] + behind, env).Unfinished?
    decreases n, 1 + |all| - i
  {
    hide Ends, Useful, PatOk, Matchable, HasValue, CtorFieldTypes, SearchesIn, AllHaveValue, EnumerateCtors;
    d := 0;
    if i < |all| {
      var c, rest := all[i], Wildcards(|tys[1..]|) + q;
      var fields := CtorFieldTypes(c, tys[0], env);
      if AllHaveValue(OpenedTypes(c, tys, env), env) {
        BuiltValues(c, tys, env);
      }
      SearchEnds(n, OpenedTypes(c, tys, env), q, behind, env);
      var a := OpenedAnswer(c, tys, q, behind, env);
      assert all[i..][0] == c && all[i..][1..] == all[i + 1..];
      if Useful(a, true, [], Wildcards(|fields|) + rest, fields + (tys[1..] + behind), env).Uncovered? {
        d := a;
      } else {
        var b := TriedEnd(n, all, i + 1, tys, q, behind, env);
        d := if a < b then b else a;
        MoreRoom(a, d, true, [], Wildcards(|fields|) + rest, fields + (tys[1..] + behind), env);
        MoreRoomCtors(b, d, true, all[i + 1..], [], rest, tys[0], tys[1..] + behind, env);
      }
    }
  }

  /** The answer for one constructor of a search tells whether it can be built together with what is behind. */
  lemma OpenedAnswer(c: Ctor, tys: seq<Type>, q: seq<Pat>, behind: seq<Type>, env: Env) returns (a: nat)
    requires tys != [] && PatsOk(q, behind, env) && |q| == |behind|
    requires Ends(true, [], Wildcards(|OpenedTypes(c, tys, env)|) + q, OpenedTypes(c, tys, env) + behind, env)
    ensures var fields := CtorFieldTypes(c, tys[0], env);
      var answer := Useful(
        a, true, [], Wildcards(|fields|) + (Wildcards(|tys[1..]|) + q), fields + (tys[1..] + behind), env);
      && !answer.Unfinished?
      && (answer.Uncovered? <==> AllHaveValue(OpenedTypes(c, tys, env), env) && Matchable(q, behind, env))
  {
    hide Useful, PatOk, Matchable, HasValue, CtorFieldTypes;
    var fields, parts := CtorFieldTypes(c, tys[0], env), OpenedTypes(c, tys, env);
    a :| !Useful(a, true, [], Wildcards(|parts|) + q, parts + behind, env).Unfinished?;
    SameColumns(fields, tys[1..], q, behind);
    OpenedAnswerAt(a, c, tys, q, behind, env);
  }

  lemma SameColumns(fields: seq<Type>, tys: seq<Type>, q: seq<Pat>, behind: seq<Type>)
    ensures Wildcards(|fields + tys|) + q == Wildcards(|fields|) + (Wildcards(|tys|) + q)
    ensures fields + tys + behind == fields + (tys + behind)
  {
    WildcardsConcat(|fields|, |tys|);
  }

  lemma OpenedAnswerAt(a: nat, c: Ctor, tys: seq<Type>, q: seq<Pat>, behind: seq<Type>, env: Env)
    requires tys != [] && PatsOk(q, behind, env) && |q| == |behind|
    requires var parts := OpenedTypes(c, tys, env);
      !Useful(a, true, [], Wildcards(|parts|) + q, parts + behind, env).Unfinished?
    ensures var parts := OpenedTypes(c, tys, env);
      Useful(a, true, [], Wildcards(|parts|) + q, parts + behind, env).Uncovered? <==>
      AllHaveValue(parts, env) && Matchable(q, behind, env)
  {
    hide Useful, PatOk, Matchable, HasValue, OpenedTypes;
    var parts := OpenedTypes(c, tys, env);
    WildcardsOk(parts, env);
    PatsOkSplit(Wildcards(|parts|), q, parts, behind, env);
    EmptyAnswer(a, Wildcards(|parts|) + q, parts + behind, env);
    MatchableBehind(parts, q, behind, env);
  }

  // ---------- what ends is a search that ends ----------

  lemma {:induction false} EndsSearch(depth: nat, tys: seq<Type>, q: seq<Pat>, behind: seq<Type>, env: Env)
    requires PatsOk(q, behind, env) && |q| == |behind|
    requires !Useful(depth, true, [], Wildcards(|tys|) + q, tys + behind, env).Unfinished?
    ensures SearchesIn(depth, tys, Matchable(q, behind, env), env)
    decreases depth
  {
    hide PatOk, Matchable, HasValue, CtorFieldTypes, UsefulCtors;
    if tys != [] {
      var rest, matched := Wildcards(|tys[1..]|) + q, Matchable(q, behind, env);
      assert Wildcards(|tys|) + q == [Wildcard] + rest && tys + behind == [tys[0]] + (tys[1..] + behind);
      assert ([Wildcard] + rest)[1..] == rest && ([tys[0]] + (tys[1..] + behind))[1..] == tys[1..] + behind;
      match EnumerateCtors(tys[0], env)
      case None =>
        EndsSearch(depth - 1, tys[1..], q, behind, env);
      case Some(all) =>
        assert all[0..] == all;
        forall i | 0 <= i < |all| && Tried(all, i, tys, matched, env)
          ensures SearchesIn(depth - 1, OpenedTypes(all[i], tys, env), matched, env)
        {
          TriedIsReached(depth - 1, all, 0, i, tys, q, behind, env);
          EndsSearch(depth - 1, OpenedTypes(all[i], tys, env), q, behind, env);
        }
    }
  }

  /** A search that is answered has an answer for every constructor it tries. */
  lemma {:induction false} TriedIsReached(
    depth: nat, all: seq<Ctor>, j: nat, i: nat, tys: seq<Type>, q: seq<Pat>, behind: seq<Type>, env: Env)
    requires tys != [] && j <= i < |all| && PatsOk(q, behind, env) && |q| == |behind|
    requires Tried(all, i, tys, Matchable(q, behind, env), env)
    requires !UsefulCtors(
      depth, true, all[j..], [], Wildcards(|tys[1..]|) + q, tys[0], tys[1..] + behind, env).Unfinished?
    ensures var parts := OpenedTypes(all[i], tys, env);
      !Useful(depth, true, [], Wildcards(|parts|) + q, parts + behind, env).Unfinished?
    decreases i - j
  {
    hide PatOk, Matchable, HasValue, CtorFieldTypes, Useful, AllHaveValue;
    var fields := CtorFieldTypes(all[j], tys[0], env);
    assert all[j..][0] == all[j] && all[j..][1..] == all[j + 1..];
    SameColumns(fields, tys[1..], q, behind);
    if j < i {
      OpenedAnswerAt(depth, all[j], tys, q, behind, env);
      TriedIsReached(depth, all, j + 1, i, tys, q, behind, env);
    }
  }
}
