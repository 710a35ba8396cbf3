/**
  When the usefulness recursion ends on a wildcard, over any types.

  The test of a whole match asks for a wildcard only, and comes to fewer searches than the test of an arm.
 */
module WildSearching {
  import opened Basics
  import opened Patterns
  import opened Matrices
  import opened TypeParts
  import opened Usefulness
  import opened MatrixWeights
  import opened Termination
  import opened Misleading
  import opened Searches
  import opened Searching

  /**
    Over a matrix with rows, at most `n` steps lead a query of wildcards to the empty matrix over `us`: the last one
    opens a constructor `c` where all rows have another one.
   */
  ghost predicate EmptiesTo(n: nat, tys: seq<Type>, us: seq<Type>, env: Env) {
    && n > 0 && tys != []
    && (|| EmptiesTo(n - 1, tys[1..], us, env)
        || (exists c ::
              CtorOf(c, tys[0], env) &&
              (EmptiesTo(n - 1, OpenedTypes(c, tys, env), us, env) || EmptiedAt(c, tys, us, env))))
  }

  ghost predicate EmptiedAt(c: Ctor, tys: seq<Type>, us: seq<Type>, env: Env)
    requires tys != []
  {
    us == OpenedTypes(c, tys, env) && exists d :: CtorOf(d, tys[0], env) && d != c
  }

  ghost predicate CanSearchAll(us: seq<Type>, env: Env) {
    exists n: nat :: SearchesIn(n, us, true, env)
  }

  ghost predicate AllEmptiedSearched(tys: seq<Type>, env: Env) {
    forall n: nat, us :: EmptiesTo(n, tys, us, env) ==> CanSearchAll(us, env)
  }

  /** Every search that a wildcard over a matrix of type `ty` can come to ends. */
  ghost predicate WildSearchable(ty: Type, env: Env) {
    CanSearchAll([ty], env) && AllEmptiedSearched([ty], env)
  }

  lemma OpenEmptied(c: Ctor, tys: seq<Type>, env: Env)
    requires tys != [] && AllEmptiedSearched(tys, env) && CtorOf(c, tys[0], env)
    ensures AllEmptiedSearched(OpenedTypes(c, tys, env), env)
    ensures (exists d :: CtorOf(d, tys[0], env) && d != c) ==> CanSearchAll(OpenedTypes(c, tys, env), env)
  {
    hide CanSearchAll, CtorOf, OpenedTypes;
    forall n: nat, us | EmptiesTo(n, OpenedTypes(c, tys, env), us, env) ensures CanSearchAll(us, env) {
      assert EmptiesTo(n + 1, tys, us, env);
    }
    if exists d :: CtorOf(d, tys[0], env) && d != c {
      assert EmptiedAt(c, tys, OpenedTypes(c, tys, env), env);
      assert EmptiesTo(1, tys, OpenedTypes(c, tys, env), env);
    }
  }

  lemma SkipEmptied(tys: seq<Type>, env: Env)
    requires tys != [] && AllEmptiedSearched(tys, env)
    ensures AllEmptiedSearched(tys[1..], env)
  {
    hide CanSearchAll;
    forall n: nat, us | EmptiesTo(n, tys[1..], us, env) ensures CanSearchAll(us, env) {
      assert EmptiesTo(n + 1, tys, us, env);
    }
  }

  /** What is asked of the columns behind a query of wildcards. */
  ghost predicate WildOk(rows: Matrix, tys: seq<Type>, env: Env) {
    RowsOk(rows, tys, env) && if rows == [] then CanSearchAll(tys, env) else AllEmptiedSearched(tys, env)
  }

  lemma OpenWildOk(rows: Matrix, c: Ctor, tys: seq<Type>, env: Env)
    requires tys != [] && rows != [] && WildOk(rows, tys, env) && CtorOf(c, tys[0], env)
    ensures WildOk(Specialize(rows, c, |CtorFieldTypes(c, tys[0], env)|), OpenedTypes(c, tys, env), env)
  {
    hide CtorOf, CtorFieldTypes, PatOk, AllEmptiedSearched, CanSearchAll;
    var arity := |CtorFieldTypes(c, tys[0], env)|;
    SpecializeOk(rows, c, tys, env);
    OpenEmptied(c, tys, env);
    if Specialize(rows, c, arity) == [] {
      assert PatsOk(rows[0], tys, env);
      var d := Emptied(rows[0][0], rows[0][1..], c, arity, tys[0], env);
    }
  }

  lemma DefaultWildOk(rows: Matrix, tys: seq<Type>, env: Env)
    requires tys != [] && rows != [] && WildOk(rows, tys, env)
    requires AllWild(rows) || EnumerateCtors(tys[0], env).None?
    ensures WildOk(DefaultMatrix(rows), tys[1..], env)
  {
    hide CtorOf, EnumerateCtors, PatOk, AllEmptiedSearched, CanSearchAll;
    DefaultOk(rows, tys, env);
    SkipEmptied(tys, env);
    if DefaultMatrix(rows) == [] {
      assert PatsOk(rows[0], tys, env);
      var c := EmptiedByDefault(rows[0][0], rows[0][1..], tys[0], env);
      var d := AnotherLiteral(c, tys[0], env);
      LiteralFields(c, tys, env);
      OpenEmptied(c, tys, env);
    }
  }

  lemma {:induction false} WildEnds(rows: Matrix, tys: seq<Type>, env: Env)
    requires WildOk(rows, tys, env)
    ensures Ends(true, rows, Wildcards(|tys|), tys, env)
    decreases MatrixWeight(rows), |tys|
  {
    hide CtorFieldTypes, WildOk, Ends, MatrixWeight, Specialize, DefaultMatrix, AllWild, EnumerateCtors;
    if rows == [] {
      EmptyWildEnds(tys, env);
    } else if tys == [] {
      NoColumnsEnd(rows, env);
    } else {
      var rest := Wildcards(|tys[1..]|);
      assert Wildcards(|tys|) == [Wildcard] + rest && [tys[0]] + tys[1..] == tys;
      if AllWild(rows) || EnumerateCtors(tys[0], env).None? {
        DefaultShrinks(rows);
        DefaultWildOk(rows, tys, env);
        WildEnds(DefaultMatrix(rows), tys[1..], env);
        SkipEnds(true, rows, rest, tys[0], tys[1..], env);
      } else {
        var all := EnumerateCtors(tys[0], env).value;
        forall c | c in all ensures OpenedEnds(true, c, rows, rest, tys[0], tys[1..], env) {
          var fields := CtorFieldTypes(c, tys[0], env);
          SpecializeShrinks(rows, c, |fields|);
          OpenWildOk(rows, c, tys, env);
          WildEnds(Specialize(rows, c, |fields|), OpenedTypes(c, tys, env), env);
          WildcardsConcat(|fields|, |rest|);
        }
        var d := CtorsEnd(true, all, rows, rest, tys[0], tys[1..], env);
        OpensEnd(d, true, all, rows, rest, tys[0], tys[1..], env);
      }
    }
  }

  lemma EmptyWildEnds(tys: seq<Type>, env: Env)
    requires WildOk([], tys, env)
    ensures Ends(true, [], Wildcards(|tys|), tys, env)
  {
    hide Ends, SearchesIn;
    var n: nat :| SearchesIn(n, tys, true, env);
    NoColumnsMatch(env);
    NoColumnsEnd([], env);
    SearchEnds(n, tys, [], [], env);
    assert Wildcards(|tys|) + [] == Wildcards(|tys|) && tys + [] == tys;
  }

  lemma NoColumnsMatch(env: Env)
    ensures Matchable([], [], env)
  {
    assert HaveTypes([], [], env) && MatchesAll([], []);
  }

  /** A typed matrix on which a query of wildcards does not end. */
  ghost predicate WildEndless(rows: Matrix, tys: seq<Type>, env: Env) {
    RowsOk(rows, tys, env) && !Ends(true, rows, Wildcards(|tys|), tys, env)
  }

  lemma EmptyWildEndless(tys: seq<Type>, env: Env)
    requires !CanSearchAll(tys, env)
    ensures WildEndless([], tys, env)
  {
    hide Useful, SearchesIn, Matchable;
    if Ends(true, [], Wildcards(|tys|), tys, env) {
      var depth: nat :| !Useful(depth, true, [], Wildcards(|tys|), tys, env).Unfinished?;
      assert Wildcards(|tys|) + [] == Wildcards(|tys|) && tys + [] == tys;
      NoColumnsMatch(env);
      EndsSearch(depth, tys, [], [], env);
    }
  }

  lemma SkipWildEndless(rows: Matrix, tys: seq<Type>, env: Env)
    requires tys != [] && rows != [] && WildEndless(rows, tys[1..], env)
    ensures Skipping(rows) != [] && WildEndless(Skipping(rows), tys, env)
  {
    hide PatOk, HasValue, Ends;
    WildcardsOk(tys[1..], env);
    SkipEndless(rows, Wildcards(|tys[1..]|), tys, env);
    assert Wildcards(|tys|) == [Wildcard] + Wildcards(|tys[1..]|);
  }

  lemma OpenWildEndless(rows: Matrix, all: seq<Ctor>, c: Ctor, inner: Matrix, tys: seq<Type>, env: Env)
    requires tys != [] && EnumerateCtors(tys[0], env) == Some(all) && c in all
    requires OpensTo(rows, all, c, inner, tys, env) && WildEndless(inner, OpenedTypes(c, tys, env), env)
    ensures WildEndless(rows, tys, env)
  {
    hide UsefulCtors, Specialize, CtorFieldTypes, EnumerateCtors, RowsOk, OpensWild, AllWild;
    if Ends(true, rows, Wildcards(|tys|), tys, env) {
      var depth: nat :| !Useful(depth, true, rows, Wildcards(|tys|), tys, env).Unfinished?;
      assert Wildcards(|tys|)[1..] == Wildcards(|tys[1..]|);
      CtorReached(depth - 1, all, rows, c, tys, env);
    }
  }

  /** Constructors that open to rows of wildcards are covered, and the next one is tried. */
  lemma {:induction false} CtorReached(
    depth: nat, ctors: seq<Ctor>, rows: Matrix, c: Ctor, tys: seq<Type>, env: Env)
    requires tys != [] && c in ctors
    requires forall d :: d in ctors && d != c ==> OpensWild(rows, d, tys, env)
    requires !UsefulCtors(depth, true, ctors, rows, Wildcards(|tys[1..]|), tys[0], tys[1..], env).Unfinished?
    ensures var parts := OpenedTypes(c, tys, env);
      Ends(true, Specialize(rows, c, |CtorFieldTypes(c, tys[0], env)|), Wildcards(|parts|), parts, env)
    decreases |ctors|
  {
    hide Useful, Specialize, CtorFieldTypes;
    var d := ctors[0];
    var fields := CtorFieldTypes(d, tys[0], env);
    WildcardsConcat(|fields|, |tys[1..]|);
    if d != c {
      assert OpensWild(rows, d, tys, env);
      var first, parts := Specialize(rows, d, |fields|), fields + tys[1..];
      WildRowsCover(first, parts, env);
      SameAnswer(depth, |parts| + 1, first, Wildcards(|parts|), parts, env);
      CtorReached(depth, ctors[1..], rows, c, tys, env);
    }
  }

  lemma SameAnswer(d: nat, e: nat, rows: Matrix, q: seq<Pat>, tys: seq<Type>, env: Env)
    requires |q| == |tys|
    requires !Useful(d, true, rows, q, tys, env).Unfinished? && !Useful(e, true, rows, q, tys, env).Unfinished?
    ensures Useful(d, true, rows, q, tys, env) == Useful(e, true, rows, q, tys, env)
  {
    hide Useful;
    if d <= e {
      MoreRoom(d, e, true, rows, q, tys, env);
    } else {
      MoreRoom(e, d, true, rows, q, tys, env);
    }
  }

  lemma {:induction false} EmptiesEndless(n: nat, tys: seq<Type>, us: seq<Type>, env: Env) returns (rows: Matrix)
    requires EmptiesTo(n, tys, us, env) && WildEndless([], us, env)
    ensures rows != [] && WildEndless(rows, tys, env)
    decreases n
  {
    hide CtorOf, WildEndless, EmptiedAt, OpenedTypes;
    if EmptiesTo(n - 1, tys[1..], us, env) {
      var inner := EmptiesEndless(n - 1, tys[1..], us, env);
      SkipWildEndless(inner, tys, env);
      rows := Skipping(inner);
    } else {
      var c :|
        CtorOf(c, tys[0], env) && (EmptiesTo(n - 1, OpenedTypes(c, tys, env), us, env) || EmptiedAt(c, tys, us, env));
      if EmptiedAt(c, tys, us, env) {
        rows := EmptiedEndless(c, tys, us, env);
      } else {
        var inner := EmptiesEndless(n - 1, OpenedTypes(c, tys, env), us, env);
        rows := OpenedEndless(c, inner, tys, env);
      }
    }
  }

  lemma OpenedEndless(c: Ctor, inner: Matrix, tys: seq<Type>, env: Env) returns (rows: Matrix)
    requires tys != [] && CtorOf(c, tys[0], env) && inner != [] && WildEndless(inner, OpenedTypes(c, tys, env), env)
    ensures rows != [] && WildEndless(rows, tys, env)
  {
    hide OpensTo, CtorFieldTypes, PatOk, Ends;
    match EnumerateCtors(tys[0], env)
    case None =>
      LiteralFields(c, tys, env);
      SkipWildEndless(inner, tys, env);
      rows := Skipping(inner);
    case Some(all) =>
      rows := Opening(all, c, inner, tys, env);
      OpenWildEndless(rows, all, c, inner, tys, env);
  }

  lemma EmptiedEndless(c: Ctor, tys: seq<Type>, us: seq<Type>, env: Env) returns (rows: Matrix)
    requires tys != [] && CtorOf(c, tys[0], env) && EmptiedAt(c, tys, us, env) && WildEndless([], us, env)
    ensures rows != [] && WildEndless(rows, tys, env)
  {
    hide OpensTo, CtorFieldTypes, PatOk, Ends;
    var d :| CtorOf(d, tys[0], env) && d != c;
    match EnumerateCtors(tys[0], env)
    case None =>
      LiteralFields(c, tys, env);
      rows := [OtherRow(d, tys, env)];
      OtherOk(d, tys, env);
      LiteralRowEndless(d, tys, env);
    case Some(all) =>
      rows := Opening(all, c, [], tys, env);
      OpenWildEndless(rows, all, c, [], tys, env);
  }

  lemma LiteralRowEndless(d: Ctor, tys: seq<Type>, env: Env)
    requires tys != [] && EnumerateCtors(tys[0], env).None? && WildEndless([], tys[1..], env)
    ensures !Ends(true, [OtherRow(d, tys, env)], Wildcards(|tys|), tys, env)
  {
    hide EnumerateCtors, CtorFieldTypes;
    var rows: Matrix := [OtherRow(d, tys, env)];
    DefaultOne(rows[0][0], rows[0][1..]);
    assert rows[0] == [rows[0][0]] + rows[0][1..] && DefaultMatrix(rows) == [];
    assert Wildcards(|tys|)[1..] == Wildcards(|tys[1..]|);
    assert rows[0][0].Con? && !AllWild(rows);
    forall depth: nat ensures Useful(depth, true, rows, Wildcards(|tys|), tys, env).Unfinished? {
      if depth > 0 {
        assert Useful(depth - 1, true, [], Wildcards(|tys[1..]|), tys[1..], env).Unfinished?;
      }
    }
  }

  /** A wildcard ends on every typed matrix of a type exactly if every search it can come to ends. */
  lemma WildEndsExactly(ty: Type, env: Env)
    ensures WildSearchable(ty, env) <==>
      forall rows: Matrix :: RowsOk(rows, [ty], env) ==> Ends(true, rows, [Wildcard], [ty], env)
  {
    hide AllEmptiedSearched, CanSearchAll, RowsOk, Ends;
    assert Wildcards(1) == [Wildcard];
    if WildSearchable(ty, env) {
      forall rows: Matrix | RowsOk(rows, [ty], env) ensures Ends(true, rows, [Wildcard], [ty], env) {
        WildEnds(rows, [ty], env);
      }
    }
    if !CanSearchAll([ty], env) {
      EmptyWildEndless([ty], env);
    } else if !AllEmptiedSearched([ty], env) {
      var rows := UnsearchedWildEndless(ty, env);
    }
  }

  lemma UnsearchedWildEndless(ty: Type, env: Env) returns (rows: Matrix)
    requires !AllEmptiedSearched([ty], env)
    ensures WildEndless(rows, [ty], env)
  {
    hide CanSearchAll, EmptiesTo, WildEndless;
    var n: nat, us :| EmptiesTo(n, [ty], us, env) && !CanSearchAll(us, env);
    EmptyWildEndless(us, env);
    rows := EmptiesEndless(n, [ty], us, env);
  }

  lemma SearchableIsWildSearchable(ty: Type, env: Env)
    requires Searchable(ty, env)
    ensures WildSearchable(ty, env)
  {
    hide Searchable, WildSearchable, RowsOk, Ends;
    EndsExactly(ty, env);
    WildEndsExactly(ty, env);
    assert PatOk(Wildcard, ty, env);
  }
}
