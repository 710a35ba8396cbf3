/** The two matrix operations of the usefulness recursion. */
module Matrices {
  import opened Patterns

  type Matrix = seq<seq<Pat>>

  function Wildcards(n: nat): (ps: seq<Pat>)
    ensures |ps| == n && forall i :: 0 <= i < n ==> ps[i] == Wildcard
  {
    Repeat(Wildcard, n)
  }

  /** Rows of `S(c, P)` from one row: its head opened into `arity` columns. */
  function SpecializeHead(head: Pat, tail: seq<Pat>, c: Ctor, arity: nat): Matrix
    decreases head, 1
  {
    match head
    case Wildcard => [Wildcards(arity) + tail]
    case Con(rowCtor, args) => if rowCtor == c then [args + tail] else []
    case Or(alts) => SpecializeAlts(alts, tail, c, arity)
  }

  function SpecializeAlts(alts: seq<Pat>, tail: seq<Pat>, c: Ctor, arity: nat): Matrix
    decreases alts, 0
  {
    if alts == [] then []
    else SpecializeHead(alts[0], tail, c, arity) + SpecializeAlts(alts[1..], tail, c, arity)
  }

  function Specialize(rows: Matrix, c: Ctor, arity: nat): Matrix {
    if rows == [] then []
    else
      (if rows[0] == [] then [] else SpecializeHead(rows[0][0], rows[0][1..], c, arity)) +
      Specialize(rows[1..], c, arity)
  }

  /** Rows of `D(P)` from one row: its tail once per wildcard in its head. */
  function DefaultHead(head: Pat, tail: seq<Pat>): Matrix
    decreases head, 1
  {
    match head
    case Wildcard => [tail]
    case Con(_, _) => []
    case Or(alts) => DefaultAlts(alts, tail)
  }

  function DefaultAlts(alts: seq<Pat>, tail: seq<Pat>): Matrix
    decreases alts, 0
  {
    if alts == [] then [] else DefaultHead(alts[0], tail) + DefaultAlts(alts[1..], tail)
  }

  function DefaultMatrix(rows: Matrix): Matrix {
    if rows == [] then []
    else (if rows[0] == [] then [] else DefaultHead(rows[0][0], rows[0][1..])) + DefaultMatrix(rows[1..])
  }

  // ---------- what they mean ----------

  lemma {:induction false} SpecializeHeadMeans(
    head: Pat, tail: seq<Pat>, c: Ctor, args: seq<Value>, vs: seq<Value>, ty: Type, env: Env)
    requires PatOk(head, ty, env) && |args| == |CtorFieldTypes(c, ty, env)|
    ensures Covers(SpecializeHead(head, tail, c, |args|), args + vs) <==>
      Matches(head, Built(c, args)) && MatchesAll(tail, vs)
    decreases head, 1
  {
    hide MatchesAll;
    match head
    case Wildcard =>
      var row := Wildcards(|args|) + tail;
      MatchesSplit(Wildcards(|args|), tail, args, vs);
      WildcardsMatch(args);
      assert [row][0] == row;
    case Con(rowCtor, rowArgs) =>
      if rowCtor == c {
        var row := rowArgs + tail;
        MatchesSplit(rowArgs, tail, args, vs);
        ConMatches(rowArgs, c, args);
        assert [row][0] == row;
      }
    case Or(alts) =>
      SpecializeAltsMeans(alts, tail, c, args, vs, ty, env);
  }

  lemma {:induction false} SpecializeAltsMeans(
    alts: seq<Pat>, tail: seq<Pat>, c: Ctor, args: seq<Value>, vs: seq<Value>, ty: Type, env: Env)
    requires |args| == |CtorFieldTypes(c, ty, env)| && forall i :: 0 <= i < |alts| ==> PatOk(alts[i], ty, env)
    ensures Covers(SpecializeAlts(alts, tail, c, |args|), args + vs) <==>
      (exists i :: 0 <= i < |alts| && Matches(alts[i], Built(c, args))) && MatchesAll(tail, vs)
    decreases alts, 0
  {
    hide MatchesAll, Matches;
    if alts != [] {
      var first, rest := SpecializeHead(alts[0], tail, c, |args|), SpecializeAlts(alts[1..], tail, c, |args|);
      CoversConcat(first, rest, args + vs);
      SpecializeHeadMeans(alts[0], tail, c, args, vs, ty, env);
      SpecializeAltsMeans(alts[1..], tail, c, args, vs, ty, env);
      assert (exists i :: 0 <= i < |alts| && Matches(alts[i], Built(c, args))) <==>
        Matches(alts[0], Built(c, args)) || exists i :: 0 <= i < |alts[1..]| && Matches(alts[1..][i], Built(c, args))
      by {
        if i :| 0 <= i < |alts| && Matches(alts[i], Built(c, args)) {
          if i > 0 {
            assert alts[1..][i - 1] == alts[i];
          }
        }
        if i :| 0 <= i < |alts[1..]| && Matches(alts[1..][i], Built(c, args)) {
          assert alts[i + 1] == alts[1..][i];
        }
      }
    }
  }

  lemma WildcardsMatch(vs: seq<Value>)
    ensures MatchesAll(Wildcards(|vs|), vs)
  {
  }

  lemma ConMatches(ps: seq<Pat>, c: Ctor, args: seq<Value>)
    ensures Matches(Con(c, ps), Built(c, args)) <==> MatchesAll(ps, args)
  {
  }

  /** `S(c, P)` covers the opened vector exactly if `P` covers the original one. */
  lemma {:induction false} SpecializeMeans(
    rows: Matrix, c: Ctor, args: seq<Value>, vs: seq<Value>, tys: seq<Type>, env: Env)
    requires tys != [] && RowsOk(rows, tys, env) && |args| == |CtorFieldTypes(c, tys[0], env)|
    ensures Covers(Specialize(rows, c, |args|), args + vs) <==> Covers(rows, [Built(c, args)] + vs)
  {
    hide MatchesAll, Matches, PatOk;
    if rows != [] {
      var row := rows[0];
      assert PatsOk(row, tys, env);
      var first := SpecializeHead(row[0], row[1..], c, |args|);
      CoversConcat(first, Specialize(rows[1..], c, |args|), args + vs);
      CoversConcat([row], rows[1..], [Built(c, args)] + vs);
      SpecializeHeadMeans(row[0], row[1..], c, args, vs, tys[0], env);
      SpecializeMeans(rows[1..], c, args, vs, tys, env);
      MatchesCons(row[0], row[1..], Built(c, args), vs);
      assert row == [row[0]] + row[1..];
      assert rows == [row] + rows[1..];
      CoversOne(row, [Built(c, args)] + vs);
    }
  }

  lemma CoversOne(row: seq<Pat>, vs: seq<Value>)
    ensures Covers([row], vs) <==> MatchesAll(row, vs)
  {
    hide MatchesAll;
    assert [row][0] == row;
  }

  lemma {:induction false} SpecializeHeadOk(head: Pat, tail: seq<Pat>, c: Ctor, ty: Type, tys: seq<Type>, env: Env)
    requires PatOk(head, ty, env) && PatsOk(tail, tys, env)
    ensures RowsOk(SpecializeHead(head, tail, c, |CtorFieldTypes(c, ty, env)|), CtorFieldTypes(c, ty, env) + tys, env)
    decreases head, 1
  {
    if head.Or? {
      SpecializeAltsOk(head.alts, tail, c, ty, tys, env);
    }
  }

  lemma {:induction false} SpecializeAltsOk(alts: seq<Pat>, tail: seq<Pat>, c: Ctor, ty: Type, tys: seq<Type>, env: Env)
    requires PatsOk(tail, tys, env) && forall i :: 0 <= i < |alts| ==> PatOk(alts[i], ty, env)
    ensures RowsOk(SpecializeAlts(alts, tail, c, |CtorFieldTypes(c, ty, env)|), CtorFieldTypes(c, ty, env) + tys, env)
    decreases alts, 0
  {
    hide PatOk, PatsOk;
    if alts != [] {
      SpecializeHeadOk(alts[0], tail, c, ty, tys, env);
      SpecializeAltsOk(alts[1..], tail, c, ty, tys, env);
    }
  }

  lemma {:induction false} SpecializeOk(rows: Matrix, c: Ctor, tys: seq<Type>, env: Env)
    requires tys != [] && RowsOk(rows, tys, env)
    ensures var fields := CtorFieldTypes(c, tys[0], env);
      RowsOk(Specialize(rows, c, |fields|), fields + tys[1..], env)
  {
    hide PatOk;
    if rows != [] {
      assert PatsOk(rows[0], tys, env);
      SpecializeHeadOk(rows[0][0], rows[0][1..], c, tys[0], tys[1..], env);
      SpecializeOk(rows[1..], c, tys, env);
    }
  }

  // ---------- the default matrix ----------

  /** The constructors in head position. */
  ghost function HeadCtors(head: Pat): set<Ctor>
    decreases head, 1
  {
    match head
    case Wildcard => {}
    case Con(c, _) => {c}
    case Or(alts) => AltCtors(alts)
  }

  ghost function AltCtors(alts: seq<Pat>): set<Ctor>
    decreases alts, 0
  {
    if alts == [] then {} else HeadCtors(alts[0]) + AltCtors(alts[1..])
  }

  ghost function ColumnCtors(rows: Matrix): set<Ctor> {
    if rows == [] then {}
    else (if rows[0] == [] then {} else HeadCtors(rows[0][0])) + ColumnCtors(rows[1..])
  }

  /** A value not built by any constructor of `cs`. */
  ghost predicate Avoids(v: Value, cs: set<Ctor>) {
    v.Built? ==> v.ctor !in cs
  }

  /**
    A covered tail in `D(P)` comes from a row whose head matches anything; the converse needs a value that avoids the
    heads.
   */
  lemma {:induction false} DefaultHeadMeans(head: Pat, tail: seq<Pat>, v: Value, vs: seq<Value>)
    ensures Covers(DefaultHead(head, tail), vs) ==> Matches(head, v) && MatchesAll(tail, vs)
    ensures Avoids(v, HeadCtors(head)) && Matches(head, v) && MatchesAll(tail, vs) ==>
      Covers(DefaultHead(head, tail), vs)
    decreases head, 1
  {
    hide MatchesAll;
    match head
    case Wildcard =>
      CoversOne(tail, vs);
    case Con(_, _) =>
    case Or(alts) =>
      DefaultAltsMeans(alts, tail, v, vs);
  }

  lemma {:induction false} DefaultAltsMeans(alts: seq<Pat>, tail: seq<Pat>, v: Value, vs: seq<Value>)
    ensures Covers(DefaultAlts(alts, tail), vs) ==>
      (exists i :: 0 <= i < |alts| && Matches(alts[i], v)) && MatchesAll(tail, vs)
    ensures Avoids(v, AltCtors(alts)) && MatchesAll(tail, vs) ==>
      (exists i :: 0 <= i < |alts| && Matches(alts[i], v)) ==> Covers(DefaultAlts(alts, tail), vs)
    decreases alts, 0
  {
    hide MatchesAll, Matches;
    if alts != [] {
      CoversConcat(DefaultHead(alts[0], tail), DefaultAlts(alts[1..], tail), vs);
      DefaultHeadMeans(alts[0], tail, v, vs);
      DefaultAltsMeans(alts[1..], tail, v, vs);
      if i :| 0 <= i < |alts| && Matches(alts[i], v) {
        if i > 0 {
          assert alts[1..][i - 1] == alts[i];
        }
      }
      if i :| 0 <= i < |alts[1..]| && Matches(alts[1..][i], v) {
        assert alts[i + 1] == alts[1..][i];
      }
    }
  }

  lemma {:induction false} DefaultMeans(rows: Matrix, v: Value, vs: seq<Value>, n: nat)
    requires forall i :: 0 <= i < |rows| ==> |rows[i]| == n + 1
    ensures Covers(DefaultMatrix(rows), vs) ==> Covers(rows, [v] + vs)
    ensures Avoids(v, ColumnCtors(rows)) && Covers(rows, [v] + vs) ==> Covers(DefaultMatrix(rows), vs)
  {
    hide MatchesAll, Matches;
    if rows != [] {
      var row := rows[0];
      CoversConcat(DefaultHead(row[0], row[1..]), DefaultMatrix(rows[1..]), vs);
      CoversConcat([row], rows[1..], [v] + vs);
      DefaultHeadMeans(row[0], row[1..], v, vs);
      DefaultMeans(rows[1..], v, vs, n);
      MatchesCons(row[0], row[1..], v, vs);
      assert row == [row[0]] + row[1..];
      assert rows == [row] + rows[1..];
      CoversOne(row, [v] + vs);
    }
  }

  lemma {:induction false} DefaultHeadOk(head: Pat, tail: seq<Pat>, tys: seq<Type>, env: Env)
    requires PatsOk(tail, tys, env)
    ensures RowsOk(DefaultHead(head, tail), tys, env)
    decreases head, 1
  {
    if head.Or? {
      DefaultAltsOk(head.alts, tail, tys, env);
    }
  }

  lemma {:induction false} DefaultAltsOk(alts: seq<Pat>, tail: seq<Pat>, tys: seq<Type>, env: Env)
    requires PatsOk(tail, tys, env)
    ensures RowsOk(DefaultAlts(alts, tail), tys, env)
    decreases alts, 0
  {
    hide PatsOk;
    if alts != [] {
      DefaultHeadOk(alts[0], tail, tys, env);
      DefaultAltsOk(alts[1..], tail, tys, env);
    }
  }

  lemma {:induction false} DefaultOk(rows: Matrix, tys: seq<Type>, env: Env)
    requires tys != [] && RowsOk(rows, tys, env)
    ensures RowsOk(DefaultMatrix(rows), tys[1..], env)
  {
    hide PatOk;
    if rows != [] {
      assert PatsOk(rows[0], tys, env);
      DefaultHeadOk(rows[0][0], rows[0][1..], tys[1..], env);
      DefaultOk(rows[1..], tys, env);
    }
  }

  /** Every row has a wildcard in its first column. */
  predicate AllWild(rows: Matrix) {
    forall i :: 0 <= i < |rows| ==> rows[i] != [] && rows[i][0].Wildcard?
  }

  lemma {:induction false} AllWildAvoided(rows: Matrix)
    requires AllWild(rows)
    ensures ColumnCtors(rows) == {}
  {
    if rows != [] {
      assert rows[0][0].Wildcard?;
      AllWildAvoided(rows[1..]);
    }
  }

  // ---------- the loops that build them ----------

  lemma {:induction false} SpecializeConcat(a: Matrix, b: Matrix, c: Ctor, arity: nat)
    ensures Specialize(a + b, c, arity) == Specialize(a, c, arity) + Specialize(b, c, arity)
  {
    if a == [] {
      assert a + b == b;
    } else {
      assert (a + b)[1..] == a[1..] + b;
      SpecializeConcat(a[1..], b, c, arity);
    }
  }

  lemma {:induction false} SpecializeAltsConcat(a: seq<Pat>, b: seq<Pat>, tail: seq<Pat>, c: Ctor, arity: nat)
    ensures SpecializeAlts(a + b, tail, c, arity) ==
      SpecializeAlts(a, tail, c, arity) + SpecializeAlts(b, tail, c, arity)
  {
    if a == [] {
      assert a + b == b;
    } else {
      assert (a + b)[1..] == a[1..] + b;
      SpecializeAltsConcat(a[1..], b, tail, c, arity);
    }
  }

  lemma SpecializeOne(head: Pat, tail: seq<Pat>, c: Ctor, arity: nat)
    ensures Specialize([[head] + tail], c, arity) == SpecializeHead(head, tail, c, arity)
    ensures SpecializeAlts([head], tail, c, arity) == SpecializeHead(head, tail, c, arity)
  {
    assert ([head] + tail)[1..] == tail;
    assert Specialize([[head] + tail][1..], c, arity) == [];
  }

  /** How deep or-patterns nest in the heads of the rows. */
  ghost function HeadSize(rows: Matrix): nat {
    if rows == [] then 0
    else (if rows[0] == [] then 0 else PatSize(rows[0][0])) + HeadSize(rows[1..])
  }

  ghost function PatSize(p: Pat): (n: nat)
    ensures 0 < n
    decreases p, 1
  {
    if p.Or? then 1 + AltsSize(p.alts) else 1
  }

  ghost function AltsSize(alts: seq<Pat>): (n: nat)
    ensures forall i :: 0 <= i < |alts| ==> PatSize(alts[i]) <= n
    decreases alts, 0
  {
    if alts == [] then 0 else PatSize(alts[0]) + AltsSize(alts[1..])
  }

  lemma {:induction false} HeadSizeOf(rows: Matrix, i: nat)
    requires i < |rows| && rows[i] != []
    ensures PatSize(rows[i][0]) <= HeadSize(rows)
  {
    if i > 0 {
      HeadSizeOf(rows[1..], i - 1);
    }
  }

  lemma NothingSpecialized(tail: seq<Pat>, c: Ctor, arity: nat)
    ensures Specialize([], c, arity) == [] && Specialize([[]], c, arity) == []
    ensures SpecializeAlts([], tail, c, arity) == []
  {
  }

  method SpecializeRows(rows: Matrix, c: Ctor, arity: nat) returns (out: Matrix)
    ensures out == Specialize(rows, c, arity)
    decreases HeadSize(rows)
  {
    hide Specialize, SpecializeAlts;
    NothingSpecialized([], c, arity);
    out := [];
    for i := 0 to |rows|
      invariant out == Specialize(rows[..i], c, arity)
    {
      assert rows[..i + 1] == rows[..i] + [rows[i]];
      SpecializeConcat(rows[..i], [rows[i]], c, arity);
      if rows[i] == [] {
        continue;
      }
      var head, tail := rows[i][0], rows[i][1..];
      assert rows[i] == [head] + tail;
      SpecializeOne(head, tail, c, arity);
      match head {
        case Wildcard =>
          out := out + [Wildcards(arity) + tail];
        case Con(rowCtor, args) =>
          if rowCtor == c {
            out := out + [args + tail];
          }
        case Or(alts) =>
          ghost var before := out;
          NothingSpecialized(tail, c, arity);
          assert alts[..0] == [];
          for k := 0 to |alts|
            invariant out == before + SpecializeAlts(alts[..k], tail, c, arity)
          {
            assert alts[..k + 1] == alts[..k] + [alts[k]];
            SpecializeAltsConcat(alts[..k], [alts[k]], tail, c, arity);
            SpecializeOne(alts[k], tail, c, arity);
            HeadSizeOf(rows, i);
            assert HeadSize([[alts[k]] + tail]) == PatSize(alts[k]);
            var mini := SpecializeRows([[alts[k]] + tail], c, arity);
            out := out + mini;
          }
          assert alts[..|alts|] == alts;
      }
    }
    assert rows[..|rows|] == rows;
  }

  lemma {:induction false} DefaultConcat(a: Matrix, b: Matrix)
    ensures DefaultMatrix(a + b) == DefaultMatrix(a) + DefaultMatrix(b)
  {
    if a == [] {
      assert a + b == b;
    } else {
      assert (a + b)[1..] == a[1..] + b;
      DefaultConcat(a[1..], b);
    }
  }

  lemma {:induction false} DefaultAltsConcat(a: seq<Pat>, b: seq<Pat>, tail: seq<Pat>)
    ensures DefaultAlts(a + b, tail) == DefaultAlts(a, tail) + DefaultAlts(b, tail)
  {
    if a == [] {
      assert a + b == b;
    } else {
      assert (a + b)[1..] == a[1..] + b;
      DefaultAltsConcat(a[1..], b, tail);
    }
  }

  lemma DefaultOne(head: Pat, tail: seq<Pat>)
    ensures DefaultMatrix([[head] + tail]) == DefaultHead(head, tail)
    ensures DefaultAlts([head], tail) == DefaultHead(head, tail)
  {
    assert ([head] + tail)[1..] == tail;
    assert DefaultMatrix([[head] + tail][1..]) == [];
  }

  lemma NoDefaults(tail: seq<Pat>)
    ensures DefaultMatrix([]) == [] && DefaultMatrix([[]]) == [] && DefaultAlts([], tail) == []
  {
  }

  method DefaultRows(rows: Matrix) returns (out: Matrix)
    ensures out == DefaultMatrix(rows)
    decreases HeadSize(rows)
  {
    hide DefaultMatrix, DefaultAlts;
    NoDefaults([]);
    out := [];
    for i := 0 to |rows|
      invariant out == DefaultMatrix(rows[..i])
    {
      assert rows[..i + 1] == rows[..i] + [rows[i]];
      DefaultConcat(rows[..i], [rows[i]]);
      if rows[i] == [] {
        continue;
      }
      var head, tail := rows[i][0], rows[i][1..];
      assert rows[i] == [head] + tail;
      DefaultOne(head, tail);
      match head {
        case Wildcard =>
          out := out + [tail];
        case Con(_, _) =>
        case Or(alts) =>
          ghost var before := out;
          NoDefaults(tail);
          assert alts[..0] == [];
          for k := 0 to |alts|
            invariant out == before + DefaultAlts(alts[..k], tail)
          {
            assert alts[..k + 1] == alts[..k] + [alts[k]];
            DefaultAltsConcat(alts[..k], [alts[k]], tail);
            DefaultOne(alts[k], tail);
            HeadSizeOf(rows, i);
            assert HeadSize([[alts[k]] + tail]) == PatSize(alts[k]);
            var mini := DefaultRows([[alts[k]] + tail]);
            out := out + mini;
          }
          assert alts[..|alts|] == alts;
      }
    }
    assert rows[..|rows|] == rows;
  }
}
