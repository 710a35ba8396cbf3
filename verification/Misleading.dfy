/**
  When the answer `Uncovered` can be false: matrices of types that mislead.

  For columns that mislead there is a matrix that covers every value and still leaves a query of wildcards uncovered.
 */
module Misleading {
  import opened Basics
  import opened Patterns
  import opened Matrices
  import opened TypeParts
  import opened Usefulness
  import opened Termination

  // ---------- matrices of wildcards ----------

  ghost predicate WildRow(row: seq<Pat>, n: nat) {
    row == Wildcards(n)
  }

  /** Rows of wildcards cover a query of wildcards. */
  lemma {:induction false} WildRowsCover(rows: Matrix, tys: seq<Type>, env: Env)
    requires rows != [] && forall i :: 0 <= i < |rows| ==> WildRow(rows[i], |tys|)
    ensures Useful(|tys| + 1, true, rows, Wildcards(|tys|), tys, env).Covered?
    decreases |tys|
  {
    hide EnumerateCtors;
    if tys != [] {
      assert Wildcards(|tys|)[1..] == Wildcards(|tys| - 1);
      DefaultOfWild(rows, |tys|);
      assert AllWild(rows);
      WildRowsCover(DefaultMatrix(rows), tys[1..], env);
    }
  }

  lemma {:induction false} DefaultOfWild(rows: Matrix, n: nat)
    requires n > 0 && forall i :: 0 <= i < |rows| ==> WildRow(rows[i], n)
    ensures |DefaultMatrix(rows)| == |rows|
    ensures forall i :: 0 <= i < |rows| ==> WildRow(DefaultMatrix(rows)[i], n - 1)
  {
    if rows != [] {
      DefaultOfWild(rows[1..], n);
      assert rows[0][1..] == Wildcards(n - 1);
    }
  }

  // ---------- building matrices column by column ----------

  /** The rows leave a query of wildcards uncovered, given room enough. */
  ghost predicate LeavesOut(rows: Matrix, tys: seq<Type>, env: Env) {
    RowsOk(rows, tys, env) && exists depth: nat :: Useful(depth, true, rows, Wildcards(|tys|), tys, env).Uncovered?
  }

  /** A wildcard in front of every row. */
  function Skipping(rows: Matrix): (r: Matrix)
    ensures |r| == |rows| && forall i :: 0 <= i < |r| ==> r[i] == [Wildcard] + rows[i]
  {
    seq(|rows|, i requires 0 <= i < |rows| => [Wildcard] + rows[i])
  }

  /** The first `k` patterns of every row under the constructor. */
  function Folded(c: Ctor, k: nat, rows: Matrix): (r: Matrix)
    requires forall i :: 0 <= i < |rows| ==> k <= |rows[i]|
    ensures |r| == |rows| && forall i :: 0 <= i < |r| ==> r[i] == [Con(c, rows[i][..k])] + rows[i][k..]
  {
    seq(|rows|, i requires 0 <= i < |rows| => [Con(c, rows[i][..k])] + rows[i][k..])
  }

  /** A row for every other constructor. */
  function Others(all: seq<Ctor>, c: Ctor, tys: seq<Type>, env: Env): Matrix
    requires tys != []
  {
    if all == [] then []
    else
      (if all[0] == c then [] else [OtherRow(all[0], tys, env)]) + Others(all[1..], c, tys, env)
  }

  function OtherRow(d: Ctor, tys: seq<Type>, env: Env): seq<Pat>
    requires tys != []
  {
    [Con(d, Wildcards(|CtorFieldTypes(d, tys[0], env)|))] + Wildcards(|tys| - 1)
  }

  lemma {:induction false} DefaultOfSkipping(rows: Matrix)
    ensures DefaultMatrix(Skipping(rows)) == rows && AllWild(Skipping(rows))
  {
    if rows != [] {
      DefaultOfSkipping(rows[1..]);
      assert Skipping(rows)[1..] == Skipping(rows[1..]);
      assert ([Wildcard] + rows[0])[1..] == rows[0];
      assert [rows[0]] + rows[1..] == rows;
    }
  }

  lemma {:induction false} SpecializeFolded(c: Ctor, k: nat, rows: Matrix, d: Ctor, arity: nat)
    requires forall i :: 0 <= i < |rows| ==> k <= |rows[i]|
    ensures Specialize(Folded(c, k, rows), d, arity) == if d == c then rows else []
  {
    hide Specialize, Folded, SpecializeHead;
    NothingSpecialized([], d, arity);
    if rows != [] {
      var row, rest := rows[0], rows[1..];
      SpecializeFolded(c, k, rest, d, arity);
      FoldedStep(c, k, rows);
      SpecializeConcat([FoldedRow(c, k, row)], Folded(c, k, rest), d, arity);
      FoldedRowOpens(c, k, row, d, arity);
      assert [row] + rest == rows;
    }
  }

  function FoldedRow(c: Ctor, k: nat, row: seq<Pat>): seq<Pat>
    requires k <= |row|
  {
    [Con(c, row[..k])] + row[k..]
  }

  lemma FoldedStep(c: Ctor, k: nat, rows: Matrix)
    requires rows != [] && forall i :: 0 <= i < |rows| ==> k <= |rows[i]|
    ensures Folded(c, k, rows) == [FoldedRow(c, k, rows[0])] + Folded(c, k, rows[1..])
  {
  }

  lemma FoldedRowOpens(c: Ctor, k: nat, row: seq<Pat>, d: Ctor, arity: nat)
    requires k <= |row|
    ensures Specialize([FoldedRow(c, k, row)], d, arity) == if d == c then [row] else []
  {
    hide Specialize;
    SpecializeOne(Con(c, row[..k]), row[k..], d, arity);
    assert row[..k] + row[k..] == row;
  }

  lemma SpecializeOther(a: Ctor, d: Ctor, tys: seq<Type>, env: Env)
    requires tys != []
    ensures var fields := CtorFieldTypes(d, tys[0], env);
      Specialize([OtherRow(a, tys, env)], d, |fields|) == if a == d then [Wildcards(|fields + tys[1..]|)] else []
  {
    hide CtorFieldTypes, Specialize;
    var fields := CtorFieldTypes(d, tys[0], env);
    SpecializeOne(Con(a, Wildcards(|CtorFieldTypes(a, tys[0], env)|)), Wildcards(|tys| - 1), d, |fields|);
    WildcardsConcat(|fields|, |tys| - 1);
  }

  /** The row of another constructor opens to a row of wildcards; the rows of others, and of `c`, are dropped. */
  lemma {:induction false} SpecializeOthers(all: seq<Ctor>, c: Ctor, d: Ctor, tys: seq<Type>, env: Env)
    requires tys != []
    ensures var fields := CtorFieldTypes(d, tys[0], env);
      var r := Specialize(Others(all, c, tys, env), d, |fields|);
      && (forall i :: 0 <= i < |r| ==> WildRow(r[i], |fields + tys[1..]|))
      && (d == c ==> r == []) && (d != c && d in all ==> r != [])
  {
    hide CtorFieldTypes, Specialize, OtherRow;
    var fields := CtorFieldTypes(d, tys[0], env);
    NothingSpecialized([], d, |fields|);
    if all != [] {
      SpecializeOthers(all[1..], c, d, tys, env);
      var rest := Others(all[1..], c, tys, env);
      if all[0] == c {
        assert [] + rest == rest;
      } else {
        SpecializeOther(all[0], d, tys, env);
        SpecializeConcat([OtherRow(all[0], tys, env)], rest, d, |fields|);
      }
    }
  }

  // ---------- one column more ----------

  lemma WildcardIsOk(ty: Type, env: Env)
    ensures PatOk(Wildcard, ty, env)
  {
  }

  /** Skipping a column, over rows or at an open type. */
  lemma SkipLeavesOut(rows: Matrix, ty: Type, tys: seq<Type>, env: Env)
    requires LeavesOut(rows, tys, env) && (rows != [] || EnumerateCtors(ty, env).None?)
    ensures LeavesOut(Skipping(rows), [ty] + tys, env)
  {
    hide EnumerateCtors, PatOk;
    DefaultOfSkipping(rows);
    var depth: nat :| Useful(depth, true, rows, Wildcards(|tys|), tys, env).Uncovered?;
    assert Wildcards(|[ty] + tys|)[1..] == Wildcards(|tys|) && ([ty] + tys)[1..] == tys;
    assert Useful(depth + 1, true, Skipping(rows), Wildcards(|[ty] + tys|), [ty] + tys, env).Uncovered?;
    forall i | 0 <= i < |rows| ensures PatsOk(Skipping(rows)[i], [ty] + tys, env) {
      assert PatOk(Wildcard, ([ty] + tys)[0], env) by {
        WildcardIsOk(ty, env);
      }
      ConsOk(Wildcard, rows[i], [ty] + tys, env);
    }
  }

  /** Opened with `c` the rows are `inner`, and opened with any other constructor they are rows of wildcards. */
  ghost predicate OpensTo(rows: Matrix, all: seq<Ctor>, c: Ctor, inner: Matrix, tys: seq<Type>, env: Env)
    requires tys != []
  {
    && RowsOk(rows, tys, env) && !(rows != [] && AllWild(rows))
    && Specialize(rows, c, |CtorFieldTypes(c, tys[0], env)|) == inner
    && forall d :: d in all && d != c ==> OpensWild(rows, d, tys, env)
  }

  ghost predicate OpensWild(rows: Matrix, d: Ctor, tys: seq<Type>, env: Env)
    requires tys != []
  {
    var r := Specialize(rows, d, |CtorFieldTypes(d, tys[0], env)|);
    r != [] && forall i :: 0 <= i < |r| ==> WildRow(r[i], |OpenedTypes(d, tys, env)|)
  }

  lemma {:induction false} CtorsLeaveOut(
    ctors: seq<Ctor>, rows: Matrix, c: Ctor, tys: seq<Type>, env: Env) returns (depth: nat)
    requires tys != [] && c in ctors
    requires LeavesOut(Specialize(rows, c, |CtorFieldTypes(c, tys[0], env)|), OpenedTypes(c, tys, env), env)
    requires forall d :: d in ctors && d != c ==> OpensWild(rows, d, tys, env)
    ensures UsefulCtors(depth, true, ctors, rows, Wildcards(|tys[1..]|), tys[0], tys[1..], env).Uncovered?
    decreases |ctors|
  {
    hide Useful, Specialize, CtorFieldTypes, RowsOk;
    var d := ctors[0];
    var fields := CtorFieldTypes(d, tys[0], env);
    var first := Specialize(rows, d, |fields|);
    WildcardsConcat(|fields|, |tys[1..]|);
    if d == c {
      depth :| Useful(depth, true, first, Wildcards(|fields + tys[1..]|), fields + tys[1..], env).Uncovered?;
    } else {
      assert OpensWild(rows, d, tys, env);
      WildRowsCover(first, fields + tys[1..], env);
      var a := |fields + tys[1..]| + 1;
      var b := CtorsLeaveOut(ctors[1..], rows, c, tys, env);
      depth := if a < b then b else a;
      MoreRoom(a, depth, true, first, Wildcards(|fields + tys[1..]|), fields + tys[1..], env);
      MoreRoomCtors(b, depth, true, ctors[1..], rows, Wildcards(|tys[1..]|), tys[0], tys[1..], env);
    }
  }

  lemma OpenLeavesOut(rows: Matrix, all: seq<Ctor>, c: Ctor, inner: Matrix, tys: seq<Type>, env: Env)
    requires tys != [] && EnumerateCtors(tys[0], env) == Some(all) && c in all
    requires OpensTo(rows, all, c, inner, tys, env) && LeavesOut(inner, OpenedTypes(c, tys, env), env)
    ensures LeavesOut(rows, tys, env)
  {
    hide UsefulCtors, Specialize, CtorFieldTypes, OpensWild, EnumerateCtors, RowsOk;
    var depth := CtorsLeaveOut(all, rows, c, tys, env);
    assert Wildcards(|tys|)[1..] == Wildcards(|tys[1..]|);
    assert Useful(depth + 1, true, rows, Wildcards(|tys|), tys, env).Uncovered?;
  }

  /** The rows cover every value. */
  ghost predicate CoversAll(rows: Matrix, tys: seq<Type>, env: Env) {
    forall vs :: HaveTypes(vs, tys, env) ==> Covers(rows, vs)
  }

  lemma WildRowsMatch(rows: Matrix, vs: seq<Value>)
    requires rows != [] && WildRow(rows[0], |vs|)
    ensures Covers(rows, vs)
  {
    WildcardsMatch(vs);
  }

  lemma OpenCoversAll(rows: Matrix, all: seq<Ctor>, c: Ctor, inner: Matrix, tys: seq<Type>, env: Env)
    requires tys != [] && EnumerateCtors(tys[0], env) == Some(all) && c in all
    requires OpensTo(rows, all, c, inner, tys, env) && CoversAll(inner, OpenedTypes(c, tys, env), env)
    ensures CoversAll(rows, tys, env)
  {
    hide Specialize, CtorFieldTypes, RowsOk, HasType, HaveTypes, Covers;
    forall vs | HaveTypes(vs, tys, env) ensures Covers(rows, vs) {
      var v := HeadValue(vs, tys, all, env);
      var fields, args, rest := CtorFieldTypes(v.ctor, tys[0], env), v.args, vs[1..];
      HaveTypesSplit(args, rest, fields, tys[1..], env);
      SpecializeMeans(rows, v.ctor, args, rest, tys, env);
      if v.ctor != c {
        assert OpensWild(rows, v.ctor, tys, env);
        HaveTypesLength(args + rest, fields + tys[1..], env);
        WildRowsMatch(Specialize(rows, v.ctor, |args|), args + rest);
      }
    }
  }

  lemma HaveTypesLength(vs: seq<Value>, tys: seq<Type>, env: Env)
    requires HaveTypes(vs, tys, env)
    ensures |vs| == |tys|
  {
  }

  /** The first value of a vector, at a closed type. */
  lemma HeadValue(vs: seq<Value>, tys: seq<Type>, all: seq<Ctor>, env: Env) returns (v: Value)
    requires tys != [] && HaveTypes(vs, tys, env) && EnumerateCtors(tys[0], env) == Some(all)
    ensures vs == [v] + vs[1..] && v.Built? && v.ctor in all && HaveTypes(vs[1..], tys[1..], env)
    ensures |v.args| == |CtorFieldTypes(v.ctor, tys[0], env)|
    ensures HaveTypes(v.args, CtorFieldTypes(v.ctor, tys[0], env), env)
    ensures v == Built(v.ctor, v.args)
  {
    hide EnumerateCtors, CtorFieldTypes;
    v := vs[0];
    assert HasType(vs[0], tys[0], env);
  }

  /** A closed column opened with one constructor, with a row for each of the others. */
  lemma Opening(all: seq<Ctor>, c: Ctor, inner: Matrix, tys: seq<Type>, env: Env) returns (rows: Matrix)
    requires tys != [] && EnumerateCtors(tys[0], env) == Some(all) && c in all
    requires RowsOk(inner, OpenedTypes(c, tys, env), env)
    ensures OpensTo(rows, all, c, inner, tys, env)
    ensures rows == [] ==> inner == [] && forall d :: d in all ==> d == c
  {
    hide EnumerateCtors, CtorFieldTypes, Specialize, PatOk, WildRow, OpensWild, Others;
    var k := |CtorFieldTypes(c, tys[0], env)|;
    forall i | 0 <= i < |inner| ensures k <= |inner[i]| {
      assert PatsOk(inner[i], OpenedTypes(c, tys, env), env);
    }
    var folded, others := Folded(c, k, inner), Others(all, c, tys, env);
    rows := folded + others;
    FoldedOk(c, inner, tys, env);
    OthersOk(all, all, c, tys, env);
    forall d | d in all ensures Specialize(rows, d, |CtorFieldTypes(d, tys[0], env)|) ==
      if d == c then inner else Specialize(others, d, |CtorFieldTypes(d, tys[0], env)|)
    {
      OpeningOpens(all, c, k, inner, d, tys, env);
    }
    forall d | d in all && d != c ensures OpensWild(rows, d, tys, env) {
      OthersOpenWild(all, c, rows, d, tys, env);
    }
    OthersHeads(all, c, tys, env);
    if rows != [] {
      assert rows[0] == if inner != [] then folded[0] else others[0];
    }
  }

  lemma OpeningOpens(all: seq<Ctor>, c: Ctor, k: nat, inner: Matrix, d: Ctor, tys: seq<Type>, env: Env)
    requires tys != [] && forall i :: 0 <= i < |inner| ==> k <= |inner[i]|
    ensures var (others, arity) := (Others(all, c, tys, env), |CtorFieldTypes(d, tys[0], env)|);
      Specialize(Folded(c, k, inner) + others, d, arity) == if d == c then inner else Specialize(others, d, arity)
  {
    hide CtorFieldTypes, Specialize, Folded, WildRow, Others;
    var others, arity := Others(all, c, tys, env), |CtorFieldTypes(d, tys[0], env)|;
    SpecializeConcat(Folded(c, k, inner), others, d, arity);
    SpecializeFolded(c, k, inner, d, arity);
    SpecializeOthers(all, c, d, tys, env);
    assert inner + [] == inner && [] + Specialize(others, d, arity) == Specialize(others, d, arity);
  }

  lemma OthersOpenWild(all: seq<Ctor>, c: Ctor, rows: Matrix, d: Ctor, tys: seq<Type>, env: Env)
    requires tys != [] && d in all && d != c
    requires var arity := |CtorFieldTypes(d, tys[0], env)|;
      Specialize(rows, d, arity) == Specialize(Others(all, c, tys, env), d, arity)
    ensures OpensWild(rows, d, tys, env)
  {
    hide CtorFieldTypes, Specialize, WildRow, Others;
    SpecializeOthers(all, c, d, tys, env);
  }

  lemma {:induction false} OthersHeads(all: seq<Ctor>, c: Ctor, tys: seq<Type>, env: Env)
    requires tys != []
    ensures forall i :: 0 <= i < |Others(all, c, tys, env)| ==>
      Others(all, c, tys, env)[i] != [] && Others(all, c, tys, env)[i][0].Con?
    ensures Others(all, c, tys, env) == [] ==> forall d :: d in all ==> d == c
  {
    hide CtorFieldTypes;
    if all != [] {
      OthersHeads(all[1..], c, tys, env);
      assert forall d :: d in all ==> d == all[0] || d in all[1..];
    }
  }

  lemma FoldedOk(c: Ctor, inner: Matrix, tys: seq<Type>, env: Env)
    requires tys != [] && CtorOf(c, tys[0], env) && RowsOk(inner, OpenedTypes(c, tys, env), env)
    requires forall i :: 0 <= i < |inner| ==> |CtorFieldTypes(c, tys[0], env)| <= |inner[i]|
    ensures RowsOk(Folded(c, |CtorFieldTypes(c, tys[0], env)|, inner), tys, env)
  {
    hide CtorOf, CtorFieldTypes;
    var fields := CtorFieldTypes(c, tys[0], env);
    forall i | 0 <= i < |inner|
      ensures PatsOk([Con(c, inner[i][..|fields|])] + inner[i][|fields|..], tys, env)
    {
      assert PatsOk(inner[i], fields + tys[1..], env);
      assert forall j :: 0 <= j < |fields| ==> (fields + tys[1..])[j] == fields[j];
      assert forall j :: 1 <= j < |tys| ==> (fields + tys[1..])[|fields| + j - 1] == tys[j];
    }
  }

  lemma OtherOk(d: Ctor, tys: seq<Type>, env: Env)
    requires tys != [] && CtorOf(d, tys[0], env)
    ensures PatsOk(OtherRow(d, tys, env), tys, env)
  {
    hide CtorOf, CtorFieldTypes;
    WildcardsOk(CtorFieldTypes(d, tys[0], env), env);
    WildcardsOk(tys[1..], env);
  }

  lemma {:induction false} OthersOk(part: seq<Ctor>, all: seq<Ctor>, c: Ctor, tys: seq<Type>, env: Env)
    requires tys != [] && EnumerateCtors(tys[0], env) == Some(all) && forall d :: d in part ==> d in all
    ensures RowsOk(Others(part, c, tys, env), tys, env)
  {
    hide EnumerateCtors, CtorFieldTypes;
    if part != [] {
      OthersOk(part[1..], all, c, tys, env);
      assert part[0] in all;
      OtherOk(part[0], tys, env);
    }
  }

  // ---------- matrices that let a value through ----------

  /** Columns with values: some matrix leaves a query of wildcards uncovered. */
  lemma {:induction false} ValuesLeaveOut(
    vs: seq<Value>, tys: seq<Type>, behind: Matrix, restTys: seq<Type>, env: Env) returns (rows: Matrix)
    requires HaveTypes(vs, tys, env) && LeavesOut(behind, restTys, env)
    ensures LeavesOut(rows, tys + restTys, env)
    decreases vs, 0
  {
    hide LeavesOut, HasType;
    if vs == [] {
      assert tys + restTys == restTys;
      rows := behind;
    } else {
      rows := ValuesLeaveOut(vs[1..], tys[1..], behind, restTys, env);
      assert tys + restTys == [tys[0]] + (tys[1..] + restTys);
      rows := ValueLeavesOut(vs[0], tys[0], rows, tys[1..] + restTys, env);
    }
  }

  lemma {:induction false} ValueLeavesOut(
    v: Value, ty: Type, behind: Matrix, restTys: seq<Type>, env: Env) returns (rows: Matrix)
    requires HasType(v, ty, env) && LeavesOut(behind, restTys, env)
    ensures LeavesOut(rows, [ty] + restTys, env)
    decreases v, 1
  {
    hide LeavesOut, HasType, CtorFieldTypes, CtorOf, OpensTo;
    var tys := [ty] + restTys;
    assert tys[1..] == restTys;
    match EnumerateCtors(ty, env)
    case None =>
      SkipLeavesOut(behind, ty, restTys, env);
      rows := Skipping(behind);
    case Some(all) =>
      var vs := [v];
      assert HaveTypes(vs, [ty], env);
      var w := HeadValue(vs, [ty], all, env);
      var inner := ValuesLeaveOut(v.args, CtorFieldTypes(v.ctor, ty, env), behind, restTys, env);
      LeavesOutOk(inner, OpenedTypes(v.ctor, tys, env), env);
      rows := Opening(all, v.ctor, inner, tys, env);
      OpenLeavesOut(rows, all, v.ctor, inner, tys, env);
  }

  lemma LeavesOutOk(rows: Matrix, tys: seq<Type>, env: Env)
    requires LeavesOut(rows, tys, env)
    ensures RowsOk(rows, tys, env)
  {
  }

  lemma NothingLeavesOut(env: Env)
    ensures LeavesOut([], [], env)
  {
    assert Useful(1, true, [], Wildcards(0), [], env).Uncovered?;
  }

  /** Columns that split: a matrix with rows leaves a query of wildcards uncovered. */
  lemma {:induction false} SplitsLeaveOut(n: nat, tys: seq<Type>, env: Env) returns (rows: Matrix)
    requires SplitsIn(n, tys, env)
    ensures rows != [] && LeavesOut(rows, tys, env)
    decreases n
  {
    hide LeavesOut, CtorOf, OpenedTypes, Parts;
    if SplitsIn(n - 1, tys[1..], env) {
      rows := SplitsLeaveOut(n - 1, tys[1..], env);
      rows := Skipped(rows, tys, env);
    } else if Parts(tys, env) {
      rows := PartsLeaveOut(tys, env);
    } else {
      var c :| CtorOf(c, tys[0], env) && SplitsIn(n - 1, OpenedTypes(c, tys, env), env);
      rows := SplitsLeaveOut(n - 1, OpenedTypes(c, tys, env), env);
      rows := Opened(c, rows, tys, env);
    }
  }

  lemma Skipped(inner: Matrix, tys: seq<Type>, env: Env) returns (rows: Matrix)
    requires tys != [] && inner != [] && LeavesOut(inner, tys[1..], env)
    ensures rows == Skipping(inner) && rows != [] && LeavesOut(rows, tys, env)
  {
    hide LeavesOut;
    assert [tys[0]] + tys[1..] == tys;
    SkipLeavesOut(inner, tys[0], tys[1..], env);
    rows := Skipping(inner);
  }

  lemma Opened(c: Ctor, inner: Matrix, tys: seq<Type>, env: Env) returns (rows: Matrix)
    requires tys != [] && CtorOf(c, tys[0], env) && inner != [] && LeavesOut(inner, OpenedTypes(c, tys, env), env)
    ensures rows != [] && LeavesOut(rows, tys, env)
    ensures EnumerateCtors(tys[0], env).Some? ==> OpensTo(rows, EnumerateCtors(tys[0], env).value, c, inner, tys, env)
    ensures EnumerateCtors(tys[0], env).None? ==> OpenedTypes(c, tys, env) == tys[1..] && rows == Skipping(inner)
  {
    hide LeavesOut, OpensTo, CtorFieldTypes;
    match EnumerateCtors(tys[0], env)
    case None =>
      LiteralFields(c, tys, env);
      rows := Skipped(inner, tys, env);
    case Some(all) =>
      LeavesOutOk(inner, OpenedTypes(c, tys, env), env);
      rows := Opening(all, c, inner, tys, env);
      OpenLeavesOut(rows, all, c, inner, tys, env);
  }

  lemma PartsLeaveOut(tys: seq<Type>, env: Env) returns (rows: Matrix)
    requires tys != [] && Parts(tys, env)
    ensures rows != [] && LeavesOut(rows, tys, env)
  {
    hide LeavesOut, CtorFieldTypes, OpensTo, HasType;
    var c, d :|
      && CtorOf(c, tys[0], env) && CtorOf(d, tys[0], env) && c != d
      && AllHaveValue(OpenedTypes(c, tys, env), env);
    var vs := SomeValues(OpenedTypes(c, tys, env), env);
    NothingLeavesOut(env);
    var inner := ValuesLeaveOut(vs, OpenedTypes(c, tys, env), [], [], env);
    assert OpenedTypes(c, tys, env) + [] == OpenedTypes(c, tys, env);
    LeavesOutOk(inner, OpenedTypes(c, tys, env), env);
    match EnumerateCtors(tys[0], env)
    case None =>
      LiteralFields(c, tys, env);
      rows := LiteralLeavesOut(d, inner, tys, env);
    case Some(all) =>
      rows := Opening(all, c, inner, tys, env);
      OpenLeavesOut(rows, all, c, inner, tys, env);
  }

  /** At an open type: a row for one literal, and the others skipped. */
  lemma LiteralLeavesOut(d: Ctor, inner: Matrix, tys: seq<Type>, env: Env) returns (rows: Matrix)
    requires tys != [] && EnumerateCtors(tys[0], env).None? && CtorOf(d, tys[0], env) && LeavesOut(inner, tys[1..], env)
    ensures rows != [] && LeavesOut(rows, tys, env)
  {
    hide EnumerateCtors;
    LiteralFields(d, tys, env);
    var row := [Con(d, [])] + Wildcards(|tys| - 1);
    rows := [row] + Skipping(inner);
    DefaultOfSkipping(inner);
    assert rows[0] == row && rows[1..] == Skipping(inner) && [] + DefaultMatrix(rows[1..]) == inner;
    assert DefaultMatrix(rows) == inner;
    var depth: nat :| Useful(depth, true, inner, Wildcards(|tys[1..]|), tys[1..], env).Uncovered?;
    assert Wildcards(|tys|)[1..] == Wildcards(|tys[1..]|);
    assert Useful(depth + 1, true, rows, Wildcards(|tys|), tys, env).Uncovered?;
    LiteralRowsOk(row, d, inner, tys, env);
  }

  lemma LiteralRowsOk(row: seq<Pat>, d: Ctor, inner: Matrix, tys: seq<Type>, env: Env)
    requires tys != [] && CtorOf(d, tys[0], env) && CtorFieldTypes(d, tys[0], env) == []
    requires row == [Con(d, [])] + Wildcards(|tys| - 1) && RowsOk(inner, tys[1..], env)
    ensures RowsOk([row] + Skipping(inner), tys, env)
  {
    hide CtorOf, CtorFieldTypes;
    assert PatsOk(row, tys, env);
    forall i | 0 <= i < |inner| ensures PatsOk(Skipping(inner)[i], tys, env) {
      assert PatsOk(inner[i], tys[1..], env);
    }
  }

  // ---------- matrices that mislead ----------

  /** Columns that mislead: a matrix that covers every value leaves a query of wildcards uncovered. */
  lemma {:induction false} MisleadingRows(n: nat, tys: seq<Type>, env: Env) returns (rows: Matrix)
    requires MisleadsIn(n, tys, env)
    ensures rows != [] && LeavesOut(rows, tys, env) && CoversAll(rows, tys, env)
    decreases n
  {
    hide LeavesOut, CtorOf, OpenedTypes, CoversAll, HasValue;
    if !HasValue(tys[0], env) && Splits(tys[1..], env) {
      var m: nat :| SplitsIn(m, tys[1..], env);
      var inner := SplitsLeaveOut(m, tys[1..], env);
      rows := Skipped(inner, tys, env);
      NothingToCover(rows, tys, env);
    } else if MisleadsIn(n - 1, tys[1..], env) {
      var inner := MisleadingRows(n - 1, tys[1..], env);
      rows := Skipped(inner, tys, env);
      SkippingCoversAll(inner, tys, env);
    } else {
      var c :| CtorOf(c, tys[0], env) && MisleadsIn(n - 1, OpenedTypes(c, tys, env), env);
      var inner := MisleadingRows(n - 1, OpenedTypes(c, tys, env), env);
      rows := MisleadingOpened(c, inner, tys, env);
    }
  }

  lemma MisleadingOpened(c: Ctor, inner: Matrix, tys: seq<Type>, env: Env) returns (rows: Matrix)
    requires tys != [] && CtorOf(c, tys[0], env) && inner != []
    requires LeavesOut(inner, OpenedTypes(c, tys, env), env) && CoversAll(inner, OpenedTypes(c, tys, env), env)
    ensures rows != [] && LeavesOut(rows, tys, env) && CoversAll(rows, tys, env)
  {
    hide LeavesOut, CoversAll, OpensTo, OpenedTypes;
    rows := Opened(c, inner, tys, env);
    match EnumerateCtors(tys[0], env)
    case None =>
      SkippingCoversAll(inner, tys, env);
    case Some(all) =>
      OpenCoversAll(rows, all, c, inner, tys, env);
  }

  lemma NothingToCover(rows: Matrix, tys: seq<Type>, env: Env)
    requires tys != [] && !HasValue(tys[0], env)
    ensures CoversAll(rows, tys, env)
  {
    hide HasType;
    forall vs: seq<Value> | |vs| == |tys| ensures !HaveTypes(vs, tys, env) {
      assert !HasType(vs[0], tys[0], env);
    }
  }

  lemma SkippingCoversAll(inner: Matrix, tys: seq<Type>, env: Env)
    requires tys != [] && CoversAll(inner, tys[1..], env)
    ensures CoversAll(Skipping(inner), tys, env)
  {
    hide HasType;
    forall vs | HaveTypes(vs, tys, env) ensures Covers(Skipping(inner), vs) {
      assert HaveTypes(vs[1..], tys[1..], env) && vs == [vs[0]] + vs[1..];
      var i :| 0 <= i < |inner| && MatchesAll(inner[i], vs[1..]);
      MatchesCons(Wildcard, inner[i], vs[0], vs[1..]);
      assert MatchesAll(Skipping(inner)[i], vs);
    }
  }

  /** The answer `Uncovered` for a query of wildcards can be false exactly if the columns mislead. */
  lemma MisleadsExactly(tys: seq<Type>, env: Env)
    ensures Misleads(tys, env) <==>
      exists rows: Matrix :: LeavesOut(rows, tys, env) && CoversAll(rows, tys, env)
  {
    hide MisleadsIn;
    if Misleads(tys, env) {
      var n: nat :| MisleadsIn(n, tys, env);
      var rows := MisleadingRows(n, tys, env);
    }
    if rows: Matrix :| LeavesOut(rows, tys, env) && CoversAll(rows, tys, env) {
      if !Misleads(tys, env) {
        LeftOutEscapes(rows, tys, env);
      }
    }
  }

  lemma LeftOutEscapes(rows: Matrix, tys: seq<Type>, env: Env)
    requires !Misleads(tys, env) && LeavesOut(rows, tys, env)
    ensures !CoversAll(rows, tys, env)
  {
    hide Misleads, HaveTypes, MatchesAll, Covers;
    var depth: nat :| Useful(depth, true, rows, Wildcards(|tys|), tys, env).Uncovered?;
    WildcardsOk(tys, env);
    var vs := UncoveredMeans(depth, true, rows, Wildcards(|tys|), tys, env);
    assert HaveTypes(vs, tys, env) && !Covers(rows, vs);
  }

  // ---------- one column, one pattern ----------

  lemma {:induction false} SpecializeHeads(alts: seq<Pat>, rows: Matrix, c: Ctor, arity: nat)
    requires |alts| == |rows| && forall i :: 0 <= i < |rows| ==> rows[i] == [alts[i]]
    ensures SpecializeAlts(alts, [], c, arity) == Specialize(rows, c, arity)
  {
    if rows != [] {
      assert rows[0][1..] == [];
      SpecializeHeads(alts[1..], rows[1..], c, arity);
    }
  }

  lemma SpecializeOr(alts: seq<Pat>, rows: Matrix, c: Ctor, arity: nat)
    requires |alts| == |rows| && forall i :: 0 <= i < |rows| ==> rows[i] == [alts[i]]
    ensures Specialize([[Or(alts)]], c, arity) == Specialize(rows, c, arity)
  {
    SpecializeHeads(alts, rows, c, arity);
    var m: Matrix := [[Or(alts)]];
    assert m[0][1..] == [] && m[1..] == [];
    assert SpecializeAlts(alts, [], c, arity) + [] == SpecializeAlts(alts, [], c, arity);
  }

  /** The rows of a matrix of one column as the alternatives of one pattern. */
  lemma OneRow(rows: Matrix, all: seq<Ctor>, c: Ctor, inner: Matrix, ty: Type, env: Env) returns (p: Pat)
    requires rows != [] && OpensTo(rows, all, c, inner, [ty], env)
    ensures PatOk(p, ty, env) && OpensTo([[p]], all, c, inner, [ty], env)
  {
    hide CtorFieldTypes, Specialize, CtorOf, WildRow;
    assert forall i :: 0 <= i < |rows| ==> PatsOk(rows[i], [ty], env);
    var alts := seq(|rows|, i requires 0 <= i < |rows| => rows[i][0]);
    p := Or(alts);
    forall i | 0 <= i < |rows| ensures rows[i] == [alts[i]] && PatOk(alts[i], ty, env) {
      assert PatOk(rows[i][0], [ty][0], env);
    }
    SpecializeOr(alts, rows, c, |CtorFieldTypes(c, ty, env)|);
    forall d | d in all && d != c ensures OpensWild([[p]], d, [ty], env) {
      assert OpensWild(rows, d, [ty], env);
      SpecializeOr(alts, rows, d, |CtorFieldTypes(d, ty, env)|);
    }
    var m: Matrix := [[p]];
    assert m[0] == [p] && PatsOk([p], [ty], env);
    assert !m[0][0].Wildcard?;
  }

  /** A type that misleads: a pattern that matches every value, and is answered as if it did not. */
  lemma MisleadingPat(ty: Type, env: Env) returns (p: Pat, depth: nat)
    requires Misleads([ty], env)
    ensures PatOk(p, ty, env) && Useful(depth, true, [[p]], [Wildcard], [ty], env).Uncovered?
    ensures forall v :: HasType(v, ty, env) ==> Matches(p, v)
  {
    hide Useful, OpensTo, CtorFieldTypes, OpenedTypes, RowsOk, PatOk, HasType;
    var n: nat :| MisleadsIn(n, [ty], env);
    NothingMisleads(env);
    var c := OneColumnMisleads(n, ty, env);
    if EnumerateCtors(ty, env).None? {
      LiteralFields(c, [ty], env);
    }
    var all := EnumerateCtors(ty, env).value;
    var inner := MisleadingRows(n - 1, OpenedTypes(c, [ty], env), env);
    var rows := Opened(c, inner, [ty], env);
    p := OneRow(rows, all, c, inner, ty, env);
    OpenLeavesOut([[p]], all, c, inner, [ty], env);
    assert Wildcards(|[ty]|) == [Wildcard];
    depth :| Useful(depth, true, [[p]], [Wildcard], [ty], env).Uncovered?;
    OpenCoversAll([[p]], all, c, inner, [ty], env);
    forall v | HasType(v, ty, env) ensures Matches(p, v) {
      OneColumn(p, v, ty, env);
    }
  }

  lemma OneColumn(p: Pat, v: Value, ty: Type, env: Env)
    requires CoversAll([[p]], [ty], env) && HasType(v, ty, env)
    ensures Matches(p, v)
  {
    hide HasType, Matches;
    assert HaveTypes([v], [ty], env);
    CoversOne([p], [v]);
    assert MatchesAll([p], [v]) <==> Matches([p][0], [v][0]);
  }
}
