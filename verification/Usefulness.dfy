/**
  The witness-producing usefulness recursion.

  `fast` selects the shortcut for a column of wildcards; the compiler runs with it on. `depth` is the number of nested
  calls the stack has room for.
 */
module Usefulness {
  import opened Patterns
  import opened Matrices
  import opened TypeParts

  /** `Unfinished` stands for a stack without room for the recursion. */
  datatype Answer = Unfinished | Covered | Uncovered(missing: seq<Pat>)

  /** Folds the first `arity` patterns of a witness back under `c`. */
  function Repackage(c: Ctor, arity: nat, inner: seq<Pat>): seq<Pat> {
    var cut := if arity <= |inner| then arity else |inner|;
    [Con(c, inner[..cut])] + inner[cut..]
  }

  function RepackageAnswer(c: Ctor, arity: nat, a: Answer): Answer {
    if a.Uncovered? then Uncovered(Repackage(c, arity, a.missing)) else a
  }

  function PrependWildcard(a: Answer): Answer {
    if a.Uncovered? then Uncovered([Wildcard] + a.missing) else a
  }

  /** Rust's `resize`: truncated, or padded with the unit type. */
  function Resize(tys: seq<Type>, n: nat): (r: seq<Type>)
    ensures |r| == n
    ensures |tys| == n ==> r == tys
  {
    if n <= |tys| then tys[..n] else tys + Repeat(UnitType, n - |tys|)
  }

  /** `U(P, q)`: whether `rows` cover `q`; if not, a witness with one pattern per column. */
  function Useful(depth: nat, fast: bool, rows: Matrix, q: seq<Pat>, tys: seq<Type>, env: Env): Answer
    requires |q| == |tys|
    decreases depth, 0
  {
    if depth == 0 then Unfinished
    else if q == [] then
      if rows == [] then Uncovered([]) else Covered
    else
      var (head, rest, ty, restTys) := (q[0], q[1..], tys[0], tys[1..]);
      match head
      case Or(alts) =>
        UsefulAlts(depth - 1, fast, alts, rows, rest, ty, restTys, env)
      case Con(c, args) =>
        var fields := Resize(CtorFieldTypes(c, ty, env), |args|);
        RepackageAnswer(c, |args|,
          Useful(depth - 1, fast, Specialize(rows, c, |args|), args + rest, fields + restTys, env))
      case Wildcard =>
        if fast && rows != [] && AllWild(rows) then
          PrependWildcard(Useful(depth - 1, fast, DefaultMatrix(rows), rest, restTys, env))
        else
          match EnumerateCtors(ty, env)
          case Some(all) =>
            UsefulCtors(depth - 1, fast, all, rows, rest, ty, restTys, env)
          case None =>
            PrependWildcard(Useful(depth - 1, fast, DefaultMatrix(rows), rest, restTys, env))
  }

  /** The first useful alternative in head position. */
  function UsefulAlts(
    depth: nat, fast: bool, alts: seq<Pat>, rows: Matrix, rest: seq<Pat>, ty: Type, restTys: seq<Type>,
    env: Env): Answer
    requires |rest| == |restTys|
    decreases depth, 1 + |alts|
  {
    if alts == [] then Covered
    else
      var a := Useful(depth, fast, rows, [alts[0]] + rest, [ty] + restTys, env);
      if a.Covered? then UsefulAlts(depth, fast, alts[1..], rows, rest, ty, restTys, env) else a
  }

  /** The first constructor with an uncovered value. */
  function UsefulCtors(
    depth: nat, fast: bool, ctors: seq<Ctor>, rows: Matrix, rest: seq<Pat>, ty: Type, restTys: seq<Type>,
    env: Env): Answer
    requires |rest| == |restTys|
    decreases depth, 1 + |ctors|
  {
    if ctors == [] then Covered
    else
      var c := ctors[0];
      var fields := CtorFieldTypes(c, ty, env);
      var a := Useful(depth, fast, Specialize(rows, c, |fields|), Wildcards(|fields|) + rest, fields + restTys, env);
      if a.Covered? then UsefulCtors(depth, fast, ctors[1..], rows, rest, ty, restTys, env)
      else RepackageAnswer(c, |fields|, a)
  }

  // ---------- covered ----------

  /** A vector of values of the given types that `q` matches and no row does. */
  ghost predicate Escapes(rows: Matrix, q: seq<Pat>, tys: seq<Type>, env: Env, vs: seq<Value>) {
    HaveTypes(vs, tys, env) && MatchesAll(q, vs) && !Covers(rows, vs)
  }

  lemma HaveTypesCons(v: Value, vs: seq<Value>, tys: seq<Type>, env: Env)
    requires tys != []
    ensures HaveTypes([v] + vs, tys, env) <==> HasType(v, tys[0], env) && HaveTypes(vs, tys[1..], env)
  {
    hide HasType;
    if HaveTypes([v] + vs, tys, env) {
      assert ([v] + vs)[0] == v;
      forall i | 0 <= i < |vs| ensures HasType(vs[i], tys[1..][i], env) {
        assert ([v] + vs)[i + 1] == vs[i];
      }
    }
  }

  lemma HaveTypesSplit(a: seq<Value>, b: seq<Value>, ta: seq<Type>, tb: seq<Type>, env: Env)
    requires |a| == |ta|
    ensures HaveTypes(a + b, ta + tb, env) <==> HaveTypes(a, ta, env) && HaveTypes(b, tb, env)
  {
    if HaveTypes(a + b, ta + tb, env) {
      forall i | 0 <= i < |a| ensures HasType(a[i], ta[i], env) {
        assert (a + b)[i] == a[i];
      }
      forall i | 0 <= i < |b| ensures HasType(b[i], tb[i], env) {
        assert (a + b)[|a| + i] == b[i];
      }
    }
  }

  lemma PatsOkSplit(a: seq<Pat>, b: seq<Pat>, ta: seq<Type>, tb: seq<Type>, env: Env)
    requires |a| == |ta| && PatsOk(a, ta, env) && PatsOk(b, tb, env)
    ensures PatsOk(a + b, ta + tb, env)
  {
  }

  lemma BuiltHasType(c: Ctor, args: seq<Value>, ty: Type, env: Env)
    ensures HasType(Built(c, args), ty, env) <==> CtorOf(c, ty, env) && HaveTypes(args, CtorFieldTypes(c, ty, env), env)
  {
  }

  /** Opening the head of a column: the specialized problem has the same escaping vectors. */
  lemma OpenEscapes(
    rows: Matrix, c: Ctor, ps: seq<Pat>, rest: seq<Pat>, args: seq<Value>, vs: seq<Value>, tys: seq<Type>, env: Env)
    requires tys != [] && RowsOk(rows, tys, env) && CtorOf(c, tys[0], env)
    requires |args| == |ps| == |CtorFieldTypes(c, tys[0], env)|
    ensures var fields := CtorFieldTypes(c, tys[0], env);
      Escapes(Specialize(rows, c, |ps|), ps + rest, fields + tys[1..], env, args + vs) <==>
      Escapes(rows, [Con(c, ps)] + rest, tys, env, [Built(c, args)] + vs)
  {
    hide PatOk, MatchesAll, Covers, HaveTypes, HasType, Matches, CtorOf, CtorFieldTypes, RowsOk;
    var fields := CtorFieldTypes(c, tys[0], env);
    SpecializeMeans(rows, c, args, vs, tys, env);
    MatchesSplit(ps, rest, args, vs);
    ConMatches(ps, c, args);
    MatchesCons(Con(c, ps), rest, Built(c, args), vs);
    HaveTypesSplit(args, vs, fields, tys[1..], env);
    HaveTypesCons(Built(c, args), vs, tys, env);
    BuiltHasType(c, args, tys[0], env);
  }

  /** A wildcard in head position escapes as the opened wildcard columns do. */
  lemma WildcardEscapes(
    rows: Matrix, c: Ctor, rest: seq<Pat>, args: seq<Value>, vs: seq<Value>, tys: seq<Type>, env: Env)
    ensures Escapes(rows, [Wildcard] + rest, tys, env, [Built(c, args)] + vs) <==>
      Escapes(rows, [Con(c, Wildcards(|args|))] + rest, tys, env, [Built(c, args)] + vs)
  {
    hide PatOk, MatchesAll, Covers, HaveTypes;
    MatchesCons(Wildcard, rest, Built(c, args), vs);
    MatchesCons(Con(c, Wildcards(|args|)), rest, Built(c, args), vs);
  }

  /** A well-typed vector that escapes has a head of the first type. */
  lemma EscapesHead(rows: Matrix, q: seq<Pat>, tys: seq<Type>, env: Env, vs: seq<Value>)
    requires q != [] && |q| == |tys| && Escapes(rows, q, tys, env, vs)
    ensures vs != [] && vs == [vs[0]] + vs[1..] && HasType(vs[0], tys[0], env) && HaveTypes(vs[1..], tys[1..], env)
    ensures Matches(q[0], vs[0]) && MatchesAll(q[1..], vs[1..])
  {
    hide HasType, Matches, Covers;
  }

  /** Escaping through an or-pattern is escaping through one of its alternatives. */
  lemma EscapesOr(rows: Matrix, alts: seq<Pat>, rest: seq<Pat>, tys: seq<Type>, env: Env, v: Value, vs: seq<Value>)
    ensures Escapes(rows, [Or(alts)] + rest, tys, env, [v] + vs) <==>
      exists i :: 0 <= i < |alts| && Escapes(rows, [alts[i]] + rest, tys, env, [v] + vs)
  {
    hide MatchesAll, HaveTypes, Covers;
    MatchesCons(Or(alts), rest, v, vs);
    forall i | 0 <= i < |alts|
      ensures MatchesAll([alts[i]] + rest, [v] + vs) <==> Matches(alts[i], v) && MatchesAll(rest, vs)
    {
      MatchesCons(alts[i], rest, v, vs);
    }
  }

  lemma EmptyQuery(rows: Matrix, env: Env, vs: seq<Value>)
    requires RowsOk(rows, [], env)
    ensures Escapes(rows, [], [], env, vs) <==> vs == [] && rows == []
  {
    if rows != [] {
      assert PatsOk(rows[0], [], env);
      assert vs == [] ==> MatchesAll(rows[0], vs);
    }
  }

  /** Dropping a wildcard column through the default matrix. */
  lemma DefaultEscapes(rows: Matrix, rest: seq<Pat>, tys: seq<Type>, env: Env, v: Value, vs: seq<Value>)
    requires tys != [] && RowsOk(rows, tys, env)
    ensures Escapes(rows, [Wildcard] + rest, tys, env, [v] + vs) ==>
      Escapes(DefaultMatrix(rows), rest, tys[1..], env, vs)
    ensures HasType(v, tys[0], env) && Avoids(v, ColumnCtors(rows)) ==>
      Escapes(DefaultMatrix(rows), rest, tys[1..], env, vs) ==> Escapes(rows, [Wildcard] + rest, tys, env, [v] + vs)
  {
    hide MatchesAll, HaveTypes, Covers, PatOk, HasType, Avoids;
    DefaultMeans(rows, v, vs, |tys| - 1);
    MatchesCons(Wildcard, rest, v, vs);
    HaveTypesCons(v, vs, tys, env);
  }

  // ---------- covered means covered ----------

  /** `Covered`: every well-typed vector that `q` matches is matched by a row. */
  lemma {:induction false} CoveredMeans(
    depth: nat, fast: bool, rows: Matrix, q: seq<Pat>, tys: seq<Type>, env: Env, vs: seq<Value>)
    requires PatsOk(q, tys, env) && RowsOk(rows, tys, env) && Useful(depth, fast, rows, q, tys, env).Covered?
    ensures !Escapes(rows, q, tys, env, vs)
    decreases depth, 1
  {
    hide MatchesAll, Covers, HasType, HaveTypes, Matches, CtorOf, CtorFieldTypes, EnumerateCtors, Escapes, PatOk,
      RowsOk;
    if q == [] {
      EmptyQuery(rows, env, vs);
    } else if Escapes(rows, q, tys, env, vs) {
      EscapesHead(rows, q, tys, env, vs);
      assert q == [q[0]] + q[1..];
      CoveredHead(depth, fast, rows, q[0], q[1..], tys, env, vs[0], vs[1..]);
    }
  }

  lemma {:induction false} CoveredHead(
    depth: nat, fast: bool, rows: Matrix, head: Pat, rest: seq<Pat>, tys: seq<Type>, env: Env, v: Value, vs: seq<Value>)
    requires tys != [] && PatsOk([head] + rest, tys, env) && RowsOk(rows, tys, env)
    requires Useful(depth, fast, rows, [head] + rest, tys, env).Covered?
    requires HasType(v, tys[0], env) && Matches(head, v)
    ensures !Escapes(rows, [head] + rest, tys, env, [v] + vs)
    decreases depth, 0
  {
    hide MatchesAll, Covers, HaveTypes, Escapes, RowsOk, EnumerateCtors, Specialize, DefaultMatrix, AllWild;
    var q := [head] + rest;
    assert q[1..] == rest && PatOk(q[0], tys[0], env);
    RestOk(head, rest, tys, env);
    match head
    case Or(alts) =>
      EscapesOr(rows, alts, rest, tys, env, v, vs);
      CoveredAlts(depth - 1, fast, alts, rows, rest, tys, env, v, vs);
    case Con(c, args) =>
      var fields := CtorFieldTypes(c, tys[0], env);
      SpecializeOk(rows, c, tys, env);
      PatsOkSplit(args, rest, fields, tys[1..], env);
      CoveredMeans(
        depth - 1, fast, Specialize(rows, c, |args|), args + rest, fields + tys[1..], env, v.args + vs);
      OpenEscapes(rows, c, args, rest, v.args, vs, tys, env);
    case Wildcard =>
      DefaultOk(rows, tys, env);
      if (fast && rows != [] && AllWild(rows)) || EnumerateCtors(tys[0], env).None? {
        DefaultEscapes(rows, rest, tys, env, v, vs);
        CoveredMeans(depth - 1, fast, DefaultMatrix(rows), rest, tys[1..], env, vs);
      } else {
        CoveredCtors(depth - 1, fast, EnumerateCtors(tys[0], env).value, rows, rest, tys, env, v, vs);
      }
  }

  lemma RestOk(head: Pat, rest: seq<Pat>, tys: seq<Type>, env: Env)
    requires tys != [] && PatsOk([head] + rest, tys, env)
    ensures PatOk(head, tys[0], env) && PatsOk(rest, tys[1..], env)
  {
    hide PatOk;
    assert ([head] + rest)[0] == head;
    assert ([head] + rest)[1..] == rest;
  }

  lemma ConsOk(head: Pat, rest: seq<Pat>, tys: seq<Type>, env: Env)
    requires tys != [] && PatOk(head, tys[0], env) && PatsOk(rest, tys[1..], env)
    ensures PatsOk([head] + rest, tys, env)
  {
    hide PatOk;
  }

  lemma {:induction false} CoveredAlts(
    depth: nat, fast: bool, alts: seq<Pat>, rows: Matrix, rest: seq<Pat>, tys: seq<Type>, env: Env, v: Value,
    vs: seq<Value>)
    requires tys != [] && PatsOk(rest, tys[1..], env) && RowsOk(rows, tys, env)
    requires forall i :: 0 <= i < |alts| ==> PatOk(alts[i], tys[0], env)
    requires |rest| == |tys[1..]| && UsefulAlts(depth, fast, alts, rows, rest, tys[0], tys[1..], env).Covered?
    ensures forall i :: 0 <= i < |alts| ==> !Escapes(rows, [alts[i]] + rest, tys, env, [v] + vs)
    decreases depth, 2 + |alts|
  {
    hide MatchesAll, Covers, HaveTypes, HasType, Matches, Escapes, RowsOk, PatOk, PatsOk;
    if alts != [] {
      assert [tys[0]] + tys[1..] == tys;
      ConsOk(alts[0], rest, tys, env);
      CoveredMeans(depth, fast, rows, [alts[0]] + rest, tys, env, [v] + vs);
      CoveredAlts(depth, fast, alts[1..], rows, rest, tys, env, v, vs);
      forall i | 0 <= i < |alts| ensures !Escapes(rows, [alts[i]] + rest, tys, env, [v] + vs) {
        if i > 0 {
          assert alts[1..][i - 1] == alts[i];
        }
      }
    }
  }

  lemma {:induction false} CoveredCtors(
    depth: nat, fast: bool, ctors: seq<Ctor>, rows: Matrix, rest: seq<Pat>, tys: seq<Type>, env: Env, v: Value,
    vs: seq<Value>)
    requires tys != [] && PatsOk(rest, tys[1..], env) && RowsOk(rows, tys, env)
    requires EnumerateCtors(tys[0], env).Some? && forall c :: c in ctors ==> c in EnumerateCtors(tys[0], env).value
    requires |rest| == |tys[1..]| && UsefulCtors(depth, fast, ctors, rows, rest, tys[0], tys[1..], env).Covered?
    requires HasType(v, tys[0], env)
    ensures v.Built? && (v.ctor in ctors ==> !Escapes(rows, [Wildcard] + rest, tys, env, [v] + vs))
    decreases depth, 2 + |ctors|
  {
    hide MatchesAll, Covers, HaveTypes, Matches, Escapes, RowsOk, PatOk, PatsOk, CtorFieldTypes;
    if ctors != [] {
      var c := ctors[0];
      if v.ctor == c {
        var fields := CtorFieldTypes(c, tys[0], env);
        SpecializeOk(rows, c, tys, env);
        WildcardsOk(fields, env);
        PatsOkSplit(Wildcards(|fields|), rest, fields, tys[1..], env);
        CoveredMeans(
          depth, fast, Specialize(rows, c, |fields|), Wildcards(|fields|) + rest, fields + tys[1..], env, v.args + vs);
        OpenEscapes(rows, c, Wildcards(|fields|), rest, v.args, vs, tys, env);
        WildcardEscapes(rows, c, rest, v.args, vs, tys, env);
      } else {
        CoveredCtors(depth, fast, ctors[1..], rows, rest, tys, env, v, vs);
      }
    }
  }

  /** A witness has one pattern for each column, over any matrix and query. */
  lemma {:induction false} MissingLength(
    depth: nat, fast: bool, rows: Matrix, q: seq<Pat>, tys: seq<Type>, env: Env)
    requires |q| == |tys| && Useful(depth, fast, rows, q, tys, env).Uncovered?
    ensures |Useful(depth, fast, rows, q, tys, env).missing| == |q|
    decreases depth, 0
  {
    hide CtorFieldTypes, EnumerateCtors, Specialize, DefaultMatrix, AllWild;
    if q != [] {
      var rest, ty, restTys := q[1..], tys[0], tys[1..];
      match q[0]
      case Or(alts) =>
        MissingLengthAlts(depth - 1, fast, alts, rows, rest, ty, restTys, env);
      case Con(c, args) =>
        var fields := Resize(CtorFieldTypes(c, ty, env), |args|);
        MissingLength(depth - 1, fast, Specialize(rows, c, |args|), args + rest, fields + restTys, env);
      case Wildcard =>
        if (fast && rows != [] && AllWild(rows)) || EnumerateCtors(ty, env).None? {
          MissingLength(depth - 1, fast, DefaultMatrix(rows), rest, restTys, env);
        } else {
          MissingLengthCtors(depth - 1, fast, EnumerateCtors(ty, env).value, rows, rest, ty, restTys, env);
        }
    }
  }

  lemma {:induction false} MissingLengthAlts(
    depth: nat, fast: bool, alts: seq<Pat>, rows: Matrix, rest: seq<Pat>, ty: Type, restTys: seq<Type>, env: Env)
    requires |rest| == |restTys| && UsefulAlts(depth, fast, alts, rows, rest, ty, restTys, env).Uncovered?
    ensures |UsefulAlts(depth, fast, alts, rows, rest, ty, restTys, env).missing| == 1 + |rest|
    decreases depth, 1 + |alts|
  {
    hide Useful;
    if Useful(depth, fast, rows, [alts[0]] + rest, [ty] + restTys, env).Covered? {
      MissingLengthAlts(depth, fast, alts[1..], rows, rest, ty, restTys, env);
    } else {
      MissingLength(depth, fast, rows, [alts[0]] + rest, [ty] + restTys, env);
    }
  }

  lemma {:induction false} MissingLengthCtors(
    depth: nat, fast: bool, ctors: seq<Ctor>, rows: Matrix, rest: seq<Pat>, ty: Type, restTys: seq<Type>, env: Env)
    requires |rest| == |restTys| && UsefulCtors(depth, fast, ctors, rows, rest, ty, restTys, env).Uncovered?
    ensures |UsefulCtors(depth, fast, ctors, rows, rest, ty, restTys, env).missing| == 1 + |rest|
    decreases depth, 1 + |ctors|
  {
    hide Useful, CtorFieldTypes, Specialize;
    var fields := CtorFieldTypes(ctors[0], ty, env);
    var inner := Specialize(rows, ctors[0], |fields|);
    if Useful(depth, fast, inner, Wildcards(|fields|) + rest, fields + restTys, env).Covered? {
      MissingLengthCtors(depth, fast, ctors[1..], rows, rest, ty, restTys, env);
    } else {
      MissingLength(depth, fast, inner, Wildcards(|fields|) + rest, fields + restTys, env);
    }
  }

  /** The witness of an uncovered wildcard starts with the first constructor that is not covered. */
  lemma {:induction false} FirstUncovered(
    depth: nat, fast: bool, ctors: seq<Ctor>, rows: Matrix, rest: seq<Pat>, tys: seq<Type>, env: Env) returns (k: nat)
    requires tys != [] && PatsOk(rest, tys[1..], env) && RowsOk(rows, tys, env)
    requires EnumerateCtors(tys[0], env).Some? && forall c :: c in ctors ==> c in EnumerateCtors(tys[0], env).value
    requires |rest| == |tys[1..]| && UsefulCtors(depth, fast, ctors, rows, rest, tys[0], tys[1..], env).Uncovered?
    ensures k < |ctors|
    ensures var w := UsefulCtors(depth, fast, ctors, rows, rest, tys[0], tys[1..], env).missing;
      w != [] && w[0].Con? && w[0].ctor == ctors[k]
    ensures forall j, v, vs :: 0 <= j < k && HasType(v, tys[0], env) && v.Built? && v.ctor == ctors[j] ==>
      !Escapes(rows, [Wildcard] + rest, tys, env, [v] + vs)
    decreases |ctors|
  {
    hide Escapes, RowsOk, PatOk, PatsOk, CtorFieldTypes, Useful, HasType, Specialize;
    var c := ctors[0];
    var fields := CtorFieldTypes(c, tys[0], env);
    var first := Useful(
      depth, fast, Specialize(rows, c, |fields|), Wildcards(|fields|) + rest, fields + tys[1..], env);
    if first.Covered? {
      k := FirstUncovered(depth, fast, ctors[1..], rows, rest, tys, env);
      forall v, vs | HasType(v, tys[0], env) && v.Built? && v.ctor == c
        ensures !Escapes(rows, [Wildcard] + rest, tys, env, [v] + vs)
      {
        assert [c][1..] == [];
        CoveredCtors(depth, fast, [c], rows, rest, tys, env, v, vs);
      }
      k := k + 1;
    } else {
      k := 0;
    }
  }

  lemma WildcardsOk(tys: seq<Type>, env: Env)
    ensures PatsOk(Wildcards(|tys|), tys, env)
  {
  }

  // ---------- fresh values of open types ----------

  /** A bound on the integers, codes and text lengths of a finite set of constructors. */
  lemma {:induction false} LiteralBound(cs: set<Ctor>) returns (n: nat)
    ensures forall c :: c in cs && c.LiteralCtor? && c.lit.Integer? ==> c.lit.n < n
    ensures forall c :: c in cs && c.LiteralCtor? && c.lit.Character? ==> c.lit.code < n
    ensures forall c :: c in cs && c.LiteralCtor? && c.lit.Text? ==> |c.lit.s| < n
  {
    n := 0;
    if cs != {} {
      var c :| c in cs;
      var m := LiteralBound(cs - {c});
      var k := if !c.LiteralCtor? then 0
        else match c.lit { case Integer(i) => if i < 0 then 0 else i case Character(code) => code case Text(s) => |s| };
      n := if m < k + 1 then k + 1 else m;
      forall d | d in cs && d != c ensures d in cs - {c} {
      }
    }
  }

  /** Open domains are infinite: some value is built by none of the given constructors. */
  lemma FreshValue(ty: Type, env: Env, cs: set<Ctor>) returns (v: Value)
    requires EnumerateCtors(ty, env).None?
    ensures HasType(v, ty, env) && Avoids(v, cs)
  {
    var n := LiteralBound(cs);
    v := Opaque(0);
    match ty
    case IntType => v := Built(LiteralCtor(Integer(n)), []);
    case CharType => v := Built(LiteralCtor(Character(n)), []);
    case StringType => v := Built(LiteralCtor(Text(Repeat('a', n))), []);
    case _ =>
  }

  // ---------- uncovered means a real witness ----------

  /** `w` has one pattern per column and `vs` is an instance of it that escapes. */
  ghost predicate Witnesses(
    rows: Matrix, q: seq<Pat>, tys: seq<Type>, env: Env, w: seq<Pat>, vs: seq<Value>) {
    |w| == |q| && MatchesAll(w, vs) && Escapes(rows, q, tys, env, vs)
  }

  /**
    `Uncovered`: some well-typed vector matches the witness and the query, and no row. Without the shortcut that is
    always so; with it, where the columns do not mislead.
   */
  lemma {:induction false} UncoveredMeans(
    depth: nat, fast: bool, rows: Matrix, q: seq<Pat>, tys: seq<Type>, env: Env) returns (vs: seq<Value>)
    requires (fast ==> !Misleads(tys, env)) && PatsOk(q, tys, env) && RowsOk(rows, tys, env)
    requires Useful(depth, fast, rows, q, tys, env).Uncovered?
    ensures Witnesses(rows, q, tys, env, Useful(depth, fast, rows, q, tys, env).missing, vs)
    decreases depth, 1
  {
    hide MatchesAll, Covers, HasType, HaveTypes, Matches, CtorOf, CtorFieldTypes, Misleads, EnumerateCtors, Escapes,
      PatOk, RowsOk;
    if q == [] {
      vs := [];
      EmptyQuery(rows, env, vs);
      EmptyMatches();
    } else {
      assert q == [q[0]] + q[1..];
      vs := UncoveredHead(depth, fast, rows, q[0], q[1..], tys, env);
    }
  }

  lemma EmptyMatches()
    ensures MatchesAll([], [])
  {
  }

  lemma {:induction false} UncoveredHead(
    depth: nat, fast: bool, rows: Matrix, head: Pat, rest: seq<Pat>, tys: seq<Type>, env: Env) returns (vs: seq<Value>)
    requires (fast ==> !Misleads(tys, env)) && tys != [] && PatsOk([head] + rest, tys, env) && RowsOk(rows, tys, env)
    requires Useful(depth, fast, rows, [head] + rest, tys, env).Uncovered?
    ensures Witnesses(rows, [head] + rest, tys, env, Useful(depth, fast, rows, [head] + rest, tys, env).missing, vs)
    decreases depth, 0
  {
    hide MatchesAll, Covers, HaveTypes, HasType, Matches, Misleads, Escapes, RowsOk, Witnesses, Specialize;
    var q := [head] + rest;
    assert q[1..] == rest && PatOk(q[0], tys[0], env);
    RestOk(head, rest, tys, env);
    match head
    case Or(alts) =>
      vs := UncoveredAlts(depth - 1, fast, alts, rows, rest, tys, env, alts);
    case Con(c, args) =>
      var fields := CtorFieldTypes(c, tys[0], env);
      SpecializeOk(rows, c, tys, env);
      PatsOkSplit(args, rest, fields, tys[1..], env);
      OpenNotMisled(c, tys, env);
      var inner := UncoveredMeans(depth - 1, fast, Specialize(rows, c, |args|), args + rest, fields + tys[1..], env);
      vs := Refold(
        rows, c, args, rest, tys, env,
        Useful(depth - 1, fast, Specialize(rows, c, |args|), args + rest, fields + tys[1..], env).missing, inner);
    case Wildcard =>
      if fast && rows != [] && AllWild(rows) {
        AllWildAvoided(rows);
        SkippedHasValue(depth - 1, rows, rest, tys, env);
        SkipNotMisled(tys, env);
        var v :| HasType(v, tys[0], env);
        vs := UncoveredDefault(depth - 1, fast, rows, rest, tys, env, v);
      } else if EnumerateCtors(tys[0], env).None? {
        var v := FreshValue(tys[0], env, ColumnCtors(rows));
        SkipNotMisled(tys, env);
        vs := UncoveredDefault(depth - 1, fast, rows, rest, tys, env, v);
      } else {
        vs := UncoveredCtors(depth - 1, fast, EnumerateCtors(tys[0], env).value, rows, rest, tys, env);
      }
  }

  /** A vector for the specialized problem, folded back under the constructor. */
  lemma Refold(
    rows: Matrix, c: Ctor, ps: seq<Pat>, rest: seq<Pat>, tys: seq<Type>, env: Env, w: seq<Pat>, inner: seq<Value>)
    returns (vs: seq<Value>)
    requires tys != [] && RowsOk(rows, tys, env) && CtorOf(c, tys[0], env) && |ps| == |CtorFieldTypes(c, tys[0], env)|
    requires Witnesses(
      Specialize(rows, c, |ps|), ps + rest, CtorFieldTypes(c, tys[0], env) + tys[1..], env, w, inner)
    ensures vs != [] && vs[0].Built? && vs[0].ctor == c && |vs[0].args| == |ps|
    ensures Witnesses(rows, [Con(c, ps)] + rest, tys, env, Repackage(c, |ps|, w), vs)
  {
    hide MatchesAll, Covers, Matches, HasType, PatOk, RowsOk, CtorOf, CtorFieldTypes;
    EscapesLength(Specialize(rows, c, |ps|), ps + rest, CtorFieldTypes(c, tys[0], env) + tys[1..], env, inner);
    var args, more := inner[..|ps|], inner[|ps|..];
    assert inner == args + more;
    vs := [Built(c, args)] + more;
    OpenEscapes(rows, c, ps, rest, args, more, tys, env);
    assert w == w[..|ps|] + w[|ps|..];
    MatchesSplit(w[..|ps|], w[|ps|..], args, more);
    ConMatches(w[..|ps|], c, args);
    MatchesCons(Con(c, w[..|ps|]), w[|ps|..], Built(c, args), more);
  }

  lemma EscapesLength(rows: Matrix, q: seq<Pat>, tys: seq<Type>, env: Env, vs: seq<Value>)
    requires Escapes(rows, q, tys, env, vs)
    ensures |vs| == |tys| == |q|
  {
    hide HasType, Matches, Covers;
  }

  lemma {:induction false} UncoveredDefault(
    depth: nat, fast: bool, rows: Matrix, rest: seq<Pat>, tys: seq<Type>, env: Env, v: Value) returns (vs: seq<Value>)
    requires tys != [] && (fast ==> !Misleads(tys[1..], env)) && PatsOk(rest, tys[1..], env) && RowsOk(rows, tys, env)
    requires |rest| == |tys[1..]| && Useful(depth, fast, DefaultMatrix(rows), rest, tys[1..], env).Uncovered?
    requires HasType(v, tys[0], env) && Avoids(v, ColumnCtors(rows))
    ensures Witnesses(rows, [Wildcard] + rest, tys, env,
      [Wildcard] + Useful(depth, fast, DefaultMatrix(rows), rest, tys[1..], env).missing, vs)
    decreases depth, 2
  {
    hide MatchesAll, Covers, Matches, HasType, HaveTypes, Misleads, PatOk, PatsOk, RowsOk, Escapes;
    DefaultOk(rows, tys, env);
    var more := UncoveredMeans(depth, fast, DefaultMatrix(rows), rest, tys[1..], env);
    vs := [v] + more;
    DefaultEscapes(rows, rest, tys, env, v, more);
    MatchesCons(Wildcard, Useful(depth, fast, DefaultMatrix(rows), rest, tys[1..], env).missing, v, more);
    WildcardMatches(v);
  }

  lemma WildcardMatches(v: Value)
    ensures Matches(Wildcard, v)
  {
  }

  lemma {:induction false} UncoveredAlts(
    depth: nat, fast: bool, alts: seq<Pat>, rows: Matrix, rest: seq<Pat>, tys: seq<Type>, env: Env, all: seq<Pat>)
    returns (vs: seq<Value>)
    requires (fast ==> !Misleads(tys, env)) && tys != [] && PatsOk(rest, tys[1..], env) && RowsOk(rows, tys, env)
    requires forall i :: 0 <= i < |alts| ==> alts[i] in all && PatOk(alts[i], tys[0], env)
    requires |rest| == |tys[1..]| && UsefulAlts(depth, fast, alts, rows, rest, tys[0], tys[1..], env).Uncovered?
    ensures Witnesses(rows, [Or(all)] + rest, tys, env,
      UsefulAlts(depth, fast, alts, rows, rest, tys[0], tys[1..], env).missing, vs)
    decreases depth, 2 + |alts|
  {
    hide MatchesAll, Covers, Matches, HasType, HaveTypes, Misleads, PatOk, PatsOk, RowsOk, Escapes;
    assert [tys[0]] + tys[1..] == tys;
    ConsOk(alts[0], rest, tys, env);
    if Useful(depth, fast, rows, [alts[0]] + rest, tys, env).Uncovered? {
      vs := UncoveredMeans(depth, fast, rows, [alts[0]] + rest, tys, env);
      EscapesLength(rows, [alts[0]] + rest, tys, env, vs);
      var i :| 0 <= i < |all| && all[i] == alts[0];
      assert vs == [vs[0]] + vs[1..];
      EscapesOr(rows, all, rest, tys, env, vs[0], vs[1..]);
    } else {
      vs := UncoveredAlts(depth, fast, alts[1..], rows, rest, tys, env, all);
    }
  }

  lemma {:induction false} UncoveredCtors(
    depth: nat, fast: bool, ctors: seq<Ctor>, rows: Matrix, rest: seq<Pat>, tys: seq<Type>, env: Env)
    returns (vs: seq<Value>)
    requires (fast ==> !Misleads(tys, env)) && tys != [] && PatsOk(rest, tys[1..], env) && RowsOk(rows, tys, env)
    requires EnumerateCtors(tys[0], env).Some? && forall c :: c in ctors ==> c in EnumerateCtors(tys[0], env).value
    requires |rest| == |tys[1..]| && UsefulCtors(depth, fast, ctors, rows, rest, tys[0], tys[1..], env).Uncovered?
    ensures Witnesses(rows, [Wildcard] + rest, tys, env,
      UsefulCtors(depth, fast, ctors, rows, rest, tys[0], tys[1..], env).missing, vs)
    decreases depth, 2 + |ctors|
  {
    hide MatchesAll, Covers, Matches, HasType, HaveTypes, Misleads, PatOk, PatsOk, RowsOk, Escapes, CtorFieldTypes;
    var c := ctors[0];
    var fields := CtorFieldTypes(c, tys[0], env);
    SpecializeOk(rows, c, tys, env);
    WildcardsOk(fields, env);
    PatsOkSplit(Wildcards(|fields|), rest, fields, tys[1..], env);
    OpenNotMisled(c, tys, env);
    var query := Wildcards(|fields|) + rest;
    var a := Useful(depth, fast, Specialize(rows, c, |fields|), query, fields + tys[1..], env);
    if a.Uncovered? {
      var inner := UncoveredMeans(depth, fast, Specialize(rows, c, |fields|), query, fields + tys[1..], env);
      vs := Refold(rows, c, Wildcards(|fields|), rest, tys, env, a.missing, inner);
      EscapesLength(rows, [Con(c, Wildcards(|fields|))] + rest, tys, env, vs);
      assert vs[0] == Built(c, vs[0].args);
      assert vs == [vs[0]] + vs[1..];
      WildcardEscapes(rows, c, rest, vs[0].args, vs[1..], tys, env);
    } else {
      vs := UncoveredCtors(depth, fast, ctors[1..], rows, rest, tys, env);
    }
  }

  // ---------- what an uncovered query says of its columns ----------

  lemma OpenNotMisled(c: Ctor, tys: seq<Type>, env: Env)
    requires tys != [] && CtorOf(c, tys[0], env)
    ensures !Misleads(tys, env) ==> !Misleads(CtorFieldTypes(c, tys[0], env) + tys[1..], env)
  {
    hide Misleads;
    if Misleads(OpenedTypes(c, tys, env), env) {
      MisleadsOpen(c, tys, env);
    }
  }

  lemma SkipNotMisled(tys: seq<Type>, env: Env)
    requires tys != []
    ensures !Misleads(tys, env) ==> !Misleads(tys[1..], env)
  {
    hide Misleads;
    if Misleads(tys[1..], env) {
      MisleadsSkip(tys, env);
    }
  }

  /** A column skipped on the way to an uncovered query has a value, unless the columns mislead. */
  lemma {:induction false} SkippedHasValue(depth: nat, rows: Matrix, rest: seq<Pat>, tys: seq<Type>, env: Env)
    requires tys != [] && !Misleads(tys, env) && PatsOk(rest, tys[1..], env) && RowsOk(rows, tys, env)
    requires rows != [] && AllWild(rows)
    requires |rest| == |tys[1..]| && Useful(depth, true, DefaultMatrix(rows), rest, tys[1..], env).Uncovered?
    ensures HasValue(tys[0], env)
    decreases depth, 5
  {
    hide Misleads, HasValue, PatOk, Useful;
    DefaultOk(rows, tys, env);
    UncoveredSplits(depth, true, DefaultMatrix(rows), rest, tys[1..], env);
    if !HasValue(tys[0], env) {
      MisleadsVoid(tys, env);
    }
  }

  lemma BuiltValues(c: Ctor, tys: seq<Type>, env: Env)
    requires tys != [] && CtorOf(c, tys[0], env) && AllHaveValue(CtorFieldTypes(c, tys[0], env) + tys[1..], env)
    ensures AllHaveValue(tys, env)
  {
    hide CtorOf, CtorFieldTypes, HasType;
    var fields := CtorFieldTypes(c, tys[0], env);
    assert forall i :: 0 <= i < |fields| ==> (fields + tys[1..])[i] == fields[i];
    assert forall i :: 1 <= i < |tys| ==> (fields + tys[1..])[|fields| + i - 1] == tys[i];
    var args := SomeValues(fields, env);
    BuiltHasType(c, args, tys[0], env);
  }

  lemma {:induction false} SomeValues(tys: seq<Type>, env: Env) returns (vs: seq<Value>)
    requires AllHaveValue(tys, env)
    ensures HaveTypes(vs, tys, env)
  {
    hide HasType;
    vs := [];
    if tys != [] {
      assert HasValue(tys[0], env);
      var v :| HasType(v, tys[0], env);
      var more := SomeValues(tys[1..], env);
      vs := [v] + more;
      HaveTypesCons(v, more, tys, env);
    }
  }

  /** Over the empty matrix the shortcut is not taken. */
  lemma {:induction false} EmptySame(depth: nat, q: seq<Pat>, tys: seq<Type>, env: Env)
    requires |q| == |tys|
    ensures Useful(depth, true, [], q, tys, env) == Useful(depth, false, [], q, tys, env)
    decreases depth, 0
  {
    hide CtorFieldTypes, EnumerateCtors;
    if depth > 0 && q != [] {
      match q[0]
      case Or(alts) =>
        EmptySameAlts(depth - 1, alts, q[1..], tys[0], tys[1..], env);
      case Con(c, args) =>
        var fields := Resize(CtorFieldTypes(c, tys[0], env), |args|);
        EmptySame(depth - 1, args + q[1..], fields + tys[1..], env);
      case Wildcard =>
        match EnumerateCtors(tys[0], env) {
          case None =>
            EmptySame(depth - 1, q[1..], tys[1..], env);
          case Some(all) =>
            EmptySameCtors(depth - 1, all, q[1..], tys[0], tys[1..], env);
        }
    }
  }

  lemma {:induction false} EmptySameAlts(
    depth: nat, alts: seq<Pat>, rest: seq<Pat>, ty: Type, restTys: seq<Type>, env: Env)
    requires |rest| == |restTys|
    ensures UsefulAlts(depth, true, alts, [], rest, ty, restTys, env) ==
      UsefulAlts(depth, false, alts, [], rest, ty, restTys, env)
    decreases depth, 1 + |alts|
  {
    hide Useful;
    if alts != [] {
      EmptySame(depth, [alts[0]] + rest, [ty] + restTys, env);
      EmptySameAlts(depth, alts[1..], rest, ty, restTys, env);
    }
  }

  lemma {:induction false} EmptySameCtors(
    depth: nat, ctors: seq<Ctor>, rest: seq<Pat>, ty: Type, restTys: seq<Type>, env: Env)
    requires |rest| == |restTys|
    ensures UsefulCtors(depth, true, ctors, [], rest, ty, restTys, env) ==
      UsefulCtors(depth, false, ctors, [], rest, ty, restTys, env)
    decreases depth, 1 + |ctors|
  {
    hide Useful, CtorFieldTypes;
    if ctors != [] {
      var fields := CtorFieldTypes(ctors[0], ty, env);
      EmptySame(depth, Wildcards(|fields|) + rest, fields + restTys, env);
      EmptySameCtors(depth, ctors[1..], rest, ty, restTys, env);
    }
  }

  /** Some values of the types match the query. */
  ghost predicate Matchable(q: seq<Pat>, tys: seq<Type>, env: Env) {
    exists vs :: HaveTypes(vs, tys, env) && MatchesAll(q, vs)
  }

  /** Over the empty matrix a query is uncovered only if values match it. */
  lemma {:induction false} EmptyUncovered(depth: nat, fast: bool, q: seq<Pat>, tys: seq<Type>, env: Env)
    requires PatsOk(q, tys, env) && Useful(depth, fast, [], q, tys, env).Uncovered?
    ensures Matchable(q, tys, env) && AllHaveValue(tys, env)
    decreases depth, 2
  {
    hide HasType, Matches, PatOk, Useful, Misleads;
    PatsOkLength(q, tys, env);
    EmptySame(depth, q, tys, env);
    var vs := UncoveredMeans(depth, false, [], q, tys, env);
    assert HaveTypes(vs, tys, env) && MatchesAll(q, vs);
    forall i | 0 <= i < |tys| ensures HasValue(tys[i], env) {
      assert HasType(vs[i], tys[i], env);
    }
  }

  lemma PatsOkLength(ps: seq<Pat>, tys: seq<Type>, env: Env)
    requires PatsOk(ps, tys, env)
    ensures |ps| == |tys|
  {
  }

  lemma OpenHasValue(ty: Type, env: Env)
    requires EnumerateCtors(ty, env).None?
    ensures HasValue(ty, env)
  {
    hide HasType, EnumerateCtors;
    var v := FreshValue(ty, env, {});
  }

  /** A column that loses all its rows to a constructor has another one. */
  lemma {:induction false} Emptied(p: Pat, tail: seq<Pat>, c: Ctor, arity: nat, ty: Type, env: Env) returns (d: Ctor)
    requires PatOk(p, ty, env) && SpecializeHead(p, tail, c, arity) == []
    ensures CtorOf(d, ty, env) && d != c
    decreases p
  {
    match p
    case Con(d', _) =>
      d := d';
    case Or(alts) =>
      d := Emptied(alts[0], tail, c, arity, ty, env);
  }

  lemma {:induction false} EmptiedByDefault(p: Pat, tail: seq<Pat>, ty: Type, env: Env) returns (d: Ctor)
    requires PatOk(p, ty, env) && DefaultHead(p, tail) == []
    ensures CtorOf(d, ty, env)
    decreases p
  {
    match p
    case Con(d', _) =>
      d := d';
    case Or(alts) =>
      d := EmptiedByDefault(alts[0], tail, ty, env);
  }

  /** An uncovered query against a matrix with rows: its columns can be split. */
  lemma {:induction false} UncoveredSplits(
    depth: nat, fast: bool, rows: Matrix, q: seq<Pat>, tys: seq<Type>, env: Env)
    requires rows != [] && PatsOk(q, tys, env) && RowsOk(rows, tys, env)
    requires Useful(depth, fast, rows, q, tys, env).Uncovered?
    ensures Splits(tys, env)
    decreases depth, 3
  {
    hide CtorFieldTypes, Splits, Specialize, DefaultMatrix, RowsOk;
    if q != [] {
      assert PatOk(q[0], tys[0], env) && PatsOk(q[1..], tys[1..], env);
      match q[0]
      case Or(alts) =>
        AltsSplit(depth - 1, fast, alts, rows, q[1..], tys, env);
      case Con(c, args) =>
        OpenedSplits(depth - 1, fast, c, args, rows, q[1..], tys, env);
      case Wildcard =>
        if (fast && AllWild(rows)) || EnumerateCtors(tys[0], env).None? {
          DefaultSplits(depth - 1, fast, rows, q[1..], tys, env);
        } else {
          CtorsSplit(depth - 1, fast, EnumerateCtors(tys[0], env).value, rows, q[1..], tys, env);
        }
    }
  }

  lemma {:induction false} AltsSplit(
    depth: nat, fast: bool, alts: seq<Pat>, rows: Matrix, rest: seq<Pat>, tys: seq<Type>, env: Env)
    requires rows != [] && tys != [] && RowsOk(rows, tys, env) && PatsOk(rest, tys[1..], env) && |rest| == |tys[1..]|
    requires forall i :: 0 <= i < |alts| ==> PatOk(alts[i], tys[0], env)
    requires UsefulAlts(depth, fast, alts, rows, rest, tys[0], tys[1..], env).Uncovered?
    ensures Splits(tys, env)
    decreases depth, 5 + |alts|
  {
    hide PatOk, Useful, Splits, RowsOk;
    assert [tys[0]] + tys[1..] == tys;
    ConsOk(alts[0], rest, tys, env);
    if Useful(depth, fast, rows, [alts[0]] + rest, tys, env).Uncovered? {
      UncoveredSplits(depth, fast, rows, [alts[0]] + rest, tys, env);
    } else {
      AltsSplit(depth, fast, alts[1..], rows, rest, tys, env);
    }
  }

  lemma {:induction false} CtorsSplit(
    depth: nat, fast: bool, ctors: seq<Ctor>, rows: Matrix, rest: seq<Pat>, tys: seq<Type>, env: Env)
    requires rows != [] && tys != [] && RowsOk(rows, tys, env) && PatsOk(rest, tys[1..], env) && |rest| == |tys[1..]|
    requires forall c :: c in ctors ==> CtorOf(c, tys[0], env)
    requires UsefulCtors(depth, fast, ctors, rows, rest, tys[0], tys[1..], env).Uncovered?
    ensures Splits(tys, env)
    decreases depth, 5 + |ctors|
  {
    hide PatOk, Useful, CtorOf, CtorFieldTypes, Splits, Specialize, RowsOk;
    var c := ctors[0];
    var fields := CtorFieldTypes(c, tys[0], env);
    var query := Wildcards(|fields|) + rest;
    if Useful(depth, fast, Specialize(rows, c, |fields|), query, fields + tys[1..], env).Uncovered? {
      WildcardsOk(fields, env);
      OpenedSplits(depth, fast, c, Wildcards(|fields|), rows, rest, tys, env);
    } else {
      CtorsSplit(depth, fast, ctors[1..], rows, rest, tys, env);
    }
  }

  lemma {:induction false} OpenedSplits(
    depth: nat, fast: bool, c: Ctor, args: seq<Pat>, rows: Matrix, rest: seq<Pat>, tys: seq<Type>, env: Env)
    requires rows != [] && tys != [] && RowsOk(rows, tys, env) && PatsOk(rest, tys[1..], env) && |rest| == |tys[1..]|
    requires CtorOf(c, tys[0], env) && PatsOk(args, CtorFieldTypes(c, tys[0], env), env)
    requires Useful(
      depth, fast, Specialize(rows, c, |args|), args + rest, CtorFieldTypes(c, tys[0], env) + tys[1..], env).Uncovered?
    ensures Splits(tys, env)
    decreases depth, 4
  {
    hide PatOk, Useful, CtorOf, CtorFieldTypes, Splits;
    var fields := CtorFieldTypes(c, tys[0], env);
    SpecializeOk(rows, c, tys, env);
    PatsOkSplit(args, rest, fields, tys[1..], env);
    if Specialize(rows, c, |args|) == [] {
      EmptyUncovered(depth, fast, args + rest, fields + tys[1..], env);
      assert PatsOk(rows[0], tys, env);
      var d := Emptied(rows[0][0], rows[0][1..], c, |args|, tys[0], env);
      SplitsHere(c, d, tys, env);
    } else {
      UncoveredSplits(depth, fast, Specialize(rows, c, |args|), args + rest, fields + tys[1..], env);
      SplitsOpen(c, tys, env);
    }
  }

  lemma {:induction false} DefaultSplits(
    depth: nat, fast: bool, rows: Matrix, rest: seq<Pat>, tys: seq<Type>, env: Env)
    requires rows != [] && tys != [] && RowsOk(rows, tys, env) && PatsOk(rest, tys[1..], env) && |rest| == |tys[1..]|
    requires AllWild(rows) || EnumerateCtors(tys[0], env).None?
    requires Useful(depth, fast, DefaultMatrix(rows), rest, tys[1..], env).Uncovered?
    ensures Splits(tys, env)
    decreases depth, 4
  {
    hide PatOk, Useful, CtorOf, Splits, EnumerateCtors, HasValue;
    DefaultOk(rows, tys, env);
    if DefaultMatrix(rows) == [] {
      EmptyUncovered(depth, fast, rest, tys[1..], env);
      assert PatsOk(rows[0], tys, env);
      var c := EmptiedByDefault(rows[0][0], rows[0][1..], tys[0], env);
      var d := AnotherLiteral(c, tys[0], env);
      LiteralFields(c, tys, env);
      SplitsHere(c, d, tys, env);
    } else {
      UncoveredSplits(depth, fast, DefaultMatrix(rows), rest, tys[1..], env);
      SplitsSkip(tys, env);
    }
  }

  lemma AnotherLiteral(c: Ctor, ty: Type, env: Env) returns (d: Ctor)
    requires EnumerateCtors(ty, env).None? && CtorOf(c, ty, env)
    ensures CtorOf(d, ty, env) && d != c
  {
    match c.lit
    case Integer(n) => d := LiteralCtor(Integer(n + 1));
    case Character(code) => d := LiteralCtor(Character(code + 1));
    case Text(s) =>
      d := LiteralCtor(Text(s + "a"));
      assert |s + "a"| != |s|;
  }

  /** Literals of open types have no fields. */
  lemma LiteralFields(c: Ctor, tys: seq<Type>, env: Env)
    requires tys != [] && EnumerateCtors(tys[0], env).None? && CtorOf(c, tys[0], env)
    ensures CtorFieldTypes(c, tys[0], env) == [] && OpenedTypes(c, tys, env) == tys[1..]
  {
    hide EnumerateCtors;
  }

  /** The shortcut never loses a missing value, and invents none where the columns do not mislead. */
  lemma ShortcutAgrees(d: nat, e: nat, rows: Matrix, q: seq<Pat>, tys: seq<Type>, env: Env)
    requires PatsOk(q, tys, env) && RowsOk(rows, tys, env)
    requires !Useful(d, true, rows, q, tys, env).Unfinished? && !Useful(e, false, rows, q, tys, env).Unfinished?
    ensures Useful(e, false, rows, q, tys, env).Uncovered? ==> Useful(d, true, rows, q, tys, env).Uncovered?
    ensures !Misleads(tys, env) ==>
      Useful(d, true, rows, q, tys, env).Uncovered? ==> Useful(e, false, rows, q, tys, env).Uncovered?
  {
    hide MatchesAll, Covers, HasType, HaveTypes, PatOk, RowsOk, Misleads, Escapes, Useful;
    if Useful(d, true, rows, q, tys, env).Covered? && Useful(e, false, rows, q, tys, env).Uncovered? {
      var vs := UncoveredMeans(e, false, rows, q, tys, env);
      CoveredMeans(d, true, rows, q, tys, env, vs);
    }
    if !Misleads(tys, env) && Useful(d, true, rows, q, tys, env).Uncovered? {
      var vs := UncoveredMeans(d, true, rows, q, tys, env);
      if Useful(e, false, rows, q, tys, env).Covered? {
        CoveredMeans(e, false, rows, q, tys, env, vs);
      }
    }
  }

  /** Next to a column without values, the shortcut reports a missing value. */
  lemma VoidColumnUncovered(env: Env)
    ensures var row := [Wildcard, Con(BoolCtor(true), [])];
      Useful(3, true, [row], [Wildcard, Wildcard], [NeverType, BoolType], env).Uncovered?
  {
    var row := [Wildcard, Con(BoolCtor(true), [])];
    var rows: Matrix, rest: Matrix := [row], [row[1..]];
    assert rows[0] == row && rows[1..] == [] && row[1..] == [Con(BoolCtor(true), [])];
    assert DefaultMatrix(rows) == rest;
    assert rest[0] == row[1..] && rest[1..] == [] && row[1..][1..] == [];
    assert [Wildcard, Wildcard][1..] == [Wildcard] && [NeverType, BoolType][1..] == [BoolType];
    var none: seq<Pat> := [];
    assert none + none == none && Wildcards(0) == none;
    assert SpecializeHead(row[1], none, BoolCtor(true), 0) == [none];
    assert Specialize(rest[1..], BoolCtor(true), 0) == [] && [none] + [] == [none];
    assert Specialize(rest, BoolCtor(true), 0) == [none];
    assert Specialize(rest, BoolCtor(false), 0) == [];
    assert Useful(1, true, [none], none, [], env) == Covered;
    assert [BoolCtor(true), BoolCtor(false)][1..] == [BoolCtor(false)];
    assert Useful(2, true, rest, [Wildcard], [BoolType], env).Uncovered?;
  }
}
