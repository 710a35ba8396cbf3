/** Types, values and lowered patterns of the exhaustiveness check. */
module Patterns {
  import opened Basics

  /** Literal patterns. Integers, characters and strings are open domains. */
  datatype Literal = Integer(n: int) | Character(code: nat) | Text(s: string)

  datatype Ctor =
    | BoolCtor(b: bool)
    | VariantCtor(name: string)
    | LiteralCtor(lit: Literal)
    | TupleCtor
    | StructCtor(name: string)
    | ArrayCtor(size: nat)

  datatype Pat = Wildcard | Con(ctor: Ctor, args: seq<Pat>) | Or(alts: seq<Pat>)

  /**
    `OpaqueType` stands for floats, slices and the like; `SkippedType` for the scrutinees the check does not handle.
   */
  datatype Type =
    | BoolType | IntType | CharType | StringType | NeverType | UnitType | OpaqueType | SkippedType
    | TupleType(elems: seq<Type>)
    | ArrayType(element: Type, size: nat)
    | Named(name: string)

  datatype VariantInfo = UnitVariant | TupleVariant(types: seq<Type>) | StructVariant(fields: seq<(string, Type)>)

  type Variant = (string, VariantInfo)

  datatype Env = Env(enums: map<string, seq<Variant>>, structs: map<string, seq<(string, Type)>>)

  datatype Value = Built(ctor: Ctor, args: seq<Value>) | Opaque(id: nat)

  // ---------- constructors of a type ----------

  function FieldTypes(fields: seq<(string, Type)>): (types: seq<Type>)
    ensures |types| == |fields| && forall i :: 0 <= i < |fields| ==> types[i] == fields[i].1
  {
    seq(|fields|, i requires 0 <= i < |fields| => fields[i].1)
  }

  function PayloadTypes(info: VariantInfo): seq<Type> {
    match info
    case UnitVariant => []
    case TupleVariant(types) => types
    case StructVariant(fields) => FieldTypes(fields)
  }

  /** The first variant of that name. */
  function FindVariant(variants: seq<Variant>, name: string): (r: Option<VariantInfo>)
    ensures r.Some? ==> exists i :: 0 <= i < |variants| && variants[i] == (name, r.value)
    ensures r.None? ==> forall i :: 0 <= i < |variants| ==> variants[i].0 != name
  {
    if variants == [] then None
    else if variants[0].0 == name then Some(variants[0].1)
    else FindVariant(variants[1..], name)
  }

  function VariantPayload(parent: Type, name: string, env: Env): seq<Type> {
    if parent.Named? && parent.name in env.enums then
      match FindVariant(env.enums[parent.name], name)
      case Some(info) => PayloadTypes(info)
      case None => []
    else []
  }

  function Repeat<T>(x: T, n: nat): (s: seq<T>)
    ensures |s| == n && forall i :: 0 <= i < n ==> s[i] == x
  {
    seq(n, _ => x)
  }

  function ElementType(ty: Type): Type {
    if ty.ArrayType? then ty.element else UnitType
  }

  function CtorFieldTypes(c: Ctor, parent: Type, env: Env): seq<Type> {
    match c
    case BoolCtor(_) => []
    case LiteralCtor(_) => []
    case VariantCtor(name) => VariantPayload(parent, name, env)
    case TupleCtor => if parent.TupleType? then parent.elems else []
    case StructCtor(name) => if name in env.structs then FieldTypes(env.structs[name]) else []
    case ArrayCtor(n) => Repeat(ElementType(parent), n)
  }

  predicate IsOpenCollection(name: string) {
    name == "Vec"
  }

  function VariantCtors(variants: seq<Variant>): (cs: seq<Ctor>)
    ensures |cs| == |variants| && forall i :: 0 <= i < |cs| ==> cs[i] == VariantCtor(variants[i].0)
  {
    seq(|variants|, i requires 0 <= i < |variants| => VariantCtor(variants[i].0))
  }

  /** All constructors of a closed type, `None` for an open one. */
  function EnumerateCtors(ty: Type, env: Env): Option<seq<Ctor>> {
    match ty
    case BoolType => Some([BoolCtor(true), BoolCtor(false)])
    case TupleType(_) => Some([TupleCtor])
    case NeverType => Some([])
    case ArrayType(_, n) => Some([ArrayCtor(n)])
    case Named(name) =>
      if name in env.enums then Some(VariantCtors(env.enums[name]))
      else if IsOpenCollection(name) then None
      else if name in env.structs then Some([StructCtor(name)])
      else None
    case _ => None
  }

  // ---------- well-typed values and patterns ----------

  /** The constructors that build values of a type, enumerated or literal. */
  predicate CtorOf(c: Ctor, ty: Type, env: Env) {
    match EnumerateCtors(ty, env)
    case Some(all) => c in all
    case None =>
      match ty
      case IntType => c.LiteralCtor? && c.lit.Integer?
      case CharType => c.LiteralCtor? && c.lit.Character?
      case StringType => c.LiteralCtor? && c.lit.Text?
      case _ => false
  }

  /** Types whose values no pattern but a wildcard tells apart. */
  predicate Indivisible(ty: Type, env: Env) {
    EnumerateCtors(ty, env).None? && !ty.IntType? && !ty.CharType? && !ty.StringType?
  }

  ghost predicate HasType(v: Value, ty: Type, env: Env) {
    match v
    case Opaque(_) => Indivisible(ty, env)
    case Built(c, args) =>
      && CtorOf(c, ty, env)
      && |args| == |CtorFieldTypes(c, ty, env)|
      && forall i :: 0 <= i < |args| ==> HasType(args[i], CtorFieldTypes(c, ty, env)[i], env)
  }

  /** The values of a type, read off its declaration. */
  ghost predicate Inhabits(v: Value, ty: Type, env: Env)
    decreases v
  {
    match ty
    case BoolType => v == Built(BoolCtor(true), []) || v == Built(BoolCtor(false), [])
    case IntType => v.Built? && v.ctor.LiteralCtor? && v.ctor.lit.Integer? && v.args == []
    case CharType => v.Built? && v.ctor.LiteralCtor? && v.ctor.lit.Character? && v.args == []
    case StringType => v.Built? && v.ctor.LiteralCtor? && v.ctor.lit.Text? && v.args == []
    case NeverType => false
    case TupleType(elems) =>
      && v.Built? && v.ctor == TupleCtor && |v.args| == |elems|
      && forall i :: 0 <= i < |elems| ==> Inhabits(v.args[i], elems[i], env)
    case ArrayType(element, size) =>
      && v.Built? && v.ctor == ArrayCtor(size) && |v.args| == size
      && forall i :: 0 <= i < size ==> Inhabits(v.args[i], element, env)
    case Named(name) =>
      if name in env.enums then
        exists k :: 0 <= k < |env.enums[name]| && FirstOfName(env.enums[name], k) && IsOf(v, env.enums[name][k], env)
      else if name in env.structs && name != "Vec" then
        && v.Built? && v.ctor == StructCtor(name) && |v.args| == |env.structs[name]|
        && forall i :: 0 <= i < |v.args| ==> Inhabits(v.args[i], env.structs[name][i].1, env)
      else v.Opaque?
    case _ => v.Opaque?
  }

  ghost predicate FirstOfName(variants: seq<Variant>, k: nat)
    requires k < |variants|
  {
    forall i :: 0 <= i < k ==> variants[i].0 != variants[k].0
  }

  /** A value of a variant. */
  ghost predicate IsOf(v: Value, variant: Variant, env: Env)
    decreases v, 0
  {
    && v.Built? && v.ctor == VariantCtor(variant.0)
    && match variant.1
       case UnitVariant => v.args == []
       case TupleVariant(types) =>
         |v.args| == |types| && forall i :: 0 <= i < |types| ==> Inhabits(v.args[i], types[i], env)
       case StructVariant(fields) =>
         |v.args| == |fields| && forall i :: 0 <= i < |fields| ==> Inhabits(v.args[i], fields[i].1, env)
  }

  lemma {:induction false} FindVariantIsFirst(variants: seq<Variant>, name: string, k: nat)
    requires k < |variants| && variants[k].0 == name && FirstOfName(variants, k)
    ensures FindVariant(variants, name) == Some(variants[k].1)
  {
    if k > 0 {
      assert variants[0].0 != name;
      assert forall i :: 0 <= i < k - 1 ==> variants[1..][i] == variants[i + 1];
      FindVariantIsFirst(variants[1..], name, k - 1);
    }
  }

  lemma {:induction false} FirstWithName(variants: seq<Variant>, name: string) returns (k: nat)
    requires exists i :: 0 <= i < |variants| && variants[i].0 == name
    ensures k < |variants| && variants[k].0 == name && FirstOfName(variants, k)
  {
    k := 0;
    while variants[k].0 != name
      invariant k < |variants| && forall i :: 0 <= i < k ==> variants[i].0 != name
      decreases |variants| - k
    {
      k := k + 1;
    }
  }

  /** The enumerated constructors and their fields give a type exactly the values it is declared with. */
  lemma {:induction false} ValuesAreAsDeclared(v: Value, ty: Type, env: Env)
    ensures HasType(v, ty, env) <==> Inhabits(v, ty, env)
    decreases v
  {
    if v.Built? {
      forall i, t | 0 <= i < |v.args| ensures HasType(v.args[i], t, env) <==> Inhabits(v.args[i], t, env) {
        ValuesAreAsDeclared(v.args[i], t, env);
      }
      if ty.Named? && ty.name in env.enums {
        VariantValues(v, ty.name, env);
      }
    }
  }

  lemma VariantValues(v: Value, name: string, env: Env)
    requires v.Built? && name in env.enums
    requires forall i, t :: 0 <= i < |v.args| ==> (HasType(v.args[i], t, env) <==> Inhabits(v.args[i], t, env))
    ensures HasType(v, Named(name), env) <==> Inhabits(v, Named(name), env)
  {
    var variants := env.enums[name];
    if exists i :: 0 <= i < |variants| && VariantCtor(variants[i].0) == v.ctor {
      var k := FirstWithName(variants, v.ctor.name);
      FindVariantIsFirst(variants, v.ctor.name, k);
      assert VariantCtors(variants)[k] == v.ctor;
      assert IsOf(v, variants[k], env) <==> HasType(v, Named(name), env);
    }
  }

  ghost predicate HaveTypes(vs: seq<Value>, tys: seq<Type>, env: Env) {
    |vs| == |tys| && forall i :: 0 <= i < |vs| ==> HasType(vs[i], tys[i], env)
  }

  /** Constructors fit their types, and or-patterns have alternatives. */
  ghost predicate PatOk(p: Pat, ty: Type, env: Env) {
    match p
    case Wildcard => true
    case Or(alts) => alts != [] && forall i :: 0 <= i < |alts| ==> PatOk(alts[i], ty, env)
    case Con(c, args) =>
      && CtorOf(c, ty, env)
      && |args| == |CtorFieldTypes(c, ty, env)|
      && forall i :: 0 <= i < |args| ==> PatOk(args[i], CtorFieldTypes(c, ty, env)[i], env)
  }

  ghost predicate PatsOk(ps: seq<Pat>, tys: seq<Type>, env: Env) {
    |ps| == |tys| && forall i :: 0 <= i < |ps| ==> PatOk(ps[i], tys[i], env)
  }

  ghost predicate RowsOk(rows: seq<seq<Pat>>, tys: seq<Type>, env: Env) {
    forall i :: 0 <= i < |rows| ==> PatsOk(rows[i], tys, env)
  }

  // ---------- matching ----------

  ghost predicate Matches(p: Pat, v: Value) {
    match p
    case Wildcard => true
    case Or(alts) => exists i :: 0 <= i < |alts| && Matches(alts[i], v)
    case Con(c, args) =>
      v.Built? && v.ctor == c && |args| == |v.args| && forall i :: 0 <= i < |args| ==> Matches(args[i], v.args[i])
  }

  ghost predicate MatchesAll(ps: seq<Pat>, vs: seq<Value>) {
    |ps| == |vs| && forall i :: 0 <= i < |ps| ==> Matches(ps[i], vs[i])
  }

  /** Some row matches the value vector. */
  ghost predicate Covers(rows: seq<seq<Pat>>, vs: seq<Value>) {
    exists i :: 0 <= i < |rows| && MatchesAll(rows[i], vs)
  }

  lemma MatchesSplit(a: seq<Pat>, b: seq<Pat>, va: seq<Value>, vb: seq<Value>)
    requires |a| == |va|
    ensures MatchesAll(a + b, va + vb) <==> MatchesAll(a, va) && MatchesAll(b, vb)
  {
    if MatchesAll(a + b, va + vb) {
      forall i | 0 <= i < |a| ensures Matches(a[i], va[i]) {
        assert (a + b)[i] == a[i] && (va + vb)[i] == va[i];
      }
      forall i | 0 <= i < |b| ensures Matches(b[i], vb[i]) {
        assert (a + b)[|a| + i] == b[i] && (va + vb)[|a| + i] == vb[i];
      }
    }
  }

  lemma MatchesCons(p: Pat, b: seq<Pat>, v: Value, vb: seq<Value>)
    ensures MatchesAll([p] + b, [v] + vb) <==> Matches(p, v) && MatchesAll(b, vb)
  {
    MatchesSplit([p], b, [v], vb);
    assert MatchesAll([p], [v]) <==> Matches([p][0], [v][0]);
  }

  lemma CoversConcat(a: seq<seq<Pat>>, b: seq<seq<Pat>>, vs: seq<Value>)
    ensures Covers(a + b, vs) <==> Covers(a, vs) || Covers(b, vs)
  {
    hide MatchesAll;
    if Covers(a, vs) {
      var i :| 0 <= i < |a| && MatchesAll(a[i], vs);
      assert (a + b)[i] == a[i];
    }
    if Covers(b, vs) {
      var i :| 0 <= i < |b| && MatchesAll(b[i], vs);
      assert (a + b)[|a| + i] == b[i];
    }
  }
}
