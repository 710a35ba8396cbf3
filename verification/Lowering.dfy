/** Surface patterns, what they match, and their lowering. */
module Lowering {
  import opened Basics
  import opened Patterns
  import opened Matrices

  datatype FieldPattern = FieldPattern(name: string, pattern: Option<Pattern>)

  datatype Pattern =
    | WildcardPattern
    | BindingPattern(name: string)
    | BoolPattern(b: bool)
    | LiteralPattern(lit: Literal)
    | TupleVariantPattern(name: string, patterns: seq<Pattern>)
    | StructPattern(name: string, fields: seq<FieldPattern>)
    | TuplePattern(patterns: seq<Pattern>)
    | AtPattern(name: string, pattern: Pattern)
    | OrPattern(alts: seq<Pattern>)
    | SlicePattern(prefix: seq<Pattern>, hasRest: bool, suffix: seq<Pattern>)

  /** Whether `name` is a variant of the enum `ty`. */
  predicate IsVariantOf(name: string, ty: Type, env: Env) {
    ty.Named? && ty.name in env.enums && FindVariant(env.enums[ty.name], name).Some?
  }

  function VariantOf(name: string, ty: Type, env: Env): VariantInfo
    requires IsVariantOf(name, ty, env)
  {
    FindVariant(env.enums[ty.name], name).value
  }

  /** The declared fields a struct pattern refers to. */
  function Declared(name: string, ty: Type, env: Env): seq<(string, Type)> {
    if IsVariantOf(name, ty, env) then
      match VariantOf(name, ty, env)
      case StructVariant(decls) => decls
      case _ => []
    else if name in env.structs then env.structs[name]
    else []
  }

  function TypeAt(tys: seq<Type>, i: nat): Type {
    if i < |tys| then tys[i] else UnitType
  }

  /** The first field pattern of that name. */
  function FindField(fields: seq<FieldPattern>, name: string): (r: Option<nat>)
    ensures r.Some? ==> r.value < |fields| && fields[r.value].name == name
    ensures r.None? ==> forall i :: 0 <= i < |fields| ==> fields[i].name != name
  {
    if fields == [] then None
    else if fields[0].name == name then Some(0)
    else match FindField(fields[1..], name) case None => None case Some(i) => Some(i + 1)
  }

  // ---------- lowering ----------

  function Lower(p: Pattern, ty: Type, env: Env): Pat
    decreases p, 1
  {
    match p
    case WildcardPattern => Wildcard
    case BindingPattern(name) =>
      if IsVariantOf(name, ty, env) then Con(VariantCtor(name), []) else Wildcard
    case BoolPattern(b) => Con(BoolCtor(b), [])
    case LiteralPattern(lit) => Con(LiteralCtor(lit), [])
    case TupleVariantPattern(name, patterns) =>
      Con(VariantCtor(name), LowerAll(patterns, VariantPayload(ty, name, env), env))
    case StructPattern(name, fields) =>
      var args := LowerFields(Declared(name, ty, env), fields, env);
      if IsVariantOf(name, ty, env) then Con(VariantCtor(name), args) else Con(StructCtor(name), args)
    case TuplePattern(patterns) =>
      Con(TupleCtor, LowerAll(patterns, if ty.TupleType? then ty.elems else [], env))
    case AtPattern(_, inner) => Lower(inner, ty, env)
    case OrPattern(alts) => Or(LowerAlts(alts, ty, env))
    case SlicePattern(prefix, hasRest, suffix) =>
      if !ty.ArrayType? || |prefix| + |suffix| > ty.size || (!hasRest && |prefix| + |suffix| != ty.size) then Wildcard
      else
        Con(ArrayCtor(ty.size),
          LowerAlts(prefix, ty.element, env) +
          Wildcards(ty.size - |prefix| - |suffix|) +
          LowerAlts(suffix, ty.element, env))
  }

  /** Lowers each pattern at its own type, the unit type beyond the end. */
  function LowerAll(ps: seq<Pattern>, tys: seq<Type>, env: Env): (r: seq<Pat>)
    ensures |r| == |ps| && forall i :: 0 <= i < |ps| ==> r[i] == Lower(ps[i], TypeAt(tys, i), env)
    decreases ps, 0
  {
    if ps == [] then []
    else [Lower(ps[0], TypeAt(tys, 0), env)] + LowerAll(ps[1..], if tys == [] then [] else tys[1..], env)
  }

  /** Lowers each pattern at the same type. */
  function LowerAlts(ps: seq<Pattern>, ty: Type, env: Env): (r: seq<Pat>)
    ensures |r| == |ps| && forall i :: 0 <= i < |ps| ==> r[i] == Lower(ps[i], ty, env)
    decreases ps, 0
  {
    if ps == [] then [] else [Lower(ps[0], ty, env)] + LowerAlts(ps[1..], ty, env)
  }

  /** One pattern per declared field; fields not mentioned, or mentioned by name only, become wildcards. */
  function LowerFields(decls: seq<(string, Type)>, fields: seq<FieldPattern>, env: Env): (r: seq<Pat>)
    ensures |r| == |decls|
    ensures forall i :: 0 <= i < |decls| ==> r[i] == LowerField(decls[i], fields, env)
    decreases fields, 1, |decls|
  {
    if decls == [] then [] else [LowerField(decls[0], fields, env)] + LowerFields(decls[1..], fields, env)
  }

  function LowerField(decl: (string, Type), fields: seq<FieldPattern>, env: Env): Pat
    decreases fields, 0
  {
    match FindField(fields, decl.0)
    case None => Wildcard
    case Some(i) =>
      match fields[i].pattern
      case None => Wildcard
      case Some(p) => Lower(p, decl.1, env)
  }

  // ---------- what surface patterns match ----------

  ghost predicate Accepts(p: Pattern, v: Value, ty: Type, env: Env)
    decreases p
  {
    match p
    case WildcardPattern => true
    case BindingPattern(name) => IsVariantOf(name, ty, env) ==> v.Built? && v.ctor == VariantCtor(name)
    case BoolPattern(b) => v == Built(BoolCtor(b), [])
    case LiteralPattern(lit) => v == Built(LiteralCtor(lit), [])
    case TupleVariantPattern(name, ps) =>
      && v.Built? && v.ctor == VariantCtor(name) && |v.args| == |ps|
      && forall i :: 0 <= i < |ps| ==> Accepts(ps[i], v.args[i], TypeAt(VariantPayload(ty, name, env), i), env)
    case StructPattern(name, fields) =>
      var decls := Declared(name, ty, env);
      && v.Built? && v.ctor == (if IsVariantOf(name, ty, env) then VariantCtor(name) else StructCtor(name))
      && |v.args| == |decls|
      && forall i, k ::
           0 <= i < |decls| && 0 <= k < |fields| && decls[i].0 == fields[k].name && fields[k].pattern.Some? ==>
           Accepts(fields[k].pattern.value, v.args[i], decls[i].1, env)
    case TuplePattern(ps) =>
      && v.Built? && v.ctor == TupleCtor && |v.args| == |ps|
      && forall i :: 0 <= i < |ps| ==> Accepts(ps[i], v.args[i], TypeAt(if ty.TupleType? then ty.elems else [], i), env)
    case AtPattern(_, inner) => Accepts(inner, v, ty, env)
    case OrPattern(alts) => exists i :: 0 <= i < |alts| && Accepts(alts[i], v, ty, env)
    case SlicePattern(prefix, hasRest, suffix) =>
      && v.Built? && v.ctor.ArrayCtor? && |v.args| == v.ctor.size
      && |prefix| + |suffix| <= |v.args| && (!hasRest ==> |prefix| + |suffix| == |v.args|)
      && (forall i :: 0 <= i < |prefix| ==> Accepts(prefix[i], v.args[i], ElementType(ty), env))
      && (forall i :: 0 <= i < |suffix| ==>
            Accepts(suffix[i], v.args[|v.args| - |suffix| + i], ElementType(ty), env))
  }

  /** The patterns the results speak about: those that fit their type, constructor for constructor. */
  ghost predicate WellTyped(p: Pattern, ty: Type, env: Env)
    decreases p
  {
    match p
    case WildcardPattern => true
    case BindingPattern(name) => IsVariantOf(name, ty, env) ==> PayloadTypes(VariantOf(name, ty, env)) == []
    case BoolPattern(b) => ty == BoolType
    case LiteralPattern(lit) => CtorOf(LiteralCtor(lit), ty, env)
    case TupleVariantPattern(name, ps) =>
      && IsVariantOf(name, ty, env) && |ps| == |VariantPayload(ty, name, env)|
      && forall i :: 0 <= i < |ps| ==> WellTyped(ps[i], VariantPayload(ty, name, env)[i], env)
    case StructPattern(name, fields) =>
      && (forall i, k :: 0 <= i < k < |fields| ==> fields[i].name != fields[k].name)
      && (if IsVariantOf(name, ty, env) then VariantOf(name, ty, env).StructVariant?
          else ty == Named(name) && name !in env.enums && !IsOpenCollection(name) && name in env.structs)
      && var decls := Declared(name, ty, env);
         forall i, k ::
           0 <= i < |decls| && 0 <= k < |fields| && decls[i].0 == fields[k].name && fields[k].pattern.Some? ==>
           WellTyped(fields[k].pattern.value, decls[i].1, env)
    case TuplePattern(ps) =>
      && ty.TupleType? && |ty.elems| == |ps|
      && forall i :: 0 <= i < |ps| ==> WellTyped(ps[i], ty.elems[i], env)
    case AtPattern(_, inner) => WellTyped(inner, ty, env)
    case OrPattern(alts) => alts != [] && forall i :: 0 <= i < |alts| ==> WellTyped(alts[i], ty, env)
    case SlicePattern(prefix, hasRest, suffix) =>
      && ty.ArrayType?
      && |prefix| + |suffix| <= ty.size && (!hasRest ==> |prefix| + |suffix| == ty.size)
      && (forall i :: 0 <= i < |prefix| ==> WellTyped(prefix[i], ty.element, env))
      && (forall i :: 0 <= i < |suffix| ==> WellTyped(suffix[i], ty.element, env))
  }

  // ---------- lowering keeps the meaning ----------

  lemma VariantIsCtor(name: string, ty: Type, env: Env)
    requires IsVariantOf(name, ty, env)
    ensures CtorOf(VariantCtor(name), ty, env)
    ensures CtorFieldTypes(VariantCtor(name), ty, env) == PayloadTypes(VariantOf(name, ty, env))
  {
    var info := VariantOf(name, ty, env);
    var i :| 0 <= i < |env.enums[ty.name]| && env.enums[ty.name][i] == (name, info);
    assert VariantCtors(env.enums[ty.name])[i] == VariantCtor(name);
  }

  /** Wildcards, bindings and literals, which hold no patterns. */
  predicate IsAtom(p: Pattern) {
    p.WildcardPattern? || p.BindingPattern? || p.BoolPattern? || p.LiteralPattern?
  }

  lemma AtomIsOk(p: Pattern, ty: Type, env: Env)
    requires IsAtom(p) && WellTyped(p, ty, env)
    ensures PatOk(Lower(p, ty, env), ty, env)
  {
    if p.BindingPattern? && IsVariantOf(p.name, ty, env) {
      VariantIsCtor(p.name, ty, env);
    }
  }

  /** A well-typed surface pattern lowers to a well-typed pattern. */
  lemma {:induction false} LowerIsOk(p: Pattern, ty: Type, env: Env)
    requires WellTyped(p, ty, env)
    ensures PatOk(Lower(p, ty, env), ty, env)
    decreases p, 1
  {
    hide IsVariantOf, VariantOf, Declared, LowerFields, LowerAll, CtorOf;
    match p
    case TupleVariantPattern(name, ps) =>
      LowerVariantIsOk(p, name, ps, ty, env);
    case StructPattern(name, fields) =>
      LowerStructIsOk(p, name, fields, ty, env);
    case TuplePattern(ps) =>
      LowerTupleIsOk(p, ps, ty, env);
    case AtPattern(_, inner) =>
      LowerIsOk(inner, ty, env);
    case OrPattern(alts) =>
      forall i | 0 <= i < |alts| ensures PatOk(Lower(alts[i], ty, env), ty, env) {
        LowerIsOk(alts[i], ty, env);
      }
    case SlicePattern(prefix, hasRest, suffix) =>
      LowerSliceIsOk(p, prefix, hasRest, suffix, ty, env);
    case _ =>
      AtomIsOk(p, ty, env);
  }

  lemma {:induction false} LowerVariantIsOk(p: Pattern, name: string, ps: seq<Pattern>, ty: Type, env: Env)
    requires p == TupleVariantPattern(name, ps) && WellTyped(p, ty, env)
    ensures PatOk(Lower(p, ty, env), ty, env)
    decreases p, 0
  {
    hide LowerAlts, LowerFields, Declared, EnumerateCtors;
    var payload := VariantPayload(ty, name, env);
    VariantIsCtor(name, ty, env);
    forall i | 0 <= i < |ps| ensures PatOk(Lower(ps[i], payload[i], env), payload[i], env) {
      LowerIsOk(ps[i], payload[i], env);
    }
  }

  lemma {:induction false} LowerTupleIsOk(p: Pattern, ps: seq<Pattern>, ty: Type, env: Env)
    requires p == TuplePattern(ps) && WellTyped(p, ty, env)
    ensures PatOk(Lower(p, ty, env), ty, env)
    decreases p, 0
  {
    hide LowerAlts, LowerFields, IsVariantOf, VariantOf;
    forall i | 0 <= i < |ps| ensures PatOk(Lower(ps[i], ty.elems[i], env), ty.elems[i], env) {
      LowerIsOk(ps[i], ty.elems[i], env);
    }
  }

  lemma {:induction false} LowerSliceIsOk(
    p: Pattern, prefix: seq<Pattern>, hasRest: bool, suffix: seq<Pattern>, ty: Type, env: Env)
    requires p == SlicePattern(prefix, hasRest, suffix) && WellTyped(p, ty, env)
    ensures PatOk(Lower(p, ty, env), ty, env)
    decreases p, 0
  {
    hide WellTyped, Lower, LowerAlts;
    SliceParts(p, prefix, hasRest, suffix, ty, env);
    forall i | 0 <= i < |prefix| ensures PatOk(Lower(prefix[i], ty.element, env), ty.element, env) {
      LowerIsOk(prefix[i], ty.element, env);
    }
    forall i | 0 <= i < |suffix| ensures PatOk(Lower(suffix[i], ty.element, env), ty.element, env) {
      LowerIsOk(suffix[i], ty.element, env);
    }
  }

  lemma {:induction false} LowerStructIsOk(p: Pattern, name: string, fields: seq<FieldPattern>, ty: Type, env: Env)
    requires p == StructPattern(name, fields) && WellTyped(p, ty, env)
    ensures PatOk(Lower(p, ty, env), ty, env)
    decreases p, 0
  {
    var decls := Declared(name, ty, env);
    if IsVariantOf(name, ty, env) {
      VariantIsCtor(name, ty, env);
    }
    forall i | 0 <= i < |decls| ensures PatOk(LowerField(decls[i], fields, env), decls[i].1, env) {
      match FindField(fields, decls[i].0)
      case None =>
      case Some(k) =>
        if fields[k].pattern.Some? {
          LowerIsOk(fields[k].pattern.value, decls[i].1, env);
        }
    }
  }

  /** A lowered pattern matches exactly the values its surface pattern accepts. */
  lemma {:induction false} LowerMatches(p: Pattern, v: Value, ty: Type, env: Env)
    requires WellTyped(p, ty, env) && HasType(v, ty, env)
    ensures Matches(Lower(p, ty, env), v) <==> Accepts(p, v, ty, env)
    decreases p, 2
  {
    hide VariantOf, Declared, LowerField, LowerAlts, LowerAll, LowerFields, EnumerateCtors, PayloadTypes, IsVariantOf,
      CtorOf, HasType;
    match p
    case TupleVariantPattern(name, ps) =>
      VariantMatches(p, name, ps, v, ty, env);
    case StructPattern(name, fields) =>
      StructMatches(p, name, fields, v, ty, env);
    case TuplePattern(ps) =>
      TupleMatches(p, ps, v, ty, env);
    case AtPattern(_, inner) =>
      LowerMatches(inner, v, ty, env);
    case OrPattern(alts) =>
      AlternativesMatch(p, alts, v, ty, env);
    case SlicePattern(prefix, hasRest, suffix) =>
      SliceMatches(p, prefix, hasRest, suffix, v, ty, env);
    case _ =>
      AtomMatches(p, v, ty, env);
  }

  lemma AtomMatches(p: Pattern, v: Value, ty: Type, env: Env)
    requires IsAtom(p) && WellTyped(p, ty, env) && HasType(v, ty, env)
    ensures Matches(Lower(p, ty, env), v) <==> Accepts(p, v, ty, env)
  {
    if p.BindingPattern? && IsVariantOf(p.name, ty, env) {
      VariantIsCtor(p.name, ty, env);
    }
  }

  lemma {:induction false} AlternativesMatch(p: Pattern, alts: seq<Pattern>, v: Value, ty: Type, env: Env)
    requires p == OrPattern(alts) && WellTyped(p, ty, env) && HasType(v, ty, env)
    ensures Matches(Lower(p, ty, env), v) <==> Accepts(p, v, ty, env)
    decreases p, 1
  {
    hide LowerAll, LowerFields, IsVariantOf, VariantOf, CtorOf;
    forall i | 0 <= i < |alts| ensures Matches(Lower(alts[i], ty, env), v) <==> Accepts(alts[i], v, ty, env) {
      LowerMatches(alts[i], v, ty, env);
    }
  }

  lemma VariantParts(p: Pattern, name: string, ps: seq<Pattern>, ty: Type, env: Env)
    requires p == TupleVariantPattern(name, ps) && WellTyped(p, ty, env)
    ensures var payload := VariantPayload(ty, name, env);
      && IsVariantOf(name, ty, env) && |ps| == |payload|
      && (forall i :: 0 <= i < |ps| ==> WellTyped(ps[i], payload[i], env))
      && Lower(p, ty, env) == Con(VariantCtor(name), LowerAll(ps, payload, env))
  {
    hide FindVariant, PayloadTypes;
  }

  lemma VariantAccepts(p: Pattern, name: string, ps: seq<Pattern>, v: Value, ty: Type, env: Env)
    requires p == TupleVariantPattern(name, ps)
    ensures Accepts(p, v, ty, env) <==>
      && v.Built? && v.ctor == VariantCtor(name) && |v.args| == |ps|
      && forall i :: 0 <= i < |ps| ==> Accepts(ps[i], v.args[i], TypeAt(VariantPayload(ty, name, env), i), env)
  {
    hide VariantPayload, TypeAt;
  }

  lemma VariantValue(v: Value, name: string, ty: Type, env: Env)
    requires v.Built? && v.ctor == VariantCtor(name) && HasType(v, ty, env)
    ensures |v.args| == |VariantPayload(ty, name, env)|
    ensures forall i :: 0 <= i < |v.args| ==> HasType(v.args[i], VariantPayload(ty, name, env)[i], env)
  {
    hide CtorOf, VariantPayload;
  }

  lemma {:induction false} VariantMatches(p: Pattern, name: string, ps: seq<Pattern>, v: Value, ty: Type, env: Env)
    requires p == TupleVariantPattern(name, ps) && WellTyped(p, ty, env) && HasType(v, ty, env)
    ensures Matches(Lower(p, ty, env), v) <==> Accepts(p, v, ty, env)
    decreases p, 0
  {
    hide WellTyped, Lower, LowerAll, HasType, Matches, Accepts, VariantPayload, IsVariantOf;
    var payload := VariantPayload(ty, name, env);
    VariantParts(p, name, ps, ty, env);
    VariantAccepts(p, name, ps, v, ty, env);
    if v.Built? && v.ctor == VariantCtor(name) {
      VariantValue(v, name, ty, env);
      forall i | 0 <= i < |ps|
        ensures Matches(LowerAll(ps, payload, env)[i], v.args[i]) <==>
          Accepts(ps[i], v.args[i], TypeAt(payload, i), env)
      {
        LowerMatches(ps[i], v.args[i], payload[i], env);
      }
      ConMatches(LowerAll(ps, payload, env), v.ctor, v.args);
      assert v == Built(v.ctor, v.args);
    } else {
      ConMismatch(VariantCtor(name), LowerAll(ps, payload, env), v);
    }
  }

  lemma ConMismatch(c: Ctor, ps: seq<Pat>, v: Value)
    requires !(v.Built? && v.ctor == c)
    ensures !Matches(Con(c, ps), v)
  {
  }

  lemma {:induction false} TupleMatches(p: Pattern, ps: seq<Pattern>, v: Value, ty: Type, env: Env)
    requires p == TuplePattern(ps) && WellTyped(p, ty, env) && HasType(v, ty, env)
    ensures Matches(Lower(p, ty, env), v) <==> Accepts(p, v, ty, env)
    decreases p, 0
  {
    hide CtorOf, LowerAlts, LowerFields, IsVariantOf, VariantOf, EnumerateCtors, Declared, VariantPayload;
    if v.Built? && v.ctor == TupleCtor {
      forall i | 0 <= i < |ps|
        ensures Matches(Lower(ps[i], TypeAt(ty.elems, i), env), v.args[i]) <==>
          Accepts(ps[i], v.args[i], TypeAt(ty.elems, i), env)
      {
        LowerMatches(ps[i], v.args[i], ty.elems[i], env);
      }
    }
  }

  /** Every field pattern naming the declared field accepts its value. */
  ghost predicate FieldAccepts(decl: (string, Type), fields: seq<FieldPattern>, v: Value, env: Env) {
    forall k :: 0 <= k < |fields| && decl.0 == fields[k].name && fields[k].pattern.Some? ==>
      Accepts(fields[k].pattern.value, v, decl.1, env)
  }

  lemma {:induction false} FieldMatches(
    p: Pattern, name: string, fields: seq<FieldPattern>, i: nat, v: Value, ty: Type, env: Env)
    requires p == StructPattern(name, fields) && WellTyped(p, ty, env) && i < |Declared(name, ty, env)|
    requires HasType(v, Declared(name, ty, env)[i].1, env)
    ensures var decl := Declared(name, ty, env)[i];
      Matches(LowerField(decl, fields, env), v) <==> FieldAccepts(decl, fields, v, env)
    decreases p, 0
  {
    hide HasType, IsVariantOf, VariantOf, LowerAlts, LowerAll;
    var decl := Declared(name, ty, env)[i];
    match FindField(fields, decl.0)
    case None =>
    case Some(k) =>
      if fields[k].pattern.Some? {
        LowerMatches(fields[k].pattern.value, v, decl.1, env);
      }
  }

  /** The fields of a struct or struct variant, as its constructor declares them. */
  lemma StructFields(p: Pattern, name: string, fields: seq<FieldPattern>, ty: Type, env: Env)
    requires p == StructPattern(name, fields) && WellTyped(p, ty, env)
    ensures var c := if IsVariantOf(name, ty, env) then VariantCtor(name) else StructCtor(name);
      && Lower(p, ty, env) == Con(c, LowerFields(Declared(name, ty, env), fields, env))
      && CtorFieldTypes(c, ty, env) == FieldTypes(Declared(name, ty, env))
  {
    if IsVariantOf(name, ty, env) {
      VariantIsCtor(name, ty, env);
    }
  }

  lemma StructAccepts(p: Pattern, name: string, fields: seq<FieldPattern>, v: Value, ty: Type, env: Env)
    requires p == StructPattern(name, fields)
    ensures var decls := Declared(name, ty, env);
      Accepts(p, v, ty, env) <==>
        && v.Built? && v.ctor == (if IsVariantOf(name, ty, env) then VariantCtor(name) else StructCtor(name))
        && |v.args| == |decls| && forall i :: 0 <= i < |decls| ==> FieldAccepts(decls[i], fields, v.args[i], env)
  {
    hide Declared, IsVariantOf;
  }

  lemma BuiltValue(v: Value, ty: Type, env: Env)
    requires v.Built? && HasType(v, ty, env)
    ensures |v.args| == |CtorFieldTypes(v.ctor, ty, env)|
    ensures forall i :: 0 <= i < |v.args| ==> HasType(v.args[i], CtorFieldTypes(v.ctor, ty, env)[i], env)
  {
    hide CtorOf, CtorFieldTypes;
  }

  /** Field patterns, looked up by declaration order, match as they do by name. */
  lemma {:induction false} StructMatches(
    p: Pattern, name: string, fields: seq<FieldPattern>, v: Value, ty: Type, env: Env)
    requires p == StructPattern(name, fields) && WellTyped(p, ty, env) && HasType(v, ty, env)
    ensures Matches(Lower(p, ty, env), v) <==> Accepts(p, v, ty, env)
    decreases p, 1
  {
    hide WellTyped, Lower, LowerField, LowerFields, HasType, Matches, Accepts, FieldAccepts, CtorFieldTypes, Declared,
      IsVariantOf;
    var decls := Declared(name, ty, env);
    var c := if IsVariantOf(name, ty, env) then VariantCtor(name) else StructCtor(name);
    StructFields(p, name, fields, ty, env);
    StructAccepts(p, name, fields, v, ty, env);
    var ps := LowerFields(decls, fields, env);
    if v.Built? && v.ctor == c {
      BuiltValue(v, ty, env);
      forall i | 0 <= i < |decls|
        ensures Matches(ps[i], v.args[i]) <==> FieldAccepts(decls[i], fields, v.args[i], env)
      {
        FieldMatches(p, name, fields, i, v.args[i], ty, env);
      }
      ConMatches(ps, c, v.args);
      assert v == Built(c, v.args);
    } else {
      ConMismatch(c, ps, v);
    }
  }

  /** Patterns for both ends of a list with wildcards between. */
  lemma EndsMatch(a: seq<Pat>, b: seq<Pat>, args: seq<Value>)
    requires |a| + |b| <= |args|
    ensures MatchesAll(a + Wildcards(|args| - |a| - |b|) + b, args) <==>
      && (forall i :: 0 <= i < |a| ==> Matches(a[i], args[i]))
      && (forall i :: 0 <= i < |b| ==> Matches(b[i], args[|args| - |b| + i]))
  {
    hide Matches, MatchesAll;
    var m := |args| - |b|;
    var va, vm, vb := args[..|a|], args[|a|..m], args[m..];
    assert args == va + vm + vb;
    MatchesSplit(a + Wildcards(|vm|), b, va + vm, vb);
    MatchesSplit(a, Wildcards(|vm|), va, vm);
    WildcardsMatch(vm);
    MatchesEach(a, args, 0);
    MatchesEach(b, args, m);
    assert args[0..0 + |a|] == va && args[m..m + |b|] == vb;
  }

  lemma MatchesEach(ps: seq<Pat>, vs: seq<Value>, from: nat)
    requires from + |ps| <= |vs|
    ensures MatchesAll(ps, vs[from..from + |ps|]) <==> forall i :: 0 <= i < |ps| ==> Matches(ps[i], vs[from + i])
  {
    hide Matches;
    var part := vs[from..from + |ps|];
    assert |part| == |ps| && forall i :: 0 <= i < |ps| ==> part[i] == vs[from + i];
  }

  /** An array value holds as many well-typed elements as its type says. */
  lemma ArrayValue(v: Value, ty: Type, env: Env)
    requires ty.ArrayType? && HasType(v, ty, env)
    ensures v.Built? && v.ctor == ArrayCtor(ty.size) && |v.args| == ty.size
    ensures forall i :: 0 <= i < |v.args| ==> HasType(v.args[i], ty.element, env)
  {
  }

  lemma SliceParts(p: Pattern, prefix: seq<Pattern>, hasRest: bool, suffix: seq<Pattern>, ty: Type, env: Env)
    requires p == SlicePattern(prefix, hasRest, suffix) && WellTyped(p, ty, env)
    ensures ty.ArrayType? && |prefix| + |suffix| <= ty.size && (!hasRest ==> |prefix| + |suffix| == ty.size)
    ensures forall i :: 0 <= i < |prefix| ==> WellTyped(prefix[i], ty.element, env)
    ensures forall i :: 0 <= i < |suffix| ==> WellTyped(suffix[i], ty.element, env)
    ensures Lower(p, ty, env) ==
      Con(ArrayCtor(ty.size), LowerAlts(prefix, ty.element, env) + Wildcards(ty.size - |prefix| - |suffix|) +
                              LowerAlts(suffix, ty.element, env))
  {
    hide CtorOf, VariantPayload, Declared, IsVariantOf, LowerAll, LowerAlts, LowerFields, PayloadTypes, VariantOf;
  }

  lemma SliceAccepts(
    p: Pattern, prefix: seq<Pattern>, hasRest: bool, suffix: seq<Pattern>, args: seq<Value>, ty: Type, env: Env)
    requires p == SlicePattern(prefix, hasRest, suffix) && ty.ArrayType? && |args| == ty.size
    requires |prefix| + |suffix| <= ty.size && (!hasRest ==> |prefix| + |suffix| == ty.size)
    ensures Accepts(p, Built(ArrayCtor(ty.size), args), ty, env) <==>
      && (forall i :: 0 <= i < |prefix| ==> Accepts(prefix[i], args[i], ty.element, env))
      && (forall i :: 0 <= i < |suffix| ==> Accepts(suffix[i], args[|args| - |suffix| + i], ty.element, env))
  {
  }

  lemma {:induction false} SliceMatches(
    p: Pattern, prefix: seq<Pattern>, hasRest: bool, suffix: seq<Pattern>, v: Value, ty: Type, env: Env)
    requires p == SlicePattern(prefix, hasRest, suffix) && WellTyped(p, ty, env) && HasType(v, ty, env)
    ensures Matches(Lower(p, ty, env), v) <==> Accepts(p, v, ty, env)
    decreases p, 0
  {
    hide WellTyped, Lower, HasType, Matches, MatchesAll, Accepts, LowerAlts, Wildcards;
    SliceParts(p, prefix, hasRest, suffix, ty, env);
    ArrayValue(v, ty, env);
    SliceAccepts(p, prefix, hasRest, suffix, v.args, ty, env);
    var a, b := LowerAlts(prefix, ty.element, env), LowerAlts(suffix, ty.element, env);
    forall i | 0 <= i < |prefix| ensures Matches(a[i], v.args[i]) <==> Accepts(prefix[i], v.args[i], ty.element, env) {
      LowerMatches(prefix[i], v.args[i], ty.element, env);
    }
    var m := |v.args| - |b|;
    forall i | 0 <= i < |suffix|
      ensures Matches(b[i], v.args[m + i]) <==> Accepts(suffix[i], v.args[m + i], ty.element, env)
    {
      LowerMatches(suffix[i], v.args[m + i], ty.element, env);
    }
    EndsMatch(a, b, v.args);
    ConMatches(a + Wildcards(ty.size - |a| - |b|) + b, ArrayCtor(ty.size), v.args);
    assert v == Built(ArrayCtor(ty.size), v.args);
  }

  // ---------- every typed pattern is a lowering ----------

  ghost predicate NamesDistinct(fields: seq<(string, Type)>) {
    forall i, k :: 0 <= i < k < |fields| ==> fields[i].0 != fields[k].0
  }

  /** Declared fields can be told apart by their names. */
  ghost predicate FieldsDistinct(env: Env) {
    && (forall name :: name in env.structs ==> NamesDistinct(env.structs[name]))
    && (forall name, i :: name in env.enums && 0 <= i < |env.enums[name]| && env.enums[name][i].1.StructVariant? ==>
          NamesDistinct(env.enums[name][i].1.fields))
  }

  /** Every typed pattern of the matrix is the lowering of a typed surface pattern. */
  lemma {:induction false} LowerIsOnto(p: Pat, ty: Type, env: Env) returns (sp: Pattern)
    requires PatOk(p, ty, env) && FieldsDistinct(env)
    ensures WellTyped(sp, ty, env) && Lower(sp, ty, env) == p
    decreases p, 1
  {
    hide CtorFieldTypes, CtorOf, FieldsDistinct;
    match p
    case Wildcard =>
      sp := WildcardPattern;
    case Or(alts) =>
      var sps := LowerAllOnto(alts, Repeat(ty, |alts|), env);
      sp := OrPattern(sps);
      assert LowerAlts(sps, ty, env) == alts;
    case Con(c, args) =>
      var sps := LowerAllOnto(args, CtorFieldTypes(c, ty, env), env);
      sp := ConOnto(c, args, sps, ty, env);
  }

  lemma {:induction false} LowerAllOnto(ps: seq<Pat>, tys: seq<Type>, env: Env) returns (sps: seq<Pattern>)
    requires PatsOk(ps, tys, env) && FieldsDistinct(env)
    ensures |sps| == |ps| == |tys|
    ensures forall i :: 0 <= i < |ps| ==> WellTyped(sps[i], tys[i], env) && Lower(sps[i], tys[i], env) == ps[i]
    decreases ps, 0
  {
    hide PatOk, WellTyped, Lower, FieldsDistinct;
    sps := [];
    if ps != [] {
      assert PatOk(ps[0], tys[0], env);
      var sp := LowerIsOnto(ps[0], tys[0], env);
      var more := LowerAllOnto(ps[1..], tys[1..], env);
      sps := [sp] + more;
    }
  }

  /** The patterns of the fields under the surface form of their constructor. */
  lemma ConOnto(c: Ctor, args: seq<Pat>, sps: seq<Pattern>, ty: Type, env: Env) returns (sp: Pattern)
    requires CtorOf(c, ty, env) && FieldsDistinct(env) && |sps| == |args| == |CtorFieldTypes(c, ty, env)|
    requires forall i :: 0 <= i < |args| ==>
      var field := CtorFieldTypes(c, ty, env)[i]; WellTyped(sps[i], field, env) && Lower(sps[i], field, env) == args[i]
    ensures WellTyped(sp, ty, env) && Lower(sp, ty, env) == Con(c, args)
  {
    hide FieldsDistinct;
    match c
    case BoolCtor(b) =>
      sp := BoolPattern(b);
    case LiteralCtor(lit) =>
      sp := LiteralPattern(lit);
    case TupleCtor =>
      sp := TupleOnto(args, sps, ty, env);
    case ArrayCtor(_) =>
      sp := ArrayOnto(args, sps, ty, env);
    case StructCtor(name) =>
      sp := StructOnto(name, args, sps, ty, env);
    case VariantCtor(name) =>
      CtorIsVariant(name, ty, env);
      if VariantOf(name, ty, env).StructVariant? {
        sp := StructOnto(name, args, sps, ty, env);
      } else {
        sp := VariantOnto(name, args, sps, ty, env);
      }
  }

  lemma CtorIsVariant(name: string, ty: Type, env: Env)
    requires CtorOf(VariantCtor(name), ty, env)
    ensures IsVariantOf(name, ty, env)
  {
  }

  lemma TupleOnto(args: seq<Pat>, sps: seq<Pattern>, ty: Type, env: Env) returns (sp: Pattern)
    requires ty.TupleType? && |sps| == |args| == |ty.elems|
    requires forall i :: 0 <= i < |args| ==>
      WellTyped(sps[i], ty.elems[i], env) && Lower(sps[i], ty.elems[i], env) == args[i]
    ensures WellTyped(sp, ty, env) && Lower(sp, ty, env) == Con(TupleCtor, args)
  {
    sp := TuplePattern(sps);
    assert LowerAll(sps, ty.elems, env) == args;
  }

  lemma ArrayOnto(args: seq<Pat>, sps: seq<Pattern>, ty: Type, env: Env) returns (sp: Pattern)
    requires ty.ArrayType? && |sps| == |args| == ty.size
    requires forall i :: 0 <= i < |args| ==>
      WellTyped(sps[i], ty.element, env) && Lower(sps[i], ty.element, env) == args[i]
    ensures WellTyped(sp, ty, env) && Lower(sp, ty, env) == Con(ArrayCtor(ty.size), args)
  {
    sp := SlicePattern(sps, false, []);
    assert LowerAlts(sps, ty.element, env) == args;
    assert args + Wildcards(0) + LowerAlts([], ty.element, env) == args;
  }

  lemma VariantOnto(name: string, args: seq<Pat>, sps: seq<Pattern>, ty: Type, env: Env) returns (sp: Pattern)
    requires IsVariantOf(name, ty, env) && |sps| == |args| == |VariantPayload(ty, name, env)|
    requires forall i :: 0 <= i < |args| ==>
      var field := VariantPayload(ty, name, env)[i];
      WellTyped(sps[i], field, env) && Lower(sps[i], field, env) == args[i]
    ensures WellTyped(sp, ty, env) && Lower(sp, ty, env) == Con(VariantCtor(name), args)
  {
    hide VariantPayload, IsVariantOf;
    sp := TupleVariantPattern(name, sps);
    assert LowerAll(sps, VariantPayload(ty, name, env), env) == args;
  }

  /** One field pattern for each declared field. */
  function Fields(decls: seq<(string, Type)>, sps: seq<Pattern>): (fields: seq<FieldPattern>)
    requires |decls| == |sps|
    ensures |fields| == |decls|
    ensures forall i :: 0 <= i < |fields| ==> fields[i] == FieldPattern(decls[i].0, Some(sps[i]))
  {
    seq(|decls|, i requires 0 <= i < |decls| => FieldPattern(decls[i].0, Some(sps[i])))
  }

  lemma StructOnto(name: string, args: seq<Pat>, sps: seq<Pattern>, ty: Type, env: Env) returns (sp: Pattern)
    requires FieldsDistinct(env)
    requires IsVariantOf(name, ty, env) ==> VariantOf(name, ty, env).StructVariant?
    requires !IsVariantOf(name, ty, env) ==> CtorOf(StructCtor(name), ty, env)
    requires var decls := Declared(name, ty, env);
      && |sps| == |args| == |decls|
      && forall i :: 0 <= i < |args| ==> WellTyped(sps[i], decls[i].1, env) && Lower(sps[i], decls[i].1, env) == args[i]
    ensures WellTyped(sp, ty, env)
    ensures Lower(sp, ty, env) == Con(if IsVariantOf(name, ty, env) then VariantCtor(name) else StructCtor(name), args)
  {
    var decls := Declared(name, ty, env);
    DeclaredDistinct(name, ty, env);
    var fields := Fields(decls, sps);
    sp := StructPattern(name, fields);
    forall i | 0 <= i < |decls| ensures LowerField(decls[i], fields, env) == args[i] {
      assert FindField(fields, decls[i].0) == Some(i) by {
        FindsField(fields, i);
      }
    }
    assert LowerFields(decls, fields, env) == args;
  }

  lemma DeclaredDistinct(name: string, ty: Type, env: Env)
    requires FieldsDistinct(env)
    ensures NamesDistinct(Declared(name, ty, env))
  {
    if IsVariantOf(name, ty, env) {
      var info := VariantOf(name, ty, env);
      var i :| 0 <= i < |env.enums[ty.name]| && env.enums[ty.name][i] == (name, info);
    }
  }

  lemma {:induction false} FindsField(fields: seq<FieldPattern>, i: nat)
    requires i < |fields| && forall k :: 0 <= k < i ==> fields[k].name != fields[i].name
    ensures FindField(fields, fields[i].name) == Some(i)
  {
    if i > 0 {
      FindsField(fields[1..], i - 1);
    }
  }
}
