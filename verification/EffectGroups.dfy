/** What effect groups mean: each stands for its own effects and those of the groups it refers to. */
module EffectGroupFacts {
  import opened Graphs

  datatype Effect = Effect(verb: string, resource: string)

  /** An effect and the position it was declared at. */
  datatype TracedEffect = TracedEffect(effect: Effect, origin: nat)

  datatype GroupTerm = Verb(verb: string, resources: seq<string>, span: nat) | GroupRef(name: string)

  datatype GroupDecl = GroupDecl(body: seq<GroupTerm>)

  type Decls = map<string, GroupDecl>

  type Groups = map<string, seq<TracedEffect>>

  /** The references between defined groups. */
  function Refs(decls: Decls): (g: Graph<string>) {
    map name | name in decls :: set t | t in decls[name].body && t.GroupRef? && t.name in decls :: t.name
  }

  ghost predicate Cyclic(decls: Decls) {
    exists u, v :: Edge(Refs(decls), u, v) && Reach(Refs(decls), v, u)
  }

  /** The group refers to itself, directly or through other groups. */
  ghost predicate OnCycle(decls: Decls, name: string) {
    exists u :: Edge(Refs(decls), u, name) && Reach(Refs(decls), name, u)
  }

  // ---------- duplicate-free lists of effects ----------

  predicate Has(effects: seq<TracedEffect>, e: Effect) {
    exists i :: 0 <= i < |effects| && effects[i].effect == e
  }

  /** Appends an effect that is not there yet. */
  function Add(effects: seq<TracedEffect>, t: TracedEffect): seq<TracedEffect> {
    if Has(effects, t.effect) then effects else effects + [t]
  }

  function AddAll(effects: seq<TracedEffect>, more: seq<TracedEffect>): seq<TracedEffect> {
    if more == [] then effects else Add(AddAll(effects, more[..|more| - 1]), more[|more| - 1])
  }

  predicate NoDuplicates(effects: seq<TracedEffect>) {
    forall i, j :: 0 <= i < j < |effects| ==> effects[i].effect != effects[j].effect
  }

  lemma {:induction false} AddIsUnion(effects: seq<TracedEffect>, t: TracedEffect)
    ensures forall e :: Has(Add(effects, t), e) <==> Has(effects, e) || e == t.effect
    ensures NoDuplicates(effects) ==> NoDuplicates(Add(effects, t))
  {
    if !Has(effects, t.effect) {
      forall e ensures Has(effects + [t], e) <==> Has(effects, e) || e == t.effect {
        if i :| 0 <= i < |effects| && effects[i].effect == e {
          assert (effects + [t])[i].effect == e;
        }
        assert (effects + [t])[|effects|] == t;
      }
    }
  }

  lemma {:induction false} AddAllIsUnion(effects: seq<TracedEffect>, more: seq<TracedEffect>)
    ensures forall e :: Has(AddAll(effects, more), e) <==> Has(effects, e) || Has(more, e)
    ensures NoDuplicates(effects) ==> NoDuplicates(AddAll(effects, more))
    decreases more
  {
    hide Has, Add, NoDuplicates;
    if more == [] {
      NothingHas();
    } else {
      var front, last := more[..|more| - 1], more[|more| - 1];
      AddAllIsUnion(effects, front);
      AddIsUnion(AddAll(effects, front), last);
      HasAppends(front, last);
      assert more == front + [last];
    }
  }

  lemma NothingHas()
    ensures forall e :: !Has([], e)
  {
  }

  lemma {:induction false} HasAppends(effects: seq<TracedEffect>, t: TracedEffect)
    ensures forall e :: Has(effects + [t], e) <==> Has(effects, e) || e == t.effect
  {
    forall e ensures Has(effects + [t], e) <==> Has(effects, e) || e == t.effect {
      if i :| 0 <= i < |effects| && effects[i].effect == e {
        assert (effects + [t])[i].effect == e;
      }
      assert (effects + [t])[|effects|] == t;
    }
  }

  // ---------- what a group's body adds up to ----------

  function Traced(verb: string, resources: seq<string>, span: nat): (r: seq<TracedEffect>)
    ensures |r| == |resources|
  {
    seq(|resources|, i requires 0 <= i < |resources| => TracedEffect(Effect(verb, resources[i]), span))
  }

  /** What a term stands for, given the expansions of other groups. */
  function Meaning(term: GroupTerm, groups: Groups): seq<TracedEffect> {
    match term
    case Verb(verb, resources, span) => Traced(verb, resources, span)
    case GroupRef(name) => if name in groups then groups[name] else []
  }

  /** The terms' effects from left to right, without duplicates; references to undefined groups add nothing. */
  function Merged(body: seq<GroupTerm>, decls: Decls, groups: Groups): seq<TracedEffect> {
    if body == [] then []
    else
      var front, last := Merged(body[..|body| - 1], decls, groups), body[|body| - 1];
      if last.GroupRef? && last.name !in decls then front else AddAll(front, Meaning(last, groups))
  }

  /** Every group is expanded to what its body adds up to. */
  ghost predicate Solves(decls: Decls, groups: Groups) {
    groups.Keys == decls.Keys && forall name :: name in decls ==>
      groups[name] == Merged(decls[name].body, decls, groups)
  }

  ghost predicate Declares(decl: GroupDecl, e: Effect) {
    exists t :: t in decl.body && t.Verb? && t.verb == e.verb && e.resource in t.resources
  }

  /** The effect is declared by a group that can be reached through references. */
  ghost predicate Reachable(decls: Decls, name: string, e: Effect) {
    exists h :: h in decls && Reach(Refs(decls), name, h) && Declares(decls[h], e)
  }

  ghost predicate Adds(term: GroupTerm, decls: Decls, groups: Groups, e: Effect) {
    (term.GroupRef? ==> term.name in decls) && Has(Meaning(term, groups), e)
  }

  lemma {:induction false} MergedIsUnion(body: seq<GroupTerm>, decls: Decls, groups: Groups)
    ensures NoDuplicates(Merged(body, decls, groups))
    ensures forall e :: Has(Merged(body, decls, groups), e) <==> exists t :: t in body && Adds(t, decls, groups, e)
  {
    hide Has, NoDuplicates, AddAll;
    if body == [] {
      NothingHas();
      NothingRepeats();
    } else {
      var front, last := body[..|body| - 1], body[|body| - 1];
      assert body == front + [last];
      MergedIsUnion(front, decls, groups);
      AddAllIsUnion(Merged(front, decls, groups), Meaning(last, groups));
      forall e ensures Has(Merged(body, decls, groups), e) <==> exists t :: t in body && Adds(t, decls, groups, e) {
        if Adds(last, decls, groups, e) {
          assert last in body;
        }
        if t :| t in front && Adds(t, decls, groups, e) {
          assert t in body;
        }
        if t :| t in body && Adds(t, decls, groups, e) {
          assert t in front || t == last;
        }
      }
    }
  }

  lemma NothingRepeats()
    ensures NoDuplicates([])
  {
  }

  lemma {:induction false} TracedHas(verb: string, resources: seq<string>, span: nat, e: Effect)
    ensures forall i :: 0 <= i < |resources| ==>
      var t := Traced(verb, resources, span)[i]; t.effect.resource == resources[i] && t.origin == span
    ensures Has(Traced(verb, resources, span), e) <==> e.verb == verb && e.resource in resources
  {
    var r := Traced(verb, resources, span);
    if e.verb == verb && e.resource in resources {
      var i :| 0 <= i < |resources| && resources[i] == e.resource;
      assert r[i].effect == e;
    }
  }

  /** A group has the effects it declares and those of the defined groups it refers to. */
  lemma {:induction false} HasFromTerms(decls: Decls, groups: Groups, name: string, e: Effect)
    requires Solves(decls, groups) && name in decls
    ensures Has(groups[name], e) <==>
      Declares(decls[name], e) || exists r :: Edge(Refs(decls), name, r) && Has(groups[r], e)
  {
    hide Has, NoDuplicates, Merged;
    var body := decls[name].body;
    MergedIsUnion(body, decls, groups);
    if t :| t in body && Adds(t, decls, groups, e) {
      match t
      case Verb(verb, resources, span) => TracedHas(verb, resources, span, e);
      case GroupRef(r) => assert Edge(Refs(decls), name, r);
    }
    if Declares(decls[name], e) {
      var t :| t in body && t.Verb? && t.verb == e.verb && e.resource in t.resources;
      TracedHas(t.verb, t.resources, t.span, e);
      assert Adds(t, decls, groups, e);
    }
    if r :| Edge(Refs(decls), name, r) && Has(groups[r], e) {
      assert GroupRef(r) in body;
      assert Adds(GroupRef(r), decls, groups, e);
    }
  }

  // ---------- the order of the effects, and where they come from ----------

  /** The terms' effects from left to right, repetitions included. */
  ghost function Flat(body: seq<GroupTerm>, decls: Decls, groups: Groups): seq<TracedEffect> {
    if body == [] then []
    else FlatTerm(body[0], decls, groups) + Flat(body[1..], decls, groups)
  }

  /** `kept` holds, in order, the elements of `all` whose effect does not occur before them. */
  ghost predicate KeepsFirst(all: seq<TracedEffect>, ix: seq<nat>, kept: seq<TracedEffect>) {
    && |ix| == |kept|
    && (forall k :: 0 <= k < |ix| ==> ix[k] < |all| && kept[k] == all[ix[k]])
    && (forall k, l :: 0 <= k < l < |ix| ==> ix[k] < ix[l])
    && forall j: nat :: j in ix <==> IsFirst(all, j)
  }

  ghost predicate IsFirst(all: seq<TracedEffect>, j: nat) {
    j < |all| && forall i :: 0 <= i < j ==> all[i].effect != all[j].effect
  }

  /** What one term adds. */
  ghost function FlatTerm(term: GroupTerm, decls: Decls, groups: Groups): seq<TracedEffect> {
    if term.GroupRef? && term.name !in decls then [] else Meaning(term, groups)
  }

  lemma {:induction false} FlatAppends(body: seq<GroupTerm>, term: GroupTerm, decls: Decls, groups: Groups)
    ensures Flat(body + [term], decls, groups) == Flat(body, decls, groups) + FlatTerm(term, decls, groups)
  {
    hide FlatTerm;
    if body == [] {
      assert body + [term] == [term] && [term][1..] == [];
    } else {
      assert (body + [term])[1..] == body[1..] + [term] && (body + [term])[0] == body[0];
      FlatAppends(body[1..], term, decls, groups);
      Regroup(FlatTerm(body[0], decls, groups), Flat(body[1..], decls, groups), FlatTerm(term, decls, groups));
    }
  }

  lemma Regroup<T>(a: seq<T>, b: seq<T>, c: seq<T>)
    ensures (a + b) + c == a + (b + c)
  {
  }

  lemma AddKeepsFirst(all: seq<TracedEffect>, ix: seq<nat>, kept: seq<TracedEffect>, t: TracedEffect)
    returns (more: seq<nat>)
    requires KeepsFirst(all, ix, kept)
    ensures KeepsFirst(all + [t], more, Add(kept, t))
  {
    hide IsFirst, Has;
    more := if Has(kept, t.effect) then ix else ix + [|all|];
    FirstOccurs(all, ix, kept, t.effect);
    forall j: nat ensures j in more <==> IsFirst(all + [t], j) {
      FirstIsKept(all, t, j);
      assert j in ix ==> j < |all|;
    }
  }

  lemma FirstIsKept(all: seq<TracedEffect>, t: TracedEffect, j: nat)
    ensures j < |all| ==> (IsFirst(all + [t], j) <==> IsFirst(all, j))
    ensures j == |all| ==> (IsFirst(all + [t], j) <==> !Has(all, t.effect))
    ensures IsFirst(all + [t], j) ==> j <= |all|
    ensures IsFirst(all, j) ==> j < |all|
  {
    assert forall i :: 0 <= i < |all| ==> (all + [t])[i] == all[i];
  }

  lemma {:induction false} FirstOf(all: seq<TracedEffect>, j: nat) returns (first: nat)
    requires j < |all|
    ensures IsFirst(all, first) && all[first].effect == all[j].effect
  {
    first := j;
    if i :| 0 <= i < j && all[i].effect == all[j].effect {
      first := FirstOf(all, i);
    }
  }

  /** An effect that occurs is kept. */
  lemma FirstOccurs(all: seq<TracedEffect>, ix: seq<nat>, kept: seq<TracedEffect>, e: Effect)
    requires KeepsFirst(all, ix, kept)
    ensures Has(kept, e) <==> Has(all, e)
  {
    hide IsFirst;
    if j :| 0 <= j < |all| && all[j].effect == e {
      var first := FirstOf(all, j);
      var k :| 0 <= k < |ix| && ix[k] == first;
      assert kept[k].effect == e;
    }
  }

  lemma {:induction false} AddAllKeepsFirst(
    all: seq<TracedEffect>, ix: seq<nat>, kept: seq<TracedEffect>, added: seq<TracedEffect>) returns (more: seq<nat>)
    requires KeepsFirst(all, ix, kept)
    ensures KeepsFirst(all + added, more, AddAll(kept, added))
    decreases |added|
  {
    hide KeepsFirst, Add;
    if added == [] {
      assert all + added == all;
      more := ix;
    } else {
      var front, last := added[..|added| - 1], added[|added| - 1];
      more := AddAllKeepsFirst(all, ix, kept, front);
      more := AddKeepsFirst(all + front, more, AddAll(kept, front), last);
      assert all + front + [last] == all + added;
    }
  }

  lemma NothingIsFirst()
    ensures forall j: nat :: !IsFirst([], j)
  {
  }

  /** Merging keeps the first occurrence of every effect, in the order of the terms. */
  lemma {:induction false} MergedKeepsFirst(body: seq<GroupTerm>, decls: Decls, groups: Groups) returns (ix: seq<nat>)
    ensures KeepsFirst(Flat(body, decls, groups), ix, Merged(body, decls, groups))
  {
    hide AddAll, Meaning, IsFirst;
    if body == [] {
      ix := [];
      assert forall j: nat :: !IsFirst([], j) by {
        NothingIsFirst();
      }
    } else {
      var front, last := body[..|body| - 1], body[|body| - 1];
      assert body == front + [last];
      FlatAppends(front, last, decls, groups);
      ix := MergedKeepsFirst(front, decls, groups);
      assert Flat(front, decls, groups) + [] == Flat(front, decls, groups);
      if !(last.GroupRef? && last.name !in decls) {
        ix := AddAllKeepsFirst(Flat(front, decls, groups), ix, Merged(front, decls, groups), Meaning(last, groups));
      }
    }
  }

  /** A verb term of the declaration stands at the position the effect was traced to, and declares it. */
  ghost predicate DeclaresAt(decl: GroupDecl, t: TracedEffect) {
    exists v ::
      v in decl.body && v.Verb? && v.verb == t.effect.verb && t.effect.resource in v.resources && v.span == t.origin
  }

  lemma {:induction false} FlatFromTerms(body: seq<GroupTerm>, decls: Decls, groups: Groups, t: TracedEffect)
    requires t in Flat(body, decls, groups)
    ensures exists term :: term in body && (term.GroupRef? ==> term.name in decls) && t in Meaning(term, groups)
  {
    if t in Flat(body[1..], decls, groups) {
      FlatFromTerms(body[1..], decls, groups, t);
      var term :| term in body[1..] && (term.GroupRef? ==> term.name in decls) && t in Meaning(term, groups);
      assert term in body;
    } else {
      assert body[0] in body;
    }
  }

  // ---------- acyclic declarations ----------

  /** A path without repetitions, ending at `name`: what is left of the groups gets smaller as it grows. */
  ghost predicate Trail(decls: Decls, trail: seq<string>, name: string) {
    && Path(Refs(decls), trail) && trail[|trail| - 1] == name
    && (forall i :: 0 <= i < |trail| ==> trail[i] in decls)
    && forall i, j :: 0 <= i < j < |trail| ==> trail[i] != trail[j]
  }

  ghost function Left(decls: Decls, trail: seq<string>): set<string> {
    decls.Keys - set x | x in trail
  }

  lemma {:induction false} TrailGrows(decls: Decls, trail: seq<string>, name: string, next: string)
    requires !Cyclic(decls) && Trail(decls, trail, name) && Edge(Refs(decls), name, next)
    ensures Trail(decls, trail + [next], next) && Left(decls, trail + [next]) < Left(decls, trail)
  {
    var g, longer := Refs(decls), trail + [next];
    if i :| 0 <= i < |trail| && trail[i] == next {
      assert PathFromTo(g, next, trail[i..], name);
      assert Reach(g, next, name);
    }
    assert next in Left(decls, trail) && next in longer && next !in Left(decls, longer);
    assert trail <= longer && forall x :: x in trail ==> x in longer;
  }

  lemma {:induction false} OnlyReachable(decls: Decls, groups: Groups, trail: seq<string>, name: string, e: Effect)
    requires !Cyclic(decls) && Solves(decls, groups) && Trail(decls, trail, name) && Has(groups[name], e)
    ensures Reachable(decls, name, e)
    decreases Left(decls, trail)
  {
    hide Trail, Has, Cyclic;
    assert name in decls by { TrailEnds(decls, trail, name); }
    HasFromTerms(decls, groups, name, e);
    if Declares(decls[name], e) {
      ReachRefl(Refs(decls), name);
    } else {
      var r :| Edge(Refs(decls), name, r) && Has(groups[r], e);
      TrailGrows(decls, trail, name, r);
      OnlyReachable(decls, groups, trail + [r], r, e);
      var h :| h in decls && Reach(Refs(decls), r, h) && Declares(decls[h], e);
      ReachEdge(Refs(decls), name, r);
      ReachTrans(Refs(decls), name, r, h);
    }
  }

  lemma TrailEnds(decls: Decls, trail: seq<string>, name: string)
    requires Trail(decls, trail, name)
    ensures name in decls
  {
  }

  lemma {:induction false} AllReachable(
    decls: Decls, groups: Groups, name: string, p: seq<string>, h: string, e: Effect)
    requires Solves(decls, groups) && name in decls && PathFromTo(Refs(decls), name, p, h)
    requires h in decls && Declares(decls[h], e)
    ensures Has(groups[name], e)
    decreases |p|
  {
    hide Has, Declares;
    if |p| > 1 {
      PathSplit(Refs(decls), name, p, h);
      AllReachable(decls, groups, p[1], p[1..], h, e);
    }
    HasFromTerms(decls, groups, name, e);
  }

  /** Expansions of acyclic declarations: no duplicates, and exactly the effects of the groups in reach. */
  lemma {:induction false} SolutionIsReachable(decls: Decls, groups: Groups, name: string)
    requires !Cyclic(decls) && Solves(decls, groups) && name in decls
    ensures NoDuplicates(groups[name])
    ensures forall e :: Has(groups[name], e) <==> Reachable(decls, name, e)
  {
    hide Has, Cyclic, Declares;
    MergedIsUnion(decls[name].body, decls, groups);
    forall e ensures Has(groups[name], e) <==> Reachable(decls, name, e) {
      if Has(groups[name], e) {
        OnlyReachable(decls, groups, [name], name, e);
      }
      if h :| h in decls && Reach(Refs(decls), name, h) && Declares(decls[h], e) {
        var p :| PathFromTo(Refs(decls), name, p, h);
        AllReachable(decls, groups, name, p, h, e);
      }
    }
  }

  /** Every effect of an expansion is traced to a verb term, in a group within reach, that declares it. */
  lemma {:induction false} OriginIsDeclared(
    decls: Decls, groups: Groups, trail: seq<string>, name: string, t: TracedEffect)
    requires !Cyclic(decls) && Solves(decls, groups) && Trail(decls, trail, name)
    requires name in groups && t in groups[name]
    ensures exists h :: h in decls && Reach(Refs(decls), name, h) && DeclaresAt(decls[h], t)
    decreases Left(decls, trail)
  {
    hide Trail, Cyclic, Merged, Reach;
    TrailEnds(decls, trail, name);
    var body := decls[name].body;
    var ix := MergedKeepsFirst(body, decls, groups);
    assert t in Flat(body, decls, groups);
    FlatFromTerms(body, decls, groups, t);
    var term :| term in body && (term.GroupRef? ==> term.name in decls) && t in Meaning(term, groups);
    if term.Verb? {
      assert DeclaresAt(decls[name], t);
      ReachRefl(Refs(decls), name);
    } else {
      var r := term.name;
      assert Edge(Refs(decls), name, r);
      TrailGrows(decls, trail, name, r);
      OriginIsDeclared(decls, groups, trail + [r], r, t);
      var h :| h in decls && Reach(Refs(decls), r, h) && DeclaresAt(decls[h], t);
      ReachEdge(Refs(decls), name, r);
      ReachTrans(Refs(decls), name, r, h);
    }
  }

  lemma {:induction false} MergedAgrees(body: seq<GroupTerm>, decls: Decls, a: Groups, b: Groups)
    requires forall t :: t in body && t.GroupRef? && t.name in decls ==> Meaning(t, a) == Meaning(t, b)
    ensures Merged(body, decls, a) == Merged(body, decls, b)
  {
    hide AddAll;
    if body != [] {
      assert body[|body| - 1] in body;
      MergedAgrees(body[..|body| - 1], decls, a, b);
    }
  }

  lemma {:induction false} SolutionsAgreeAt(decls: Decls, a: Groups, b: Groups, trail: seq<string>, name: string)
    requires !Cyclic(decls) && Solves(decls, a) && Solves(decls, b) && Trail(decls, trail, name)
    ensures name in decls && a[name] == b[name]
    decreases Left(decls, trail)
  {
    hide Trail, Cyclic, Merged;
    TrailEnds(decls, trail, name);
    var body := decls[name].body;
    forall t | t in body && t.GroupRef? && t.name in decls ensures Meaning(t, a) == Meaning(t, b) {
      assert Edge(Refs(decls), name, t.name);
      TrailGrows(decls, trail, name, t.name);
      SolutionsAgreeAt(decls, a, b, trail + [t.name], t.name);
    }
    MergedAgrees(body, decls, a, b);
  }

  /** Acyclic declarations have one expansion, down to the order of the effects in every group. */
  lemma {:induction false} SolutionIsUnique(decls: Decls, a: Groups, b: Groups)
    requires !Cyclic(decls) && Solves(decls, a) && Solves(decls, b)
    ensures a == b
  {
    hide Cyclic, Merged;
    forall name | name in decls ensures a[name] == b[name] {
      SolutionsAgreeAt(decls, a, b, [name], name);
    }
  }
}

/** Expanding effect groups, with memoised results and detection of circular references. */
module EffectGroups {
  import opened Graphs
  import opened EffectGroupFacts

  datatype EffectError = CircularGroup(name: string) | UndefinedGroup(name: string, referrer: string)

  predicate Circular(errors: seq<EffectError>) {
    exists i :: 0 <= i < |errors| && errors[i].CircularGroup?
  }

  /** A defined group refers to a name that no group has. */
  ghost predicate Misses(decls: Decls, name: string, missing: string) {
    name in decls && missing !in decls && GroupRef(missing) in decls[name].body
  }

  /** The references among the terms have expansions. */
  ghost predicate RefsExpanded(body: seq<GroupTerm>, decls: Decls, groups: Groups) {
    forall t :: t in body && t.GroupRef? && t.name in decls ==> t.name in groups
  }

  /** A finished group: its expansion is final, and the groups it refers to are finished earlier. */
  ghost predicate Settled(decls: Decls, groups: Groups, finished: seq<string>, i: nat)
    requires i < |finished|
  {
    var name := finished[i];
    && name in decls && name in groups && groups[name] == Merged(decls[name].body, decls, groups)
    && forall r :: Edge(Refs(decls), name, r) ==> r in finished[..i]
  }

  ghost predicate AllSettled(decls: Decls, groups: Groups, finished: seq<string>) {
    && (forall name :: name in groups ==> name in finished)
    && forall i :: 0 <= i < |finished| ==> Settled(decls, groups, finished, i)
  }

  /**
    What expansion keeps: while no circular reference has shown up, exactly the finished groups are expanded, for
    good.
   */
  ghost predicate Sound(decls: Decls, groups: Groups, errors: seq<EffectError>, finished: seq<string>) {
    && (forall name :: name in finished ==> name in groups)
    && (forall name :: name in groups ==> name in decls)
    && (if Circular(errors) then Cyclic(decls) else AllSettled(decls, groups, finished))
    && (forall x :: CircularGroup(x) in errors ==> OnCycle(decls, x))
    && (forall x, y :: UndefinedGroup(x, y) in errors ==> Misses(decls, y, x))
    && (forall x, y :: y in finished && Misses(decls, y, x) ==> UndefinedGroup(x, y) in errors)
  }

  /** The groups being expanded, each referring to the next and the last to `name`. */
  ghost predicate Awaiting(decls: Decls, path: seq<string>, name: string) {
    path == [] || (Path(Refs(decls), path) && Edge(Refs(decls), path[|path| - 1], name))
  }

  /** Groups visited so far are being expanded or have an expansion. */
  ghost predicate Seen(visited: set<string>, path: seq<string>, groups: Groups) {
    (forall v :: v in visited ==> v in path || v in groups) && forall v :: v in path ==> v in visited
  }

  /** Every expansion belongs to a finished group, or is a placeholder of one still being expanded. */
  ghost predicate Accounted(groups: Groups, finished: seq<string>, path: seq<string>) {
    forall name :: name in groups ==> name in finished || name in path
  }

  /** What expanding further groups leaves alone. */
  ghost predicate Extends(
    was: Groups, groups: Groups, wereErrors: seq<EffectError>, errors: seq<EffectError>, path: seq<string>) {
    && wereErrors <= errors
    && (forall name :: name in was ==> name in groups)
    && (!Circular(errors) ==>
        && (forall name :: name in was ==> groups[name] == was[name])
        && forall name :: name in path && name !in was ==> name !in groups)
  }

  lemma {:induction false} FoundCycle(decls: Decls, path: seq<string>, name: string)
    requires Awaiting(decls, path, name) && name in path
    ensures OnCycle(decls, name) && Cyclic(decls)
  {
    var i :| 0 <= i < |path| && path[i] == name;
    assert PathFromTo(Refs(decls), name, path[i..], path[|path| - 1]);
    assert Reach(Refs(decls), name, path[|path| - 1]);
  }

  lemma {:induction false} SettledStays(
    decls: Decls, was: Groups, groups: Groups, finished: seq<string>, later: seq<string>, i: nat)
    requires i < |finished| && finished <= later && Settled(decls, was, finished, i)
    requires forall name :: name in finished ==> name in was
    requires forall name :: name in was ==> name in groups && groups[name] == was[name]
    ensures Settled(decls, groups, later, i)
  {
    hide Merged;
    var name := finished[i];
    assert later[..i] == finished[..i];
    forall t | t in decls[name].body && t.GroupRef? && t.name in decls ensures Meaning(t, was) == Meaning(t, groups) {
      assert Edge(Refs(decls), name, t.name);
    }
    MergedAgrees(decls[name].body, decls, was, groups);
  }

  /** Finishing a group, when no circular reference has shown up. */
  lemma {:induction false} FinishSettles(
    decls: Decls, was: Groups, finished: seq<string>, name: string, result: seq<TracedEffect>)
    requires AllSettled(decls, was, finished) && (forall f :: f in finished ==> f in was)
    requires name in decls && name !in was
    requires RefsExpanded(decls[name].body, decls, was) && result == Merged(decls[name].body, decls, was)
    ensures AllSettled(decls, was[name := result], finished + [name])
  {
    hide Merged, Settled;
    var groups, later := was[name := result], finished + [name];
    forall i | 0 <= i < |later| ensures Settled(decls, groups, later, i) {
      if i < |finished| {
        SettledStays(decls, was, groups, finished, later, i);
      } else {
        LastSettles(decls, was, finished, name, result);
      }
    }
    assert forall f :: f in finished ==> f in later;
    assert later[|finished|] == name;
  }

  lemma {:induction false} LastSettles(
    decls: Decls, was: Groups, finished: seq<string>, name: string, result: seq<TracedEffect>)
    requires (forall g :: g in was ==> g in finished) && name in decls && name !in was
    requires RefsExpanded(decls[name].body, decls, was) && result == Merged(decls[name].body, decls, was)
    ensures Settled(decls, was[name := result], finished + [name], |finished|)
  {
    hide Merged;
    var body, groups := decls[name].body, was[name := result];
    assert (finished + [name])[..|finished|] == finished;
    forall t | t in body && t.GroupRef? && t.name in decls ensures Meaning(t, was) == Meaning(t, groups) {
      assert t.name in was && t.name != name;
    }
    MergedAgrees(body, decls, was, groups);
  }

  /** When all groups are settled there is no cycle: references lead to groups finished earlier. */
  lemma {:induction false} SettledIsAcyclic(decls: Decls, groups: Groups, finished: seq<string>)
    requires AllSettled(decls, groups, finished) && forall name :: name in decls ==> name in finished
    ensures !Cyclic(decls)
  {
    hide Merged;
    var g := Refs(decls);
    if u, v :| Edge(g, u, v) && Reach(g, v, u) {
      var p :| PathFromTo(g, v, p, u);
      var i := Earliest(finished, u);
      assert Settled(decls, groups, finished, i);
      Descends(decls, groups, finished, i, v, p, u);
    }
  }

  lemma {:induction false} Earliest(finished: seq<string>, name: string) returns (i: nat)
    requires name in finished
    ensures i < |finished| && finished[i] == name && name !in finished[..i]
  {
    i :| 0 <= i < |finished| && finished[i] == name;
    if name in finished[..i] {
      i := Earliest(finished[..i], name);
    }
  }

  /** Everything in reach of a group finished before index `i` is, too. */
  lemma {:induction false} Descends(
    decls: Decls, groups: Groups, finished: seq<string>, i: nat, v: string, p: seq<string>, u: string)
    requires AllSettled(decls, groups, finished) && i <= |finished| && v in finished[..i]
    requires PathFromTo(Refs(decls), v, p, u)
    ensures u in finished[..i]
    decreases |p|
  {
    hide Merged;
    if |p| > 1 {
      PathSplit(Refs(decls), v, p, u);
      var k :| 0 <= k < i && finished[k] == v;
      assert Settled(decls, groups, finished, k);
      Descends(decls, groups, finished, i, p[1], p[1..], u);
    }
  }

  lemma NothingMerged(decls: Decls, groups: Groups)
    ensures Merged([], decls, groups) == []
  {
  }

  lemma {:induction false} MergedStep(body: seq<GroupTerm>, i: nat, decls: Decls, groups: Groups)
    requires i < |body|
    ensures Merged(body[..i + 1], decls, groups) ==
      if body[i].GroupRef? && body[i].name !in decls then Merged(body[..i], decls, groups)
      else AddAll(Merged(body[..i], decls, groups), Meaning(body[i], groups))
  {
    assert body[..i + 1][..i] == body[..i];
  }

  lemma {:induction false} AddAllStep(effects: seq<TracedEffect>, more: seq<TracedEffect>, k: nat)
    requires k < |more|
    ensures AddAll(effects, more[..k + 1]) == Add(AddAll(effects, more[..k]), more[k])
  {
    assert more[..k + 1][..k] == more[..k];
  }

  lemma {:induction false} MergedStays(
    body: seq<GroupTerm>, decls: Decls, was: Groups, groups: Groups, were: seq<EffectError>, errors: seq<EffectError>,
    path: seq<string>)
    requires RefsExpanded(body, decls, was) && Extends(was, groups, were, errors, path)
    ensures RefsExpanded(body, decls, groups) && (Circular(were) ==> Circular(errors))
    ensures !Circular(errors) ==> Merged(body, decls, was) == Merged(body, decls, groups)
  {
    hide Merged;
    CircularStays(were, errors);
    if !Circular(errors) {
      MergedAgrees(body, decls, was, groups);
    }
  }

  lemma {:induction false} CircularStays(were: seq<EffectError>, errors: seq<EffectError>)
    requires were <= errors
    ensures Circular(were) ==> Circular(errors)
  {
    if i :| 0 <= i < |were| && were[i].CircularGroup? {
      assert errors[i].CircularGroup?;
    }
  }

  lemma {:induction false} StillNotCircular(errors: seq<EffectError>)
    requires errors != [] && !errors[|errors| - 1].CircularGroup?
    ensures Circular(errors) <==> Circular(errors[..|errors| - 1])
  {
    if i :| 0 <= i < |errors| && errors[i].CircularGroup? {
      assert errors[..|errors| - 1][i].CircularGroup?;
    }
    CircularStays(errors[..|errors| - 1], errors);
  }

  lemma NothingSettled(decls: Decls)
    ensures AllSettled(decls, map[], [])
  {
  }

  lemma {:induction false} SettledSolves(decls: Decls, groups: Groups, finished: seq<string>)
    requires AllSettled(decls, groups, finished) && groups.Keys == decls.Keys
    ensures Solves(decls, groups)
  {
    hide Merged;
    forall name | name in decls ensures groups[name] == Merged(decls[name].body, decls, groups) {
      var i :| 0 <= i < |finished| && finished[i] == name;
      assert Settled(decls, groups, finished, i);
    }
  }

  // ---------- the steps of an expansion ----------

  lemma NothingExtends(groups: Groups, were: seq<EffectError>, errors: seq<EffectError>, path: seq<string>)
    requires were <= errors
    ensures Extends(groups, groups, were, errors, path)
  {
  }

  lemma ExtendsTrans(
    a: Groups, b: Groups, c: Groups, ea: seq<EffectError>, eb: seq<EffectError>, ec: seq<EffectError>,
    path: seq<string>)
    requires Extends(a, b, ea, eb, path) && Extends(b, c, eb, ec, path)
    ensures Extends(a, c, ea, ec, path) && forall e :: e in eb ==> e in ec
  {
    CircularStays(eb, ec);
    assert forall i :: 0 <= i < |eb| ==> ec[i] == eb[i];
  }

  lemma RefAwaits(decls: Decls, path: seq<string>, name: string, ref: string)
    requires Path(Refs(decls), path) && path[|path| - 1] == name
    requires name in decls && ref in decls && GroupRef(ref) in decls[name].body
    ensures Awaiting(decls, path, ref)
  {
    hide Path;
    assert Edge(Refs(decls), name, ref);
  }

  /** A group met again while it is being expanded: a circular reference, and an empty placeholder. */
  lemma CircularKeeps(
    decls: Decls, groups: Groups, errors: seq<EffectError>, finished: seq<string>, path: seq<string>,
    visited: set<string>, name: string)
    requires Sound(decls, groups, errors, finished) && name in decls && name !in groups && name in visited
    requires Awaiting(decls, path, name) && Seen(visited, path, groups) && Accounted(groups, finished, path)
    ensures var (now, later) := (groups[name := []], errors + [CircularGroup(name)]);
      && Sound(decls, now, later, finished) && Seen(visited, path, now) && Accounted(now, finished, path)
      && Extends(groups, now, errors, later, path)
  {
    hide Cyclic, OnCycle, AllSettled, Misses;
    FoundCycle(decls, path, name);
    var later := errors + [CircularGroup(name)];
    assert later[|errors|].CircularGroup?;
  }

  /** A group about to be expanded joins the path. */
  lemma StartKeeps(
    decls: Decls, groups: Groups, finished: seq<string>, path: seq<string>, visited: set<string>, name: string)
    requires Awaiting(decls, path, name) && Seen(visited, path, groups) && Accounted(groups, finished, path)
    requires name !in visited
    ensures name !in path && Path(Refs(decls), path + [name])
    ensures Seen(visited + {name}, path + [name], groups) && Accounted(groups, finished, path + [name])
  {
    hide Refs, Edge;
  }

  /** A group expanded in full leaves the path and is finished. */
  lemma FinishKeeps(
    decls: Decls, was: Groups, groups: Groups, before: seq<EffectError>, errors: seq<EffectError>,
    finished: seq<string>, path: seq<string>, visited: set<string>, name: string, result: seq<TracedEffect>)
    requires Sound(decls, groups, errors, finished) && name in decls && name !in was && name !in path
    requires Seen(visited, path + [name], groups) && Accounted(groups, finished, path + [name])
    requires Extends(was, groups, before, errors, path + [name])
    requires RefsExpanded(decls[name].body, decls, groups)
    requires !Circular(errors) ==> result == Merged(decls[name].body, decls, groups)
    requires forall x :: Misses(decls, name, x) ==> UndefinedGroup(x, name) in errors
    ensures var (now, done) := (groups[name := result], finished + [name]);
      && Sound(decls, now, errors, done) && Seen(visited, path, now) && Accounted(now, done, path)
      && name in visited && Extends(was, now, before, errors, path)
  {
    hide Merged, Cyclic, OnCycle, AllSettled, Misses, RefsExpanded;
    assert forall v :: v in path + [name] <==> v in path || v == name;
    assert forall f :: f in finished + [name] <==> f in finished || f == name;
    if !Circular(errors) {
      FinishSettles(decls, groups, finished, name, result);
    }
  }

  method Collect(effects: seq<TracedEffect>, more: seq<TracedEffect>) returns (r: seq<TracedEffect>)
    ensures r == AddAll(effects, more)
  {
    r := effects;
    for k := 0 to |more|
      invariant r == AddAll(effects, more[..k])
    {
      AddAllStep(effects, more, k);
      r := Add(r, more[k]);
    }
    assert more[..|more|] == more;
  }

  method CollectVerb(effects: seq<TracedEffect>, verb: string, resources: seq<string>, span: nat)
    returns (r: seq<TracedEffect>)
    ensures r == AddAll(effects, Traced(verb, resources, span))
  {
    ghost var more := Traced(verb, resources, span);
    r := effects;
    for k := 0 to |resources|
      invariant r == AddAll(effects, more[..k])
    {
      AddAllStep(effects, more, k);
      r := Add(r, TracedEffect(Effect(verb, resources[k]), span));
    }
    assert more[..|more|] == more;
  }

  lemma TermMeans(term: GroupTerm, groups: Groups)
    ensures term.Verb? ==> Meaning(term, groups) == Traced(term.verb, term.resources, term.span)
    ensures term.GroupRef? && term.name in groups ==> Meaning(term, groups) == groups[term.name]
  {
  }

  class EffectChecker {
    var expandedGroups: Groups
    var errors: seq<EffectError>
    /** The groups expanded in full, in the order they were finished. */
    ghost var finished: seq<string>

    constructor ()
      ensures expandedGroups == map[] && errors == [] && finished == []
    {
      expandedGroups, errors, finished := map[], [], [];
    }

    /** Expands one group and what it refers to. Callers pass the name of a defined group. */
    method ExpandGroup(name: string, decls: Decls, visited: set<string>, ghost path: seq<string>)
      returns (seen: set<string>)
      requires name in decls && Sound(decls, expandedGroups, errors, finished)
      requires Awaiting(decls, path, name) && Seen(visited, path, expandedGroups)
      requires Accounted(expandedGroups, finished, path)
      modifies this
      ensures Sound(decls, expandedGroups, errors, finished) && name in expandedGroups
      ensures visited <= seen && Seen(seen, path, expandedGroups) && Accounted(expandedGroups, finished, path)
      ensures Extends(old(expandedGroups), expandedGroups, old(errors), errors, path)
      decreases decls.Keys - visited, 0
    {
      hide Merged, Cyclic, Sound, Seen, Accounted, Extends, Misses, RefsExpanded;
      seen := visited;
      NothingExtends(expandedGroups, errors, errors, path);
      if name in expandedGroups {
        return;
      }
      ghost var was, before := expandedGroups, errors;
      if name in seen {
        CircularKeeps(decls, was, before, finished, path, seen, name);
        errors := errors + [CircularGroup(name)];
        expandedGroups := expandedGroups[name := []];
        return;
      }
      seen := seen + {name};
      StartKeeps(decls, was, finished, path, visited, name);
      var result;
      seen, result := ExpandBody(name, decls, seen, path + [name]);
      FinishKeeps(decls, was, expandedGroups, before, errors, finished, path, seen, name, result);
      expandedGroups := expandedGroups[name := result];
      finished := finished + [name];
    }

    /** Adds up the terms of a group's body. */
    method ExpandBody(name: string, decls: Decls, visited: set<string>, ghost path: seq<string>)
      returns (seen: set<string>, result: seq<TracedEffect>)
      requires name in decls && Sound(decls, expandedGroups, errors, finished)
      requires Path(Refs(decls), path) && path[|path| - 1] == name
      requires Seen(visited, path, expandedGroups) && Accounted(expandedGroups, finished, path)
      modifies this
      ensures Sound(decls, expandedGroups, errors, finished)
      ensures visited <= seen && Seen(seen, path, expandedGroups) && Accounted(expandedGroups, finished, path)
      ensures Extends(old(expandedGroups), expandedGroups, old(errors), errors, path)
      ensures RefsExpanded(decls[name].body, decls, expandedGroups)
      ensures !Circular(errors) ==> result == Merged(decls[name].body, decls, expandedGroups)
      ensures forall x :: Misses(decls, name, x) ==> UndefinedGroup(x, name) in errors
      decreases decls.Keys - visited, 1
    {
      hide Merged, Cyclic, AllSettled, AddAll, Meaning, Path, Sound, Seen, Accounted, Extends, Refs, Awaiting;
      seen := visited;
      var body := decls[name].body;
      result := [];
      NothingMerged(decls, expandedGroups);
      NothingExtends(expandedGroups, errors, errors, path);
      for i := 0 to |body|
        invariant Sound(decls, expandedGroups, errors, finished)
        invariant visited <= seen && Seen(seen, path, expandedGroups) && Accounted(expandedGroups, finished, path)
        invariant Extends(old(expandedGroups), expandedGroups, old(errors), errors, path)
        invariant RefsExpanded(body[..i], decls, expandedGroups)
        invariant !Circular(errors) ==> result == Merged(body[..i], decls, expandedGroups)
        invariant forall x :: x !in decls && GroupRef(x) in body[..i] ==> UndefinedGroup(x, name) in errors
      {
        assert body[..i + 1] == body[..i] + [body[i]] && body[i] in body;
        ghost var was, before := expandedGroups, errors;
        match body[i] {
          case Verb(verb, resources, span) =>
            result := CollectVerb(result, verb, resources, span);
            NothingExtends(was, before, errors, path);
          case GroupRef(ref) =>
            if ref !in decls {
              ReportUndefined(name, ref, decls);
              NothingExtends(was, before, errors, path);
            } else {
              RefAwaits(decls, path, name, ref);
              seen := ExpandGroup(ref, decls, seen, path);
              MergedStays(body[..i], decls, was, expandedGroups, before, errors, path);
              result := Collect(result, expandedGroups[ref]);
            }
        }
        ExtendsTrans(old(expandedGroups), was, expandedGroups, old(errors), before, errors, path);
        TermMeans(body[i], expandedGroups);
        MergedStep(body, i, decls, expandedGroups);
      }
      assert body[..|body|] == body;
    }

    method ReportUndefined(name: string, ref: string, decls: Decls)
      requires Sound(decls, expandedGroups, errors, finished) && Misses(decls, name, ref)
      modifies `errors
      ensures Sound(decls, expandedGroups, errors, finished)
      ensures errors == old(errors) + [UndefinedGroup(ref, name)] && (Circular(errors) <==> Circular(old(errors)))
    {
      hide Merged, Cyclic, OnCycle, AllSettled, Misses;
      ghost var without := errors;
      errors := errors + [UndefinedGroup(ref, name)];
      assert errors[..|errors| - 1] == without;
      StillNotCircular(errors);
    }

    /** Expands all groups, in any order. */
    method ExpandEffectGroups(decls: Decls)
      requires expandedGroups == map[] && errors == [] && finished == []
      modifies this
      ensures Circular(errors) <==> Cyclic(decls)
      ensures forall x :: CircularGroup(x) in errors ==> OnCycle(decls, x)
      ensures !Cyclic(decls) ==> Solves(decls, expandedGroups)
      ensures forall x, y :: UndefinedGroup(x, y) in errors <==> Misses(decls, y, x)
    {
      hide Merged, Cyclic, OnCycle, AllSettled;
      NothingSettled(decls);
      var names := decls.Keys;
      while names != {}
        invariant names <= decls.Keys && Sound(decls, expandedGroups, errors, finished)
        invariant Accounted(expandedGroups, finished, [])
        invariant forall name :: name in decls && name !in names ==> name in expandedGroups
        decreases names
      {
        var name :| name in names;
        names := names - {name};
        if name !in expandedGroups {
          var seen := ExpandGroup(name, decls, {}, []);
        }
      }
      if !Circular(errors) {
        SettledIsAcyclic(decls, expandedGroups, finished);
        SettledSolves(decls, expandedGroups, finished);
      }
    }
  }
}
