/** Edit distance, and suggestions for misspelt names. */
module EditDistance {
  import opened Basics
  import Utf8

  /** The cheapest way to end: a deletion, an insertion, or the last characters matched. */
  function Cheapest(deleted: nat, inserted: nat, matched: nat, same: bool): nat {
    Min(Min(deleted + 1, inserted + 1), matched + if same then 0 else 1)
  }

  /** The recurrence the table is filled by. */
  function Lev(a: string, b: string): (d: nat)
    decreases |a| + |b|
  {
    if a == "" then |b|
    else if b == "" then |a|
    else
      var x, y := a[..|a| - 1], b[..|b| - 1];
      Cheapest(Lev(x, b), Lev(a, y), Lev(x, y), a[|a| - 1] == b[|b| - 1])
  }

  lemma LevEdges(a: string, b: string)
    ensures Lev(a, b[..0]) == |a| && Lev(b[..0], a) == |a|
    ensures a == "" || b == "" ==> Lev(a, b) == |a| + |b|
  {
  }

  /** The recurrence at the last characters. */
  lemma LevLast(a: string, b: string)
    requires a != "" && b != ""
    ensures var (x, y) := (a[..|a| - 1], b[..|b| - 1]);
      Lev(a, b) == Cheapest(Lev(x, b), Lev(a, y), Lev(x, y), a[|a| - 1] == b[|b| - 1])
  {
    hide Cheapest;
  }

  lemma LevStep(a: string, i: nat, b: string, j: nat)
    requires 1 <= i <= |a| && 1 <= j <= |b|
    ensures Lev(a[..i], b[..j]) == Cheapest(
      Lev(a[..i - 1], b[..j]), Lev(a[..i], b[..j - 1]), Lev(a[..i - 1], b[..j - 1]), a[i - 1] == b[j - 1])
  {
    hide Lev, Cheapest;
    assert a[..i][..i - 1] == a[..i - 1] && b[..j][..j - 1] == b[..j - 1];
    LevLast(a[..i], b[..j]);
  }

  method LevenshteinDistance(a: string, b: string) returns (d: nat)
    ensures d == Lev(a, b)
    ensures Rewrites(a, b, d) && forall n :: Rewrites(a, b, n) ==> d <= n
  {
    hide Lev, Rewrites, Min;
    var m, n := |a|, |b|;
    var matrix := new nat[m + 1, n + 1]((_, _) => 0);
    for i := 0 to m + 1
      invariant forall k :: 0 <= k < i ==> matrix[k, 0] == k
    {
      matrix[i, 0] := i;
    }
    for j := 0 to n + 1
      invariant forall k :: 0 <= k <= m ==> matrix[k, 0] == k
      invariant forall k :: 0 <= k < j ==> matrix[0, k] == k
    {
      matrix[0, j] := j;
    }
    forall l | 0 <= l <= n ensures Lev(a[..0], b[..l]) == l {
      LevEdges(b[..l], a);
    }
    for i := 1 to m + 1
      invariant forall k :: 0 <= k <= m ==> matrix[k, 0] == k
      invariant forall k, l :: 0 <= k < i && 0 <= l <= n ==> matrix[k, l] == Lev(a[..k], b[..l])
    {
      LevEdges(a[..i], b);
      for j := 1 to n + 1
        invariant forall k :: 0 <= k <= m ==> matrix[k, 0] == k
        invariant forall k, l :: 0 <= k < i && 0 <= l <= n ==> matrix[k, l] == Lev(a[..k], b[..l])
        invariant forall l :: 0 <= l < j ==> matrix[i, l] == Lev(a[..i], b[..l])
      {
        LevStep(a, i, b, j);
        var cost := if a[i - 1] == b[j - 1] then 0 else 1;
        matrix[i, j] := Min(Min(matrix[i - 1, j] + 1, matrix[i, j - 1] + 1), matrix[i - 1, j - 1] + cost);
      }
    }
    assert a[..m] == a && b[..n] == b;
    d := matrix[m, n];
    LevIsLeast(a, b);
  }

  // ---------- edit scripts ----------

  datatype Edit = Insert(at: nat, c: char) | Delete(at: nat) | Substitute(at: nat, c: char)

  predicate Fits(e: Edit, s: string) {
    match e
    case Insert(i, _) => i <= |s|
    case Delete(i) => i < |s|
    case Substitute(i, _) => i < |s|
  }

  function Apply(e: Edit, s: string): string
    requires Fits(e, s)
  {
    match e
    case Insert(i, c) => s[..i] + [c] + s[i..]
    case Delete(i) => s[..i] + s[i + 1..]
    case Substitute(i, c) => s[..i] + [c] + s[i + 1..]
  }

  /** Some script of `n` single-character edits turns `a` into `b`. */
  ghost predicate Rewrites(a: string, b: string, n: nat)
    decreases n
  {
    if n == 0 then a == b
    else exists e :: Fits(e, a) && Rewrites(Apply(e, a), b, n - 1)
  }

  lemma {:induction false} RewritesTrans(a: string, b: string, n: nat, c: string, m: nat)
    requires Rewrites(a, b, n) && Rewrites(b, c, m)
    ensures Rewrites(a, c, n + m)
    decreases n
  {
    hide Apply, Fits;
    if n > 0 {
      var e :| Fits(e, a) && Rewrites(Apply(e, a), b, n - 1);
      RewritesTrans(Apply(e, a), b, n - 1, c, m);
    }
  }

  lemma OneEdit(e: Edit, a: string)
    requires Fits(e, a)
    ensures Rewrites(a, Apply(e, a), 1)
  {
    assert Rewrites(Apply(e, a), Apply(e, a), 0);
  }

  /** The edit that takes `e` back. */
  function Undo(e: Edit, s: string): Edit
    requires Fits(e, s)
  {
    match e
    case Insert(i, _) => Delete(i)
    case Delete(i) => Insert(i, s[i])
    case Substitute(i, _) => Substitute(i, s[i])
  }

  lemma Outside(x: string, y: string, z: string)
    ensures (x + y + z)[..|x|] == x && (x + y + z)[|x| + |y|..] == z
  {
  }

  lemma UndoRestores(e: Edit, s: string)
    requires Fits(e, s)
    ensures Fits(Undo(e, s), Apply(e, s)) && Apply(Undo(e, s), Apply(e, s)) == s
  {
    match e
    case Insert(i, c) =>
      Outside(s[..i], [c], s[i..]);
      assert s == s[..i] + s[i..];
    case Delete(i) =>
      Outside(s[..i], [], s[i + 1..]);
      assert s[..i] + [] + s[i + 1..] == s[..i] + s[i + 1..];
      assert s == s[..i] + [s[i]] + s[i + 1..];
    case Substitute(i, c) =>
      Outside(s[..i], [c], s[i + 1..]);
      assert s == s[..i] + [s[i]] + s[i + 1..];
  }

  lemma {:induction false} RewritesBack(a: string, b: string, n: nat)
    requires Rewrites(a, b, n)
    ensures Rewrites(b, a, n)
    decreases n
  {
    hide Apply, Fits, Undo;
    if n > 0 {
      var e :| Fits(e, a) && Rewrites(Apply(e, a), b, n - 1);
      RewritesBack(Apply(e, a), b, n - 1);
      UndoRestores(e, a);
      OneEdit(Undo(e, a), Apply(e, a));
      RewritesTrans(b, Apply(e, a), n - 1, a, 1);
    }
  }

  lemma ApplyInFront(e: Edit, a: string, c: char)
    requires Fits(e, a)
    ensures Fits(e, a + [c]) && Apply(e, a + [c]) == Apply(e, a) + [c]
  {
  }

  /** A script works just as well in front of a further character. */
  lemma {:induction false} RewritesInFront(a: string, b: string, n: nat, c: char)
    requires Rewrites(a, b, n)
    ensures Rewrites(a + [c], b + [c], n)
    decreases n
  {
    hide Apply, Fits;
    if n > 0 {
      var e :| Fits(e, a) && Rewrites(Apply(e, a), b, n - 1);
      RewritesInFront(Apply(e, a), b, n - 1, c);
      ApplyInFront(e, a, c);
    }
  }

  // ---------- the distance is the length of a shortest script ----------

  lemma DropLast(a: string, b: string, n: nat)
    requires a != "" && Rewrites(a[..|a| - 1], b, n)
    ensures Rewrites(a, b, n + 1)
  {
    hide Rewrites;
    var x := a[..|a| - 1];
    assert Apply(Delete(|x|), a) == x;
    OneEdit(Delete(|x|), a);
    RewritesTrans(a, x, 1, b, n);
  }

  lemma AddLast(a: string, b: string, n: nat)
    requires b != "" && Rewrites(a, b[..|b| - 1], n)
    ensures Rewrites(a, b, n + 1)
  {
    hide Rewrites;
    var y := b[..|b| - 1];
    assert Apply(Insert(|y|, b[|y|]), y) == b;
    OneEdit(Insert(|y|, b[|y|]), y);
    RewritesTrans(a, y, n, b, 1);
  }

  lemma MatchLast(a: string, b: string, n: nat)
    requires a != "" && b != "" && Rewrites(a[..|a| - 1], b[..|b| - 1], n)
    ensures Rewrites(a, b, n + if a[|a| - 1] == b[|b| - 1] then 0 else 1)
  {
    hide Rewrites;
    var x, y := a[..|a| - 1], b[..|b| - 1];
    RewritesInFront(x, y, n, a[|x|]);
    assert x + [a[|x|]] == a;
    if a[|x|] == b[|y|] {
      assert y + [a[|x|]] == b;
    } else {
      var z := y + [a[|x|]];
      assert Apply(Substitute(|y|, b[|y|]), z) == b;
      OneEdit(Substitute(|y|, b[|y|]), z);
      RewritesTrans(a, z, n, b, 1);
    }
  }

  lemma {:induction false} ShortScript(a: string, b: string)
    ensures Rewrites(a, b, Lev(a, b))
    decreases |a| + |b|
  {
    hide Rewrites, Lev;
    LevEdges(a, b);
    if a == "" && b == "" {
      NoEdit(a);
    } else if a == "" {
      LevEdges(a, b[..|b| - 1]);
      ShortScript(a, b[..|b| - 1]);
      AddLast(a, b, |b| - 1);
    } else if b == "" {
      LevEdges(a[..|a| - 1], b);
      ShortScript(a[..|a| - 1], b);
      DropLast(a, b, |a| - 1);
    } else {
      var x, y := a[..|a| - 1], b[..|b| - 1];
      ShortScript(x, b);
      ShortScript(a, y);
      ShortScript(x, y);
      DropLast(a, b, Lev(x, b));
      AddLast(a, b, Lev(a, y));
      MatchLast(a, b, Lev(x, y));
      LevLast(a, b);
    }
  }

  lemma NoEdit(a: string)
    ensures Rewrites(a, a, 0)
  {
  }

  predicate Near(x: nat, y: nat) {
    x <= y + 1 && y <= x + 1
  }

  /** One more character in a string moves its distance from any other by at most one. */
  lemma {:induction false} InsertionIsNear(p: string, c: char, q: string, b: string)
    ensures Near(Lev(p + q, b), Lev(p + [c] + q, b))
    decreases |q| + |b|, |b|
  {
    hide Lev;
    var short, long := p + q, p + [c] + q;
    LevEdges(short, b);
    LevEdges(long, b);
    if b == "" {
      assert |long| == |short| + 1;
    } else if q == "" {
      var y := b[..|b| - 1];
      LevLast(long, b);
      assert short == p && long == p + [c] && long[..|long| - 1] == p;
      InsertionIsNear(p, c, "", y);
      assert p + "" == p && p + [c] + "" == p + [c];
      LevShrinks(p, b);
    } else {
      var y, r := b[..|b| - 1], q[..|q| - 1];
      LevLast(short, b);
      LevLast(long, b);
      assert short[..|short| - 1] == p + r && long[..|long| - 1] == p + [c] + r;
      InsertionIsNear(p, c, r, b);
      InsertionIsNear(p, c, q, y);
      InsertionIsNear(p, c, r, y);
    }
  }

  lemma LevShrinks(a: string, b: string)
    requires b != ""
    ensures Lev(a, b) <= Lev(a, b[..|b| - 1]) + 1
  {
  }

  lemma CheapestIsNear(d: nat, i: nat, m: nat, same: bool, d': nat, i': nat, m': nat, same': bool)
    requires Near(d, d') && Near(i, i') && Near(m, m') && (m == m' || same == same')
    ensures Near(Cheapest(d, i, m, same), Cheapest(d', i', m', same'))
  {
  }

  lemma {:induction false} SubstitutionIsNear(p: string, c: char, d: char, q: string, b: string)
    ensures Near(Lev(p + [c] + q, b), Lev(p + [d] + q, b))
    decreases |q| + |b|, |b|
  {
    hide Lev, Cheapest;
    var one, two := p + [c] + q, p + [d] + q;
    LevEdges(one, b);
    LevEdges(two, b);
    if b == "" {
      assert |one| == |two|;
    } else {
      var x, z, y := one[..|one| - 1], two[..|two| - 1], b[..|b| - 1];
      LevLast(one, b);
      LevLast(two, b);
      SubstitutionIsNear(p, c, d, q, y);
      if q == "" {
        assert x == p && z == p;
      } else {
        var r := q[..|q| - 1];
        assert x == p + [c] + r && z == p + [d] + r;
        assert one[|one| - 1] == q[|q| - 1] && two[|two| - 1] == q[|q| - 1];
        SubstitutionIsNear(p, c, d, r, b);
        SubstitutionIsNear(p, c, d, r, y);
      }
      CheapestIsNear(
        Lev(x, b), Lev(one, y), Lev(x, y), one[|one| - 1] == b[|b| - 1],
        Lev(z, b), Lev(two, y), Lev(z, y), two[|two| - 1] == b[|b| - 1]);
    }
  }

  lemma EditIsNear(e: Edit, a: string, b: string)
    requires Fits(e, a)
    ensures Near(Lev(a, b), Lev(Apply(e, a), b))
  {
    match e
    case Insert(i, c) =>
      assert a[..i] + a[i..] == a;
      InsertionIsNear(a[..i], c, a[i..], b);
    case Delete(i) =>
      assert a[..i] + [a[i]] + a[i + 1..] == a;
      InsertionIsNear(a[..i], a[i], a[i + 1..], b);
    case Substitute(i, c) =>
      assert a[..i] + [a[i]] + a[i + 1..] == a;
      SubstitutionIsNear(a[..i], a[i], c, a[i + 1..], b);
  }

  lemma {:induction false} LevSelf(a: string)
    ensures Lev(a, a) == 0
  {
    if a != "" {
      LevSelf(a[..|a| - 1]);
    }
  }

  lemma {:induction false} NoShorterScript(a: string, b: string, n: nat)
    requires Rewrites(a, b, n)
    ensures Lev(a, b) <= n
    decreases n
  {
    if n == 0 {
      LevSelf(a);
    } else {
      var e :| Fits(e, a) && Rewrites(Apply(e, a), b, n - 1);
      NoShorterScript(Apply(e, a), b, n - 1);
      EditIsNear(e, a, b);
    }
  }

  lemma LevIsLeast(a: string, b: string)
    ensures Rewrites(a, b, Lev(a, b)) && forall n :: Rewrites(a, b, n) ==> Lev(a, b) <= n
  {
    ShortScript(a, b);
    forall n | Rewrites(a, b, n) ensures Lev(a, b) <= n {
      NoShorterScript(a, b, n);
    }
  }

  /** A metric: zero only on equal strings, symmetric, and no detour is shorter. */
  lemma {:induction false} LevIsAMetric(a: string, b: string, c: string)
    ensures Lev(a, b) == 0 <==> a == b
    ensures Lev(a, b) == Lev(b, a)
    ensures Lev(a, c) <= Lev(a, b) + Lev(b, c)
  {
    LevIsLeast(a, b);
    LevIsLeast(b, a);
    LevIsLeast(b, c);
    LevSelf(a);
    RewritesBack(a, b, Lev(a, b));
    RewritesBack(b, a, Lev(b, a));
    RewritesTrans(a, b, Lev(a, b), c, Lev(b, c));
    LevIsLeast(a, c);
  }

  // ---------- suggestions ----------

  /** `k` is the first of the closest names other than `name` itself. */
  ghost predicate IsClosest(name: string, visible: seq<string>, k: nat) {
    && k < |visible| && visible[k] != name
    && forall j :: 0 <= j < |visible| && visible[j] != name ==>
         Lev(name, visible[k]) <= Lev(name, visible[j]) && (j < k ==> Lev(name, visible[k]) < Lev(name, visible[j]))
  }

  method SuggestSimilar(name: string, visible: seq<string>) returns (r: Option<string>)
    ensures r.Some? <==>
      |Utf8.Encode(name)| >= 3 && exists k :: 0 <= k < |visible| && visible[k] != name && Lev(name, visible[k]) <= 2
    ensures r.Some? ==> exists k: nat :: IsClosest(name, visible, k) && visible[k] == r.value && Lev(name, r.value) <= 2
  {
    hide Lev, Rewrites, Utf8.Encode;
    if |Utf8.Encode(name)| < 3 {
      return None;
    }
    var best: Option<(string, nat)> := None;
    ghost var at: nat := 0;
    for i := 0 to |visible|
      invariant best.None? ==> forall j :: 0 <= j < i && visible[j] != name ==> Lev(name, visible[j]) > 2
      invariant best.Some? ==>
        && at < i && visible[at] == best.value.0 && visible[at] != name && best.value.1 == Lev(name, visible[at]) <= 2
        && forall j :: 0 <= j < i && visible[j] != name ==>
             Lev(name, visible[at]) <= Lev(name, visible[j]) &&
               (j < at ==> Lev(name, visible[at]) < Lev(name, visible[j]))
    {
      var candidate := visible[i];
      if candidate == name {
        continue;
      }
      var dist := LevenshteinDistance(name, candidate);
      if dist <= 2 {
        if best.None? || dist < best.value.1 {
          best := Some((candidate, dist));
          at := i;
        }
      }
    }
    if best.None? {
      return None;
    }
    assert IsClosest(name, visible, at);
    r := Some(best.value.0);
  }
}
