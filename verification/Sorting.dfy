/** The stable sort of the standard library, as an insertion sort, and the order of strings. */
module Sorting {
  import opened Basics

  ghost predicate TotalPreorder<T(!new)>(leq: (T, T) -> bool) {
    && (forall x, y :: leq(x, y) || leq(y, x))
    && (forall x, y, z :: leq(x, y) && leq(y, z) ==> leq(x, z))
  }

  ghost predicate Sorted<T>(leq: (T, T) -> bool, s: seq<T>) {
    forall i, j :: 0 <= i < j < |s| ==> leq(s[i], s[j])
  }

  /** `x` goes behind every element it does not precede. */
  function Insert<T>(leq: (T, T) -> bool, x: T, s: seq<T>): (r: seq<T>)
    ensures |r| == |s| + 1
  {
    if s == [] || leq(s[|s| - 1], x) then s + [x]
    else Insert(leq, x, s[..|s| - 1]) + [s[|s| - 1]]
  }

  function Sort<T>(leq: (T, T) -> bool, s: seq<T>): (r: seq<T>)
    ensures |r| == |s|
  {
    if s == [] then [] else Insert(leq, s[|s| - 1], Sort(leq, s[..|s| - 1]))
  }

  lemma {:induction false} InsertIsPermutation<T>(leq: (T, T) -> bool, x: T, s: seq<T>)
    ensures multiset(Insert(leq, x, s)) == multiset(s) + multiset{x}
  {
    if s != [] && !leq(s[|s| - 1], x) {
      InsertIsPermutation(leq, x, s[..|s| - 1]);
      assert s == s[..|s| - 1] + [s[|s| - 1]];
    }
  }

  lemma {:induction false} SortIsPermutation<T>(leq: (T, T) -> bool, s: seq<T>)
    ensures multiset(Sort(leq, s)) == multiset(s)
    ensures forall x :: x in Sort(leq, s) <==> x in s
  {
    if s != [] {
      SortIsPermutation(leq, s[..|s| - 1]);
      InsertIsPermutation(leq, s[|s| - 1], Sort(leq, s[..|s| - 1]));
      assert s == s[..|s| - 1] + [s[|s| - 1]];
    }
    forall x ensures x in Sort(leq, s) <==> x in s {
      assert x in Sort(leq, s) <==> x in multiset(Sort(leq, s));
      assert x in s <==> x in multiset(s);
    }
  }

  lemma {:induction false} InsertSorts<T(!new)>(leq: (T, T) -> bool, x: T, s: seq<T>)
    requires TotalPreorder(leq) && Sorted(leq, s)
    ensures Sorted(leq, Insert(leq, x, s))
  {
    if s != [] && !leq(s[|s| - 1], x) {
      var front := s[..|s| - 1];
      InsertSorts(leq, x, front);
      InsertIsPermutation(leq, x, front);
      var t := Insert(leq, x, front);
      forall i | 0 <= i < |t| ensures leq(t[i], s[|s| - 1]) {
        assert t[i] in multiset(t);
        assert t[i] in front || t[i] == x;
      }
    }
  }

  lemma {:induction false} SortSorts<T(!new)>(leq: (T, T) -> bool, s: seq<T>)
    requires TotalPreorder(leq)
    ensures Sorted(leq, Sort(leq, s))
  {
    if s != [] {
      SortSorts(leq, s[..|s| - 1]);
      InsertSorts(leq, s[|s| - 1], Sort(leq, s[..|s| - 1]));
    }
  }

  lemma {:induction false} DistinctCounts<T>(s: seq<T>)
    ensures Distinct(s) <==> forall x :: multiset(s)[x] <= 1
  {
    if s != [] {
      var front, last := s[..|s| - 1], s[|s| - 1];
      assert s == front + [last];
      DistinctCounts(front);
      if Distinct(s) {
        assert last !in front;
        assert Distinct(front);
      } else if Distinct(front) {
        var i, j :| 0 <= i < j < |s| && s[i] == s[j];
        assert front[i] == last;
        assert multiset(s)[last] >= 2;
      } else {
        var x :| multiset(front)[x] > 1;
        assert multiset(s)[x] > 1;
      }
    }
  }

  lemma SortKeepsDistinct<T>(leq: (T, T) -> bool, s: seq<T>)
    requires Distinct(s)
    ensures Distinct(Sort(leq, s))
  {
    SortIsPermutation(leq, s);
    DistinctCounts(s);
    DistinctCounts(Sort(leq, s));
  }

  /** Lexicographic order by code point, which is also the byte order of UTF-8. */
  predicate StringLeq(a: string, b: string) {
    if a == "" then true
    else if b == "" then false
    else a[0] < b[0] || (a[0] == b[0] && StringLeq(a[1..], b[1..]))
  }

  /** The first string is a prefix of the other, or smaller where they first differ. */
  ghost predicate Lexicographic(a: string, b: string) {
    a <= b || exists k: nat :: FallsBehind(a, b, k)
  }

  /** The strings first differ at `k`, where the first one is smaller. */
  ghost predicate FallsBehind(a: string, b: string, k: nat) {
    k < |a| && k < |b| && a[..k] == b[..k] && a[k] < b[k]
  }

  lemma {:induction false} StringLeqIsLexicographic(a: string, b: string)
    ensures StringLeq(a, b) <==> Lexicographic(a, b)
  {
    hide Lexicographic;
    if a == "" || b == "" {
      EmptyIsLeast(a, b);
    } else if a[0] == b[0] {
      StringLeqIsLexicographic(a[1..], b[1..]);
      SameStart(a, b);
    } else {
      DifferentStart(a, b);
    }
  }

  lemma EmptyIsLeast(a: string, b: string)
    requires a == "" || b == ""
    ensures Lexicographic(a, b) <==> a == ""
  {
  }

  lemma SameStart(a: string, b: string)
    requires a != "" && b != "" && a[0] == b[0]
    ensures Lexicographic(a, b) <==> Lexicographic(a[1..], b[1..])
  {
    hide FallsBehind;
    assert a == [a[0]] + a[1..] && b == [b[0]] + b[1..];
    FirstDiffers(a, b, 0);
    forall k: nat ensures FallsBehind(a, b, k + 1) <==> FallsBehind(a[1..], b[1..], k) {
      FirstDiffers(a, b, k + 1);
    }
    if k: nat :| FallsBehind(a, b, k) {
      assert FallsBehind(a[1..], b[1..], k - 1);
    }
  }

  lemma FirstDiffers(a: string, b: string, k: nat)
    requires a != "" && b != "" && a[0] == b[0]
    ensures FallsBehind(a, b, k) <==> k > 0 && FallsBehind(a[1..], b[1..], k - 1)
  {
    if k > 0 && k < |a| && k < |b| {
      assert a[..k] == [a[0]] + a[1..][..k - 1] && b[..k] == [b[0]] + b[1..][..k - 1];
      assert a[..k][1..] == a[1..][..k - 1] && b[..k][1..] == b[1..][..k - 1];
    }
  }

  lemma DifferentStart(a: string, b: string)
    requires a != "" && b != "" && a[0] != b[0]
    ensures Lexicographic(a, b) <==> a[0] < b[0]
  {
    assert a[..0] == b[..0];
    assert a[0] < b[0] ==> FallsBehind(a, b, 0);
    forall k | 0 < k < |a| && k < |b| ensures a[..k] != b[..k] {
      assert a[..k][0] == a[0] && b[..k][0] == b[0];
    }
  }

  lemma {:induction false} StringTotal(a: string, b: string)
    ensures StringLeq(a, b) || StringLeq(b, a)
    ensures StringLeq(a, b) && StringLeq(b, a) ==> a == b
  {
    if a != "" && b != "" && a[0] == b[0] {
      StringTotal(a[1..], b[1..]);
      assert a == [a[0]] + a[1..] && b == [b[0]] + b[1..];
    }
  }

  lemma {:induction false} StringTransitive(a: string, b: string, c: string)
    requires StringLeq(a, b) && StringLeq(b, c)
    ensures StringLeq(a, c)
  {
    if a != "" && b != "" && c != "" && a[0] == b[0] == c[0] {
      StringTransitive(a[1..], b[1..], c[1..]);
    }
  }

  lemma StringPreorder()
    ensures TotalPreorder(StringLeq)
  {
    forall x, y ensures StringLeq(x, y) || StringLeq(y, x) {
      StringTotal(x, y);
    }
    forall x, y, z | StringLeq(x, y) && StringLeq(y, z) ensures StringLeq(x, z) {
      StringTransitive(x, y, z);
    }
  }

  /** Sorted strings stand in lexicographic order. */
  lemma SortsStrings(s: seq<string>)
    ensures forall i, j :: 0 <= i < j < |s| ==> Lexicographic(Sort(StringLeq, s)[i], Sort(StringLeq, s)[j])
  {
    hide Lexicographic, StringLeq, Sort;
    StringPreorder();
    SortSorts(StringLeq, s);
    var r := Sort(StringLeq, s);
    forall i, j | 0 <= i < j < |s| ensures Lexicographic(r[i], r[j]) {
      StringLeqIsLexicographic(r[i], r[j]);
    }
  }
}
