/** Sorting with a caller-supplied comparison, as `Array.prototype.sort` does it. */
module Ordering {
  import opened Prelude

  ghost predicate TotalPreorder<T(!new)>(leq: (T, T) -> bool) {
    && (forall x, y :: leq(x, y) || leq(y, x))
    && (forall x, y, z :: leq(x, y) && leq(y, z) ==> leq(x, z))
  }

  ghost predicate TotalOrder<T(!new)>(leq: (T, T) -> bool) {
    && TotalPreorder(leq)
    && (forall x, y :: leq(x, y) && leq(y, x) ==> x == y)
  }

  ghost predicate SortedBy<T(!new)>(leq: (T, T) -> bool, s: seq<T>) {
    forall i, j :: 0 <= i < j < |s| ==> leq(s[i], s[j])
  }

  function Insert<T>(leq: (T, T) -> bool, x: T, s: seq<T>): seq<T> {
    if s == [] then [x]
    else if leq(x, s[0]) then [x] + s
    else [s[0]] + Insert(leq, x, s[1..])
  }

  /** A stable sort: equal elements keep their order. */
  function Sort<T>(leq: (T, T) -> bool, s: seq<T>): seq<T> {
    if s == [] then [] else Insert(leq, s[0], Sort(leq, s[1..]))
  }

  lemma {:induction false} InsertPermutes<T(!new)>(leq: (T, T) -> bool, x: T, s: seq<T>)
    ensures multiset(Insert(leq, x, s)) == multiset(s) + multiset{x}
    ensures |Insert(leq, x, s)| == |s| + 1
  {
    if s != [] {
      assert s == [s[0]] + s[1..];
      if !leq(x, s[0]) {
        InsertPermutes(leq, x, s[1..]);
      }
    }
  }

  lemma {:induction false} InsertSorts<T(!new)>(leq: (T, T) -> bool, x: T, s: seq<T>)
    requires TotalPreorder(leq) && SortedBy(leq, s)
    ensures SortedBy(leq, Insert(leq, x, s))
  {
    if s != [] && !leq(x, s[0]) {
      InsertSorts(leq, x, s[1..]);
      InsertPermutes(leq, x, s[1..]);
      var t := Insert(leq, x, s[1..]);
      forall k | 0 <= k < |t| ensures leq(s[0], t[k]) {
        assert t[k] in multiset(t);
        assert t[k] == x || t[k] in s[1..];
      }
    }
  }

  lemma SameMembers<T>(a: seq<T>, b: seq<T>)
    requires multiset(a) == multiset(b)
    ensures |a| == |b| && forall x :: x in a <==> x in b
  {
    assert |a| == |multiset(a)| == |multiset(b)| == |b|;
    assert forall x :: x in a <==> x in multiset(a);
    assert forall x :: x in b <==> x in multiset(b);
  }

  lemma {:induction false} SortPermutes<T(!new)>(leq: (T, T) -> bool, s: seq<T>)
    ensures multiset(Sort(leq, s)) == multiset(s)
  {
    if s != [] {
      SortPermutes(leq, s[1..]);
      InsertPermutes(leq, s[0], Sort(leq, s[1..]));
      TailMultiset(s);
    }
  }

  lemma {:induction false} SortAscends<T(!new)>(leq: (T, T) -> bool, s: seq<T>)
    requires TotalPreorder(leq)
    ensures SortedBy(leq, Sort(leq, s))
  {
    if s != [] {
      SortAscends(leq, s[1..]);
      InsertSorts(leq, s[0], Sort(leq, s[1..]));
    }
  }

  /** `Sort` returns the elements it was given, in order. */
  lemma SortSorts<T(!new)>(leq: (T, T) -> bool, s: seq<T>)
    requires TotalPreorder(leq)
    ensures SortedBy(leq, Sort(leq, s))
    ensures multiset(Sort(leq, s)) == multiset(s) && |Sort(leq, s)| == |s|
    ensures forall x :: x in Sort(leq, s) <==> x in s
  {
    hide TotalPreorder, SortedBy, Sort;
    SortAscends(leq, s);
    SortPermutes(leq, s);
    SameMembers(Sort(leq, s), s);
  }

  lemma FirstIsLeast<T(!new)>(leq: (T, T) -> bool, s: seq<T>, x: T)
    requires TotalPreorder(leq) && SortedBy(leq, s) && x in s
    ensures leq(s[0], x)
  {
    var j :| 0 <= j < |s| && s[j] == x;
    assert leq(x, x);
  }

  lemma TailMultiset<T>(s: seq<T>)
    requires s != []
    ensures multiset(s) == multiset{s[0]} + multiset(s[1..])
  {
    assert s == [s[0]] + s[1..];
  }

  lemma SameHead<T(!new)>(leq: (T, T) -> bool, a: seq<T>, b: seq<T>)
    requires TotalPreorder(leq)
    requires SortedBy(leq, a) && SortedBy(leq, b) && a != []
    requires multiset(a) == multiset(b)
    requires NoTies(leq, a)
    ensures b != [] && a[0] == b[0]
  {
    hide TotalPreorder, SortedBy;
    assert |a| == |multiset(a)| == |multiset(b)| == |b|;
    assert a[0] in multiset(b) && b[0] in multiset(a);
    FirstIsLeast(leq, b, a[0]);
    FirstIsLeast(leq, a, b[0]);
  }

  lemma TailIsSorted<T(!new)>(leq: (T, T) -> bool, s: seq<T>)
    requires SortedBy(leq, s) && s != []
    ensures SortedBy(leq, s[1..])
  {
  }

  lemma SameTails<T>(a: seq<T>, b: seq<T>)
    requires a != [] && b != [] && a[0] == b[0] && multiset(a) == multiset(b)
    ensures multiset(a[1..]) == multiset(b[1..])
    ensures a[1..] == b[1..] ==> a == b
  {
    TailMultiset(a);
    TailMultiset(b);
    assert multiset(a[1..]) == multiset(a) - multiset{a[0]};
    assert a == [a[0]] + a[1..] && b == [b[0]] + b[1..];
  }

  /** Distinct elements of s are never tied. */
  ghost predicate NoTies<T(!new)>(leq: (T, T) -> bool, s: seq<T>) {
    forall x, y :: x in s && y in s && leq(x, y) && leq(y, x) ==> x == y
  }

  /** Two sorted arrangements of the same elements agree when ties are equalities. */
  lemma {:induction false} SortedIsUnique<T(!new)>(leq: (T, T) -> bool, a: seq<T>, b: seq<T>)
    requires TotalPreorder(leq)
    requires SortedBy(leq, a) && SortedBy(leq, b)
    requires multiset(a) == multiset(b)
    requires NoTies(leq, a)
    ensures a == b
  {
    if a == [] {
      assert |a| == |multiset(a)| == |multiset(b)| == |b|;
    } else {
      SameHead(leq, a, b);
      SameTails(a, b);
      TailIsSorted(leq, a);
      TailIsSorted(leq, b);
      assert NoTies(leq, a[1..]);
      hide TotalPreorder, SortedBy, NoTies;
      SortedIsUnique(leq, a[1..], b[1..]);
    }
  }

  /** Sorting depends only on which elements there are and how often. */
  lemma SortOfPermutation<T(!new)>(leq: (T, T) -> bool, a: seq<T>, b: seq<T>)
    requires TotalPreorder(leq)
    requires multiset(a) == multiset(b)
    requires NoTies(leq, a)
    ensures Sort(leq, a) == Sort(leq, b)
  {
    SortSorts(leq, a);
    SortSorts(leq, b);
    SortedIsUnique(leq, Sort(leq, a), Sort(leq, b));
  }

  lemma SortKeepsNoDuplicates<T(!new)>(leq: (T, T) -> bool, s: seq<T>)
    requires TotalPreorder(leq) && NoDuplicates(s)
    ensures NoDuplicates(Sort(leq, s))
  {
    SortSorts(leq, s);
    NoDuplicatesAsMultiset(s);
    NoDuplicatesAsMultiset(Sort(leq, s));
  }

  lemma {:induction false} NoDuplicatesAsMultiset<T>(s: seq<T>)
    ensures NoDuplicates(s) <==> forall x :: multiset(s)[x] <= 1
  {
    if s != [] {
      assert s == [s[0]] + s[1..];
      NoDuplicatesAsMultiset(s[1..]);
      assert forall x :: multiset(s)[x] == multiset(s[1..])[x] + if x == s[0] then 1 else 0;
      if NoDuplicates(s) {
        assert s[0] !in s[1..];
        assert multiset(s[1..])[s[0]] == 0;
      } else if NoDuplicates(s[1..]) {
        var i, j :| 0 <= i < j < |s| && s[i] == s[j];
        assert forall m :: 0 < m < |s| ==> s[m] == s[1..][m - 1];
        assert i == 0;
        assert s[1..][j - 1] == s[0];
        assert s[0] in s[1..];
      } else {
        var x :| multiset(s[1..])[x] > 1;
        assert multiset(s)[x] > 1;
      }
    }
  }

  /** Duplicate-free sequences over the same elements are permutations. */
  lemma SameElementsSameMultiset<T>(a: seq<T>, b: seq<T>)
    requires NoDuplicates(a) && NoDuplicates(b)
    requires forall x :: x in a <==> x in b
    ensures multiset(a) == multiset(b)
  {
    NoDuplicatesAsMultiset(a);
    NoDuplicatesAsMultiset(b);
    forall x ensures multiset(a)[x] == multiset(b)[x] {
      assert x in multiset(a) <==> x in a;
      assert x in multiset(b) <==> x in b;
    }
  }

  /** Code-unit order on strings, the default of `Array.prototype.sort`. */
  predicate LexLeq(a: string, b: string) {
    a == [] || (b != [] && (a[0] < b[0] || (a[0] == b[0] && LexLeq(a[1..], b[1..]))))
  }

  /** The texts agree up to a place where the first ends or has the smaller character. */
  ghost predicate InCodeOrder(a: string, b: string) {
    exists k :: 0 <= k <= |a| && k <= |b| && a[..k] == b[..k] && (k == |a| || (k < |b| && a[k] < b[k]))
  }

  lemma FirstCharacters(a: string, b: string)
    requires a != [] && InCodeOrder(a, b)
    ensures b != [] && a[0] <= b[0]
  {
    var k :| 0 <= k <= |a| && k <= |b| && a[..k] == b[..k] && (k == |a| || (k < |b| && a[k] < b[k]));
    if k > 0 {
      assert a[..k][0] == a[0] && b[..k][0] == b[0];
    }
  }

  lemma {:induction false} LexLeqIff(a: string, b: string)
    ensures LexLeq(a, b) <==> InCodeOrder(a, b)
  {
    if a != [] && InCodeOrder(a, b) {
      FirstCharacters(a, b);
    }
    if a == [] {
      assert a[..0] == b[..0];
    } else if b != [] && a[0] == b[0] {
      LexLeqIff(a[1..], b[1..]);
      if InCodeOrder(a[1..], b[1..]) {
        var k :| 0 <= k <= |a[1..]| && k <= |b[1..]| && a[1..][..k] == b[1..][..k]
                 && (k == |a[1..]| || (k < |b[1..]| && a[1..][k] < b[1..][k]));
        assert a[..k + 1] == [a[0]] + a[1..][..k] && b[..k + 1] == [b[0]] + b[1..][..k];
        assert k < |b[1..]| ==> b[1..][k] == b[k + 1];
        assert k < |a[1..]| ==> a[1..][k] == a[k + 1];
      }
      if InCodeOrder(a, b) {
        var k :| 0 <= k <= |a| && k <= |b| && a[..k] == b[..k] && (k == |a| || (k < |b| && a[k] < b[k]));
        assert k > 0;
        assert a[1..][..k - 1] == a[..k][1..] && b[1..][..k - 1] == b[..k][1..];
        assert InCodeOrder(a[1..], b[1..]);
      }
    } else if b != [] && a[0] < b[0] {
      assert a[..0] == b[..0];
    }
  }

  lemma LexLeqIsTotalOrder()
    ensures TotalOrder(LexLeq)
  {
    forall x: string, y: string ensures LexLeq(x, y) || LexLeq(y, x) {
      LexTotal(x, y);
    }
    forall x: string, y: string, z: string | LexLeq(x, y) && LexLeq(y, z) ensures LexLeq(x, z) {
      LexTransitive(x, y, z);
    }
    forall x: string, y: string | LexLeq(x, y) && LexLeq(y, x) ensures x == y {
      LexAntisymmetric(x, y);
    }
  }

  lemma {:induction false} LexTotal(a: string, b: string)
    ensures LexLeq(a, b) || LexLeq(b, a)
  {
    if a != [] && b != [] {
      LexTotal(a[1..], b[1..]);
    }
  }

  lemma {:induction false} LexTransitive(a: string, b: string, c: string)
    requires LexLeq(a, b) && LexLeq(b, c)
    ensures LexLeq(a, c)
  {
    if a != [] && a[0] == b[0] == c[0] {
      LexTransitive(a[1..], b[1..], c[1..]);
    }
  }

  lemma {:induction false} LexAntisymmetric(a: string, b: string)
    requires LexLeq(a, b) && LexLeq(b, a)
    ensures a == b
  {
    if a != [] {
      LexAntisymmetric(a[1..], b[1..]);
      assert a == [a[0]] + a[1..] && b == [b[0]] + b[1..];
    }
  }
}
