/** Small value types and sequence facts shared by the other modules. */
module Prelude {
  datatype Option<+T> = None | Some(value: T)

  datatype Result<+T, +E> = Ok(value: T) | Err(error: E) {
    predicate IsFailure() {
      Err?
    }

    function PropagateFailure<U>(): Result<U, E>
      requires Err?
    {
      Err(error)
    }

    function Extract(): T
      requires Ok?
    {
      value
    }
  }

  type byte = b: int | 0 <= b < 256

  ghost predicate NoDuplicates<T>(s: seq<T>) {
    forall i, j :: 0 <= i < j < |s| ==> s[i] != s[j]
  }

  function Elements<T>(s: seq<T>): set<T> {
    set x | x in s
  }

  /** `Set.prototype.add` on a JavaScript set, kept as its insertion order. */
  function Add<T(==)>(s: seq<T>, x: T): seq<T> {
    if x in s then s else s + [x]
  }

  function Map<A, B>(f: A -> B, s: seq<A>): (r: seq<B>)
    ensures |r| == |s|
    ensures forall i :: 0 <= i < |s| ==> r[i] == f(s[i])
  {
    seq(|s|, i requires 0 <= i < |s| => f(s[i]))
  }

  /** Adding the elements of xs one by one. */
  function AddAll<T(==)>(s: seq<T>, xs: seq<T>): seq<T>
    decreases xs
  {
    if xs == [] then s else Add(AddAll(s, xs[..|xs| - 1]), xs[|xs| - 1])
  }

  /** `s.splice(i, 1)`. */
  function RemoveAt<T>(s: seq<T>, i: nat): seq<T>
    requires i < |s|
  {
    s[..i] + s[i + 1..]
  }

  function RemoveKey<K, V>(m: map<K, V>, k: K): map<K, V> {
    m - {k}
  }

  lemma AddKeepsNoDuplicates<T>(s: seq<T>, x: T)
    requires NoDuplicates(s)
    ensures NoDuplicates(Add(s, x))
    ensures forall y :: y in Add(s, x) <==> y in s || y == x
  {
  }

  lemma {:induction false} DistinctCount<T>(s: seq<T>)
    requires NoDuplicates(s)
    ensures |Elements(s)| == |s|
  {
    if s != [] {
      var n := |s| - 1;
      DistinctCount(s[..n]);
      assert Elements(s) == Elements(s[..n]) + {s[n]};
    }
  }

  lemma {:induction false} AddAllHolds<T>(s: seq<T>, xs: seq<T>)
    ensures forall x :: x in AddAll(s, xs) <==> x in s || x in xs
    ensures NoDuplicates(s) ==> NoDuplicates(AddAll(s, xs))
    decreases xs
  {
    if xs != [] {
      var front, last := xs[..|xs| - 1], xs[|xs| - 1];
      assert xs == front + [last];
      AddAllHolds(s, front);
      if NoDuplicates(s) {
        AddKeepsNoDuplicates(AddAll(s, front), last);
      }
    }
  }

  lemma Singleton<T>(s: seq<T>, x: T)
    requires NoDuplicates(s) && x in s && forall i :: 0 <= i < |s| ==> s[i] == x
    ensures s == [x]
  {
    DistinctCount(s);
    assert Elements(s) == {x};
  }

  lemma SubsetCount<T>(a: set<T>, b: set<T>)
    requires a <= b
    ensures |a| <= |b|
    ensures |a| == |b| ==> a == b
  {
    assert |b| == |a| + |b - a| by {
      assert b == a + (b - a);
    }
    if |a| == |b| {
      assert b - a == {};
      assert b == a + (b - a);
    }
  }

  /** `items.map(f)` where f may throw: the results in order, or the first error. */
  function Traverse<A, B, E>(f: A -> Result<B, E>, items: seq<A>): Result<seq<B>, E> {
    if items == [] then Ok([])
    else
      var first :- f(items[0]);
      var rest :- Traverse(f, items[1..]);
      Ok([first] + rest)
  }

  lemma {:induction false} TraverseIs<A, B, E>(f: A -> Result<B, E>, items: seq<A>, values: seq<B>)
    ensures Traverse(f, items) == Ok(values) <==>
              |values| == |items| && forall i :: 0 <= i < |items| ==> f(items[i]) == Ok(values[i])
  {
    if items != [] {
      if values != [] {
        TraverseIs(f, items[1..], values[1..]);
        assert values == [values[0]] + values[1..];
      }
      if Traverse(f, items).Ok? {
        var rest := Traverse(f, items[1..]).value;
        assert Traverse(f, items).value[1..] == rest;
      }
    }
  }

  /** The error of a failed map is the error of one of its items. */
  lemma {:induction false} TraverseFails<A, B, E>(f: A -> Result<B, E>, items: seq<A>) returns (i: nat)
    requires Traverse(f, items).Err?
    ensures i < |items| && f(items[i]).Err? && f(items[i]).error == Traverse(f, items).error
  {
    if f(items[0]).Err? {
      i := 0;
    } else {
      i := TraverseFails(f, items[1..]);
      i := i + 1;
    }
  }

  lemma {:induction false} TraverseStopsAt<A, B, E>(f: A -> Result<B, E>, items: seq<A>, i: nat)
    requires i < |items| && f(items[i]).Err? && forall k :: 0 <= k < i ==> f(items[k]).Ok?
    ensures Traverse(f, items) == Err(f(items[i]).error)
  {
    if i > 0 {
      TraverseStopsAt(f, items[1..], i - 1);
    }
  }

  lemma {:induction false} TraverseAlike<A, B, E>(f: A -> Result<B, E>, g: A -> Result<B, E>, items: seq<A>)
    requires forall i :: 0 <= i < |items| ==> f(items[i]) == g(items[i])
    ensures Traverse(f, items) == Traverse(g, items)
  {
    if items != [] {
      TraverseAlike(f, g, items[1..]);
    }
  }

  lemma WithoutOne<T>(s: seq<T>, j: nat)
    requires j < |s|
    ensures multiset(RemoveAt(s, j)) == multiset(s) - multiset{s[j]}
  {
    assert s == s[..j] + [s[j]] + s[j + 1..];
  }

  lemma WithOne<T>(s: seq<T>, j: nat, x: T)
    requires j <= |s|
    ensures multiset(s[..j] + [x] + s[j..]) == multiset(s) + multiset{x}
  {
    assert s == s[..j] + s[j..];
  }

  lemma TraverseInsert<A, B, E>(f: A -> Result<B, E>, b: seq<A>, j: nat, x: B, mapped: seq<B>)
    requires j < |b| && f(b[j]) == Ok(x) && Traverse(f, RemoveAt(b, j)) == Ok(mapped)
    ensures j <= |mapped| && Traverse(f, b) == Ok(mapped[..j] + [x] + mapped[j..])
  {
    hide Traverse;
    var rest := RemoveAt(b, j);
    TraverseIs(f, rest, mapped);
    var all := mapped[..j] + [x] + mapped[j..];
    forall i | 0 <= i < |b| ensures f(b[i]) == Ok(all[i]) {
      if i < j {
        assert rest[i] == b[i];
      } else if i > j {
        assert rest[i - 1] == b[i];
      }
    }
    TraverseIs(f, b, all);
  }

  lemma TraverseHead<A, B, E>(f: A -> Result<B, E>, items: seq<A>)
    requires items != [] && Traverse(f, items).Ok?
    ensures f(items[0]).Ok? && Traverse(f, items[1..]).Ok?
    ensures Traverse(f, items).value == [f(items[0]).value] + Traverse(f, items[1..]).value
  {
  }

  /** Mapping a permutation succeeds alike and gives a permutation. */
  lemma {:induction false} TraversePermutes<A, B, E>(f: A -> Result<B, E>, a: seq<A>, b: seq<A>)
    requires multiset(a) == multiset(b) && Traverse(f, a).Ok?
    ensures Traverse(f, b).Ok?
    ensures multiset(Traverse(f, b).value) == multiset(Traverse(f, a).value)
  {
    assert |a| == |multiset(a)| == |multiset(b)| == |b|;
    if a == [] {
      assert a == b;
    } else {
      hide Traverse;
      TraverseHead(f, a);
      assert a == [a[0]] + a[1..];
      assert a[0] in multiset(b);
      var j :| 0 <= j < |b| && b[j] == a[0];
      WithoutOne(b, j);
      TraversePermutes(f, a[1..], RemoveAt(b, j));
      var mapped, x := Traverse(f, RemoveAt(b, j)).value, f(a[0]).value;
      TraverseInsert(f, b, j, x, mapped);
      WithOne(mapped, j, x);
    }
  }

  lemma MapPermutes<A, B>(f: A -> B, a: seq<A>, b: seq<A>)
    requires multiset(a) == multiset(b)
    ensures multiset(Map(f, a)) == multiset(Map(f, b))
  {
    var g: A -> Result<B, ()> := x => Ok(f(x));
    TraverseIs(g, a, Map(f, a));
    TraverseIs(g, b, Map(f, b));
    TraversePermutes(g, a, b);
  }
}
