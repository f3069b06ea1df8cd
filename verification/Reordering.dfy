/** Sequences up to order. */
module Reordering {

  function Without<T>(s: seq<T>, i: nat): (r: seq<T>)
    requires i < |s|
    ensures |r| == |s| - 1
  {
    s[..i] + s[i + 1..]
  }

  lemma MultisetWithout<T>(s: seq<T>, i: nat)
    requires i < |s|
    ensures multiset(Without(s, i)) == multiset(s) - multiset{s[i]}
  {
    assert s == s[..i] + [s[i]] + s[i + 1..];
  }

  /** The last element of `a` occurs in every reordering of `a`; removing both leaves a reordering. */
  lemma MatchLast<T>(a: seq<T>, b: seq<T>) returns (i: nat)
    requires a != [] && multiset(a) == multiset(b)
    ensures i < |b| && b[i] == a[|a| - 1]
    ensures multiset(a[..|a| - 1]) == multiset(Without(b, i))
  {
    var x := a[|a| - 1];
    assert x in multiset(b);
    i :| 0 <= i < |b| && b[i] == x;
    MultisetWithout(b, i);
    assert a == a[..|a| - 1] + [x];
  }

  lemma ReorderingKeepsLength<T>(a: seq<T>, b: seq<T>)
    requires multiset(a) == multiset(b)
    ensures |a| == |b|
  {
    assert |multiset(a)| == |a| && |multiset(b)| == |b|;
  }

  ghost predicate NoDuplicates<T>(s: seq<T>) {
    forall i, j :: 0 <= i < j < |s| ==> s[i] != s[j]
  }

  lemma NoDuplicatesConcat<T>(a: seq<T>, b: seq<T>)
    requires NoDuplicates(a) && NoDuplicates(b)
    requires forall x :: x in a ==> x !in b
    ensures NoDuplicates(a + b)
  {
    forall i, j | 0 <= i < j < |a + b|
      ensures (a + b)[i] != (a + b)[j]
    {
      if i < |a| <= j {
        assert a[i] in a && b[j - |a|] in b;
      }
    }
  }

  lemma {:induction false} OccursAtMostOnce<T>(s: seq<T>, x: T)
    requires NoDuplicates(s)
    ensures multiset(s)[x] <= 1
    ensures x in s <==> multiset(s)[x] == 1
  {
    if s != [] {
      var n := |s| - 1;
      assert s == s[..n] + [s[n]];
      OccursAtMostOnce(s[..n], x);
    }
  }

  lemma OccursTwice<T>(s: seq<T>, i: nat, j: nat)
    requires i < j < |s| && s[i] == s[j]
    ensures multiset(s)[s[i]] >= 2
  {
    assert s == s[..j] + [s[j]] + s[j + 1..];
    assert s[i] in s[..j];
  }

  /** Two duplicate-free sequences with the same elements are reorderings of each other. */
  lemma SameElements<T>(a: seq<T>, b: seq<T>)
    requires NoDuplicates(a) && NoDuplicates(b)
    requires forall x :: x in a <==> x in b
    ensures multiset(a) == multiset(b)
  {
    forall x
      ensures multiset(a)[x] == multiset(b)[x]
    {
      OccursAtMostOnce(a, x);
      OccursAtMostOnce(b, x);
    }
  }

  lemma ReorderingKeepsNoDuplicates<T>(a: seq<T>, b: seq<T>)
    requires NoDuplicates(a) && multiset(a) == multiset(b)
    ensures NoDuplicates(b)
  {
    forall i, j | 0 <= i < j < |b|
      ensures b[i] != b[j]
    {
      if b[i] == b[j] {
        OccursTwice(b, i, j);
        OccursAtMostOnce(a, b[i]);
      }
    }
  }

  // ----- sorting by a total order -----

  ghost predicate TotalOrder<T(!new)>(leq: (T, T) -> bool) {
    && (forall a, b :: leq(a, b) || leq(b, a))
    && (forall a, b :: leq(a, b) && leq(b, a) ==> a == b)
    && (forall a, b, c :: leq(a, b) && leq(b, c) ==> leq(a, c))
  }

  function InsertBy<T>(leq: (T, T) -> bool, x: T, sorted: seq<T>): (r: seq<T>)
    ensures multiset(r) == multiset(sorted) + multiset{x}
  {
    if sorted == [] then [x]
    else if leq(x, sorted[0]) then [x] + sorted
    else
      assert sorted == [sorted[0]] + sorted[1..];
      [sorted[0]] + InsertBy(leq, x, sorted[1..])
  }

  function SortBy<T>(leq: (T, T) -> bool, s: seq<T>): (r: seq<T>)
    ensures multiset(r) == multiset(s)
  {
    if s == [] then [] else
    assert s == [s[0]] + s[1..];
    InsertBy(leq, s[0], SortBy(leq, s[1..]))
  }

  ghost predicate Ascending<T>(leq: (T, T) -> bool, s: seq<T>) {
    forall i, j :: 0 <= i < j < |s| ==> leq(s[i], s[j])
  }

  lemma {:induction false} InsertKeepsAscending<T(!new)>(leq: (T, T) -> bool, x: T, sorted: seq<T>)
    requires TotalOrder(leq) && Ascending(leq, sorted)
    ensures Ascending(leq, InsertBy(leq, x, sorted))
  {
    if sorted != [] && !leq(x, sorted[0]) {
      var rest := InsertBy(leq, x, sorted[1..]);
      InsertKeepsAscending(leq, x, sorted[1..]);
      forall y | y in rest
        ensures leq(sorted[0], y)
      {
        assert y in multiset(rest);
        assert y == x || y in sorted[1..];
      }
    }
  }

  lemma {:induction false} SortIsAscending<T(!new)>(leq: (T, T) -> bool, s: seq<T>)
    requires TotalOrder(leq)
    ensures Ascending(leq, SortBy(leq, s))
  {
    if s != [] {
      SortIsAscending(leq, s[1..]);
      InsertKeepsAscending(leq, s[0], SortBy(leq, s[1..]));
    }
  }

  lemma MultisetRest<T>(s: seq<T>)
    requires s != []
    ensures multiset(s[1..]) == multiset(s) - multiset{s[0]}
  {
    assert s == [s[0]] + s[1..];
  }

  /** Ascending reorderings of each other start with the same element. */
  lemma SameFirst<T(!new)>(leq: (T, T) -> bool, a: seq<T>, b: seq<T>)
    requires TotalOrder(leq) && Ascending(leq, a) && Ascending(leq, b)
    requires a != [] && b != [] && multiset(a) == multiset(b)
    ensures a[0] == b[0]
  {
    assert a[0] in multiset(b) && b[0] in multiset(a);
    var i :| 0 <= i < |b| && b[i] == a[0];
    var j :| 0 <= j < |a| && a[j] == b[0];
    assert leq(b[0], b[i]) && leq(a[0], a[j]);
  }

  lemma {:induction false} AscendingIsUnique<T(!new)>(leq: (T, T) -> bool, a: seq<T>, b: seq<T>)
    requires TotalOrder(leq) && Ascending(leq, a) && Ascending(leq, b)
    requires multiset(a) == multiset(b)
    ensures a == b
  {
    hide *;
    ReorderingKeepsLength(a, b);
    if a != [] {
      SameFirst(leq, a, b);
      MultisetRest(a);
      MultisetRest(b);
      AscendingRest(leq, a);
      AscendingRest(leq, b);
      var (x, y) := (a[1..], b[1..]);
      AscendingIsUnique(leq, x, y);
      assert a == [a[0]] + a[1..] && b == [b[0]] + b[1..];
    }
  }

  lemma AscendingRest<T>(leq: (T, T) -> bool, s: seq<T>)
    requires s != [] && Ascending(leq, s)
    ensures Ascending(leq, s[1..])
  {
  }

  /** Sorted forms are equal exactly when the sequences are reorderings of each other. */
  lemma SortsAgreeIff<T(!new)>(leq: (T, T) -> bool, a: seq<T>, b: seq<T>)
    requires TotalOrder(leq)
    ensures SortBy(leq, a) == SortBy(leq, b) <==> multiset(a) == multiset(b)
  {
    SortIsAscending(leq, a);
    SortIsAscending(leq, b);
    if multiset(a) == multiset(b) {
      AscendingIsUnique(leq, SortBy(leq, a), SortBy(leq, b));
    }
  }

  // ----- element by element -----

  function Mapped<T, U>(f: T -> U, s: seq<T>): (r: seq<U>)
    ensures |r| == |s| && forall i :: 0 <= i < |s| ==> r[i] == f(s[i])
  {
    seq(|s|, i requires 0 <= i < |s| => f(s[i]))
  }

  lemma MappedWithout<T, U>(f: T -> U, s: seq<T>, i: nat)
    requires i < |s|
    ensures multiset(Mapped(f, s)) == multiset(Mapped(f, Without(s, i))) + multiset{f(s[i])}
  {
    assert Mapped(f, s) == Mapped(f, s[..i]) + [f(s[i])] + Mapped(f, s[i + 1..]);
    assert Mapped(f, Without(s, i)) == Mapped(f, s[..i]) + Mapped(f, s[i + 1..]);
  }

  /** Reordering before or after a map is the same. */
  lemma {:induction false} MapKeepsReordering<T, U>(f: T -> U, a: seq<T>, b: seq<T>)
    requires multiset(a) == multiset(b)
    ensures multiset(Mapped(f, a)) == multiset(Mapped(f, b))
  {
    ReorderingKeepsLength(a, b);
    if a != [] {
      var n := |a| - 1;
      var i := MatchLast(a, b);
      MapKeepsReordering(f, a[..n], Without(b, i));
      MappedWithout(f, a, n);
      MappedWithout(f, b, i);
      assert Without(a, n) == a[..n];
    }
  }

  function Sum(s: seq<nat>): nat {
    if s == [] then 0 else Sum(s[..|s| - 1]) + s[|s| - 1]
  }

  lemma {:induction false} SumWithout(s: seq<nat>, i: nat)
    requires i < |s|
    ensures Sum(s) == Sum(Without(s, i)) + s[i]
  {
    var n := |s| - 1;
    if i < n {
      SumWithout(s[..n], i);
      assert Without(s, i)[..n - 1] == Without(s[..n], i);
    } else {
      assert Without(s, i) == s[..n];
    }
  }

  lemma {:induction false} SumKeepsReordering(a: seq<nat>, b: seq<nat>)
    requires multiset(a) == multiset(b)
    ensures Sum(a) == Sum(b)
  {
    ReorderingKeepsLength(a, b);
    if a != [] {
      var i := MatchLast(a, b);
      SumKeepsReordering(a[..|a| - 1], Without(b, i));
      SumWithout(b, i);
    }
  }

  /** Termwise smaller with the same total is termwise equal. */
  lemma {:induction false} SumIsTermwise(a: seq<nat>, b: seq<nat>)
    requires |a| == |b| && forall i :: 0 <= i < |a| ==> a[i] <= b[i]
    ensures Sum(a) <= Sum(b)
    ensures Sum(a) == Sum(b) ==> a == b
  {
    if a != [] {
      var n := |a| - 1;
      SumIsTermwise(a[..n], b[..n]);
      if Sum(a) == Sum(b) {
        assert a == a[..n] + [a[n]] && b == b[..n] + [b[n]];
      }
    }
  }
}
