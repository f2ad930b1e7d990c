/**
 * Sorting by a total order, and the facts about sorted sequences,
 * permutations and repeated elements that the comparison logic uses.
 *
 * Rust's `sort` (stable) and `sort_unstable` are library calls; both are
 * modelled by `SortBy`, whose result is fixed by its contract alone
 * (`SortedUnique`): under a separating total order a sorted permutation is
 * unique, so stability cannot be observed.
 */
module Sorting {
  import opened Order

  ghost predicate SortedBy<T>(cmp: (T, T) -> Ordering, s: seq<T>) {
    forall i, j :: 0 <= i < j < |s| ==> cmp(s[i], s[j]) != Greater
  }

  ghost predicate Distinct<T>(s: seq<T>) {
    forall i, j :: 0 <= i < j < |s| ==> s[i] != s[j]
  }

  function MapSeq<T, U>(f: T -> U, s: seq<T>): (r: seq<U>)
    ensures |r| == |s| && forall i :: 0 <= i < |s| ==> r[i] == f(s[i])
  {
    seq(|s|, i requires 0 <= i < |s| => f(s[i]))
  }

  /** Inserts `x` before the first element it does not exceed. */
  function Insert<T(!new)>(cmp: (T, T) -> Ordering, x: T, s: seq<T>): (r: seq<T>)
    requires TotalOrder(cmp) && SortedBy(cmp, s)
    ensures SortedBy(cmp, r)
    ensures multiset(r) == multiset(s) + multiset{x}
    decreases |s|
  {
    if |s| == 0 then [x]
    else if cmp(x, s[0]) != Greater then
      InsertFront(cmp, x, s);
      [x] + s
    else
      SortedTail(cmp, s);
      var rest := Insert(cmp, x, s[1..]);
      InsertBehind(cmp, x, s, rest);
      [s[0]] + rest
  }

  lemma InsertFront<T(!new)>(cmp: (T, T) -> Ordering, x: T, s: seq<T>)
    requires TotalOrder(cmp) && SortedBy(cmp, s)
    requires |s| > 0 && cmp(x, s[0]) != Greater
    ensures SortedBy(cmp, [x] + s)
  {
    forall i, j | 0 <= i < j < |[x] + s| ensures cmp(([x] + s)[i], ([x] + s)[j]) != Greater {
      if i == 0 && j > 1 {
        assert cmp(s[0], s[j - 1]) != Greater;
      }
    }
  }

  lemma InsertBehind<T(!new)>(cmp: (T, T) -> Ordering, x: T, s: seq<T>, rest: seq<T>)
    requires TotalOrder(cmp) && SortedBy(cmp, s)
    requires |s| > 0 && cmp(x, s[0]) == Greater
    requires SortedBy(cmp, rest) && multiset(rest) == multiset(s[1..]) + multiset{x}
    ensures SortedBy(cmp, [s[0]] + rest)
    ensures multiset([s[0]] + rest) == multiset(s) + multiset{x}
  {
    assert s == [s[0]] + s[1..];
    forall y | y in rest ensures cmp(s[0], y) != Greater {
      assert y in multiset(rest);
      if y != x {
        assert y in s[1..];
        var k :| 0 <= k < |s[1..]| && s[1..][k] == y;
        assert s[k + 1] == y;
      } else {
        assert cmp(x, s[0]) == cmp(s[0], x).Flip();
      }
    }
    ConsSorted(cmp, s[0], rest);
  }

  /** A head below every element of a sorted tail gives a sorted sequence. */
  lemma ConsSorted<T>(cmp: (T, T) -> Ordering, h: T, rest: seq<T>)
    requires SortedBy(cmp, rest) && forall y :: y in rest ==> cmp(h, y) != Greater
    ensures SortedBy(cmp, [h] + rest)
  {
    var r := [h] + rest;
    forall i, j | 0 <= i < j < |r| ensures cmp(r[i], r[j]) != Greater {
      if i == 0 {
        assert r[j] == rest[j - 1] && rest[j - 1] in rest;
      } else {
        assert r[i] == rest[i - 1] && r[j] == rest[j - 1];
      }
    }
  }

  /** Insertion sort: the result is sorted and a permutation of the input. */
  method SortBy<T(!new)>(cmp: (T, T) -> Ordering, s: seq<T>) returns (r: seq<T>)
    requires TotalOrder(cmp)
    ensures SortedBy(cmp, r)
    ensures multiset(r) == multiset(s)
  {
    r := [];
    var i := 0;
    while i < |s|
      invariant 0 <= i <= |s|
      invariant SortedBy(cmp, r)
      invariant multiset(r) == multiset(s[..i])
    {
      assert s[..i + 1] == s[..i] + [s[i]];
      r := Insert(cmp, s[i], r);
      i := i + 1;
    }
    assert s[..i] == s;
  }

  /** The first elements of two sorted permutations agree. */
  lemma SortedSameHead<T(!new)>(cmp: (T, T) -> Ordering, a: seq<T>, b: seq<T>)
    requires Antisymmetric(cmp) && Separating(cmp)
    requires SortedBy(cmp, a) && SortedBy(cmp, b)
    requires multiset(a) == multiset(b) && |a| > 0
    ensures |b| > 0 && a[0] == b[0]
  {
    assert a[0] in multiset(b);
    var k :| 0 <= k < |b| && b[k] == a[0];
    assert b[0] in multiset(a);
    var m :| 0 <= m < |a| && a[m] == b[0];
    assert cmp(b[0], a[0]) != Greater by {
      if k > 0 { assert cmp(b[0], b[k]) != Greater; }
    }
    assert cmp(a[0], b[0]) != Greater by {
      if m > 0 { assert cmp(a[0], a[m]) != Greater; }
    }
    assert cmp(a[0], b[0]) == cmp(b[0], a[0]).Flip();
  }

  lemma SortedTail<T>(cmp: (T, T) -> Ordering, s: seq<T>)
    requires SortedBy(cmp, s) && |s| > 0
    ensures SortedBy(cmp, s[1..])
  {
    forall i, j | 0 <= i < j < |s[1..]| ensures cmp(s[1..][i], s[1..][j]) != Greater {
      assert cmp(s[i + 1], s[j + 1]) != Greater;
    }
  }

  /** Two sorted permutations of the same multiset are the same sequence. */
  lemma {:induction false} SortedUnique<T(!new)>(cmp: (T, T) -> Ordering, a: seq<T>, b: seq<T>)
    requires Antisymmetric(cmp) && Separating(cmp)
    requires SortedBy(cmp, a) && SortedBy(cmp, b)
    requires multiset(a) == multiset(b)
    ensures a == b
    decreases |a|
  {
    if |a| == 0 {
      assert |b| == |multiset(b)| == 0;
    } else {
      SortedPeel(cmp, a, b);
      SortedUnique(cmp, a[1..], b[1..]);
      assert a == [a[0]] + a[1..] && b == [b[0]] + b[1..];
    }
  }

  /** Two sorted permutations agree on their first element, and their tails are sorted permutations. */
  lemma SortedPeel<T(!new)>(cmp: (T, T) -> Ordering, a: seq<T>, b: seq<T>)
    requires Antisymmetric(cmp) && Separating(cmp)
    requires SortedBy(cmp, a) && SortedBy(cmp, b)
    requires multiset(a) == multiset(b) && |a| > 0
    ensures |b| > 0 && a[0] == b[0]
    ensures SortedBy(cmp, a[1..]) && SortedBy(cmp, b[1..])
    ensures multiset(a[1..]) == multiset(b[1..])
  {
    SortedSameHead(cmp, a, b);
    SortedTail(cmp, a);
    SortedTail(cmp, b);
    TailsPermutation(a, b);
  }

  /** Removing the same first element from two permutations leaves permutations. */
  lemma TailsPermutation<T>(a: seq<T>, b: seq<T>)
    requires multiset(a) == multiset(b) && |a| > 0 && |b| > 0 && a[0] == b[0]
    ensures multiset(a[1..]) == multiset(b[1..])
  {
    assert a == [a[0]] + a[1..];
    assert b == [b[0]] + b[1..];
    assert multiset(a) == multiset(a[1..]) + multiset{a[0]};
    assert multiset(b) == multiset(b[1..]) + multiset{a[0]};
    MultisetCancel(multiset(a[1..]), multiset(b[1..]), a[0]);
  }

  /** In a sorted sequence an element unlike its predecessor occurs nowhere before it. */
  lemma SortedNewValue<T(!new)>(cmp: (T, T) -> Ordering, s: seq<T>, i: nat)
    requires Antisymmetric(cmp) && Separating(cmp) && SortedBy(cmp, s)
    requires 0 < i < |s| && s[i] != s[i - 1]
    ensures s[i] !in s[..i]
  {
    forall k | 0 <= k < i - 1 ensures s[k] != s[i] {
      assert cmp(s[k], s[i - 1]) != Greater && cmp(s[i - 1], s[i]) != Greater;
    }
  }

  lemma DistinctAppend<T>(s: seq<T>, x: T)
    requires Distinct(s) && x !in s
    ensures Distinct(s + [x])
  {
  }

  /** A value standing at two positions occurs at least twice. */
  lemma CountTwo<T>(s: seq<T>, i: int, j: int)
    requires 0 <= i < j < |s| && s[i] == s[j]
    ensures multiset(s)[s[i]] >= 2
  {
    assert s == s[..j] + s[j..];
    assert s[i] in s[..j];
    assert s[j..][0] == s[j];
    assert multiset(s)[s[i]] == multiset(s[..j])[s[i]] + multiset(s[j..])[s[i]];
  }

  /** Pairwise distinct means every value occurs at most once. */
  lemma {:induction false} DistinctCounts<T>(s: seq<T>)
    ensures Distinct(s) <==> forall x :: multiset(s)[x] <= 1
    decreases |s|
  {
    if |s| > 0 {
      var init, last := s[..|s| - 1], s[|s| - 1];
      assert s == init + [last];
      DistinctCounts(init);
      if Distinct(s) {
        assert Distinct(init);
        assert last !in init;
        forall x ensures multiset(s)[x] <= 1 {
          assert multiset(s)[x] == multiset(init)[x] + multiset([last])[x];
        }
      }
      if !Distinct(s) {
        var i, j :| 0 <= i < j < |s| && s[i] == s[j];
        CountTwo(s, i, j);
      }
    }
  }

  lemma AppendAssoc<T>(a: seq<T>, b: seq<T>, c: seq<T>)
    ensures (a + b) + c == a + (b + c)
  {
  }

  lemma MapSeqConcat<T, U>(f: T -> U, a: seq<T>, b: seq<T>)
    ensures MapSeq(f, a + b) == MapSeq(f, a) + MapSeq(f, b)
  {
  }

  /** Removing position `k` removes one occurrence of `s[k]`. */
  lemma MultisetRemove<T>(s: seq<T>, k: nat)
    requires k < |s|
    ensures multiset(s) == multiset(s[..k] + s[k + 1..]) + multiset{s[k]}
  {
    assert s == s[..k] + [s[k]] + s[k + 1..];
  }

  lemma MultisetCancel<T>(x: multiset<T>, y: multiset<T>, c: T)
    requires x + multiset{c} == y + multiset{c}
    ensures x == y
  {
    assert forall v :: x[v] == (x + multiset{c})[v] - multiset{c}[v];
    assert forall v :: y[v] == (y + multiset{c})[v] - multiset{c}[v];
  }

  lemma MapRemove<T, U>(f: T -> U, s: seq<T>, k: nat)
    requires k < |s|
    ensures MapSeq(f, s[..k] + s[k + 1..]) == MapSeq(f, s)[..k] + MapSeq(f, s)[k + 1..]
  {
  }

  /** Applying a function elementwise preserves being a permutation. */
  lemma {:induction false} MapPermutation<T, U>(f: T -> U, a: seq<T>, b: seq<T>)
    requires multiset(a) == multiset(b)
    ensures multiset(MapSeq(f, a)) == multiset(MapSeq(f, b))
    decreases |a|
  {
    assert |a| == |multiset(a)| == |multiset(b)| == |b|;
    if |a| > 0 {
      var n := |a| - 1;
      var last := a[n];
      assert last in multiset(b);
      var k :| 0 <= k < |b| && b[k] == last;
      var init, rest := a[..n] + a[n + 1..], b[..k] + b[k + 1..];
      MultisetRemove(a, n);
      MultisetRemove(b, k);
      MultisetCancel(multiset(init), multiset(rest), last);
      MapPermutation(f, init, rest);
      var fa, fb := MapSeq(f, a), MapSeq(f, b);
      MultisetRemove(fa, n);
      MultisetRemove(fb, k);
      MapRemove(f, a, n);
      MapRemove(f, b, k);
    }
  }
}
