/** Sequence facts and the two library operations the engine leans on:
    sorting numbers in descending order, and removing repeated values while
    keeping first occurrences (what spreading a `Set` built from a list
    yields). */
module Sequences {

  predicate NoDup<T(==)>(s: seq<T>)
  {
    forall i, j :: 0 <= i < j < |s| ==> s[i] != s[j]
  }

  predicate SortedDesc(s: seq<int>)
  {
    forall i, j :: 0 <= i < j < |s| ==> s[i] >= s[j]
  }

  predicate StrictlyDesc(s: seq<int>)
  {
    forall i, j :: 0 <= i < j < |s| ==> s[i] > s[j]
  }

  lemma MultisetCancel<T>(a: multiset<T>, b: multiset<T>, x: T)
    requires a + multiset{x} == b + multiset{x}
    ensures a == b
  {
    assert a == (a + multiset{x}) - multiset{x};
  }

  lemma MultisetRemoveAt<T>(q: seq<T>, j: nat)
    requires j < |q|
    ensures multiset(q[..j] + q[j + 1..]) + multiset{q[j]} == multiset(q)
  {
    assert q == q[..j] + [q[j]] + q[j + 1..];
  }

  /** No element repeats exactly when each occurs at most once in the
      multiset. */
  lemma {:induction false} NoDupMultiset<T>(s: seq<T>)
    ensures NoDup(s) <==> forall x :: multiset(s)[x] <= 1
  {
    if s != [] {
      var t := s[1..];
      assert s == [s[0]] + t;
      NoDupMultiset(t);
      if NoDup(s) {
        assert NoDup(t) by {
          forall i, j | 0 <= i < j < |t| ensures t[i] != t[j] {
            assert t[i] == s[i + 1] && t[j] == s[j + 1];
          }
        }
        assert s[0] !in t by {
          forall j | 0 <= j < |t| ensures t[j] != s[0] {
            assert t[j] == s[j + 1];
          }
        }
      }
      if forall x :: multiset(s)[x] <= 1 {
        assert forall x :: multiset(t)[x] <= multiset(s)[x];
        assert multiset(t)[s[0]] == 0;
        forall i, j | 0 <= i < j < |s| ensures s[i] != s[j] {
          assert s[j] == t[j - 1];
          if i > 0 {
            assert s[i] == t[i - 1];
          } else {
            assert t[j - 1] in t;
          }
        }
      }
    }
  }

  /** A rearrangement of a list without repeats has none. */
  lemma NoDupConcat<T>(a: seq<T>, b: seq<T>)
    requires NoDup(a) && NoDup(b)
    requires forall i, j :: 0 <= i < |a| && 0 <= j < |b| ==> a[i] != b[j]
    ensures NoDup(a + b)
  {
    forall i, j | 0 <= i < j < |a + b| ensures (a + b)[i] != (a + b)[j] {
      if j < |a| {
      } else if i >= |a| {
        assert (a + b)[i] == b[i - |a|] && (a + b)[j] == b[j - |a|];
      } else {
        assert (a + b)[j] == b[j - |a|];
      }
    }
  }

  lemma NoDupPermutation<T>(a: seq<T>, b: seq<T>)
    requires NoDup(a) && multiset(a) == multiset(b)
    ensures NoDup(b)
  {
    NoDupMultiset(a);
    NoDupMultiset(b);
  }

  /** Places `x` in a descending list, in front of the first element it is
      not smaller than. */
  function InsertDesc(x: int, s: seq<int>): (r: seq<int>)
    requires SortedDesc(s)
    ensures |r| == |s| + 1
    ensures r[0] == x || (s != [] && r[0] == s[0])
    ensures SortedDesc(r)
    ensures multiset(r) == multiset(s) + multiset{x}
  {
    if s == [] || x >= s[0] then [x] + s
    else
      assert s == [s[0]] + s[1..];
      var t := InsertDesc(x, s[1..]);
      assert s[0] >= t[0];
      [s[0]] + t
  }

  /** Sorting with the comparator `(a, b) => b - a`: descending order. */
  function SortDesc(s: seq<int>): (r: seq<int>)
    ensures |r| == |s|
    ensures SortedDesc(r)
    ensures multiset(r) == multiset(s)
  {
    if s == [] then []
    else
      assert s == [s[0]] + s[1..];
      InsertDesc(s[0], SortDesc(s[1..]))
  }

  /** The total of a list of numbers. */
  function Sum(s: seq<int>): int
  {
    if s == [] then 0 else s[0] + Sum(s[1..])
  }

  lemma {:induction false} SumInsertDesc(x: int, s: seq<int>)
    requires SortedDesc(s)
    ensures Sum(InsertDesc(x, s)) == x + Sum(s)
  {
    if s != [] && x < s[0] {
      var t := InsertDesc(x, s[1..]);
      SumInsertDesc(x, s[1..]);
      assert ([s[0]] + t)[1..] == t;
    } else {
      assert ([x] + s)[1..] == s;
    }
  }

  /** Sorting keeps the total. */
  lemma {:induction false} SumSortDesc(s: seq<int>)
    ensures Sum(SortDesc(s)) == Sum(s)
  {
    if s != [] {
      SumSortDesc(s[1..]);
      SumInsertDesc(s[0], SortDesc(s[1..]));
    }
  }

  /** A descending list is determined by its multiset of elements: every
      correct descending sort of the same values gives the same list. */
  lemma {:induction false} SortedDescUnique(a: seq<int>, b: seq<int>)
    requires SortedDesc(a) && SortedDesc(b)
    requires multiset(a) == multiset(b)
    ensures a == b
    decreases |a|
  {
    if a == [] {
      assert |multiset(b)| == 0;
    } else {
      assert |b| > 0 by { assert |multiset(b)| == |multiset(a)|; }
      assert a[0] in multiset(b) && b[0] in multiset(a);
      assert a[0] == b[0];
      assert a == [a[0]] + a[1..] && b == [b[0]] + b[1..];
      assert multiset(a) == multiset(a[1..]) + multiset{a[0]};
      assert multiset(b) == multiset(b[1..]) + multiset{a[0]};
      MultisetCancel(multiset(a[1..]), multiset(b[1..]), a[0]);
      SortedDescUnique(a[1..], b[1..]);
    }
  }

  lemma SortDescOfPermutation(a: seq<int>, b: seq<int>)
    requires multiset(a) == multiset(b)
    ensures SortDesc(a) == SortDesc(b)
  {
    SortedDescUnique(SortDesc(a), SortDesc(b));
  }

  /** Removes repeated values, keeping the first occurrence of each in its
      original position order. */
  function Dedup<T(==, !new)>(s: seq<T>): (r: seq<T>)
    ensures NoDup(r)
    ensures forall x :: x in r <==> x in s
    ensures |r| <= |s|
  {
    if s == [] then []
    else
      var p := Dedup(s[..|s| - 1]);
      var last := s[|s| - 1];
      assert s == s[..|s| - 1] + [last];
      if last in p then p else p + [last]
  }

  /** Without repeats, a descending list is strictly descending. */
  lemma NoDupSortedIsStrict(s: seq<int>)
    requires SortedDesc(s) && NoDup(s)
    ensures StrictlyDesc(s)
  {
  }
}
