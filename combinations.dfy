/** k-element subsets of an ordered list, generated recursively: every
    subset is listed once, as a subsequence that keeps the list's order. */
module Combinations {

  import opened Sequences

  /** The binomial coefficient, by Pascal's rule. */
  function Binom(n: nat, k: nat): nat
  {
    if k == 0 then 1
    else if n == 0 then 0
    else Binom(n - 1, k - 1) + Binom(n - 1, k)
  }

  lemma {:induction false} BinomAboveN(n: nat, k: nat)
    requires k > n
    ensures Binom(n, k) == 0
  {
    if n > 0 {
      BinomAboveN(n - 1, k - 1);
      BinomAboveN(n - 1, k);
    }
  }

  lemma {:induction false} BinomOne(n: nat)
    ensures Binom(n, 1) == n
  {
    if n > 0 {
      BinomOne(n - 1);
    }
  }

  lemma {:induction false} BinomAll(n: nat)
    ensures Binom(n, n) == 1
  {
    if n > 0 {
      BinomAll(n - 1);
      BinomAboveN(n - 1, n);
    }
  }

  lemma {:induction false} BinomAllButOne(n: nat)
    ensures Binom(n + 1, n) == n + 1
  {
    if n > 0 {
      BinomAllButOne(n - 1);
      BinomAll(n);
    }
  }

  lemma {:induction false} BinomPositive(n: nat, k: nat)
    requires k <= n
    ensures Binom(n, k) >= 1
  {
    if k > 0 {
      BinomPositive(n - 1, k - 1);
    }
  }

  /** `x` is `s` with some elements left out, the rest in their order. */
  predicate IsSubseq<T(==)>(x: seq<T>, s: seq<T>)
    decreases |s|
  {
    if x == [] then true
    else if s == [] then false
    else (x[0] == s[0] && IsSubseq(x[1..], s[1..])) || IsSubseq(x, s[1..])
  }

  /** Every list of length k, for 1 <= k, that getCombinations returns: the
      singletons when k is 1, the list itself when k is its length, and
      otherwise, for each head position i with at least k - 1 elements after
      it, the head followed by each (k-1)-combination of what follows. */
  function Combos<T(==)>(arr: seq<T>, k: nat): (r: seq<seq<T>>)
    requires k >= 1
    ensures |r| == Binom(|arr|, k)
    ensures forall c :: c in r ==> |c| == k && IsSubseq(c, arr)
    decreases |arr|, 1
  {
    if k == 1 then
      BinomOne(|arr|);
      SingletonsAreSubseqs(arr);
      seq(|arr|, i requires 0 <= i < |arr| => [arr[i]])
    else if k == |arr| then
      BinomAll(|arr|);
      SubseqRefl(arr);
      [arr]
    else
      HeadedFrom(arr, k, 0)
  }

  /** Each of `tails` with `x` put in front. */
  function Prefixed<T>(x: T, tails: seq<seq<T>>): (r: seq<seq<T>>)
    ensures |r| == |tails|
    ensures forall j :: 0 <= j < |r| ==> r[j] == [x] + tails[j]
  {
    seq(|tails|, j requires 0 <= j < |tails| => [x] + tails[j])
  }

  /** The head positions i, i+1, ..., |arr| - k of getCombinations' loop. */
  function HeadedFrom<T(==)>(arr: seq<T>, k: nat, i: nat): (r: seq<seq<T>>)
    requires 2 <= k && i <= |arr|
    ensures |r| == Binom(|arr| - i, k)
    ensures forall c :: c in r ==> |c| == k && IsSubseq(c, arr[i..]) && c[0] in arr[i..]
    decreases |arr|, 0, |arr| - i
  {
    if i + k > |arr| then
      BinomAboveN(|arr| - i, k);
      []
    else
      var tails := Combos(arr[i + 1..], k - 1);
      var later := HeadedFrom(arr, k, i + 1);
      HeadedFromStep(arr, k, i, tails, later);
      Prefixed(arr[i], tails) + later
  }

  /** The lists HeadedFrom builds at head position i are k long, start
      inside arr[i..] and are subsequences of it. */
  lemma HeadedFromStep<T>(arr: seq<T>, k: nat, i: nat, tails: seq<seq<T>>, later: seq<seq<T>>)
    requires 2 <= k && i < |arr|
    requires forall c :: c in tails ==> |c| == k - 1 && IsSubseq(c, arr[i + 1..])
    requires forall c :: c in later ==> |c| == k && IsSubseq(c, arr[i + 1..]) && c[0] in arr[i + 1..]
    ensures forall c :: c in Prefixed(arr[i], tails) + later ==>
      |c| == k && IsSubseq(c, arr[i..]) && c[0] in arr[i..]
  {
    var here := Prefixed(arr[i], tails);
    assert arr[i..][1..] == arr[i + 1..];
    forall c | c in here ensures |c| == k && IsSubseq(c, arr[i..]) && c[0] in arr[i..] {
      assert c[1..] in tails;
    }
    forall c | c in later ensures IsSubseq(c, arr[i..]) && c[0] in arr[i..] {
      SubseqOfTail(c, arr[i..]);
    }
  }

  lemma SubseqOfTail<T>(x: seq<T>, s: seq<T>)
    requires s != [] && IsSubseq(x, s[1..])
    ensures IsSubseq(x, s)
  {
  }

  lemma {:induction false} SubseqRefl<T>(s: seq<T>)
    ensures IsSubseq(s, s)
  {
    if s != [] {
      SubseqRefl(s[1..]);
    }
  }

  lemma {:induction false} SubseqOfSuffix<T>(x: seq<T>, s: seq<T>, i: nat)
    requires i <= |s| && IsSubseq(x, s[i..])
    ensures IsSubseq(x, s)
    decreases i
  {
    if i > 0 {
      assert s[i - 1..][1..] == s[i..];
      SubseqOfSuffix(x, s, i - 1);
    }
  }

  lemma SingletonsAreSubseqs<T>(arr: seq<T>)
    ensures forall i :: 0 <= i < |arr| ==> IsSubseq([arr[i]], arr)
  {
    forall i | 0 <= i < |arr| ensures IsSubseq([arr[i]], arr) {
      assert IsSubseq([arr[i]], arr[i..]) by {
        assert [arr[i]][1..] == [];
      }
      SubseqOfSuffix([arr[i]], arr, i);
    }
  }

  /** getCombinations(arr, k) for 1 <= k: with k = 1 the singletons, with
      k = |arr| the list itself. */
  lemma CombosBaseCases<T>(arr: seq<T>)
    ensures arr != [] ==> Combos(arr, |arr|) == [arr]
    ensures forall i :: 0 <= i < |arr| ==> Combos(arr, 1)[i] == [arr[i]]
  {
    if |arr| == 1 {
      assert arr == [arr[0]];
    }
  }

  /** A list without repeated elements has no repeated combinations. */
  lemma {:induction false} CombosNoDup<T>(arr: seq<T>, k: nat)
    requires k >= 1 && NoDup(arr)
    ensures NoDup(Combos(arr, k))
    decreases |arr|, 1
  {
    if k == 1 {
    } else if k == |arr| {
    } else {
      HeadedFromNoDup(arr, k, 0);
    }
  }

  lemma {:induction false} HeadedFromNoDup<T>(arr: seq<T>, k: nat, i: nat)
    requires 2 <= k && i <= |arr| && NoDup(arr)
    ensures NoDup(HeadedFrom(arr, k, i))
    decreases |arr|, 0, |arr| - i
  {
    if i + k <= |arr| {
      var tails := Combos(arr[i + 1..], k - 1);
      var here := Prefixed(arr[i], tails);
      var later := HeadedFrom(arr, k, i + 1);
      CombosNoDup(arr[i + 1..], k - 1);
      HeadedFromNoDup(arr, k, i + 1);
      forall a, b | 0 <= a < b < |here| ensures here[a] != here[b] {
        assert here[a][1..] == tails[a] && here[b][1..] == tails[b];
      }
      assert arr[i] !in arr[i + 1..];
      forall a, b | 0 <= a < |here| && 0 <= b < |later| ensures here[a] != later[b] {
        assert later[b] in later;
        assert here[a][0] == arr[i];
      }
      NoDupConcat(here, later);
    }
  }

  lemma {:induction false} SubseqLength<T>(x: seq<T>, s: seq<T>)
    requires IsSubseq(x, s)
    ensures |x| <= |s|
    ensures |x| == |s| ==> x == s
    decreases |s|
  {
    if x != [] {
      if x[0] == s[0] && IsSubseq(x[1..], s[1..]) {
        SubseqLength(x[1..], s[1..]);
        if |x| == |s| {
          assert x == [x[0]] + x[1..] && s == [s[0]] + s[1..];
        }
      } else {
        SubseqLength(x, s[1..]);
      }
    }
  }

  /** A nonempty subsequence starts at some position m of `s` and continues
      inside what follows it. */
  lemma {:induction false} SubseqHead<T>(x: seq<T>, s: seq<T>) returns (m: nat)
    requires x != [] && IsSubseq(x, s)
    ensures m < |s| && x[0] == s[m] && IsSubseq(x[1..], s[m + 1..])
    decreases |s|
  {
    if x[0] == s[0] && IsSubseq(x[1..], s[1..]) {
      m := 0;
    } else {
      var m' := SubseqHead(x, s[1..]);
      m := m' + 1;
      assert s[1..][m' + 1..] == s[m + 1..];
    }
  }

  /** Every k-element subsequence of `arr` is among its combinations. */
  lemma {:induction false} CombosComplete<T>(arr: seq<T>, k: nat, x: seq<T>)
    requires k >= 1 && |x| == k && IsSubseq(x, arr)
    ensures x in Combos(arr, k)
    decreases |arr|
  {
    SubseqLength(x, arr);
    var m := SubseqHead(x, arr);
    if k == 1 {
      assert x == [arr[m]];
      assert Combos(arr, k)[m] == x;
    } else if k == |arr| {
    } else {
      SubseqLength(x[1..], arr[m + 1..]);
      CombosComplete(arr[m + 1..], k - 1, x[1..]);
      HeadedFromHolds(arr, k, 0, m, x);
    }
  }

  lemma {:induction false} HeadedFromHolds<T>(arr: seq<T>, k: nat, i: nat, m: nat, x: seq<T>)
    requires 2 <= k && i <= m && m + k <= |arr| && |x| == k
    requires x[0] == arr[m] && x[1..] in Combos(arr[m + 1..], k - 1)
    ensures x in HeadedFrom(arr, k, i)
    decreases m - i
  {
    HeadedFromUnfold(arr, k, i);
    if i == m {
      assert x == [arr[i]] + x[1..];
    } else {
      HeadedFromHolds(arr, k, i + 1, m, x);
    }
  }

  lemma HeadedFromUnfold<T>(arr: seq<T>, k: nat, i: nat)
    requires 2 <= k && i + k <= |arr|
    ensures forall t :: t in Combos(arr[i + 1..], k - 1) ==> [arr[i]] + t in HeadedFrom(arr, k, i)
    ensures forall c :: c in HeadedFrom(arr, k, i + 1) ==> c in HeadedFrom(arr, k, i)
  {
    var tails := Combos(arr[i + 1..], k - 1);
    var here := Prefixed(arr[i], tails);
    assert HeadedFrom(arr, k, i) == here + HeadedFrom(arr, k, i + 1);
    forall t | t in tails ensures [arr[i]] + t in HeadedFrom(arr, k, i) {
      var j :| 0 <= j < |tails| && tails[j] == t;
      assert here[j] == [arr[i]] + t;
    }
  }

  /** Seven cards have 21 five-card subsets; six have 6. */
  lemma FiveCardSubsetCounts()
    ensures Binom(7, 5) == 21 && Binom(6, 5) == 6 && Binom(5, 5) == 1
  {
    BinomAll(5);
    BinomOne(3);
    BinomAllButOne(2);
    BinomAllButOne(3);
    BinomAllButOne(4);
    BinomAllButOne(5);
    assert Binom(4, 2) == 6;
    assert Binom(5, 3) == 10;
    assert Binom(6, 4) == 15;
  }
}
