/** The deck: the 52-card universe minus the cards already known, an
    in-place Fisher-Yates shuffle whose random choices are an input, and a
    destructive deal from the front. */
module Decks {

  import opened Sequences
  import opened Cards

  /** `list` with every card that equals some card of `excluded` dropped;
      the remaining cards keep their order. */
  function Without(list: seq<Card>, excluded: seq<Card>): seq<Card>
  {
    if list == [] then []
    else
      var c := list[|list| - 1];
      var kept := Without(list[..|list| - 1], excluded);
      if c in excluded then kept else kept + [c]
  }

  /** The cards a deck built with exclusion list `excluded` holds. */
  function FreshDeck(excluded: seq<Card>): seq<Card>
  {
    Without(Universe(), excluded)
  }

  lemma {:induction false} WithoutMembership(list: seq<Card>, excluded: seq<Card>, c: Card)
    ensures c in Without(list, excluded) <==> c in list && c !in excluded
  {
    if list != [] {
      var init := list[..|list| - 1];
      WithoutMembership(init, excluded, c);
      assert list == init + [list[|list| - 1]];
    }
  }

  lemma {:induction false} WithoutNoDup(list: seq<Card>, excluded: seq<Card>)
    requires NoDup(list)
    ensures NoDup(Without(list, excluded))
  {
    if list != [] {
      var init := list[..|list| - 1];
      var c := list[|list| - 1];
      WithoutNoDup(init, excluded);
      WithoutMembership(init, excluded, c);
      assert c !in init;
    }
  }

  /** Cards of a duplicate-free list that the exclusion drops. */
  function Dropped(list: seq<Card>, excluded: seq<Card>): set<Card>
  {
    set c | c in list && c in excluded
  }

  lemma {:induction false} WithoutLength(list: seq<Card>, excluded: seq<Card>)
    requires NoDup(list)
    ensures |Without(list, excluded)| + |Dropped(list, excluded)| == |list|
  {
    if list != [] {
      var init := list[..|list| - 1];
      var c := list[|list| - 1];
      WithoutLength(init, excluded);
      assert list == init + [c];
      assert c !in init;
      if c in excluded {
        assert Dropped(list, excluded) == Dropped(init, excluded) + {c};
      } else {
        assert Dropped(list, excluded) == Dropped(init, excluded);
      }
    }
  }

  lemma {:induction false} DistinctCount(s: seq<Card>)
    ensures |set c | c in s| <= |s|
  {
    if s != [] {
      DistinctCount(s[1..]);
      assert (set c | c in s) == (set c | c in s[1..]) + {s[0]};
    }
  }

  /** A deck built with exclusion list E holds every card that equals no card
      of E exactly once, and nothing else. */
  lemma FreshDeckContents(excluded: seq<Card>)
    ensures NoDup(FreshDeck(excluded))
    ensures forall c :: c in FreshDeck(excluded) <==> c !in excluded
  {
    UniverseNoDup();
    WithoutNoDup(Universe(), excluded);
    forall c ensures c in FreshDeck(excluded) <==> c !in excluded {
      WithoutMembership(Universe(), excluded, c);
      UniverseComplete(c);
    }
  }

  /** A deck built with exclusion list E has 52 - k cards, k the number of
      distinct cards in E; so at least 52 - |E|, and exactly that when E has
      no repeats. */
  lemma FreshDeckSize(excluded: seq<Card>)
    ensures |FreshDeck(excluded)| == 52 - |set c | c in excluded|
    ensures |FreshDeck(excluded)| >= 52 - |excluded|
    ensures NoDup(excluded) ==> |FreshDeck(excluded)| == 52 - |excluded|
  {
    UniverseNoDup();
    WithoutLength(Universe(), excluded);
    forall c | c in excluded ensures c in Universe() {
      UniverseComplete(c);
    }
    assert Dropped(Universe(), excluded) == set c | c in excluded;
    DistinctCount(excluded);
    if NoDup(excluded) {
      NoDupCount(excluded);
    }
  }

  lemma {:induction false} NoDupCount(s: seq<Card>)
    requires NoDup(s)
    ensures |set c | c in s| == |s|
  {
    if s != [] {
      NoDupCount(s[1..]);
      assert (set c | c in s) == (set c | c in s[1..]) + {s[0]};
      assert s[0] !in s[1..];
    }
  }

  /** Swap indices for a shuffle: entry i is the `j` drawn at step i, in 0..i. */
  predicate IsTape(tape: seq<nat>)
  {
    forall i :: 0 <= i < |tape| ==> tape[i] <= i
  }

  function Swap(s: seq<Card>, i: nat, j: nat): (r: seq<Card>)
    requires i < |s| && j < |s|
    ensures |r| == |s|
  {
    s[i := s[j]][j := s[i]]
  }

  lemma SwapPermutes(s: seq<Card>, i: nat, j: nat)
    requires i < |s| && j < |s|
    ensures multiset(Swap(s, i, j)) == multiset(s)
  {
  }

  /** The Fisher-Yates passes for positions i, i-1, ..., 1. */
  function FisherYates(s: seq<Card>, tape: seq<nat>, i: int): (r: seq<Card>)
    requires i < |s| && i < |tape| && IsTape(tape)
    ensures |r| == |s|
    decreases i
  {
    if i <= 0 then s
    else FisherYates(Swap(s, i, tape[i]), tape, i - 1)
  }

  lemma {:induction false} FisherYatesPermutes(s: seq<Card>, tape: seq<nat>, i: int)
    requires i < |s| && i < |tape| && IsTape(tape)
    ensures multiset(FisherYates(s, tape, i)) == multiset(s)
    decreases i
  {
    if i > 0 {
      SwapPermutes(s, i, tape[i]);
      FisherYatesPermutes(Swap(s, i, tape[i]), tape, i - 1);
    }
  }

  /** One pass of FisherYates: swap position i with tape[i], then go on
      below i. */
  lemma FisherYatesStep(s: seq<Card>, tape: seq<nat>, i: int)
    requires 0 < i < |s| && i < |tape| && IsTape(tape)
    ensures tape[i] < |s|
    ensures FisherYates(s, tape, i) == FisherYates(Swap(s, i, tape[i]), tape, i - 1)
  {
  }

  /** A whole shuffle of `s` driven by `tape`. */
  function Shuffled(s: seq<Card>, tape: seq<nat>): seq<Card>
    requires |s| <= |tape| && IsTape(tape)
  {
    FisherYates(s, tape, |s| - 1)
  }

  /** A shuffle rearranges the deck: same cards, same multiplicities. */
  lemma ShuffledPermutes(s: seq<Card>, tape: seq<nat>)
    requires |s| <= |tape| && IsTape(tape)
    ensures |Shuffled(s, tape)| == |s|
    ensures multiset(Shuffled(s, tape)) == multiset(s)
  {
    FisherYatesPermutes(s, tape, |s| - 1);
  }

  /** Every rearrangement of a deck is produced by some tape: the shuffle can
      reach each permutation. */
  lemma ShuffleReachesEveryPermutation(s: seq<Card>, t: seq<Card>)
    requires multiset(s) == multiset(t)
    ensures exists tape: seq<nat> :: |tape| == |s| && IsTape(tape) && Shuffled(s, tape) == t
  {
    assert |s| == |multiset(s)| == |t|;
    assert s[..|s|] == s && t[..|t|] == t;
    var tape := ReachingTape(s, t, |s| - 1);
    assert Shuffled(s, tape) == t;
  }

  /** Builds swap choices for positions i down to 1 that turn `s` into `t`,
      given that both agree above i and hold the same cards up to i. */
  lemma {:induction false} ReachingTape(s: seq<Card>, t: seq<Card>, i: int) returns (tape: seq<nat>)
    requires |s| == |t| && -1 <= i < |s|
    requires multiset(s[..i + 1]) == multiset(t[..i + 1])
    requires s[i + 1..] == t[i + 1..]
    ensures |tape| == |s| && IsTape(tape)
    ensures FisherYates(s, tape, i) == t
    decreases i
  {
    if i <= 0 {
      tape := seq(|s|, k => 0);
      AgreeingTails(s, t, i);
    } else {
      var j := ReachingSwap(s, t, i);
      var s' := Swap(s, i, j);
      var rest := ReachingTape(s', t, i - 1);
      tape := rest[i := j];
      FisherYatesIgnoresHigherEntries(s', rest, tape, i - 1);
    }
  }

  lemma AgreeingTails(s: seq<Card>, t: seq<Card>, i: int)
    requires |s| == |t| && -1 <= i <= 0 && i < |s|
    requires multiset(s[..i + 1]) == multiset(t[..i + 1])
    requires s[i + 1..] == t[i + 1..]
    ensures s == t
  {
    if i == 0 {
      assert s[0] in multiset(s[..1]);
      assert t[..1] == [t[0]];
      assert s[0] == t[0];
      assert forall k :: 1 <= k < |s| ==> s[k] == s[1..][k - 1] == t[1..][k - 1] == t[k];
    } else {
      assert s[0..] == s && t[0..] == t;
    }
  }

  /** One Fisher-Yates step toward `t`: the swap that brings t[i] to position i. */
  lemma ReachingSwap(s: seq<Card>, t: seq<Card>, i: nat) returns (j: nat)
    requires |s| == |t| && i < |s|
    requires multiset(s[..i + 1]) == multiset(t[..i + 1])
    requires s[i + 1..] == t[i + 1..]
    ensures j <= i
    ensures multiset(Swap(s, i, j)[..i]) == multiset(t[..i])
    ensures Swap(s, i, j)[i..] == t[i..]
  {
    assert t[..i + 1] == t[..i] + [t[i]];
    assert t[i] in multiset(s[..i + 1]);
    var k :| 0 <= k <= i && s[..i + 1][k] == t[i];
    j := k;
    var s' := Swap(s, i, j);
    assert s'[i + 1..] == s[i + 1..];
    SwapPrefix(s, i, j);
    assert s'[i..] == [s'[i]] + s'[i + 1..] && t[i..] == [t[i]] + t[i + 1..];
    assert s'[..i + 1] == s'[..i] + [t[i]];
    MultisetCancel(multiset(s'[..i]), multiset(t[..i]), t[i]);
  }

  lemma SwapPrefix(s: seq<Card>, i: nat, j: nat)
    requires j <= i < |s|
    ensures multiset(Swap(s, i, j)[..i + 1]) == multiset(s[..i + 1])
  {
    var s' := Swap(s, i, j);
    assert s'[..i + 1] == Swap(s[..i + 1], i, j);
    SwapPermutes(s[..i + 1], i, j);
  }

  /** Passes at positions up to i read only the tape's entries up to i. */
  lemma {:induction false} FisherYatesIgnoresHigherEntries(s: seq<Card>, a: seq<nat>, b: seq<nat>, i: int)
    requires i < |s| && i < |a| && i < |b| && IsTape(a) && IsTape(b)
    requires forall k :: 0 <= k <= i ==> a[k] == b[k]
    ensures FisherYates(s, a, i) == FisherYates(s, b, i)
    decreases i
  {
    if i > 0 {
      FisherYatesIgnoresHigherEntries(Swap(s, i, a[i]), a, b, i - 1);
    }
  }

  /** How many cards `deal(n)` removes from a deck of `len` cards: the
      deletion count of a splice at 0, clamped to 0..len. */
  function DealCount(n: int, len: nat): (k: nat)
    ensures k <= len
    ensures 0 <= n <= len ==> k == n
    ensures n > len ==> k == len
    ensures n < 0 ==> k == 0
  {
    if n < 0 then 0 else if n > len then len else n
  }

  class Deck {
    var cards: seq<Card>

    /** Builds the universe minus the excluded cards, suit by suit. */
    constructor (excludeCards: seq<Card>)
      ensures cards == FreshDeck(excludeCards)
    {
      cards := [];
      new;
      for s := 0 to 4
        invariant cards == Without(Universe()[..13 * s], excludeCards)
      {
        for r := 0 to 13
          invariant cards == Without(Universe()[..13 * s + r], excludeCards)
        {
          var card := Card(r + 2, SuitOrder[s]);
          var isExcluded := exists c | c in excludeCards :: Equals(c, card);
          ghost var k := 13 * s + r;
          assert Universe()[k] == card by {
            assert k / 13 == s && k % 13 == r;
          }
          assert Universe()[..k + 1][..k] == Universe()[..k];
          if !isExcluded {
            cards := cards + [card];
          }
        }
      }
      assert Universe()[..52] == Universe();
    }

    /** Fisher-Yates: for i from the last index down to 1, swap position i
        with position tape[i]. */
    method Shuffle(tape: seq<nat>)
      requires |cards| <= |tape| && IsTape(tape)
      modifies this
      ensures cards == Shuffled(old(cards), tape)
    {
      ghost var start := cards;
      var i := |cards| - 1;
      while i > 0
        invariant i < |cards| == |start|
        invariant FisherYates(cards, tape, i) == Shuffled(start, tape)
      {
        var j := tape[i];
        FisherYatesStep(cards, tape, i);
        cards := Swap(cards, i, j);
        i := i - 1;
      }
    }

    /** Removes and returns the first n cards, or all of them when fewer
        remain (a splice at position 0). */
    method Deal(n: int) returns (dealt: seq<Card>)
      modifies this
      ensures |dealt| == DealCount(n, |old(cards)|)
      ensures dealt + cards == old(cards)
    {
      var k := DealCount(n, |cards|);
      dealt := cards[..k];
      cards := cards[k..];
    }
  }
}
