/** analyzeHand and detectDraws: the current hand of a player plus the
    flush and straight draws still open before the river. */
module HandAnalysis {

  import opened Sequences
  import opened Cards
  import opened HandEvaluator
  import opened OddsCalculator

  datatype Draw = FlushDraw(suit: Suit, outs: nat) | StraightDraw(outs: nat)

  datatype Analysis = Analysis(currentHand: Evaluation, draws: seq<Draw>)

  // ---------------------------------------------------------------------
  // Suit counts

  /** How many of `cards` have suit `s`. */
  function CountSuit(cards: seq<Card>, s: Suit): (n: nat)
    ensures n <= |cards|
  {
    if cards == [] then 0
    else CountSuit(cards[..|cards| - 1], s) + (if cards[|cards| - 1].suit == s then 1 else 0)
  }

  /** A suit is counted exactly when some card has it. */
  lemma {:induction false} CountSuitPositive(cards: seq<Card>, s: Suit)
    ensures CountSuit(cards, s) > 0 <==> s in Suits(cards)
  {
    if cards != [] {
      var init := cards[..|cards| - 1];
      CountSuitPositive(init, s);
      assert Suits(cards) == Suits(init) + [cards[|cards| - 1].suit];
    }
  }

  /** Two different suits share out the cards: their counts add up to at
      most the number of cards. */
  lemma {:induction false} CountTwoSuits(cards: seq<Card>, s: Suit, t: Suit)
    requires s != t
    ensures CountSuit(cards, s) + CountSuit(cards, t) <= |cards|
  {
    if cards != [] {
      CountTwoSuits(cards[..|cards| - 1], s, t);
    }
  }

  /** Counting one more card: its suit goes up by one, the others stay. */
  lemma SuitScanStep(cards: seq<Card>, i: nat)
    requires i < |cards|
    ensures Suits(cards[..i + 1]) == Suits(cards[..i]) + [cards[i].suit]
    ensures forall s :: CountSuit(cards[..i + 1], s) == CountSuit(cards[..i], s) + (if cards[i].suit == s then 1 else 0)
    ensures cards[i].suit !in Suits(cards[..i]) ==> CountSuit(cards[..i], cards[i].suit) == 0
  {
    assert cards[..i + 1][..i] == cards[..i];
    CountSuitPositive(cards[..i], cards[i].suit);
  }

  /** The flush draws of a suit-count scan in key order `order`. */
  function FlushesIn(order: seq<Suit>, cards: seq<Card>): seq<Draw>
  {
    if order == [] then []
    else
      var s := order[|order| - 1];
      FlushesIn(order[..|order| - 1], cards) + (if CountSuit(cards, s) == 4 then [FlushDraw(s, 9)] else [])
  }

  lemma {:induction false} FlushesInMembers(order: seq<Suit>, cards: seq<Card>, d: Draw)
    ensures d in FlushesIn(order, cards) <==> d.FlushDraw? && d.suit in order && CountSuit(cards, d.suit) == 4 && d.outs == 9
  {
    if order != [] {
      var init := order[..|order| - 1];
      FlushesInMembers(init, cards, d);
      assert order == init + [order[|order| - 1]];
    }
  }

  // ---------------------------------------------------------------------
  // Straight windows

  /** The distinct rank values of `cards` in descending order: the values
      sorted descending, duplicates dropped, sorted again. */
  function UniqueDesc(cards: seq<Card>): seq<int>
  {
    SortDesc(Dedup(SortDesc(Ranks(cards))))
  }

  /** v, v-1, v-2 and v-3 all occur among `values`. */
  predicate FourInARow(values: seq<int>, v: int)
  {
    v in values && v - 1 in values && v - 2 in values && v - 3 in values
  }

  /** The four values starting at i step down by exactly one. */
  predicate Consecutive(u: seq<int>, i: nat)
    requires i + 4 <= |u|
  {
    u[i] - u[i + 1] == 1 && u[i + 1] - u[i + 2] == 1 && u[i + 2] - u[i + 3] == 1
  }

  /** Some window at position i or later is consecutive. */
  predicate WindowFrom(u: seq<int>, i: nat)
    decreases |u| - i
  {
    i + 4 <= |u| && (Consecutive(u, i) || WindowFrom(u, i + 1))
  }

  /** UniqueDesc has no repeats, descends strictly, and holds exactly the
      rank values of the cards. */
  lemma UniqueDescFacts(cards: seq<Card>)
    ensures StrictlyDesc(UniqueDesc(cards))
    ensures forall v :: v in UniqueDesc(cards) <==> v in Ranks(cards)
  {
    var d := Dedup(SortDesc(Ranks(cards)));
    var u := UniqueDesc(cards);
    NoDupPermutation(d, u);
    NoDupSortedIsStrict(u);
    forall v ensures v in u <==> v in Ranks(cards) {
      assert v in u <==> v in multiset(u);
      assert v in SortDesc(Ranks(cards)) <==> v in multiset(SortDesc(Ranks(cards)));
      assert v in Ranks(cards) <==> v in multiset(Ranks(cards));
    }
  }

  /** A consecutive window exists from i on exactly when one exists at some
      j >= i. */
  lemma {:induction false} WindowFromAt(u: seq<int>, i: nat, j: nat)
    requires i <= j && j + 4 <= |u| && Consecutive(u, j)
    ensures WindowFrom(u, i)
    decreases j - i
  {
    if i < j {
      WindowFromAt(u, i + 1, j);
    }
  }

  lemma {:induction false} WindowFromFound(u: seq<int>, i: nat) returns (j: nat)
    requires WindowFrom(u, i)
    ensures i <= j && j + 4 <= |u| && Consecutive(u, j)
    decreases |u| - i
  {
    if Consecutive(u, i) {
      j := i;
    } else {
      j := WindowFromFound(u, i + 1);
    }
  }

  /** In a strictly descending list, the next value below u[j] that occurs
      in the list is u[j + 1]. */
  lemma NextBelow(u: seq<int>, j: nat)
    requires StrictlyDesc(u) && j < |u| && u[j] - 1 in u
    ensures j + 1 < |u| && u[j + 1] == u[j] - 1
  {
    var k :| 0 <= k < |u| && u[k] == u[j] - 1;
    assert j < k;
  }

  /** A consecutive window shows four values in a row. */
  lemma WindowShowsRun(u: seq<int>)
    requires WindowFrom(u, 0)
    ensures exists v :: FourInARow(u, v)
  {
    var j := WindowFromFound(u, 0);
    assert u[j] in u && u[j + 1] in u && u[j + 2] in u && u[j + 3] in u;
    assert FourInARow(u, u[j]);
  }

  /** Four values in a row of a strictly descending list sit in a window. */
  lemma RunShowsWindow(u: seq<int>, v: int)
    requires StrictlyDesc(u) && FourInARow(u, v)
    ensures WindowFrom(u, 0)
  {
    var j :| 0 <= j < |u| && u[j] == v;
    NextBelow(u, j);
    NextBelow(u, j + 1);
    NextBelow(u, j + 2);
    WindowFromAt(u, 0, j);
  }

  /** A strictly descending list has a consecutive window exactly when four
      values in a row occur in it. */
  lemma WindowIff(u: seq<int>)
    requires StrictlyDesc(u)
    ensures WindowFrom(u, 0) <==> exists v :: FourInARow(u, v)
  {
    if WindowFrom(u, 0) {
      WindowShowsRun(u);
    }
    if exists v :: FourInARow(u, v) {
      var v :| FourInARow(u, v);
      RunShowsWindow(u, v);
    }
  }

  // ---------------------------------------------------------------------
  // detectDraws

  /** detectDraws' suit counters: the count of each suit present, and the
      suits in the order they were first seen (an object's key order). */
  method CountSuits(cards: seq<Card>) returns (suitCounts: map<Suit, nat>, keys: seq<Suit>)
    ensures keys == Dedup(Suits(cards))
    ensures forall s :: s in suitCounts <==> s in keys
    ensures forall s :: s in suitCounts ==> suitCounts[s] == CountSuit(cards, s)
  {
    suitCounts := map[];
    keys := [];
    for i := 0 to |cards|
      invariant keys == Dedup(Suits(cards[..i]))
      invariant forall s :: s in suitCounts <==> s in keys
      invariant forall s :: s in suitCounts ==> suitCounts[s] == CountSuit(cards[..i], s)
    {
      var suit := cards[i].suit;
      SuitScanStep(cards, i);
      if suit in suitCounts {
        suitCounts := suitCounts[suit := suitCounts[suit] + 1];
      } else {
        suitCounts := suitCounts[suit := 1];
        keys := keys + [suit];
      }
    }
    assert cards[..|cards|] == cards;
  }

  /** detectDraws' result: nothing once five community cards are out;
      otherwise a flush draw of 9 outs for every suit held exactly four
      times, in the order suits first appear, then one straight draw of 8
      outs when four consecutive rank values occur. */
  function DrawsOf(cards: seq<Card>, numCommunityCards: int): seq<Draw>
  {
    if numCommunityCards >= 5 then []
    else
      FlushesIn(Dedup(Suits(cards)), cards)
      + (if WindowFrom(UniqueDesc(cards), 0) then [StraightDraw(8)] else [])
  }

  method DetectDraws(cards: seq<Card>, numCommunityCards: int) returns (draws: seq<Draw>)
    ensures numCommunityCards >= 5 ==> draws == []
    ensures draws == DrawsOf(cards, numCommunityCards)
  {
    if numCommunityCards >= 5 {
      return [];
    }
    draws := [];

    var suitCounts, keys := CountSuits(cards);
    for j := 0 to |keys|
      invariant draws == FlushesIn(keys[..j], cards)
    {
      var suit := keys[j];
      assert keys[..j + 1][..j] == keys[..j];
      if suitCounts[suit] == 4 {
        draws := draws + [FlushDraw(suit, 9)];
      }
    }
    assert keys[..|keys|] == keys;

    var values := SortDesc(Ranks(cards));
    var uniqueValues := SortDesc(Dedup(values));
    var isDraw := HasConsecutiveWindow(uniqueValues);
    if isDraw {
      draws := draws + [StraightDraw(8)];
    }
  }

  /** detectDraws' window scan: looks at the windows of four values from
      the top and stops at the first one that steps down by one each time. */
  method HasConsecutiveWindow(uniqueValues: seq<int>) returns (found: bool)
    ensures found == WindowFrom(uniqueValues, 0)
  {
    found := false;
    var i := 0;
    while i <= |uniqueValues| - 4
      invariant 0 <= i
      invariant WindowFrom(uniqueValues, i) == WindowFrom(uniqueValues, 0)
      decreases |uniqueValues| - i
    {
      var slice := uniqueValues[i..i + 4];
      var isConsecutive := forall idx | 1 <= idx < 4 :: slice[idx - 1] - slice[idx] == 1;
      assert isConsecutive == Consecutive(uniqueValues, i);
      if isConsecutive {
        found := true;
        break;
      }
      i := i + 1;
    }
  }

  // ---------------------------------------------------------------------
  // Properties of the draws

  /** A flush draw is reported for a suit exactly when the board is not
      complete and exactly four cards have that suit; it always counts 9
      outs. */
  lemma FlushDrawIff(cards: seq<Card>, numCommunityCards: int, d: Draw)
    requires d.FlushDraw?
    ensures d in DrawsOf(cards, numCommunityCards)
        <==> numCommunityCards < 5 && CountSuit(cards, d.suit) == 4 && d.outs == 9
  {
    FlushesInMembers(Dedup(Suits(cards)), cards, d);
    CountSuitPositive(cards, d.suit);
  }

  /** With at most seven cards there is at most one flush draw. */
  lemma OneFlushDraw(cards: seq<Card>, numCommunityCards: int, a: Draw, b: Draw)
    requires |cards| <= 7 && a.FlushDraw? && b.FlushDraw?
    requires a in DrawsOf(cards, numCommunityCards) && b in DrawsOf(cards, numCommunityCards)
    ensures a == b
  {
    FlushDrawIff(cards, numCommunityCards, a);
    FlushDrawIff(cards, numCommunityCards, b);
    if a.suit != b.suit {
      CountTwoSuits(cards, a.suit, b.suit);
    }
  }

  /** A straight draw is reported exactly when the board is not complete and
      four consecutive rank values occur among the cards; it always counts
      8 outs. */
  lemma StraightDrawIff(cards: seq<Card>, numCommunityCards: int, d: Draw)
    requires d.StraightDraw?
    ensures d in DrawsOf(cards, numCommunityCards)
        <==> numCommunityCards < 5 && d.outs == 8 && exists v :: FourInARow(Ranks(cards), v)
  {
    var u := UniqueDesc(cards);
    UniqueDescFacts(cards);
    WindowIff(u);
    SameValuesSameRuns(u, Ranks(cards));
    FlushesInMembers(Dedup(Suits(cards)), cards, d);
  }

  /** The scan reports at most one straight draw: it can only be the last
      entry, after the flush draws. */
  lemma OneStraightDraw(cards: seq<Card>, numCommunityCards: int, i: int)
    requires 0 <= i < |DrawsOf(cards, numCommunityCards)| && DrawsOf(cards, numCommunityCards)[i].StraightDraw?
    ensures i == |DrawsOf(cards, numCommunityCards)| - 1
  {
    var flushes := FlushesIn(Dedup(Suits(cards)), cards);
    if i < |flushes| {
      assert DrawsOf(cards, numCommunityCards)[i] == flushes[i];
      assert flushes[i] in flushes;
      FlushesInMembers(Dedup(Suits(cards)), cards, flushes[i]);
    }
  }

  /** Four in a row depends only on which values occur. */
  lemma SameValuesSameRuns(a: seq<int>, b: seq<int>)
    requires forall v :: v in a <==> v in b
    ensures (exists v :: FourInARow(a, v)) <==> exists v :: FourInARow(b, v)
  {
    forall v ensures FourInARow(a, v) <==> FourInARow(b, v) {
    }
  }

  // ---------------------------------------------------------------------
  // analyzeHand

  /** analyzeHand: nothing unless the player holds exactly two cards;
      otherwise the evaluation of all known cards and the open draws. */
  method AnalyzeHand(playerCards: seq<Card>, communityCards: seq<Card>) returns (r: Option<Analysis>)
    ensures r == None <==> |playerCards| != 2
    ensures r.Some? ==> r.value == Analysis(EvaluationOf(playerCards + communityCards),
                                            DrawsOf(playerCards + communityCards, |communityCards|))
  {
    if |playerCards| != 2 {
      return None;
    }
    var allCards := playerCards + communityCards;
    var currentHand := EvaluateHand(allCards);
    var draws := DetectDraws(allCards, |communityCards|);
    return Some(Analysis(currentHand, draws));
  }
}
