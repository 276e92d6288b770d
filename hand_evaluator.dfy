/** The hand evaluator: classifies five cards into one of ten rankings with a
    tie-break value, picks the best five-card subset of a larger hand, and
    orders results by ranking first, value second. */
module HandEvaluator {

  import opened Sequences
  import opened Cards
  import opened Combinations

  const HighCard := 1
  const Pair := 2
  const TwoPair := 3
  const ThreeOfAKind := 4
  const Straight := 5
  const Flush := 6
  const FullHouse := 7
  const FourOfAKind := 8
  const StraightFlush := 9
  const RoyalFlush := 10

  /** A ranking and its tie-break value. */
  datatype HandResult = HandResult(ranking: int, value: int)

  /** What evaluateHand returns: a scored hand, or, for fewer than five cards,
      the HIGH_CARD ranking with no value at all. */
  datatype Evaluation = Scored(hand: HandResult) | Unscored
  {
    function Ranking(): int
    {
      if Scored? then hand.ranking else HighCard
    }
  }

  datatype StraightResult = StraightResult(isStraight: bool, highCard: int)

  /** The wheel A-5-4-3-2, high to low. */
  const Wheel: seq<int> := [14, 5, 4, 3, 2]

  /** Each value is exactly one more than the next. */
  predicate IsRun(s: seq<int>)
  {
    forall i :: 0 <= i < |s| - 1 ==> s[i] - s[i + 1] == 1
  }

  /** What checkStraight reports for a list sorted high to low. */
  function StraightOf(sorted: seq<int>): StraightResult
    requires |sorted| == 5
  {
    if IsRun(sorted) then StraightResult(true, sorted[0])
    else if sorted == Wheel then StraightResult(true, 5)
    else StraightResult(false, 0)
  }

  /** checkStraight: a scan of neighbouring values that stops at the first
      gap, then the wheel test. */
  method CheckStraight(sortedCards: seq<int>) returns (r: StraightResult)
    requires |sortedCards| == 5
    ensures r == StraightOf(sortedCards)
    ensures r.isStraight <==> IsRun(sortedCards) || sortedCards == Wheel
    ensures IsRun(sortedCards) ==> r.highCard == sortedCards[0]
    ensures !IsRun(sortedCards) && sortedCards == Wheel ==> r.highCard == 5
    ensures !r.isStraight ==> r.highCard == 0
  {
    var isStraight := true;
    var i := 0;
    while i < |sortedCards| - 1
      invariant 0 <= i <= |sortedCards| - 1
      invariant isStraight
      invariant forall k :: 0 <= k < i ==> sortedCards[k] - sortedCards[k + 1] == 1
    {
      if sortedCards[i] - sortedCards[i + 1] != 1 {
        isStraight := false;
        break;
      }
      i := i + 1;
    }
    if isStraight {
      return StraightResult(true, sortedCards[0]);
    }
    if sortedCards[0] == Ace && sortedCards[1] == 5 && sortedCards[2] == 4
      && sortedCards[3] == 3 && sortedCards[4] == 2
    {
      return StraightResult(true, 5);
    }
    return StraightResult(false, 0);
  }

  /** The count dictionary of countRanks: each rank present, with how many
      cards carry it. */
  function RankCounts(values: seq<int>): map<int, nat>
  {
    map r | r in values :: multiset(values)[r]
  }

  /** countRanks: one pass over the cards, incrementing the entry of each
      card's rank. */
  method CountRanks(values: seq<int>) returns (counts: map<int, nat>)
    ensures forall r :: r in counts <==> r in values
    ensures forall r :: r in counts ==> counts[r] == multiset(values)[r]
    ensures counts == RankCounts(values)
  {
    counts := map[];
    for i := 0 to |values|
      invariant forall r :: r in counts <==> r in values[..i]
      invariant forall r :: r in counts ==> counts[r] == multiset(values[..i])[r]
    {
      var r := values[i];
      assert values[..i + 1] == values[..i] + [r];
      counts := counts[r := (if r in counts then counts[r] else 0) + 1];
    }
    assert values[..|values|] == values;
  }

  /** The keys of a count dictionary over rank values, in ascending order. */
  function KeysOf(m: map<int, nat>): (ks: seq<int>)
    ensures forall r :: r in ks <==> r in m && 2 <= r <= 14
    ensures NoDup(ks)
  {
    KeysBelow(m, 15)
  }

  function KeysBelow(m: map<int, nat>, n: int): (ks: seq<int>)
    requires 2 <= n <= 15
    ensures forall r :: r in ks <==> r in m && 2 <= r < n
    ensures forall i, j :: 0 <= i < j < |ks| ==> ks[i] < ks[j]
    decreases n
  {
    if n == 2 then []
    else
      var below := KeysBelow(m, n - 1);
      assert forall i :: 0 <= i < |below| ==> below[i] in below && below[i] < n - 1;
      if n - 1 in m then below + [n - 1] else below
  }

  /** The counts of a dictionary sorted from largest to smallest. */
  function Profile(m: map<int, nat>): seq<int>
  {
    var ks := KeysOf(m);
    SortDesc(seq(|ks|, i requires 0 <= i < |ks| => m[ks[i]]))
  }

  /** The i-th entry, or 0 where the list has none (an absent entry equals no
      count). */
  function At(s: seq<int>, i: nat): int
  {
    if i < |s| then s[i] else 0
  }

  /** getKickerValue's order: more cards of a rank first, then the higher
      rank first. */
  predicate Precedes(m: map<int, nat>, a: int, b: int)
    requires a in m && b in m
  {
    m[a] > m[b] || (m[a] == m[b] && a > b)
  }

  predicate SortedByCount(m: map<int, nat>, s: seq<int>)
    requires forall x :: x in s ==> x in m
  {
    forall i, j :: 0 <= i < j < |s| ==> Precedes(m, s[i], s[j])
  }

  function InsertByCount(m: map<int, nat>, x: int, s: seq<int>): (r: seq<int>)
    requires x in m && (forall y :: y in s ==> y in m) && x !in s
    requires SortedByCount(m, s)
    ensures forall y :: y in r <==> y in s || y == x
    ensures multiset(r) == multiset(s) + multiset{x}
    ensures SortedByCount(m, r)
  {
    if s == [] || Precedes(m, x, s[0]) then
      assert forall k :: 0 <= k < |s| ==> Precedes(m, x, s[k]);
      [x] + s
    else
      var t := InsertByCount(m, x, s[1..]);
      InsertByCountStep(m, x, s, t);
      [s[0]] + t
  }

  /** The recursive case of InsertByCount: s[0] stays in front of the
      insertion into the rest. */
  lemma InsertByCountStep(m: map<int, nat>, x: int, s: seq<int>, t: seq<int>)
    requires x in m && (forall y :: y in s ==> y in m) && x !in s
    requires s != [] && !Precedes(m, x, s[0]) && SortedByCount(m, s)
    requires forall y :: y in t <==> y in s[1..] || y == x
    requires multiset(t) == multiset(s[1..]) + multiset{x}
    requires SortedByCount(m, t)
    ensures multiset([s[0]] + t) == multiset(s) + multiset{x}
    ensures SortedByCount(m, [s[0]] + t)
  {
    assert s == [s[0]] + s[1..];
    forall k | 0 <= k < |t| ensures Precedes(m, s[0], t[k]) {
      assert t[k] in t;
    }
  }

  /** The ranks of a dictionary in getKickerValue's order. */
  function KickerOrder(m: map<int, nat>): (r: seq<int>)
    ensures forall y :: y in r ==> y in m
    ensures multiset(r) == multiset(KeysOf(m))
    ensures SortedByCount(m, r)
  {
    SortByCount(m, KeysOf(m))
  }

  function SortByCount(m: map<int, nat>, s: seq<int>): (r: seq<int>)
    requires (forall y :: y in s ==> y in m) && NoDup(s)
    ensures forall y :: y in r ==> y in m
    ensures multiset(r) == multiset(s)
    ensures SortedByCount(m, r)
  {
    if s == [] then []
    else
      assert s == [s[0]] + s[1..];
      var t := SortByCount(m, s[1..]);
      assert s[0] !in multiset(s[1..]);
      InsertByCount(m, s[0], t)
  }

  /** The base-15 number whose digits, most significant first, are `ds`. */
  function Base15(ds: seq<int>): int
  {
    if ds == [] then 0 else Base15(ds[..|ds| - 1]) * 15 + ds[|ds| - 1]
  }

  /** getKickerValue: folds the ranks, in kicker order, into a base-15
      number; the pattern argument is not read. */
  method GetKickerValue(rankCounts: map<int, nat>, pattern: seq<nat>) returns (value: int)
    ensures value == Base15(KickerOrder(rankCounts))
  {
    value := 0;
    var sortedRanks := KickerOrder(rankCounts);
    for i := 0 to |sortedRanks|
      invariant value == Base15(sortedRanks[..i])
    {
      assert sortedRanks[..i + 1][..i] == sortedRanks[..i];
      value := value * 15 + sortedRanks[i];
    }
    assert sortedRanks[..|sortedRanks|] == sortedRanks;
  }

  /** All five cards share the first card's suit. */
  predicate IsFlush(cards: seq<Card>)
    requires |cards| > 0
  {
    forall i :: 0 <= i < |cards| ==> cards[i].suit == cards[0].suit
  }

  /** evaluate5Cards: the priority chain applied to the values sorted high
      to low and to the one-suit test. */
  function Evaluate5(cards: seq<Card>): (r: HandResult)
    requires |cards| == 5
    ensures HighCard <= r.ranking <= RoyalFlush
  {
    Classify(SortDesc(Ranks(cards)), IsFlush(cards))
  }

  /** evaluate5Cards' counting step: the rank count dictionary, its counts
      sorted high to low and the kicker number, handed to the chain. */
  function Classify(sorted: seq<int>, isFlush: bool): (r: HandResult)
    requires |sorted| == 5
    ensures HighCard <= r.ranking <= RoyalFlush
  {
    var counts := RankCounts(sorted);
    Chain(sorted, isFlush, StraightOf(sorted), Profile(counts), Base15(KickerOrder(counts)))
  }

  /** The first category of evaluate5Cards' priority chain that applies. */
  function Chain(sorted: seq<int>, isFlush: bool, straight: StraightResult, profile: seq<int>, kicker: int): (r: HandResult)
    requires |sorted| == 5
    ensures HighCard <= r.ranking <= RoyalFlush
  {
    if isFlush && straight.isStraight && sorted[0] == Ace && sorted[1] == King then
      HandResult(RoyalFlush, straight.highCard)
    else if isFlush && straight.isStraight then
      HandResult(StraightFlush, straight.highCard)
    else if At(profile, 0) == 4 then HandResult(FourOfAKind, kicker)
    else if At(profile, 0) == 3 && At(profile, 1) == 2 then HandResult(FullHouse, kicker)
    else if isFlush then HandResult(Flush, sorted[0])
    else if straight.isStraight then HandResult(Straight, straight.highCard)
    else if At(profile, 0) == 3 then HandResult(ThreeOfAKind, kicker)
    else if At(profile, 0) == 2 && At(profile, 1) == 2 then HandResult(TwoPair, kicker)
    else if At(profile, 0) == 2 then HandResult(Pair, kicker)
    else HandResult(HighCard, sorted[0])
  }

  /** compareHands: positive when h1 is better, negative when worse, zero
      for a tie. */
  function CompareHands(h1: HandResult, h2: HandResult): (d: int)
    ensures d > 0 <==> h1.ranking > h2.ranking || (h1.ranking == h2.ranking && h1.value > h2.value)
    ensures d == 0 <==> h1 == h2
  {
    if h1.ranking != h2.ranking then h1.ranking - h2.ranking
    else h1.value - h2.value
  }

  /** The replacement test of getBestFiveCardHand's loop. */
  predicate Beats(h: HandResult, best: HandResult)
  {
    h.ranking > best.ranking || (h.ranking == best.ranking && h.value > best.value)
  }

  /** The evaluation of each five-card combination, in order. */
  function Scores(combos: seq<seq<Card>>): (hs: seq<HandResult>)
    requires forall c :: c in combos ==> |c| == 5
    ensures |hs| == |combos|
    ensures forall j :: 0 <= j < |hs| ==> HighCard <= hs[j].ranking <= RoyalFlush
  {
    seq(|combos|, i requires 0 <= i < |combos| => Evaluate5(combos[i]))
  }

  /** The running best after scanning `hs`, starting from ranking 0, value 0
      and keeping the first of equal results. */
  function FirstBest(hs: seq<HandResult>): HandResult
  {
    if hs == [] then HandResult(0, 0)
    else
      var best := FirstBest(hs[..|hs| - 1]);
      var h := hs[|hs| - 1];
      if Beats(h, best) then h else best
  }

  lemma FirstBestStep(hs: seq<HandResult>, i: nat)
    requires i < |hs|
    ensures FirstBest(hs[..i + 1])
      == if Beats(hs[i], FirstBest(hs[..i])) then hs[i] else FirstBest(hs[..i])
  {
    assert hs[..i + 1][..i] == hs[..i];
  }

  /** getBestFiveCardHand's result. */
  function BestHand(cards: seq<Card>): HandResult
    requires |cards| >= 5
  {
    if |cards| == 5 then Evaluate5(cards) else FirstBest(Scores(Combos(cards, 5)))
  }

  /** getBestFiveCardHand: evaluates five cards directly, otherwise keeps
      the best of all five-card combinations. */
  method GetBestFiveCardHand(cards: seq<Card>) returns (bestHand: HandResult)
    requires |cards| >= 5
    ensures bestHand == BestHand(cards)
  {
    if |cards| == 5 {
      return Evaluate5(cards);
    }
    bestHand := HandResult(0, 0);
    var combinations := Combos(cards, 5);
    ghost var scores := Scores(combinations);
    for i := 0 to |combinations|
      invariant bestHand == FirstBest(scores[..i])
    {
      assert combinations[i] in combinations;
      var handResult := Evaluate5(combinations[i]);
      assert handResult == scores[i];
      FirstBestStep(scores, i);
      if handResult.ranking > bestHand.ranking
        || (handResult.ranking == bestHand.ranking && handResult.value > bestHand.value)
      {
        bestHand := handResult;
      }
    }
    assert scores[..|scores|] == scores;
  }

  /** evaluateHand's result. */
  function EvaluationOf(cards: seq<Card>): Evaluation
  {
    if |cards| < 5 then Unscored else Scored(BestHand(cards))
  }

  /** evaluateHand: no value below five cards, the best five-card hand
      otherwise. */
  method EvaluateHand(cards: seq<Card>) returns (e: Evaluation)
    ensures |cards| < 5 ==> e == Unscored && e.Ranking() == HighCard
    ensures |cards| >= 5 ==> e == Scored(BestHand(cards))
  {
    if |cards| < 5 {
      return Unscored;
    }
    var best := GetBestFiveCardHand(cards);
    return Scored(best);
  }
}
