/** What the hand evaluator guarantees: results do not depend on card order,
    straights are exactly five consecutive ranks or the wheel, the kicker
    number orders hands like their rank lists, and the best-hand search
    returns the first maximum of its subsets. */
module HandProperties {

  import opened Sequences
  import opened Cards
  import opened Combinations
  import opened HandEvaluator

  /** The rank multiset of five consecutive ranks topped by h. */
  function RunOf(h: int): multiset<int>
  {
    multiset{h, h - 1, h - 2, h - 3, h - 4}
  }

  predicate ValidRanks(values: seq<int>)
  {
    forall v :: v in values ==> 2 <= v <= 14
  }

  lemma RanksValid(cards: seq<Card>)
    ensures ValidRanks(Ranks(cards))
  {
    forall v | v in Ranks(cards) ensures 2 <= v <= 14 {
      var i :| 0 <= i < |cards| && Ranks(cards)[i] == v;
    }
  }

  // ---------------------------------------------------------------------
  // Card order does not matter

  lemma FlushOfPermutation(p: seq<Card>, q: seq<Card>)
    requires |p| > 0 && multiset(p) == multiset(q)
    ensures |q| > 0 && (IsFlush(p) <==> IsFlush(q))
  {
    assert |q| == |multiset(q)| == |p|;
    assert p[0] in multiset(q) && q[0] in multiset(p);
    if IsFlush(p) {
      forall i | 0 <= i < |q| ensures q[i].suit == q[0].suit {
        assert q[i] in multiset(p);
      }
    }
    if IsFlush(q) {
      forall i | 0 <= i < |p| ensures p[i].suit == p[0].suit {
        assert p[i] in multiset(q);
      }
    }
  }

  /** The ranking and value of five cards do not change under any
      reordering of the cards. */
  lemma Evaluate5PermutationInvariant(p: seq<Card>, q: seq<Card>)
    requires |p| == 5 && multiset(p) == multiset(q)
    ensures |q| == 5 && Evaluate5(p) == Evaluate5(q)
  {
    assert |q| == |multiset(q)| == 5;
    PermutedProjections(p, q);
    SortDescOfPermutation(Ranks(p), Ranks(q));
    FlushOfPermutation(p, q);
  }

  // ---------------------------------------------------------------------
  // Straights

  function RunFrom(h: int): seq<int>
  {
    [h, h - 1, h - 2, h - 3, h - 4]
  }

  lemma RunShape(s: seq<int>)
    requires |s| == 5 && IsRun(s)
    ensures s == RunFrom(s[0])
  {
    assert s[1] == s[0] - 1 && s[2] == s[1] - 1 && s[3] == s[2] - 1 && s[4] == s[3] - 1;
  }

  lemma RunFacts(h: int)
    ensures multiset(RunFrom(h)) == RunOf(h)
    ensures SortedDesc(RunFrom(h))
    ensures StraightOf(RunFrom(h)) == StraightResult(true, h)
  {
  }

  lemma WheelFacts()
    ensures SortedDesc(Wheel)
    ensures StraightOf(Wheel) == StraightResult(true, 5)
  {
    assert Wheel[0] - Wheel[1] != 1;
  }

  /** A list sorted high to low holding a run is that run. */
  lemma SortedRunShape(s: seq<int>, h: int)
    requires SortedDesc(s) && multiset(s) == RunOf(h)
    ensures s == RunFrom(h)
  {
    RunFacts(h);
    SortedDescUnique(s, RunFrom(h));
  }

  lemma SortedRun(values: seq<int>, h: int)
    requires multiset(values) == RunOf(h)
    ensures SortDesc(values) == RunFrom(h)
  {
    SortedRunShape(SortDesc(values), h);
  }

  lemma SortedWheel(values: seq<int>)
    requires multiset(values) == multiset(Wheel)
    ensures SortDesc(values) == Wheel
  {
    WheelFacts();
    var s := SortDesc(values);
    SortedDescUnique(s, Wheel);
  }

  lemma RunOfSortedRun(values: seq<int>)
    requires |values| == 5 && ValidRanks(values) && IsRun(SortDesc(values))
    ensures 6 <= SortDesc(values)[0] <= 14 && multiset(values) == RunOf(SortDesc(values)[0])
  {
    RunMembers(SortDesc(values), values);
  }

  lemma RunMembers(s: seq<int>, values: seq<int>)
    requires |s| == 5 && IsRun(s) && multiset(s) == multiset(values) && ValidRanks(values)
    ensures 6 <= s[0] <= 14 && multiset(values) == RunOf(s[0])
  {
    RunShape(s);
    RunFacts(s[0]);
    assert s[0] in multiset(values) && s[4] in multiset(values);
    assert s[0] in values && s[4] in values;
    assert s[4] == s[0] - 4;
  }

  lemma RunStraight(values: seq<int>, h: int)
    requires |values| == 5 && multiset(values) == RunOf(h)
    ensures StraightOf(SortDesc(values)) == StraightResult(true, h)
  {
    SortedRun(values, h);
    RunFacts(h);
  }

  lemma WheelStraight(values: seq<int>)
    requires |values| == 5 && multiset(values) == multiset(Wheel)
    ensures StraightOf(SortDesc(values)) == StraightResult(true, 5)
  {
    SortedWheel(values);
    WheelFacts();
  }

  lemma StraightIsRunOrWheel(values: seq<int>)
    requires |values| == 5 && ValidRanks(values)
    requires StraightOf(SortDesc(values)).isStraight
    ensures (exists h :: 6 <= h <= 14 && multiset(values) == RunOf(h)) || multiset(values) == multiset(Wheel)
  {
    var s := SortDesc(values);
    if IsRun(s) {
      RunOfSortedRun(values);
    } else {
      assert s == Wheel;
    }
  }

  /** checkStraight on five sorted ranks reports a straight exactly when the
      ranks are five consecutive values (high card = the top one) or
      A, 5, 4, 3, 2 (high card 5). */
  lemma StraightMeaning(values: seq<int>)
    requires |values| == 5 && ValidRanks(values)
    ensures StraightOf(SortDesc(values)).isStraight
        <==> (exists h :: 6 <= h <= 14 && multiset(values) == RunOf(h))
             || multiset(values) == multiset(Wheel)
    ensures forall h :: multiset(values) == RunOf(h) ==> StraightOf(SortDesc(values)).highCard == h
    ensures multiset(values) == multiset(Wheel) ==> StraightOf(SortDesc(values)).highCard == 5
  {
    if StraightOf(SortDesc(values)).isStraight {
      StraightIsRunOrWheel(values);
    }
    forall h | multiset(values) == RunOf(h)
      ensures StraightOf(SortDesc(values)).highCard == h
    {
      RunStraight(values, h);
    }
    if multiset(values) == multiset(Wheel) {
      WheelStraight(values);
    }
    if exists h :: 6 <= h <= 14 && multiset(values) == RunOf(h) {
      var h :| 6 <= h <= 14 && multiset(values) == RunOf(h);
      RunStraight(values, h);
    }
  }

  lemma {:induction false} NoDupMultiplicity(s: seq<int>, x: int)
    requires NoDup(s) && x in s
    ensures multiset(s)[x] == 1
  {
    assert s == [s[0]] + s[1..];
    if s[0] == x {
      assert x !in s[1..];
    } else {
      NoDupMultiplicity(s[1..], x);
    }
  }

  lemma SinglesProfile(m: map<int, nat>, r: int)
    requires forall k :: k in m ==> m[k] == 1
    requires r in m && 2 <= r <= 14
    ensures At(Profile(m), 0) == 1
  {
    var ks := KeysOf(m);
    var mults := seq(|ks|, i requires 0 <= i < |ks| => m[ks[i]]);
    assert r in ks;
    var p := Profile(m);
    assert p == SortDesc(mults);
    assert p[0] in multiset(mults);
    var i :| 0 <= i < |mults| && mults[i] == p[0];
    assert ks[i] in m;
  }

  /** A repeat-free rank list counts every rank once, so its sorted count
      list starts with 1. */
  lemma DistinctRanksProfile(values: seq<int>)
    requires values != [] && NoDup(values) && ValidRanks(values)
    ensures At(Profile(RankCounts(values)), 0) == 1
  {
    var m := RankCounts(values);
    forall k | k in m ensures m[k] == 1 {
      NoDupMultiplicity(values, k);
    }
    assert values[0] in values;
    SinglesProfile(m, values[0]);
  }

  /** The first two links of the priority chain. */
  lemma ChainTop(sorted: seq<int>, isFlush: bool, straight: StraightResult, profile: seq<int>, kicker: int)
    requires |sorted| == 5
    ensures Chain(sorted, isFlush, straight, profile, kicker).ranking == RoyalFlush
        <==> isFlush && straight.isStraight && sorted[0] == Ace && sorted[1] == King
    ensures Chain(sorted, isFlush, straight, profile, kicker).ranking >= StraightFlush
        <==> isFlush && straight.isStraight
    ensures Chain(sorted, isFlush, straight, profile, kicker).ranking >= StraightFlush
        ==> Chain(sorted, isFlush, straight, profile, kicker).value == straight.highCard
  {
  }

  /** The counts and kicker number Classify hands to the chain. */
  function ProfileOf(sorted: seq<int>): seq<int>
  {
    Profile(RankCounts(sorted))
  }

  function KickerOf(sorted: seq<int>): int
  {
    Base15(KickerOrder(RankCounts(sorted)))
  }

  lemma ClassifyIsChain(sorted: seq<int>, isFlush: bool)
    requires |sorted| == 5
    ensures Classify(sorted, isFlush)
         == Chain(sorted, isFlush, StraightOf(sorted), ProfileOf(sorted), KickerOf(sorted))
  {
  }

  /** Five cards ranked A, 5, 4, 3, 2 form a straight worth 5, not 14: a
      STRAIGHT of mixed suits, a STRAIGHT_FLUSH (never a royal) of one suit. */
  lemma WheelIsFiveHigh(cards: seq<Card>)
    requires |cards| == 5 && multiset(Ranks(cards)) == multiset(Wheel)
    ensures !IsFlush(cards) ==> Evaluate5(cards) == HandResult(Straight, 5)
    ensures IsFlush(cards) ==> Evaluate5(cards) == HandResult(StraightFlush, 5)
  {
    var values := Ranks(cards);
    SortedWheel(values);
    assert Evaluate5(cards) == Classify(Wheel, IsFlush(cards));
    ClassifyWheel(IsFlush(cards));
  }

  lemma ClassifyWheel(isFlush: bool)
    ensures Classify(Wheel, isFlush) == HandResult(if isFlush then StraightFlush else Straight, 5)
  {
    assert !IsRun(Wheel) by { assert Wheel[0] - Wheel[1] != 1; }
    DistinctRanksProfile(Wheel);
    ClassifyIsChain(Wheel, isFlush);
    ChainWheel(Wheel, isFlush, ProfileOf(Wheel), KickerOf(Wheel));
  }

  lemma ChainWheel(sorted: seq<int>, isFlush: bool, profile: seq<int>, kicker: int)
    requires |sorted| == 5 && sorted[1] == 5 && At(profile, 0) == 1
    ensures Chain(sorted, isFlush, StraightResult(true, 5), profile, kicker)
         == HandResult(if isFlush then StraightFlush else Straight, 5)
  {
  }

  /** A straight whose top two cards are the ace and the king is the run
      from the ace down to the ten, and nothing else is. */
  lemma AceHighStraight(values: seq<int>)
    requires |values| == 5 && ValidRanks(values)
    ensures (StraightOf(SortDesc(values)).isStraight && SortDesc(values)[0] == Ace && SortDesc(values)[1] == King)
        <==> multiset(values) == RunOf(14)
  {
    AceHighRun(SortDesc(values), values);
  }

  lemma AceHighRun(s: seq<int>, values: seq<int>)
    requires |s| == 5 && SortedDesc(s) && multiset(s) == multiset(values) && ValidRanks(values)
    ensures (StraightOf(s).isStraight && s[0] == Ace && s[1] == King) <==> multiset(values) == RunOf(14)
    ensures StraightOf(s).isStraight && s[0] == Ace && s[1] == King ==> StraightOf(s).highCard == 14
  {
    RunFacts(14);
    if StraightOf(s).isStraight && s[0] == Ace && s[1] == King {
      AceKingStraight(s);
    }
    if multiset(values) == RunOf(14) {
      SortedRunShape(s, 14);
    }
  }

  lemma AceKingStraight(s: seq<int>)
    requires |s| == 5 && StraightOf(s).isStraight && s[0] == Ace && s[1] == King
    ensures s == RunFrom(14)
  {
    assert s != Wheel by {
      assert s[1] != Wheel[1];
    }
    RunShape(s);
  }

  /** ROYAL_FLUSH is exactly a one-suit run from the ace down to the ten,
      and its value is 14; STRAIGHT_FLUSH or better is exactly a one-suit
      straight. */
  lemma RoyalFlushMeaning(cards: seq<Card>)
    requires |cards| == 5
    ensures Evaluate5(cards).ranking == RoyalFlush <==> IsFlush(cards) && multiset(Ranks(cards)) == RunOf(14)
    ensures Evaluate5(cards).ranking == RoyalFlush ==> Evaluate5(cards).value == 14
    ensures Evaluate5(cards).ranking >= StraightFlush
        <==> IsFlush(cards) && StraightOf(SortDesc(Ranks(cards))).isStraight
  {
    var values := Ranks(cards);
    var s := SortDesc(values);
    ClassifyIsChain(s, IsFlush(cards));
    ChainTop(s, IsFlush(cards), StraightOf(s), ProfileOf(s), KickerOf(s));
    RanksValid(cards);
    AceHighRun(s, values);
  }

  /** The straight links of the priority chain are taken only on a
      straight, and are valued by its high card. */
  lemma ChainStraightValue(sorted: seq<int>, isFlush: bool, straight: StraightResult, profile: seq<int>, kicker: int)
    requires |sorted| == 5
    ensures Chain(sorted, isFlush, straight, profile, kicker).ranking in {Straight, StraightFlush, RoyalFlush}
        ==> straight.isStraight && Chain(sorted, isFlush, straight, profile, kicker).value == straight.highCard
  {
  }

  /** STRAIGHT, STRAIGHT_FLUSH and ROYAL_FLUSH are valued by checkStraight's
      high card: the top rank h of a run h, h-1, ..., h-4, or 5 for the
      wheel. */
  lemma StraightValue(cards: seq<Card>)
    requires |cards| == 5
    ensures Evaluate5(cards).ranking in {Straight, StraightFlush, RoyalFlush}
        ==> Evaluate5(cards).value == StraightOf(SortDesc(Ranks(cards))).highCard
    ensures Evaluate5(cards).ranking in {Straight, StraightFlush, RoyalFlush}
        ==> (exists h :: 6 <= h <= 14 && multiset(Ranks(cards)) == RunOf(h) && Evaluate5(cards).value == h)
            || (multiset(Ranks(cards)) == multiset(Wheel) && Evaluate5(cards).value == 5)
  {
    var values := Ranks(cards);
    var s := SortDesc(values);
    RanksValid(cards);
    ClassifyIsChain(s, IsFlush(cards));
    ChainStraightValue(s, IsFlush(cards), StraightOf(s), ProfileOf(s), KickerOf(s));
    StraightMeaning(values);
    if Evaluate5(cards).ranking in {Straight, StraightFlush, RoyalFlush} && multiset(values) != multiset(Wheel) {
      var h :| 6 <= h <= 14 && multiset(values) == RunOf(h);
      assert Evaluate5(cards).value == h;
    }
  }

  // ---------------------------------------------------------------------
  // Kicker encoding

  /** a comes before b in dictionary order. */
  predicate LexLess(a: seq<int>, b: seq<int>)
    requires |a| == |b|
  {
    a != [] && (a[0] < b[0] || (a[0] == b[0] && LexLess(a[1..], b[1..])))
  }

  predicate Digits(ds: seq<int>)
  {
    forall i :: 0 <= i < |ds| ==> 0 <= ds[i] < 15
  }

  function Pow15(n: nat): nat
  {
    if n == 0 then 1 else 15 * Pow15(n - 1)
  }

  lemma {:induction false} MulAtLeast(d: int, p: int)
    requires d >= 1 && p > 0
    ensures d * p >= p
    decreases d
  {
    if d > 1 {
      MulAtLeast(d - 1, p);
      assert d * p == (d - 1) * p + p;
    }
  }

  lemma MulStep(x: int, y: int, p: int)
    requires x < y && p > 0
    ensures x * p + p <= y * p
  {
    var d := y - x;
    assert y * p == x * p + d * p;
    MulAtLeast(d, p);
  }

  /** A number written with n digits below 15 is below 15^n. */
  lemma {:induction false} Base15Bound(ds: seq<int>)
    requires Digits(ds)
    ensures 0 <= Base15(ds) < Pow15(|ds|)
  {
    if ds != [] {
      var init := ds[..|ds| - 1];
      Base15Bound(init);
      var x := Base15(init);
      var p := Pow15(|init|);
      assert x * 15 + ds[|ds| - 1] < p * 15 by {
        MulStep(x, p, 15);
      }
    }
  }

  /** Peeling off the leading digit. */
  lemma {:induction false} Base15Front(ds: seq<int>)
    requires ds != []
    ensures Base15(ds) == ds[0] * Pow15(|ds| - 1) + Base15(ds[1..])
  {
    if |ds| > 1 {
      var init := ds[..|ds| - 1];
      var n := |ds| - 2;
      Base15Front(init);
      assert init[1..] == ds[1..][..|ds[1..]| - 1];
      var t := Base15(init[1..]);
      assert Base15(ds) == (ds[0] * Pow15(n) + t) * 15 + ds[|ds| - 1];
      assert (ds[0] * Pow15(n) + t) * 15 == ds[0] * (Pow15(n) * 15) + t * 15;
    } else {
      assert ds[1..] == [] && ds[..0] == [];
    }
  }

  /** With every digit below 15, comparing two equally long kicker numbers
      is comparing their rank lists in dictionary order. */
  lemma {:induction false} Base15Lex(a: seq<int>, b: seq<int>)
    requires |a| == |b| && Digits(a) && Digits(b)
    ensures Base15(a) < Base15(b) <==> LexLess(a, b)
    ensures Base15(a) == Base15(b) <==> a == b
  {
    if a != [] {
      var p := Pow15(|a| - 1);
      Base15Front(a);
      Base15Front(b);
      Base15Bound(a[1..]);
      Base15Bound(b[1..]);
      Base15Lex(a[1..], b[1..]);
      if a[0] < b[0] {
        MulStep(a[0], b[0], p);
      } else if b[0] < a[0] {
        MulStep(b[0], a[0], p);
      } else {
        assert a == [a[0]] + a[1..] && b == [b[0]] + b[1..];
      }
    }
  }

  /** The kicker order is the only arrangement of the dictionary's ranks
      that the comparator accepts, so the order in which the dictionary
      lists its keys has no effect. */
  lemma {:induction false} KickerOrderUnique(m: map<int, nat>, t: seq<int>)
    requires forall y :: y in t ==> y in m
    requires multiset(t) == multiset(KeysOf(m)) && SortedByCount(m, t)
    ensures t == KickerOrder(m)
  {
    SortedByCountUnique(m, t, KickerOrder(m));
  }

  lemma {:induction false} SortedByCountUnique(m: map<int, nat>, a: seq<int>, b: seq<int>)
    requires (forall y :: y in a ==> y in m) && (forall y :: y in b ==> y in m)
    requires SortedByCount(m, a) && SortedByCount(m, b) && multiset(a) == multiset(b)
    ensures a == b
    decreases |a|
  {
    assert |a| == |multiset(a)| == |b|;
    if a != [] {
      assert a[0] in multiset(b) && b[0] in multiset(a);
      assert a[0] == b[0];
      assert a == [a[0]] + a[1..] && b == [b[0]] + b[1..];
      assert multiset(a) == multiset(a[1..]) + multiset{a[0]};
      assert multiset(b) == multiset(b[1..]) + multiset{a[0]};
      MultisetCancel(multiset(a[1..]), multiset(b[1..]), a[0]);
      SortedByCountUnique(m, a[1..], b[1..]);
    }
  }

  /** The ranks of five cards in kicker order. */
  function Kickers(cards: seq<Card>): seq<int>
  {
    KickerOrder(RankCounts(SortDesc(Ranks(cards))))
  }

  predicate KickerCategory(ranking: int)
  {
    ranking in {FourOfAKind, FullHouse, ThreeOfAKind, TwoPair, Pair}
  }

  /** The kicker-valued links of the priority chain. */
  lemma ChainKickerValue(sorted: seq<int>, isFlush: bool, straight: StraightResult, profile: seq<int>, kicker: int)
    requires |sorted| == 5 && KickerCategory(Chain(sorted, isFlush, straight, profile, kicker).ranking)
    ensures Chain(sorted, isFlush, straight, profile, kicker).value == kicker
  {
  }

  lemma ClassifyKickerValue(sorted: seq<int>, isFlush: bool)
    requires |sorted| == 5 && KickerCategory(Classify(sorted, isFlush).ranking)
    ensures Classify(sorted, isFlush).value == Base15(KickerOrder(RankCounts(sorted)))
  {
    ClassifyIsChain(sorted, isFlush);
    ChainKickerValue(sorted, isFlush, StraightOf(sorted), ProfileOf(sorted), KickerOf(sorted));
  }

  lemma KickerOrderRanks(m: map<int, nat>)
    ensures forall x :: x in KickerOrder(m) ==> 2 <= x <= 14
  {
    forall x | x in KickerOrder(m) ensures 2 <= x <= 14 {
      assert x in multiset(KeysOf(m));
    }
  }

  lemma KickerDigits(cards: seq<Card>)
    ensures Digits(Kickers(cards))
  {
    var ks := Kickers(cards);
    KickerOrderRanks(RankCounts(SortDesc(Ranks(cards))));
    forall i | 0 <= i < |ks| ensures 0 <= ks[i] < 15 {
      assert ks[i] in ks;
    }
  }

  // ---------------------------------------------------------------------
  // Values that ignore kickers

  lemma ChainTopCard(sorted: seq<int>, isFlush: bool, straight: StraightResult, profile: seq<int>, kicker: int)
    requires |sorted| == 5
    requires Chain(sorted, isFlush, straight, profile, kicker).ranking in {Flush, HighCard}
    ensures Chain(sorted, isFlush, straight, profile, kicker).value == sorted[0]
  {
  }

  lemma ClassifyTopCard(sorted: seq<int>, isFlush: bool)
    requires |sorted| == 5 && Classify(sorted, isFlush).ranking in {Flush, HighCard}
    ensures Classify(sorted, isFlush).value == sorted[0]
  {
    ClassifyIsChain(sorted, isFlush);
    ChainTopCard(sorted, isFlush, StraightOf(sorted), ProfileOf(sorted), KickerOf(sorted));
  }

  /** FLUSH and HIGH_CARD are valued by the top card alone. */
  lemma TopCardValue(cards: seq<Card>)
    requires |cards| == 5
    requires Evaluate5(cards).ranking in {Flush, HighCard}
    ensures Evaluate5(cards).value in Ranks(cards)
    ensures forall i :: 0 <= i < 5 ==> cards[i].rank <= Evaluate5(cards).value
  {
    var s := SortDesc(Ranks(cards));
    ClassifyTopCard(s, IsFlush(cards));
    assert s[0] in multiset(Ranks(cards));
    forall i | 0 <= i < 5 ensures cards[i].rank <= s[0] {
      assert Ranks(cards)[i] in multiset(s);
    }
  }

  /** Two FLUSH or two HIGH_CARD hands with the same top rank tie, whatever
      their other cards and in whatever order the cards come. */
  lemma TopCardTies(p: seq<Card>, q: seq<Card>, top: int)
    requires |p| == 5 && |q| == 5
    requires Evaluate5(p).ranking == Evaluate5(q).ranking && Evaluate5(p).ranking in {Flush, HighCard}
    requires (exists i :: 0 <= i < 5 && p[i].rank == top) && (exists i :: 0 <= i < 5 && q[i].rank == top)
    requires forall i :: 0 <= i < 5 ==> p[i].rank <= top && q[i].rank <= top
    ensures CompareHands(Evaluate5(p), Evaluate5(q)) == 0
  {
    TopCardValue(p);
    TopCardValue(q);
    var i :| 0 <= i < 5 && p[i].rank == top;
    var j :| 0 <= j < 5 && q[j].rank == top;
    var k :| 0 <= k < 5 && Ranks(p)[k] == Evaluate5(p).value;
    var l :| 0 <= l < 5 && Ranks(q)[l] == Evaluate5(q).value;
    assert Ranks(p)[i] == p[i].rank && Ranks(q)[j] == q[j].rank;
  }

  /** Two high-card hands that differ only in their second card tie. */
  lemma HighCardKickersIgnored()
    ensures Evaluate5(AceKingHigh()) == Evaluate5(AceQueenHigh()) == HandResult(HighCard, 14)
  {
    AceKingHighValue();
    AceQueenHighValue();
  }

  function AceKingHigh(): seq<Card>
  {
    [Card(14, Spades), Card(13, Hearts), Card(8, Clubs), Card(5, Spades), Card(3, Diamonds)]
  }

  function AceQueenHigh(): seq<Card>
  {
    [Card(14, Hearts), Card(12, Hearts), Card(8, Spades), Card(5, Clubs), Card(3, Clubs)]
  }

  lemma AceKingHighValue()
    ensures Evaluate5(AceKingHigh()) == HandResult(HighCard, 14)
  {
    var p := AceKingHigh();
    var pv := [14, 13, 8, 5, 3];
    assert Ranks(p) == pv by {
      assert forall i :: 0 <= i < 5 ==> Ranks(p)[i] == pv[i];
    }
    assert p[1].suit != p[0].suit;
    assert pv[1] - pv[2] != 1;
    ListedHighCard(p, pv);
  }

  lemma AceQueenHighValue()
    ensures Evaluate5(AceQueenHigh()) == HandResult(HighCard, 14)
  {
    var q := AceQueenHigh();
    var qv := [14, 12, 8, 5, 3];
    assert Ranks(q) == qv by {
      assert forall i :: 0 <= i < 5 ==> Ranks(q)[i] == qv[i];
    }
    assert q[2].suit != q[0].suit;
    assert qv[0] - qv[1] != 1;
    ListedHighCard(q, qv);
  }

  /** HighCardHand for cards listed high to low. */
  lemma ListedHighCard(cards: seq<Card>, values: seq<int>)
    requires |cards| == 5 && !IsFlush(cards) && values == Ranks(cards)
    requires StrictlyDesc(values) && !IsRun(values) && values != Wheel
    ensures Evaluate5(cards) == HandResult(HighCard, values[0])
  {
    SortedDescUnique(SortDesc(values), values);
    HighCardHand(cards);
  }

  lemma ChainHighCard(sorted: seq<int>, straight: StraightResult, profile: seq<int>, kicker: int)
    requires |sorted| == 5 && !straight.isStraight && At(profile, 0) == 1
    ensures Chain(sorted, false, straight, profile, kicker) == HandResult(HighCard, sorted[0])
  {
  }

  /** Sorting keeps the ranks valid. */
  lemma SortedValid(values: seq<int>)
    requires ValidRanks(values)
    ensures ValidRanks(SortDesc(values))
  {
    var s := SortDesc(values);
    assert multiset(s) == multiset(values);
    forall x | x in s ensures 2 <= x <= 14 {
      assert x in multiset(s);
      assert x in multiset(values);
      assert x in values;
    }
  }

  /** Five cards of distinct ranks, not all of one suit and forming no
      straight once sorted, are HIGH_CARD valued by their top rank, in
      whatever order the cards come. */
  lemma HighCardHand(cards: seq<Card>)
    requires |cards| == 5 && !IsFlush(cards) && NoDup(Ranks(cards))
    requires !IsRun(SortDesc(Ranks(cards))) && SortDesc(Ranks(cards)) != Wheel
    ensures Evaluate5(cards) == HandResult(HighCard, SortDesc(Ranks(cards))[0])
  {
    var s := SortDesc(Ranks(cards));
    NoDupPermutation(Ranks(cards), s);
    RanksValid(cards);
    SortedValid(Ranks(cards));
    DistinctRanksProfile(s);
    ClassifyIsChain(s, false);
    ChainHighCard(s, StraightOf(s), ProfileOf(s), KickerOf(s));
  }

  // ---------------------------------------------------------------------
  // Best hand and comparison

  /** compareHands is antisymmetric and transitive in sign, and compares the
      ranking before the value. */
  lemma CompareHandsOrder(a: HandResult, b: HandResult, c: HandResult)
    ensures CompareHands(a, b) == -CompareHands(b, a)
    ensures a.ranking > b.ranking ==> CompareHands(a, b) > 0
    ensures CompareHands(a, b) > 0 && CompareHands(b, c) > 0 ==> CompareHands(a, c) > 0
    ensures CompareHands(a, b) >= 0 && CompareHands(b, c) >= 0 ==> CompareHands(a, c) >= 0
  {
  }

  /** The running best of getBestFiveCardHand's loop, over results ranked
      1 or more, is one of them; none beats it, and every one scanned before
      it is strictly worse. */
  lemma {:induction false} FirstBestIsFirstMaximum(hs: seq<HandResult>) returns (i: nat)
    requires hs != [] && forall j :: 0 <= j < |hs| ==> hs[j].ranking >= HighCard
    ensures i < |hs| && FirstBest(hs) == hs[i]
    ensures forall j :: 0 <= j < |hs| ==> CompareHands(hs[j], FirstBest(hs)) <= 0
    ensures forall j :: 0 <= j < i ==> CompareHands(hs[j], FirstBest(hs)) < 0
  {
    var n := |hs| - 1;
    var init := hs[..n];
    if init == [] {
      i := 0;
    } else {
      var i0 := FirstBestIsFirstMaximum(init);
      if Beats(hs[n], FirstBest(init)) {
        i := n;
      } else {
        i := i0;
      }
    }
  }

  /** getBestFiveCardHand returns the evaluation of one of the five-card
      subsets; no subset evaluates higher under compareHands, and every
      subset enumerated before it evaluates strictly lower (Scores is the
      evaluation of each subset, in order). */
  lemma BestHandIsFirstMaximum(cards: seq<Card>) returns (i: nat)
    requires |cards| >= 5
    ensures i < |Combos(cards, 5)| && BestHand(cards) == Scores(Combos(cards, 5))[i]
    ensures forall j :: 0 <= j < |Combos(cards, 5)| ==>
      CompareHands(Scores(Combos(cards, 5))[j], BestHand(cards)) <= 0
    ensures forall j :: 0 <= j < i ==>
      CompareHands(Scores(Combos(cards, 5))[j], BestHand(cards)) < 0
  {
    var combos := Combos(cards, 5);
    if |cards| == 5 {
      CombosBaseCases(cards);
      i := 0;
    } else {
      BinomPositive(|cards|, 5);
      i := FirstBestIsFirstMaximum(Scores(combos));
    }
  }
}
