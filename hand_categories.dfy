/** What each ranking of evaluate5Cards means in terms of the cards: how
    often each rank occurs, whether the five share a suit, and whether the
    ranks run. The evaluator reads the rank counts through their sorted
    list (the profile); the lemmas here show that list's first two entries
    are the largest counts, and so tie each ranking to the usual poker
    definition of its category. */
module HandCategories {

  import opened Sequences
  import opened Cards
  import opened HandEvaluator
  import opened HandProperties

  /** Some rank occurs exactly n times. */
  ghost predicate HasCount(ranks: multiset<int>, n: nat)
  {
    exists r :: ranks[r] == n
  }

  /** Two different ranks occur exactly twice each. */
  ghost predicate TwoPairs(ranks: multiset<int>)
  {
    exists a, b :: a != b && ranks[a] == 2 && ranks[b] == 2
  }

  /** One rank occurs exactly twice and every other rank at most once. */
  ghost predicate OnePair(ranks: multiset<int>)
  {
    exists r :: ranks[r] == 2 && forall q :: q != r ==> ranks[q] <= 1
  }

  /** Five consecutive ranks, or A-5-4-3-2. */
  ghost predicate IsStraightRanks(ranks: multiset<int>)
  {
    (exists h :: 6 <= h <= 14 && ranks == RunOf(h)) || ranks == multiset(Wheel)
  }

  /** The category decision: the strongest category whose condition
      holds. */
  function CategoryOf(flush: bool, straight: bool, aceHigh: bool, four: bool, fullHouse: bool,
                      three: bool, twoPair: bool, pair: bool): int
  {
    if flush && straight then (if aceHigh then RoyalFlush else StraightFlush)
    else if four then FourOfAKind
    else if fullHouse then FullHouse
    else if flush then Flush
    else if straight then Straight
    else if three then ThreeOfAKind
    else if twoPair then TwoPair
    else if pair then Pair
    else HighCard
  }

  /** The category of five cards by the usual poker definitions: one suit,
      a straight, and how often each rank occurs. */
  ghost function Category(cards: seq<Card>): int
    requires |cards| == 5
  {
    var ranks := multiset(Ranks(cards));
    CategoryOf(IsFlush(cards), IsStraightRanks(ranks), ranks == RunOf(14), HasCount(ranks, 4),
               HasCount(ranks, 3) && HasCount(ranks, 2), HasCount(ranks, 3), TwoPairs(ranks),
               HasCount(ranks, 2))
  }

  // ---------------------------------------------------------------------
  // Counting

  /** Two different values together occur at most as often as the list is
      long. */
  lemma {:induction false} TwoValuesBound(s: seq<int>, a: int, b: int)
    requires a != b
    ensures multiset(s)[a] + multiset(s)[b] <= |s|
  {
    if s != [] {
      var t := s[..|s| - 1];
      assert s == t + [s[|s| - 1]];
      TwoValuesBound(t, a, b);
    }
  }

  lemma {:induction false} ThreeValuesBound(s: seq<int>, a: int, b: int, c: int)
    requires a != b && b != c && a != c
    ensures multiset(s)[a] + multiset(s)[b] + multiset(s)[c] <= |s|
  {
    if s != [] {
      var t := s[..|s| - 1];
      assert s == t + [s[|s| - 1]];
      ThreeValuesBound(t, a, b, c);
    }
  }

  /** A value occurs at least twice exactly when it sits at two positions. */
  lemma {:induction false} TwoOccurrences(s: seq<int>, x: int)
    ensures multiset(s)[x] >= 2 <==> exists i, j :: 0 <= i < j < |s| && s[i] == x && s[j] == x
  {
    if s != [] {
      var t := s[..|s| - 1];
      var y := s[|s| - 1];
      assert s == t + [y];
      TwoOccurrences(t, x);
      if multiset(s)[x] >= 2 {
        if y == x {
          assert x in multiset(t);
          var i :| 0 <= i < |t| && t[i] == x;
          assert s[i] == x && s[|s| - 1] == x;
        } else {
          var i, j :| 0 <= i < j < |t| && t[i] == x && t[j] == x;
          assert s[i] == x && s[j] == x;
        }
      }
      if exists i, j :: 0 <= i < j < |s| && s[i] == x && s[j] == x {
        var i, j :| 0 <= i < j < |s| && s[i] == x && s[j] == x;
        if j < |t| {
          assert t[i] == x && t[j] == x;
        } else {
          assert t[i] == x;
          assert x in t;
        }
      }
    }
  }

  // ---------------------------------------------------------------------
  // The profile

  /** The ranks present, in the order the profile's count list visits them. */
  ghost function RankKeys(v: seq<int>): (ks: seq<int>)
    requires ValidRanks(v)
    ensures forall r :: r in ks <==> r in v
    ensures NoDup(ks)
  {
    KeysOf(RankCounts(v))
  }

  /** The count of each rank present, before sorting; the profile is this
      list sorted high to low. */
  ghost function CountList(v: seq<int>): (c: seq<int>)
    requires ValidRanks(v)
    ensures |c| == |RankKeys(v)|
    ensures forall i :: 0 <= i < |c| ==> c[i] == multiset(v)[RankKeys(v)[i]]
    ensures ProfileOf(v) == SortDesc(c)
  {
    var m := RankCounts(v);
    var ks := KeysOf(m);
    seq(|ks|, i requires 0 <= i < |ks| => m[ks[i]])
  }

  /** The count list holds exactly the counts of the ranks present. */
  lemma CountListMembers(v: seq<int>, x: int)
    requires ValidRanks(v)
    ensures x in CountList(v) <==> exists r :: r in v && multiset(v)[r] == x
  {
    var ks := RankKeys(v);
    var c := CountList(v);
    if x in c {
      var i :| 0 <= i < |c| && c[i] == x;
      assert ks[i] in ks;
    }
    if exists r :: r in v && multiset(v)[r] == x {
      var r :| r in v && multiset(v)[r] == x;
      var i :| 0 <= i < |ks| && ks[i] == r;
      assert c[i] == x;
    }
  }

  /** The profile is a descending list whose entries are exactly the counts
      of the ranks present. */
  lemma ProfileMembers(v: seq<int>)
    requires ValidRanks(v)
    ensures SortedDesc(ProfileOf(v))
    ensures v != [] ==> ProfileOf(v) != []
    ensures forall x :: x in ProfileOf(v) <==> exists r :: r in v && multiset(v)[r] == x
  {
    var c := CountList(v);
    var p := ProfileOf(v);
    assert multiset(p) == multiset(c);
    if v != [] {
      assert v[0] in RankKeys(v);
    }
    forall x ensures x in p <==> exists r :: r in v && multiset(v)[r] == x {
      CountListMembers(v, x);
      assert x in p <==> x in multiset(c);
    }
  }

  /** A count repeats in the count list exactly when two different ranks
      share it. */
  lemma CountListRepeat(v: seq<int>, x: int)
    requires ValidRanks(v)
    ensures (exists i, j :: 0 <= i < j < |CountList(v)| && CountList(v)[i] == x && CountList(v)[j] == x)
        <==> exists a, b :: a != b && a in v && b in v && multiset(v)[a] == x && multiset(v)[b] == x
  {
    if exists i, j :: 0 <= i < j < |CountList(v)| && CountList(v)[i] == x && CountList(v)[j] == x {
      var i, j :| 0 <= i < j < |CountList(v)| && CountList(v)[i] == x && CountList(v)[j] == x;
      RepeatedCountRanks(v, x, i, j);
    }
    if exists a, b :: a != b && a in v && b in v && multiset(v)[a] == x && multiset(v)[b] == x {
      var a, b :| a != b && a in v && b in v && multiset(v)[a] == x && multiset(v)[b] == x;
      SharedCountPositions(v, x, a, b);
    }
  }

  lemma RepeatedCountRanks(v: seq<int>, x: int, i: int, j: int)
    requires ValidRanks(v)
    requires 0 <= i < j < |CountList(v)| && CountList(v)[i] == x && CountList(v)[j] == x
    ensures exists a, b :: a != b && a in v && b in v && multiset(v)[a] == x && multiset(v)[b] == x
  {
    var ks := RankKeys(v);
    assert ks[i] in ks && ks[j] in ks && ks[i] != ks[j];
    assert multiset(v)[ks[i]] == x && multiset(v)[ks[j]] == x;
  }

  lemma SharedCountPositions(v: seq<int>, x: int, a: int, b: int)
    requires ValidRanks(v)
    requires a != b && a in v && b in v && multiset(v)[a] == x && multiset(v)[b] == x
    ensures exists i, j :: 0 <= i < j < |CountList(v)| && CountList(v)[i] == x && CountList(v)[j] == x
  {
    var ks := RankKeys(v);
    var c := CountList(v);
    assert a in ks && b in ks;
    var i :| 0 <= i < |ks| && ks[i] == a;
    var j :| 0 <= j < |ks| && ks[j] == b;
    assert c[i] == x && c[j] == x;
    if j < i {
      assert 0 <= j < i < |c| && c[j] == x && c[i] == x;
    } else {
      assert 0 <= i < j < |c| && c[i] == x && c[j] == x;
    }
  }

  /** A count repeats in the profile exactly when two different ranks share
      it. */
  lemma ProfileRepeat(v: seq<int>, x: int)
    requires ValidRanks(v)
    ensures (exists i, j :: 0 <= i < j < |ProfileOf(v)| && ProfileOf(v)[i] == x && ProfileOf(v)[j] == x)
        <==> exists a, b :: a != b && a in v && b in v && multiset(v)[a] == x && multiset(v)[b] == x
  {
    var c := CountList(v);
    var p := ProfileOf(v);
    assert multiset(p) == multiset(c);
    TwoOccurrences(p, x);
    TwoOccurrences(c, x);
    CountListRepeat(v, x);
  }

  /** The first profile entry is the largest rank count: some rank occurs
      that often and none more often. */
  lemma ProfileMax(v: seq<int>)
    requires v != [] && ValidRanks(v)
    ensures exists r :: r in v && multiset(v)[r] == At(ProfileOf(v), 0)
    ensures forall r :: multiset(v)[r] <= At(ProfileOf(v), 0)
  {
    var p := ProfileOf(v);
    ProfileMembers(v);
    assert p[0] in p;
    forall r ensures multiset(v)[r] <= At(p, 0) {
      if r in v {
        assert multiset(v)[r] in p;
        var k :| 0 <= k < |p| && p[k] == multiset(v)[r];
        assert p[0] >= p[k];
      }
    }
  }

  /** For five ranks, the tests evaluate5Cards applies to the first two
      profile entries mean: four of a rank; three of a rank; three of one
      and two of another; two pairs; a pair and nothing more frequent. */
  lemma ProfileShape(v: seq<int>)
    requires |v| == 5 && ValidRanks(v)
    ensures At(ProfileOf(v), 0) == 4 <==> HasCount(multiset(v), 4)
    ensures At(ProfileOf(v), 0) == 3 <==> HasCount(multiset(v), 3)
    ensures At(ProfileOf(v), 0) == 3 && At(ProfileOf(v), 1) == 2
        <==> HasCount(multiset(v), 3) && HasCount(multiset(v), 2)
    ensures At(ProfileOf(v), 0) == 2 && At(ProfileOf(v), 1) == 2 <==> TwoPairs(multiset(v))
    ensures At(ProfileOf(v), 0) == 2 <==> HasCount(multiset(v), 2) && !HasCount(multiset(v), 3)
  {
    var p := ProfileOf(v);
    ProfileMembers(v);
    ProfileMax(v);
    var r0 :| r0 in v && multiset(v)[r0] == p[0];
    TopCount(v, 4, r0);
    TopCount(v, 3, r0);
    TopCount(v, 2, r0);
    if HasCount(multiset(v), 3) && HasCount(multiset(v), 2) {
      ThreesAndTwos(v);
    }
    if p[0] == 3 && At(p, 1) == 2 {
      assert p[1] in p;
    }
    if TwoPairs(multiset(v)) {
      TwoPairsProfile(v, r0);
    }
    if p[0] == 2 && At(p, 1) == 2 {
      ProfileRepeat(v, 2);
      assert 0 < 1 < |p| && p[0] == 2 && p[1] == 2;
    }
  }

  /** With five ranks, a count of n (2 to 4) present is the top count
      exactly when no rank occurs more often. */
  lemma TopCount(v: seq<int>, n: nat, r0: int)
    requires |v| == 5 && ValidRanks(v) && 2 <= n <= 4
    requires r0 in v && multiset(v)[r0] == At(ProfileOf(v), 0)
    requires forall r :: multiset(v)[r] <= At(ProfileOf(v), 0)
    ensures At(ProfileOf(v), 0) == n <==> HasCount(multiset(v), n) && (n == 2 ==> !HasCount(multiset(v), 3))
  {
    var top := At(ProfileOf(v), 0);
    if HasCount(multiset(v), n) && (n == 2 ==> !HasCount(multiset(v), 3)) {
      var r :| multiset(v)[r] == n;
      if top != n {
        TwoValuesBound(v, r0, r);
      }
    }
  }

  /** Three of one rank and two of another give the profile [3, 2]. */
  lemma ThreesAndTwos(v: seq<int>)
    requires |v| == 5 && ValidRanks(v)
    requires HasCount(multiset(v), 3) && HasCount(multiset(v), 2)
    ensures At(ProfileOf(v), 0) == 3 && At(ProfileOf(v), 1) == 2
  {
    var p := ProfileOf(v);
    ProfileMembers(v);
    ProfileMax(v);
    var r0 :| r0 in v && multiset(v)[r0] == p[0];
    TopCount(v, 3, r0);
    var r2 :| multiset(v)[r2] == 2;
    assert r2 in v;
    assert 2 in p;
    var k :| 0 <= k < |p| && p[k] == 2;
    assert 1 <= k;
    assert p[1] >= 2;
    if p[1] == 3 {
      ProfileRepeat(v, 3);
      assert 0 < 1 < |p| && p[0] == 3 && p[1] == 3;
      var a, b :| a != b && a in v && b in v && multiset(v)[a] == 3 && multiset(v)[b] == 3;
      TwoValuesBound(v, a, b);
    }
  }

  /** Two different ranks occurring twice each give the profile [2, 2, ...]. */
  lemma TwoPairsProfile(v: seq<int>, r0: int)
    requires |v| == 5 && ValidRanks(v) && TwoPairs(multiset(v))
    requires r0 in v && multiset(v)[r0] == At(ProfileOf(v), 0)
    requires forall r :: multiset(v)[r] <= At(ProfileOf(v), 0)
    ensures At(ProfileOf(v), 0) == 2 && At(ProfileOf(v), 1) == 2
  {
    var p := ProfileOf(v);
    ProfileMembers(v);
    var a, b :| a != b && multiset(v)[a] == 2 && multiset(v)[b] == 2;
    assert a in v && b in v;
    if p[0] != 2 {
      ThreeValuesBound(v, r0, a, b);
    }
    ProfileRepeat(v, 2);
    var i, j :| 0 <= i < j < |p| && p[i] == 2 && p[j] == 2;
    assert p[1] >= p[j];
  }

  /** A rank occurring two or three times among five cards leaves no room
      for one occurring four times. */
  lemma NoRoomForFour(v: seq<int>)
    requires |v| == 5
    ensures HasCount(multiset(v), 2) || HasCount(multiset(v), 3) ==> !HasCount(multiset(v), 4)
  {
    if HasCount(multiset(v), 4) {
      var r :| multiset(v)[r] == 4;
      forall q | q != r ensures multiset(v)[q] <= 1 {
        TwoValuesBound(v, r, q);
      }
    }
  }

  /** Two pairs among five cards leave one card: room for neither three of
      a kind nor a third pair. */
  lemma TwoPairsLeaveOne(v: seq<int>)
    requires |v| == 5
    ensures TwoPairs(multiset(v)) ==> HasCount(multiset(v), 2) && !HasCount(multiset(v), 3)
  {
    if TwoPairs(multiset(v)) {
      var a, b :| a != b && multiset(v)[a] == 2 && multiset(v)[b] == 2;
      forall c | c != a && c != b ensures multiset(v)[c] <= 1 {
        ThreeValuesBound(v, a, b, c);
      }
    }
  }

  /** Among five cards, "one pair and nothing more" is a rank occurring
      twice, none occurring three times and no second pair. */
  lemma OnePairIff(v: seq<int>)
    requires |v| == 5
    ensures OnePair(multiset(v))
        <==> HasCount(multiset(v), 2) && !HasCount(multiset(v), 3) && !TwoPairs(multiset(v))
  {
    var ms := multiset(v);
    if HasCount(ms, 2) && !HasCount(ms, 3) && !TwoPairs(ms) {
      var r :| ms[r] == 2;
      forall q | q != r ensures ms[q] <= 1 {
        TwoValuesBound(v, r, q);
      }
    }
  }

  lemma RunSingles(h: int)
    ensures forall r :: RunOf(h)[r] <= 1
  {
    RunFacts(h);
    assert NoDup(RunFrom(h));
    NoDupMultiset(RunFrom(h));
  }

  lemma WheelSingles()
    ensures forall r :: multiset(Wheel)[r] <= 1
  {
    assert NoDup(Wheel);
    NoDupMultiset(Wheel);
  }

  /** The ranks of a straight occur once each. */
  lemma StraightRanksSingle(ranks: multiset<int>)
    requires IsStraightRanks(ranks)
    ensures !HasCount(ranks, 2) && !HasCount(ranks, 3) && !HasCount(ranks, 4)
  {
    if ranks == multiset(Wheel) {
      WheelSingles();
    } else {
      var h :| 6 <= h <= 14 && ranks == RunOf(h);
      RunSingles(h);
    }
  }

  // ---------------------------------------------------------------------
  // How many kickers

  /** The counts of the ranks in ks, added up. */
  function SumOver(ks: seq<int>, ranks: multiset<int>): int
  {
    if ks == [] then 0 else ranks[ks[0]] + SumOver(ks[1..], ranks)
  }

  lemma {:induction false} PointwiseSum(c: seq<int>, ks: seq<int>, ranks: multiset<int>)
    requires |c| == |ks| && forall i :: 0 <= i < |c| ==> c[i] == ranks[ks[i]]
    ensures Sum(c) == SumOver(ks, ranks)
  {
    if c != [] {
      PointwiseSum(c[1..], ks[1..], ranks);
    }
  }

  lemma {:induction false} SumOverEmpty(ks: seq<int>)
    ensures SumOver(ks, multiset{}) == 0
  {
    if ks != [] {
      SumOverEmpty(ks[1..]);
    }
  }

  /** One more card of rank y adds one to the total when y is listed. */
  lemma {:induction false} SumOverAdd(ks: seq<int>, ranks: multiset<int>, y: int)
    requires NoDup(ks)
    ensures SumOver(ks, ranks + multiset{y}) == SumOver(ks, ranks) + (if y in ks then 1 else 0)
  {
    if ks != [] {
      assert ks == [ks[0]] + ks[1..];
      assert NoDup(ks[1..]);
      SumOverAdd(ks[1..], ranks, y);
      if ks[0] == y {
        assert y !in ks[1..];
      }
    }
  }

  /** Counting every rank present once, the counts add up to the number of
      cards. */
  lemma {:induction false} SumOverCounts(ks: seq<int>, v: seq<int>)
    requires NoDup(ks) && forall x :: x in v ==> x in ks
    ensures SumOver(ks, multiset(v)) == |v|
  {
    if v == [] {
      SumOverEmpty(ks);
    } else {
      var t := v[..|v| - 1];
      var y := v[|v| - 1];
      assert v == t + [y];
      forall x | x in t ensures x in ks {
        assert x in v;
      }
      SumOverCounts(ks, t);
      SumOverAdd(ks, multiset(t), y);
    }
  }

  /** The profile's entries add up to the number of cards. */
  lemma ProfileSum(v: seq<int>)
    requires ValidRanks(v)
    ensures Sum(ProfileOf(v)) == |v|
  {
    var c := CountList(v);
    PointwiseSum(c, RankKeys(v), multiset(v));
    SumOverCounts(RankKeys(v), v);
    SumSortDesc(c);
  }

  lemma {:induction false} SumOfPositives(s: seq<int>)
    requires forall i :: 0 <= i < |s| ==> s[i] >= 1
    ensures Sum(s) >= |s|
  {
    if s != [] {
      SumOfPositives(s[1..]);
    }
  }

  lemma {:induction false} SumOfOnes(s: seq<int>)
    requires forall i :: 0 <= i < |s| ==> s[i] == 1
    ensures Sum(s) == |s|
  {
    if s != [] {
      SumOfOnes(s[1..]);
    }
  }

  /** A descending list of positive counts adding up to five is as long as
      the tests on its first two entries say: [4, 1], [3, 2], [3, 1, 1],
      [2, 2, 1] or [2, 1, 1, 1]. */
  lemma FiveCardShapes(p: seq<int>)
    requires SortedDesc(p) && (forall i :: 0 <= i < |p| ==> p[i] >= 1) && Sum(p) == 5
    ensures At(p, 0) == 4 ==> |p| == 2
    ensures At(p, 0) == 3 && At(p, 1) == 2 ==> |p| == 2
    ensures At(p, 0) == 3 && At(p, 1) != 2 ==> |p| == 3
    ensures At(p, 0) == 2 && At(p, 1) == 2 ==> |p| == 3
    ensures At(p, 0) == 2 && At(p, 1) != 2 ==> |p| == 4
  {
    if p != [] {
      SumOfPositives(p[1..]);
      if |p| >= 2 {
        assert Sum(p[1..]) == p[1] + Sum(p[2..]);
        SumOfPositives(p[2..]);
        if p[1] == 1 {
          forall i | 0 <= i < |p| - 1 ensures p[1..][i] == 1 {
            assert p[1] >= p[i + 1];
          }
          SumOfOnes(p[1..]);
        }
      }
    }
  }

  /** How many distinct ranks the kicker list of each kicker-valued ranking
      holds. */
  function KickerWidth(ranking: int): int
  {
    if ranking == FourOfAKind || ranking == FullHouse then 2
    else if ranking == ThreeOfAKind || ranking == TwoPair then 3
    else 4
  }

  /** The kicker-valued links of the chain and the profile tests that lead
      to them. */
  lemma ChainKickerTests(sorted: seq<int>, isFlush: bool, straight: StraightResult, profile: seq<int>, kicker: int)
    requires |sorted| == 5
    ensures Chain(sorted, isFlush, straight, profile, kicker).ranking == FourOfAKind ==> At(profile, 0) == 4
    ensures Chain(sorted, isFlush, straight, profile, kicker).ranking == FullHouse
        ==> At(profile, 0) == 3 && At(profile, 1) == 2
    ensures Chain(sorted, isFlush, straight, profile, kicker).ranking == ThreeOfAKind
        ==> At(profile, 0) == 3 && At(profile, 1) != 2
    ensures Chain(sorted, isFlush, straight, profile, kicker).ranking == TwoPair
        ==> At(profile, 0) == 2 && At(profile, 1) == 2
    ensures Chain(sorted, isFlush, straight, profile, kicker).ranking == Pair
        ==> At(profile, 0) == 2 && At(profile, 1) != 2
  {
  }

  /** For five ranks, the profile is a descending list of positive counts
      adding up to five, one count per rank in the kicker list. */
  lemma FiveCardProfile(v: seq<int>)
    requires |v| == 5 && ValidRanks(v)
    ensures SortedDesc(ProfileOf(v)) && Sum(ProfileOf(v)) == 5
    ensures forall i :: 0 <= i < |ProfileOf(v)| ==> ProfileOf(v)[i] >= 1
    ensures |ProfileOf(v)| == |KickerOrder(RankCounts(v))|
  {
    var p := ProfileOf(v);
    var m := RankCounts(v);
    ProfileMembers(v);
    ProfileSum(v);
    forall i | 0 <= i < |p| ensures p[i] >= 1 {
      assert p[i] in p;
    }
    assert |KickerOrder(m)| == |multiset(KeysOf(m))|;
    assert |p| == |CountList(v)|;
  }

  /** The ranking fixes how many ranks the kicker list holds: two for four
      of a kind and a full house, three for three of a kind and two pair,
      four for a pair. */
  lemma KickerCount(cards: seq<Card>)
    requires |cards| == 5 && KickerCategory(Evaluate5(cards).ranking)
    ensures |Kickers(cards)| == KickerWidth(Evaluate5(cards).ranking)
  {
    var s := SortDesc(Ranks(cards));
    RanksValid(cards);
    SortedValid(Ranks(cards));
    FiveCardProfile(s);
    ClassifyIsChain(s, IsFlush(cards));
    ChainKickerTests(s, IsFlush(cards), StraightOf(s), ProfileOf(s), KickerOf(s));
    FiveCardShapes(ProfileOf(s));
  }

  /** Within one kicker-valued category, hands compare as their kicker rank
      lists do in dictionary order, and tie exactly when those lists are
      equal. */
  lemma SameCategoryComparesKickers(p: seq<Card>, q: seq<Card>)
    requires |p| == 5 && |q| == 5
    requires Evaluate5(p).ranking == Evaluate5(q).ranking && KickerCategory(Evaluate5(p).ranking)
    ensures |Kickers(p)| == |Kickers(q)|
    ensures CompareHands(Evaluate5(p), Evaluate5(q)) > 0 <==> LexLess(Kickers(q), Kickers(p))
    ensures CompareHands(Evaluate5(p), Evaluate5(q)) == 0 <==> Kickers(p) == Kickers(q)
  {
    KickerCount(p);
    KickerCount(q);
    ClassifyKickerValue(SortDesc(Ranks(p)), IsFlush(p));
    ClassifyKickerValue(SortDesc(Ranks(q)), IsFlush(q));
    KickerDigits(p);
    KickerDigits(q);
    Base15Lex(Kickers(q), Kickers(p));
  }

  // ---------------------------------------------------------------------
  // The categories

  /** The priority chain is the category decision applied to the chain's
      own tests. */
  lemma ChainIsCategoryOf(sorted: seq<int>, isFlush: bool, straight: StraightResult, profile: seq<int>, kicker: int)
    requires |sorted| == 5
    ensures Chain(sorted, isFlush, straight, profile, kicker).ranking
         == CategoryOf(isFlush, straight.isStraight, sorted[0] == Ace && sorted[1] == King,
                       At(profile, 0) == 4, At(profile, 0) == 3 && At(profile, 1) == 2,
                       At(profile, 0) == 3, At(profile, 0) == 2 && At(profile, 1) == 2,
                       At(profile, 0) == 2)
  {
  }

  /** The category decision gives the same answer on equivalent tests; the
      ace-high test only matters for a straight flush, and the pair test
      only where there are no three of a kind. */
  lemma CategoryOfAgrees(f: bool, s1: bool, s2: bool, a1: bool, a2: bool, q1: bool, q2: bool,
                         h1: bool, h2: bool, t1: bool, t2: bool, w1: bool, w2: bool, p1: bool, p2: bool)
    requires s1 == s2 && q1 == q2 && h1 == h2 && t1 == t2 && w1 == w2
    requires f && s1 ==> a1 == a2
    requires !t1 ==> p1 == p2
    ensures CategoryOf(f, s1, a1, q1, h1, t1, w1, p1) == CategoryOf(f, s2, a2, q2, h2, t2, w2, p2)
  {
  }

  /** On five ranks sorted high to low, checkStraight's test is a straight,
      and with an ace and a king on top it is the run from the ace. */
  lemma SortedStraightTests(values: seq<int>)
    requires |values| == 5 && ValidRanks(values)
    ensures StraightOf(SortDesc(values)).isStraight == IsStraightRanks(multiset(values))
    ensures StraightOf(SortDesc(values)).isStraight
        ==> (SortDesc(values)[0] == Ace && SortDesc(values)[1] == King) == (multiset(values) == RunOf(14))
  {
    StraightMeaning(values);
    AceHighRun(SortDesc(values), values);
  }

  /** On five ranks sorted high to low, the profile tests are the count
      conditions. */
  lemma SortedProfileTests(values: seq<int>)
    requires |values| == 5 && ValidRanks(values)
    ensures (At(ProfileOf(SortDesc(values)), 0) == 4) == HasCount(multiset(values), 4)
    ensures (At(ProfileOf(SortDesc(values)), 0) == 3) == HasCount(multiset(values), 3)
    ensures (At(ProfileOf(SortDesc(values)), 0) == 3 && At(ProfileOf(SortDesc(values)), 1) == 2)
         == (HasCount(multiset(values), 3) && HasCount(multiset(values), 2))
    ensures (At(ProfileOf(SortDesc(values)), 0) == 2 && At(ProfileOf(SortDesc(values)), 1) == 2)
         == TwoPairs(multiset(values))
    ensures !HasCount(multiset(values), 3)
        ==> (At(ProfileOf(SortDesc(values)), 0) == 2) == HasCount(multiset(values), 2)
  {
    var s := SortDesc(values);
    SortedValid(values);
    ProfileShape(s);
    assert multiset(s) == multiset(values);
  }

  /** evaluate5Cards ranks every five cards by their category. */
  lemma Evaluate5Category(cards: seq<Card>)
    requires |cards| == 5
    ensures Evaluate5(cards).ranking == Category(cards)
  {
    var values := Ranks(cards);
    var s := SortDesc(values);
    var ranks := multiset(values);
    var p := ProfileOf(s);
    var st := StraightOf(s);
    RanksValid(cards);
    ClassifyIsChain(s, IsFlush(cards));
    ChainIsCategoryOf(s, IsFlush(cards), st, p, KickerOf(s));
    SortedStraightTests(values);
    SortedProfileTests(values);
    CategoryOfAgrees(IsFlush(cards), st.isStraight, IsStraightRanks(ranks),
      s[0] == Ace && s[1] == King, ranks == RunOf(14),
      At(p, 0) == 4, HasCount(ranks, 4),
      At(p, 0) == 3 && At(p, 1) == 2, HasCount(ranks, 3) && HasCount(ranks, 2),
      At(p, 0) == 3, HasCount(ranks, 3),
      At(p, 0) == 2 && At(p, 1) == 2, TwoPairs(ranks),
      At(p, 0) == 2, HasCount(ranks, 2));
  }

  /** The category decision, given how the tests exclude each other for
      five cards. */
  lemma CategoryOfFacts(f: bool, st: bool, ace: bool, four: bool, three: bool, two: bool,
                        twoPairs: bool, onePair: bool)
    requires three || two ==> !four
    requires st ==> !four && !three && !two
    requires twoPairs ==> two && !three
    requires onePair == (two && !three && !twoPairs)
    ensures CategoryOf(f, st, ace, four, three && two, three, twoPairs, two) == StraightFlush <==> f && st && !ace
    ensures CategoryOf(f, st, ace, four, three && two, three, twoPairs, two) == FourOfAKind <==> four
    ensures CategoryOf(f, st, ace, four, three && two, three, twoPairs, two) == FullHouse <==> three && two
    ensures CategoryOf(f, st, ace, four, three && two, three, twoPairs, two) == Flush
        <==> f && !st && !four && !(three && two)
    ensures CategoryOf(f, st, ace, four, three && two, three, twoPairs, two) == Straight <==> !f && st
    ensures CategoryOf(f, st, ace, four, three && two, three, twoPairs, two) == ThreeOfAKind
        <==> !f && three && !two
    ensures CategoryOf(f, st, ace, four, three && two, three, twoPairs, two) == TwoPair <==> !f && twoPairs
    ensures CategoryOf(f, st, ace, four, three && two, three, twoPairs, two) == Pair <==> !f && onePair
    ensures CategoryOf(f, st, ace, four, three && two, three, twoPairs, two) == HighCard
        <==> !f && !st && !two && !three && !four
  {
  }

  /** What each category of Category requires of the cards, once the
      stronger categories are ruled out by counting. */
  lemma CategoryFacts(cards: seq<Card>)
    requires |cards| == 5
    ensures Category(cards) == StraightFlush
        <==> IsFlush(cards) && IsStraightRanks(multiset(Ranks(cards))) && multiset(Ranks(cards)) != RunOf(14)
    ensures Category(cards) == FourOfAKind <==> HasCount(multiset(Ranks(cards)), 4)
    ensures Category(cards) == FullHouse
        <==> HasCount(multiset(Ranks(cards)), 3) && HasCount(multiset(Ranks(cards)), 2)
    ensures Category(cards) == Flush
        <==> IsFlush(cards) && !IsStraightRanks(multiset(Ranks(cards)))
             && !HasCount(multiset(Ranks(cards)), 4)
             && !(HasCount(multiset(Ranks(cards)), 3) && HasCount(multiset(Ranks(cards)), 2))
    ensures Category(cards) == Straight <==> !IsFlush(cards) && IsStraightRanks(multiset(Ranks(cards)))
    ensures Category(cards) == ThreeOfAKind
        <==> !IsFlush(cards) && HasCount(multiset(Ranks(cards)), 3) && !HasCount(multiset(Ranks(cards)), 2)
    ensures Category(cards) == TwoPair <==> !IsFlush(cards) && TwoPairs(multiset(Ranks(cards)))
    ensures Category(cards) == Pair <==> !IsFlush(cards) && OnePair(multiset(Ranks(cards)))
    ensures Category(cards) == HighCard
        <==> !IsFlush(cards) && !IsStraightRanks(multiset(Ranks(cards)))
             && !HasCount(multiset(Ranks(cards)), 2) && !HasCount(multiset(Ranks(cards)), 3)
             && !HasCount(multiset(Ranks(cards)), 4)
  {
    var ranks := multiset(Ranks(cards));
    NoRoomForFour(Ranks(cards));
    OnePairIff(Ranks(cards));
    if IsStraightRanks(ranks) {
      StraightRanksSingle(ranks);
    }
    TwoPairsLeaveOne(Ranks(cards));
    CategoryOfFacts(IsFlush(cards), IsStraightRanks(ranks), ranks == RunOf(14), HasCount(ranks, 4),
      HasCount(ranks, 3), HasCount(ranks, 2), TwoPairs(ranks), OnePair(ranks));
  }

  /** STRAIGHT_FLUSH is exactly a straight of one suit other than
      A-K-Q-J-10; FOUR_OF_KIND is exactly four cards of one rank; FULL_HOUSE
      is exactly three cards of one rank and two of another. */
  lemma MadeHandMeaning(cards: seq<Card>)
    requires |cards| == 5
    ensures Evaluate5(cards).ranking == StraightFlush
        <==> IsFlush(cards) && IsStraightRanks(multiset(Ranks(cards))) && multiset(Ranks(cards)) != RunOf(14)
    ensures Evaluate5(cards).ranking == FourOfAKind <==> HasCount(multiset(Ranks(cards)), 4)
    ensures Evaluate5(cards).ranking == FullHouse
        <==> HasCount(multiset(Ranks(cards)), 3) && HasCount(multiset(Ranks(cards)), 2)
  {
    Evaluate5Category(cards);
    CategoryFacts(cards);
  }

  /** FLUSH is exactly one suit that is no straight, no four of a kind and
      no full house; STRAIGHT is exactly a straight of mixed suits. */
  lemma FlushStraightMeaning(cards: seq<Card>)
    requires |cards| == 5
    ensures Evaluate5(cards).ranking == Flush
        <==> IsFlush(cards) && !IsStraightRanks(multiset(Ranks(cards)))
             && !HasCount(multiset(Ranks(cards)), 4)
             && !(HasCount(multiset(Ranks(cards)), 3) && HasCount(multiset(Ranks(cards)), 2))
    ensures Evaluate5(cards).ranking == Straight <==> !IsFlush(cards) && IsStraightRanks(multiset(Ranks(cards)))
  {
    Evaluate5Category(cards);
    CategoryFacts(cards);
  }

  /** Of mixed suits: THREE_OF_KIND is exactly three cards of one rank and
      no pair beside them; TWO_PAIR is exactly two ranks twice each; PAIR is
      exactly one rank twice and every other once; HIGH_CARD is exactly no
      straight and no rank occurring two to four times. */
  lemma SetsAndPairsMeaning(cards: seq<Card>)
    requires |cards| == 5
    ensures Evaluate5(cards).ranking == ThreeOfAKind
        <==> !IsFlush(cards) && HasCount(multiset(Ranks(cards)), 3) && !HasCount(multiset(Ranks(cards)), 2)
    ensures Evaluate5(cards).ranking == TwoPair <==> !IsFlush(cards) && TwoPairs(multiset(Ranks(cards)))
    ensures Evaluate5(cards).ranking == Pair <==> !IsFlush(cards) && OnePair(multiset(Ranks(cards)))
    ensures Evaluate5(cards).ranking == HighCard
        <==> !IsFlush(cards) && !IsStraightRanks(multiset(Ranks(cards)))
             && !HasCount(multiset(Ranks(cards)), 2) && !HasCount(multiset(Ranks(cards)), 3)
             && !HasCount(multiset(Ranks(cards)), 4)
  {
    Evaluate5Category(cards);
    CategoryFacts(cards);
  }

  /** STRAIGHT, STRAIGHT_FLUSH and ROYAL_FLUSH are exactly the five cards
      whose ranks form a straight. */
  lemma StraightCategories(cards: seq<Card>)
    requires |cards| == 5
    ensures Evaluate5(cards).ranking in {Straight, StraightFlush, RoyalFlush}
        <==> IsStraightRanks(multiset(Ranks(cards)))
  {
    MadeHandMeaning(cards);
    FlushStraightMeaning(cards);
    RoyalFlushMeaning(cards);
    if Evaluate5(cards).ranking == RoyalFlush {
      assert 6 <= 14 <= 14 && multiset(Ranks(cards)) == RunOf(14);
    }
  }
}
