/** The Monte Carlo odds calculator: one simulated deal per trial (a fresh
    deck without the known cards, shuffled, the board completed, two cards to
    each opponent) and the win/tie/loss tally over many trials. The random
    draws of each shuffle are an input: one tape of swap indices per trial. */
module OddsCalculator {

  import opened Sequences
  import opened Cards
  import opened HandEvaluator
  import opened HandProperties
  import opened Decks

  datatype Option<T> = None | Some(value: T)

  datatype Result<T> = Success(value: T) | Failure(error: string)

  /** The result of one trial, from the player's side. */
  datatype Outcome = Win | Tie | Loss

  /** The random choices of one shuffle of a deck of at most 52 cards. */
  predicate ValidTape(tape: seq<nat>)
  {
    |tape| == 52 && IsTape(tape)
  }

  /** simulateHand's closing comparison. */
  function Verdict(player: HandResult, bestOpponent: HandResult): Outcome
  {
    var comparison := CompareHands(player, bestOpponent);
    if comparison > 0 then Win else if comparison == 0 then Tie else Loss
  }

  /** The verdict from the opponent's side is the mirror image, and a tie
      means equal hands. */
  lemma VerdictSymmetry(a: HandResult, b: HandResult)
    ensures Verdict(a, b) == Win <==> Verdict(b, a) == Loss
    ensures Verdict(a, b) == Tie <==> a == b
  {
    CompareHandsOrder(a, b, b);
  }

  /** One pass of the opponent loop: the dealt hand replaces the best so far
      when there is none yet or it compares strictly higher. */
  function Pick(best: Option<HandResult>, h: HandResult): Option<HandResult>
  {
    if best == None || CompareHands(h, best.value) > 0 then Some(h) else best
  }

  /** The opponent loop's running best after scanning `hs`, from `best`. */
  function FoldBest(best: Option<HandResult>, hs: seq<HandResult>): (r: Option<HandResult>)
    decreases |hs|
    ensures r == None <==> best == None && hs == []
  {
    if hs == [] then best else FoldBest(Pick(best, hs[0]), hs[1..])
  }

  /** Scanning from a hand `b`, the loop ends on `b` itself (i = -1) or on
      some hs[i]; nothing scanned compares higher than the result, and when
      it is hs[i], `b` and every hand before it compare strictly lower. */
  lemma {:induction false} FoldBestMaximum(b: HandResult, hs: seq<HandResult>) returns (i: int)
    decreases |hs|
    ensures -1 <= i < |hs|
    ensures FoldBest(Some(b), hs) == Some(if i < 0 then b else hs[i])
    ensures CompareHands(b, FoldBest(Some(b), hs).value) <= 0
    ensures forall j :: 0 <= j < |hs| ==> CompareHands(hs[j], FoldBest(Some(b), hs).value) <= 0
    ensures i >= 0 ==> CompareHands(b, hs[i]) < 0
    ensures forall j :: 0 <= j < i ==> CompareHands(hs[j], hs[i]) < 0
  {
    if hs == [] {
      i := -1;
    } else {
      var b' := Pick(Some(b), hs[0]).value;
      var i' := FoldBestMaximum(b', hs[1..]);
      var r := FoldBest(Some(b), hs).value;
      assert forall j :: 1 <= j < |hs| ==> hs[j] == hs[1..][j - 1];
      if i' < 0 {
        i := if b' == b then -1 else 0;
      } else {
        i := i' + 1;
      }
      CompareHandsOrder(b, hs[0], r);
      CompareHandsOrder(hs[0], b, r);
    }
  }

  /** The strongest opponent is one of the hands, no hand compares higher,
      and every hand dealt before it compares strictly lower. */
  lemma FoldBestIsFirstMaximum(hs: seq<HandResult>) returns (i: nat)
    requires hs != []
    ensures i < |hs| && FoldBest(None, hs) == Some(hs[i])
    ensures forall j :: 0 <= j < |hs| ==> CompareHands(hs[j], hs[i]) <= 0
    ensures forall j :: 0 <= j < i ==> CompareHands(hs[j], hs[i]) < 0
  {
    var i' := FoldBestMaximum(hs[0], hs[1..]);
    i := i' + 1;
    assert forall j :: 1 <= j < |hs| ==> hs[j] == hs[1..][j - 1];
  }

  // ---------------------------------------------------------------------
  // One trial

  /** The trial's deck once shuffled. */
  function TrialDeck(known: seq<Card>, tape: seq<nat>): (deck: seq<Card>)
    requires ValidTape(tape)
    ensures |deck| == |FreshDeck(known)| >= 52 - |known|
    ensures multiset(deck) == multiset(FreshDeck(known))
  {
    FreshDeckSize(known);
    ShuffledPermutes(FreshDeck(known), tape);
    Shuffled(FreshDeck(known), tape)
  }

  /** How many cards the board takes from a deck of `deckSize` cards. */
  function BoardDeal(community: seq<Card>, deckSize: nat): (k: nat)
    ensures k <= deckSize
  {
    if 5 - |community| > 0 then DealCount(5 - |community|, deckSize) else 0
  }

  /** The completed board of a trial. */
  function Board(community: seq<Card>, deck: seq<Card>): seq<Card>
  {
    community + deck[..BoardDeal(community, |deck|)]
  }

  /** With two player cards, a trial's deck always completes the board. */
  lemma BoardComplete(player: seq<Card>, community: seq<Card>, tape: seq<nat>)
    requires |player| == 2 && ValidTape(tape)
    ensures |Board(community, TrialDeck(player + community, tape))| >= 5
    ensures |community| <= 5 ==> |Board(community, TrialDeck(player + community, tape))| == 5
  {
  }

  /** The two cards dealt to each of n opponents in turn from the front of
      `deck`; a short deck gives fewer. */
  function Holes(deck: seq<Card>, n: nat): (holes: seq<seq<Card>>)
    ensures |holes| == n
  {
    if n == 0 then []
    else
      var k := DealCount(2, |deck|);
      [deck[..k]] + Holes(deck[k..], n - 1)
  }

  /** What is left of `deck` after n two-card deals. */
  function AfterHoles(deck: seq<Card>, n: nat): seq<Card>
  {
    if n == 0 then deck else AfterHoles(deck[DealCount(2, |deck|)..], n - 1)
  }

  function Concat(ss: seq<seq<Card>>): seq<Card>
  {
    if ss == [] then [] else ss[0] + Concat(ss[1..])
  }

  /** The hole cards, in dealing order, followed by what remains are the
      deck: the deals split it. */
  lemma {:induction false} HolesPartition(deck: seq<Card>, n: nat)
    ensures Concat(Holes(deck, n)) + AfterHoles(deck, n) == deck
  {
    if n > 0 {
      var k := DealCount(2, |deck|);
      HolesPartition(deck[k..], n - 1);
      assert Holes(deck, n)[1..] == Holes(deck[k..], n - 1);
      assert deck[..k] + deck[k..] == deck;
    }
  }

  /** With at least 2n cards every one of n opponents receives two. */
  lemma {:induction false} HolesFull(deck: seq<Card>, n: nat)
    requires 2 * n <= |deck|
    ensures forall i :: 0 <= i < n ==> |Holes(deck, n)[i]| == 2
  {
    if n > 0 {
      HolesFull(deck[2..], n - 1);
      assert forall i :: 1 <= i < n ==> Holes(deck, n)[i] == Holes(deck[2..], n - 1)[i - 1];
    }
  }

  /** Every opponent's best hand, in dealing order. */
  function OpponentHands(board: seq<Card>, holes: seq<seq<Card>>): (hs: seq<HandResult>)
    requires |board| >= 5
    ensures |hs| == |holes|
  {
    if holes == [] then [] else [BestHand(holes[0] + board)] + OpponentHands(board, holes[1..])
  }

  lemma {:induction false} OpponentHandsAt(board: seq<Card>, holes: seq<seq<Card>>, i: nat)
    requires |board| >= 5 && i < |holes|
    ensures OpponentHands(board, holes)[i] == BestHand(holes[i] + board)
  {
    if i > 0 {
      OpponentHandsAt(board, holes[1..], i - 1);
    }
  }

  /** simulateHand's outcome for the shuffle drawn by `tape`. */
  function Trial(player: seq<Card>, community: seq<Card>, numOpponents: nat, tape: seq<nat>): Outcome
    requires |player| == 2 && numOpponents >= 1 && ValidTape(tape)
  {
    var deck := TrialDeck(player + community, tape);
    BoardComplete(player, community, tape);
    var board := Board(community, deck);
    var rest := deck[BoardDeal(community, |deck|)..];
    var best := FoldBest(None, OpponentHands(board, Holes(rest, numOpponents)));
    Verdict(BestHand(player + board), best.value)
  }

  /** A trial's shuffled deck holds no card twice and none of the known
      cards. */
  lemma TrialDeckDistinct(known: seq<Card>, tape: seq<nat>)
    requires ValidTape(tape)
    ensures NoDup(TrialDeck(known, tape))
    ensures forall c :: c in TrialDeck(known, tape) ==> c !in known
  {
    var deck := TrialDeck(known, tape);
    FreshDeckContents(known);
    NoDupPermutation(FreshDeck(known), deck);
    forall c | c in deck ensures c !in known {
      assert c in multiset(FreshDeck(known));
    }
  }

  /** The board's new cards, the holes and the undealt rest split the deck. */
  lemma DealSplit(deck: seq<Card>, k: nat, n: nat)
    requires k <= |deck|
    ensures deck[..k] + Concat(Holes(deck[k..], n)) + AfterHoles(deck[k..], n) == deck
  {
    HolesPartition(deck[k..], n);
    assert deck[..k] + deck[k..] == deck;
  }

  /** The cards of a trial: the shuffled deck holds no known card and no
      card twice, and the board's new cards, the opponents' holes and the
      undealt rest split it; with at most five community cards and at most
      22 opponents every opponent receives two cards. */
  lemma TrialDealsDistinct(player: seq<Card>, community: seq<Card>, numOpponents: nat, tape: seq<nat>)
    requires |player| == 2 && ValidTape(tape)
    ensures var deck := TrialDeck(player + community, tape);
            var k := BoardDeal(community, |deck|);
            var rest := deck[k..];
            && NoDup(deck)
            && (forall c :: c in deck ==> c !in player + community)
            && deck[..k] + Concat(Holes(rest, numOpponents)) + AfterHoles(rest, numOpponents) == deck
            && (|community| <= 5 && numOpponents <= 22 ==>
                  forall i :: 0 <= i < numOpponents ==> |Holes(rest, numOpponents)[i]| == 2)
  {
    var deck := TrialDeck(player + community, tape);
    var k := BoardDeal(community, |deck|);
    TrialDeckDistinct(player + community, tape);
    DealSplit(deck, k, numOpponents);
    if |community| <= 5 && numOpponents <= 22 {
      HolesFull(deck[k..], numOpponents);
    }
  }

  /** simulateHand: builds and shuffles the deck, completes the board, deals
      two cards to each opponent, and compares the player's best hand with
      the strongest opponent's. */
  method SimulateHand(playerCards: seq<Card>, communityCards: seq<Card>, numOpponents: nat, tape: seq<nat>)
    returns (result: Outcome)
    requires |playerCards| == 2 && numOpponents >= 1 && ValidTape(tape)
    ensures result == Trial(playerCards, communityCards, numOpponents, tape)
  {
    var allKnownCards := playerCards + communityCards;
    var deck := new Deck(allKnownCards);
    FreshDeckSize(allKnownCards);
    deck.Shuffle(tape);
    ghost var shuffled := deck.cards;
    assert shuffled == TrialDeck(allKnownCards, tape);

    var finalCommunity := communityCards;
    var cardsNeeded := 5 - |communityCards|;
    if cardsNeeded > 0 {
      var dealt := deck.Deal(cardsNeeded);
      finalCommunity := finalCommunity + dealt;
    }
    ghost var k := BoardDeal(communityCards, |shuffled|);
    assert finalCommunity == Board(communityCards, shuffled);
    assert deck.cards == shuffled[k..];
    BoardComplete(playerCards, communityCards, tape);

    var playerEval := EvaluateHand(playerCards + finalCommunity);
    var playerHand := playerEval.hand;

    var bestOpponentHand := DealOpponents(deck, finalCommunity, numOpponents);

    var comparison := CompareHands(playerHand, bestOpponentHand.value);
    if comparison > 0 {
      return Win;
    }
    if comparison == 0 {
      return Tie;
    }
    return Loss;
  }

  /** simulateHand's opponent loop: two cards to each opponent in turn from
      the front of the deck, keeping the first strongest hand. */
  method DealOpponents(deck: Deck, board: seq<Card>, numOpponents: nat) returns (best: Option<HandResult>)
    requires |board| >= 5
    modifies deck
    ensures best == FoldBest(None, OpponentHands(board, Holes(old(deck.cards), numOpponents)))
    ensures deck.cards == AfterHoles(old(deck.cards), numOpponents)
  {
    ghost var start := deck.cards;
    ghost var left := numOpponents;
    best := None;
    for i := 0 to numOpponents
      invariant left == numOpponents - i
      invariant AfterHoles(deck.cards, left) == AfterHoles(start, numOpponents)
      invariant FoldBest(best, OpponentHands(board, Holes(deck.cards, left)))
             == FoldBest(None, OpponentHands(board, Holes(start, numOpponents)))
    {
      ghost var before := deck.cards;
      var opponentCards := deck.Deal(2);
      var opponentEval := EvaluateHand(opponentCards + board);
      var opponentHand := opponentEval.hand;
      ghost var previous := best;
      if best == None || CompareHands(opponentHand, best.value) > 0 {
        best := Some(opponentHand);
      }
      OpponentDeal(board, before, left, opponentCards, deck.cards, previous, best);
      left := left - 1;
    }
  }

  /** One two-card deal of the opponent loop advances the scan by one hand. */
  lemma OpponentDeal(board: seq<Card>, before: seq<Card>, k: nat, dealt: seq<Card>, after: seq<Card>,
                     previous: Option<HandResult>, next: Option<HandResult>)
    requires |board| >= 5 && k >= 1
    requires |dealt| == DealCount(2, |before|) && dealt + after == before
    requires |dealt + board| >= 5 && next == Pick(previous, BestHand(dealt + board))
    ensures AfterHoles(after, k - 1) == AfterHoles(before, k)
    ensures FoldBest(next, OpponentHands(board, Holes(after, k - 1)))
         == FoldBest(previous, OpponentHands(board, Holes(before, k)))
  {
    assert dealt == before[..|dealt|] && after == before[|dealt|..];
    var holes := Holes(before, k);
    assert holes[0] == dealt && holes[1..] == Holes(after, k - 1);
  }

  // ---------------------------------------------------------------------
  // Many trials

  /** The outcomes of the trials driven by `tapes`, in order. */
  function Outcomes(player: seq<Card>, community: seq<Card>, numOpponents: nat, tapes: seq<seq<nat>>): (os: seq<Outcome>)
    requires |player| == 2 && numOpponents >= 1
    requires forall i :: 0 <= i < |tapes| ==> ValidTape(tapes[i])
    ensures |os| == |tapes|
  {
    seq(|tapes|, i requires 0 <= i < |tapes| => Trial(player, community, numOpponents, tapes[i]))
  }

  /** Trial i of a run of m trials is the one driven by tape i. */
  lemma OutcomeAt(player: seq<Card>, community: seq<Card>, numOpponents: nat, tapes: seq<seq<nat>>, m: nat, i: nat)
    requires |player| == 2 && numOpponents >= 1
    requires forall i :: 0 <= i < |tapes| ==> ValidTape(tapes[i])
    requires i < m <= |tapes|
    ensures Outcomes(player, community, numOpponents, tapes[..m])[i] == Trial(player, community, numOpponents, tapes[i])
  {
  }

  function Count(os: seq<Outcome>, o: Outcome): (n: nat)
    ensures n <= |os|
  {
    if os == [] then 0
    else Count(os[..|os| - 1], o) + (if os[|os| - 1] == o then 1 else 0)
  }

  lemma CountStep(os: seq<Outcome>, i: nat, o: Outcome)
    requires i < |os|
    ensures Count(os[..i + 1], o) == Count(os[..i], o) + (if os[i] == o then 1 else 0)
  {
    assert os[..i + 1][..i] == os[..i];
  }

  /** One pass of calculateOdds' loop keeps the win and tie counters equal to
      the counts over the trials so far. */
  lemma TallyStep(os: seq<Outcome>, i: nat, wins: nat, ties: nat, wins': nat, ties': nat)
    requires i < |os|
    requires wins == Count(os[..i], Win) && ties == Count(os[..i], Tie)
    requires wins' == wins + (if os[i] == Win then 1 else 0)
    requires ties' == ties + (if os[i] == Tie then 1 else 0)
    ensures wins' == Count(os[..i + 1], Win) && ties' == Count(os[..i + 1], Tie)
  {
    CountStep(os, i, Win);
    CountStep(os, i, Tie);
  }

  /** What calculateOdds returns; the rate is a percentage, and absent when
      no trial ran (a division of zero by zero). */
  datatype Odds = Odds(winRate: Option<real>, wins: nat, ties: nat, losses: int, simulations: int)

  function WinRate(wins: nat, ties: nat, simulations: int): Option<real>
  {
    if simulations == 0 then None
    else Some(((wins as real + ties as real / 2.0) / simulations as real) * 100.0)
  }

  /** The tally of a sequence of outcomes over `simulations` requested trials. */
  function Tally(os: seq<Outcome>, simulations: int): Odds
  {
    var wins := Count(os, Win);
    var ties := Count(os, Tie);
    Odds(WinRate(wins, ties, simulations), wins, ties, simulations - wins - ties, simulations)
  }

  lemma TallyOf(os: seq<Outcome>, simulations: int, wins: nat, ties: nat)
    requires wins == Count(os, Win) && ties == Count(os, Tie)
    ensures Tally(os, simulations) == Odds(WinRate(wins, ties, simulations), wins, ties, simulations - wins - ties, simulations)
  {
  }

  /** Every outcome is a win, a tie or a loss. */
  lemma {:induction false} CountTotal(os: seq<Outcome>)
    ensures Count(os, Win) + Count(os, Tie) + Count(os, Loss) == |os|
  {
    if os != [] {
      CountTotal(os[..|os| - 1]);
    }
  }

  /** The rate counts a win fully and a tie half, so it lies between 0 and
      100. */
  lemma WinRateBounds(wins: nat, ties: nat, simulations: int)
    requires simulations > 0 && wins + ties <= simulations
    ensures WinRate(wins, ties, simulations).Some?
    ensures 0.0 <= WinRate(wins, ties, simulations).value <= 100.0
  {
    var points := wins as real + ties as real / 2.0;
    var n := simulations as real;
    assert 0.0 <= points <= n;
    FractionBounds(points, n);
  }

  lemma FractionBounds(p: real, n: real)
    requires 0.0 <= p <= n && n > 0.0
    ensures 0.0 <= p / n <= 1.0
  {
    var q := p / n;
    assert q * n == p;
    assert (q - 1.0) * n == p - n;
  }

  /** When the whole run is tallied, wins, ties and losses add up to the
      number of trials, the losses are exactly the lost trials, and the rate
      is a percentage. */
  lemma TallyBookkeeping(os: seq<Outcome>)
    ensures var t := Tally(os, |os|);
            && t.wins + t.ties + t.losses == t.simulations == |os|
            && t.losses == Count(os, Loss)
            && (os == [] <==> t.winRate == None)
            && (os != [] ==> 0.0 <= t.winRate.value <= 100.0)
  {
    CountTotal(os);
    if os != [] {
      WinRateBounds(Count(os, Win), Count(os, Tie), |os|);
    }
  }

  /** calculateOdds: refuses a player hand of other than two cards, runs the
      trials and tallies wins and ties; losses are the remainder. */
  method CalculateOdds(playerCards: seq<Card>, communityCards: seq<Card>, numOpponents: nat,
                       numSimulations: int, tapes: seq<seq<nat>>)
    returns (r: Result<Odds>)
    requires numOpponents >= 1
    requires numSimulations <= |tapes| && forall i :: 0 <= i < |tapes| ==> ValidTape(tapes[i])
    ensures r.Failure? <==> |playerCards| != 2
    ensures r.Success? ==> r.value == Tally(Outcomes(playerCards, communityCards, numOpponents,
                                                     tapes[..if numSimulations < 0 then 0 else numSimulations]),
                                            numSimulations)
  {
    if |playerCards| != 2 {
      return Failure("Player must have exactly 2 cards");
    }
    var wins := 0;
    var ties := 0;
    var n := if numSimulations < 0 then 0 else numSimulations;
    ghost var outcomes := Outcomes(playerCards, communityCards, numOpponents, tapes[..n]);
    for i := 0 to n
      invariant wins == Count(outcomes[..i], Win)
      invariant ties == Count(outcomes[..i], Tie)
    {
      var result := SimulateHand(playerCards, communityCards, numOpponents, tapes[i]);
      OutcomeAt(playerCards, communityCards, numOpponents, tapes, n, i);
      ghost var wins0, ties0 := wins, ties;
      if result == Win {
        wins := wins + 1;
      } else if result == Tie {
        ties := ties + 1;
      }
      TallyStep(outcomes, i, wins0, ties0, wins, ties);
    }
    assert outcomes[..n] == outcomes;
    TallyOf(outcomes, numSimulations, wins, ties);
    var winRate := WinRate(wins, ties, numSimulations);
    return Success(Odds(winRate, wins, ties, numSimulations - wins - ties, numSimulations));
  }
}
