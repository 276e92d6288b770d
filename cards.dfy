/** The card model of the engine: a card is a rank value (2..14, ace high)
    and one of four suits; the universe is the 52 (rank, suit) pairs in the
    order the deck builder visits them (suit by suit, ranks ascending). */
module Cards {

  import opened Sequences

  datatype Suit = Spades | Hearts | Diamonds | Clubs

  /** A rank is kept as its value: 2..10, J = 11, Q = 12, K = 13, A = 14. */
  type Rank = r: int | 2 <= r <= 14 witness 2

  datatype Card = Card(rank: Rank, suit: Suit)

  const Ace: Rank := 14
  const King: Rank := 13

  /** The order in which the deck builder visits suits. */
  const SuitOrder: seq<Suit> := [Spades, Hearts, Diamonds, Clubs]

  /** Card equality of the source: rank and suit both match. */
  function Equals(a: Card, b: Card): (eq: bool)
    ensures eq <==> a == b
  {
    a.rank == b.rank && a.suit == b.suit
  }

  function SuitIndex(s: Suit): (k: nat)
    ensures k < 4 && SuitOrder[k] == s
  {
    match s
    case Spades => 0
    case Hearts => 1
    case Diamonds => 2
    case Clubs => 3
  }

  /** The 52 cards, suit-major, ranks ascending within a suit. */
  function Universe(): seq<Card>
  {
    seq(52, i requires 0 <= i < 52 => Card(i % 13 + 2, SuitOrder[i / 13]))
  }

  /** Position of a card in the universe. */
  function CardIndex(c: Card): nat
  {
    SuitIndex(c.suit) * 13 + (c.rank - 2)
  }

  /** Every card occurs in the universe, at the position CardIndex gives. */
  lemma UniverseComplete(c: Card)
    ensures CardIndex(c) < 52 && Universe()[CardIndex(c)] == c
  {
    var k := CardIndex(c);
    assert k / 13 == SuitIndex(c.suit) && k % 13 == c.rank - 2;
  }

  /** No card occurs twice in the universe. */
  lemma UniverseNoDup()
    ensures NoDup(Universe())
  {
    var u := Universe();
    forall i, j | 0 <= i < j < |u|
      ensures u[i] != u[j]
    {
      assert CardIndex(u[i]) == i by { SuitIndexOfOrder(i / 13); }
      assert CardIndex(u[j]) == j by { SuitIndexOfOrder(j / 13); }
    }
  }

  lemma SuitIndexOfOrder(k: nat)
    requires k < 4
    ensures SuitIndex(SuitOrder[k]) == k
  {
  }

  /** The rank values of a list of cards, in list order. */
  function Ranks(cs: seq<Card>): seq<int>
  {
    seq(|cs|, i requires 0 <= i < |cs| => cs[i].rank)
  }

  /** The suits of a list of cards, in list order. */
  function Suits(cs: seq<Card>): seq<Suit>
  {
    seq(|cs|, i requires 0 <= i < |cs| => cs[i].suit)
  }

  /** Reordering the cards reorders their ranks and suits the same way. */
  lemma {:induction false} PermutedProjections(p: seq<Card>, q: seq<Card>)
    requires multiset(p) == multiset(q)
    ensures multiset(Ranks(p)) == multiset(Ranks(q))
    ensures multiset(Suits(p)) == multiset(Suits(q))
    decreases |p|
  {
    if p != [] {
      var x := p[0];
      assert x in multiset(q);
      var j :| 0 <= j < |q| && q[j] == x;
      var q' := q[..j] + q[j + 1..];
      MultisetRemoveAt(q, j);
      assert multiset(p) == multiset(p[1..]) + multiset{x} by { assert p == [x] + p[1..]; }
      MultisetCancel(multiset(p[1..]), multiset(q'), x);
      PermutedProjections(p[1..], q');
      RemoveAtProjections(q, j);
      assert Ranks(p) == [x.rank] + Ranks(p[1..]);
      assert Suits(p) == [x.suit] + Suits(p[1..]);
    }
  }

  /** Taking one card out of a list takes its rank and suit out of the projections. */
  lemma RemoveAtProjections(q: seq<Card>, j: nat)
    requires j < |q|
    ensures multiset(Ranks(q)) == multiset(Ranks(q[..j] + q[j + 1..])) + multiset{q[j].rank}
    ensures multiset(Suits(q)) == multiset(Suits(q[..j] + q[j + 1..])) + multiset{q[j].suit}
  {
    var q' := q[..j] + q[j + 1..];
    assert Ranks(q) == Ranks(q)[..j] + [q[j].rank] + Ranks(q)[j + 1..];
    assert Ranks(q') == Ranks(q)[..j] + Ranks(q)[j + 1..];
    assert Suits(q) == Suits(q)[..j] + [q[j].suit] + Suits(q)[j + 1..];
    assert Suits(q') == Suits(q)[..j] + Suits(q)[j + 1..];
  }
}
