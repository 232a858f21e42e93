/**
 * Cards and the ordered 52-card deck built by `Game::create_deck`
 * (src/game.rs:8-18, 40-43, 235-253).
 */
module Cards {

  datatype Rank = Two | Three | Four | Five | Six | Seven | Eight | Nine | Ten
                | Jack | Queen | King | Ace

  datatype Suit = Hearts | Diamonds | Clubs | Spades

  datatype Card = Card(rank: Rank, suit: Suit)

  /** The rank order used by `create_deck`'s inner loop. */
  const Ranks: seq<Rank> := [Two, Three, Four, Five, Six, Seven, Eight, Nine, Ten,
                             Jack, Queen, King, Ace]

  /** The suit order used by `create_deck`'s outer loop. */
  const Suits: seq<Suit> := [Hearts, Diamonds, Clubs, Spades]

  /** Position of a rank in `Ranks`. */
  function RankIndex(r: Rank): (k: nat)
    ensures k < 13 && Ranks[k] == r
  {
    match r
    case Two => 0 case Three => 1 case Four => 2 case Five => 3 case Six => 4
    case Seven => 5 case Eight => 6 case Nine => 7 case Ten => 8 case Jack => 9
    case Queen => 10 case King => 11 case Ace => 12
  }

  /** Position of a suit in `Suits`. */
  function SuitIndex(s: Suit): (k: nat)
    ensures k < 4 && Suits[k] == s
  {
    match s
    case Hearts => 0 case Diamonds => 1 case Clubs => 2 case Spades => 3
  }

  /** The thirteen cards of one suit, Two first. */
  function SuitRun(s: Suit): (run: seq<Card>)
    ensures |run| == 13
    ensures forall r :: 0 <= r < 13 ==> run[r] == Card(Ranks[r], s)
  {
    seq(13, r requires 0 <= r < 13 => Card(Ranks[r], s))
  }

  /** The fresh deck: suits in the outer loop, ranks in the inner one. */
  function CreateDeck(): seq<Card>
  {
    SuitRun(Hearts) + SuitRun(Diamonds) + SuitRun(Clubs) + SuitRun(Spades)
  }

  /** Where a card sits in the fresh deck. */
  function DeckIndex(c: Card): (k: nat)
    ensures k < 52
  {
    13 * SuitIndex(c.suit) + RankIndex(c.rank)
  }

  /** The fresh deck has 52 cards, the card of suit `s` and rank `r` at 13 * s + r. */
  lemma DeckLayout(s: nat, r: nat)
    requires s < 4 && r < 13
    ensures |CreateDeck()| == 52
    ensures CreateDeck()[13 * s + r] == Card(Ranks[r], Suits[s])
  {
    var d := CreateDeck();
    var h, di, c, sp := SuitRun(Hearts), SuitRun(Diamonds), SuitRun(Clubs), SuitRun(Spades);
    assert d == h + di + c + sp;
    if s == 0 {
      assert d[r] == h[r];
    } else if s == 1 {
      assert d[13 + r] == di[r];
    } else if s == 2 {
      assert d[26 + r] == c[r];
    } else {
      assert d[39 + r] == sp[r];
    }
  }

  /**
   * DeckIndex is the inverse of indexing the fresh deck: every card occurs in it,
   * exactly at DeckIndex, and no card occurs twice.
   */
  lemma DeckIndexInverse()
    ensures |CreateDeck()| == 52
    ensures forall c: Card :: CreateDeck()[DeckIndex(c)] == c
    ensures forall i :: 0 <= i < 52 ==> DeckIndex(CreateDeck()[i]) == i
  {
    forall c: Card ensures CreateDeck()[DeckIndex(c)] == c {
      DeckLayout(SuitIndex(c.suit), RankIndex(c.rank));
    }
    forall i | 0 <= i < 52 ensures DeckIndex(CreateDeck()[i]) == i {
      var s, r := i / 13, i % 13;
      assert i == 13 * s + r;
      DeckLayout(s, r);
      RanksDistinct(r);
      SuitsDistinct(s);
    }
  }

  lemma RanksDistinct(r: nat)
    requires r < 13
    ensures RankIndex(Ranks[r]) == r
  {
  }

  lemma SuitsDistinct(s: nat)
    requires s < 4
    ensures SuitIndex(Suits[s]) == s
  {
  }

  /** The 52 cards of the fresh deck are pairwise distinct. */
  lemma DeckDistinct()
    ensures forall i, j :: 0 <= i < j < |CreateDeck()| ==> CreateDeck()[i] != CreateDeck()[j]
  {
    DeckIndexInverse();
  }

  /** A shuffled deck: some permutation of the fresh deck (the random shuffle is abstracted). */
  ghost predicate IsShuffledDeck(deck: seq<Card>)
  {
    multiset(deck) == multiset(CreateDeck())
  }

  /** A shuffled deck still has 52 cards. */
  lemma ShuffledDeckSize(deck: seq<Card>)
    requires IsShuffledDeck(deck)
    ensures |deck| == 52
  {
    DeckIndexInverse();
    assert |multiset(deck)| == |deck|;
    assert |multiset(CreateDeck())| == |CreateDeck()|;
  }

  /** The unshuffled deck is one of the decks the shuffle may produce. */
  lemma CreateDeckIsShuffled()
    ensures IsShuffledDeck(CreateDeck())
  {
  }
}
