/**
 * The card vocabulary shared by every part of the system: four suits, thirteen ranks,
 * and the thirteen-lanes card `{ rank, suit }` that the server deals and both
 * evaluators read.
 */
module Cards {

  import opened Sorting

  datatype Suit = Spades | Hearts | Diamonds | Clubs

  datatype Rank = Two | Three | Four | Five | Six | Seven | Eight | Nine | Ten | Jack | Queen | King | Ace

  /** The standard poker order, two lowest and ace highest. */
  const PokerRanks: seq<Rank> := [Two, Three, Four, Five, Six, Seven, Eight, Nine, Ten, Jack, Queen, King, Ace]

  /** `POKER_RANKS.indexOf(rank)`: the rank's position in the poker order. */
  function RankValue(r: Rank): (v: int)
    ensures 0 <= v < 13 && PokerRanks[v] == r
  {
    match r
    case Two => 0
    case Three => 1
    case Four => 2
    case Five => 3
    case Six => 4
    case Seven => 5
    case Eight => 6
    case Nine => 7
    case Ten => 8
    case Jack => 9
    case Queen => 10
    case King => 11
    case Ace => 12
  }

  /** A card as the thirteen-lanes game passes it around. */
  datatype Card = Card(suit: Suit, rank: Rank)

  /** The rank's spelling on the wire. */
  function RankName(r: Rank): string {
    match r
    case Two => "2"
    case Three => "3"
    case Four => "4"
    case Five => "5"
    case Six => "6"
    case Seven => "7"
    case Eight => "8"
    case Nine => "9"
    case Ten => "10"
    case Jack => "J"
    case Queen => "Q"
    case King => "K"
    case Ace => "A"
  }

  /** The suit's one-letter spelling on the server. */
  function SuitLetter(s: Suit): string {
    match s
    case Spades => "S"
    case Hearts => "H"
    case Diamonds => "D"
    case Clubs => "C"
  }

  /** Rank values of a list of cards, in list order. */
  function RankValues(cards: seq<Card>): (r: seq<int>)
    ensures |r| == |cards|
    ensures forall i :: 0 <= i < |cards| ==> r[i] == RankValue(cards[i].rank)
  {
    Map((c: Card) => RankValue(c.rank), cards)
  }

  /** How many of the cards have rank value `v`. */
  function Occ(cards: seq<Card>, v: int): nat {
    multiset(RankValues(cards))[v]
  }

  /**
   * A card as the browser client holds it: suit and rank plus the shedding game's
   * comparison `value` and `suitValue`. The thirteen-lanes evaluator reads only suit and rank.
   */
  datatype ClientCard = ClientCard(suit: Suit, rank: Rank, value: int, suitValue: int)

  /** The `{ rank, suit }` the server sees of a client card. */
  function ToServerCard(c: ClientCard): Card {
    Card(c.suit, c.rank)
  }

  function ToServerCards(cs: seq<ClientCard>): (r: seq<Card>)
    ensures |r| == |cs|
    ensures forall i :: 0 <= i < |cs| ==> r[i] == ToServerCard(cs[i])
  {
    Map(ToServerCard, cs)
  }

  /** A card's key on the server, `${rank}${suit}`: the rank's spelling followed by the suit letter. */
  function CardKey(c: Card): string {
    RankName(c.rank) + SuitLetter(c.suit)
  }

  /** Different cards have different keys, so filtering by key is filtering by card. */
  lemma CardKeyInjective(a: Card, b: Card)
    requires CardKey(a) == CardKey(b)
    ensures a == b
  {
    var k := CardKey(a);
    assert |SuitLetter(a.suit)| == 1 && |SuitLetter(b.suit)| == 1;
    assert k[|k| - 1] == SuitLetter(a.suit)[0] == SuitLetter(b.suit)[0];
    assert k[..|k| - 1] == RankName(a.rank) == RankName(b.rank);
  }

  /** Keys are never empty and never contain a comma, so a comma-joined list of keys can be split again. */
  lemma CardKeyShape(c: Card)
    ensures CardKey(c) != [] && ',' !in CardKey(c)
  {
  }
}
