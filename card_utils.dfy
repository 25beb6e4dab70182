/**
 * The browser client's card helpers (client/src/utils/cardUtils.ts): the two 52-card
 * decks, round-robin dealing, the card order and card keys, and the shedding game's
 * hand detection together with the rule for beating the last play.
 */
module CardUtils {

  import opened Wrappers
  import opened Sorting
  import opened Cards
  import ThirteenEval

  // ---------------------------------------------------------------------------
  // The decks
  // ---------------------------------------------------------------------------

  /** `SUITS`, in the order that gives each suit its `suitValue`. */
  const Suits: seq<Suit> := [Clubs, Diamonds, Hearts, Spades]

  /** `RANKS`: the shedding game's order, three lowest and two highest. */
  const SheddingRanks: seq<Rank> := [Three, Four, Five, Six, Seven, Eight, Nine, Ten, Jack, Queen, King, Ace, Two]

  /** `SUITS.indexOf(suit)`. */
  function SuitValue(s: Suit): (v: int)
    ensures 0 <= v < 4 && Suits[v] == s
  {
    match s
    case Clubs => 0
    case Diamonds => 1
    case Hearts => 2
    case Spades => 3
  }

  lemma SuitValueOfIndex(m: int)
    requires 0 <= m < 4
    ensures SuitValue(Suits[m]) == m
  {
  }

  /** The card at position `k` of a deck built over `ranks`: suit by suit, and rank by rank within a suit. */
  function DeckCard(ranks: seq<Rank>, k: int): ClientCard
    requires |ranks| == 13 && 0 <= k < 52
  {
    ClientCard(Suits[k / 13], ranks[k % 13], k % 13, k / 13)
  }

  /** The two loops shared by createDeck and createPokerDeck, over a given rank order. */
  method FillDeck(ranks: seq<Rank>) returns (deck: seq<ClientCard>)
    requires |ranks| == 13
    ensures |deck| == 52
    ensures forall k :: 0 <= k < 52 ==> deck[k] == DeckCard(ranks, k)
  {
    deck := [];
    for s := 0 to |Suits|
      invariant |deck| == 13 * s
      invariant forall k :: 0 <= k < |deck| ==> deck[k] == DeckCard(ranks, k)
    {
      var suit := Suits[s];
      for i := 0 to |ranks|
        invariant |deck| == 13 * s + i
        invariant forall k :: 0 <= k < |deck| ==> deck[k] == DeckCard(ranks, k)
      {
        SuitValueOfIndex(s);
        deck := deck + [ClientCard(suit, ranks[i], i, SuitValue(suit))];
      }
    }
  }

  /** `createDeck`: the shedding game's deck, `value` being the position in the three-to-two order. */
  method CreateDeck() returns (deck: seq<ClientCard>)
    ensures |deck| == 52
    ensures forall k :: 0 <= k < 52 ==> deck[k] == DeckCard(SheddingRanks, k)
  {
    deck := FillDeck(SheddingRanks);
  }

  /** `createPokerDeck`: the thirteen-lanes deck, `value` being the position in the two-to-ace order. */
  method CreatePokerDeck() returns (deck: seq<ClientCard>)
    ensures |deck| == 52
    ensures forall k :: 0 <= k < 52 ==> deck[k] == DeckCard(PokerRanks, k)
  {
    deck := FillDeck(PokerRanks);
  }

  ghost predicate DistinctRanks(ranks: seq<Rank>) {
    forall i, j :: 0 <= i < j < |ranks| ==> ranks[i] != ranks[j]
  }

  lemma RankOrdersDistinct()
    ensures DistinctRanks(SheddingRanks) && DistinctRanks(PokerRanks)
  {
    SheddingRanksDistinct();
    PokerRanksDistinct();
  }

  lemma SheddingRanksDistinct()
    ensures DistinctRanks(SheddingRanks)
  {
  }

  lemma PokerRanksDistinct()
    ensures DistinctRanks(PokerRanks)
  {
  }

  /** A deck over thirteen different ranks holds each (suit, rank) pair exactly once. */
  lemma DeckExactlyOnce(ranks: seq<Rank>, s: Suit, r: Rank)
    requires |ranks| == 13 && DistinctRanks(ranks) && r in ranks
    ensures exists k :: 0 <= k < 52 && DeckCard(ranks, k).suit == s && DeckCard(ranks, k).rank == r
    ensures forall i, j :: (0 <= i < 52 && 0 <= j < 52 && DeckCard(ranks, i).suit == s && DeckCard(ranks, i).rank == r
                            && DeckCard(ranks, j).suit == s && DeckCard(ranks, j).rank == r) ==> i == j
  {
    var v :| 0 <= v < 13 && ranks[v] == r;
    var k := SuitValue(s) * 13 + v;
    assert DeckCard(ranks, k).suit == s && DeckCard(ranks, k).rank == r;
    forall i, j | 0 <= i < 52 && 0 <= j < 52 && DeckCard(ranks, i).suit == s && DeckCard(ranks, i).rank == r
                  && DeckCard(ranks, j).suit == s && DeckCard(ranks, j).rank == r
      ensures i == j
    {
      assert Suits[i / 13] == Suits[j / 13];
      assert i / 13 == j / 13;
      assert ranks[i % 13] == ranks[j % 13];
      assert i % 13 == j % 13;
    }
  }

  /** Different positions of a deck hold different cards. */
  lemma DeckCardsDistinct(ranks: seq<Rank>, i: int, j: int)
    requires |ranks| == 13 && 0 <= i < 52 && 0 <= j < 52 && i != j
    ensures DeckCard(ranks, i) != DeckCard(ranks, j)
  {
    assert i == 13 * (i / 13) + i % 13 && j == 13 * (j / 13) + j % 13;
  }

  /**
   * In the shedding deck `value` is the rank's place from three (0) to two (12) and `suitValue`
   * is clubs 0, diamonds 1, hearts 2, spades 3; in the poker deck `value` is the evaluator's rank value.
   */
  lemma DeckValues(k: int)
    requires 0 <= k < 52
    ensures SheddingRanks[DeckCard(SheddingRanks, k).value] == DeckCard(SheddingRanks, k).rank
    ensures DeckCard(SheddingRanks, k).suitValue == SuitValue(DeckCard(SheddingRanks, k).suit)
    ensures DeckCard(PokerRanks, k).value == RankValue(DeckCard(PokerRanks, k).rank)
    ensures DeckCard(PokerRanks, k).suitValue == SuitValue(DeckCard(PokerRanks, k).suit)
  {
    SuitValueOfIndex(k / 13);
    RankOrdersDistinct();
    var r := PokerRanks[k % 13];
    assert PokerRanks[RankValue(r)] == r;
  }

  // ---------------------------------------------------------------------------
  // compareCards, sortCards, getCardKey
  // ---------------------------------------------------------------------------

  /** `compareCards`: by value, then by suitValue. */
  function CompareCards(a: ClientCard, b: ClientCard): (r: int)
    ensures r == 0 <==> a.value == b.value && a.suitValue == b.suitValue
    ensures r < 0 <==> a.value < b.value || (a.value == b.value && a.suitValue < b.suitValue)
  {
    if a.value != b.value then a.value - b.value else a.suitValue - b.suitValue
  }

  /** The comparator's "may come first". */
  predicate CardLe(a: ClientCard, b: ClientCard) {
    CompareCards(a, b) <= 0
  }

  lemma CardOrder()
    ensures TotalPreorder(CardLe)
  {
  }

  /** `sortCards`: the stable sort by value, then suitValue. */
  function SortCards(cards: seq<ClientCard>): (r: seq<ClientCard>)
    ensures |r| == |cards|
  {
    SortBy(cards, CardLe)
  }

  /** sortCards returns the same cards, ascending by value, then suitValue. */
  lemma SortCardsSorted(cards: seq<ClientCard>)
    ensures SortedBy(SortCards(cards), CardLe)
    ensures multiset(SortCards(cards)) == multiset(cards)
  {
    CardOrder();
    SortBySorted(cards, CardLe);
  }

  /** The suit's spelling in the client. */
  function SuitName(s: Suit): string {
    match s
    case Spades => "spades"
    case Hearts => "hearts"
    case Diamonds => "diamonds"
    case Clubs => "clubs"
  }

  /** `getCardKey`: `${rank}-${suit}`. */
  function GetCardKey(c: ClientCard): string {
    RankName(c.rank) + "-" + SuitName(c.suit)
  }

  lemma RankNameShape(r: Rank)
    ensures 1 <= |RankName(r)| <= 2 && '-' !in RankName(r)
  {
  }

  lemma RankNameInjective(x: Rank, y: Rank)
    requires RankName(x) == RankName(y)
    ensures x == y
  {
  }

  lemma SuitNameInjective(x: Suit, y: Suit)
    requires SuitName(x) == SuitName(y)
    ensures x == y
  {
    assert SuitName(x)[0] == SuitName(y)[0];
  }

  /** Two cards with the same key have the same rank and suit. */
  lemma GetCardKeyInjective(a: ClientCard, b: ClientCard)
    requires GetCardKey(a) == GetCardKey(b)
    ensures a.rank == b.rank && a.suit == b.suit
  {
    var ra, rb := RankName(a.rank), RankName(b.rank);
    var k := GetCardKey(a);
    RankNameShape(a.rank);
    RankNameShape(b.rank);
    assert k[|ra|] == '-';
    assert GetCardKey(b)[|rb|] == '-';
    assert |ra| == |rb|;
    assert k[..|ra|] == ra && GetCardKey(b)[..|rb|] == rb;
    RankNameInjective(a.rank, b.rank);
    assert k[|ra| + 1..] == SuitName(a.suit) && GetCardKey(b)[|rb| + 1..] == SuitName(b.suit);
    SuitNameInjective(a.suit, b.suit);
  }

  /** A card exactly as a deck over `ranks` builds it. */
  ghost predicate DeckShaped(ranks: seq<Rank>, c: ClientCard) {
    |ranks| == 13 && 0 <= c.value < 13 && 0 <= c.suitValue < 4 && c == DeckCard(ranks, 13 * c.suitValue + c.value)
  }

  /** Among cards of one deck, equal keys mean equal cards, and so does comparing equal. */
  lemma DeckShapedKeys(ranks: seq<Rank>, a: ClientCard, b: ClientCard)
    requires DistinctRanks(ranks) && DeckShaped(ranks, a) && DeckShaped(ranks, b)
    ensures GetCardKey(a) == GetCardKey(b) <==> a == b
    ensures CompareCards(a, b) == 0 <==> a == b
  {
    if GetCardKey(a) == GetCardKey(b) {
      GetCardKeyInjective(a, b);
      var ka, kb := 13 * a.suitValue + a.value, 13 * b.suitValue + b.value;
      assert Suits[ka / 13] == Suits[kb / 13] && ranks[ka % 13] == ranks[kb % 13];
    }
  }

  // ---------------------------------------------------------------------------
  // dealCards
  // ---------------------------------------------------------------------------

  /** The first `m` cards dealt to seat `p` of `n`: positions p, p + n, p + 2n, ... */
  function DealtTo(deck: seq<ClientCard>, n: nat, p: nat, m: nat): (r: seq<ClientCard>)
    requires p < n && m * n <= |deck|
    ensures |r| == m
  {
    if m == 0 then []
    else
      SlotBelow(m - 1, p, n, m);
      DealtTo(deck, n, p, m - 1) + [deck[(m - 1) * n + p]]
  }

  /** Every card dealt to seat `p` sits at a deck position of the form `k * n + p`, `k < m`. */
  lemma {:induction false} DealtToMembers(deck: seq<ClientCard>, n: nat, p: nat, m: nat, c: ClientCard) returns (k: nat)
    requires p < n && m * n <= |deck| && c in DealtTo(deck, n, p, m)
    ensures k < m && k * n + p < m * n && c == deck[k * n + p]
  {
    SlotBelow(m - 1, p, n, m);
    if c == deck[(m - 1) * n + p] {
      k := m - 1;
    } else {
      assert c in DealtTo(deck, n, p, m - 1);
      SlotBelow(m - 1, 0, n, m);
      k := DealtToMembers(deck, n, p, m - 1, c);
      SlotBelow(k, p, n, m);
    }
  }

  /** What dealCards returns: seat `p`'s `floor(52 / n)` cards, sorted. */
  function Deal(deck: seq<ClientCard>, n: nat): (hands: seq<seq<ClientCard>>)
    requires 1 <= n && 52 / n * n <= |deck|
    ensures |hands| == n
  {
    seq(n, p requires 0 <= p < n => SortCards(DealtTo(deck, n, p, 52 / n)))
  }

  /** A deck of 52 cards is enough for any number of seats. */
  lemma DealFits(n: nat)
    requires n >= 1
    ensures 52 / n * n <= 52
  {
    DivModUnique(52, n, 52 / n, 52 % n);
  }

  /** The sorted cards the deal of a 52-card deck gives seat `i`. */
  function DealtHand(deck: seq<ClientCard>, n: nat, i: nat): seq<ClientCard>
    requires 1 <= n && |deck| == 52 && i < n
  {
    DealFits(n);
    Deal(deck, n)[i]
  }

  /** How many cards seat `p` holds after `i` cards went round. */
  function Taken(i: nat, n: nat, p: nat): nat
    requires n >= 1
  {
    if p < i % n then i / n + 1 else i / n
  }

  lemma DivModUnique(x: int, n: int, q: int, r: int)
    requires n >= 1 && 0 <= r < n && x == q * n + r
    ensures x / n == q && x % n == r
  {
    var q', r' := x / n, x % n;
    assert x == q' * n + r';
    assert (q' - q) * n == r - r';
    if q' != q {
      NonZeroProduct(q' - q, n);
    }
  }

  lemma NonZeroProduct(d: int, n: int)
    requires n >= 1 && d != 0
    ensures d * n >= n || d * n <= -n
  {
    if d > 0 {
      MulMonotone(1, d, n);
    } else {
      MulMonotone(1, -d, n);
      assert (-d) * n == -(d * n);
    }
  }

  lemma MulMonotone(a: int, b: int, n: int)
    requires n >= 1 && a <= b
    ensures a * n <= b * n
  {
    assert (b - a) * n >= 0;
  }

  /** Position `k * n + p` of a seat `p < n` lies before `m * n` when `k < m`. */
  lemma SlotBelow(k: int, p: int, n: int, m: int)
    requires n >= 1 && 0 <= p < n && k < m
    ensures k * n + p < m * n
  {
    MulMonotone(k + 1, m, n);
    assert (k + 1) * n == k * n + n;
  }

  /** While at most `per * n` cards went round, no seat holds more than `per`. */
  lemma TakenFits(i: nat, n: nat, per: nat)
    requires n >= 1 && i <= per * n
    ensures forall p :: 0 <= p < n ==> Taken(i, n, p) <= per && Taken(i, n, p) * n <= per * n
  {
    var q := i / n;
    assert i == q * n + i % n;
    if q >= per {
      MulMonotone(per, q, n);
      assert i % n == 0 && q == per;
    } else {
      forall p | 0 <= p < n ensures Taken(i, n, p) <= per {
      }
    }
    forall p | 0 <= p < n ensures Taken(i, n, p) * n <= per * n {
      MulMonotone(Taken(i, n, p), per, n);
    }
  }

  /** One more card dealt: seat `i % n` gets one more and gets deck position `i`; no other seat changes. */
  lemma DealStep(i: nat, n: nat)
    requires n >= 1
    ensures Taken(i + 1, n, i % n) == Taken(i, n, i % n) + 1
    ensures i == Taken(i, n, i % n) * n + i % n
    ensures forall p :: 0 <= p < n && p != i % n ==> Taken(i + 1, n, p) == Taken(i, n, p)
  {
    var q, r := i / n, i % n;
    assert i == q * n + r;
    if r + 1 < n {
      DivModUnique(i + 1, n, q, r + 1);
    } else {
      DivModUnique(i + 1, n, q + 1, 0);
    }
  }

  /** `dealCards`: the deck goes round the seats one card at a time, then every hand is sorted. */
  method DealCards(deck: seq<ClientCard>, n: nat) returns (hands: seq<seq<ClientCard>>)
    requires 1 <= n && 52 / n * n <= |deck|
    ensures hands == Deal(deck, n)
  {
    hands := DealRoundRobin(deck, n);
    ghost var dealt := hands;
    for p := 0 to n
      invariant |hands| == n
      invariant forall q :: 0 <= q < p ==> hands[q] == SortCards(dealt[q])
      invariant forall q :: p <= q < n ==> hands[q] == dealt[q]
    {
      hands := hands[p := SortCards(hands[p])];
    }
    DealAt(deck, n, dealt, hands);
  }

  lemma DealAt(deck: seq<ClientCard>, n: nat, dealt: seq<seq<ClientCard>>, hands: seq<seq<ClientCard>>)
    requires 1 <= n && 52 / n * n <= |deck| && |hands| == |dealt| == n
    requires forall q :: 0 <= q < n ==> dealt[q] == DealtTo(deck, n, q, 52 / n)
    requires forall q :: 0 <= q < n ==> hands[q] == SortCards(dealt[q])
    ensures hands == Deal(deck, n)
  {
  }

  /** The dealing loop of dealCards: card `i` goes to seat `i % n`. */
  method DealRoundRobin(deck: seq<ClientCard>, n: nat) returns (hands: seq<seq<ClientCard>>)
    requires 1 <= n && 52 / n * n <= |deck|
    ensures |hands| == n
    ensures forall p :: 0 <= p < n ==> hands[p] == DealtTo(deck, n, p, 52 / n)
  {
    hands := seq(n, p => []);
    var perPlayer := 52 / n;
    for i := 0 to perPlayer * n
      invariant |hands| == n
      invariant forall p :: 0 <= p < n ==> Taken(i, n, p) * n <= |deck|
      invariant forall p :: 0 <= p < n ==> hands[p] == DealtTo(deck, n, p, Taken(i, n, p))
    {
      DealStep(i, n);
      TakenFits(i + 1, n, perPlayer);
      var seat := i % n;
      hands := hands[seat := hands[seat] + [deck[i]]];
    }
    DivModUnique(perPlayer * n, n, perPlayer, 0);
  }

  /** No two deck positions hold the same card. */
  ghost predicate DistinctCards(deck: seq<ClientCard>) {
    forall i, j :: 0 <= i < j < |deck| ==> deck[i] != deck[j]
  }

  /** A card held by seat `p` after the deal comes from a deck position `x` with `x % n == p`. */
  lemma DealMember(deck: seq<ClientCard>, n: nat, p: nat, c: ClientCard) returns (x: nat)
    requires 1 <= n && 52 / n * n <= |deck| && p < n && c in Deal(deck, n)[p]
    ensures x < 52 / n * n && x % n == p && c == deck[x]
  {
    var m := 52 / n;
    var dealt := DealtTo(deck, n, p, m);
    assert Deal(deck, n)[p] == SortCards(dealt);
    assert c in multiset(SortCards(dealt));
    assert c in dealt;
    var k := DealtToMembers(deck, n, p, m, c);
    DivModUnique(k * n + p, n, k, p);
    x := k * n + p;
  }

  /** Every seat gets `floor(52 / n)` cards, sorted, all from the dealt part of the deck. */
  lemma DealSeat(deck: seq<ClientCard>, n: nat, p: nat, c: ClientCard)
    requires 1 <= n && 52 / n * n <= |deck| && p < n
    ensures |Deal(deck, n)[p]| == 52 / n && SortedBy(Deal(deck, n)[p], CardLe)
    ensures c in Deal(deck, n)[p] ==> c in deck[..52 / n * n]
  {
    SortCardsSorted(DealtTo(deck, n, p, 52 / n));
    if c in Deal(deck, n)[p] {
      var x := DealMember(deck, n, p, c);
      assert deck[..52 / n * n][x] == c;
    }
  }

  lemma DistinctAt(deck: seq<ClientCard>, x: nat, y: nat)
    requires DistinctCards(deck) && x < |deck| && y < |deck| && x != y
    ensures deck[x] != deck[y]
  {
    if y < x {
      assert deck[y] != deck[x];
    }
  }

  /** From a deck without repeats no card reaches two seats. */
  lemma DealDisjoint(deck: seq<ClientCard>, n: nat, p: nat, q: nat, c: ClientCard)
    requires 1 <= n && 52 / n * n <= |deck| && DistinctCards(deck)
    requires p < n && q < n && p != q
    ensures !(c in Deal(deck, n)[p] && c in Deal(deck, n)[q])
  {
    if c in Deal(deck, n)[p] && c in Deal(deck, n)[q] {
      var x := DealMember(deck, n, p, c);
      var y := DealMember(deck, n, q, c);
      DistinctAt(deck, x, y);
    }
  }

  // ---------------------------------------------------------------------------
  // detectHandType, detect5CardHand, checkStraight
  // ---------------------------------------------------------------------------

  datatype HandType = Single | Pair | Triple | Straight | Flush | FullHouse | FourOfAKind | StraightFlush | PassType

  /** A detected play: its type, its cards sorted, and its comparison value. */
  datatype Hand = Hand(kind: HandType, cards: seq<ClientCard>, value: int)

  /** Each value step is exactly one: the loop of checkStraight, as a predicate. */
  predicate ConsecutiveValues(sorted: seq<ClientCard>) {
    forall i :: 1 <= i < |sorted| ==> sorted[i].value == sorted[i - 1].value + 1
  }

  /** `checkStraight`: false at the first value that does not follow its predecessor. */
  method CheckStraight(sorted: seq<ClientCard>) returns (r: bool)
    ensures r == ConsecutiveValues(sorted)
  {
    var i := 1;
    while i < |sorted|
      invariant 1 <= i
      invariant forall k :: 1 <= k < i && k < |sorted| ==> sorted[k].value == sorted[k - 1].value + 1
    {
      if sorted[i].value != sorted[i - 1].value + 1 {
        return false;
      }
      i := i + 1;
    }
    return true;
  }

  /** The `rankCounts` record: one entry per value, with its number of cards, in first-seen order. */
  function ValueTally(cards: seq<ClientCard>): (m: seq<ThirteenEval.Entry>)
    ensures ThirteenEval.UniqueRanks(m) && ThirteenEval.Positive(m)
    ensures ThirteenEval.Total(m) == |cards|
  {
    if cards == [] then []
    else
      var last := |cards| - 1;
      ThirteenEval.Bump(ValueTally(cards[..last]), cards[last].value)
  }

  /** Every key of the tally is the value of some card. */
  lemma {:induction false} ValueTallyKeys(cards: seq<ClientCard>, k: int)
    requires k in ThirteenEval.Keys(ValueTally(cards))
    ensures exists i :: 0 <= i < |cards| && cards[i].value == k
  {
    var last := |cards| - 1;
    if k != cards[last].value {
      ValueTallyKeys(cards[..last], k);
      var i :| 0 <= i < last && cards[..last][i].value == k;
      assert cards[i].value == k;
    }
  }

  /** `Object.keys(rankCounts).find(k => rankCounts[k] === count)`. */
  function FirstKeyWithCount(m: seq<ThirteenEval.Entry>, count: int): (r: Option<int>)
    ensures r.Some? ==> r.value in ThirteenEval.Keys(m)
    ensures r.None? <==> count !in ThirteenEval.EntryCounts(m)
  {
    if m == [] then None
    else if m[0].count == count then Some(m[0].rank)
    else
      assert ThirteenEval.EntryCounts(m) == [m[0].count] + ThirteenEval.EntryCounts(m[1..]);
      FirstKeyWithCount(m[1..], count)
  }

  /** The counts, largest first: `Object.values(rankCounts).sort((a, b) => b - a)`. */
  function SortedCounts(m: seq<ThirteenEval.Entry>): (c: seq<int>)
    ensures multiset(c) == multiset(ThirteenEval.EntryCounts(m))
  {
    SortBy(ThirteenEval.EntryCounts(m), ThirteenEval.Desc)
  }

  /** The largest count is a count of some key, so looking that count up finds a key. */
  lemma LeadingCountPresent(m: seq<ThirteenEval.Entry>, count: int)
    requires count >= 0
    ensures ThirteenEval.At(SortedCounts(m), 0) == count ==> FirstKeyWithCount(m, count).Some?
  {
    if ThirteenEval.At(SortedCounts(m), 0) == count {
      assert SortedCounts(m)[0] in multiset(SortedCounts(m));
    }
  }

  /** `detect5CardHand` on the five sorted cards. */
  function Detect5CardHand(sorted: seq<ClientCard>): (r: Option<Hand>)
    requires |sorted| == 5
    ensures r.Some? ==> r.value.cards == sorted && FiveCardKind(r.value.kind)
  {
    var tally := ValueTally(sorted);
    var counts := SortedCounts(tally);
    LeadingCountPresent(tally, 4);
    LeadingCountPresent(tally, 3);
    Classify5(sorted, forall i :: 0 <= i < |sorted| ==> sorted[i].suit == sorted[0].suit, ConsecutiveValues(sorted),
              counts, FirstKeyWithCount(tally, 4), FirstKeyWithCount(tally, 3))
  }

  /** The tests of detect5CardHand in order, given the flush and straight flags, the counts and the keys found. */
  function Classify5(sorted: seq<ClientCard>, isFlush: bool, isStraight: bool, counts: seq<int>,
                     four: Option<int>, three: Option<int>): (r: Option<Hand>)
    requires |sorted| == 5
    requires ThirteenEval.At(counts, 0) == 4 ==> four.Some?
    requires ThirteenEval.At(counts, 0) == 3 ==> three.Some?
    ensures r.Some? ==> r.value.cards == sorted && FiveCardKind(r.value.kind)
  {
    var high := sorted[|sorted| - 1];
    if isFlush && isStraight then Some(Hand(StraightFlush, sorted, 800 + high.value * 4 + high.suitValue))
    else if ThirteenEval.At(counts, 0) == 4 then Some(Hand(FourOfAKind, sorted, 700 + four.value))
    else if ThirteenEval.At(counts, 0) == 3 && ThirteenEval.At(counts, 1) == 2 then Some(Hand(FullHouse, sorted, 600 + three.value))
    else if isFlush then Some(Hand(Flush, sorted, 500 + high.value * 4 + high.suitValue))
    else if isStraight then Some(Hand(Straight, sorted, 400 + high.value * 4 + high.suitValue))
    else None
  }

  /** How many cards a hand of each type holds. */
  /** The five-card hand types. */
  predicate FiveCardKind(kind: HandType) {
    kind.Straight? || kind.Flush? || kind.FullHouse? || kind.FourOfAKind? || kind.StraightFlush?
  }

  function KindSize(kind: HandType): int {
    match kind
    case Single => 1
    case Pair => 2
    case Triple => 3
    case PassType => 0
    case _ => 5
  }

  /** Every card has value `v`. */
  ghost predicate AllValue(cards: seq<ClientCard>, v: int) {
    forall i :: 0 <= i < |cards| ==> cards[i].value == v
  }

  lemma AllValuePermutation(a: seq<ClientCard>, b: seq<ClientCard>, v: int)
    requires multiset(a) == multiset(b)
    ensures AllValue(a, v) <==> AllValue(b, v)
  {
    forall i | 0 <= i < |b| ensures b[i] in a {
      assert b[i] in multiset(b);
    }
    forall i | 0 <= i < |a| ensures a[i] in b {
      assert a[i] in multiset(a);
    }
  }

  /** The one-card branch of detectHandType: always a single, worth its value then its suit. */
  function DetectSingle(sorted: seq<ClientCard>): (h: Hand)
    requires |sorted| == 1
    ensures h.cards == sorted && h.kind == Single
  {
    Hand(Single, sorted, sorted[0].value * 4 + sorted[0].suitValue)
  }

  /** The two-card branch of detectHandType: a pair when both values agree. */
  function DetectPair(cards: seq<ClientCard>, sorted: seq<ClientCard>): (r: Option<Hand>)
    requires |cards| == 2 && sorted == SortCards(cards)
    ensures r.Some? <==> cards[0].value == cards[1].value
    ensures r.Some? ==> r.value.cards == sorted && r.value.kind == Pair
  {
    AllValuePermutation(sorted, cards, cards[0].value);
    AllValuePermutation(sorted, cards, sorted[0].value);
    if sorted[0].value == sorted[1].value then Some(Hand(Pair, sorted, sorted[1].value * 4 + sorted[1].suitValue))
    else None
  }

  /** The three-card branch of detectHandType: a triple when all three values agree. */
  function DetectTriple(cards: seq<ClientCard>, sorted: seq<ClientCard>): (r: Option<Hand>)
    requires |cards| == 3 && sorted == SortCards(cards)
    ensures r.Some? <==> cards[0].value == cards[1].value == cards[2].value
    ensures r.Some? ==> r.value.cards == sorted && r.value.kind == Triple
  {
    AllValuePermutation(sorted, cards, cards[0].value);
    AllValuePermutation(sorted, cards, sorted[0].value);
    if sorted[0].value == sorted[1].value && sorted[1].value == sorted[2].value then Some(Hand(Triple, sorted, sorted[0].value))
    else None
  }

  /** `detectHandType`: the cards are sorted, then read as a single, pair, triple or five-card hand. */
  function DetectHandType(cards: seq<ClientCard>): (r: Option<Hand>)
    ensures r.Some? ==> r.value.cards == SortCards(cards) && KindSize(r.value.kind) == |cards|
  {
    var sorted := SortCards(cards);
    if |cards| == 0 then None
    else if |cards| == 1 then Some(DetectSingle(sorted))
    else if |cards| == 2 then DetectPair(cards, sorted)
    else if |cards| == 3 then DetectTriple(cards, sorted)
    else if |cards| == 5 then Detect5CardHand(sorted)
    else None
  }

  /** Which sizes detectHandType accepts, and when a pair or a triple is recognised. */
  lemma DetectHandTypeSizes(cards: seq<ClientCard>)
    ensures |cards| == 0 || |cards| == 4 || |cards| > 5 ==> DetectHandType(cards).None?
    ensures |cards| == 1 ==> DetectHandType(cards).Some?
    ensures |cards| == 2 ==> (DetectHandType(cards).Some? <==> cards[0].value == cards[1].value)
    ensures |cards| == 3 ==> (DetectHandType(cards).Some? <==> cards[0].value == cards[1].value == cards[2].value)
  {
    if |cards| == 2 {
      assert DetectHandType(cards) == DetectPair(cards, SortCards(cards));
    } else if |cards| == 3 {
      assert DetectHandType(cards) == DetectTriple(cards, SortCards(cards));
    }
  }

  /** A card of either deck: value 0..12 and suitValue 0..3. */
  predicate WellFormed(c: ClientCard) {
    0 <= c.value <= 12 && 0 <= c.suitValue <= 3
  }

  /** The hundreds band of each five-card type. */
  function Band(kind: HandType): int {
    match kind
    case Straight => 4
    case Flush => 5
    case FullHouse => 6
    case FourOfAKind => 7
    case StraightFlush => 8
    case _ => 0
  }

  /** Each five-card type keeps its value inside its own band of a hundred. */
  lemma Detect5Bands(sorted: seq<ClientCard>)
    requires |sorted| == 5 && forall i :: 0 <= i < 5 ==> WellFormed(sorted[i])
    ensures var r := Detect5CardHand(sorted);
      r.Some? ==> 100 * Band(r.value.kind) <= r.value.value <= 100 * Band(r.value.kind) + 51
  {
    var tally := ValueTally(sorted);
    var four, three := FirstKeyWithCount(tally, 4), FirstKeyWithCount(tally, 3);
    if four.Some? {
      ValueTallyKeys(sorted, four.value);
    }
    if three.Some? {
      ValueTallyKeys(sorted, three.value);
    }
    var counts := SortedCounts(tally);
    LeadingCountPresent(tally, 4);
    LeadingCountPresent(tally, 3);
    Classify5Bands(sorted, forall i :: 0 <= i < |sorted| ==> sorted[i].suit == sorted[0].suit, ConsecutiveValues(sorted),
                   counts, four, three);
  }

  lemma Classify5Bands(sorted: seq<ClientCard>, isFlush: bool, isStraight: bool, counts: seq<int>,
                       four: Option<int>, three: Option<int>)
    requires |sorted| == 5 && WellFormed(sorted[4])
    requires ThirteenEval.At(counts, 0) == 4 ==> four.Some?
    requires ThirteenEval.At(counts, 0) == 3 ==> three.Some?
    requires four.Some? ==> 0 <= four.value <= 12
    requires three.Some? ==> 0 <= three.value <= 12
    ensures var r := Classify5(sorted, isFlush, isStraight, counts, four, three);
      r.Some? ==> 100 * Band(r.value.kind) <= r.value.value <= 100 * Band(r.value.kind) + 51
  {
  }

  /** So a five-card hand of a higher type always has the higher value. */
  lemma FiveCardTypesOrdered(x: seq<ClientCard>, y: seq<ClientCard>)
    requires |x| == 5 && forall i :: 0 <= i < 5 ==> WellFormed(x[i])
    requires |y| == 5 && forall i :: 0 <= i < 5 ==> WellFormed(y[i])
    requires Detect5CardHand(x).Some? && Detect5CardHand(y).Some?
    requires Band(Detect5CardHand(x).value.kind) > Band(Detect5CardHand(y).value.kind)
    ensures Detect5CardHand(x).value.value > Detect5CardHand(y).value.value
  {
    Detect5Bands(x);
    Detect5Bands(y);
  }

  // ---------------------------------------------------------------------------
  // canPlayOn, findPlayerWithCard
  // ---------------------------------------------------------------------------

  /** `canPlayOn`: anything leads; otherwise same size, and same type or both five cards, and a higher value. */
  function CanPlayOn(newHand: Hand, lastPlay: Option<Hand>): (r: bool)
    ensures lastPlay.None? ==> r
    ensures lastPlay.Some? ==>
      (r <==> |newHand.cards| == |lastPlay.value.cards| && newHand.value > lastPlay.value.value
              && (newHand.kind == lastPlay.value.kind || |newHand.cards| == 5))
  {
    if lastPlay.None? then true
    else
      var last := lastPlay.value;
      if |newHand.cards| != |last.cards| then false
      else if newHand.kind != last.kind then
        if |newHand.cards| == 5 && |last.cards| == 5 then newHand.value > last.value
        else false
      else newHand.value > last.value
  }

  /** Beating is a strict order: no hand beats itself, and beating is transitive. */
  lemma CanPlayOnStrict(a: Hand, b: Hand, c: Hand)
    ensures !CanPlayOn(a, Some(a))
    ensures CanPlayOn(a, Some(b)) && CanPlayOn(b, Some(c)) ==> CanPlayOn(a, Some(c))
  {
  }

  /** The hand holds the card of that rank and suit. */
  predicate HoldsCard(cards: seq<ClientCard>, rank: Rank, suit: Suit) {
    exists i :: 0 <= i < |cards| && cards[i].rank == rank && cards[i].suit == suit
  }

  /** `findPlayerWithCard`: the first seat whose hand holds the card, or -1. */
  function FindPlayerWithCard(hands: seq<seq<ClientCard>>, rank: Rank, suit: Suit): (r: int)
    ensures -1 <= r < |hands|
    ensures r >= 0 ==> HoldsCard(hands[r], rank, suit) && forall q :: 0 <= q < r ==> !HoldsCard(hands[q], rank, suit)
    ensures r == -1 <==> forall q :: 0 <= q < |hands| ==> !HoldsCard(hands[q], rank, suit)
  {
    if hands == [] then -1
    else if HoldsCard(hands[0], rank, suit) then 0
    else
      var rest := FindPlayerWithCard(hands[1..], rank, suit);
      if rest == -1 then -1 else rest + 1
  }
}
