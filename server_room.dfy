/**
 * The server's side of a thirteen-lanes room: the fresh deck, the order-free key of a
 * hand, the check of a submitted arrangement, the computer players' turn, the pairwise
 * round scorer and the reset for a new round.
 */
module ServerRoom {

  import opened Wrappers
  import opened Sorting
  import opened TextOrder
  import opened Cards
  import opened ThirteenEval
  import opened BotArrange
  import opened Ledger

  // ---------------------------------------------------------------- the deck

  /** `SUITS`, in the server's order. */
  const Suits: seq<Suit> := [Spades, Hearts, Diamonds, Clubs]

  function SuitIndex(s: Suit): (i: int)
    ensures 0 <= i < 4 && Suits[i] == s
  {
    match s
    case Spades => 0
    case Hearts => 1
    case Diamonds => 2
    case Clubs => 3
  }

  /** The card at position `k` of a fresh deck: suit by suit, and 2 up to A within a suit. */
  function DeckCard(k: int): Card
    requires 0 <= k < 52
  {
    Card(Suits[k / 13], PokerRanks[k % 13])
  }

  /** Where a card lies in a fresh deck. */
  function DeckIndex(c: Card): (k: int)
    ensures 0 <= k < 52
  {
    13 * SuitIndex(c.suit) + RankValue(c.rank)
  }

  /** Positions and cards correspond one to one. */
  lemma DeckIndexInverse(c: Card, k: int)
    requires 0 <= k < 52
    ensures DeckCard(DeckIndex(c)) == c
    ensures DeckIndex(DeckCard(k)) == k
  {
    var s, r := SuitIndex(c.suit), RankValue(c.rank);
    assert (13 * s + r) / 13 == s && (13 * s + r) % 13 == r;
    var d := DeckCard(k);
    assert SuitIndex(d.suit) == k / 13 by {
      assert Suits[SuitIndex(d.suit)] == Suits[k / 13];
    }
    assert RankValue(d.rank) == k % 13 by {
      assert PokerRanks[RankValue(d.rank)] == PokerRanks[k % 13];
    }
  }

  /** `createDeck`: 52 cards, one for each suit and rank. */
  method CreateDeck() returns (deck: seq<Card>)
    ensures |deck| == 52
    ensures forall k :: 0 <= k < 52 ==> deck[k] == DeckCard(k)
    ensures forall c: Card :: deck[DeckIndex(c)] == c
    ensures forall i, j :: 0 <= i < j < 52 ==> deck[i] != deck[j]
  {
    deck := [];
    for s := 0 to 4
      invariant |deck| == 13 * s
      invariant forall k :: 0 <= k < |deck| ==> deck[k] == DeckCard(k)
    {
      for r := 0 to 13
        invariant |deck| == 13 * s + r
        invariant forall k :: 0 <= k < |deck| ==> deck[k] == DeckCard(k)
      {
        assert (13 * s + r) / 13 == s && (13 * s + r) % 13 == r;
        deck := deck + [Card(Suits[s], PokerRanks[r])];
      }
    }
    forall c: Card ensures deck[DeckIndex(c)] == c {
      DeckIndexInverse(c, 0);
    }
    forall i, j | 0 <= i < j < 52 ensures deck[i] != deck[j] {
      DeckIndexInverse(deck[i], i);
      DeckIndexInverse(deck[j], j);
    }
  }

  // ---------------------------------------------------------------- cardsKey

  /** `cardsKey`: the card keys, sorted as strings and joined with commas. */
  function CardsKey(cards: seq<Card>): string {
    Join(SortBy(Map(CardKey, cards), LessEq), ',')
  }

  lemma CardKeysSeparable(keys: seq<string>, cards: seq<Card>)
    requires multiset(keys) == multiset(Map(CardKey, cards))
    ensures Separable(keys, ',')
  {
    forall i | 0 <= i < |keys| ensures keys[i] != [] && ',' !in keys[i] {
      assert keys[i] in multiset(Map(CardKey, cards));
      var j :| 0 <= j < |cards| && Map(CardKey, cards)[j] == keys[i];
      CardKeyShape(cards[j]);
    }
  }

  /** Two lists of cards get the same key exactly when they hold the same cards, counted with multiplicity. */
  lemma CardsKeyMultiset(a: seq<Card>, b: seq<Card>)
    ensures CardsKey(a) == CardsKey(b) <==> multiset(a) == multiset(b)
  {
    var ka, kb := Map(CardKey, a), Map(CardKey, b);
    var sa, sb := SortBy(ka, LessEq), SortBy(kb, LessEq);
    StringOrders();
    if multiset(a) == multiset(b) {
      MapPermutation(CardKey, a, b);
      SortBySorted(ka, LessEq);
      SortBySorted(kb, LessEq);
      SortedUnique(sa, sb, LessEq);
    }
    if CardsKey(a) == CardsKey(b) {
      CardKeysSeparable(sa, a);
      CardKeysSeparable(sb, b);
      JoinInjective(sa, sb, ',');
      assert Injective(CardKey) by {
        forall x, y | CardKey(x) == CardKey(y) ensures x == y {
          CardKeyInjective(x, y);
        }
      }
      MapInjectiveMultiset(CardKey, a, b);
    }
  }

  /** Reordering the cards never changes the key. */
  lemma CardsKeyOrderFree(a: seq<Card>, b: seq<Card>)
    requires multiset(a) == multiset(b)
    ensures CardsKey(a) == CardsKey(b)
  {
    CardsKeyMultiset(a, b);
  }

  // ---------------------------------------------------------------- players and submissions

  datatype Phase = Waiting | Arranging | Result

  datatype BotLevel = Normal | Competitive

  datatype Player = Player(id: string, name: string, isBot: bool, botLevel: BotLevel, hand: seq<Card>,
                           arrangement: Option<Arrangement>, ready: bool, fouled: bool, total: int)

  /** A lane list as a client may send it: each lane may be missing. */
  datatype Submitted = Submitted(top: Option<seq<Card>>, middle: Option<seq<Card>>, bottom: Option<seq<Card>>)

  function OrEmpty(lane: Option<seq<Card>>): seq<Card> {
    match lane
    case Some(cards) => cards
    case None => []
  }

  /** `normalizeArrangement`: a missing arrangement or lane becomes an empty lane. */
  function NormalizeArrangement(a: Option<Submitted>): (r: Arrangement)
    ensures a.None? ==> r == Arrangement([], [], [])
    ensures a.Some? ==> (a.value.top.Some? ==> r.top == a.value.top.value) && (a.value.top.None? ==> r.top == [])
    ensures a.Some? ==> (a.value.middle.Some? ==> r.middle == a.value.middle.value) && (a.value.middle.None? ==> r.middle == [])
    ensures a.Some? ==> (a.value.bottom.Some? ==> r.bottom == a.value.bottom.value) && (a.value.bottom.None? ==> r.bottom == [])
  {
    match a
    case None => Arrangement([], [], [])
    case Some(s) => Arrangement(OrEmpty(s.top), OrEmpty(s.middle), OrEmpty(s.bottom))
  }

  /** `allReady`: at least two players and every one of them ready. */
  predicate AllReady(ps: seq<Player>) {
    |ps| >= 2 && forall i :: 0 <= i < |ps| ==> ps[i].ready
  }

  /** `players.find(x => x.id === id)`: the first player with that id. */
  function IndexOf(ps: seq<Player>, id: string): (r: Option<nat>)
    ensures r.Some? ==> r.value < |ps| && ps[r.value].id == id && forall j :: 0 <= j < r.value ==> ps[j].id != id
    ensures r.None? ==> forall j :: 0 <= j < |ps| ==> ps[j].id != id
  {
    if ps == [] then None
    else if ps[0].id == id then Some(0)
    else match IndexOf(ps[1..], id)
      case None => None
      case Some(k) => Some(k + 1)
  }

  /** Whether a submission from `p` ends up fouled: wrong sizes, cards other than the dealt hand, or lanes out of order. */
  function SubmissionFouled(p: Player, a: Arrangement): bool {
    var sizesBad := |a.top| != 3 || |a.middle| != 5 || |a.bottom| != 5 || |a.top| + |a.middle| + |a.bottom| != 13;
    var cardsBad := CardsKey(p.hand) != CardsKey(a.top + a.middle + a.bottom);
    p.fouled || sizesBad || cardsBad || !IsValidArrangement(Some(a))
  }

  /** The checks `submitArrangement` runs on a submission, in order: sizes, then the cards, then the lane order. */
  method CheckSubmission(p: Player, a: Arrangement) returns (fouled: bool)
    ensures fouled == SubmissionFouled(p, a)
  {
    fouled := p.fouled;
    var totalCount := |a.top| + |a.middle| + |a.bottom|;
    if |a.top| != 3 || |a.middle| != 5 || |a.bottom| != 5 || totalCount != 13 {
      fouled := true;
    }
    var handKey := CardsKey(p.hand);
    var arrKey := CardsKey(a.top + a.middle + a.bottom);
    if handKey != arrKey {
      fouled := true;
    }
    if !fouled && !IsValidArrangement(Some(a)) {
      fouled := true;
    }
  }

  /** For a player not already fouled: the submission fouls exactly when its sizes are not 3/5/5, its cards are not the hand, or its lanes are out of order. */
  lemma SubmissionFouledMeaning(p: Player, a: Arrangement)
    requires !p.fouled
    ensures SubmissionFouled(p, a) <==>
      !HasLaneSizes(a) || multiset(a.top + a.middle + a.bottom) != multiset(p.hand) || !ValidCandidate(a)
  {
    CardsKeyMultiset(p.hand, a.top + a.middle + a.bottom);
  }

  /** A clean submission is a valid arrangement of exactly the dealt cards. */
  lemma CleanSubmission(p: Player, a: Arrangement)
    requires !SubmissionFouled(p, a)
    ensures ValidCandidate(a) && HasLaneSizes(a)
    ensures multiset(a.top) + multiset(a.middle) + multiset(a.bottom) == multiset(p.hand)
  {
    CardsKeyMultiset(p.hand, a.top + a.middle + a.bottom);
  }

  /** The objective a computer player of this level maximises. */
  function LevelObjective(level: BotLevel): Arrangement -> int {
    match level
    case Normal => NormalObjective
    case Competitive => CompetitiveObjective
  }

  /** What `botAutoArrange` makes of a player: computers get their best arrangement and are marked ready; others are left alone. */
  function AutoArranged(p: Player): Player {
    if !p.isBot then p
    else
      var a := PickBest(p.hand, LevelObjective(p.botLevel));
      p.(arrangement := Some(a), fouled := !IsValidArrangement(Some(a)), ready := true)
  }

  /** The body of `botAutoArrange` for a computer player: its level's best arrangement, fouled when that is invalid, and ready. */
  method ArrangeBot(bot: Player) returns (r: Player)
    requires bot.isBot
    ensures r == AutoArranged(bot)
  {
    var a;
    if bot.botLevel == Competitive {
      a := ArrangeCompetitive(bot.hand);
    } else {
      a := ArrangeNormal(bot.hand);
    }
    assert a == PickBest(bot.hand, LevelObjective(bot.botLevel));
    r := bot.(arrangement := Some(a), fouled := !IsValidArrangement(Some(a)), ready := true);
  }

  /** Auto-arranging one player keeps the ids distinct and every ready player settled. */
  lemma AutoArrangedKeepsValid(ps: seq<Player>, i: nat)
    requires DistinctIds(ps) && ReadySettled(ps) && i < |ps|
    ensures DistinctIds(ps[i := AutoArranged(ps[i])]) && ReadySettled(ps[i := AutoArranged(ps[i])])
  {
    var q := AutoArranged(ps[i]);
    if !ps[i].isBot {
      assert ps[i := q] == ps;
    } else {
      assert Settled(q) by {
        if !q.fouled {
          assert IsValidArrangement(q.arrangement);
        }
      }
      ReplaceKeepsValid(ps, i, q);
    }
  }

  /** A computer dealt 13 different cards lays out exactly those cards in 3/5/5 lanes, and fouls only when no split of its hand is valid. */
  lemma AutoArrangedFacts(p: Player)
    requires p.isBot && |p.hand| == 13 && Distinct(p.hand)
    ensures AutoArranged(p).ready && AutoArranged(p).arrangement.Some?
    ensures var a := AutoArranged(p).arrangement.value;
      HasLaneSizes(a) && multiset(a.top) + multiset(a.middle) + multiset(a.bottom) == multiset(p.hand)
    ensures AutoArranged(p).fouled ==> forall c :: c in Candidates(p.hand) ==> !ValidCandidate(c)
  {
    var obj := LevelObjective(p.botLevel);
    PickBestPartition(p.hand, obj);
    forall c | c in Candidates(p.hand) && ValidCandidate(c) ensures !AutoArranged(p).fouled {
      PickBestValid(p.hand, obj, c);
    }
  }

  // ---------------------------------------------------------------- scoring

  /** A player the scorer can compare lane by lane. */
  predicate Sized(p: Player) {
    p.arrangement.Some? && HasLaneSizes(p.arrangement.value)
  }

  predicate AllSized(ps: seq<Player>) {
    forall i :: 0 <= i < |ps| ==> Sized(ps[i])
  }

  predicate AnyFouled(ps: seq<Player>) {
    exists i :: 0 <= i < |ps| && ps[i].fouled
  }

  predicate DistinctIds(ps: seq<Player>) {
    forall i, j :: 0 <= i < j < |ps| ==> ps[i].id != ps[j].id
  }

  /** What the scorer needs: with no foul every pair is compared, so every lane must have its size. */
  predicate Scorable(ps: seq<Player>) {
    !AnyFouled(ps) ==> AllSized(ps)
  }

  /** `room.players.filter(p => p.fouled)`. */
  function Fouls(ps: seq<Player>): (r: seq<Player>)
    ensures forall p :: p in r <==> p in ps && p.fouled
  {
    if ps == [] then []
    else (if ps[0].fouled then [ps[0]] else []) + Fouls(ps[1..])
  }

  lemma FoulsNonEmpty(ps: seq<Player>)
    ensures |Fouls(ps)| > 0 <==> AnyFouled(ps)
  {
    if AnyFouled(ps) {
      var i :| 0 <= i < |ps| && ps[i].fouled;
      assert ps[i] in Fouls(ps);
    }
    if |Fouls(ps)| > 0 {
      assert Fouls(ps)[0] in ps;
    }
  }

  // ---- the deltas, seat by seat: `d[p]` is the delta of `ps[p]`

  /** One pair of the foul loop: skipped unless `a.id < b.id`; a fouled player pays 6 to a clean one. */
  function FoulStep(ps: seq<Player>, d: seq<int>, i: nat, j: nat): (r: seq<int>)
    requires |d| == |ps| && i < |ps| && j < |ps|
    ensures |r| == |d|
  {
    var a, b := ps[i], ps[j];
    if !Less(a.id, b.id) then d
    else if a.fouled && !b.fouled then Award(d, i, j, -6)
    else if !a.fouled && b.fouled then Award(d, i, j, 6)
    else d
  }

  /** The inner foul loop for `ps[i]` after `j` partners. */
  function FoulRow(ps: seq<Player>, d: seq<int>, i: nat, j: nat): (r: seq<int>)
    requires |d| == |ps| && i < |ps| && j <= |ps|
    ensures |r| == |d|
  {
    if j == 0 then d else FoulStep(ps, FoulRow(ps, d, i, j - 1), i, j - 1)
  }

  /** The outer foul loop after `i` rows. */
  function FoulRows(ps: seq<Player>, d: seq<int>, i: nat): (r: seq<int>)
    requires |d| == |ps| && i <= |ps|
    ensures |r| == |d|
  {
    if i == 0 then d else FoulRow(ps, FoulRows(ps, d, i - 1), i - 1, |ps|)
  }

  /** The lane signs `compareArrangements` gives, from `a`'s side; only ever read for two sized players. */
  function Signs(a: Player, b: Player): (c: LaneSigns)
    ensures (c.top == -1 || c.top == 0 || c.top == 1) && (c.middle == -1 || c.middle == 0 || c.middle == 1) && (c.bottom == -1 || c.bottom == 0 || c.bottom == 1)
  {
    if Sized(a) && Sized(b) then CompareArrangements(a.arrangement.value, b.arrangement.value).value
    else LaneSigns(0, 0, 0)
  }

  function SignSum(c: LaneSigns): int {
    c.top + c.middle + c.bottom
  }

  /** One pair of the clean loop: the lane sum, then a further 3 when one side took all three lanes. */
  function CleanStep(ps: seq<Player>, d: seq<int>, i: nat, j: nat, signs: (Player, Player) -> LaneSigns): (r: seq<int>)
    requires |d| == |ps| && i < |ps| && j < |ps|
    ensures |r| == |d|
  {
    Award(d, i, j, Swept(SignSum(signs(ps[i], ps[j]))))
  }

  /** The inner clean loop for `ps[i]`, partners `i + 1` up to `j - 1`. */
  function CleanRow(ps: seq<Player>, d: seq<int>, i: nat, j: nat, signs: (Player, Player) -> LaneSigns): (r: seq<int>)
    requires |d| == |ps| && i < j <= |ps|
    ensures |r| == |d|
    decreases j
  {
    if j == i + 1 then d else CleanStep(ps, CleanRow(ps, d, i, j - 1, signs), i, j - 1, signs)
  }

  lemma TracksCleanRowNext(ps: seq<Player>, deltas: map<string, int>, d: seq<int>, i: nat, j: nat,
                           signs: (Player, Player) -> LaneSigns)
    requires |d| == |ps| && i < j < |ps|
    requires Tracks(ps, deltas, CleanStep(ps, CleanRow(ps, d, i, j, signs), i, j, signs))
    ensures Tracks(ps, deltas, CleanRow(ps, d, i, j + 1, signs))
  {
    assert CleanRow(ps, d, i, j + 1, signs) == CleanStep(ps, CleanRow(ps, d, i, j, signs), i, j, signs);
  }

  /** The outer clean loop after `i` rows. */
  function CleanRows(ps: seq<Player>, d: seq<int>, i: nat, signs: (Player, Player) -> LaneSigns): (r: seq<int>)
    requires |d| == |ps| && i <= |ps|
    ensures |r| == |d|
  {
    if i == 0 then d else CleanRow(ps, CleanRows(ps, d, i - 1, signs), i - 1, |ps|, signs)
  }

  /** The deltas `scoreRound` computes, seat by seat. */
  function RoundDeltas(ps: seq<Player>): (r: seq<int>)
    ensures |r| == |ps|
  {
    if AnyFouled(ps) then FoulRows(ps, Zeroes(|ps|), |ps|) else CleanRows(ps, Zeroes(|ps|), |ps|, Signs)
  }

  // ---- what one pair is worth

  /** Under the foul rule: -6 for a fouled player against a clean one, +6 the other way round, 0 otherwise. */
  function FoulPoints(a: Player, b: Player): int {
    if a.fouled && !b.fouled then -6 else if !a.fouled && b.fouled then 6 else 0
  }

  /** A sum of lane signs with the sweep bonus: 3 more to the side that took all three lanes. */
  function Swept(sum: int): int {
    sum + (if sum == 3 then 3 else if sum == -3 then -3 else 0)
  }

  /** With no foul in the room: the lane sum, doubled when one side took all three lanes. */
  function CleanPoints(a: Player, b: Player): int {
    Swept(SignSum(Signs(a, b)))
  }

  /** What `a` gains from `b` in a room with (`anyFoul`) or without a foul. */
  function PairPoints(anyFoul: bool, signs: (Player, Player) -> LaneSigns, a: Player, b: Player): int {
    if anyFoul then FoulPoints(a, b) else Swept(SignSum(signs(a, b)))
  }

  /** Under the foul rule only a fouled/clean pair scores, and it moves exactly 6; two clean players score nothing. */
  lemma FoulPointsValues(a: Player, b: Player)
    ensures a.fouled != b.fouled ==> (FoulPoints(a, b) == 6 || FoulPoints(a, b) == -6)
    ensures FoulPoints(a, b) < 0 <==> a.fouled && !b.fouled
    ensures a.fouled == b.fouled ==> FoulPoints(a, b) == 0
  {
  }

  /** Three lane signs are worth ±6 exactly when all three agree, and otherwise their sum, which is then within -2..2. */
  lemma SweptValues(c: LaneSigns)
    requires (c.top == -1 || c.top == 0 || c.top == 1) && (c.middle == -1 || c.middle == 0 || c.middle == 1) && (c.bottom == -1 || c.bottom == 0 || c.bottom == 1)
    ensures Swept(SignSum(c)) == 6 <==> c.top == 1 && c.middle == 1 && c.bottom == 1
    ensures Swept(SignSum(c)) == -6 <==> c.top == -1 && c.middle == -1 && c.bottom == -1
    ensures -6 < Swept(SignSum(c)) < 6 ==> Swept(SignSum(c)) == SignSum(c) && -2 <= SignSum(c) <= 2
    ensures -6 <= Swept(SignSum(c)) <= 6
  {
  }

  /** With no foul, a pair is worth ±6 exactly when one side took every lane, and otherwise the lane sum, which is then within -2..2. */
  lemma CleanPointsValues(a: Player, b: Player)
    requires Sized(a) && Sized(b)
    ensures var c := CompareArrangements(a.arrangement.value, b.arrangement.value).value;
      && (CleanPoints(a, b) == 6 <==> c.top == 1 && c.middle == 1 && c.bottom == 1)
      && (CleanPoints(a, b) == -6 <==> c.top == -1 && c.middle == -1 && c.bottom == -1)
      && (-6 < CleanPoints(a, b) < 6 ==> CleanPoints(a, b) == c.top + c.middle + c.bottom && -2 <= CleanPoints(a, b) <= 2)
      && -6 <= CleanPoints(a, b) <= 6
  {
    var c := Signs(a, b);
    assert CleanPoints(a, b) == Swept(SignSum(c));
    SweptValues(c);
  }

  lemma SweptNegate(c: LaneSigns)
    ensures Swept(SignSum(Negate(c))) == -Swept(SignSum(c))
  {
  }

  /** Swapping the two players negates every lane sign. */
  ghost predicate SwapNegates(signs: (Player, Player) -> LaneSigns) {
    forall a, b :: signs(b, a) == Negate(signs(a, b))
  }

  lemma SignsSwapNegates()
    ensures SwapNegates(Signs)
  {
    forall a, b ensures Signs(b, a) == Negate(Signs(a, b)) {
      if Sized(a) && Sized(b) {
        CompareArrangementsSwap(a.arrangement.value, b.arrangement.value);
      }
    }
  }

  /** What one side wins the other loses. */
  lemma PairPointsSwap(anyFoul: bool, signs: (Player, Player) -> LaneSigns, a: Player, b: Player)
    requires SwapNegates(signs)
    ensures PairPoints(anyFoul, signs, b, a) == -PairPoints(anyFoul, signs, a, b)
  {
    if !anyFoul {
      SweptNegate(signs(a, b));
    }
  }

  /** A player scores nothing against itself. */
  lemma PairPointsSelf(anyFoul: bool, signs: (Player, Player) -> LaneSigns, a: Player)
    requires SwapNegates(signs)
    ensures PairPoints(anyFoul, signs, a, a) == 0
  {
    PairPointsSwap(anyFoul, signs, a, a);
  }

  // ---- the deltas sum to zero

  lemma FoulStepSum(ps: seq<Player>, d: seq<int>, i: nat, j: nat)
    requires |d| == |ps| && i < |ps| && j < |ps|
    ensures SumTo(FoulStep(ps, d, i, j), |d|) == SumTo(d, |d|)
  {
    AwardSum(d, i, j, -6);
    AwardSum(d, i, j, 6);
  }

  lemma {:induction false} FoulRowSum(ps: seq<Player>, d: seq<int>, i: nat, j: nat)
    requires |d| == |ps| && i < |ps| && j <= |ps|
    ensures SumTo(FoulRow(ps, d, i, j), |d|) == SumTo(d, |d|)
  {
    if j > 0 {
      FoulRowSum(ps, d, i, j - 1);
      FoulStepSum(ps, FoulRow(ps, d, i, j - 1), i, j - 1);
    }
  }

  lemma {:induction false} FoulRowsSum(ps: seq<Player>, d: seq<int>, i: nat)
    requires |d| == |ps| && i <= |ps|
    ensures SumTo(FoulRows(ps, d, i), |d|) == SumTo(d, |d|)
  {
    if i > 0 {
      FoulRowsSum(ps, d, i - 1);
      FoulRowSum(ps, FoulRows(ps, d, i - 1), i - 1, |ps|);
    }
  }

  lemma CleanStepSum(ps: seq<Player>, d: seq<int>, i: nat, j: nat, signs: (Player, Player) -> LaneSigns)
    requires |d| == |ps| && i < |ps| && j < |ps|
    ensures SumTo(CleanStep(ps, d, i, j, signs), |d|) == SumTo(d, |d|)
  {
    AwardSum(d, i, j, Swept(SignSum(signs(ps[i], ps[j]))));
  }

  lemma {:induction false} CleanRowSum(ps: seq<Player>, d: seq<int>, i: nat, j: nat, signs: (Player, Player) -> LaneSigns)
    requires |d| == |ps| && i < j <= |ps|
    ensures SumTo(CleanRow(ps, d, i, j, signs), |d|) == SumTo(d, |d|)
    decreases j
  {
    if j > i + 1 {
      CleanRowSum(ps, d, i, j - 1, signs);
      CleanStepSum(ps, CleanRow(ps, d, i, j - 1, signs), i, j - 1, signs);
    }
  }

  lemma {:induction false} CleanRowsSum(ps: seq<Player>, d: seq<int>, i: nat, signs: (Player, Player) -> LaneSigns)
    requires |d| == |ps| && i <= |ps|
    ensures SumTo(CleanRows(ps, d, i, signs), |d|) == SumTo(d, |d|)
  {
    if i > 0 {
      CleanRowsSum(ps, d, i - 1, signs);
      CleanRowSum(ps, CleanRows(ps, d, i - 1, signs), i - 1, |ps|, signs);
    }
  }

  /** Whatever the ids, fouls and arrangements, the round's deltas add up to zero. */
  lemma RoundZeroSum(ps: seq<Player>)
    ensures SumTo(RoundDeltas(ps), |ps|) == 0
  {
    ZeroesSum(|ps|, |ps|);
    if AnyFouled(ps) {
      FoulRowsSum(ps, Zeroes(|ps|), |ps|);
    } else {
      CleanRowsSum(ps, Zeroes(|ps|), |ps|, Signs);
    }
  }

  // ---- each delta is the sum of the player's pairs

  /** What `ps[k]` gains from the players `lo` up to `hi - 1`. */
  function PointsFrom(anyFoul: bool, signs: (Player, Player) -> LaneSigns, ps: seq<Player>, k: nat, lo: nat, hi: nat): int
    requires k < |ps| && lo <= hi <= |ps|
    decreases hi
  {
    if hi == lo then 0 else PointsFrom(anyFoul, signs, ps, k, lo, hi - 1) + PairPoints(anyFoul, signs, ps[k], ps[hi - 1])
  }

  lemma {:induction false} PointsFromSplit(anyFoul: bool, signs: (Player, Player) -> LaneSigns, ps: seq<Player>, k: nat, lo: nat, mid: nat, hi: nat)
    requires k < |ps| && lo <= mid <= hi <= |ps|
    ensures PointsFrom(anyFoul, signs, ps, k, lo, hi) == PointsFrom(anyFoul, signs, ps, k, lo, mid) + PointsFrom(anyFoul, signs, ps, k, mid, hi)
    decreases hi
  {
    if hi > mid {
      PointsFromSplit(anyFoul, signs, ps, k, lo, mid, hi - 1);
    }
  }

  /** What `ps[i]` gains under the foul rule from those of the first `j` players whose id is greater. */
  function GreaterSum(ps: seq<Player>, i: nat, j: nat): int
    requires i < |ps| && j <= |ps|
  {
    if j == 0 then 0
    else GreaterSum(ps, i, j - 1) + (if Less(ps[i].id, ps[j - 1].id) then FoulPoints(ps[i], ps[j - 1]) else 0)
  }

  /** What those of the first `i` players whose id is smaller gain from `ps[k]` under the foul rule. */
  function LesserSum(ps: seq<Player>, k: nat, i: nat): int
    requires k < |ps| && i <= |ps|
  {
    if i == 0 then 0
    else LesserSum(ps, k, i - 1) + (if Less(ps[i - 1].id, ps[k].id) then FoulPoints(ps[i - 1], ps[k]) else 0)
  }

  lemma FoulStepAt(ps: seq<Player>, d: seq<int>, i: nat, j: nat, k: nat)
    requires |d| == |ps| && i < |ps| && j < |ps| && k < |ps|
    ensures FoulStep(ps, d, i, j)[k] == d[k]
      + (if Less(ps[i].id, ps[j].id) && k == i then FoulPoints(ps[i], ps[j]) else 0)
      - (if Less(ps[i].id, ps[j].id) && k == j then FoulPoints(ps[i], ps[j]) else 0)
  {
    LessIrreflexive(ps[i].id);
  }

  lemma {:induction false} FoulRowAt(ps: seq<Player>, d: seq<int>, i: nat, j: nat, k: nat)
    requires |d| == |ps| && i < |ps| && j <= |ps| && k < |ps|
    ensures FoulRow(ps, d, i, j)[k] == d[k]
      + (if k == i then GreaterSum(ps, i, j) else 0)
      - (if k < j && Less(ps[i].id, ps[k].id) then FoulPoints(ps[i], ps[k]) else 0)
  {
    if j > 0 {
      FoulRowAt(ps, d, i, j - 1, k);
      LessIrreflexive(ps[i].id);
      FoulStepAt(ps, FoulRow(ps, d, i, j - 1), i, j - 1, k);
    }
  }

  lemma {:induction false} FoulRowsAt(ps: seq<Player>, d: seq<int>, i: nat, k: nat)
    requires |d| == |ps| && i <= |ps| && k < |ps|
    ensures FoulRows(ps, d, i)[k] == d[k] + (if k < i then GreaterSum(ps, k, |ps|) else 0) - LesserSum(ps, k, i)
  {
    if i > 0 {
      FoulRowsAt(ps, d, i - 1, k);
      FoulRowAt(ps, FoulRows(ps, d, i - 1), i - 1, |ps|, k);
    }
  }

  lemma {:induction false} FoulSplit(ps: seq<Player>, k: nat, n: nat)
    requires DistinctIds(ps) && k < |ps| && n <= |ps|
    ensures GreaterSum(ps, k, n) - LesserSum(ps, k, n) == PointsFrom(true, Signs, ps, k, 0, n)
  {
    if n > 0 {
      FoulSplit(ps, k, n - 1);
      assert k != n - 1 ==> ps[k].id != ps[n - 1].id;
      FoulPairTerm(ps[k], ps[n - 1]);
    }
  }

  /** One partner's share of the foul rule: whichever of the two ids is smaller, the pair moves `FoulPoints` once. */
  lemma FoulPairTerm(a: Player, b: Player)
    requires a == b || a.id != b.id
    ensures (if Less(a.id, b.id) then FoulPoints(a, b) else 0) - (if Less(b.id, a.id) then FoulPoints(b, a) else 0)
      == PairPoints(true, Signs, a, b)
  {
    LessIrreflexive(a.id);
    if a.id != b.id {
      LessTrichotomy(a.id, b.id);
      if Less(a.id, b.id) {
        LessAsymmetric(a.id, b.id);
      } else {
        LessAsymmetric(b.id, a.id);
      }
    }
  }

  lemma CleanStepAt(ps: seq<Player>, d: seq<int>, i: nat, j: nat, k: nat, signs: (Player, Player) -> LaneSigns)
    requires |d| == |ps| && i < |ps| && j < |ps| && k < |ps| && i != j
    ensures CleanStep(ps, d, i, j, signs)[k] == d[k]
      + (if k == i then PairPoints(false, signs, ps[i], ps[j]) else 0)
      - (if k == j then PairPoints(false, signs, ps[i], ps[j]) else 0)
  {
  }

  /** The row of `ps[i]` adds to `ps[i]` its pairs with the partners so far. */
  lemma {:induction false} CleanRowSelf(ps: seq<Player>, d: seq<int>, i: nat, j: nat, signs: (Player, Player) -> LaneSigns)
    requires |d| == |ps| && i < j <= |ps|
    ensures CleanRow(ps, d, i, j, signs)[i] == d[i] + PointsFrom(false, signs, ps, i, i + 1, j)
    decreases j
  {
    if j > i + 1 {
      CleanRowSelf(ps, d, i, j - 1, signs);
      CleanStepAt(ps, CleanRow(ps, d, i, j - 1, signs), i, j - 1, i, signs);
    }
  }

  /** The row of `ps[i]` adds to a partner `ps[k]` what that partner gains from `ps[i]`, and nothing to anyone else. */
  lemma {:induction false} CleanRowOther(ps: seq<Player>, d: seq<int>, i: nat, j: nat, k: nat, signs: (Player, Player) -> LaneSigns)
    requires |d| == |ps| && SwapNegates(signs) && i < j <= |ps| && k < |ps| && k != i
    ensures CleanRow(ps, d, i, j, signs)[k] == d[k] + (if i < k < j then PairPoints(false, signs, ps[k], ps[i]) else 0)
    decreases j
  {
    if j > i + 1 {
      CleanRowOther(ps, d, i, j - 1, k, signs);
      CleanStepAt(ps, CleanRow(ps, d, i, j - 1, signs), i, j - 1, k, signs);
      PairPointsSwap(false, signs, ps[i], ps[j - 1]);
    }
  }

  /** Rows above `ps[k]`'s own: each earlier player has settled its pair with `ps[k]`. */
  lemma {:induction false} CleanRowsBefore(ps: seq<Player>, d: seq<int>, i: nat, k: nat, signs: (Player, Player) -> LaneSigns)
    requires |d| == |ps| && SwapNegates(signs) && i <= k < |ps|
    ensures CleanRows(ps, d, i, signs)[k] == d[k] + PointsFrom(false, signs, ps, k, 0, i)
  {
    if i > 0 {
      CleanRowsBefore(ps, d, i - 1, k, signs);
      CleanRowOther(ps, CleanRows(ps, d, i - 1, signs), i - 1, |ps|, k, signs);
    }
  }

  /** From `ps[k]`'s own row on: its row adds its pairs with every later player, and later rows leave it alone. */
  lemma {:induction false} CleanRowsAfter(ps: seq<Player>, d: seq<int>, i: nat, k: nat, signs: (Player, Player) -> LaneSigns)
    requires |d| == |ps| && SwapNegates(signs) && k < i <= |ps|
    ensures CleanRows(ps, d, i, signs)[k] == d[k]
      + PointsFrom(false, signs, ps, k, 0, k) + PointsFrom(false, signs, ps, k, k + 1, |ps|)
  {
    if i == k + 1 {
      CleanRowsBefore(ps, d, k, k, signs);
      CleanRowSelf(ps, CleanRows(ps, d, k, signs), k, |ps|, signs);
    } else {
      CleanRowsAfter(ps, d, i - 1, k, signs);
      CleanRowOther(ps, CleanRows(ps, d, i - 1, signs), i - 1, |ps|, k, signs);
    }
  }

  lemma FoulRoundForm(ps: seq<Player>, k: nat)
    requires DistinctIds(ps) && AnyFouled(ps) && k < |ps|
    ensures RoundDeltas(ps)[k] == PointsFrom(true, Signs, ps, k, 0, |ps|)
  {
    var n := |ps|;
    FoulRowsAt(ps, Zeroes(n), n, k);
    FoulSplit(ps, k, n);
  }

  /** After all the rows, each seat has collected its pairs with every other player. */
  lemma CleanRowsAll(ps: seq<Player>, d: seq<int>, k: nat, signs: (Player, Player) -> LaneSigns)
    requires |d| == |ps| && SwapNegates(signs) && k < |ps|
    ensures CleanRows(ps, d, |ps|, signs)[k] == d[k] + PointsFrom(false, signs, ps, k, 0, |ps|)
  {
    var n := |ps|;
    CleanRowsAfter(ps, d, n, k, signs);
    PointsFromSplit(false, signs, ps, k, 0, k, n);
    PointsFromSplit(false, signs, ps, k, k, k + 1, n);
    PairPointsSelf(false, signs, ps[k]);
    assert PointsFrom(false, signs, ps, k, k, k + 1) == 0;
  }

  lemma CleanRoundForm(ps: seq<Player>, k: nat)
    requires !AnyFouled(ps) && k < |ps|
    ensures RoundDeltas(ps)[k] == PointsFrom(false, Signs, ps, k, 0, |ps|)
  {
    SignsSwapNegates();
    CleanRowsAll(ps, Zeroes(|ps|), k, Signs);
  }

  /** Each player's delta is what it gains from every player of the room, itself included at zero; so each unordered pair counts once. */
  lemma RoundDeltaForm(ps: seq<Player>, k: nat)
    requires DistinctIds(ps) && k < |ps|
    ensures RoundDeltas(ps)[k] == PointsFrom(AnyFouled(ps), Signs, ps, k, 0, |ps|)
  {
    if AnyFouled(ps) {
      FoulRoundForm(ps, k);
    } else {
      CleanRoundForm(ps, k);
    }
  }

  /** How many of the first `n` players fouled. */
  function FouledCount(ps: seq<Player>, n: nat): nat
    requires n <= |ps|
  {
    if n == 0 then 0 else FouledCount(ps, n - 1) + (if ps[n - 1].fouled then 1 else 0)
  }

  lemma {:induction false} FoulPointsCount(ps: seq<Player>, k: nat, n: nat)
    requires k < |ps| && n <= |ps|
    ensures PointsFrom(true, Signs, ps, k, 0, n) == if ps[k].fouled then -6 * (n - FouledCount(ps, n)) else 6 * FouledCount(ps, n)
  {
    if n > 0 {
      FoulPointsCount(ps, k, n - 1);
    }
  }

  /** Under the foul rule a fouled player pays 6 to every clean player, and a clean player collects 6 from every fouled one and nothing from the rest. */
  lemma {:induction false} FoulDeltas(ps: seq<Player>, k: nat)
    requires DistinctIds(ps) && AnyFouled(ps) && k < |ps|
    ensures RoundDeltas(ps)[k] ==
      if ps[k].fouled then -6 * (|ps| - FouledCount(ps, |ps|)) else 6 * FouledCount(ps, |ps|)
  {
    RoundDeltaForm(ps, k);
    FoulPointsCount(ps, k, |ps|);
  }

  // ---------------------------------------------------------------- the room

  datatype PlayerResult = PlayerResult(id: string, name: string, delta: int, total: int, fouled: bool,
                                       arrangement: Option<Arrangement>)

  /** Every player's total moved on by its delta. */
  function WithTotals(ps: seq<Player>, d: seq<int>): (r: seq<Player>)
    requires |d| == |ps|
    ensures |r| == |ps|
  {
    seq(|ps|, i requires 0 <= i < |ps| => ps[i].(total := ps[i].total + d[i]))
  }

  /** The round's results, one per player in room order. */
  function ResultsOf(ps: seq<Player>, d: seq<int>): (r: seq<PlayerResult>)
    requires |d| == |ps|
    ensures |r| == |ps|
  {
    seq(|ps|, i requires 0 <= i < |ps| =>
      PlayerResult(ps[i].id, ps[i].name, d[i], ps[i].total, ps[i].fouled, ps[i].arrangement))
  }

  /** The totals of the first `n` players, added up. */
  function TotalTo(ps: seq<Player>, n: nat): int
    requires n <= |ps|
  {
    if n == 0 then 0 else TotalTo(ps, n - 1) + ps[n - 1].total
  }

  lemma {:induction false} WithTotalsSum(ps: seq<Player>, d: seq<int>, n: nat)
    requires |d| == |ps| && n <= |ps|
    ensures TotalTo(WithTotals(ps, d), n) == TotalTo(ps, n) + SumTo(d, n)
  {
    if n > 0 {
      WithTotalsSum(ps, d, n - 1);
    }
  }

  /** Scoring a round moves points between players and never creates or destroys any. */
  lemma TotalsConserved(ps: seq<Player>)
    ensures TotalTo(WithTotals(ps, RoundDeltas(ps)), |ps|) == TotalTo(ps, |ps|)
  {
    WithTotalsSum(ps, RoundDeltas(ps), |ps|);
    RoundZeroSum(ps);
  }

  /** `deltas.get(id) ?? 0`. */
  function DeltaOf(m: map<string, int>, id: string): (r: int)
    ensures id in m ==> r == m[id]
    ensures id !in m ==> r == 0
  {
    if id in m then m[id] else 0
  }

  /** The server's `deltas` Map holds, under the id of each of the first `n` players, that player's seat delta. */
  ghost predicate TracksTo(ps: seq<Player>, deltas: map<string, int>, d: seq<int>, n: nat)
    requires |d| == |ps| && n <= |ps|
  {
    n == 0 || (TracksTo(ps, deltas, d, n - 1) && ps[n - 1].id in deltas && deltas[ps[n - 1].id] == d[n - 1])
  }

  /** The `deltas` Map and the seat deltas `d` agree on every player. */
  ghost predicate Tracks(ps: seq<Player>, deltas: map<string, int>, d: seq<int>) {
    |d| == |ps| && TracksTo(ps, deltas, d, |ps|)
  }

  lemma {:induction false} TracksToAt(ps: seq<Player>, deltas: map<string, int>, d: seq<int>, n: nat, p: nat)
    requires |d| == |ps| && p < n <= |ps| && TracksTo(ps, deltas, d, n)
    ensures ps[p].id in deltas && deltas[ps[p].id] == d[p]
  {
    if p < n - 1 {
      TracksToAt(ps, deltas, d, n - 1, p);
    }
  }

  lemma TracksAt(ps: seq<Player>, deltas: map<string, int>, d: seq<int>, p: nat)
    requires Tracks(ps, deltas, d) && p < |ps|
    ensures ps[p].id in deltas && deltas[ps[p].id] == d[p]
  {
    TracksToAt(ps, deltas, d, |ps|, p);
  }

  lemma {:induction false} TracksToIntro(ps: seq<Player>, deltas: map<string, int>, d: seq<int>, n: nat)
    requires |d| == |ps| && n <= |ps|
    requires forall p :: 0 <= p < n ==> ps[p].id in deltas && deltas[ps[p].id] == d[p]
    ensures TracksTo(ps, deltas, d, n)
  {
    if n > 0 {
      TracksToIntro(ps, deltas, d, n - 1);
    }
  }

  lemma TracksUpdate(ps: seq<Player>, deltas: map<string, int>, d: seq<int>, s: nat, v: int)
    requires DistinctIds(ps) && Tracks(ps, deltas, d) && s < |ps|
    ensures Tracks(ps, deltas[ps[s].id := v], d[s := v])
  {
    var m, e := deltas[ps[s].id := v], d[s := v];
    forall p | 0 <= p < |ps| ensures ps[p].id in m && m[ps[p].id] == e[p] {
      if p != s {
        assert p < s || s < p;
        TracksAt(ps, deltas, d, p);
      }
    }
    TracksToIntro(ps, m, e, |ps|);
  }

  /** One pass of the foul loop's inner body, for `ps[i]` against `ps[j]`, on the `deltas` Map. */
  method SettleFoulPair(ps: seq<Player>, deltas: map<string, int>, ghost d: seq<int>, i: nat, j: nat)
    returns (r: map<string, int>)
    requires DistinctIds(ps) && Tracks(ps, deltas, d) && i < |ps| && j < |ps|
    ensures Tracks(ps, r, FoulStep(ps, d, i, j))
  {
    var a, b := ps[i], ps[j];
    r := deltas;
    if !Less(a.id, b.id) {
      return;
    }
    ghost var e := d;
    if a.fouled && !b.fouled {
      TracksAt(ps, r, e, i);
      TracksUpdate(ps, r, e, i, r[a.id] - 6);
      r, e := r[a.id := r[a.id] - 6], e[i := e[i] - 6];
      TracksAt(ps, r, e, j);
      TracksUpdate(ps, r, e, j, r[b.id] + 6);
      r, e := r[b.id := r[b.id] + 6], e[j := e[j] + 6];
    } else if !a.fouled && b.fouled {
      TracksAt(ps, r, e, i);
      TracksUpdate(ps, r, e, i, r[a.id] + 6);
      r, e := r[a.id := r[a.id] + 6], e[i := e[i] + 6];
      TracksAt(ps, r, e, j);
      TracksUpdate(ps, r, e, j, r[b.id] - 6);
      r, e := r[b.id := r[b.id] - 6], e[j := e[j] - 6];
    }
    assert e == FoulStep(ps, d, i, j);
  }

  /** One pass of the clean loop's inner body, once the pair's lane signs are added up to `sum`, on the `deltas` Map. */
  method SettleCleanPair(ps: seq<Player>, deltas: map<string, int>, ghost d: seq<int>, i: nat, j: nat, sum: int,
                         ghost signs: (Player, Player) -> LaneSigns)
    returns (r: map<string, int>)
    requires DistinctIds(ps) && Tracks(ps, deltas, d) && i < |ps| && j < |ps|
    requires sum == SignSum(signs(ps[i], ps[j]))
    ensures Tracks(ps, r, CleanStep(ps, d, i, j, signs))
  {
    var a, b := ps[i], ps[j];
    r := deltas;
    ghost var e := d;
    TracksAt(ps, r, e, i);
    TracksUpdate(ps, r, e, i, r[a.id] + sum);
    r, e := r[a.id := r[a.id] + sum], e[i := e[i] + sum];
    TracksAt(ps, r, e, j);
    TracksUpdate(ps, r, e, j, r[b.id] - sum);
    r, e := r[b.id := r[b.id] - sum], e[j := e[j] - sum];
    if sum == 3 {
      TracksAt(ps, r, e, i);
      TracksUpdate(ps, r, e, i, r[a.id] + 3);
      r, e := r[a.id := r[a.id] + 3], e[i := e[i] + 3];
      TracksAt(ps, r, e, j);
      TracksUpdate(ps, r, e, j, r[b.id] - 3);
      r, e := r[b.id := r[b.id] - 3], e[j := e[j] - 3];
    } else if sum == -3 {
      TracksAt(ps, r, e, i);
      TracksUpdate(ps, r, e, i, r[a.id] - 3);
      r, e := r[a.id := r[a.id] - 3], e[i := e[i] - 3];
      TracksAt(ps, r, e, j);
      TracksUpdate(ps, r, e, j, r[b.id] + 3);
      r, e := r[b.id := r[b.id] + 3], e[j := e[j] + 3];
    }
    forall k | 0 <= k < |d| ensures e[k] == Award(d, i, j, Swept(sum))[k] {
      AwardAt(d, i, j, Swept(sum), k);
    }
    assert e == CleanStep(ps, d, i, j, signs);
  }

  /** The lane signs `compareArrangements` gives for two sized players. */
  lemma SignsSized(a: Player, b: Player)
    requires Sized(a) && Sized(b)
    ensures CompareArrangements(a.arrangement.value, b.arrangement.value).Ok?
    ensures Signs(a, b) == CompareArrangements(a.arrangement.value, b.arrangement.value).value
  {
  }

  /** `new Map(players.map(p => [p.id, 0]))`. */
  method InitialDeltas(ps: seq<Player>) returns (deltas: map<string, int>)
    ensures Tracks(ps, deltas, Zeroes(|ps|))
  {
    deltas := map p | p in ps :: p.id := 0;
    forall k | 0 <= k < |ps| ensures ps[k].id in deltas && deltas[ps[k].id] == Zeroes(|ps|)[k] {
      assert ps[k] in ps;
    }
    TracksToIntro(ps, deltas, Zeroes(|ps|), |ps|);
  }

  /** The totals loop: every player's total moved on by the delta the `deltas` Map holds for it. */
  method ApplyDeltas(ps: seq<Player>, deltas: map<string, int>, ghost d: seq<int>) returns (r: seq<Player>)
    requires Tracks(ps, deltas, d)
    ensures r == WithTotals(ps, d)
  {
    r := ps;
    for i := 0 to |ps|
      invariant |r| == |ps|
      invariant forall j :: 0 <= j < i ==> r[j] == ps[j].(total := ps[j].total + d[j])
      invariant forall j :: i <= j < |ps| ==> r[j] == ps[j]
    {
      var p := r[i];
      TracksAt(ps, deltas, d, i);
      r := r[i := p.(total := p.total + DeltaOf(deltas, p.id))];
    }
  }

  /** The foul branch of `scoreRound`: every ordered pair, settled only from the side with the smaller id. */
  method FoulLoops(ps: seq<Player>) returns (deltas: map<string, int>)
    requires DistinctIds(ps)
    ensures Tracks(ps, deltas, FoulRows(ps, Zeroes(|ps|), |ps|))
  {
    deltas := InitialDeltas(ps);
    ghost var d := Zeroes(|ps|);
    for ai := 0 to |ps|
      invariant Tracks(ps, deltas, d) && d == FoulRows(ps, Zeroes(|ps|), ai)
    {
      ghost var start := d;
      for bi := 0 to |ps|
        invariant Tracks(ps, deltas, d) && d == FoulRow(ps, start, ai, bi)
      {
        deltas := SettleFoulPair(ps, deltas, d, ai, bi);
        d := FoulStep(ps, d, ai, bi);
      }
    }
  }

  /** `signs` gives what `compareArrangements` gives for every two sized players. */
  ghost predicate ComparesLanes(signs: (Player, Player) -> LaneSigns) {
    forall a, b {:trigger Signs(a, b)} :: Sized(a) && Sized(b) ==> signs(a, b) == Signs(a, b)
  }

  lemma SignsComparesLanes()
    ensures ComparesLanes(Signs)
  {
  }

  /** `compareArrangements` on two sized players, its three lane signs added up. */
  method LaneSum(a: Player, b: Player, ghost signs: (Player, Player) -> LaneSigns) returns (sum: int)
    requires Sized(a) && Sized(b) && ComparesLanes(signs)
    ensures sum == SignSum(signs(a, b)) && -3 <= sum <= 3
  {
    SignsSized(a, b);
    var cmp := CompareArrangements(a.arrangement.value, b.arrangement.value).value;
    sum := cmp.top + cmp.middle + cmp.bottom;
  }

  /** The clean branch of `scoreRound`: every pair `i < j` compared lane by lane. */
  method CleanLoops(ps: seq<Player>, ghost signs: (Player, Player) -> LaneSigns) returns (deltas: map<string, int>)
    requires DistinctIds(ps) && AllSized(ps) && ComparesLanes(signs)
    ensures Tracks(ps, deltas, CleanRows(ps, Zeroes(|ps|), |ps|, signs))
  {
    deltas := InitialDeltas(ps);
    ghost var d := Zeroes(|ps|);
    for i := 0 to |ps|
      invariant Tracks(ps, deltas, d) && d == CleanRows(ps, Zeroes(|ps|), i, signs)
    {
      deltas := CleanRowLoop(ps, deltas, d, i, signs);
      d := CleanRow(ps, d, i, |ps|, signs);
    }
  }

  /** The inner loop of the clean branch: `ps[i]` against every later player. */
  method CleanRowLoop(ps: seq<Player>, deltas: map<string, int>, ghost d: seq<int>, i: nat,
                      ghost signs: (Player, Player) -> LaneSigns)
    returns (r: map<string, int>)
    requires DistinctIds(ps) && AllSized(ps) && ComparesLanes(signs) && Tracks(ps, deltas, d) && i < |ps|
    ensures Tracks(ps, r, CleanRow(ps, d, i, |ps|, signs))
  {
    r := deltas;
    for j := i + 1 to |ps|
      invariant Tracks(ps, r, CleanRow(ps, d, i, j, signs))
    {
      var sum := LaneSum(ps[i], ps[j], signs);
      r := SettleCleanPair(ps, r, CleanRow(ps, d, i, j, signs), i, j, sum, signs);
      TracksCleanRowNext(ps, r, d, i, j, signs);
    }
  }

  /** The results list: one entry per player, its delta read back from the `deltas` Map. */
  method CollectResults(ps: seq<Player>, scored: seq<Player>, deltas: map<string, int>, ghost d: seq<int>)
    returns (results: seq<PlayerResult>)
    requires Tracks(ps, deltas, d) && scored == WithTotals(ps, d)
    ensures results == ResultsOf(scored, d)
  {
    results := seq(|scored|, i requires 0 <= i < |scored| =>
      PlayerResult(scored[i].id, scored[i].name, DeltaOf(deltas, scored[i].id), scored[i].total,
                   scored[i].fouled, scored[i].arrangement));
    forall i | 0 <= i < |scored| ensures results[i] == ResultsOf(scored, d)[i] {
      assert scored[i].id == ps[i].id;
      TracksAt(ps, deltas, d, i);
    }
  }

  /** A ready player has either fouled or laid out lanes of the right sizes. */
  predicate Settled(p: Player) {
    p.fouled || Sized(p)
  }

  predicate ReadySettled(ps: seq<Player>) {
    forall i :: 0 <= i < |ps| ==> ps[i].ready ==> Settled(ps[i])
  }

  /** Once everyone is ready and settled the scorer can run. */
  lemma ReadyScorable(ps: seq<Player>)
    requires AllReady(ps) && ReadySettled(ps)
    ensures Scorable(ps)
  {
  }

  /** The player after its submission `a`: arrangement stored, marked ready, fouled as the checks say. */
  function Accept(p: Player, a: Arrangement): Player {
    p.(fouled := SubmissionFouled(p, a), arrangement := Some(a), ready := true)
  }

  /** Player `i`'s entry replaced by the checked arrangement, marked ready. */
  method AcceptAt(ps: seq<Player>, i: nat, a: Arrangement) returns (r: seq<Player>)
    requires i < |ps|
    ensures r == ps[i := Accept(ps[i], a)]
  {
    var p := ps[i];
    var fouled := CheckSubmission(p, a);
    r := ps[i := p.(fouled := fouled, arrangement := Some(a), ready := true)];
  }

  /** An accepted submission is settled: either fouled or of the right lane sizes. */
  lemma AcceptSettled(p: Player, a: Arrangement)
    ensures Settled(Accept(p, a)) && Accept(p, a).id == p.id
  {
    if !SubmissionFouled(p, a) {
      assert |a.top| == 3 && |a.middle| == 5 && |a.bottom| == 5;
    }
  }

  /** Replacing one player by a settled one with the same id keeps the ids distinct and every ready player settled. */
  lemma ReplaceKeepsValid(ps: seq<Player>, i: nat, q: Player)
    requires DistinctIds(ps) && ReadySettled(ps) && i < |ps|
    requires q.id == ps[i].id && Settled(q)
    ensures DistinctIds(ps[i := q]) && ReadySettled(ps[i := q])
  {
  }

  /** Accepting a submission keeps the ids and leaves the new ready player scorable. */
  lemma AcceptKeepsValid(ps: seq<Player>, i: nat, a: Arrangement)
    requires DistinctIds(ps) && ReadySettled(ps) && i < |ps|
    ensures DistinctIds(ps[i := Accept(ps[i], a)]) && ReadySettled(ps[i := Accept(ps[i], a)])
  {
    AcceptSettled(ps[i], a);
    ReplaceKeepsValid(ps, i, Accept(ps[i], a));
  }

  /** Moving the totals on keeps the ids and who is ready and settled. */
  lemma WithTotalsKeepsValid(ps: seq<Player>, d: seq<int>)
    requires |d| == |ps| && DistinctIds(ps) && ReadySettled(ps)
    ensures DistinctIds(WithTotals(ps, d)) && ReadySettled(WithTotals(ps, d))
  {
    var q := WithTotals(ps, d);
    assert forall k :: 0 <= k < |ps| ==> q[k].id == ps[k].id && q[k].ready == ps[k].ready && Settled(q[k]) == Settled(ps[k]);
  }

  /** Every player back to an empty hand, no arrangement, not ready and not fouled; totals stay. */
  function Reset(ps: seq<Player>): (r: seq<Player>)
    ensures |r| == |ps|
  {
    seq(|ps|, i requires 0 <= i < |ps| => ps[i].(hand := [], arrangement := None, ready := false, fouled := false))
  }

  /** A new round keeps every player, in order, with its id, name and total, and nobody is ready. */
  lemma ResetKeeps(ps: seq<Player>, i: nat)
    requires i < |ps|
    ensures Reset(ps)[i].id == ps[i].id && Reset(ps)[i].name == ps[i].name && Reset(ps)[i].total == ps[i].total
    ensures !Reset(ps)[i].ready && !AllReady(Reset(ps))
  {
  }

  /** A room: its host, phase, round number and the players in seating order. */
  class Room {
    var hostId: string
    var phase: Phase
    var round: int
    var players: seq<Player>

    /** Player ids are unique, and every ready player can be scored. */
    ghost predicate Valid()
      reads this
    {
      DistinctIds(players) && ReadySettled(players)
    }

    /** `scoreRound`: the deltas, then every total moved on by its delta, then the results. */
    method ScoreRound() returns (results: seq<PlayerResult>)
      requires Valid() && Scorable(players)
      modifies this
      ensures Valid()
      ensures players == WithTotals(old(players), RoundDeltas(old(players)))
      ensures results == ResultsOf(players, RoundDeltas(old(players)))
      ensures phase == old(phase) && round == old(round) && hostId == old(hostId)
    {
      var ps := players;
      var deltas;
      var fouls := Fouls(ps);
      FoulsNonEmpty(ps);
      if |fouls| > 0 {
        deltas := FoulLoops(ps);
      } else {
        SignsComparesLanes();
        deltas := CleanLoops(ps, Signs);
      }
      var scored := ApplyDeltas(ps, deltas, RoundDeltas(ps));
      WithTotalsKeepsValid(ps, RoundDeltas(ps));
      players := scored;
      results := CollectResults(ps, scored, deltas, RoundDeltas(ps));
    }

    /** `botAutoArrange`: a computer player takes its level's best arrangement and is ready; anyone else is left alone. */
    method BotAutoArrange(i: nat)
      requires Valid() && i < |players|
      modifies this
      ensures Valid()
      ensures players == old(players)[i := AutoArranged(old(players)[i])]
      ensures phase == old(phase) && round == old(round) && hostId == old(hostId)
    {
      var bot := players[i];
      if !bot.isBot {
        return;
      }
      var arranged := ArrangeBot(bot);
      AutoArrangedKeepsValid(players, i);
      players := players[i := arranged];
    }

    /**
     * `submitArrangement`: ignored outside the arranging phase, for an unknown player or for one
     * already ready; otherwise the checked arrangement is stored, and once everyone is ready the
     * round is scored.
     */
    method SubmitArrangement(id: string, submitted: Option<Submitted>) returns (results: Option<seq<PlayerResult>>)
      requires Valid()
      modifies this
      ensures Valid()
      ensures round == old(round) && hostId == old(hostId)
      ensures old(phase) != Arranging || IndexOf(old(players), id).None? || old(players)[IndexOf(old(players), id).value].ready ==>
        players == old(players) && phase == old(phase) && results.None?
      ensures old(phase) == Arranging && IndexOf(old(players), id).Some? && !old(players)[IndexOf(old(players), id).value].ready ==>
        var i := IndexOf(old(players), id).value;
        var ps := old(players)[i := Accept(old(players)[i], NormalizeArrangement(submitted))];
        if AllReady(ps) then
          phase == Result && players == WithTotals(ps, RoundDeltas(ps)) && results == Some(ResultsOf(players, RoundDeltas(ps)))
        else
          phase == old(phase) && players == ps && results.None?
    {
      results := None;
      if phase != Arranging {
        return;
      }
      var found := IndexOf(players, id);
      if found.None? {
        return;
      }
      var i := found.value;
      var p := players[i];
      if p.ready {
        return;
      }
      results := Admit(i, NormalizeArrangement(submitted));
    }

    /** The second half of `submitArrangement`: the checked arrangement is stored and, once everyone is ready, scored. */
    method Admit(i: nat, a: Arrangement) returns (results: Option<seq<PlayerResult>>)
      requires Valid() && i < |players| && phase == Arranging
      modifies this
      ensures Valid()
      ensures round == old(round) && hostId == old(hostId)
      ensures AllReady(old(players)[i := Accept(old(players)[i], a)]) ==>
        var ps := old(players)[i := Accept(old(players)[i], a)];
        phase == Result && players == WithTotals(ps, RoundDeltas(ps)) && results == Some(ResultsOf(players, RoundDeltas(ps)))
      ensures !AllReady(old(players)[i := Accept(old(players)[i], a)]) ==>
        phase == old(phase) && players == old(players)[i := Accept(old(players)[i], a)] && results.None?
    {
      results := None;
      Store(i, a);
      if AllReady(players) {
        ReadyScorable(players);
        phase := Result;
        var scored := ScoreRound();
        results := Some(scored);
      }
    }

    /** The checked arrangement replaces player `i`'s entry, marked ready. */
    method Store(i: nat, a: Arrangement)
      requires Valid() && i < |players|
      modifies this
      ensures Valid() && players == old(players)[i := Accept(old(players)[i], a)]
      ensures phase == old(phase) && round == old(round) && hostId == old(hostId)
    {
      AcceptKeepsValid(players, i, a);
      players := AcceptAt(players, i, a);
    }

    /** `playAgain`: only the host may start over; the room returns to waiting with every player cleared but its total kept. */
    method PlayAgain(requester: string) returns (error: Option<string>)
      requires Valid()
      modifies this
      ensures Valid()
      ensures round == old(round) && hostId == old(hostId)
      ensures old(hostId) != requester ==> error.Some? && phase == old(phase) && players == old(players)
      ensures old(hostId) == requester ==> error.None? && phase == Waiting && players == Reset(old(players))
    {
      if hostId != requester {
        return Some("only the host can start a new round");
      }
      phase := Waiting;
      ghost var ps := players;
      for i := 0 to |players|
        invariant phase == Waiting && round == old(round) && hostId == old(hostId)
        invariant |players| == |ps|
        invariant forall j :: 0 <= j < i ==> players[j] == Reset(ps)[j]
        invariant forall j :: i <= j < |ps| ==> players[j] == ps[j]
      {
        var p := players[i];
        players := players[i := p.(hand := [], arrangement := None, ready := false, fouled := false)];
      }
      assert players == Reset(ps);
      error := None;
    }
  }
}
