/**
 * The local (single screen) thirteen-lanes game of client/src/hooks/useThirteenGame.ts:
 * the naive arranger the computers use, the pairwise scorer, and the state
 * updaters from the deal to the next round. The updaters are pure old-state to
 * new-state functions, as the source's `setState(prev => ...)` callbacks are; the
 * reveal scoring, which accumulates in two nested loops, is a method.
 */
module ThirteenLocal {

  import opened Wrappers
  import opened Sorting
  import opened Cards
  import opened ThirteenEval
  import opened ClientThirteenEval
  import opened Ledger
  import opened PairTally
  import CardUtils
  import ServerRoom

  // ---------------------------------------------------------------------------
  // naiveAutoArrange
  // ---------------------------------------------------------------------------

  /** `s.slice(lo, hi)`: both ends clamped to the length. */
  function Slice<T>(s: seq<T>, lo: nat, hi: nat): (r: seq<T>)
    ensures hi <= |s| && lo <= hi ==> r == s[lo..hi]
  {
    var h := if hi <= |s| then hi else |s|;
    var l := if lo <= h then lo else h;
    s[l..h]
  }

  /** The comparator `(x, y) => y.value - x.value` as "may come first": higher values first. */
  predicate ValueDesc(x: ClientCard, y: ClientCard) {
    y.value - x.value <= 0
  }

  /** The comparator `(x, y) => x.value - y.value` as "may come first": lower values first. */
  predicate ValueAsc(x: ClientCard, y: ClientCard) {
    x.value - y.value <= 0
  }

  /** `s.findIndex(c => getCardKey(c) === key)`: the first position with that key, or -1. */
  function KeyIndex(s: seq<ClientCard>, key: string): (i: int)
    ensures -1 <= i < |s|
    ensures i >= 0 ==> CardUtils.GetCardKey(s[i]) == key
    ensures i == -1 <==> forall k :: 0 <= k < |s| ==> CardUtils.GetCardKey(s[k]) != key
  {
    if s == [] then -1
    else if CardUtils.GetCardKey(s[0]) == key then 0
    else
      var rest := KeyIndex(s[1..], key);
      if rest == -1 then -1 else rest + 1
  }

  /** `s.splice(start, 1, x)`: a negative start counts from the end, a start past the end appends. */
  function SpliceOne<T>(s: seq<T>, start: int, x: T): (r: seq<T>)
    ensures 0 <= start < |s| ==> r == s[start := x]
  {
    var at := if start < 0 then (if |s| + start < 0 then 0 else |s| + start) else if start > |s| then |s| else start;
    if at == |s| then s + [x] else s[..at] + [x] + s[at + 1..]
  }

  /** The first split: the sorted hand's lowest 3 on top, the next 5 in the middle, the highest 5 at the bottom. */
  function FirstSplit(hand: seq<ClientCard>): ClientArrangement {
    var cards := CardUtils.SortCards(hand);
    ClientArrangement(Slice(cards, 0, 3), Slice(cards, 3, 8), Slice(cards, 8, 13))
  }

  /** The repair step: top's highest card and middle's lowest card change places. */
  function Swapped(a: ClientArrangement): ClientArrangement
    requires |a.top| > 0 && |a.middle| > 0
  {
    SwapIn(a, SortBy(a.top, ValueDesc)[0], SortBy(a.middle, ValueAsc)[0])
  }

  /** `t` takes the place of the top card with its key, `m` that of the middle card with its key, and both lanes are sorted again. */
  function SwapIn(a: ClientArrangement, t: ClientCard, m: ClientCard): ClientArrangement {
    var top2 := SpliceOne(a.top, KeyIndex(a.top, CardUtils.GetCardKey(t)), m);
    var mid2 := SpliceOne(a.middle, KeyIndex(a.middle, CardUtils.GetCardKey(m)), t);
    ClientArrangement(CardUtils.SortCards(top2), CardUtils.SortCards(mid2), a.bottom)
  }

  /**
   * `naiveAutoArrange`: the first split if it is valid, else the swapped one if that
   * is valid, else the first split (which will be judged fouled).
   */
  function NaiveAutoArrange(hand: seq<ClientCard>): (r: ClientArrangement)
    ensures r == FirstSplit(hand) || ClientIsValidArrangement(r)
    ensures ClientIsValidArrangement(FirstSplit(hand)) ==> r == FirstSplit(hand)
  {
    var a := FirstSplit(hand);
    if ClientIsValidArrangement(a) then a
    else if |a.top| > 0 && |a.middle| > 0 then
      var a2 := Swapped(a);
      if ClientIsValidArrangement(a2) then a2 else a
    else a
  }

  /** Cards are told apart by their key: no two different cards of the hand share one. */
  ghost predicate KeysIdentify(cards: seq<ClientCard>) {
    forall a, b :: a in cards && b in cards && CardUtils.GetCardKey(a) == CardUtils.GetCardKey(b) ==> a == b
  }

  predicate LaneSizes(a: ClientArrangement) {
    |a.top| == 3 && |a.middle| == 5 && |a.bottom| == 5
  }

  function AllLanes(a: ClientArrangement): seq<ClientCard> {
    a.top + a.middle + a.bottom
  }

  lemma FirstSplitCards(hand: seq<ClientCard>)
    requires |hand| == 13
    ensures LaneSizes(FirstSplit(hand)) && multiset(AllLanes(FirstSplit(hand))) == multiset(hand)
  {
    var cards := CardUtils.SortCards(hand);
    assert AllLanes(FirstSplit(hand)) == cards;
  }

  /** Replacing the element at `i` by `x` takes `s[i]` out of the multiset and puts `x` in. */
  lemma ReplaceMultiset<T>(s: seq<T>, i: nat, x: T)
    requires i < |s|
    ensures multiset(s[i := x]) == multiset(s) - multiset{s[i]} + multiset{x}
  {
    assert s == s[..i] + [s[i]] + s[i + 1..];
    assert s[i := x] == s[..i] + [x] + s[i + 1..];
  }

  /** The key search finds the very card that was looked up. */
  lemma KeyIndexFinds(s: seq<ClientCard>, c: ClientCard)
    requires c in s && KeysIdentify(s)
    ensures 0 <= KeyIndex(s, CardUtils.GetCardKey(c)) < |s| && s[KeyIndex(s, CardUtils.GetCardKey(c))] == c
  {
  }

  /** Replacing a card found by its key, then sorting, swaps exactly that card for the new one. */
  lemma SpliceFound(s: seq<ClientCard>, c: ClientCard, x: ClientCard)
    requires c in s && KeysIdentify(s)
    ensures var r := CardUtils.SortCards(SpliceOne(s, KeyIndex(s, CardUtils.GetCardKey(c)), x));
      |r| == |s| && multiset(r) == multiset(s) - multiset{c} + multiset{x}
  {
    KeyIndexFinds(s, c);
    ReplaceMultiset(s, KeyIndex(s, CardUtils.GetCardKey(c)), x);
  }

  /** Taking `t` out of `x` and `m` out of `y`, and putting each into the other, keeps the union. */
  lemma ExchangeMultiset(x: multiset<ClientCard>, y: multiset<ClientCard>, t: ClientCard, m: ClientCard)
    requires t in x && m in y
    ensures (x - multiset{t} + multiset{m}) + (y - multiset{m} + multiset{t}) == x + y
  {
  }

  lemma SwapInCards(a: ClientArrangement, t: ClientCard, m: ClientCard)
    requires t in a.top && m in a.middle && KeysIdentify(a.top) && KeysIdentify(a.middle)
    ensures var b := SwapIn(a, t, m);
      |b.top| == |a.top| && |b.middle| == |a.middle| && b.bottom == a.bottom
      && multiset(AllLanes(b)) == multiset(AllLanes(a))
  {
    SpliceFound(a.top, t, m);
    SpliceFound(a.middle, m, t);
    var b := SwapIn(a, t, m);
    ExchangeMultiset(multiset(a.top), multiset(a.middle), t, m);
    assert multiset(b.top) + multiset(b.middle) == multiset(a.top) + multiset(a.middle);
  }

  lemma SwappedCards(a: ClientArrangement)
    requires |a.top| > 0 && |a.middle| > 0 && KeysIdentify(a.top) && KeysIdentify(a.middle)
    ensures var b := Swapped(a);
      |b.top| == |a.top| && |b.middle| == |a.middle| && b.bottom == a.bottom
      && multiset(AllLanes(b)) == multiset(AllLanes(a))
  {
    var ts, ms := SortBy(a.top, ValueDesc), SortBy(a.middle, ValueAsc);
    assert ts[0] in multiset(ts) && ms[0] in multiset(ms);
    SwapInCards(a, ts[0], ms[0]);
  }

  lemma KeysIdentifySub(big: seq<ClientCard>, small: seq<ClientCard>)
    requires KeysIdentify(big) && multiset(small) <= multiset(big)
    ensures KeysIdentify(small)
  {
    forall c | c in small
      ensures c in big
    {
      assert c in multiset(small);
    }
  }

  /** For a 13-card hand whose cards are told apart by their keys, the arrangement has lanes 3/5/5 holding exactly the hand. */
  lemma NaiveAutoArrangeCards(hand: seq<ClientCard>)
    requires |hand| == 13 && KeysIdentify(hand)
    ensures var r := NaiveAutoArrange(hand);
      LaneSizes(r) && multiset(AllLanes(r)) == multiset(hand)
  {
    var a := FirstSplit(hand);
    FirstSplitCards(hand);
    var r := NaiveAutoArrange(hand);
    NaiveAutoArrangeChoices(hand);
    if r != a {
      assert multiset(a.top) <= multiset(hand) && multiset(a.middle) <= multiset(hand);
      KeysIdentifySub(hand, a.top);
      KeysIdentifySub(hand, a.middle);
      SwappedCards(a);
    }
  }

  lemma NaiveAutoArrangeChoices(hand: seq<ClientCard>)
    ensures var a := FirstSplit(hand);
      NaiveAutoArrange(hand) == a || (|a.top| > 0 && |a.middle| > 0 && NaiveAutoArrange(hand) == Swapped(a))
  {
  }

  // ---------------------------------------------------------------------------
  // scorePairwise
  // ---------------------------------------------------------------------------

  datatype Phase = Setup | Arranging | Reveal | ShowResult

  datatype Lane = Top | Middle | Bottom

  datatype LocalPlayer = LocalPlayer(id: string, name: string, isComputer: bool, color: string,
                                     hand: seq<ClientCard>, arrangement: ClientArrangement,
                                     lockedIn: bool, fouled: bool, totalScore: int)

  datatype LocalState = LocalState(phase: Phase, players: seq<LocalPlayer>, round: int,
                                   activePlayerId: Option<string>, roundScores: map<string, int>)

  /**
   * `scorePairwise`: a fouled player against a clean one loses 6, two fouled players
   * tie; otherwise the lane signs are added up, and a side that took all three lanes
   * gets 3 more. A lane of the wrong size makes the evaluator throw.
   */
  function ScorePairwise(a: LocalPlayer, b: LocalPlayer): (r: Result<(int, int)>)
    ensures r.Ok? <==> a.fouled || b.fouled || (LaneSizes(a.arrangement) && LaneSizes(b.arrangement))
  {
    PairScore(a.fouled, b.fouled, LaneSignsOf(a.arrangement, b.arrangement))
  }

  /** The scoring rule given the two foul flags and the lane signs, which only a clean pair looks at. */
  function PairScore(aFouled: bool, bFouled: bool, signs: Result<LaneSigns>): Result<(int, int)> {
    if aFouled && !bFouled then Ok((-6, 6))
    else if bFouled && !aFouled then Ok((6, -6))
    else if aFouled && bFouled then Ok((0, 0))
    else
      var s :- signs;
      Ok(CleanScore(s))
  }

  /** A clean pair's `[aScore, bScore]`: the lane sum and its negation, with 3 more to the side that took all three lanes. */
  function CleanScore(s: LaneSigns): (int, int) {
    var aScore := s.top + s.middle + s.bottom;
    var bonus := if s.top == 1 && s.middle == 1 && s.bottom == 1 then 3
                 else if s.top == -1 && s.middle == -1 && s.bottom == -1 then -3 else 0;
    (aScore + bonus, -aScore - bonus)
  }

  /** With lane signs in {-1, 0, 1}, that is the server's sweep rule. */
  lemma CleanScoreSwept(s: LaneSigns)
    requires (s.top == -1 || s.top == 0 || s.top == 1) && (s.middle == -1 || s.middle == 0 || s.middle == 1) && (s.bottom == -1 || s.bottom == 0 || s.bottom == 1)
    ensures CleanScore(s) == (ServerRoom.Swept(ServerRoom.SignSum(s)), -ServerRoom.Swept(ServerRoom.SignSum(s)))
  {
    var sum := s.top + s.middle + s.bottom;
    assert sum == 3 <==> s.top == 1 && s.middle == 1 && s.bottom == 1;
    assert sum == -3 <==> s.top == -1 && s.middle == -1 && s.bottom == -1;
  }

  /** The three lane signs `lane(compareEval(...))` of scorePairwise, evaluating the six lanes in the source's order. */
  function LaneSignsOf(a: ClientArrangement, b: ClientArrangement): (r: Result<LaneSigns>)
    ensures r.Ok? <==> LaneSizes(a) && LaneSizes(b)
  {
    var aTop :- ClientEvalThree(a.top);
    var bTop :- ClientEvalThree(b.top);
    var aMid :- ClientEvalFive(a.middle);
    var bMid :- ClientEvalFive(b.middle);
    var aBot :- ClientEvalFive(a.bottom);
    var bBot :- ClientEvalFive(b.bottom);
    Ok(LaneSigns(Sign(ClientCompareEval(aTop, bTop)), Sign(ClientCompareEval(aMid, bMid)), Sign(ClientCompareEval(aBot, bBot))))
  }

  /** The client's lane signs are the server's compareArrangements. */
  lemma LaneSignsAgree(a: ClientArrangement, b: ClientArrangement)
    ensures LaneSignsOf(a, b) == CompareArrangements(ToServerArrangement(a), ToServerArrangement(b))
  {
    ClientLanesAgree(a);
    ClientLanesAgree(b);
    if LaneSizes(a) && LaneSizes(b) {
      ClientCompareEvalAgrees(ClientEvalThree(a.top).value, ClientEvalThree(b.top).value);
      ClientCompareEvalAgrees(ClientEvalFive(a.middle).value, ClientEvalFive(b.middle).value);
      ClientCompareEvalAgrees(ClientEvalFive(a.bottom).value, ClientEvalFive(b.bottom).value);
    }
  }

  /** The scorer's lane signs for two clean players, as the server's compareArrangements computes them. */
  function ServerSigns(a: LocalPlayer, b: LocalPlayer): Result<LaneSigns> {
    CompareArrangements(ToServerArrangement(a.arrangement), ToServerArrangement(b.arrangement))
  }

  /** For two clean players the client scores the server's lane comparison, with the sweep doubled. */
  lemma ScorePairwiseClean(a: LocalPlayer, b: LocalPlayer)
    requires !a.fouled && !b.fouled && LaneSizes(a.arrangement) && LaneSizes(b.arrangement)
    ensures ServerSigns(a, b).Ok?
    ensures ScorePairwise(a, b) == Ok((ServerRoom.Swept(ServerRoom.SignSum(ServerSigns(a, b).value)),
                                       -ServerRoom.Swept(ServerRoom.SignSum(ServerSigns(a, b).value))))
  {
    LaneSignsAgree(a.arrangement, b.arrangement);
    PairScoreClean(ServerSigns(a, b));
    CleanScoreSwept(ServerSigns(a, b).value);
  }

  /** Two clean players score their lane signs by CleanScore. */
  lemma PairScoreClean(signs: Result<LaneSigns>)
    requires signs.Ok?
    ensures PairScore(false, false, signs) == Ok(CleanScore(signs.value))
  {
  }

  /** Always `[x, -x]` with `x` in -6..6; a fouled player against a clean one is exactly -6, two fouled players 0. */
  lemma ScorePairwiseRange(a: LocalPlayer, b: LocalPlayer)
    requires ScorePairwise(a, b).Ok?
    ensures var (x, y) := ScorePairwise(a, b).value; y == -x && -6 <= x <= 6
    ensures a.fouled && !b.fouled ==> ScorePairwise(a, b).value == (-6, 6)
    ensures !a.fouled && b.fouled ==> ScorePairwise(a, b).value == (6, -6)
    ensures a.fouled && b.fouled ==> ScorePairwise(a, b).value == (0, 0)
  {
    if !a.fouled && !b.fouled {
      ScorePairwiseClean(a, b);
      ServerRoom.SweptValues(ServerSigns(a, b).value);
    }
  }

  /** A score pair with both entries negated; an error stays the same error. */
  function NegatedScore(r: Result<(int, int)>): Result<(int, int)> {
    match r
    case Ok((x, y)) => Ok((-x, -y))
    case Err(e) => Err(e)
  }

  /** Scoring the pair the other way round negates both entries. */
  lemma ScorePairwiseSwap(a: LocalPlayer, b: LocalPlayer)
    ensures ScorePairwise(a, b).Ok? == ScorePairwise(b, a).Ok?
    ensures ScorePairwise(a, b).Ok? ==> ScorePairwise(b, a) == NegatedScore(ScorePairwise(a, b))
  {
    var sab, sba := LaneSignsOf(a.arrangement, b.arrangement), LaneSignsOf(b.arrangement, a.arrangement);
    LaneSignsSwap(a.arrangement, b.arrangement);
    PairScoreSwap(a.fouled, b.fouled, sab, sba);
  }

  /** The scoring rule is antisymmetric once the lane signs are. */
  lemma PairScoreSwap(aFouled: bool, bFouled: bool, sab: Result<LaneSigns>, sba: Result<LaneSigns>)
    requires sab.Ok? <==> sba.Ok?
    requires sab.Ok? ==> sba.value == Negate(sab.value)
    ensures PairScore(aFouled, bFouled, sab).Ok? == PairScore(bFouled, aFouled, sba).Ok?
    ensures PairScore(aFouled, bFouled, sab).Ok? ==> PairScore(bFouled, aFouled, sba) == NegatedScore(PairScore(aFouled, bFouled, sab))
  {
    if sab.Ok? {
      CleanScoreNegate(sab.value);
    }
  }

  lemma CleanScoreNegate(s: LaneSigns)
    ensures CleanScore(Negate(s)) == (-CleanScore(s).0, -CleanScore(s).1)
  {
  }

  /** Comparing the other way round negates every lane sign. */
  lemma LaneSignsSwap(a: ClientArrangement, b: ClientArrangement)
    ensures LaneSignsOf(a, b).Ok? ==> LaneSignsOf(b, a) == Ok(Negate(LaneSignsOf(a, b).value))
  {
    LaneSignsAgree(a, b);
    LaneSignsAgree(b, a);
    CompareArrangementsSwap(ToServerArrangement(a), ToServerArrangement(b));
  }

  /**
   * The client's foul rule is not the server's: for two clean players the client
   * compares lanes whatever anyone else did, while the server, once anyone in the
   * room fouled, scores such a pair 0; with no foul in the room both agree.
   */
  lemma FoulRuleDiffers(a: LocalPlayer, b: LocalPlayer)
    requires !a.fouled && !b.fouled && LaneSizes(a.arrangement) && LaneSizes(b.arrangement)
    ensures ScorePairwise(a, b).value.0 == ServerRoom.PairPoints(false, ServerRoom.Signs, ToServerPlayer(a), ToServerPlayer(b))
    ensures ServerRoom.PairPoints(true, ServerRoom.Signs, ToServerPlayer(a), ToServerPlayer(b)) == 0
  {
    ScorePairwiseClean(a, b);
    var sa, sb := ToServerPlayer(a), ToServerPlayer(b);
    assert ServerRoom.Sized(sa) && ServerRoom.Sized(sb);
  }

  /** The same player as the server keeps it. */
  function ToServerPlayer(p: LocalPlayer): ServerRoom.Player {
    ServerRoom.Player(p.id, p.name, p.isComputer, ServerRoom.Normal, ToServerCards(p.hand),
                      Some(ToServerArrangement(p.arrangement)), p.lockedIn, p.fouled, p.totalScore)
  }

  /** What `a` gains from `b` in the reveal loop (a throwing pair never reaches the loop). */
  function Points(a: LocalPlayer, b: LocalPlayer): int {
    match ScorePairwise(a, b)
    case Ok(r) => r.0
    case Err(_) => 0
  }

  lemma PointsSwapNegates()
    ensures SwapNegates(Points)
  {
    forall a, b
      ensures Points(a, b) == -Points(b, a)
    {
      ScorePairwiseSwap(a, b);
    }
  }

  lemma PointsBounded()
    ensures Bounded(Points, 6)
  {
    forall a, b
      ensures -6 <= Points(a, b) <= 6
    {
      if ScorePairwise(a, b).Ok? {
        ScorePairwiseRange(a, b);
      }
    }
  }

  // ---------------------------------------------------------------------------
  // startGame
  // ---------------------------------------------------------------------------

  function EmptyArrangement(): ClientArrangement {
    ClientArrangement([], [], [])
  }

  /** A player after the deal: the new hand, nothing arranged, and computers locked in. */
  function Dealt(p: LocalPlayer, hand: seq<ClientCard>): LocalPlayer {
    p.(hand := hand, arrangement := EmptyArrangement(), lockedIn := p.isComputer, fouled := false)
  }

  /** A computer arranges its hand with naiveAutoArrange, locks in, and is fouled when that arrangement is invalid. */
  function AutoArranged(p: LocalPlayer): LocalPlayer {
    if !p.isComputer then p
    else
      var arr := NaiveAutoArrange(p.hand);
      p.(arrangement := arr, lockedIn := true, fouled := !ClientIsValidArrangement(arr))
  }

  /** `players.find(p => !p.isComputer)`, as a seat. */
  function FirstHuman(ps: seq<LocalPlayer>): (r: Option<nat>)
    ensures r.Some? ==> r.value < |ps| && !ps[r.value].isComputer && forall k :: 0 <= k < r.value ==> ps[k].isComputer
    ensures r.None? ==> forall k :: 0 <= k < |ps| ==> ps[k].isComputer
  {
    if ps == [] then None
    else if !ps[0].isComputer then Some(0)
    else match FirstHuman(ps[1..])
      case None => None
      case Some(k) => Some(k + 1)
  }

  /** The thirteen cards a seat keeps: its dealt cards, sorted, cut to 13. */
  function KeptHand(deck: seq<ClientCard>, n: nat, i: nat): seq<ClientCard>
    requires 1 <= n && |deck| == 52 && i < n
  {
    CardUtils.DealFits(n);
    Slice(CardUtils.SortCards(CardUtils.Deal(deck, n)[i]), 0, 13)
  }

  /**
   * `startGame` with the shuffled deck as a parameter: nothing with fewer than two
   * players; otherwise every seat gets its cut hand, computers arrange and lock in,
   * and the first human (or else the first player) becomes active.
   */
  function StartGame(s: LocalState, deck: seq<ClientCard>): (r: LocalState)
    requires |deck| == 52
  {
    if |s.players| < 2 then s
    else
      var n := |s.players|;
      var players := seq(n, i requires 0 <= i < n => Dealt(s.players[i], KeptHand(deck, n, i)));
      var players2 := seq(n, i requires 0 <= i < n => AutoArranged(players[i]));
      var first := FirstHuman(players2);
      LocalState(Arranging, players2, s.round,
                 Some(if first.Some? then players2[first.value].id else players2[0].id), map[])
  }

  lemma DealtSize(deck: seq<ClientCard>, n: nat, i: nat)
    requires 2 <= n <= 4 && |deck| == 52 && i < n
    ensures |KeptHand(deck, n, i)| == 13
  {
    CardUtils.DealFits(n);
    CardUtils.DealSeat(deck, n, i, deck[0]);
    assert 52 / n >= 13 by {
      if n == 2 { assert 52 / n == 26; } else if n == 3 { assert 52 / n == 17; } else { assert 52 / n == 13; }
    }
  }

  lemma SliceMember<T>(s: seq<T>, lo: nat, hi: nat, x: T)
    requires x in Slice(s, lo, hi)
    ensures x in s
  {
  }

  lemma KeptFromDeal(deck: seq<ClientCard>, n: nat, i: nat, c: ClientCard)
    requires 1 <= n && |deck| == 52 && i < n && c in KeptHand(deck, n, i)
    ensures c in CardUtils.DealtHand(deck, n, i)
  {
    CardUtils.DealFits(n);
    var dealt := CardUtils.Deal(deck, n)[i];
    var sorted := CardUtils.SortCards(dealt);
    SliceMember(sorted, 0, 13, c);
    assert c in multiset(sorted);
  }

  /** With 2 to 4 players and a deck without repeats, every player holds exactly 13 cards and no card is held twice. */
  lemma StartGameHands(s: LocalState, deck: seq<ClientCard>, k: nat, q: nat, c: ClientCard)
    requires 2 <= |s.players| <= 4 && |deck| == 52 && CardUtils.DistinctCards(deck) && k < |s.players|
    ensures var r := StartGame(s, deck);
      |r.players| == |s.players| && |r.players[k].hand| == 13
      && (q < |s.players| && q != k ==> !(c in r.players[k].hand && c in r.players[q].hand))
  {
    var n := |s.players|;
    StartGameSeats(s, deck, k);
    DealtSize(deck, n, k);
    if q < n && q != k {
      StartGameSeats(s, deck, q);
      if c in KeptHand(deck, n, k) && c in KeptHand(deck, n, q) {
        KeptFromDeal(deck, n, k, c);
        KeptFromDeal(deck, n, q, c);
        CardUtils.DealFits(n);
        CardUtils.DealDisjoint(deck, n, k, q, c);
      }
    }
  }

  /** After the deal computers are locked with fouled exactly when their arrangement is invalid; humans start unlocked with nothing placed. */
  lemma StartGameSeats(s: LocalState, deck: seq<ClientCard>, k: nat)
    requires |s.players| >= 2 && |deck| == 52 && k < |s.players|
    ensures var r := StartGame(s, deck); var p := r.players[k];
      && |r.players| == |s.players| && r.phase == Arranging && r.roundScores == map[]
      && p.id == s.players[k].id && p.isComputer == s.players[k].isComputer && p.totalScore == s.players[k].totalScore
      && p.hand == KeptHand(deck, |s.players|, k)
      && (p.isComputer ==> p.lockedIn && p.arrangement == NaiveAutoArrange(p.hand)
                           && p.fouled == !ClientIsValidArrangement(p.arrangement))
      && (!p.isComputer ==> !p.lockedIn && !p.fouled && p.arrangement == EmptyArrangement())
  {
  }

  // ---------------------------------------------------------------------------
  // moveCardToLane, removeCardFromLane
  // ---------------------------------------------------------------------------

  /** `players.findIndex(p => p.id === id)`. */
  function IndexOfId(ps: seq<LocalPlayer>, id: string): (i: int)
    ensures -1 <= i < |ps|
    ensures i >= 0 ==> ps[i].id == id
    ensures i == -1 <==> forall k :: 0 <= k < |ps| ==> ps[k].id != id
  {
    if ps == [] then -1
    else if ps[0].id == id then 0
    else
      var rest := IndexOfId(ps[1..], id);
      if rest == -1 then -1 else rest + 1
  }

  /**
   * The seat the arranging updaters act on: there is an active id (an empty id is
   * falsy and counts as none), a player has it, and that player is a human who has
   * not locked in.
   */
  function ArrangingSeat(s: LocalState): (r: Option<nat>)
    ensures r.Some? ==> r.value < |s.players| && !s.players[r.value].isComputer && !s.players[r.value].lockedIn
                        && s.activePlayerId == Some(s.players[r.value].id)
  {
    match s.activePlayerId
    case None => None
    case Some(pid) =>
      if pid == "" then None
      else
        var idx := IndexOfId(s.players, pid);
        if idx < 0 then None
        else if s.players[idx].isComputer || s.players[idx].lockedIn then None
        else Some(idx)
  }

  function LaneOf(a: ClientArrangement, lane: Lane): seq<ClientCard> {
    match lane
    case Top => a.top
    case Middle => a.middle
    case Bottom => a.bottom
  }

  function WithLane(a: ClientArrangement, lane: Lane, cards: seq<ClientCard>): (r: ClientArrangement)
    ensures LaneOf(r, lane) == cards
    ensures forall l :: l != lane ==> LaneOf(r, l) == LaneOf(a, l)
  {
    match lane
    case Top => a.(top := cards)
    case Middle => a.(middle := cards)
    case Bottom => a.(bottom := cards)
  }

  /** A lane's capacity: 3 on top, 5 elsewhere. */
  function Cap(lane: Lane): nat {
    if lane == Top then 3 else 5
  }

  /** `cards.some(c => getCardKey(c) === key)`. */
  predicate HasKey(cards: seq<ClientCard>, key: string) {
    exists i :: 0 <= i < |cards| && CardUtils.GetCardKey(cards[i]) == key
  }

  predicate InSomeLane(a: ClientArrangement, key: string) {
    HasKey(a.top, key) || HasKey(a.middle, key) || HasKey(a.bottom, key)
  }

  /** The card joins the lane, which is sorted again; only the seat's arrangement changes. */
  function PlaceAt(s: LocalState, idx: nat, card: ClientCard, lane: Lane): LocalState
    requires idx < |s.players|
  {
    var p := s.players[idx];
    s.(players := s.players[idx := p.(arrangement := Placing(p.arrangement, lane, card))])
  }

  /** `moveCardToLane` as written: it checks the lanes and the capacity, but never that the card is in the hand. */
  function MoveCardToLaneAsWritten(s: LocalState, card: ClientCard, lane: Lane): LocalState {
    match ArrangingSeat(s)
    case None => s
    case Some(idx) =>
      var a := s.players[idx].arrangement;
      if InSomeLane(a, CardUtils.GetCardKey(card)) then s
      else if |LaneOf(a, lane)| >= Cap(lane) then s
      else PlaceAt(s, idx, card, lane)
  }

  /** `moveCardToLane` with the check its comment asks for: the card must also be in the hand. */
  function MoveCardToLane(s: LocalState, card: ClientCard, lane: Lane): LocalState {
    match ArrangingSeat(s)
    case None => s
    case Some(idx) =>
      var p := s.players[idx];
      var key := CardUtils.GetCardKey(card);
      if !HasKey(p.hand, key) || InSomeLane(p.arrangement, key) then s
      else if |LaneOf(p.arrangement, lane)| >= Cap(lane) then s
      else PlaceAt(s, idx, card, lane)
  }

  /** Lanes within their capacities. */
  predicate Capped(a: ClientArrangement) {
    |a.top| <= 3 && |a.middle| <= 5 && |a.bottom| <= 5
  }

  /** Lanes within capacity, holding only cards of the hand, no key twice. */
  ghost predicate LanesPlaced(hand: seq<ClientCard>, a: ClientArrangement) {
    && Capped(a)
    && (forall c :: c in AllLanes(a) ==> HasKey(hand, CardUtils.GetCardKey(c)))
    && Distinct(Map(CardUtils.GetCardKey, AllLanes(a)))
  }

  /** What a player's lanes may hold. */
  ghost predicate Placed(p: LocalPlayer) {
    LanesPlaced(p.hand, p.arrangement)
  }

  /** What the move does: no change unless an unlocked human is active, holds the card, has not placed it, and the lane has room; then only that lane of that player gains exactly that card. */
  lemma MoveCardToLaneEffect(s: LocalState, card: ClientCard, lane: Lane)
    ensures var r := MoveCardToLane(s, card, lane);
      match ArrangingSeat(s)
      case None => r == s
      case Some(idx) =>
        var p := s.players[idx];
        var key := CardUtils.GetCardKey(card);
        if !HasKey(p.hand, key) || InSomeLane(p.arrangement, key) || |LaneOf(p.arrangement, lane)| >= Cap(lane) then r == s
        else
          && |r.players| == |s.players| && r.phase == s.phase && r.activePlayerId == s.activePlayerId
          && (forall k :: 0 <= k < |s.players| && k != idx ==> r.players[k] == s.players[k])
          && r.players[idx].(arrangement := p.arrangement) == p
          && multiset(LaneOf(r.players[idx].arrangement, lane)) == multiset(LaneOf(p.arrangement, lane)) + multiset{card}
          && (forall l :: l != lane ==> LaneOf(r.players[idx].arrangement, l) == LaneOf(p.arrangement, l))
  {
  }

  lemma AllLanesOf(a: ClientArrangement, lane: Lane, cards: seq<ClientCard>)
    ensures multiset(AllLanes(WithLane(a, lane, cards))) == multiset(AllLanes(a)) - multiset(LaneOf(a, lane)) + multiset(cards)
  {
  }

  lemma KeyAbsent(cards: seq<ClientCard>, key: string)
    requires !HasKey(cards, key)
    ensures key !in multiset(Map(CardUtils.GetCardKey, cards))
  {
  }

  lemma LanesKey(a: ClientArrangement, key: string)
    requires !InSomeLane(a, key)
    ensures !HasKey(AllLanes(a), key)
  {
  }

  lemma DistinctAppend<T(!new)>(s: seq<T>, x: T)
    requires Distinct(s) && x !in multiset(s)
    ensures Distinct(s + [x])
  {
    assert multiset(s + [x]) == multiset(s) + multiset{x};
  }

  /** The lane that gains `card`, sorted again. */
  function Placing(a: ClientArrangement, lane: Lane, card: ClientCard): ClientArrangement {
    WithLane(a, lane, CardUtils.SortCards(LaneOf(a, lane) + [card]))
  }

  lemma PlacingCards(a: ClientArrangement, lane: Lane, card: ClientCard)
    ensures multiset(AllLanes(Placing(a, lane, card))) == multiset(AllLanes(a) + [card])
  {
    AllLanesOf(a, lane, CardUtils.SortCards(LaneOf(a, lane) + [card]));
  }

  lemma PlacingKeys(a: ClientArrangement, lane: Lane, card: ClientCard)
    requires Distinct(Map(CardUtils.GetCardKey, AllLanes(a))) && !InSomeLane(a, CardUtils.GetCardKey(card))
    ensures Distinct(Map(CardUtils.GetCardKey, AllLanes(Placing(a, lane, card))))
  {
    var key := CardUtils.GetCardKey(card);
    var before, after := AllLanes(a), AllLanes(Placing(a, lane, card));
    PlacingCards(a, lane, card);
    MapPermutation(CardUtils.GetCardKey, after, before + [card]);
    MapConcat(CardUtils.GetCardKey, before, [card]);
    assert Map(CardUtils.GetCardKey, [card]) == [key];
    LanesKey(a, key);
    KeyAbsent(before, key);
    DistinctAppend(Map(CardUtils.GetCardKey, before), key);
  }

  lemma PlacingFromHand(hand: seq<ClientCard>, a: ClientArrangement, lane: Lane, card: ClientCard)
    requires forall c :: c in AllLanes(a) ==> HasKey(hand, CardUtils.GetCardKey(c))
    requires HasKey(hand, CardUtils.GetCardKey(card))
    ensures forall c :: c in AllLanes(Placing(a, lane, card)) ==> HasKey(hand, CardUtils.GetCardKey(c))
  {
    var after := AllLanes(Placing(a, lane, card));
    PlacingCards(a, lane, card);
    forall c | c in after
      ensures HasKey(hand, CardUtils.GetCardKey(c))
    {
      assert c in multiset(after);
      assert c in AllLanes(a) + [card];
    }
  }

  /** Adding a held, unplaced card to a lane with room keeps the lanes as they should be. */
  lemma PlaceKeeps(hand: seq<ClientCard>, a: ClientArrangement, lane: Lane, card: ClientCard)
    requires LanesPlaced(hand, a)
    requires HasKey(hand, CardUtils.GetCardKey(card)) && !InSomeLane(a, CardUtils.GetCardKey(card))
    requires |LaneOf(a, lane)| < Cap(lane)
    ensures LanesPlaced(hand, Placing(a, lane, card))
  {
    PlacingKeys(a, lane, card);
    PlacingFromHand(hand, a, lane, card);
  }

  lemma DroppingCards(a: ClientArrangement, lane: Lane, key: string)
    ensures multiset(AllLanes(WithLane(a, lane, DropKey(LaneOf(a, lane), key)))) <= multiset(AllLanes(a))
  {
    AllLanesOf(a, lane, DropKey(LaneOf(a, lane), key));
  }

  function Dropping(a: ClientArrangement, lane: Lane, key: string): ClientArrangement {
    WithLane(a, lane, DropKey(LaneOf(a, lane), key))
  }

  lemma DroppingKeys(a: ClientArrangement, lane: Lane, key: string)
    requires Distinct(Map(CardUtils.GetCardKey, AllLanes(a)))
    ensures Distinct(Map(CardUtils.GetCardKey, AllLanes(Dropping(a, lane, key))))
  {
    var before, after := AllLanes(a), AllLanes(Dropping(a, lane, key));
    DroppingCards(a, lane, key);
    MapSubMultiset(CardUtils.GetCardKey, after, before);
    DistinctSub(Map(CardUtils.GetCardKey, before), Map(CardUtils.GetCardKey, after));
  }

  lemma DroppingFromHand(hand: seq<ClientCard>, a: ClientArrangement, lane: Lane, key: string)
    requires forall c :: c in AllLanes(a) ==> HasKey(hand, CardUtils.GetCardKey(c))
    ensures forall c :: c in AllLanes(Dropping(a, lane, key)) ==> HasKey(hand, CardUtils.GetCardKey(c))
  {
    var after := AllLanes(Dropping(a, lane, key));
    DroppingCards(a, lane, key);
    forall c | c in after
      ensures c in AllLanes(a)
    {
      assert c in multiset(after);
    }
  }

  /** Taking cards out of a lane keeps the lanes as they should be. */
  lemma DropKeeps(hand: seq<ClientCard>, a: ClientArrangement, lane: Lane, key: string)
    requires LanesPlaced(hand, a)
    ensures LanesPlaced(hand, Dropping(a, lane, key))
  {
    DroppingKeys(a, lane, key);
    DroppingFromHand(hand, a, lane, key);
  }

  /** The corrected move keeps every player's lanes within capacity, drawn from the hand, and free of repeated keys. */
  lemma MoveCardToLaneKeepsPlaced(s: LocalState, card: ClientCard, lane: Lane, k: nat)
    requires k < |s.players| && Placed(s.players[k])
    ensures var r := MoveCardToLane(s, card, lane); |r.players| == |s.players| && Placed(r.players[k])
  {
    MoveCardToLaneEffect(s, card, lane);
    var r := MoveCardToLane(s, card, lane);
    if r != s && ArrangingSeat(s) == Some(k) {
      var p := s.players[k];
      PlaceKeeps(p.hand, p.arrangement, lane, card);
      assert r.players[k] == p.(arrangement := Placing(p.arrangement, lane, card));
    }
  }

  /** As written, the move puts a card the player does not hold into a lane. */
  lemma MoveCardToLaneAsWrittenForeignCard(s: LocalState, card: ClientCard, lane: Lane)
    requires ArrangingSeat(s).Some?
    requires var p := s.players[ArrangingSeat(s).value];
      var key := CardUtils.GetCardKey(card);
      !HasKey(p.hand, key) && !InSomeLane(p.arrangement, key) && |LaneOf(p.arrangement, lane)| < Cap(lane)
    ensures var idx := ArrangingSeat(s).value;
      card in AllLanes(MoveCardToLaneAsWritten(s, card, lane).players[idx].arrangement)
      && !Placed(MoveCardToLaneAsWritten(s, card, lane).players[idx])
    ensures MoveCardToLane(s, card, lane) == s
  {
    var idx := ArrangingSeat(s).value;
    var q := MoveCardToLaneAsWritten(s, card, lane).players[idx];
    var cards := LaneOf(q.arrangement, lane);
    assert cards == CardUtils.SortCards(LaneOf(s.players[idx].arrangement, lane) + [card]);
    assert card in multiset(cards);
    AllLanesOf(s.players[idx].arrangement, lane, cards);
    assert q.arrangement == WithLane(s.players[idx].arrangement, lane, cards);
    assert card in multiset(AllLanes(q.arrangement));
  }

  /** `cards.filter(c => getCardKey(c) !== key)`. */
  function DropKey(cards: seq<ClientCard>, key: string): (r: seq<ClientCard>)
    ensures forall c :: c in r <==> c in cards && CardUtils.GetCardKey(c) != key
    ensures multiset(r) <= multiset(cards) && |r| <= |cards|
  {
    if cards == [] then []
    else
      assert cards == [cards[0]] + cards[1..];
      if CardUtils.GetCardKey(cards[0]) == key then DropKey(cards[1..], key)
      else [cards[0]] + DropKey(cards[1..], key)
  }

  /** `removeCardFromLane`: the active unlocked human's lane loses every card with that key. */
  function RemoveCardFromLane(s: LocalState, card: ClientCard, lane: Lane): LocalState {
    match ArrangingSeat(s)
    case None => s
    case Some(idx) =>
      var p := s.players[idx];
      var a := p.arrangement;
      s.(players := s.players[idx := p.(arrangement := Dropping(a, lane, CardUtils.GetCardKey(card)))])
  }

  lemma DistinctSub<T(!new)>(big: seq<T>, small: seq<T>)
    requires Distinct(big) && multiset(small) <= multiset(big)
    ensures Distinct(small)
  {
    forall x
      ensures multiset(small)[x] <= 1
    {
      assert multiset(small)[x] <= multiset(big)[x];
    }
  }

  lemma {:induction false} MapSubMultiset<T, U>(f: T -> U, small: seq<T>, big: seq<T>)
    requires multiset(small) <= multiset(big)
    ensures multiset(Map(f, small)) <= multiset(Map(f, big))
    decreases |small|
  {
    if small != [] {
      var x, init := small[|small| - 1], small[..|small| - 1];
      assert small == init + [x];
      assert x in multiset(big);
      var j :| 0 <= j < |big| && big[j] == x;
      var rest := big[..j] + big[j + 1..];
      MultisetRemoveAt(big, j);
      assert multiset(small) == multiset(init) + multiset{x};
      forall y
        ensures multiset(init)[y] <= multiset(rest)[y]
      {
        assert multiset(small)[y] <= multiset(big)[y];
      }
      MapSubMultiset(f, init, rest);
      MapRemoveAt(f, big, j);
      MapConcat(f, init, [x]);
      assert Map(f, [x]) == [f(x)];
    }
  }

  /** Removing takes the card out of that lane only, and keeps every player's lanes as the invariant wants them. */
  lemma RemoveCardFromLaneEffect(s: LocalState, card: ClientCard, lane: Lane, k: nat)
    requires k < |s.players| && Placed(s.players[k])
    ensures var r := RemoveCardFromLane(s, card, lane);
      && |r.players| == |s.players| && Placed(r.players[k])
      && (ArrangingSeat(s) == Some(k) ==>
            (forall c :: c in LaneOf(r.players[k].arrangement, lane) <==>
                           c in LaneOf(s.players[k].arrangement, lane) && CardUtils.GetCardKey(c) != CardUtils.GetCardKey(card))
            && forall l :: l != lane ==> LaneOf(r.players[k].arrangement, l) == LaneOf(s.players[k].arrangement, l))
      && (ArrangingSeat(s) != Some(k) ==> r.players[k] == s.players[k])
  {
    if ArrangingSeat(s) == Some(k) {
      var p := s.players[k];
      DropKeeps(p.hand, p.arrangement, lane, CardUtils.GetCardKey(card));
    }
  }

  // ---------------------------------------------------------------------------
  // lockIn
  // ---------------------------------------------------------------------------

  /** `allChosenCount`: cards placed over the three lanes. */
  function Chosen(a: ClientArrangement): nat {
    |a.top| + |a.middle| + |a.bottom|
  }

  /** `players.find(pp => !pp.isComputer && !pp.lockedIn)`, as a seat. */
  function FirstUnlockedHuman(ps: seq<LocalPlayer>): (r: Option<nat>)
    ensures r.Some? ==> r.value < |ps| && !ps[r.value].isComputer && !ps[r.value].lockedIn
    ensures r.None? <==> forall k :: 0 <= k < |ps| ==> ps[k].isComputer || ps[k].lockedIn
  {
    if ps == [] then None
    else if !ps[0].isComputer && !ps[0].lockedIn then Some(0)
    else match FirstUnlockedHuman(ps[1..])
      case None => None
      case Some(k) => Some(k + 1)
  }

  /**
   * `lockIn`: the active unlocked human with all 13 cards placed locks in and is
   * fouled when the arrangement is invalid; the next unlocked human becomes active,
   * and when there is none the game moves to the reveal.
   */
  function LockIn(s: LocalState): LocalState {
    match ArrangingSeat(s)
    case None => s
    case Some(idx) =>
      var p := s.players[idx];
      if Chosen(p.arrangement) != 13 then s
      else
        var players := s.players[idx := p.(lockedIn := true, fouled := !ClientIsValidArrangement(p.arrangement))];
        var next := FirstUnlockedHuman(players);
        s.(players := players,
           activePlayerId := if next.Some? then Some(players[next.value].id) else None,
           phase := if next.Some? then Arranging else Reveal)
  }

  /** Locking in happens exactly when the active unlocked human has placed 13 cards; it judges that player, touches no other, and enters the reveal exactly when no unlocked human remains. */
  lemma LockInEffect(s: LocalState)
    ensures var r := LockIn(s);
      match ArrangingSeat(s)
      case None => r == s
      case Some(idx) =>
        var p := s.players[idx];
        if Chosen(p.arrangement) != 13 then r == s
        else
          && r != s
          && |r.players| == |s.players|
          && r.players[idx] == p.(lockedIn := true, fouled := !ClientIsValidArrangement(p.arrangement))
          && (forall k :: 0 <= k < |s.players| && k != idx ==> r.players[k] == s.players[k])
          && (r.phase == Reveal <==> forall k :: 0 <= k < |r.players| ==> r.players[k].isComputer || r.players[k].lockedIn)
          && (r.phase == Reveal ==> r.activePlayerId == None)
          && (r.phase != Reveal ==>
                r.phase == Arranging
                && exists k :: 0 <= k < |r.players| && !r.players[k].isComputer && !r.players[k].lockedIn
                               && r.activePlayerId == Some(r.players[k].id))
  {
    var r := LockIn(s);
    if ArrangingSeat(s).Some? {
      var idx := ArrangingSeat(s).value;
      var p := s.players[idx];
      if Chosen(p.arrangement) == 13 {
        assert r.players[idx].lockedIn != s.players[idx].lockedIn;
        var next := FirstUnlockedHuman(r.players);
        if next.Some? {
          assert r.activePlayerId == Some(r.players[next.value].id);
        }
      }
    }
  }

  /** `findIndex` lands on the first player with the id. */
  lemma IndexOfFirst(ps: seq<LocalPlayer>, k: nat)
    requires k < |ps| && forall q :: 0 <= q < k ==> ps[q].id != ps[k].id
    ensures IndexOfId(ps, ps[k].id) == k
  {
    if k > 0 {
      IndexOfFirst(ps[1..], k - 1);
    }
  }

  // ---------------------------------------------------------------------------
  // Consistency between phase, locks and fouls
  // ---------------------------------------------------------------------------

  /** A locked-in player is fouled exactly when its arrangement is invalid. */
  predicate Judged(p: LocalPlayer) {
    p.lockedIn ==> p.fouled == !ClientIsValidArrangement(p.arrangement)
  }

  /** Only the arranging phase has an active player; while arranging or revealing computers are locked in, at the reveal everyone is, and every locked player has been judged. */
  predicate Consistent(s: LocalState) {
    && (s.phase != Arranging ==> s.activePlayerId == None)
    && forall k :: 0 <= k < |s.players| ==>
      && Judged(s.players[k])
      && ((s.phase == Arranging || s.phase == Reveal) && s.players[k].isComputer ==> s.players[k].lockedIn)
      && (s.phase == Reveal ==> s.players[k].lockedIn)
  }

  /** What the scorer needs from a player: fouled, or lanes of sizes 3/5/5. */
  predicate Scorable(p: LocalPlayer) {
    p.fouled || LaneSizes(p.arrangement)
  }

  lemma ValidSized(a: ClientArrangement)
    requires ClientIsValidArrangement(a)
    ensures LaneSizes(a)
  {
  }

  /** At the reveal of a consistent game every player can be scored, so the scorer never meets a lane of the wrong size. */
  lemma RevealReady(s: LocalState)
    requires Consistent(s) && s.phase == Reveal
    ensures forall k :: 0 <= k < |s.players| ==> Scorable(s.players[k])
  {
    forall k | 0 <= k < |s.players|
      ensures Scorable(s.players[k])
    {
      if !s.players[k].fouled {
        ValidSized(s.players[k].arrangement);
      }
    }
  }

  lemma StartGameConsistent(s: LocalState, deck: seq<ClientCard>)
    requires |deck| == 52 && Consistent(s)
    ensures Consistent(StartGame(s, deck))
  {
    if |s.players| >= 2 {
      forall k | 0 <= k < |s.players|
        ensures var p := StartGame(s, deck).players[k];
          Judged(p) && (p.isComputer ==> p.lockedIn)
      {
        StartGameSeats(s, deck, k);
      }
    }
  }

  lemma MoveCardToLaneConsistent(s: LocalState, card: ClientCard, lane: Lane)
    requires Consistent(s)
    ensures Consistent(MoveCardToLane(s, card, lane))
  {
    MoveCardToLaneEffect(s, card, lane);
  }

  lemma RemoveCardFromLaneConsistent(s: LocalState, card: ClientCard, lane: Lane)
    requires Consistent(s)
    ensures Consistent(RemoveCardFromLane(s, card, lane))
  {
    var r := RemoveCardFromLane(s, card, lane);
    if ArrangingSeat(s).Some? {
      var idx := ArrangingSeat(s).value;
      assert forall k :: 0 <= k < |s.players| && k != idx ==> r.players[k] == s.players[k];
      assert !r.players[idx].lockedIn;
    }
  }

  lemma LockInConsistent(s: LocalState)
    requires Consistent(s)
    ensures Consistent(LockIn(s))
  {
    LockInEffect(s);
  }

  // ---------------------------------------------------------------------------
  // Reveal scoring
  // ---------------------------------------------------------------------------

  /** No two players share an id. */
  predicate DistinctLocalIds(ps: seq<LocalPlayer>) {
    forall i, j :: 0 <= i < j < |ps| ==> ps[i].id != ps[j].id
  }

  /** The `roundScores` record: each player's id maps to its entry. */
  function ScoreMap(ps: seq<LocalPlayer>, d: seq<int>): (m: map<string, int>)
    requires |d| == |ps| && DistinctLocalIds(ps)
    ensures forall k :: 0 <= k < |ps| ==> ps[k].id in m && m[ps[k].id] == d[k]
    ensures forall id :: id in m ==> exists k :: 0 <= k < |ps| && ps[k].id == id
  {
    map k | 0 <= k < |ps| :: ps[k].id := d[k]
  }

  /** `roundScores[p.id] ?? 0`. */
  function ScoreOf(m: map<string, int>, id: string): int {
    if id in m then m[id] else 0
  }

  /** Each player's total grows by its round score. */
  function AddScores(ps: seq<LocalPlayer>, m: map<string, int>): (r: seq<LocalPlayer>)
    ensures |r| == |ps|
  {
    seq(|ps|, k requires 0 <= k < |ps| => ps[k].(totalScore := ps[k].totalScore + ScoreOf(m, ps[k].id)))
  }

  /** The state the reveal leaves: the round-robin tally recorded by id, added to the totals, and the result shown. */
  function Revealed(s: LocalState): LocalState
    requires DistinctLocalIds(s.players)
  {
    Settled(s, Tally(s.players, Points))
  }

  /** Round scores `d`, seat by seat, recorded by id and added to the totals, with the result shown. */
  function Settled(s: LocalState, d: seq<int>): LocalState
    requires DistinctLocalIds(s.players) && |d| == |s.players|
  {
    var m := ScoreMap(s.players, d);
    s.(players := AddScores(s.players, m), roundScores := m, phase := ShowResult)
  }

  /**
   * The reveal effect: every pair `i < j` is scored once, `i` gaining its share and
   * `j` the other, which is its negation (ScorePairwiseRange); then every total grows
   * by its round score. The scorer throws on a clean player whose lanes are not 3/5/5,
   * so every player must be scorable, as RevealReady shows a consistent game is.
   */
  method ScoreReveal(s: LocalState) returns (r: LocalState)
    requires DistinctLocalIds(s.players)
    requires s.phase == Reveal ==> forall k :: 0 <= k < |s.players| ==> Scorable(s.players[k])
    ensures s.phase != Reveal ==> r == s
    ensures s.phase == Reveal ==> r == Revealed(s)
  {
    if s.phase != Reveal {
      return s;
    }
    var d := TallyPairs(s.players, Points);
    var roundScores := ScoreMap(s.players, d);
    var players := AddScores(s.players, roundScores);
    r := s.(players := players, roundScores := roundScores, phase := ShowResult);
  }

  /** Settling records each seat's score under its id and adds it to that seat's total, changing nothing else about the player. */
  lemma SettledTotals(s: LocalState, d: seq<int>, k: nat)
    requires DistinctLocalIds(s.players) && |d| == |s.players| && k < |s.players|
    ensures var r := Settled(s, d);
      && |r.players| == |s.players| && r.phase == ShowResult && r.activePlayerId == s.activePlayerId
      && r.players[k].(totalScore := s.players[k].totalScore) == s.players[k]
      && s.players[k].id in r.roundScores && r.roundScores[s.players[k].id] == d[k]
      && r.players[k].totalScore == s.players[k].totalScore + r.roundScores[s.players[k].id]
  {
  }

  /** Round scores are recorded under exactly the players' ids, and each total grows by exactly its player's round score. */
  lemma RevealedTotals(s: LocalState, k: nat)
    requires DistinctLocalIds(s.players) && k < |s.players|
    ensures var r := Revealed(s);
      && |r.players| == |s.players| && r.phase == ShowResult
      && r.players[k].(totalScore := s.players[k].totalScore) == s.players[k]
      && s.players[k].id in r.roundScores
      && r.players[k].totalScore == s.players[k].totalScore + r.roundScores[s.players[k].id]
      && r.roundScores[s.players[k].id] == Tally(s.players, Points)[k]
  {
    SettledTotals(s, Tally(s.players, Points), k);
  }

  /** Each player's entry in a score record, seat by seat. */
  function ScoresById(ps: seq<LocalPlayer>, m: map<string, int>): (d: seq<int>)
    ensures |d| == |ps| && forall k :: 0 <= k < |ps| ==> d[k] == ScoreOf(m, ps[k].id)
  {
    seq(|ps|, k requires 0 <= k < |ps| => ScoreOf(m, ps[k].id))
  }

  /** The round scores, seat by seat. */
  function RoundScores(s: LocalState): (d: seq<int>)
    ensures |d| == |s.players|
  {
    ScoresById(s.players, s.roundScores)
  }

  /** The first `n` totals, added up. */
  function TotalsTo(ps: seq<LocalPlayer>, n: nat): int
    requires n <= |ps|
  {
    if n == 0 then 0 else TotalsTo(ps, n - 1) + ps[n - 1].totalScore
  }

  lemma {:induction false} TotalsGrow(ps: seq<LocalPlayer>, m: map<string, int>, n: nat)
    requires n <= |ps|
    ensures TotalsTo(AddScores(ps, m), n) == TotalsTo(ps, n) + SumTo(ScoresById(ps, m), n)
  {
    if n > 0 {
      TotalsGrow(ps, m, n - 1);
    }
  }

  /** Settling adds the sum of the scores to the sum of the totals. */
  lemma SettledSum(s: LocalState, d: seq<int>)
    requires DistinctLocalIds(s.players) && |d| == |s.players|
    ensures RoundScores(Settled(s, d)) == d
    ensures TotalsTo(Settled(s, d).players, |s.players|) == TotalsTo(s.players, |s.players|) + SumTo(d, |d|)
  {
    var m := ScoreMap(s.players, d);
    var ps := AddScores(s.players, m);
    assert ScoresById(s.players, m) == d;
    assert ScoresById(ps, m) == d by {
      forall k | 0 <= k < |ps|
        ensures ps[k].id == s.players[k].id
      {
      }
    }
    TotalsGrow(s.players, m, |s.players|);
  }

  /** The round scores sum to zero, so the reveal leaves the sum of totals unchanged. */
  lemma RevealZeroSum(s: LocalState)
    requires DistinctLocalIds(s.players)
    ensures RoundScores(Revealed(s)) == Tally(s.players, Points)
    ensures SumTo(RoundScores(Revealed(s)), |s.players|) == 0
    ensures TotalsTo(Revealed(s).players, |s.players|) == TotalsTo(s.players, |s.players|)
  {
    SettledSum(s, Tally(s.players, Points));
    TallyZeroSum(s.players, Points);
  }

  /** Each round score is the player's own share summed over every opponent, and lies in `-6 * (n - 1)..6 * (n - 1)`. */
  lemma RevealedScore(s: LocalState, k: nat)
    requires DistinctLocalIds(s.players) && k < |s.players|
    ensures var score := Revealed(s).roundScores[s.players[k].id];
      && score == Against(s.players, Points, k, |s.players|)
      && -(6 * (|s.players| - 1)) <= score <= 6 * (|s.players| - 1)
  {
    RevealedTotals(s, k);
    PointsSwapNegates();
    PointsBounded();
    TallyAt(s.players, Points, k);
    TallyBound(s.players, Points, 6, k);
  }

  /** The reveal keeps a consistent game consistent. */
  lemma RevealedConsistent(s: LocalState)
    requires DistinctLocalIds(s.players) && Consistent(s) && s.phase == Reveal
    ensures Consistent(Revealed(s))
  {
    var d := Tally(s.players, Points);
    forall k | 0 <= k < |s.players|
      ensures Judged(Settled(s, d).players[k])
    {
      SettledTotals(s, d, k);
    }
  }

  // ---------------------------------------------------------------------------
  // nextRound
  // ---------------------------------------------------------------------------

  /** `nextRound`: back to setup with the next round number, no active player or round scores, and every player emptied but its identity and total kept. */
  function NextRound(s: LocalState): LocalState {
    s.(round := s.round + 1, phase := Setup, activePlayerId := None, roundScores := map[],
       players := seq(|s.players|, k requires 0 <= k < |s.players| =>
                        s.players[k].(hand := [], arrangement := EmptyArrangement(), lockedIn := false, fouled := false)))
  }

  /** The next round keeps who plays and what they have scored, clears everything else, and leaves a consistent game. */
  lemma NextRoundKeeps(s: LocalState, k: nat)
    requires k < |s.players|
    ensures var r := NextRound(s); var p, q := s.players[k], r.players[k];
      && |r.players| == |s.players| && r.round == s.round + 1 && r.phase == Setup
      && q.id == p.id && q.name == p.name && q.isComputer == p.isComputer && q.color == p.color
      && q.totalScore == p.totalScore
      && q.hand == [] && Chosen(q.arrangement) == 0 && !q.lockedIn && !q.fouled
      && Consistent(r) && Placed(q)
  {
  }
}
