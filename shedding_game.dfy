/**
 * The state machine of the shedding game: the updaters `addPlayer`, `startGame`,
 * `toggleCardSelection`, `playCards`, `pass` and `nextRound`, each a function from the
 * old state to the new one (pass, whose seat-skipping loop updates an index step by
 * step, is a method). The shuffled deck and the fresh player id are parameters.
 *
 * The turn invariant `ValidTurn` (the current index names a seat) is what the callers
 * of `playCards` and `pass` rely on: both are reached only while a current player
 * exists. Every updater keeps it, with `pass` in its corrected form.
 */
module SheddingGame {

  import opened Wrappers
  import opened Sorting
  import opened Cards
  import opened CardUtils

  datatype Color = Player1 | Player2 | Player3 | Player4

  datatype GamePhase = Setup | Playing | RoundEnd | GameOver

  datatype Player = Player(id: string, name: string, isComputer: bool, cards: seq<ClientCard>,
                           hasPassed: bool, roundsWon: int, totalScore: int, color: Color)

  datatype GameRound = GameRound(roundNumber: int, winner: string, scores: map<string, int>)

  datatype GameState = GameState(players: seq<Player>, currentPlayerIndex: int, lastPlay: Option<Hand>,
                                 lastPlayerId: Option<string>, consecutivePasses: int, phase: GamePhase,
                                 rounds: seq<GameRound>, currentRound: int, gameStarted: bool,
                                 winner: Option<string>)

  const PlayerColors: seq<Color> := [Player1, Player2, Player3, Player4]

  const ComputerNames: seq<string> := ["電腦小明", "電腦小美", "電腦阿強", "電腦小華"]

  const InitialState: GameState := GameState([], 0, None, None, 0, Setup, [], 1, false, None)

  /** The current index names a seat. */
  predicate ValidTurn(s: GameState) {
    0 <= s.currentPlayerIndex < |s.players|
  }

  // ---------------------------------------------------------------------------
  // addPlayer
  // ---------------------------------------------------------------------------

  function ColorsOf(ps: seq<Player>): (r: seq<Color>)
    ensures |r| == |ps| && forall i :: 0 <= i < |ps| ==> r[i] == ps[i].color
  {
    seq(|ps|, i requires 0 <= i < |ps| => ps[i].color)
  }

  /** The first colour not in use, or the first colour when all are. */
  function FreeColor(used: seq<Color>): (c: Color)
    ensures c !in used || forall k :: 0 <= k < |PlayerColors| ==> PlayerColors[k] in used
  {
    if Player1 !in used then Player1
    else if Player2 !in used then Player2
    else if Player3 !in used then Player3
    else if Player4 !in used then Player4
    else Player1
  }

  /** How many players are computers. */
  function ComputerCount(ps: seq<Player>): (r: nat)
    ensures r <= |ps|
  {
    if ps == [] then 0
    else ComputerCount(ps[..|ps| - 1]) + (if ps[|ps| - 1].isComputer then 1 else 0)
  }

  /** The new seat: no cards, no score, a free colour, and a computer named by how many computers sit already. */
  function NewPlayer(ps: seq<Player>, name: string, isComputer: bool, id: string): Player
    requires |ps| < 4
  {
    var count := ComputerCount(ps);
    Player(id, if isComputer then ComputerNames[count] else name, isComputer, [], false, 0, 0, FreeColor(ColorsOf(ps)))
  }

  /** `addPlayer`: nothing at four players; otherwise a new seat at the end. */
  function AddPlayer(prev: GameState, name: string, isComputer: bool, newId: string): GameState {
    if |prev.players| >= 4 then prev
    else prev.(players := prev.players + [NewPlayer(prev.players, name, isComputer, newId)])
  }

  lemma {:induction false} SetOfSeqSize<T>(s: seq<T>)
    ensures |set x | x in s| <= |s|
  {
    if s != [] {
      var p := s[..|s| - 1];
      SetOfSeqSize(p);
      assert (set x | x in s) == (set x | x in p) + {s[|s| - 1]};
    }
  }

  /** A seat list using all four colours has at least four seats. */
  lemma AllColorsNeedFour(used: seq<Color>)
    requires Player1 in used && Player2 in used && Player3 in used && Player4 in used
    ensures |used| >= 4
  {
    var st := set x | x in used;
    assert Player1 in st && Player2 in st && Player3 in st && Player4 in st;
    assert {Player1, Player2, Player3, Player4} <= st;
    SetOfSeqSize(used);
  }

  /** Fewer than four colours in use leave one free. */
  lemma FreeColorFresh(used: seq<Color>)
    requires |used| < 4
    ensures FreeColor(used) !in used
  {
    if Player1 in used && Player2 in used && Player3 in used && Player4 in used {
      AllColorsNeedFour(used);
    }
  }

  predicate DistinctColors(ps: seq<Player>) {
    forall i, j :: 0 <= i < j < |ps| ==> ps[i].color != ps[j].color
  }

  /**
   * addPlayer does nothing at four players; otherwise it appends one seat with the given
   * id, no cards, no score and a colour no other seat has, and changes nothing else.
   */
  lemma AddPlayerEffect(prev: GameState, name: string, isComputer: bool, newId: string)
    ensures var r := AddPlayer(prev, name, isComputer, newId);
      && (|prev.players| >= 4 ==> r == prev)
      && (|prev.players| < 4 ==>
            && |r.players| == |prev.players| + 1
            && r.players[..|prev.players|] == prev.players
            && r == prev.(players := r.players)
            && var p := r.players[|prev.players|];
               && p.id == newId && p.isComputer == isComputer && p.cards == [] && !p.hasPassed
               && p.totalScore == 0 && p.roundsWon == 0
               && (!isComputer ==> p.name == name)
               && (forall q :: q in prev.players ==> q.color != p.color))
  {
    if |prev.players| < 4 {
      var r := AddPlayer(prev, name, isComputer, newId);
      var used := ColorsOf(prev.players);
      FreeColorFresh(used);
      assert r.players[..|prev.players|] == prev.players;
      forall q | q in prev.players ensures q.color != r.players[|prev.players|].color {
        var k :| 0 <= k < |prev.players| && prev.players[k] == q;
        assert used[k] == q.color;
      }
    }
  }

  /** Seats never share a colour, and never number more than four. */
  lemma AddPlayerKeepsColors(prev: GameState, name: string, isComputer: bool, newId: string)
    requires DistinctColors(prev.players) && |prev.players| <= 4
    ensures DistinctColors(AddPlayer(prev, name, isComputer, newId).players)
    ensures |AddPlayer(prev, name, isComputer, newId).players| <= 4
  {
    AddPlayerEffect(prev, name, isComputer, newId);
  }

  // ---------------------------------------------------------------------------
  // startGame and nextRound: dealing and the opening seat
  // ---------------------------------------------------------------------------

  function HandsOf(ps: seq<Player>): (r: seq<seq<ClientCard>>)
    ensures |r| == |ps| && forall i :: 0 <= i < |ps| ==> r[i] == ps[i].cards
  {
    seq(|ps|, i requires 0 <= i < |ps| => ps[i].cards)
  }

  /** The seat holding the three of clubs, or seat 0 when nobody does. */
  function Starter(ps: seq<Player>): int {
    var k := FindPlayerWithCard(HandsOf(ps), Three, Clubs);
    if k >= 0 then k else 0
  }

  lemma StarterSeat(ps: seq<Player>)
    requires ps != []
    ensures 0 <= Starter(ps) < |ps|
    ensures HoldsCard(ps[Starter(ps)].cards, Three, Clubs)
            || (Starter(ps) == 0 && forall q :: 0 <= q < |ps| ==> !HoldsCard(ps[q].cards, Three, Clubs))
  {
  }

  /** Every seat gets its dealt hand and clears its pass flag. */
  function DealtPlayers(ps: seq<Player>, deck: seq<ClientCard>): (r: seq<Player>)
    requires |deck| == 52
    ensures |r| == |ps|
  {
    var n := |ps|;
    seq(n, i requires 0 <= i < n => ps[i].(cards := DealtHand(deck, n, i), hasPassed := false))
  }

  /** Each seat's new hand is its share of the deal: `floor(52 / n)` cards in ascending order. */
  lemma DealtPlayersHands(ps: seq<Player>, deck: seq<ClientCard>)
    requires |deck| == 52
    ensures forall i :: 0 <= i < |ps| ==>
      && DealtPlayers(ps, deck)[i] == ps[i].(cards := DealtHand(deck, |ps|, i), hasPassed := false)
      && |DealtHand(deck, |ps|, i)| == 52 / |ps|
      && SortedBy(DealtHand(deck, |ps|, i), CardLe)
  {
    var n := |ps|;
    forall i | 0 <= i < n
      ensures |DealtHand(deck, n, i)| == 52 / n && SortedBy(DealtHand(deck, n, i), CardLe)
    {
      DealFits(n);
      DealSeat(deck, n, i, deck[0]);
    }
  }

  /** `startGame` with the shuffled deck as a parameter: nothing with fewer than two players. */
  function StartGame(prev: GameState, deck: seq<ClientCard>): GameState
    requires |deck| == 52
  {
    if |prev.players| < 2 then prev
    else
      var players := DealtPlayers(prev.players, deck);
      prev.(players := players, currentPlayerIndex := Starter(players), lastPlay := None, lastPlayerId := None,
            consecutivePasses := 0, phase := Playing, gameStarted := true)
  }

  /**
   * startGame does nothing with fewer than two players; otherwise every seat keeps its
   * identity, holds `floor(52 / n)` sorted cards of the deck and has not passed.
   */
  lemma StartGameDeals(prev: GameState, deck: seq<ClientCard>)
    requires |deck| == 52
    ensures |prev.players| < 2 ==> StartGame(prev, deck) == prev
    ensures |prev.players| >= 2 ==>
      var r := StartGame(prev, deck);
      var n := |prev.players|;
      && |r.players| == n
      && forall i :: 0 <= i < n ==>
           && r.players[i] == prev.players[i].(cards := r.players[i].cards, hasPassed := false)
           && r.players[i].cards == DealtHand(deck, n, i)
           && |r.players[i].cards| == 52 / n
           && SortedBy(r.players[i].cards, CardLe)
  {
    if |prev.players| >= 2 {
      DealtPlayersHands(prev.players, deck);
      assert StartGame(prev, deck).players == DealtPlayers(prev.players, deck);
    }
  }

  /**
   * A started game has an empty board, no passes, and the seat holding the three of
   * clubs opens (seat 0 when no seat holds it).
   */
  lemma StartGameOpens(prev: GameState, deck: seq<ClientCard>)
    requires |deck| == 52 && |prev.players| >= 2
    ensures var r := StartGame(prev, deck);
      && ValidTurn(r) && r.phase == Playing && r.gameStarted
      && r.lastPlay.None? && r.lastPlayerId.None? && r.consecutivePasses == 0
      && (HoldsCard(r.players[r.currentPlayerIndex].cards, Three, Clubs)
          || (r.currentPlayerIndex == 0 && forall q :: 0 <= q < |r.players| ==> !HoldsCard(r.players[q].cards, Three, Clubs)))
  {
    var ps := DealtPlayers(prev.players, deck);
    StarterSeat(ps);
    assert StartGame(prev, deck).players == ps;
  }

  // ---------------------------------------------------------------------------
  // toggleCardSelection
  // ---------------------------------------------------------------------------

  /** Some selected card has this key. */
  predicate Selected(sel: seq<ClientCard>, key: string) {
    exists c :: c in sel && GetCardKey(c) == key
  }

  /** `sel.filter(c => getCardKey(c) !== key)`. */
  function WithoutKey(sel: seq<ClientCard>, key: string): (r: seq<ClientCard>)
    ensures forall c :: c in r <==> c in sel && GetCardKey(c) != key
    ensures |r| <= |sel|
  {
    if sel == [] then []
    else
      var p := sel[..|sel| - 1];
      var c := sel[|sel| - 1];
      assert forall x :: x in sel <==> x in p || x == c;
      WithoutKey(p, key) + (if GetCardKey(c) != key then [c] else [])
  }

  /** `toggleCardSelection`: a selected card goes; a new one joins while fewer than five are selected. */
  function ToggleCardSelection(sel: seq<ClientCard>, card: ClientCard): seq<ClientCard> {
    var key := GetCardKey(card);
    if Selected(sel, key) then WithoutKey(sel, key)
    else if |sel| >= 5 then sel
    else sel + [card]
  }

  /**
   * Toggling flips whether the card's key is selected, except that a sixth card is
   * refused; every other card keeps its place in the selection, and no more than five
   * are ever selected.
   */
  lemma ToggleFlips(sel: seq<ClientCard>, card: ClientCard)
    ensures var r := ToggleCardSelection(sel, card);
      && (Selected(r, GetCardKey(card)) <==> !Selected(sel, GetCardKey(card)) && |sel| < 5)
      && (forall c :: GetCardKey(c) != GetCardKey(card) ==> (c in r <==> c in sel))
      && (|sel| <= 5 ==> |r| <= 5)
  {
    var key := GetCardKey(card);
    var r := ToggleCardSelection(sel, card);
    if !Selected(sel, key) && |sel| < 5 {
      assert card in r;
    }
  }

  lemma {:induction false} WithoutAbsentKey(sel: seq<ClientCard>, key: string)
    requires !Selected(sel, key)
    ensures WithoutKey(sel, key) == sel
  {
    if sel != [] {
      var p := sel[..|sel| - 1];
      assert sel[|sel| - 1] in sel;
      assert !Selected(p, key) by {
        forall c | c in p ensures GetCardKey(c) != key {
          assert c in sel;
        }
      }
      WithoutAbsentKey(p, key);
      LastSplit(sel);
    }
  }

  lemma LastSplit<T>(s: seq<T>)
    requires s != []
    ensures s == s[..|s| - 1] + [s[|s| - 1]]
  {
  }

  /** Toggling a card in and out again restores the selection. */
  lemma ToggleTwice(sel: seq<ClientCard>, card: ClientCard)
    requires !Selected(sel, GetCardKey(card)) && |sel| < 5
    ensures ToggleCardSelection(ToggleCardSelection(sel, card), card) == sel
  {
    var key := GetCardKey(card);
    var once := sel + [card];
    assert ToggleCardSelection(sel, card) == once;
    assert card in once;
    assert Selected(once, key);
    WithoutAbsentKey(sel, key);
    assert once[..|once| - 1] == sel;
  }

  // ---------------------------------------------------------------------------
  // playCards
  // ---------------------------------------------------------------------------

  /** Some played card has the card's key. */
  predicate PlayedKey(played: seq<ClientCard>, c: ClientCard) {
    exists sc :: sc in played && GetCardKey(sc) == GetCardKey(c)
  }

  /** The hand without every card whose key was played, in hand order. */
  function Remaining(hand: seq<ClientCard>, played: seq<ClientCard>): seq<ClientCard> {
    if hand == [] then []
    else
      var p := hand[..|hand| - 1];
      var c := hand[|hand| - 1];
      Remaining(p, played) + (if !PlayedKey(played, c) then [c] else [])
  }

  /** The hand keeps exactly the cards whose key was not played, and gains none. */
  lemma {:induction false} RemainingMeaning(hand: seq<ClientCard>, played: seq<ClientCard>)
    ensures forall c :: c in Remaining(hand, played) <==> c in hand && !PlayedKey(played, c)
    ensures multiset(Remaining(hand, played)) <= multiset(hand)
  {
    if hand != [] {
      var p := hand[..|hand| - 1];
      var c := hand[|hand| - 1];
      RemainingMeaning(p, played);
      LastSplit(hand);
      assert forall x :: x in hand <==> x in p || x == c;
    }
  }

  /** The play is a detected hand that beats the last play. */
  predicate Accepted(prev: GameState, cards: seq<ClientCard>) {
    DetectHandType(cards).Some? && CanPlayOn(DetectHandType(cards).value, prev.lastPlay)
  }

  /**
   * `playCards`: an undetected or too weak selection changes nothing. Otherwise the
   * current player loses the played cards and its pass flag, the play goes on the
   * board, and either the player has emptied the hand and wins the round, or the turn
   * moves to the next seat and the pass count restarts.
   */
  function PlayCards(prev: GameState, cards: seq<ClientCard>): GameState
    requires ValidTurn(prev)
  {
    var hand := DetectHandType(cards);
    if hand.None? then prev
    else if !CanPlayOn(hand.value, prev.lastPlay) then prev
    else Play(prev, cards, hand)
  }

  /** The accepted branch of playCards, with the detected hand `hand` going on the board. */
  function Play(prev: GameState, cards: seq<ClientCard>, hand: Option<Hand>): GameState
    requires ValidTurn(prev)
  {
    var i := prev.currentPlayerIndex;
    var current := prev.players[i];
    var remaining := Remaining(current.cards, cards);
    var updated := prev.players[i := current.(cards := remaining, hasPassed := false)];
    if |remaining| == 0 then
      prev.(players := updated, lastPlay := hand, lastPlayerId := Some(current.id), phase := RoundEnd,
            winner := Some(current.id))
    else
      prev.(players := updated, currentPlayerIndex := (i + 1) % |prev.players|, lastPlay := hand,
            lastPlayerId := Some(current.id), consecutivePasses := 0)
  }

  /** The selection after playCards: kept when no hand was detected, emptied otherwise. */
  function SelectionAfterPlay(sel: seq<ClientCard>, cards: seq<ClientCard>): seq<ClientCard> {
    if DetectHandType(cards).None? then sel else []
  }

  /**
   * A play that is not a detected hand, or does not beat the board, leaves the game as
   * it was. The selection survives only an undetected play: a detected hand that is too
   * weak still empties it.
   */
  lemma PlayCardsRejects(prev: GameState, cards: seq<ClientCard>, sel: seq<ClientCard>)
    requires ValidTurn(prev) && !Accepted(prev, cards)
    ensures PlayCards(prev, cards) == prev
    ensures DetectHandType(cards).None? ==> SelectionAfterPlay(sel, cards) == sel
    ensures DetectHandType(cards).Some? ==> SelectionAfterPlay(sel, cards) == []
  {
  }

  /**
   * An accepted play takes exactly the cards whose keys were played from the current
   * player and from nobody else, clears that player's pass flag, and puts the play on
   * the board under that player's id. Emptying the hand ends the round with that player
   * as winner and the turn where it was; otherwise the turn moves to `(i + 1) mod n` and
   * the pass count restarts.
   */
  lemma PlayCardsEffect(prev: GameState, cards: seq<ClientCard>)
    requires ValidTurn(prev) && Accepted(prev, cards)
    ensures var r := PlayCards(prev, cards);
      var i := prev.currentPlayerIndex;
      var p := prev.players[i];
      && |r.players| == |prev.players|
      && (forall j :: 0 <= j < |prev.players| && j != i ==> r.players[j] == prev.players[j])
      && r.players[i] == p.(cards := r.players[i].cards, hasPassed := false)
      && (forall c :: c in r.players[i].cards <==> c in p.cards && !PlayedKey(cards, c))
      && multiset(r.players[i].cards) <= multiset(p.cards)
      && r.lastPlay == DetectHandType(cards) && r.lastPlayerId == Some(p.id)
      && (r.players[i].cards == [] ==>
            r == prev.(players := r.players, lastPlay := r.lastPlay, lastPlayerId := r.lastPlayerId,
                       phase := RoundEnd, winner := Some(p.id)))
      && (r.players[i].cards != [] ==>
            r == prev.(players := r.players, currentPlayerIndex := (i + 1) % |prev.players|,
                       lastPlay := r.lastPlay, lastPlayerId := r.lastPlayerId, consecutivePasses := 0))
  {
    PlayEffect(prev, cards, DetectHandType(cards));
    RemainingMeaning(prev.players[prev.currentPlayerIndex].cards, cards);
  }

  lemma PlayEffect(prev: GameState, cards: seq<ClientCard>, hand: Option<Hand>)
    requires ValidTurn(prev)
    ensures var r := Play(prev, cards, hand);
      var i := prev.currentPlayerIndex;
      var p := prev.players[i];
      && |r.players| == |prev.players|
      && (forall j :: 0 <= j < |prev.players| && j != i ==> r.players[j] == prev.players[j])
      && r.players[i] == p.(cards := r.players[i].cards, hasPassed := false)
      && r.players[i].cards == Remaining(p.cards, cards)
      && r.lastPlay == hand && r.lastPlayerId == Some(p.id)
      && (r.players[i].cards == [] ==>
            r == prev.(players := r.players, lastPlay := r.lastPlay, lastPlayerId := r.lastPlayerId,
                       phase := RoundEnd, winner := Some(p.id)))
      && (r.players[i].cards != [] ==>
            r == prev.(players := r.players, currentPlayerIndex := (i + 1) % |prev.players|,
                       lastPlay := r.lastPlay, lastPlayerId := r.lastPlayerId, consecutivePasses := 0))
  {
    var i := prev.currentPlayerIndex;
    var current := prev.players[i];
    var remaining := Remaining(current.cards, cards);
    PlayPlayers(prev.players, i, remaining);
  }

  /** Writing the current seat's new hand and clearing its pass flag leaves every other seat alone. */
  lemma PlayPlayers(ps: seq<Player>, i: int, remaining: seq<ClientCard>)
    requires 0 <= i < |ps|
    ensures var u := ps[i := ps[i].(cards := remaining, hasPassed := false)];
      && |u| == |ps|
      && (forall j :: 0 <= j < |ps| && j != i ==> u[j] == ps[j])
      && u[i] == ps[i].(cards := remaining, hasPassed := false)
  {
  }

  /** playCards keeps a valid current seat. */
  lemma PlayCardsTurn(prev: GameState, cards: seq<ClientCard>)
    requires ValidTurn(prev)
    ensures ValidTurn(PlayCards(prev, cards))
  {
  }

  // ---------------------------------------------------------------------------
  // pass
  // ---------------------------------------------------------------------------

  /** Steps from seat `k` forward round the table to seat `cur`. */
  function Gap(cur: int, k: int, n: int): int {
    if k <= cur then cur - k else cur + n - k
  }

  lemma GapStep(cur: int, k: int, n: int)
    requires 0 <= cur < n && 0 <= k < n && k != cur
    ensures 0 <= Gap(cur, (k + 1) % n, n) == Gap(cur, k, n) - 1
  {
    if k + 1 < n {
      assert (k + 1) % n == k + 1;
    } else {
      assert (k + 1) % n == 0;
    }
  }

  /** The skip loop's destination: from seat `k`, the first seat that has not passed, or `cur`. */
  function Seek(ps: seq<Player>, cur: int, k: int): (r: int)
    requires 0 <= cur < |ps| && 0 <= k < |ps|
    ensures 0 <= r < |ps|
    decreases Gap(cur, k, |ps|)
  {
    if !ps[k].hasPassed || k == cur then k
    else
      GapStep(cur, k, |ps|);
      Seek(ps, cur, (k + 1) % |ps|)
  }

  /**
   * The skip loop ends on a seat that has not passed or back on the current seat, and
   * every seat it stepped over has passed.
   */
  lemma GapInjective(cur: int, j: int, k: int, n: int)
    requires 0 <= cur < n && 0 <= j < n && 0 <= k < n && Gap(cur, j, n) == Gap(cur, k, n)
    ensures j == k
  {
  }

  lemma {:induction false} SeekLands(ps: seq<Player>, cur: int, k: int)
    requires 0 <= cur < |ps| && 0 <= k < |ps|
    ensures var r := Seek(ps, cur, k);
      && (!ps[r].hasPassed || r == cur)
      && Gap(cur, r, |ps|) <= Gap(cur, k, |ps|)
      && forall j :: 0 <= j < |ps| && Gap(cur, r, |ps|) < Gap(cur, j, |ps|) <= Gap(cur, k, |ps|) ==> ps[j].hasPassed
    decreases Gap(cur, k, |ps|)
  {
    if ps[k].hasPassed && k != cur {
      var n := |ps|;
      var k' := (k + 1) % n;
      GapStep(cur, k, n);
      SeekLands(ps, cur, k');
      var r := Seek(ps, cur, k');
      assert Seek(ps, cur, k) == r;
      forall j | 0 <= j < n && Gap(cur, r, n) < Gap(cur, j, n) <= Gap(cur, k, n)
        ensures ps[j].hasPassed
      {
        if Gap(cur, j, n) == Gap(cur, k, n) {
          GapInjective(cur, j, k, n);
        }
      }
    }
  }

  /** The passes reach `n - 1`: everyone else has passed on the board. */
  predicate PassClears(prev: GameState) {
    prev.consecutivePasses + 1 >= |prev.players| - 1
  }

  /** `players.findIndex(p => p.id === id)`: -1 when no seat has it (always, for no id). */
  function IndexOfId(ps: seq<Player>, id: Option<string>): (r: int)
    ensures -1 <= r < |ps|
    ensures r >= 0 ==> id == Some(ps[r].id) && forall j :: 0 <= j < r ==> id != Some(ps[j].id)
    ensures r == -1 <==> forall j :: 0 <= j < |ps| ==> id != Some(ps[j].id)
  {
    if ps == [] then -1
    else if id == Some(ps[0].id) then 0
    else
      var rest := IndexOfId(ps[1..], id);
      assert forall j :: 1 <= j < |ps| ==> ps[j] == ps[1..][j - 1];
      if rest == -1 then -1 else rest + 1
  }

  function Unpassed(ps: seq<Player>): (r: seq<Player>)
    ensures |r| == |ps| && forall j :: 0 <= j < |ps| ==> r[j] == ps[j].(hasPassed := false)
  {
    seq(|ps|, j requires 0 <= j < |ps| => ps[j].(hasPassed := false))
  }

  /** The board-clearing branch of pass as written: the turn goes to the seat whose id played last. */
  function ClearBoardAsWritten(prev: GameState): GameState {
    prev.(players := Unpassed(prev.players), currentPlayerIndex := IndexOfId(prev.players, prev.lastPlayerId),
          lastPlay := None, lastPlayerId := None, consecutivePasses := 0)
  }

  /**
   * With two players and nobody on the board, a single pass clears the board and the
   * turn goes to seat -1: no seat is current any more.
   */
  lemma ClearBoardAsWrittenLosesTurn(prev: GameState)
    requires |prev.players| == 2 && prev.consecutivePasses == 0 && prev.lastPlayerId.None?
    ensures PassClears(prev)
    ensures ClearBoardAsWritten(prev).currentPlayerIndex == -1
    ensures !ValidTurn(ClearBoardAsWritten(prev))
  {
  }

  /** The board-clearing branch, corrected: with no seat to return to, the turn moves to the next seat. */
  function ClearBoard(prev: GameState): GameState
    requires ValidTurn(prev)
  {
    var k := IndexOfId(prev.players, prev.lastPlayerId);
    prev.(players := Unpassed(prev.players),
          currentPlayerIndex := if k >= 0 then k else (prev.currentPlayerIndex + 1) % |prev.players|,
          lastPlay := None, lastPlayerId := None, consecutivePasses := 0)
  }

  /**
   * The corrected clearing keeps a valid seat, which is the seat that played last when
   * there is one, empties the board and clears every pass flag.
   */
  lemma ClearBoardTurn(prev: GameState)
    requires ValidTurn(prev)
    ensures var r := ClearBoard(prev);
      && ValidTurn(r)
      && ((prev.lastPlayerId.Some? && exists j :: 0 <= j < |prev.players| && prev.players[j].id == prev.lastPlayerId.value)
          ==> Some(r.players[r.currentPlayerIndex].id) == prev.lastPlayerId)
      && r.lastPlay.None? && r.lastPlayerId.None? && r.consecutivePasses == 0
      && forall j :: 0 <= j < |r.players| ==> !r.players[j].hasPassed
  {
  }

  function MarkPassed(ps: seq<Player>, i: int): seq<Player>
    requires 0 <= i < |ps|
  {
    ps[i := ps[i].(hasPassed := true)]
  }

  /**
   * `pass`: when the passes reach `n - 1` the board is cleared; otherwise the current
   * seat is marked as passed, the pass count grows, and the turn skips forward over
   * seats that have passed.
   */
  method Pass(prev: GameState) returns (r: GameState)
    requires ValidTurn(prev)
    ensures ValidTurn(r)
    ensures PassClears(prev) ==> r == ClearBoard(prev)
    ensures !PassClears(prev) ==>
      var i := prev.currentPlayerIndex;
      var ps := MarkPassed(prev.players, i);
      && r == prev.(players := ps, currentPlayerIndex := Seek(ps, i, (i + 1) % |ps|),
                    consecutivePasses := prev.consecutivePasses + 1)
      && (!r.players[r.currentPlayerIndex].hasPassed || r.currentPlayerIndex == i)
  {
    var newPasses := prev.consecutivePasses + 1;
    var n := |prev.players|;
    if newPasses >= n - 1 {
      ClearBoardTurn(prev);
      return ClearBoard(prev);
    }
    var i := prev.currentPlayerIndex;
    var updated := MarkPassed(prev.players, i);
    var nextIndex := (i + 1) % n;
    while updated[nextIndex].hasPassed && nextIndex != i
      invariant 0 <= nextIndex < n
      invariant Seek(updated, i, nextIndex) == Seek(updated, i, (i + 1) % n)
      decreases Gap(i, nextIndex, n)
    {
      GapStep(i, nextIndex, n);
      nextIndex := (nextIndex + 1) % n;
    }
    SeekLands(updated, i, (i + 1) % n);
    r := prev.(players := updated, currentPlayerIndex := nextIndex, consecutivePasses := newPasses);
  }

  // ---------------------------------------------------------------------------
  // nextRound
  // ---------------------------------------------------------------------------

  /** `players.reduce((sum, op) => sum + op.cards.length, 0)`. */
  function CardCount(ps: seq<Player>): nat {
    if ps == [] then 0 else CardCount(ps[..|ps| - 1]) + |ps[|ps| - 1].cards|
  }

  /** The round's score change of a seat: the winner collects every card left; the others lose their own. */
  function RoundDelta(ps: seq<Player>, winner: Option<string>, i: int): int
    requires 0 <= i < |ps|
  {
    if Some(ps[i].id) == winner then CardCount(ps) else -|ps[i].cards|
  }

  /** Every seat is dealt again, scored for the round, and unpassed. */
  function NextRoundPlayers(prev: GameState, deck: seq<ClientCard>): (r: seq<Player>)
    requires |deck| == 52
    ensures |r| == |prev.players|
  {
    var ps := prev.players;
    var n := |ps|;
    seq(n, i requires 0 <= i < n =>
      ps[i].(cards := DealtHand(deck, n, i), hasPassed := false,
             totalScore := ps[i].totalScore + RoundDelta(ps, prev.winner, i)))
  }

  /** `nextRound` with the shuffled deck as a parameter. */
  function NextRound(prev: GameState, deck: seq<ClientCard>): GameState
    requires |deck| == 52
  {
    var players := NextRoundPlayers(prev, deck);
    prev.(players := players, currentPlayerIndex := Starter(players), lastPlay := None, lastPlayerId := None,
          consecutivePasses := 0, phase := Playing, currentRound := prev.currentRound + 1, winner := None)
  }

  function TotalScores(ps: seq<Player>): int {
    if ps == [] then 0 else TotalScores(ps[..|ps| - 1]) + ps[|ps| - 1].totalScore
  }

  /**
   * nextRound scores the winner with every card left on the table and every other seat
   * with minus its own cards, deals again, and opens with the three of clubs.
   */
  lemma NextRoundEffect(prev: GameState, deck: seq<ClientCard>)
    requires |deck| == 52
    ensures var r := NextRound(prev, deck);
      && |r.players| == |prev.players|
      && (forall i :: 0 <= i < |prev.players| ==>
            && r.players[i].cards == DealtHand(deck, |prev.players|, i)
            && !r.players[i].hasPassed
            && r.players[i].totalScore == prev.players[i].totalScore +
                 (if Some(prev.players[i].id) == prev.winner then CardCount(prev.players) else -|prev.players[i].cards|))
      && r.phase == Playing && r.winner.None? && r.currentRound == prev.currentRound + 1
      && r.lastPlay.None? && r.lastPlayerId.None? && r.consecutivePasses == 0
      && (prev.players != [] ==> ValidTurn(r))
  {
    var r := NextRound(prev, deck);
    NextRoundPlayersEffect(prev, deck);
    if prev.players != [] {
      StarterSeat(r.players);
    }
  }

  lemma NextRoundPlayersEffect(prev: GameState, deck: seq<ClientCard>)
    requires |deck| == 52
    ensures var ps := NextRoundPlayers(prev, deck);
      forall i :: 0 <= i < |prev.players| ==>
        && ps[i].cards == DealtHand(deck, |prev.players|, i)
        && !ps[i].hasPassed
        && ps[i].totalScore == prev.players[i].totalScore +
             (if Some(prev.players[i].id) == prev.winner then CardCount(prev.players) else -|prev.players[i].cards|)
  {
  }

  lemma TotalScoresPrefix(s: seq<Player>, k: nat)
    requires 0 < k <= |s|
    ensures TotalScores(s[..k]) == TotalScores(s[..k - 1]) + s[k - 1].totalScore
  {
    assert s[..k][..k - 1] == s[..k - 1];
  }

  lemma CardCountPrefix(s: seq<Player>, k: nat)
    requires 0 < k <= |s|
    ensures CardCount(s[..k]) == CardCount(s[..k - 1]) + |s[k - 1].cards|
  {
    assert s[..k][..k - 1] == s[..k - 1];
  }

  /** Over the first `k` seats, the totals move by the winner's gain (once reached) less every seat's own cards. */
  lemma {:induction false} ScoresStep(ps: seq<Player>, rs: seq<Player>, winner: Option<string>, w: int, k: nat)
    requires |rs| == |ps| && k <= |ps|
    requires 0 <= w < |ps| && winner == Some(ps[w].id)
    requires forall j :: 0 <= j < |ps| && j != w ==> winner != Some(ps[j].id)
    requires forall j :: 0 <= j < |ps| ==> rs[j].totalScore == ps[j].totalScore + RoundDelta(ps, winner, j)
    ensures TotalScores(rs[..k]) ==
            TotalScores(ps[..k]) + (if w < k then CardCount(ps) + |ps[w].cards| else 0) - CardCount(ps[..k])
  {
    if k > 0 {
      ScoresStep(ps, rs, winner, w, k - 1);
      TotalScoresPrefix(rs, k);
      TotalScoresPrefix(ps, k);
      CardCountPrefix(ps, k);
    }
  }

  /**
   * With one winning seat, the round moves exactly the winner's own leftover cards into
   * the total: the scores are zero-sum precisely when the winner has emptied the hand.
   */
  lemma NextRoundZeroSum(prev: GameState, deck: seq<ClientCard>, w: int)
    requires |deck| == 52
    requires 0 <= w < |prev.players| && prev.winner == Some(prev.players[w].id)
    requires forall j :: 0 <= j < |prev.players| && j != w ==> prev.winner != Some(prev.players[j].id)
    ensures TotalScores(NextRound(prev, deck).players) == TotalScores(prev.players) + |prev.players[w].cards|
    ensures prev.players[w].cards == [] ==> TotalScores(NextRound(prev, deck).players) == TotalScores(prev.players)
  {
    NextRoundPlayersEffect(prev, deck);
    ScoresMove(prev.players, NextRoundPlayers(prev, deck), prev.winner, w);
  }

  lemma ScoresMove(ps: seq<Player>, rs: seq<Player>, winner: Option<string>, w: int)
    requires |rs| == |ps|
    requires 0 <= w < |ps| && winner == Some(ps[w].id)
    requires forall j :: 0 <= j < |ps| && j != w ==> winner != Some(ps[j].id)
    requires forall j :: 0 <= j < |ps| ==> rs[j].totalScore == ps[j].totalScore + RoundDelta(ps, winner, j)
    ensures TotalScores(rs) == TotalScores(ps) + |ps[w].cards|
  {
    var n := |ps|;
    ScoresStep(ps, rs, winner, w, n);
    assert rs[..n] == rs;
    assert ps[..n] == ps;
  }
}
