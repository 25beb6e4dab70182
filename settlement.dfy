/**
 * The per-lane breakdown the online settlement screen shows
 * (client/src/components/game/OnlineThirteenSettlement.tsx): each lane of every
 * clean pair is compared again on the client, and every player's net over that
 * lane is tallied; the seats around the table are laid out from the viewer.
 */
module Settlement {

  import opened Wrappers
  import opened Cards
  import opened ThirteenEval
  import opened ClientThirteenEval
  import opened Ledger
  import opened PairTally

  datatype Lane = Top | Middle | Bottom

  /** One player's line of a round result; an absent `fouled` reads as false. */
  datatype RoundPlayerResult = RoundPlayerResult(id: string, name: string, delta: int, total: int,
                                                 fouled: bool, arrangement: Option<ClientArrangement>)

  /** `getLaneCards`: a missing arrangement has empty lanes. */
  function GetLaneCards(a: Option<ClientArrangement>, lane: Lane): (r: seq<ClientCard>)
    ensures a.None? ==> r == []
    ensures a.Some? ==> r == (match lane case Top => a.value.top case Middle => a.value.middle case Bottom => a.value.bottom)
  {
    match a
    case None => []
    case Some(arr) =>
      match lane
      case Top => arr.top
      case Middle => arr.middle
      case Bottom => arr.bottom
  }

  /** The size a lane must have to be compared: 3 on top, 5 elsewhere. */
  function LaneSize(lane: Lane): nat {
    if lane == Top then 3 else 5
  }

  /** `compareLane`: the sign of comparing the two lanes, and 0 when either has the wrong size. */
  function CompareLane(a: Option<ClientArrangement>, b: Option<ClientArrangement>, lane: Lane): (r: int)
    ensures (r == -1 || r == 0 || r == 1)
    ensures |GetLaneCards(a, lane)| != LaneSize(lane) || |GetLaneCards(b, lane)| != LaneSize(lane) ==> r == 0
  {
    var x := GetLaneCards(a, lane);
    var y := GetLaneCards(b, lane);
    if lane == Top then
      if |x| != 3 || |y| != 3 then 0
      else Sign(ClientCompareEval(ClientEvalThree(x).value, ClientEvalThree(y).value))
    else if |x| != 5 || |y| != 5 then 0
    else Sign(ClientCompareEval(ClientEvalFive(x).value, ClientEvalFive(y).value))
  }

  lemma SignNegate(x: int)
    ensures Sign(-x) == -Sign(x)
  {
  }

  /** Comparing the other way round negates the result. */
  lemma CompareLaneSwap(a: Option<ClientArrangement>, b: Option<ClientArrangement>, lane: Lane)
    ensures CompareLane(a, b, lane) == -CompareLane(b, a, lane)
  {
    var x := GetLaneCards(a, lane);
    var y := GetLaneCards(b, lane);
    if |x| == LaneSize(lane) && |y| == LaneSize(lane) {
      var ex := if lane == Top then ClientEvalThree(x).value else ClientEvalFive(x).value;
      var ey := if lane == Top then ClientEvalThree(y).value else ClientEvalFive(y).value;
      ClientCompareEvalAgrees(ex, ey);
      ClientCompareEvalAgrees(ey, ex);
      CompareEvalAntisymmetric(ex, ey);
      SignNegate(CompareEval(ey, ex));
    }
  }

  lemma ThreeAgrees(x: seq<ClientCard>, y: seq<ClientCard>)
    requires |x| == 3 && |y| == 3
    ensures Sign(ClientCompareEval(ClientEvalThree(x).value, ClientEvalThree(y).value))
            == Sign(CompareEval(EvalThree(ToServerCards(x)).value, EvalThree(ToServerCards(y)).value))
  {
    ClientEvalThreeAgrees(x);
    ClientEvalThreeAgrees(y);
    SignAgree(ClientEvalThree(x), ClientEvalThree(y), EvalThree(ToServerCards(x)), EvalThree(ToServerCards(y)));
  }

  lemma FiveAgrees(x: seq<ClientCard>, y: seq<ClientCard>)
    requires |x| == 5 && |y| == 5
    ensures Sign(ClientCompareEval(ClientEvalFive(x).value, ClientEvalFive(y).value))
            == Sign(CompareEval(EvalFive(ToServerCards(x)).value, EvalFive(ToServerCards(y)).value))
  {
    ClientEvalFiveAgrees(x);
    ClientEvalFiveAgrees(y);
    SignAgree(ClientEvalFive(x), ClientEvalFive(y), EvalFive(ToServerCards(x)), EvalFive(ToServerCards(y)));
  }

  lemma SignAgree(cx: Result<HandEval>, cy: Result<HandEval>, sx: Result<HandEval>, sy: Result<HandEval>)
    requires cx == sx && cy == sy && cx.Ok? && cy.Ok?
    ensures Sign(ClientCompareEval(cx.value, cy.value)) == Sign(CompareEval(sx.value, sy.value))
  {
    ClientCompareEvalAgrees(cx.value, cy.value);
  }

  /** The server's sign for one lane. */
  function ServerLaneSign(a: ClientArrangement, b: ClientArrangement, lane: Lane): int
    requires |GetLaneCards(Some(a), lane)| == LaneSize(lane) && |GetLaneCards(Some(b), lane)| == LaneSize(lane)
  {
    var x, y := ToServerCards(GetLaneCards(Some(a), lane)), ToServerCards(GetLaneCards(Some(b), lane));
    if lane == Top then Sign(CompareEval(EvalThree(x).value, EvalThree(y).value))
    else Sign(CompareEval(EvalFive(x).value, EvalFive(y).value))
  }

  /** The client's compareLane is the server's evaluators compared on that lane. */
  lemma LaneAgrees(a: ClientArrangement, b: ClientArrangement, lane: Lane)
    requires |GetLaneCards(Some(a), lane)| == LaneSize(lane) && |GetLaneCards(Some(b), lane)| == LaneSize(lane)
    ensures CompareLane(Some(a), Some(b), lane) == ServerLaneSign(a, b, lane)
  {
    var x, y := GetLaneCards(Some(a), lane), GetLaneCards(Some(b), lane);
    if lane == Top {
      assert CompareLane(Some(a), Some(b), lane) == Sign(ClientCompareEval(ClientEvalThree(x).value, ClientEvalThree(y).value));
      ThreeAgrees(x, y);
    } else {
      assert CompareLane(Some(a), Some(b), lane) == Sign(ClientCompareEval(ClientEvalFive(x).value, ClientEvalFive(y).value));
      FiveAgrees(x, y);
    }
  }

  // ---------------------------------------------------------------------------
  // netLaneScore
  // ---------------------------------------------------------------------------

  /** What a pair adds to its first player's net on a lane: nothing when either fouled, else the lane comparison. */
  function LanePoints(lane: Lane, x: RoundPlayerResult, y: RoundPlayerResult): int {
    if x.fouled || y.fouled then 0 else CompareLane(x.arrangement, y.arrangement, lane)
  }

  function LaneScorer(lane: Lane): (RoundPlayerResult, RoundPlayerResult) -> int {
    (x, y) => LanePoints(lane, x, y)
  }

  /** No two results share an id. */
  predicate DistinctResultIds(results: seq<RoundPlayerResult>) {
    forall i, j :: 0 <= i < j < |results| ==> results[i].id != results[j].id
  }

  /** The score record: each result's id maps to its entry. */
  function ScoreRecord(results: seq<RoundPlayerResult>, d: seq<int>): (m: map<string, int>)
    requires |d| == |results| && DistinctResultIds(results)
    ensures forall k :: 0 <= k < |results| ==> results[k].id in m && m[results[k].id] == d[k]
    ensures forall id :: id in m ==> exists k :: 0 <= k < |results| && results[k].id == id
  {
    map k | 0 <= k < |results| :: results[k].id := d[k]
  }

  /** The nets `netLaneScore` computes: the round-robin tally of the lane, recorded by id. */
  function NetScores(results: seq<RoundPlayerResult>, lane: Lane): map<string, int>
    requires DistinctResultIds(results)
  {
    ScoreRecord(results, Tally(results, LaneScorer(lane)))
  }

  /**
   * `netLaneScore`: for every pair `i < j` where neither fouled, the first gains the
   * lane comparison and the second loses it.
   */
  method NetLaneScore(results: seq<RoundPlayerResult>, lane: Lane) returns (score: map<string, int>)
    requires DistinctResultIds(results)
    ensures score == NetScores(results, lane)
  {
    var d := TallyPairs(results, LaneScorer(lane));
    score := ScoreRecord(results, d);
  }

  /** The nets, seat by seat. */
  function NetsBySeat(results: seq<RoundPlayerResult>, lane: Lane): (d: seq<int>)
    requires DistinctResultIds(results)
    ensures |d| == |results|
  {
    var m := NetScores(results, lane);
    seq(|results|, k requires 0 <= k < |results| => m[results[k].id])
  }

  lemma NetsBySeatTally(results: seq<RoundPlayerResult>, lane: Lane)
    requires DistinctResultIds(results)
    ensures NetsBySeat(results, lane) == Tally(results, LaneScorer(lane))
  {
  }

  lemma LaneScorerNegates(lane: Lane)
    ensures SwapNegates(LaneScorer(lane))
  {
    forall x, y
      ensures LaneScorer(lane)(x, y) == -LaneScorer(lane)(y, x)
    {
      CompareLaneSwap(x.arrangement, y.arrangement, lane);
    }
  }

  lemma LaneScorerBounded(lane: Lane)
    ensures Bounded(LaneScorer(lane), 1)
  {
  }

  /** On every lane the nets sum to zero over all players. */
  lemma NetLaneZeroSum(results: seq<RoundPlayerResult>, lane: Lane)
    requires DistinctResultIds(results)
    ensures SumTo(NetsBySeat(results, lane), |results|) == 0
  {
    NetsBySeatTally(results, lane);
    TallyZeroSum(results, LaneScorer(lane));
  }

  /** Each net is the player's lane comparison summed over every clean opponent, and lies in `-(n - 1)..n - 1`. */
  lemma NetLaneBound(results: seq<RoundPlayerResult>, lane: Lane, k: nat)
    requires DistinctResultIds(results) && k < |results|
    ensures var net := NetScores(results, lane)[results[k].id];
      && net == Against(results, LaneScorer(lane), k, |results|)
      && -(|results| - 1) <= net <= |results| - 1
  {
    LaneScorerNegates(lane);
    LaneScorerBounded(lane);
    TallyAt(results, LaneScorer(lane), k);
    TallyBound(results, LaneScorer(lane), 1, k);
  }

  /** A player who fouled nets zero on every lane, whatever the others did. */
  lemma NetLaneFouled(results: seq<RoundPlayerResult>, lane: Lane, k: nat)
    requires DistinctResultIds(results) && k < |results| && results[k].fouled
    ensures NetScores(results, lane)[results[k].id] == 0
  {
    LaneScorerNegates(lane);
    TallyIdle(results, LaneScorer(lane), k);
  }

  // ---------------------------------------------------------------------------
  // toSeatMap
  // ---------------------------------------------------------------------------

  /** A room player as the seat map sees it. */
  datatype RoomPlayer = RoomPlayer(id: string, name: string)

  datatype Position = TopSeat | LeftSeat | RightSeat | BottomSeat

  datatype Seat = Seat(id: string, pos: Position)

  /** `players.filter(p => p.id !== myId)`. */
  function Others(players: seq<RoomPlayer>, myId: string): (r: seq<RoomPlayer>)
    ensures |r| <= |players|
    ensures forall k :: 0 <= k < |r| ==> r[k].id != myId && r[k] in players
  {
    if players == [] then []
    else if players[0].id == myId then Others(players[1..], myId)
    else [players[0]] + Others(players[1..], myId)
  }

  /** The positions of the others, in room order. */
  function OtherPosition(k: nat): Position {
    if k == 0 then TopSeat else if k == 1 then LeftSeat else RightSeat
  }

  /**
   * `toSeatMap`: the viewer sits at the bottom, then the first three other players
   * take the top, left and right in room order; no position is used twice.
   */
  method ToSeatMap(players: seq<RoomPlayer>, myId: string) returns (seats: seq<Seat>)
    ensures var others := Others(players, myId);
      && |seats| == 1 + (if |others| < 3 then |others| else 3)
      && seats[0] == Seat(myId, BottomSeat)
      && (forall k :: 1 <= k < |seats| ==> seats[k] == Seat(others[k - 1].id, OtherPosition(k - 1)))
    ensures forall i, j :: 0 <= i < j < |seats| ==> seats[i].pos != seats[j].pos
    ensures forall k :: 1 <= k < |seats| ==> seats[k].id != myId
  {
    var others := Others(players, myId);
    seats := [];
    seats := seats + [Seat(myId, BottomSeat)];
    if |others| > 0 {
      seats := seats + [Seat(others[0].id, TopSeat)];
    }
    if |others| > 1 {
      seats := seats + [Seat(others[1].id, LeftSeat)];
    }
    if |others| > 2 {
      seats := seats + [Seat(others[2].id, RightSeat)];
    }
  }
}
