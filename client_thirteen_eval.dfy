/**
 * The client's copy of the thirteen-lanes evaluator (client/src/utils/thirteenEval.ts),
 * over the client's card record. Each function is written out again, as the client
 * does, and proved to return exactly what the server's copy returns on the same
 * suits and ranks. The one deliberate difference is isValidArrangement, which has no
 * guard for a missing arrangement.
 */
module ClientThirteenEval {

  import opened Wrappers
  import opened Sorting
  import opened Cards
  import opened ThirteenEval

  // ---------------------------------------------------------------------------
  // compareEval
  // ---------------------------------------------------------------------------

  /** `s[0] ?? -1` and the rest of the list, as the loop reads one position after another. */
  function Head(s: seq<int>): int {
    if s == [] then -1 else s[0]
  }

  function Tail(s: seq<int>): seq<int> {
    if s == [] then [] else s[1..]
  }

  /** The client loop, walking both tiebreaks in step until both are exhausted. */
  function ComparePadded(x: seq<int>, y: seq<int>): int
    decreases |x| + |y|
  {
    if x == [] && y == [] then 0
    else if Head(x) != Head(y) then Head(x) - Head(y)
    else ComparePadded(Tail(x), Tail(y))
  }

  function ClientCompareEval(a: HandEval, b: HandEval): int {
    if a.category != b.category then a.category - b.category
    else ComparePadded(a.tiebreak, b.tiebreak)
  }

  /** `s.slice(i)`, which is empty past the end. */
  function Drop(s: seq<int>, i: nat): seq<int> {
    if i <= |s| then s[i..] else []
  }

  lemma {:induction false} ComparePaddedFrom(a: seq<int>, b: seq<int>, i: nat)
    requires i <= Max(|a|, |b|)
    ensures ComparePadded(Drop(a, i), Drop(b, i)) == CompareFrom(a, b, i, Max(|a|, |b|))
    decreases Max(|a|, |b|) - i
  {
    var x, y := Drop(a, i), Drop(b, i);
    assert Head(x) == At(a, i) && Head(y) == At(b, i);
    if i < Max(|a|, |b|) {
      assert Tail(x) == Drop(a, i + 1) && Tail(y) == Drop(b, i + 1);
      ComparePaddedFrom(a, b, i + 1);
    }
  }

  /** The client's compareEval is the server's. */
  lemma ClientCompareEvalAgrees(a: HandEval, b: HandEval)
    ensures ClientCompareEval(a, b) == CompareEval(a, b)
  {
    ComparePaddedFrom(a.tiebreak, b.tiebreak, 0);
    assert Drop(a.tiebreak, 0) == a.tiebreak && Drop(b.tiebreak, 0) == b.tiebreak;
  }

  // ---------------------------------------------------------------------------
  // countsByRank, sortedRanksDesc, isFlush, straightHigh
  // ---------------------------------------------------------------------------

  function ClientRankValues(cards: seq<ClientCard>): (r: seq<int>)
    ensures r == RankValues(ToServerCards(cards))
  {
    Map((c: ClientCard) => RankValue(c.rank), cards)
  }

  /** The `for (const c of cards)` loop, continuing from the Map `m` built so far. */
  function CountInto(m: seq<Entry>, cards: seq<ClientCard>): seq<Entry>
    decreases |cards|
  {
    if cards == [] then m else CountInto(Bump(m, RankValue(cards[0].rank)), cards[1..])
  }

  function ClientCountsByRank(cards: seq<ClientCard>): seq<Entry> {
    CountInto([], cards)
  }

  lemma {:induction false} CountIntoAgrees(done: seq<ClientCard>, rest: seq<ClientCard>)
    ensures CountInto(CountsByRank(ToServerCards(done)), rest) == CountsByRank(ToServerCards(done + rest))
    decreases |rest|
  {
    if rest != [] {
      var next := done + [rest[0]];
      assert next + rest[1..] == done + rest;
      var s := ToServerCards(next);
      assert s[..|s| - 1] == ToServerCards(done);
      CountIntoAgrees(next, rest[1..]);
    } else {
      assert done + rest == done;
    }
  }

  /** The client's countsByRank builds the same Map, entry for entry and in the same order. */
  lemma ClientCountsByRankAgrees(cards: seq<ClientCard>)
    ensures ClientCountsByRank(cards) == CountsByRank(ToServerCards(cards))
  {
    CountIntoAgrees([], cards);
    assert [] + cards == cards;
  }

  function ClientSortedRanksDesc(cards: seq<ClientCard>): (r: seq<int>)
    ensures r == SortedRanksDesc(ToServerCards(cards))
  {
    SortBy(ClientRankValues(cards), Desc)
  }

  predicate ClientIsFlush(cards: seq<ClientCard>) {
    forall i :: 0 <= i < |cards| ==> cards[i].suit == cards[0].suit
  }

  /** `ws.every(v => uniq.includes(v))`. */
  predicate IncludesAll(ws: seq<int>, uniq: seq<int>) {
    ws == [] || (ws[0] in uniq && IncludesAll(ws[1..], uniq))
  }

  /** The loop `for (let i = 1; ...) if (uniq[i] !== uniq[i - 1] + 1) return null`, from `i` on. */
  predicate RunsFrom(uniq: seq<int>, i: nat)
    requires i >= 1
    decreases |uniq| - i
  {
    i >= |uniq| || (uniq[i] == uniq[i - 1] + 1 && RunsFrom(uniq, i + 1))
  }

  function ClientStraightHigh(cards: seq<ClientCard>): Option<int>
    requires |cards| > 0
  {
    ClientStraightOf(SortBy(Dedup(ClientRankValues(cards)), Asc), |cards|)
  }

  /** straightHigh's tests on `uniq` for a list of `n > 0` cards, in the client's wording. */
  function ClientStraightOf(uniq: seq<int>, n: int): Option<int>
    requires n > 0
  {
    if |uniq| != n then None
    else if |uniq| == 5 && IncludesAll(Wheel, uniq) then Some(3)
    else if !RunsFrom(uniq, 1) then None
    else Some(uniq[|uniq| - 1])
  }

  /** The client's tests read the same as the server's on any `uniq`. */
  lemma ClientStraightOfAgrees(uniq: seq<int>, n: int)
    requires n > 0
    ensures ClientStraightOf(uniq, n) == StraightOf(uniq, n)
  {
    IncludesAllMeaning(Wheel, uniq);
    RunsFromMeaning(uniq, 1);
  }

  lemma {:induction false} IncludesAllMeaning(ws: seq<int>, uniq: seq<int>)
    ensures IncludesAll(ws, uniq) <==> forall w :: w in ws ==> w in uniq
  {
    if ws != [] {
      var rest := ws[1..];
      IncludesAllMeaning(rest, uniq);
      assert ws == [ws[0]] + rest;
      assert forall w :: w in ws <==> w == ws[0] || w in rest;
      assert (forall w :: w in ws ==> w in uniq) <==> ws[0] in uniq && forall w :: w in rest ==> w in uniq;
    }
  }

  lemma {:induction false} RunsFromMeaning(uniq: seq<int>, i: nat)
    requires i >= 1
    ensures RunsFrom(uniq, i) <==> forall k :: i <= k < |uniq| ==> uniq[k] == uniq[k - 1] + 1
    decreases |uniq| - i
  {
    if i < |uniq| {
      RunsFromMeaning(uniq, i + 1);
    }
  }

  lemma ClientStraightHighAgrees(cards: seq<ClientCard>)
    requires |cards| > 0
    ensures ClientStraightHigh(cards) == StraightHigh(ToServerCards(cards))
  {
    var uniq := SortBy(Dedup(ClientRankValues(cards)), Asc);
    assert uniq == Uniq(ToServerCards(cards));
    ClientStraightOfAgrees(uniq, |cards|);
  }

  // ---------------------------------------------------------------------------
  // evalFive, evalThree
  // ---------------------------------------------------------------------------

  lemma ClientIsFlushAgrees(cards: seq<ClientCard>)
    ensures ClientIsFlush(cards) == IsFlush(ToServerCards(cards))
  {
  }

  lemma ClientEntriesAgree(cards: seq<ClientCard>)
    ensures SortBy(ClientCountsByRank(cards), EntryFirst) == SortedEntries(ToServerCards(cards))
    ensures |cards| > 0 ==> EntriesFit(SortBy(ClientCountsByRank(cards), EntryFirst), |cards|)
  {
    ClientCountsByRankAgrees(cards);
    if |cards| > 0 {
      EntriesBounds(ToServerCards(cards));
    }
  }

  /** The rank entries of a non-empty hand have as many groups as the eval's indexing needs. */
  lemma ClientEntriesFit(cards: seq<ClientCard>)
    requires |cards| > 0
    ensures EntriesFit(SortBy(ClientCountsByRank(cards), EntryFirst), |cards|)
  {
    ClientEntriesAgree(cards);
  }

  function ClientEvalFive(cards: seq<ClientCard>): (r: Result<HandEval>)
    ensures r.Ok? <==> |cards| == 5
  {
    if |cards| != 5 then Err("evalFive expects 5 cards")
    else
      ClientEntriesFit(cards);
      Ok(ClientClassifyFive(ClientIsFlush(cards), ClientStraightHigh(cards),
        SortBy(ClientCountsByRank(cards), EntryFirst), ClientSortedRanksDesc(cards)))
  }

  /** The client's chain of tests in evalFive, strongest first. */
  function ClientClassifyFive(flush: bool, straight: Option<int>, entries: seq<Entry>, ranksDesc: seq<int>): HandEval
    requires EntriesFit(entries, 5)
  {
    if flush && straight.Some? then HandEval(8, [straight.value])
    else if entries[0].count == 4 then HandEval(7, [entries[0].rank, entries[1].rank])
    else if entries[0].count == 3 && entries[1].count == 2 then HandEval(6, [entries[0].rank, entries[1].rank])
    else if flush then HandEval(5, ranksDesc)
    else if straight.Some? then HandEval(4, [straight.value])
    else if entries[0].count == 3 then HandEval(3, [entries[0].rank] + Kickers(entries))
    else if entries[0].count == 2 && entries[1].count == 2 then
      HandEval(2, [Max(entries[0].rank, entries[1].rank), Min(entries[0].rank, entries[1].rank), entries[2].rank])
    else if entries[0].count == 2 then HandEval(1, [entries[0].rank] + Kickers(entries))
    else HandEval(0, ranksDesc)
  }

  /** Given the same inputs, the client's chain picks the server's category and tiebreak. */
  lemma ClientClassifyFiveAgrees(flush: bool, straight: Option<int>, entries: seq<Entry>, ranksDesc: seq<int>)
    requires EntriesFit(entries, 5)
    ensures ClientClassifyFive(flush, straight, entries, ranksDesc) == ClassifyFive(flush, straight, entries, ranksDesc)
  {
  }

  function ClientEvalThree(cards: seq<ClientCard>): (r: Result<HandEval>)
    ensures r.Ok? <==> |cards| == 3
  {
    if |cards| != 3 then Err("evalThree expects 3 cards")
    else
      var entries := SortBy(ClientCountsByRank(cards), EntryFirst);
      ClientEntriesFit(cards);
      if entries[0].count == 3 then Ok(HandEval(3, [entries[0].rank]))
      else if entries[0].count == 2 then Ok(HandEval(1, [entries[0].rank, entries[1].rank]))
      else Ok(HandEval(0, ClientSortedRanksDesc(cards)))
  }

  /** For every input the client's evalFive returns exactly the server's result, error included. */
  lemma ClientEvalFiveAgrees(cards: seq<ClientCard>)
    ensures ClientEvalFive(cards) == EvalFive(ToServerCards(cards))
  {
    if |cards| == 5 {
      ClientEntriesAgree(cards);
      ClientStraightHighAgrees(cards);
      ClientIsFlushAgrees(cards);
      EvalFiveUnfold(ToServerCards(cards));
      ClientClassifyFiveAgrees(ClientIsFlush(cards), ClientStraightHigh(cards),
        SortBy(ClientCountsByRank(cards), EntryFirst), ClientSortedRanksDesc(cards));
    }
  }

  /** For every input the client's evalThree returns exactly the server's result, error included. */
  lemma ClientEvalThreeAgrees(cards: seq<ClientCard>)
    ensures ClientEvalThree(cards) == EvalThree(ToServerCards(cards))
  {
    if |cards| == 3 {
      ClientEntriesAgree(cards);
    }
  }

  // ---------------------------------------------------------------------------
  // isValidArrangement, explainCategory
  // ---------------------------------------------------------------------------

  datatype ClientArrangement = ClientArrangement(top: seq<ClientCard>, middle: seq<ClientCard>, bottom: seq<ClientCard>)

  function ToServerArrangement(a: ClientArrangement): Arrangement {
    Arrangement(ToServerCards(a.top), ToServerCards(a.middle), ToServerCards(a.bottom))
  }

  /** The client check, with no guard for a missing arrangement: sizes 3/5/5, then bottom >= middle >= top. */
  function ClientIsValidArrangement(a: ClientArrangement): bool {
    if |a.top| != 3 || |a.middle| != 5 || |a.bottom| != 5 then false
    else
      var top := ClientEvalThree(a.top).value;
      var mid := ClientEvalFive(a.middle).value;
      var bot := ClientEvalFive(a.bottom).value;
      if ClientCompareEval(bot, mid) < 0 then false
      else if ClientCompareEval(mid, top) < 0 then false
      else true
  }

  lemma ClientLanesAgree(a: ClientArrangement)
    ensures ClientEvalThree(a.top) == EvalThree(ToServerArrangement(a).top)
    ensures ClientEvalFive(a.middle) == EvalFive(ToServerArrangement(a).middle)
    ensures ClientEvalFive(a.bottom) == EvalFive(ToServerArrangement(a).bottom)
  {
    ClientEvalThreeAgrees(a.top);
    ClientEvalFiveAgrees(a.middle);
    ClientEvalFiveAgrees(a.bottom);
  }

  lemma ClientOrderAgrees(a: ClientArrangement)
    requires |a.top| == 3 && |a.middle| == 5 && |a.bottom| == 5
    ensures ClientIsValidArrangement(a) == IsValidArrangement(Some(ToServerArrangement(a)))
  {
    var top := ClientEvalThree(a.top).value;
    var mid := ClientEvalFive(a.middle).value;
    var bot := ClientEvalFive(a.bottom).value;
    ClientLanesAgree(a);
    ClientCompareEvalAgrees(bot, mid);
    ClientCompareEvalAgrees(mid, top);
  }

  /** On any arrangement that exists, the client's rule is the server's rule. */
  lemma ClientIsValidArrangementAgrees(a: ClientArrangement)
    ensures ClientIsValidArrangement(a) == IsValidArrangement(Some(ToServerArrangement(a)))
  {
    if |a.top| == 3 && |a.middle| == 5 && |a.bottom| == 5 {
      ClientOrderAgrees(a);
    }
  }

  /** The display name of a category; anything outside 1..8 is high card. */
  function ExplainCategory(category: int): (name: string)
    ensures !(1 <= category <= 8) ==> name == "烏龍"
  {
    match category
    case 8 => "同花順"
    case 7 => "鐵支"
    case 6 => "葫蘆"
    case 5 => "同花"
    case 4 => "順子"
    case 3 => "三條"
    case 2 => "兩對"
    case 1 => "一對"
    case _ => "烏龍"
  }

  /** Categories 1..8 have names of their own, different from each other and from the default. */
  lemma ExplainCategoryDistinct(x: int, y: int)
    requires 0 <= x <= 8 && 0 <= y <= 8 && x != y
    ensures ExplainCategory(x) != ExplainCategory(y)
  {
  }
}
