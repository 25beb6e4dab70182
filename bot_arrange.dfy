/**
 * The server's bot (server/utils/botArrange.js): every split of a 13-card hand into a
 * 5-card bottom, a 5-card middle and a 3-card top is enumerated, the valid ones are
 * scored by an objective, and the first candidate with the highest score wins; with no
 * valid candidate, a rank-sorted split is used. The objective is a parameter.
 */
module BotArrange {

  import opened Wrappers
  import opened Sorting
  import opened Cards
  import opened ThirteenEval

  // ---------------------------------------------------------------------------
  // evalToScore: an evaluation packed into one integer
  // ---------------------------------------------------------------------------

  function Pow1000(e: nat): (p: nat)
    ensures p >= 1
  {
    if e == 0 then 1 else 1000 * Pow1000(e - 1)
  }

  /** Tiebreak slot `i` packed: `((tiebreak[i] ?? -1) + 1) * 1000^(5 - i)`. */
  function Slot(tb: seq<int>, i: nat): int
    requires i < 6
  {
    (At(tb, i) + 1) * Pow1000(5 - i)
  }

  /** The first `n` slots, as the loop has added them after `n` rounds. */
  function Packed(tb: seq<int>, n: nat): int
    requires n <= 6
  {
    if n == 0 then 0 else Packed(tb, n - 1) + Slot(tb, n - 1)
  }

  /** The category weight as written: 10^9, below the weight 1000^5 = 10^15 of the first tiebreak slot. */
  const CategoryWeight: int := 1_000_000_000

  function ScoreAsWritten(ev: HandEval): int {
    ev.category * CategoryWeight + Packed(ev.tiebreak, 6)
  }

  /** evalToScore, as written. */
  method EvalToScore(ev: HandEval) returns (score: int)
    ensures score == ScoreAsWritten(ev)
  {
    score := ev.category * 1_000_000_000;
    for i := 0 to 6
      invariant score == ev.category * CategoryWeight + Packed(ev.tiebreak, i)
    {
      var v := if i < |ev.tiebreak| then ev.tiebreak[i] else -1;
      score := score + (v + 1) * Pow1000(5 - i);
    }
  }

  /** A tiebreak of at most six rank values, as the evaluators build. */
  ghost predicate RankTiebreak(ev: HandEval) {
    |ev.tiebreak| <= 6 && forall i :: 0 <= i < |ev.tiebreak| ==> 0 <= ev.tiebreak[i] < 13
  }

  lemma {:induction false} PackedBounds(tb: seq<int>, n: nat)
    requires n <= 6 && forall i :: 0 <= i < |tb| ==> 0 <= tb[i] < 13
    ensures 0 <= Packed(tb, n) <= Pow1000(6) - Pow1000(6 - n)
  {
    if n > 0 {
      PackedBounds(tb, n - 1);
      var p := Pow1000(6 - n);
      assert Pow1000(6 - (n - 1)) == 1000 * p;
      var d := At(tb, n - 1) + 1;
      assert 0 <= d <= 13;
      MulMono(0, d, p);
      MulMono(d, 13, p);
      assert Slot(tb, n - 1) == d * p;
    }
  }

  lemma MulMono(x: int, y: int, p: int)
    requires x <= y && 0 <= p
    ensures x * p <= y * p
  {
    assert y * p - x * p == (y - x) * p;
  }

  /**
   * The ordering bug: any pair of twos beats any ace-high hand under compareEval, yet
   * packs to a smaller number, because the ace's first slot outweighs the category.
   */
  lemma EvalToScoreMisorders(pairOfTwos: HandEval, aceHigh: HandEval)
    requires RankTiebreak(pairOfTwos) && RankTiebreak(aceHigh)
    requires pairOfTwos.category == 1 && |pairOfTwos.tiebreak| >= 1 && pairOfTwos.tiebreak[0] == 0
    requires aceHigh.category == 0 && |aceHigh.tiebreak| >= 1 && aceHigh.tiebreak[0] == 12
    ensures CompareEval(pairOfTwos, aceHigh) > 0
    ensures ScoreAsWritten(pairOfTwos) < ScoreAsWritten(aceHigh)
  {
    var a, b := pairOfTwos.tiebreak, aceHigh.tiebreak;
    PackedSplit(a);
    PackedSplit(b);
    RestBound(a);
    RestBound(b);
    assert Slot(a, 0) == Pow1000(5);
    assert Slot(b, 0) == 13 * Pow1000(5);
    assert Pow1000(5) > 2 * CategoryWeight by {
      assert Pow1000(5) == 1000 * Pow1000(4);
      assert Pow1000(4) == 1000 * Pow1000(3);
      assert Pow1000(3) == 1000 * Pow1000(2);
      assert Pow1000(2) == 1000 * Pow1000(1);
    }
  }

  /** The five slots after the first. */
  function RestPacked(tb: seq<int>): int {
    Slot(tb, 1) + Slot(tb, 2) + Slot(tb, 3) + Slot(tb, 4) + Slot(tb, 5)
  }

  lemma PackedSplit(tb: seq<int>)
    ensures Packed(tb, 6) == Slot(tb, 0) + RestPacked(tb)
  {
    assert Packed(tb, 1) == Slot(tb, 0);
    assert Packed(tb, 2) == Packed(tb, 1) + Slot(tb, 1);
    assert Packed(tb, 3) == Packed(tb, 2) + Slot(tb, 2);
    assert Packed(tb, 4) == Packed(tb, 3) + Slot(tb, 3);
    assert Packed(tb, 5) == Packed(tb, 4) + Slot(tb, 4);
    assert Packed(tb, 6) == Packed(tb, 5) + Slot(tb, 5);
  }

  lemma RestBound(tb: seq<int>)
    requires forall i :: 0 <= i < |tb| ==> 0 <= tb[i] < 13
    ensures 0 <= RestPacked(tb) < Pow1000(5)
  {
    assert Pow1000(5) == 1000 * Pow1000(4);
    assert Pow1000(4) == 1000 * Pow1000(3);
    assert Pow1000(3) == 1000 * Pow1000(2);
    assert Pow1000(2) == 1000 * Pow1000(1);
    assert Pow1000(1) == 1000;
    SlotBound(tb, 1);
    SlotBound(tb, 2);
    SlotBound(tb, 3);
    SlotBound(tb, 4);
    SlotBound(tb, 5);
  }

  lemma SlotBound(tb: seq<int>, i: nat)
    requires i < 6 && forall j :: 0 <= j < |tb| ==> 0 <= tb[j] < 13
    ensures 0 <= Slot(tb, i) <= 13 * Pow1000(5 - i)
  {
    var d := At(tb, i) + 1;
    MulMono(0, d, Pow1000(5 - i));
    MulMono(d, 13, Pow1000(5 - i));
  }

  /** The evidently intended packing: the category weighs more than all six slots together. */
  function Score(ev: HandEval): int {
    ev.category * Pow1000(6) + Packed(ev.tiebreak, 6)
  }

  lemma {:induction false} PackedAgree(a: seq<int>, b: seq<int>, n: nat)
    requires n <= 6 && AgreeUpTo(a, b, n)
    ensures Packed(a, n) == Packed(b, n)
  {
    if n > 0 {
      assert AgreeUpTo(a, b, n - 1);
      PackedAgree(a, b, n - 1);
      assert At(a, n - 1) == At(b, n - 1);
    }
  }

  /** From the first differing slot `k` on, `a` stays ahead by at least the weight of the next slot. */
  lemma {:induction false} PackedGap(a: seq<int>, b: seq<int>, k: nat, n: nat)
    requires k < n <= 6 && AgreeUpTo(a, b, k) && At(a, k) > At(b, k)
    requires forall i :: 0 <= i < |a| ==> 0 <= a[i] < 13
    requires forall i :: 0 <= i < |b| ==> 0 <= b[i] < 13
    ensures Packed(a, n) - Packed(b, n) >= Pow1000(6 - n)
  {
    var p := Pow1000(6 - n);
    var d := At(a, n - 1) - At(b, n - 1);
    SlotGap(a, b, n - 1);
    if n == k + 1 {
      PackedAgree(a, b, k);
      MulMono(1, d, p);
    } else {
      PackedGap(a, b, k, n - 1);
      MulMono(-13, d, p);
    }
  }

  /** Two slots at the same position differ by the difference of their values times the slot's weight. */
  lemma SlotGap(a: seq<int>, b: seq<int>, i: nat)
    requires i < 6
    ensures Slot(a, i) - Slot(b, i) == (At(a, i) - At(b, i)) * Pow1000(5 - i)
  {
    var p := Pow1000(5 - i);
    assert (At(a, i) + 1) * p - (At(b, i) + 1) * p == (At(a, i) - At(b, i)) * p;
  }

  /** Past both lengths every slot reads -1, so agreeing up to the longer tiebreak is agreeing on all six slots. */
  lemma AgreeAllSlots(a: seq<int>, b: seq<int>)
    requires |a| <= 6 && |b| <= 6 && AgreeUpTo(a, b, Max(|a|, |b|))
    ensures AgreeUpTo(a, b, 6)
  {
    forall i | 0 <= i < 6 ensures At(a, i) == At(b, i) {
      if i >= Max(|a|, |b|) {
        assert At(a, i) == -1 == At(b, i);
      }
    }
  }

  /** The corrected score orders evaluations exactly as compareEval does. */
  lemma ScoreOrder(a: HandEval, b: HandEval)
    requires RankTiebreak(a) && RankTiebreak(b)
    ensures CompareEval(a, b) > 0 <==> Score(a) > Score(b)
    ensures CompareEval(a, b) == 0 <==> Score(a) == Score(b)
  {
    PackedBounds(a.tiebreak, 6);
    PackedBounds(b.tiebreak, 6);
    CompareEvalMeaning(a, b);
    if Outranks(a, b) {
      OutranksScore(a, b);
    } else if Outranks(b, a) {
      OutranksScore(b, a);
    } else {
      assert Ties(a, b);
      AgreeAllSlots(a.tiebreak, b.tiebreak);
      PackedAgree(a.tiebreak, b.tiebreak, 6);
    }
  }

  lemma OutranksScore(a: HandEval, b: HandEval)
    requires RankTiebreak(a) && RankTiebreak(b) && Outranks(a, b)
    ensures Score(a) > Score(b)
  {
    PackedBounds(a.tiebreak, 6);
    PackedBounds(b.tiebreak, 6);
    if a.category > b.category {
      assert a.category * Pow1000(6) >= b.category * Pow1000(6) + Pow1000(6);
    } else {
      var k :| 0 <= k < Max(|a.tiebreak|, |b.tiebreak|) && AgreeUpTo(a.tiebreak, b.tiebreak, k)
               && At(a.tiebreak, k) > At(b.tiebreak, k);
      PackedGap(a.tiebreak, b.tiebreak, k, 6);
    }
  }

  // ---------------------------------------------------------------------------
  // combinations: the k-selections of a list, in generator order
  // ---------------------------------------------------------------------------

  /** What `combinations(arr, k, start, prefix)` yields, in order. */
  function Combinations<T>(arr: seq<T>, k: nat, start: nat, prefix: seq<T>): seq<seq<T>>
    requires |prefix| <= k
    decreases |arr| + 1 - start, 1
  {
    if |prefix| == k then [prefix] else CombinationsLoop(arr, k, start, prefix)
  }

  /** The generator's `for (let i = start; i <= arr.length - (k - prefix.length); i++)` loop, from `i` on. */
  function CombinationsLoop<T>(arr: seq<T>, k: nat, i: nat, prefix: seq<T>): seq<seq<T>>
    requires |prefix| < k
    decreases |arr| + 1 - i, 0
  {
    if i > |arr| - (k - |prefix|) then []
    else Combinations(arr, k, i + 1, prefix + [arr[i]]) + CombinationsLoop(arr, k, i + 1, prefix)
  }

  /** `c` lists elements of `a` at strictly increasing positions. */
  predicate Picks<T(==)>(c: seq<T>, a: seq<T>)
    decreases |a|
  {
    if c == [] then true
    else if a == [] then false
    else (c[0] == a[0] && Picks(c[1..], a[1..])) || Picks(c, a[1..])
  }

  /** Binomial coefficients by Pascal's rule. */
  function Choose(n: nat, r: nat): nat {
    if r == 0 then 1 else if n == 0 then 0 else Choose(n - 1, r - 1) + Choose(n - 1, r)
  }

  lemma {:induction false} ChooseTooMany(n: nat, r: nat)
    requires n < r
    ensures Choose(n, r) == 0
  {
    if n > 0 {
      ChooseTooMany(n - 1, r - 1);
      ChooseTooMany(n - 1, r);
    }
  }

  /** Each yield extends `prefix` to `k` elements, picked from `arr[start..]` at increasing positions. */
  lemma {:induction false} CombinationsShape<T>(arr: seq<T>, k: nat, start: nat, prefix: seq<T>)
    requires |prefix| <= k && start <= |arr|
    ensures forall c :: c in Combinations(arr, k, start, prefix) ==>
      |c| == k && c[..|prefix|] == prefix && Picks(c[|prefix|..], arr[start..])
    decreases |arr| + 1 - start, 1
  {
    if |prefix| < k {
      LoopShape(arr, k, start, prefix);
    }
  }

  lemma {:induction false} LoopShape<T>(arr: seq<T>, k: nat, i: nat, prefix: seq<T>)
    requires |prefix| < k && i <= |arr|
    ensures forall c :: c in CombinationsLoop(arr, k, i, prefix) ==>
      |c| == k && c[..|prefix|] == prefix && Picks(c[|prefix|..], arr[i..])
    decreases |arr| + 1 - i, 0
  {
    if i <= |arr| - (k - |prefix|) {
      var p := prefix + [arr[i]];
      CombinationsShape(arr, k, i + 1, p);
      LoopShape(arr, k, i + 1, prefix);
      forall c | c in CombinationsLoop(arr, k, i, prefix)
        ensures |c| == k && c[..|prefix|] == prefix && Picks(c[|prefix|..], arr[i..])
      {
        var tail := arr[i..];
        assert tail[1..] == arr[i + 1..];
        if c in Combinations(arr, k, i + 1, p) {
          assert c[..|p|] == p;
          assert c[..|prefix|] == prefix by {
            assert c[..|prefix|] == c[..|p|][..|prefix|];
          }
          var rest := c[|prefix|..];
          assert rest[0] == arr[i] && rest[1..] == c[|p|..];
        } else {
          assert c in CombinationsLoop(arr, k, i + 1, prefix);
        }
      }
    }
  }

  /** The generator yields C(n - start, k - |prefix|) selections. */
  lemma {:induction false} CombinationsCount<T>(arr: seq<T>, k: nat, start: nat, prefix: seq<T>)
    requires |prefix| <= k && start <= |arr|
    ensures |Combinations(arr, k, start, prefix)| == Choose(|arr| - start, k - |prefix|)
    decreases |arr| + 1 - start, 1
  {
    if |prefix| < k {
      LoopCount(arr, k, start, prefix);
    }
  }

  lemma {:induction false} LoopCount<T>(arr: seq<T>, k: nat, i: nat, prefix: seq<T>)
    requires |prefix| < k && i <= |arr|
    ensures |CombinationsLoop(arr, k, i, prefix)| == Choose(|arr| - i, k - |prefix|)
    decreases |arr| + 1 - i, 0
  {
    if i > |arr| - (k - |prefix|) {
      ChooseTooMany(|arr| - i, k - |prefix|);
    } else {
      CombinationsCount(arr, k, i + 1, prefix + [arr[i]]);
      LoopCount(arr, k, i + 1, prefix);
    }
  }

  /** The bot's two enumerations: 1287 bottoms from 13 cards, then 56 middles from the remaining 8. */
  lemma CandidateCounts<T>(hand: seq<T>, rem8: seq<T>)
    requires |hand| == 13 && |rem8| == 8
    ensures |Combinations(hand, 5, 0, [])| == 1287
    ensures |Combinations(rem8, 5, 0, [])| == 56
  {
    var bottoms, middles := |Combinations(hand, 5, 0, [])|, |Combinations(rem8, 5, 0, [])|;
    var c13, c8 := Choose(|hand|, 5), Choose(|rem8|, 5);
    assert bottoms == c13 by { ChoicesCount(hand, 5); }
    assert middles == c8 by { ChoicesCount(rem8, 5); }
    assert c13 == 1287 && c8 == 56 by { ChooseTable(|hand|, |rem8|); }
  }

  /** `combinations(arr, k)` yields C(|arr|, k) selections of k elements each. */
  lemma ChoicesCount<T>(arr: seq<T>, k: nat)
    ensures |Combinations(arr, k, 0, [])| == Choose(|arr|, k)
  {
    CombinationsCount(arr, k, 0, []);
  }

  /** Row `n` of Pascal's triangle up to column 5, each row from the one above. */
  lemma ChooseRow1()
    ensures Choose(1, 1) == 1 && Choose(1, 2) == 0 && Choose(1, 3) == 0 && Choose(1, 4) == 0 && Choose(1, 5) == 0
  {
  }

  lemma ChooseRow2()
    ensures Choose(2, 1) == 2 && Choose(2, 2) == 1 && Choose(2, 3) == 0 && Choose(2, 4) == 0 && Choose(2, 5) == 0
  {
    ChooseRow1();
  }

  lemma ChooseRow3()
    ensures Choose(3, 1) == 3 && Choose(3, 2) == 3 && Choose(3, 3) == 1 && Choose(3, 4) == 0 && Choose(3, 5) == 0
  {
    ChooseRow2();
  }

  lemma ChooseRow4()
    ensures Choose(4, 1) == 4 && Choose(4, 2) == 6 && Choose(4, 3) == 4 && Choose(4, 4) == 1 && Choose(4, 5) == 0
  {
    ChooseRow3();
  }

  lemma ChooseRow5()
    ensures Choose(5, 1) == 5 && Choose(5, 2) == 10 && Choose(5, 3) == 10 && Choose(5, 4) == 5 && Choose(5, 5) == 1
  {
    ChooseRow4();
  }

  lemma ChooseRow6()
    ensures Choose(6, 1) == 6 && Choose(6, 2) == 15 && Choose(6, 3) == 20 && Choose(6, 4) == 15 && Choose(6, 5) == 6
  {
    ChooseRow5();
  }

  lemma ChooseRow7()
    ensures Choose(7, 1) == 7 && Choose(7, 2) == 21 && Choose(7, 3) == 35 && Choose(7, 4) == 35 && Choose(7, 5) == 21
  {
    ChooseRow6();
  }

  lemma ChooseRow8()
    ensures Choose(8, 1) == 8 && Choose(8, 2) == 28 && Choose(8, 3) == 56 && Choose(8, 4) == 70 && Choose(8, 5) == 56
  {
    ChooseRow7();
  }

  lemma ChooseRow9()
    ensures Choose(9, 1) == 9 && Choose(9, 2) == 36 && Choose(9, 3) == 84 && Choose(9, 4) == 126 && Choose(9, 5) == 126
  {
    ChooseRow8();
  }

  lemma ChooseRow10()
    ensures Choose(10, 1) == 10 && Choose(10, 2) == 45 && Choose(10, 3) == 120 && Choose(10, 4) == 210 && Choose(10, 5) == 252
  {
    ChooseRow9();
  }

  lemma ChooseRow11()
    ensures Choose(11, 1) == 11 && Choose(11, 2) == 55 && Choose(11, 3) == 165 && Choose(11, 4) == 330 && Choose(11, 5) == 462
  {
    ChooseRow10();
  }

  lemma ChooseRow12()
    ensures Choose(12, 1) == 12 && Choose(12, 2) == 66 && Choose(12, 3) == 220 && Choose(12, 4) == 495 && Choose(12, 5) == 792
  {
    ChooseRow11();
  }

  lemma ChooseRow13()
    ensures Choose(13, 1) == 13 && Choose(13, 2) == 78 && Choose(13, 3) == 286 && Choose(13, 4) == 715 && Choose(13, 5) == 1287
  {
    ChooseRow12();
  }

  lemma ChooseTable(n: nat, m: nat)
    requires n == 13 && m == 8
    ensures Choose(m, 5) == 56 && Choose(n, 5) == 1287
  {
    ChooseRow8();
    ChooseRow13();
  }

  // ---------------------------------------------------------------------------
  // remainingByKeys: the cards of a list whose key was not used
  // ---------------------------------------------------------------------------

  /** `new Set(usedCards.map(cardKey))`. */
  function UsedKeys(used: seq<Card>): set<string> {
    set c | c in used :: CardKey(c)
  }

  /** `allCards.filter(c => !used.has(cardKey(c)))`. */
  function KeepUnused(all: seq<Card>, used: set<string>): seq<Card> {
    if all == [] then []
    else (if CardKey(all[0]) in used then [] else [all[0]]) + KeepUnused(all[1..], used)
  }

  function RemainingByKeys(all: seq<Card>, usedCards: seq<Card>): seq<Card> {
    KeepUnused(all, UsedKeys(usedCards))
  }

  lemma UsedKeysMeaning(x: Card, used: seq<Card>)
    ensures CardKey(x) in UsedKeys(used) <==> x in used
  {
    if CardKey(x) in UsedKeys(used) {
      var c :| c in used && CardKey(c) == CardKey(x);
      CardKeyInjective(c, x);
    }
  }

  lemma KeepUnusedFacts(all: seq<Card>, usedCards: seq<Card>, x: Card)
    ensures multiset(KeepUnused(all, UsedKeys(usedCards)))[x] == if x in usedCards then 0 else multiset(all)[x]
    ensures Picks(KeepUnused(all, UsedKeys(usedCards)), all)
  {
    KeepUnusedCount(all, UsedKeys(usedCards), x);
    KeepUnusedPicks(all, UsedKeys(usedCards));
    UsedKeysMeaning(x, usedCards);
  }

  /** The filter keeps every copy of a card whose key is not used, and no copy of one whose key is. */
  lemma {:induction false} KeepUnusedCount(all: seq<Card>, used: set<string>, x: Card)
    ensures multiset(KeepUnused(all, used))[x] == if CardKey(x) in used then 0 else multiset(all)[x]
  {
    if all != [] {
      KeepUnusedCount(all[1..], used, x);
      assert all == [all[0]] + all[1..];
    }
  }

  /** The filter keeps cards in their original order. */
  lemma {:induction false} KeepUnusedPicks(all: seq<Card>, used: set<string>)
    ensures Picks(KeepUnused(all, used), all)
  {
    if all != [] {
      KeepUnusedPicks(all[1..], used);
      var rest := KeepUnused(all[1..], used);
      var r := KeepUnused(all, used);
      if CardKey(all[0]) !in used {
        assert r == [all[0]] + rest;
        assert r[1..] == rest;
      } else {
        assert r == rest;
        KeepUnusedPicksSkip(rest, all);
      }
    }
  }

  lemma KeepUnusedPicksSkip(c: seq<Card>, a: seq<Card>)
    requires a != [] && Picks(c, a[1..])
    ensures Picks(c, a)
  {
  }

  /**
   * `remainingByKeys` keeps exactly the cards of `allCards` that are not among `usedCards`,
   * with their multiplicities and in their original order.
   */
  lemma RemainingByKeysMeaning(all: seq<Card>, usedCards: seq<Card>)
    ensures forall x :: multiset(RemainingByKeys(all, usedCards))[x] == if x in usedCards then 0 else multiset(all)[x]
    ensures forall x :: x in RemainingByKeys(all, usedCards) <==> x in all && x !in usedCards
    ensures Picks(RemainingByKeys(all, usedCards), all)
  {
    forall x
      ensures multiset(RemainingByKeys(all, usedCards))[x] == if x in usedCards then 0 else multiset(all)[x]
    {
      KeepUnusedFacts(all, usedCards, x);
    }
    KeepUnusedFacts(all, usedCards, Card(Spades, Two));
  }

  // ---------------------------------------------------------------------------
  // The candidates: every bottom, then every middle of the remaining eight
  // ---------------------------------------------------------------------------

  function Bottoms(hand: seq<Card>): seq<seq<Card>> {
    Combinations(hand, 5, 0, [])
  }

  /** The arrangements the inner loop builds for one bottom, in loop order. */
  function Row(hand: seq<Card>, bottom: seq<Card>): (r: seq<Arrangement>)
    ensures var rem8 := RemainingByKeys(hand, bottom);
      var middles := Combinations(rem8, 5, 0, []);
      |r| == |middles| &&
      forall j :: 0 <= j < |r| ==> r[j] == Arrangement(RemainingByKeys(rem8, middles[j]), middles[j], bottom)
  {
    var rem8 := RemainingByKeys(hand, bottom);
    Map((middle: seq<Card>) => Arrangement(RemainingByKeys(rem8, middle), middle, bottom), Combinations(rem8, 5, 0, []))
  }

  /** The rows of the given bottoms, one after the other. */
  function CandidatesOf(hand: seq<Card>, bottoms: seq<seq<Card>>): seq<Arrangement> {
    if bottoms == [] then []
    else CandidatesOf(hand, bottoms[..|bottoms| - 1]) + Row(hand, bottoms[|bottoms| - 1])
  }

  /** Every arrangement the search visits, in visiting order. */
  function Candidates(hand: seq<Card>): seq<Arrangement> {
    CandidatesOf(hand, Bottoms(hand))
  }

  lemma {:induction false} CandidatesOfMember(hand: seq<Card>, bottoms: seq<seq<Card>>, a: Arrangement)
    requires a in CandidatesOf(hand, bottoms)
    ensures exists k :: 0 <= k < |bottoms| && a in Row(hand, bottoms[k])
  {
    if bottoms != [] {
      var n := |bottoms| - 1;
      if a !in Row(hand, bottoms[n]) {
        CandidatesOfMember(hand, bottoms[..n], a);
        var k :| 0 <= k < n && a in Row(hand, bottoms[..n][k]);
        assert bottoms[..n][k] == bottoms[k];
      }
    }
  }

  lemma {:induction false} PicksSubmultiset<T>(c: seq<T>, a: seq<T>)
    requires Picks(c, a)
    ensures multiset(c) <= multiset(a)
    decreases |a|
  {
    if c != [] {
      assert a == [a[0]] + a[1..];
      if c[0] == a[0] && Picks(c[1..], a[1..]) {
        PicksSubmultiset(c[1..], a[1..]);
        assert c == [c[0]] + c[1..];
      } else {
        PicksSubmultiset(c, a[1..]);
      }
    }
  }

  /** Taking a selection out of a list without repeats leaves the rest, and the rest has no repeats. */
  lemma RemoveSelection(all: seq<Card>, picked: seq<Card>)
    requires Distinct(all) && Picks(picked, all)
    ensures multiset(RemainingByKeys(all, picked)) + multiset(picked) == multiset(all)
    ensures |RemainingByKeys(all, picked)| == |all| - |picked|
    ensures Distinct(RemainingByKeys(all, picked))
  {
    var rest := RemainingByKeys(all, picked);
    var mr, mp, ma := multiset(rest), multiset(picked), multiset(all);
    assert mp <= ma by {
      PicksSubmultiset(picked, all);
    }
    assert forall x :: mr[x] == if x in picked then 0 else ma[x] by {
      RemainingByKeysMeaning(all, picked);
    }
    forall x ensures (mr + mp)[x] == ma[x] && mr[x] <= 1 {
      assert ma[x] <= 1;
      if x in picked {
        assert mp[x] >= 1;
      }
    }
    assert mr + mp == ma;
    assert |mr| + |mp| == |ma|;
  }

  /**
   * For a hand without repeated cards, every candidate is a partition of it into a 3-card top,
   * a 5-card middle and a 5-card bottom.
   */
  lemma CandidatePartition(hand: seq<Card>, a: Arrangement)
    requires |hand| == 13 && Distinct(hand)
    requires a in Candidates(hand)
    ensures HasLaneSizes(a)
    ensures multiset(a.top) + multiset(a.middle) + multiset(a.bottom) == multiset(hand)
  {
    CandidatesOfMember(hand, Bottoms(hand), a);
    var k :| 0 <= k < |Bottoms(hand)| && a in Row(hand, Bottoms(hand)[k]);
    var bottom := Bottoms(hand)[k];
    CombinationsShape(hand, 5, 0, []);
    assert |bottom| == 5 && Picks(bottom, hand) by {
      assert bottom[0..] == bottom && hand[0..] == hand;
    }
    var rem8 := RemainingByKeys(hand, bottom);
    RemoveSelection(hand, bottom);
    var middles := Combinations(rem8, 5, 0, []);
    var j :| 0 <= j < |middles| && a == Row(hand, bottom)[j];
    var middle := middles[j];
    CombinationsShape(rem8, 5, 0, []);
    assert |middle| == 5 && Picks(middle, rem8) by {
      assert middle[0..] == middle && rem8[0..] == rem8;
    }
    RemoveSelection(rem8, middle);
    assert a == Arrangement(RemainingByKeys(rem8, middle), middle, bottom);
  }

  // ---------------------------------------------------------------------------
  // pickBestArrangementExhaustive: the first valid candidate of greatest objective
  // ---------------------------------------------------------------------------

  /** One visit of the inner loop: skip invalid candidates, take a strictly better one. */
  function Step<T>(best: Option<T>, c: T, valid: T -> bool, objective: T -> int): Option<T> {
    if !valid(c) then best
    else if best.None? || objective(c) > objective(best.value) then Some(c)
    else best
  }

  /** What `best` holds after visiting `cs` in order. */
  function BestOf<T>(cs: seq<T>, valid: T -> bool, objective: T -> int): Option<T> {
    if cs == [] then None
    else Step(BestOf(cs[..|cs| - 1], valid, objective), cs[|cs| - 1], valid, objective)
  }

  lemma BestOfSnoc<T>(cs: seq<T>, c: T, valid: T -> bool, objective: T -> int)
    ensures BestOf(cs + [c], valid, objective) == Step(BestOf(cs, valid, objective), c, valid, objective)
  {
    assert (cs + [c])[..|cs|] == cs;
  }

  lemma StepTaken<T>(best: Option<T>, c: T, valid: T -> bool, objective: T -> int)
    requires valid(c) && (best.None? || objective(c) > objective(best.value))
    ensures Step(best, c, valid, objective) == Some(c)
  {
  }

  lemma StepKept<T>(best: Option<T>, c: T, valid: T -> bool, objective: T -> int)
    requires !valid(c) || (best.Some? && objective(c) <= objective(best.value))
    ensures Step(best, c, valid, objective) == best
  {
  }

  /** Visiting `row[j]` after `visited + row[..j]` is one more step of the fold. */
  lemma VisitNext<T>(visited: seq<T>, row: seq<T>, j: nat, valid: T -> bool, objective: T -> int)
    requires j < |row|
    ensures BestOf(visited + row[..j + 1], valid, objective) == Step(BestOf(visited + row[..j], valid, objective), row[j], valid, objective)
  {
    assert visited + row[..j + 1] == (visited + row[..j]) + [row[j]];
    BestOfSnoc(visited + row[..j], row[j], valid, objective);
  }

  /** The fold finds a candidate exactly when some candidate is valid. */
  lemma {:induction false} BestOfFound<T>(cs: seq<T>, valid: T -> bool, objective: T -> int)
    ensures BestOf(cs, valid, objective).Some? <==> exists i :: 0 <= i < |cs| && valid(cs[i])
  {
    if cs != [] {
      var n := |cs| - 1;
      var init := cs[..n];
      BestOfFound(init, valid, objective);
      if exists i :: 0 <= i < |cs| && valid(cs[i]) {
        var i :| 0 <= i < |cs| && valid(cs[i]);
        if i < n {
          assert init[i] == cs[i];
        }
      }
      if BestOf(init, valid, objective).Some? {
        var i :| 0 <= i < n && valid(init[i]);
        assert cs[i] == init[i];
      }
    }
  }

  /** What the fold finds is a valid candidate that no valid candidate outscores. */
  lemma {:induction false} BestOfMaximal<T>(cs: seq<T>, valid: T -> bool, objective: T -> int)
    requires BestOf(cs, valid, objective).Some?
    ensures valid(BestOf(cs, valid, objective).value)
    ensures BestOf(cs, valid, objective).value in cs
    ensures forall c :: c in cs && valid(c) ==> objective(c) <= objective(BestOf(cs, valid, objective).value)
  {
    var n := |cs| - 1;
    var init, last := cs[..n], cs[n];
    assert cs == init + [last];
    var prev := BestOf(init, valid, objective);
    var b := BestOf(cs, valid, objective).value;
    assert Some(b) == Step(prev, last, valid, objective);
    if prev.Some? {
      BestOfMaximal(init, valid, objective);
    }
    forall c | c in cs && valid(c) ensures objective(c) <= objective(b) {
      if c != last {
        assert c in init;
        BestOfFound(init, valid, objective);
        var i :| 0 <= i < n && init[i] == c;
      }
    }
  }

  /** Every valid candidate before the one found scores strictly less: ties keep the first. */
  lemma {:induction false} BestOfFirst<T>(cs: seq<T>, valid: T -> bool, objective: T -> int)
    requires BestOf(cs, valid, objective).Some?
    ensures exists i :: (0 <= i < |cs| && cs[i] == BestOf(cs, valid, objective).value &&
      forall j :: 0 <= j < i && valid(cs[j]) ==> objective(cs[j]) < objective(cs[i]))
  {
    var n := |cs| - 1;
    var init, last := cs[..n], cs[n];
    var prev := BestOf(init, valid, objective);
    var b := BestOf(cs, valid, objective).value;
    if prev.Some? && b == prev.value {
      BestOfFirst(init, valid, objective);
      var i :| 0 <= i < n && init[i] == prev.value &&
        forall j :: 0 <= j < i && valid(init[j]) ==> objective(init[j]) < objective(init[i]);
      assert cs[i] == init[i];
      forall j | 0 <= j < i && valid(cs[j]) ensures objective(cs[j]) < objective(cs[i]) {
        assert cs[j] == init[j];
      }
    } else {
      assert b == last;
      BestOfFound(init, valid, objective);
      if prev.Some? {
        BestOfMaximal(init, valid, objective);
      }
      forall j | 0 <= j < n && valid(cs[j]) ensures objective(cs[j]) < objective(cs[n]) {
        assert cs[j] == init[j];
        assert cs[j] in init;
      }
    }
  }

  /** `isValidArrangement(arrangement)` on a candidate. */
  function ValidCandidate(a: Arrangement): bool {
    IsValidArrangement(Some(a))
  }

  /** The fallback's comparator `rankIndex(b.rank) - rankIndex(a.rank)`: higher ranks first. */
  function RankFirst(a: Card, b: Card): bool {
    RankValue(b.rank) - RankValue(a.rank) <= 0
  }

  /** `s.slice(lo, hi)` for bounds that are not negative: both are clamped to the length. */
  function Slice<T>(s: seq<T>, lo: nat, hi: nat): seq<T>
    requires lo <= hi
  {
    var l := if lo < |s| then lo else |s|;
    var h := if hi < |s| then hi else |s|;
    s[l..h]
  }

  /** The split used when no candidate is valid: five highest at bottom, next five middle, rest on top. */
  function Fallback(hand: seq<Card>): Arrangement {
    var sorted := SortBy(hand, RankFirst);
    Arrangement(Slice(sorted, 10, 13), Slice(sorted, 5, 10), Slice(sorted, 0, 5))
  }

  lemma RankFirstPreorder()
    ensures TotalPreorder(RankFirst)
  {
  }

  /**
   * For a 13-card hand the fallback is a 3/5/5 partition of the hand with every bottom card
   * ranked at least as high as every middle card, and every middle card at least as high as
   * every top card.
   */
  lemma FallbackSplit(hand: seq<Card>)
    requires |hand| == 13
    ensures HasLaneSizes(Fallback(hand))
    ensures multiset(Fallback(hand).top) + multiset(Fallback(hand).middle) + multiset(Fallback(hand).bottom) == multiset(hand)
    ensures forall x, y :: x in Fallback(hand).bottom && y in Fallback(hand).middle ==> RankValue(x.rank) >= RankValue(y.rank)
    ensures forall x, y :: x in Fallback(hand).middle && y in Fallback(hand).top ==> RankValue(x.rank) >= RankValue(y.rank)
  {
    var sorted := SortBy(hand, RankFirst);
    RankFirstPreorder();
    SortBySorted(hand, RankFirst);
    FallbackLanes(hand);
    SplitOrdered(sorted);
    assert sorted == sorted[..5] + sorted[5..10] + sorted[10..];
  }

  /** The fallback's lanes are the last three, the middle five and the first five of the sorted hand. */
  lemma FallbackLanes(hand: seq<Card>)
    requires |hand| == 13
    ensures var sorted := SortBy(hand, RankFirst);
      Fallback(hand) == Arrangement(sorted[10..], sorted[5..10], sorted[..5])
  {
    var sorted := SortBy(hand, RankFirst);
    SliceWithin(sorted, 10, 13);
    SliceWithin(sorted, 5, 10);
    SliceWithin(sorted, 0, 5);
  }

  lemma SliceWithin<T>(s: seq<T>, lo: nat, hi: nat)
    requires lo <= hi <= |s|
    ensures Slice(s, lo, hi) == s[lo..hi]
  {
  }

  /** In a 13-card run sorted high to low, each of the three blocks ranks at least as high as the next. */
  lemma SplitOrdered(s: seq<Card>)
    requires |s| == 13 && SortedBy(s, RankFirst)
    ensures forall x, y :: x in s[..5] && y in s[5..10] ==> RankValue(x.rank) >= RankValue(y.rank)
    ensures forall x, y :: x in s[5..10] && y in s[10..] ==> RankValue(x.rank) >= RankValue(y.rank)
  {
    forall x, y | x in s[..5] && y in s[5..10] ensures RankValue(x.rank) >= RankValue(y.rank) {
      var i :| 0 <= i < 5 && s[i] == x;
      var j :| 0 <= j < 5 && s[5..10][j] == y;
      assert RankFirst(s[i], s[5 + j]);
    }
    forall x, y | x in s[5..10] && y in s[10..] ensures RankValue(x.rank) >= RankValue(y.rank) {
      var i :| 0 <= i < 5 && s[5..10][i] == x;
      var j :| 0 <= j < 3 && s[10..][j] == y;
      assert RankFirst(s[5 + i], s[10 + j]);
    }
  }

  /** What `pickBestArrangementExhaustive(hand, objective)` returns. */
  function PickBest(hand: seq<Card>, objective: Arrangement -> int): Arrangement {
    match BestOf(Candidates(hand), ValidCandidate, objective)
    case Some(a) => a
    case None => Fallback(hand)
  }

  /** The search: all bottoms, then all middles of the remaining eight, keeping the first best valid candidate. */
  method PickBestArrangementExhaustive(hand: seq<Card>, objective: Arrangement -> int) returns (best: Arrangement)
    ensures best == PickBest(hand, objective)
  {
    var found: Option<Arrangement> := None;
    var bestScore := 0;
    var bottoms := Combinations(hand, 5, 0, []);
    for i := 0 to |bottoms|
      invariant found == BestOf(CandidatesOf(hand, bottoms[..i]), ValidCandidate, objective)
      invariant found.Some? ==> bestScore == objective(found.value)
    {
      assert bottoms[..i + 1][..i] == bottoms[..i];
      found, bestScore := ScanRow(hand, bottoms[i], objective, CandidatesOf(hand, bottoms[..i]), found, bestScore);
    }
    assert bottoms[..|bottoms|] == bottoms;
    if found.None? {
      best := Fallback(hand);
    } else {
      best := found.value;
    }
  }

  /** The inner loop of the search: all middles of the eight cards left once `bottom` is taken. */
  method ScanRow(hand: seq<Card>, bottom: seq<Card>, objective: Arrangement -> int, ghost visited: seq<Arrangement>,
                 found0: Option<Arrangement>, bestScore0: int)
    returns (found: Option<Arrangement>, bestScore: int)
    requires found0 == BestOf(visited, ValidCandidate, objective)
    requires found0.Some? ==> bestScore0 == objective(found0.value)
    ensures found == BestOf(visited + Row(hand, bottom), ValidCandidate, objective)
    ensures found.Some? ==> bestScore == objective(found.value)
  {
    found, bestScore := found0, bestScore0;
    var rem8 := RemainingByKeys(hand, bottom);
    var middles := Combinations(rem8, 5, 0, []);
    ghost var row := Row(hand, bottom);
    assert visited + row[..0] == visited;
    for j := 0 to |middles|
      invariant found == BestOf(visited + row[..j], ValidCandidate, objective)
      invariant found.Some? ==> bestScore == objective(found.value)
    {
      var middle := middles[j];
      var top := RemainingByKeys(rem8, middle);
      var arrangement := Arrangement(top, middle, bottom);
      assert row[j] == arrangement;
      VisitNext(visited, row, j, ValidCandidate, objective);
      if !ValidCandidate(arrangement) {
        StepKept(found, arrangement, ValidCandidate, objective);
        continue;
      }
      var score := objective(arrangement);
      if found.None? || score > bestScore {
        StepTaken(found, arrangement, ValidCandidate, objective);
        bestScore := score;
        found := Some(arrangement);
      } else {
        StepKept(found, arrangement, ValidCandidate, objective);
      }
    }
    assert row[..|middles|] == row;
  }

  /** With a valid candidate in the list, the fold finds one, and it is among the candidates. */
  lemma BestOfMember<T>(cs: seq<T>, c: T, valid: T -> bool, objective: T -> int)
    requires c in cs && valid(c)
    ensures BestOf(cs, valid, objective).Some?
    ensures valid(BestOf(cs, valid, objective).value) && BestOf(cs, valid, objective).value in cs
  {
    var i :| 0 <= i < |cs| && cs[i] == c;
    BestOfFound(cs, valid, objective);
    BestOfMaximal(cs, valid, objective);
  }

  /** If some candidate is valid, the search returns a valid candidate. */
  lemma PickBestValid(hand: seq<Card>, objective: Arrangement -> int, c: Arrangement)
    requires c in Candidates(hand) && ValidCandidate(c)
    ensures ValidCandidate(PickBest(hand, objective)) && PickBest(hand, objective) in Candidates(hand)
  {
    BestOfMember(Candidates(hand), c, ValidCandidate, objective);
  }

  /** No valid candidate has a greater objective than the result. */
  lemma PickBestMaximal(hand: seq<Card>, objective: Arrangement -> int, c: Arrangement)
    requires c in Candidates(hand) && ValidCandidate(c)
    ensures objective(c) <= objective(PickBest(hand, objective))
  {
    var cs := Candidates(hand);
    BestOfMember(cs, c, ValidCandidate, objective);
    var b := BestOf(cs, ValidCandidate, objective).value;
    assert PickBest(hand, objective) == b;
    BestOfMaximal(cs, ValidCandidate, objective);
  }

  /**
   * On ties the first candidate enumerated wins: the result stands at a position before which
   * every valid candidate scores strictly less.
   */
  lemma PickBestFirst(hand: seq<Card>, objective: Arrangement -> int, c: Arrangement)
    requires c in Candidates(hand) && ValidCandidate(c)
    ensures exists i :: (0 <= i < |Candidates(hand)| && Candidates(hand)[i] == PickBest(hand, objective) &&
      forall k :: 0 <= k < i && ValidCandidate(Candidates(hand)[k]) ==> objective(Candidates(hand)[k]) < objective(Candidates(hand)[i]))
  {
    var cs := Candidates(hand);
    assert BestOf(cs, ValidCandidate, objective).Some? by {
      BestOfMember(cs, c, ValidCandidate, objective);
    }
    var b := BestOf(cs, ValidCandidate, objective).value;
    assert PickBest(hand, objective) == b;
    BestOfFirst(cs, ValidCandidate, objective);
    var i :| 0 <= i < |cs| && cs[i] == b &&
      forall k :: 0 <= k < i && ValidCandidate(cs[k]) ==> objective(cs[k]) < objective(cs[i]);
    assert 0 <= i < |Candidates(hand)| && Candidates(hand)[i] == PickBest(hand, objective);
  }

  /** For a 13-card hand without repeats the result is a 3/5/5 partition of the hand, found or fallback. */
  lemma PickBestPartition(hand: seq<Card>, objective: Arrangement -> int)
    requires |hand| == 13 && Distinct(hand)
    ensures HasLaneSizes(PickBest(hand, objective))
    ensures var a := PickBest(hand, objective);
      multiset(a.top) + multiset(a.middle) + multiset(a.bottom) == multiset(hand)
  {
    var r := BestOf(Candidates(hand), ValidCandidate, objective);
    if r.Some? {
      BestOfMaximal(Candidates(hand), ValidCandidate, objective);
      CandidatePartition(hand, r.value);
    } else {
      FallbackSplit(hand);
    }
  }

  // ---------------------------------------------------------------------------
  // The two objectives and the public arrangers
  // ---------------------------------------------------------------------------

  lemma OccRange(cards: seq<Card>, v: int)
    requires Occ(cards, v) >= 1
    ensures 0 <= v < 13
  {
    assert v in RankValues(cards);
  }

  /** A tiebreak whose values are all ranks of the given cards is a rank tiebreak. */
  lemma OccTiebreak(cards: seq<Card>, ev: HandEval)
    requires |ev.tiebreak| <= 6 && forall i :: 0 <= i < |ev.tiebreak| ==> Occ(cards, ev.tiebreak[i]) >= 1
    ensures RankTiebreak(ev)
  {
    forall i | 0 <= i < |ev.tiebreak| ensures 0 <= ev.tiebreak[i] < 13 {
      OccRange(cards, ev.tiebreak[i]);
    }
  }

  lemma ThreeOccs(cards: seq<Card>, ev: HandEval)
    requires |ev.tiebreak| == 3 && Occ(cards, ev.tiebreak[0]) >= 1 && Occ(cards, ev.tiebreak[1]) >= 1 && Occ(cards, ev.tiebreak[2]) >= 1
    ensures RankTiebreak(ev)
  {
    OccTiebreak(cards, ev);
  }

  lemma FourOccs(cards: seq<Card>, ev: HandEval)
    requires |ev.tiebreak| == 4 && Occ(cards, ev.tiebreak[0]) >= 1 && Occ(cards, ev.tiebreak[1]) >= 1
    requires Occ(cards, ev.tiebreak[2]) >= 1 && Occ(cards, ev.tiebreak[3]) >= 1
    ensures RankTiebreak(ev)
  {
    OccTiebreak(cards, ev);
  }

  lemma TwoOccs(cards: seq<Card>, ev: HandEval)
    requires |ev.tiebreak| == 2 && Occ(cards, ev.tiebreak[0]) >= 1 && Occ(cards, ev.tiebreak[1]) >= 1
    ensures RankTiebreak(ev)
  {
    OccTiebreak(cards, ev);
  }

  lemma QuadsRanks(cards: seq<Card>)
    requires |cards| == 5 && EvalFive(cards).value.category == 7
    ensures RankTiebreak(EvalFive(cards).value)
  {
    QuadsTiebreak(cards);
    TwoOccs(cards, EvalFive(cards).value);
  }

  lemma FullHouseRanks(cards: seq<Card>)
    requires |cards| == 5 && EvalFive(cards).value.category == 6
    ensures RankTiebreak(EvalFive(cards).value)
  {
    FullHouseTiebreak(cards);
    TwoOccs(cards, EvalFive(cards).value);
  }

  lemma TripsRanks(cards: seq<Card>)
    requires |cards| == 5 && EvalFive(cards).value.category == 3
    ensures RankTiebreak(EvalFive(cards).value)
  {
    TripsTiebreak(cards);
    ThreeOccs(cards, EvalFive(cards).value);
  }

  lemma TwoPairRanks(cards: seq<Card>)
    requires |cards| == 5 && EvalFive(cards).value.category == 2
    ensures RankTiebreak(EvalFive(cards).value)
  {
    TwoPairTiebreak(cards);
    ThreeOccs(cards, EvalFive(cards).value);
  }

  lemma PairRanks(cards: seq<Card>)
    requires |cards| == 5 && EvalFive(cards).value.category == 1
    ensures RankTiebreak(EvalFive(cards).value)
  {
    PairTiebreak(cards);
    FourOccs(cards, EvalFive(cards).value);
  }

  /** Every tiebreak evalFive builds holds at most five rank values. */
  lemma EvalFiveRankTiebreak(cards: seq<Card>)
    requires |cards| == 5
    ensures RankTiebreak(EvalFive(cards).value)
  {
    var ev := EvalFive(cards).value;
    if ev.category == 7 {
      QuadsRanks(cards);
    } else if ev.category == 6 {
      FullHouseRanks(cards);
    } else if ev.category == 3 {
      TripsRanks(cards);
    } else if ev.category == 2 {
      TwoPairRanks(cards);
    } else if ev.category == 1 {
      PairRanks(cards);
    } else if ev.category == 4 || ev.category == 8 {
      StraightRanks(cards);
    } else {
      assert RankTiebreak(ev) by {
        RanksTiebreak(cards);
        RanksInRange(cards);
      }
    }
  }

  lemma StraightRanks(cards: seq<Card>)
    requires |cards| == 5 && (EvalFive(cards).value.category == 4 || EvalFive(cards).value.category == 8)
    ensures RankTiebreak(EvalFive(cards).value)
  {
    StraightTiebreak(cards);
    StraightHighMeaning(cards);
    var h := StraightHigh(cards).value;
    if h != 3 {
      assert h in RankValues(cards);
    }
  }

  lemma RanksInRange(cards: seq<Card>)
    ensures |SortedRanksDesc(cards)| == |cards|
    ensures forall i :: 0 <= i < |cards| ==> 0 <= SortedRanksDesc(cards)[i] < 13
  {
    SortedRanksDescMeaning(cards);
    forall i | 0 <= i < |cards| ensures 0 <= SortedRanksDesc(cards)[i] < 13 {
      var v := SortedRanksDesc(cards)[i];
      assert v in multiset(SortedRanksDesc(cards));
      assert v in RankValues(cards);
    }
  }

  /** Every tiebreak evalThree builds holds at most three rank values. */
  lemma EvalThreeRankTiebreak(cards: seq<Card>)
    requires |cards| == 3
    ensures RankTiebreak(EvalThree(cards).value)
  {
    EvalThreeTiebreak(cards);
    ThreeTiebreakRanks(cards, EvalThree(cards).value);
  }

  /** The three tiebreak shapes of evalThree all hold rank values. */
  lemma ThreeTiebreakRanks(cards: seq<Card>, h: HandEval)
    requires |cards| == 3 && (h.category == 0 || h.category == 1 || h.category == 3)
    requires h.category == 3 ==> |h.tiebreak| == 1 && Occ(cards, h.tiebreak[0]) == 3
    requires h.category == 1 ==> |h.tiebreak| == 2 && Occ(cards, h.tiebreak[0]) == 2 && Occ(cards, h.tiebreak[1]) == 1
    requires h.category == 0 ==> h.tiebreak == SortedRanksDesc(cards)
    ensures RankTiebreak(h)
  {
    if h.category == 3 {
      OccRange(cards, h.tiebreak[0]);
    } else if h.category == 1 {
      OccRange(cards, h.tiebreak[0]);
      OccRange(cards, h.tiebreak[1]);
    } else {
      RanksInRange(cards);
    }
  }

  /** A five-card lane scored by `score` (0 for a lane of another size, which the search never scores). */
  function FiveScore(cards: seq<Card>, score: HandEval -> int): int {
    match EvalFive(cards)
    case Ok(ev) => score(ev)
    case Err(_) => 0
  }

  /** A three-card lane scored by `score`. */
  function ThreeScore(cards: seq<Card>, score: HandEval -> int): int {
    match EvalThree(cards)
    case Ok(ev) => score(ev)
    case Err(_) => 0
  }

  /** `strengthFive`, as written: evalToScore of the lane. */
  function StrengthFive(cards: seq<Card>): int {
    FiveScore(cards, ScoreAsWritten)
  }

  /** `strengthTop3`, as written. */
  function StrengthTop3(cards: seq<Card>): int {
    ThreeScore(cards, ScoreAsWritten)
  }

  /** The lane strength with the corrected score, whose order is compareEval's. */
  function CorrectedStrengthFive(cards: seq<Card>): int {
    FiveScore(cards, Score)
  }

  function CorrectedStrengthTop3(cards: seq<Card>): int {
    ThreeScore(cards, Score)
  }

  /** The normal objective `botS * 1e-6 + midS * 1e-12 + topS * 1e-18` over real numbers, times 10^18. */
  function NormalOf(bot: int, mid: int, top: int): int {
    bot * 1_000_000_000_000 + mid * 1_000_000 + top
  }

  /**
   * The competitive objective `botS + midS * 0.92 + topS * 0.75 - max(0, botS - midS) * 0.00001`
   * over real numbers, times 10^5.
   */
  function CompetitiveOf(bot: int, mid: int, top: int): int {
    bot * 100_000 + mid * 92_000 + top * 75_000 - (if bot - mid > 0 then bot - mid else 0)
  }

  /** arrangeNormal's objective, on the strengths as written. */
  function NormalObjective(a: Arrangement): int {
    NormalOf(StrengthFive(a.bottom), StrengthFive(a.middle), StrengthTop3(a.top))
  }

  /** arrangeCompetitive's objective, on the strengths as written. */
  function CompetitiveObjective(a: Arrangement): int {
    CompetitiveOf(StrengthFive(a.bottom), StrengthFive(a.middle), StrengthTop3(a.top))
  }

  function CorrectedNormalObjective(a: Arrangement): int {
    NormalOf(CorrectedStrengthFive(a.bottom), CorrectedStrengthFive(a.middle), CorrectedStrengthTop3(a.top))
  }

  function CorrectedCompetitiveObjective(a: Arrangement): int {
    CompetitiveOf(CorrectedStrengthFive(a.bottom), CorrectedStrengthFive(a.middle), CorrectedStrengthTop3(a.top))
  }

  /** With the corrected score, the lane strengths of a valid arrangement never increase from bottom to top. */
  lemma CorrectedLaneStrengths(a: Arrangement)
    requires ValidCandidate(a)
    ensures CorrectedStrengthFive(a.bottom) >= CorrectedStrengthFive(a.middle) >= CorrectedStrengthTop3(a.top)
  {
    IsValidArrangementMeaning(a);
    var bot, mid, top := EvalFive(a.bottom).value, EvalFive(a.middle).value, EvalThree(a.top).value;
    EvalFiveRankTiebreak(a.bottom);
    EvalFiveRankTiebreak(a.middle);
    EvalThreeRankTiebreak(a.top);
    CompareEvalMeaning(bot, mid);
    CompareEvalMeaning(mid, top);
    ScoreOrder(bot, mid);
    ScoreOrder(mid, top);
  }

  /** With the corrected score, the balance penalty on a valid arrangement is exactly the bottom's lead over the middle. */
  lemma CorrectedCompetitivePenalty(a: Arrangement)
    requires ValidCandidate(a)
    ensures CorrectedCompetitiveObjective(a) ==
      CorrectedStrengthFive(a.bottom) * 99_999 + CorrectedStrengthFive(a.middle) * 92_001 + CorrectedStrengthTop3(a.top) * 75_000
  {
    CorrectedLaneStrengths(a);
  }

  // ---------------------------------------------------------------------------
  // A valid arrangement whose strengths, as written, increase from bottom to middle:
  // for instance 2♠ 2♥ 3♦ 4♣ 6♠ at the bottom, A♥ K♠ Q♦ J♣ 9♥ in the middle, 5♠ 7♥ 8♦ on top
  // ---------------------------------------------------------------------------

  /** A descending listing of values that include `top` and never exceed it starts with `top`. */
  lemma DescendingHead(s: seq<int>, vals: seq<int>, top: int)
    requires multiset(s) == multiset(vals) && top in vals && forall x :: x in vals ==> x <= top
    requires forall i, j :: 0 <= i < j < |s| ==> s[i] >= s[j]
    ensures |s| > 0 && s[0] == top
  {
    assert top in multiset(s);
    var i :| 0 <= i < |s| && s[i] == top;
    assert s[0] in multiset(vals);
    assert s[0] in vals;
    if i > 0 {
      assert s[0] >= s[i];
    }
  }

  /** Five cards, not all of one suit, no straight and no rank twice: high card. */
  lemma HighCardCategory(cards: seq<Card>)
    requires |cards| == 5 && !IsFlush(cards) && StraightHigh(cards) == None
    requires forall v :: Occ(cards, v) <= 1
    ensures EvalFive(cards).value.category == 0
  {
    EvalFiveCategory(cards);
  }

  /** Five cards, not all of one suit, no straight, rank `p` twice and no other rank more than once: one pair. */
  lemma OnePairCategory(cards: seq<Card>, p: int)
    requires |cards| == 5 && !IsFlush(cards) && StraightHigh(cards) == None
    requires Occ(cards, p) == 2 && forall v :: v != p ==> Occ(cards, v) <= 1
    ensures EvalFive(cards).value.category == 1 && |EvalFive(cards).value.tiebreak| == 4
    ensures EvalFive(cards).value.tiebreak[0] == p
  {
    EvalFiveCategory(cards);
    assert HasCount(cards, 2);
    PairTiebreak(cards);
  }

  /** A high-card tiebreak starts with the highest rank. */
  lemma HighCardLead(cards: seq<Card>, top: int)
    requires top in RankValues(cards) && forall x :: x in RankValues(cards) ==> x <= top
    ensures |SortedRanksDesc(cards)| > 0 && SortedRanksDesc(cards)[0] == top
  {
    SortedRanksDescMeaning(cards);
    DescendingHead(SortedRanksDesc(cards), RankValues(cards), top);
  }

  /** Ranks with neither a five nor an ace, none above a six: no straight. */
  lemma NoStraightBelowSix(vals: seq<int>, h: int)
    requires 3 !in vals && 12 !in vals && forall x :: x in vals ==> x <= 4
    ensures !IsStraight(vals, h)
  {
    assert 12 in Wheel;
    assert h in vals ==> h <= 4;
  }

  /** Ranks holding an ace and a nine but neither a two nor a ten make no straight. */
  lemma NoStraightWithGap(vals: seq<int>, h: int)
    requires 12 in vals && 7 in vals && 8 !in vals && 0 !in vals
    ensures !IsStraight(vals, h)
  {
  }

  /** A pair of twos with a three, a four and a six, not all of one suit: one pair, of twos. */
  lemma PairOfTwosEval(b: seq<Card>)
    requires RankValues(b) == [0, 0, 1, 2, 4] && b[0].suit != b[1].suit
    ensures |b| == 5 && EvalFive(b).value.category == 1
    ensures |EvalFive(b).value.tiebreak| == 4 && EvalFive(b).value.tiebreak[0] == 0
  {
    assert Occ(b, 0) == 2 && forall v :: v != 0 ==> Occ(b, v) <= 1;
    forall h ensures !IsStraight(RankValues(b), h) {
      NoStraightBelowSix(RankValues(b), h);
    }
    StraightHighMeaning(b);
    assert !IsFlush(b);
    OnePairCategory(b, 0);
  }

  /** Five cards of distinct ranks, not all of one suit and no straight, led by `top`: high card, `top` first. */
  lemma HighCardEval(cards: seq<Card>, top: int)
    requires |cards| == 5 && !IsFlush(cards) && StraightHigh(cards) == None
    requires forall v :: Occ(cards, v) <= 1
    requires top in RankValues(cards) && forall x :: x in RankValues(cards) ==> x <= top
    ensures EvalFive(cards).value.category == 0
    ensures |EvalFive(cards).value.tiebreak| == 5 && EvalFive(cards).value.tiebreak[0] == top
  {
    HighCardCategory(cards);
    RanksTiebreak(cards);
    HighCardLead(cards, top);
  }

  lemma AceHighNoStraight(m: seq<Card>)
    requires RankValues(m) == [12, 11, 10, 9, 7]
    ensures StraightHigh(m) == None
  {
    forall h ensures !IsStraight(RankValues(m), h) {
      NoStraightWithGap(RankValues(m), h);
    }
    StraightHighMeaning(m);
  }

  lemma AceHighCounts(m: seq<Card>)
    requires RankValues(m) == [12, 11, 10, 9, 7]
    ensures forall v :: Occ(m, v) <= 1
  {
  }

  /** Ace, king, queen, jack, nine, not all of one suit: ace high. */
  lemma AceHighEval(m: seq<Card>)
    requires RankValues(m) == [12, 11, 10, 9, 7] && m[0].suit != m[1].suit
    ensures |m| == 5 && EvalFive(m).value.category == 0
    ensures |EvalFive(m).value.tiebreak| == 5 && EvalFive(m).value.tiebreak[0] == 12
  {
    AceHighCounts(m);
    AceHighNoStraight(m);
    assert !IsFlush(m);
    HighCardEval(m, 12);
  }

  /** Three cards of distinct ranks led by `top`: high card, `top` first. */
  lemma HighCardThree(cards: seq<Card>, top: int)
    requires |cards| == 3 && forall v :: Occ(cards, v) <= 1
    requires top in RankValues(cards) && forall x :: x in RankValues(cards) ==> x <= top
    ensures EvalThree(cards).value.category == 0
    ensures |EvalThree(cards).value.tiebreak| == 3 && EvalThree(cards).value.tiebreak[0] == top
  {
    EvalThreeCategory(cards);
    EvalThreeTiebreak(cards);
    HighCardLead(cards, top);
  }

  lemma EightHighCounts(t: seq<Card>)
    requires RankValues(t) == [3, 5, 6]
    ensures forall v :: Occ(t, v) <= 1
  {
  }

  /** Five, seven, eight on top: eight high. */
  lemma EightHighEval(t: seq<Card>)
    requires RankValues(t) == [3, 5, 6]
    ensures |t| == 3 && EvalThree(t).value.category == 0
    ensures |EvalThree(t).value.tiebreak| == 3 && EvalThree(t).value.tiebreak[0] == 6
  {
    EightHighCounts(t);
    HighCardThree(t, 6);
  }

  /** The lane evaluations of the arrangement below: one pair of twos, ace high, eight high. */
  predicate InvertedLanes(bot: HandEval, mid: HandEval, top: HandEval) {
    && bot.category == 1 && |bot.tiebreak| == 4 && bot.tiebreak[0] == 0
    && mid.category == 0 && |mid.tiebreak| == 5 && mid.tiebreak[0] == 12
    && top.category == 0 && |top.tiebreak| == 3 && top.tiebreak[0] == 6
  }

  lemma InvertedLanesOrdered(bot: HandEval, mid: HandEval, top: HandEval)
    requires InvertedLanes(bot, mid, top)
    ensures CompareEval(bot, mid) > 0 && CompareEval(mid, top) > 0
  {
  }

  /** With the bottom scoring below the middle, the competitive objective charges no penalty. */
  lemma CompetitiveNoPenalty(bot: int, mid: int, top: int)
    requires bot < mid
    ensures CompetitiveOf(bot, mid, top) != bot * 99_999 + mid * 92_001 + top * 75_000
  {
  }

  /**
   * Pair of twos at the bottom, ace high in the middle, eight high on top is a valid arrangement,
   * yet as written the middle outscores the bottom, and the competitive objective then charges no
   * balance penalty where the corrected one charges the bottom's lead.
   */
  lemma LaneStrengthsAsWrittenInverted(a: Arrangement)
    requires RankValues(a.bottom) == [0, 0, 1, 2, 4] && a.bottom[0].suit != a.bottom[1].suit
    requires RankValues(a.middle) == [12, 11, 10, 9, 7] && a.middle[0].suit != a.middle[1].suit
    requires RankValues(a.top) == [3, 5, 6]
    ensures ValidCandidate(a)
    ensures StrengthFive(a.bottom) < StrengthFive(a.middle)
    ensures CompetitiveObjective(a) != StrengthFive(a.bottom) * 99_999 + StrengthFive(a.middle) * 92_001 + StrengthTop3(a.top) * 75_000
  {
    PairOfTwosEval(a.bottom);
    AceHighEval(a.middle);
    EightHighEval(a.top);
    InvertedArrangement(a);
  }

  /** Any arrangement whose lanes evaluate as above is valid and, as written, scores its middle above its bottom. */
  lemma InvertedArrangement(a: Arrangement)
    requires HasLaneSizes(a)
    requires InvertedLanes(EvalFive(a.bottom).value, EvalFive(a.middle).value, EvalThree(a.top).value)
    ensures ValidCandidate(a)
    ensures StrengthFive(a.bottom) < StrengthFive(a.middle)
    ensures CompetitiveObjective(a) != StrengthFive(a.bottom) * 99_999 + StrengthFive(a.middle) * 92_001 + StrengthTop3(a.top) * 75_000
  {
    var bot, mid, top := EvalFive(a.bottom).value, EvalFive(a.middle).value, EvalThree(a.top).value;
    InvertedLanesOrdered(bot, mid, top);
    EvalFiveRankTiebreak(a.bottom);
    EvalFiveRankTiebreak(a.middle);
    EvalToScoreMisorders(bot, mid);
    CompetitiveNoPenalty(StrengthFive(a.bottom), StrengthFive(a.middle), StrengthTop3(a.top));
  }

  /** arrangeNormal, as written. */
  method ArrangeNormal(hand: seq<Card>) returns (a: Arrangement)
    ensures a == PickBest(hand, NormalObjective)
  {
    a := PickBestArrangementExhaustive(hand, NormalObjective);
  }

  /** arrangeCompetitive, as written. */
  method ArrangeCompetitive(hand: seq<Card>) returns (a: Arrangement)
    ensures a == PickBest(hand, CompetitiveObjective)
  {
    a := PickBestArrangementExhaustive(hand, CompetitiveObjective);
  }

  /** arrangeNormal with the corrected score. */
  method ArrangeNormalCorrected(hand: seq<Card>) returns (a: Arrangement)
    ensures a == PickBest(hand, CorrectedNormalObjective)
  {
    a := PickBestArrangementExhaustive(hand, CorrectedNormalObjective);
  }

  /** arrangeCompetitive with the corrected score. */
  method ArrangeCompetitiveCorrected(hand: seq<Card>) returns (a: Arrangement)
    ensures a == PickBest(hand, CorrectedCompetitiveObjective)
  {
    a := PickBestArrangementExhaustive(hand, CorrectedCompetitiveObjective);
  }
}
