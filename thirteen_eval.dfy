/**
 * The server's thirteen-lanes hand evaluator and arrangement validator
 * (server/utils/thirteenEval.js). A 3- or 5-card lane is classified into a category
 * (0 high card .. 8 straight flush) and a tiebreak list, and two evaluations are
 * ordered by category, then lexicographically by tiebreak with a missing entry read
 * as -1.
 */
module ThirteenEval {

  import opened Wrappers
  import opened Sorting
  import opened Cards

  datatype HandEval = HandEval(category: int, tiebreak: seq<int>)

  /** `s[i] ?? -1`. */
  function At(s: seq<int>, i: int): int {
    if 0 <= i < |s| then s[i] else -1
  }

  function Max(x: int, y: int): int {
    if x >= y then x else y
  }

  /** The loop of compareEval from position `i` up to `n`. */
  function CompareFrom(a: seq<int>, b: seq<int>, i: nat, n: nat): int
    decreases n - i
  {
    if i >= n then 0
    else if At(a, i) != At(b, i) then At(a, i) - At(b, i)
    else CompareFrom(a, b, i + 1, n)
  }

  /** Positive when `a` is stronger, negative when `b` is, zero on a tie. */
  function CompareEval(a: HandEval, b: HandEval): int {
    if a.category != b.category then a.category - b.category
    else CompareFrom(a.tiebreak, b.tiebreak, 0, Max(|a.tiebreak|, |b.tiebreak|))
  }

  // ---------------------------------------------------------------------------
  // The order compareEval means, stated without its loop
  // ---------------------------------------------------------------------------

  ghost predicate AgreeUpTo(x: seq<int>, y: seq<int>, k: int) {
    forall i :: 0 <= i < k ==> At(x, i) == At(y, i)
  }

  /** `a` beats `b`: a higher category, or the same one and a higher padded tiebreak at the first difference. */
  ghost predicate Outranks(a: HandEval, b: HandEval) {
    || a.category > b.category
    || (&& a.category == b.category
        && exists k :: 0 <= k < Max(|a.tiebreak|, |b.tiebreak|) && AgreeUpTo(a.tiebreak, b.tiebreak, k)
                       && At(a.tiebreak, k) > At(b.tiebreak, k))
  }

  /** Same category and the same padded tiebreak at every position. */
  ghost predicate Ties(a: HandEval, b: HandEval) {
    a.category == b.category && AgreeUpTo(a.tiebreak, b.tiebreak, Max(|a.tiebreak|, |b.tiebreak|))
  }

  lemma {:induction false} CompareFromMeaning(a: seq<int>, b: seq<int>, i: nat, n: nat)
    requires i <= n && AgreeUpTo(a, b, i)
    ensures CompareFrom(a, b, i, n) == 0 <==> AgreeUpTo(a, b, n)
    ensures CompareFrom(a, b, i, n) > 0 <==> exists k :: i <= k < n && AgreeUpTo(a, b, k) && At(a, k) > At(b, k)
    ensures CompareFrom(a, b, i, n) < 0 <==> exists k :: i <= k < n && AgreeUpTo(a, b, k) && At(a, k) < At(b, k)
    decreases n - i
  {
    if i < n {
      if At(a, i) == At(b, i) {
        assert AgreeUpTo(a, b, i + 1);
        CompareFromMeaning(a, b, i + 1, n);
        forall k | i <= k < n && AgreeUpTo(a, b, k) && At(a, k) != At(b, k)
          ensures i + 1 <= k
        {
        }
      } else {
        forall k | i < k <= n
          ensures !AgreeUpTo(a, b, k)
        {
          assert 0 <= i < k && At(a, i) != At(b, i);
        }
      }
    }
  }

  /** compareEval's sign is exactly the order Outranks / Ties describes. */
  lemma CompareEvalMeaning(a: HandEval, b: HandEval)
    ensures CompareEval(a, b) > 0 <==> Outranks(a, b)
    ensures CompareEval(a, b) == 0 <==> Ties(a, b)
    ensures CompareEval(a, b) < 0 <==> Outranks(b, a)
  {
    var n := Max(|a.tiebreak|, |b.tiebreak|);
    assert Max(|b.tiebreak|, |a.tiebreak|) == n;
    CompareFromMeaning(a.tiebreak, b.tiebreak, 0, n);
    if a.category == b.category {
      forall k | 0 <= k < n && AgreeUpTo(b.tiebreak, a.tiebreak, k)
        ensures AgreeUpTo(a.tiebreak, b.tiebreak, k)
      {
      }
      forall k | 0 <= k < n && AgreeUpTo(a.tiebreak, b.tiebreak, k)
        ensures AgreeUpTo(b.tiebreak, a.tiebreak, k)
      {
      }
    }
  }

  lemma {:induction false} CompareFromAntisymmetric(a: seq<int>, b: seq<int>, i: nat, n: nat)
    ensures CompareFrom(a, b, i, n) == -CompareFrom(b, a, i, n)
    decreases n - i
  {
    if i < n && At(a, i) == At(b, i) {
      CompareFromAntisymmetric(a, b, i + 1, n);
    }
  }

  /** Swapping the arguments negates the result. */
  lemma CompareEvalAntisymmetric(a: HandEval, b: HandEval)
    ensures CompareEval(a, b) == -CompareEval(b, a)
  {
    assert Max(|a.tiebreak|, |b.tiebreak|) == Max(|b.tiebreak|, |a.tiebreak|);
    CompareFromAntisymmetric(a.tiebreak, b.tiebreak, 0, Max(|a.tiebreak|, |b.tiebreak|));
  }

  /** Past both lengths every position reads -1 on both sides, so the bound does not matter. */
  lemma {:induction false} CompareFromBound(a: seq<int>, b: seq<int>, i: nat, n: nat, m: nat)
    requires n >= Max(|a|, |b|) && m >= Max(|a|, |b|)
    ensures CompareFrom(a, b, i, n) == CompareFrom(a, b, i, m)
    decreases Max(n, m) - i
  {
    if i < n || i < m {
      if i < Max(|a|, |b|) {
        if At(a, i) == At(b, i) {
          CompareFromBound(a, b, i + 1, n, m);
        }
      } else {
        assert At(a, i) == -1 == At(b, i);
        CompareFromBound(a, b, i + 1, n, m);
      }
    }
  }

  lemma {:induction false} CompareFromTransitive(a: seq<int>, b: seq<int>, c: seq<int>, i: nat, n: nat)
    requires CompareFrom(a, b, i, n) >= 0 && CompareFrom(b, c, i, n) >= 0
    ensures CompareFrom(a, c, i, n) >= 0
    decreases n - i
  {
    if i < n && At(a, i) == At(b, i) && At(b, i) == At(c, i) {
      CompareFromTransitive(a, b, c, i + 1, n);
    }
  }

  /** "At least as strong" is transitive. */
  lemma CompareEvalTransitive(a: HandEval, b: HandEval, c: HandEval)
    requires CompareEval(a, b) >= 0 && CompareEval(b, c) >= 0
    ensures CompareEval(a, c) >= 0
  {
    if a.category == b.category == c.category {
      var n := Max(Max(|a.tiebreak|, |b.tiebreak|), |c.tiebreak|);
      CompareFromBound(a.tiebreak, b.tiebreak, 0, Max(|a.tiebreak|, |b.tiebreak|), n);
      CompareFromBound(b.tiebreak, c.tiebreak, 0, Max(|b.tiebreak|, |c.tiebreak|), n);
      CompareFromBound(a.tiebreak, c.tiebreak, 0, Max(|a.tiebreak|, |c.tiebreak|), n);
      CompareFromTransitive(a.tiebreak, b.tiebreak, c.tiebreak, 0, n);
    }
  }

  // ---------------------------------------------------------------------------
  // countsByRank: a Map from rank value to count, in first-seen order
  // ---------------------------------------------------------------------------

  /** One entry `[rank, count]` of the rank-count Map. */
  datatype Entry = Entry(rank: int, count: int)

  function Keys(m: seq<Entry>): set<int> {
    if m == [] then {} else {m[0].rank} + Keys(m[1..])
  }

  /** A Map holds each key once. */
  ghost predicate UniqueRanks(m: seq<Entry>) {
    m == [] || (m[0].rank !in Keys(m[1..]) && UniqueRanks(m[1..]))
  }

  ghost predicate Positive(m: seq<Entry>) {
    forall i :: 0 <= i < |m| ==> m[i].count > 0
  }

  /** `m.get(v) ?? 0`. */
  function Lookup(m: seq<Entry>, v: int): (r: int)
    ensures v !in Keys(m) ==> r == 0
    ensures Positive(m) && v in Keys(m) ==> r > 0
  {
    if m == [] then 0 else if m[0].rank == v then m[0].count else Lookup(m[1..], v)
  }

  /** The sum of all counts. */
  function Total(m: seq<Entry>): int {
    if m == [] then 0 else m[0].count + Total(m[1..])
  }

  /** `m.set(v, (m.get(v) ?? 0) + 1)`: a key already present keeps its place, a new key goes last. */
  function Bump(m: seq<Entry>, v: int): (r: seq<Entry>)
    ensures Lookup(r, v) == Lookup(m, v) + 1
    ensures forall w :: w != v ==> Lookup(r, w) == Lookup(m, w)
    ensures Keys(r) == Keys(m) + {v}
    ensures |r| == if v in Keys(m) then |m| else |m| + 1
    ensures Total(r) == Total(m) + 1
    ensures UniqueRanks(m) ==> UniqueRanks(r)
    ensures Positive(m) ==> Positive(r)
  {
    if m == [] then [Entry(v, 1)]
    else if m[0].rank == v then [Entry(v, m[0].count + 1)] + m[1..]
    else
      var r := [m[0]] + Bump(m[1..], v);
      assert r[1..] == Bump(m[1..], v);
      r
  }

  lemma RankValuesSnoc(cards: seq<Card>)
    requires cards != []
    ensures RankValues(cards) == RankValues(cards[..|cards| - 1]) + [RankValue(cards[|cards| - 1].rank)]
  {
  }

  /** The Map built by countsByRank: each rank value present once, with its number of cards. */
  function CountsByRank(cards: seq<Card>): (m: seq<Entry>)
    ensures UniqueRanks(m) && Positive(m)
    ensures forall v :: Lookup(m, v) == Occ(cards, v)
    ensures Total(m) == |cards|
  {
    if cards == [] then []
    else
      var last := |cards| - 1;
      RankValuesSnoc(cards);
      Bump(CountsByRank(cards[..last]), RankValue(cards[last].rank))
  }

  /** countsByRank has one entry per distinct rank value, as many as `new Set(values)` has elements. */
  lemma {:induction false} CountsByRankLength(cards: seq<Card>)
    ensures |CountsByRank(cards)| == |Dedup(RankValues(cards))|
  {
    if cards != [] {
      var last := |cards| - 1;
      var v := RankValue(cards[last].rank);
      var prefix := cards[..last];
      CountsByRankLength(prefix);
      RankValuesSnoc(cards);
      var s := RankValues(cards);
      assert s[..|s| - 1] == RankValues(prefix);
      var m := CountsByRank(prefix);
      assert v in Keys(m) <==> Lookup(m, v) > 0;
      assert Lookup(m, v) > 0 <==> v in multiset(RankValues(prefix));
      assert v in multiset(RankValues(prefix)) <==> v in Dedup(RankValues(prefix)) by {
        assert v in Dedup(RankValues(prefix)) <==> v in multiset(Dedup(RankValues(prefix)));
      }
    }
  }

  /** With unique keys and positive counts, an entry occurs once exactly when it records its key's count. */
  lemma {:induction false} EntryMultiset(m: seq<Entry>, e: Entry)
    requires UniqueRanks(m) && Positive(m)
    ensures multiset(m)[e] == if e.count > 0 && Lookup(m, e.rank) == e.count then 1 else 0
  {
    if m != [] {
      assert m == [m[0]] + m[1..];
      assert Positive(m[1..]) by {
        forall i | 0 <= i < |m[1..]| ensures m[1..][i].count > 0 {
          assert m[1..][i] == m[i + 1];
        }
      }
      EntryMultiset(m[1..], e);
      assert m[0].count > 0;
    }
  }

  /** Every entry of countsByRank is determined by the multiset of rank values alone. */
  lemma CountsByRankMultiset(cards: seq<Card>, e: Entry)
    ensures multiset(CountsByRank(cards))[e] == if e.count > 0 && Occ(cards, e.rank) == e.count then 1 else 0
  {
    EntryMultiset(CountsByRank(cards), e);
  }

  lemma OccPermutation(a: seq<Card>, b: seq<Card>)
    requires multiset(a) == multiset(b)
    ensures forall v :: Occ(a, v) == Occ(b, v)
  {
    MapPermutation((c: Card) => RankValue(c.rank), a, b);
  }

  /** `(a, b) => (b[1] - a[1]) || (b[0] - a[0])` is at most zero: count descending, then rank descending. */
  predicate EntryFirst(a: Entry, b: Entry) {
    a.count > b.count || (a.count == b.count && a.rank >= b.rank)
  }

  lemma EntryFirstOrder()
    ensures TotalPreorder(EntryFirst) && Antisymmetric(EntryFirst)
  {
  }

  /** countsByRank's entries after `entries.sort(...)`. */
  function SortedEntries(cards: seq<Card>): seq<Entry> {
    SortBy(CountsByRank(cards), EntryFirst)
  }

  lemma {:induction false} TotalInsert(x: Entry, s: seq<Entry>, le: (Entry, Entry) -> bool)
    ensures Total(Insert(x, s, le)) == x.count + Total(s)
  {
    if s != [] && !le(x, s[0]) {
      TotalInsert(x, s[1..], le);
      var r := Insert(x, s, le);
      assert r[1..] == Insert(x, s[1..], le);
    }
  }

  lemma {:induction false} TotalSortBy(s: seq<Entry>, le: (Entry, Entry) -> bool)
    ensures Total(SortBy(s, le)) == Total(s)
  {
    if s != [] {
      TotalSortBy(s[1..], le);
      TotalInsert(s[0], SortBy(s[1..], le), le);
    }
  }

  /** The sorted entries are ordered, count every card once, and record each rank's multiplicity. */
  lemma EntriesFacts(cards: seq<Card>)
    ensures var e := SortedEntries(cards);
      && SortedBy(e, EntryFirst)
      && Total(e) == |cards|
      && (forall i :: 0 <= i < |e| ==> e[i].count > 0 && Occ(cards, e[i].rank) == e[i].count)
  {
    var m := CountsByRank(cards);
    var e := SortedEntries(cards);
    EntryFirstOrder();
    SortBySorted(m, EntryFirst);
    TotalSortBy(m, EntryFirst);
    forall i | 0 <= i < |e| ensures e[i].count > 0 && Occ(cards, e[i].rank) == e[i].count {
      CountsByRankMultiset(cards, e[i]);
      assert e[i] in multiset(e);
    }
  }

  /** Every rank that occurs has its entry. */
  lemma EntriesMembership(cards: seq<Card>, x: Entry)
    ensures x in SortedEntries(cards) <==> x.count > 0 && Occ(cards, x.rank) == x.count
  {
    CountsByRankMultiset(cards, x);
    assert x in SortedEntries(cards) <==> x in multiset(SortedEntries(cards));
  }

  /** No rank has two entries. */
  lemma EntriesDistinct(cards: seq<Card>)
    ensures var e := SortedEntries(cards);
      forall i, j :: 0 <= i < j < |e| ==> e[i].rank != e[j].rank
  {
    var e := SortedEntries(cards);
    EntriesFacts(cards);
    forall i, j | 0 <= i < j < |e| ensures e[i].rank != e[j].rank {
      if e[i] == e[j] {
        DuplicateCount(e, i, j);
        CountsByRankMultiset(cards, e[i]);
      }
    }
  }

  lemma {:induction false} TotalAtLeast(s: seq<Entry>, i: int)
    requires Positive(s) && 0 <= i <= |s|
    ensures Total(s) >= Total(s[..i]) + |s| - i
    ensures i == |s| ==> Total(s) == Total(s[..i])
  {
    if i > 0 {
      assert s[1..][..i - 1] == s[..i][1..];
      assert Positive(s[1..]) by {
        forall k | 0 <= k < |s[1..]| ensures s[1..][k].count > 0 {
          assert s[1..][k] == s[k + 1];
        }
      }
      TotalAtLeast(s[1..], i - 1);
    } else if s != [] {
      assert Positive(s[1..]) by {
        forall k | 0 <= k < |s[1..]| ensures s[1..][k].count > 0 {
          assert s[1..][k] == s[k + 1];
        }
      }
      TotalAtLeast(s[1..], 0);
    }
  }

  /** The reads of entries[1] and entries[2] in evalFive and evalThree stay in bounds, whatever the cards. */
  lemma EntriesBounds(cards: seq<Card>)
    requires |cards| > 0
    ensures EntriesFit(SortedEntries(cards), |cards|)
  {
    var e := SortedEntries(cards);
    EntriesFacts(cards);
    assert Positive(e);
    TotalAtLeast(e, |e|);
    if |e| == 1 {
      assert e[..1] == [e[0]];
    } else if |e| == 2 {
      assert e[..2] == [e[0], e[1]];
      assert [e[0], e[1]][1..] == [e[1]];
      assert Total([e[1]]) == e[1].count;
      assert Total(e[..2]) == e[0].count + e[1].count;
    }
  }

  // ---------------------------------------------------------------------------
  // sortedRanksDesc, isFlush, straightHigh
  // ---------------------------------------------------------------------------

  /** `(a, b) => b - a` is at most zero. */
  predicate Desc(a: int, b: int) {
    a >= b
  }

  /** `(a, b) => a - b` is at most zero. */
  predicate Asc(a: int, b: int) {
    a <= b
  }

  predicate Lt(a: int, b: int) {
    a < b
  }

  lemma DescOrder()
    ensures TotalPreorder(Desc) && Antisymmetric(Desc)
  {
  }

  lemma AscOrder()
    ensures TotalPreorder(Asc) && Antisymmetric(Asc)
  {
  }

  lemma LtOrder()
    ensures StrictTotalOrder(Lt)
  {
  }

  /** The cards' rank values, highest first. */
  function SortedRanksDesc(cards: seq<Card>): seq<int> {
    SortBy(RankValues(cards), Desc)
  }

  /** Every card has the suit of the first. */
  predicate IsFlush(cards: seq<Card>) {
    forall i :: 0 <= i < |cards| ==> cards[i].suit == cards[0].suit
  }

  /** `new Set(values)`, listed in insertion order. */
  function Dedup(s: seq<int>): (r: seq<int>)
    ensures forall x :: multiset(r)[x] == if x in s then 1 else 0
  {
    if s == [] then []
    else
      var d := Dedup(s[..|s| - 1]);
      assert s == s[..|s| - 1] + [s[|s| - 1]];
      if s[|s| - 1] in d then d else d + [s[|s| - 1]]
  }

  /** The wheel A-2-3-4-5 as rank values. */
  const Wheel: seq<int> := [0, 1, 2, 3, 12]

  predicate Consecutive(s: seq<int>) {
    forall i :: 1 <= i < |s| ==> s[i] == s[i - 1] + 1
  }

  /** The distinct rank values in ascending order. */
  function Uniq(cards: seq<Card>): seq<int> {
    SortBy(Dedup(RankValues(cards)), Asc)
  }

  /**
   * The straight's high rank value, or None. Only ever called on five cards; the empty
   * list, for which the source would read `uniq[-1]`, is excluded.
   */
  function StraightHigh(cards: seq<Card>): Option<int>
    requires |cards| > 0
  {
    StraightOf(Uniq(cards), |cards|)
  }

  /** straightHigh's tests on `uniq` for a list of `n > 0` cards. */
  function StraightOf(uniq: seq<int>, n: int): Option<int>
    requires n > 0
  {
    if |uniq| != n then None
    else if |uniq| == 5 && forall w :: w in Wheel ==> w in uniq then Some(3)
    else if Consecutive(uniq) then Some(uniq[|uniq| - 1])
    else None
  }

  /** What a straight is, on the set of rank values: the wheel (high 3) or five consecutive ranks. */
  ghost predicate IsStraight(vals: seq<int>, h: int) {
    || (h == 3 && forall v :: v in vals <==> v in Wheel)
    || (4 <= h && forall v :: v in vals <==> h - 4 <= v <= h)
  }

  lemma UniqFacts(cards: seq<Card>)
    ensures var u := Uniq(cards);
      && (forall x :: x in u <==> x in RankValues(cards))
      && StrictlyAscending(u)
      && (forall i :: 0 <= i < |u| ==> 0 <= u[i] < 13)
  {
    var rv := RankValues(cards);
    var d := Dedup(rv);
    var u := SortBy(d, Asc);
    AscOrder();
    SortBySorted(d, Asc);
    SortedOnceStrict(u);
    OnceMembers(rv, u);
    forall i | 0 <= i < |u| ensures 0 <= u[i] < 13 {
      assert u[i] in rv;
    }
  }

  /** A sorted sequence holding every value at most once is strictly ascending. */
  lemma SortedOnceStrict(u: seq<int>)
    requires SortedBy(u, Asc) && forall x :: multiset(u)[x] <= 1
    ensures StrictlyAscending(u)
  {
    forall i, j | 0 <= i < j < |u| ensures u[i] < u[j] {
      assert Asc(u[i], u[j]);
      if u[i] == u[j] {
        DuplicateCount(u, i, j);
      }
    }
  }

  /** A sequence holding each value of `s` once, and nothing else, has the members of `s`. */
  lemma OnceMembers(s: seq<int>, u: seq<int>)
    requires forall x :: multiset(u)[x] == if x in s then 1 else 0
    ensures forall x :: x in u <==> x in s
  {
    forall x ensures x in u <==> x in s {
      assert x in u <==> x in multiset(u);
    }
  }

  ghost predicate StrictlyAscending(u: seq<int>) {
    forall i, j :: 0 <= i < j < |u| ==> u[i] < u[j]
  }

  lemma WheelListing(u: seq<int>)
    requires |u| == 5 && StrictlyAscending(u) && forall i :: 0 <= i < 5 ==> 0 <= u[i] < 13
    requires forall w :: w in Wheel ==> w in u
    ensures u == Wheel
  {
    assert 12 in Wheel && 0 in Wheel && 1 in Wheel && 2 in Wheel && 3 in Wheel;
    assert u[4] == 12;
    assert u[0] == 0;
    assert u[1] == 1;
    assert u[2] == 2;
    assert u[3] == 3;
  }

  lemma RunListing(u: seq<int>)
    requires |u| == 5 && Consecutive(u) && forall i :: 0 <= i < 5 ==> 0 <= u[i] < 13
    ensures 4 <= u[4] && forall v :: v in u <==> u[4] - 4 <= v <= u[4]
  {
    assert u[1] == u[0] + 1 && u[2] == u[0] + 2 && u[3] == u[0] + 3 && u[4] == u[0] + 4;
    assert u == [u[0], u[0] + 1, u[0] + 2, u[0] + 3, u[0] + 4];
  }

  lemma StraightOfSound(u: seq<int>, vals: seq<int>)
    requires StrictlyAscending(u) && forall i :: 0 <= i < |u| ==> 0 <= u[i] < 13
    requires forall x :: x in u <==> x in vals
    ensures StraightOf(u, 5).Some? ==> IsStraight(vals, StraightOf(u, 5).value)
  {
    if |u| == 5 {
      if forall w :: w in Wheel ==> w in u {
        WheelListing(u);
      } else if Consecutive(u) {
        RunListing(u);
      }
    }
  }

  lemma StraightOfComplete(u: seq<int>, vals: seq<int>, h: int)
    requires StrictlyAscending(u)
    requires forall x :: x in u <==> x in vals
    requires IsStraight(vals, h)
    ensures StraightOf(u, 5) == Some(h)
  {
    var run := StraightRun(vals, h);
    AscendingBySet(u, run);
  }

  /** The five rank values of a straight, ascending. */
  lemma StraightRun(vals: seq<int>, h: int) returns (run: seq<int>)
    requires IsStraight(vals, h)
    ensures StrictlyAscending(run) && forall x :: x in run <==> x in vals
    ensures StraightOf(run, 5) == Some(h)
  {
    if h == 3 && forall v :: v in vals <==> v in Wheel {
      run := Wheel;
    } else {
      run := [h - 4, h - 3, h - 2, h - 1, h];
      assert !(0 in run && 12 in run);
    }
  }

  /** Strictly ascending sequences with the same elements are equal. */
  lemma AscendingBySet(u: seq<int>, v: seq<int>)
    requires StrictlyAscending(u) && StrictlyAscending(v)
    requires forall x :: x in u <==> x in v
    ensures u == v
  {
    LtOrder();
    assert StrictlySortedBy(u, Lt) by {
      forall i, j | 0 <= i < j < |u| ensures Lt(u[i], u[j]) { }
    }
    assert StrictlySortedBy(v, Lt) by {
      forall i, j | 0 <= i < j < |v| ensures Lt(v[i], v[j]) { }
    }
    forall x ensures x in u <==> x in v {
      assert x in u ==> x in v;
      assert x in v ==> x in u;
    }
    StrictlySortedUnique(u, v, Lt);
  }

  /** straightHigh names exactly the straights: the wheel as 3, otherwise the top of five consecutive ranks. */
  lemma StraightHighMeaning(cards: seq<Card>)
    requires |cards| == 5
    ensures StraightHigh(cards).Some? ==> IsStraight(RankValues(cards), StraightHigh(cards).value)
    ensures forall h :: IsStraight(RankValues(cards), h) ==> StraightHigh(cards) == Some(h)
  {
    UniqFacts(cards);
    StraightOfSound(Uniq(cards), RankValues(cards));
    forall h | IsStraight(RankValues(cards), h) ensures StraightHigh(cards) == Some(h) {
      StraightOfComplete(Uniq(cards), RankValues(cards), h);
    }
  }

  /** The wheel scores 3, below every other straight. */
  lemma WheelIsLowestStraight(wheel: seq<Card>, other: seq<Card>)
    requires |wheel| == 5 && |other| == 5
    requires forall v :: v in RankValues(wheel) <==> v in Wheel
    requires StraightHigh(other).Some?
    requires exists v :: v in RankValues(other) && v !in Wheel
    ensures StraightHigh(wheel) == Some(3)
    ensures StraightHigh(other).value > 3
  {
    StraightHighMeaning(wheel);
    StraightHighMeaning(other);
    assert IsStraight(RankValues(wheel), 3);
  }

  // ---------------------------------------------------------------------------
  // evalFive, evalThree
  // ---------------------------------------------------------------------------

  function Min(x: int, y: int): int {
    if x <= y then x else y
  }

  /** `entries.slice(1).map(e => e[0]).sort((a, b) => b - a)`. */
  function Kickers(entries: seq<Entry>): seq<int>
    requires |entries| >= 1
  {
    SortBy(Map((e: Entry) => e.rank, entries[1..]), Desc)
  }

  /** The reads evalFive and evalThree make of `entries` are in bounds for a lane of `n` cards. */
  predicate EntriesFit(entries: seq<Entry>, n: int) {
    && |entries| >= 1
    && (entries[0].count < n ==> |entries| >= 2)
    && (|entries| >= 2 && entries[0].count + entries[1].count < n ==> |entries| >= 3)
  }

  /** Classifies a 5-card lane; any other size is an error. */
  function EvalFive(cards: seq<Card>): (r: Result<HandEval>)
    ensures r.Ok? <==> |cards| == 5
    ensures r.Ok? ==> 0 <= r.value.category <= 8
  {
    if |cards| != 5 then Err("evalFive expects 5 cards")
    else
      EntriesBounds(cards);
      Ok(ClassifyFive(IsFlush(cards), StraightHigh(cards), SortedEntries(cards), SortedRanksDesc(cards)))
  }

  /** evalFive's tests, strongest first, given the flush flag, the straight, the sorted entries and the ranks descending. */
  function ClassifyFive(flush: bool, straight: Option<int>, entries: seq<Entry>, ranksDesc: seq<int>): (h: HandEval)
    requires EntriesFit(entries, 5)
    ensures 0 <= h.category <= 8
  {
    if flush && straight.Some? then HandEval(8, [straight.value])
    else if entries[0].count == 4 then HandEval(7, [entries[0].rank, entries[1].rank])
    else if entries[0].count == 3 && entries[1].count == 2 then HandEval(6, [entries[0].rank, entries[1].rank])
    else if flush then HandEval(5, ranksDesc)
    else if straight.Some? then HandEval(4, [straight.value])
    else if entries[0].count == 3 then HandEval(3, [entries[0].rank] + Kickers(entries))
    else if entries[0].count == 2 && entries[1].count == 2 then
      HandEval(2, [Max(entries[0].rank, entries[1].rank), Min(entries[0].rank, entries[1].rank), entries[2].rank])
    else if entries[0].count == 2 then HandEval(1, [entries[0].rank] + Kickers(entries))
    else HandEval(0, ranksDesc)
  }

  /** Classifies a 3-card lane: trips, pair or high card; any other size is an error. */
  function EvalThree(cards: seq<Card>): (r: Result<HandEval>)
    ensures r.Ok? <==> |cards| == 3
    ensures r.Ok? ==> (r.value.category == 0 || r.value.category == 1 || r.value.category == 3)
  {
    if |cards| != 3 then Err("evalThree expects 3 cards")
    else
      EntriesBounds(cards);
      var entries := SortedEntries(cards);
      if entries[0].count == 3 then Ok(HandEval(3, [entries[0].rank]))
      else if entries[0].count == 2 then Ok(HandEval(1, [entries[0].rank, entries[1].rank]))
      else Ok(HandEval(0, SortedRanksDesc(cards)))
  }

  // ---------------------------------------------------------------------------
  // The evaluation depends only on the multiset of cards
  // ---------------------------------------------------------------------------

  lemma RankValuesPermutation(a: seq<Card>, b: seq<Card>)
    requires multiset(a) == multiset(b)
    ensures multiset(RankValues(a)) == multiset(RankValues(b))
  {
    MapPermutation((c: Card) => RankValue(c.rank), a, b);
  }

  lemma SortedRanksDescPermutation(a: seq<Card>, b: seq<Card>)
    requires multiset(a) == multiset(b)
    ensures SortedRanksDesc(a) == SortedRanksDesc(b)
  {
    RankValuesPermutation(a, b);
    DescOrder();
    SortBySorted(RankValues(a), Desc);
    SortBySorted(RankValues(b), Desc);
    SortedUnique(SortedRanksDesc(a), SortedRanksDesc(b), Desc);
  }

  lemma IsFlushPermutation(a: seq<Card>, b: seq<Card>)
    requires multiset(a) == multiset(b)
    ensures IsFlush(a) <==> IsFlush(b)
  {
    forall x ensures x in a <==> x in b {
      assert x in a <==> x in multiset(a);
      assert x in b <==> x in multiset(b);
    }
    if IsFlush(a) && b != [] {
      assert b[0] in a;
      forall i | 0 <= i < |b| ensures b[i].suit == b[0].suit {
        assert b[i] in a;
      }
    }
    if IsFlush(b) && a != [] {
      assert a[0] in b;
      forall i | 0 <= i < |a| ensures a[i].suit == a[0].suit {
        assert a[i] in b;
      }
    }
  }

  lemma UniqPermutation(a: seq<Card>, b: seq<Card>)
    requires multiset(a) == multiset(b)
    ensures Uniq(a) == Uniq(b)
  {
    RankValuesPermutation(a, b);
    var da, db := Dedup(RankValues(a)), Dedup(RankValues(b));
    forall x ensures multiset(da)[x] == multiset(db)[x] {
      assert x in RankValues(a) <==> x in multiset(RankValues(a));
      assert x in RankValues(b) <==> x in multiset(RankValues(b));
    }
    assert multiset(da) == multiset(db);
    AscOrder();
    SortBySorted(da, Asc);
    SortBySorted(db, Asc);
    SortedUnique(Uniq(a), Uniq(b), Asc);
  }

  lemma SortedEntriesPermutation(a: seq<Card>, b: seq<Card>)
    requires multiset(a) == multiset(b)
    ensures SortedEntries(a) == SortedEntries(b)
  {
    OccPermutation(a, b);
    forall e ensures multiset(CountsByRank(a))[e] == multiset(CountsByRank(b))[e] {
      CountsByRankMultiset(a, e);
      CountsByRankMultiset(b, e);
    }
    assert multiset(CountsByRank(a)) == multiset(CountsByRank(b));
    EntryFirstOrder();
    SortBySorted(CountsByRank(a), EntryFirst);
    SortBySorted(CountsByRank(b), EntryFirst);
    SortedUnique(SortedEntries(a), SortedEntries(b), EntryFirst);
  }

  /** Reordering a lane does not change its evaluation. */
  lemma EvalFivePermutation(a: seq<Card>, b: seq<Card>)
    requires multiset(a) == multiset(b)
    ensures EvalFive(a) == EvalFive(b)
  {
    assert |a| == |multiset(a)| == |multiset(b)| == |b|;
    if |a| == 5 {
      SortedRanksDescPermutation(a, b);
      IsFlushPermutation(a, b);
      UniqPermutation(a, b);
      assert StraightHigh(a) == StraightHigh(b);
      SortedEntriesPermutation(a, b);
    }
  }

  /** Reordering a lane does not change its evaluation. */
  lemma EvalThreePermutation(a: seq<Card>, b: seq<Card>)
    requires multiset(a) == multiset(b)
    ensures EvalThree(a) == EvalThree(b)
  {
    assert |a| == |multiset(a)| == |multiset(b)| == |b|;
    SortedRanksDescPermutation(a, b);
    SortedEntriesPermutation(a, b);
  }

  // ---------------------------------------------------------------------------
  // What evalFive's category and tiebreak mean, in terms of rank multiplicities
  // ---------------------------------------------------------------------------

  lemma TotalUnfold(s: seq<Entry>)
    requires |s| <= 5
    ensures |s| == 1 ==> Total(s) == s[0].count
    ensures |s| == 2 ==> Total(s) == s[0].count + s[1].count
    ensures |s| == 3 ==> Total(s) == s[0].count + s[1].count + s[2].count
    ensures |s| == 4 ==> Total(s) == s[0].count + s[1].count + s[2].count + s[3].count
    ensures |s| == 5 ==> Total(s) == s[0].count + s[1].count + s[2].count + s[3].count + s[4].count
  {
    if s != [] {
      assert Total(s) == s[0].count + Total(s[1..]);
      TotalUnfold(s[1..]);
    }
  }

  /** The sorted counts five cards can have. */
  predicate IsCountShape(c: seq<int>) {
    c == [5] || c == [4, 1] || c == [3, 2] || c == [3, 1, 1] || c == [2, 2, 1] || c == [2, 1, 1, 1] || c == [1, 1, 1, 1, 1]
  }

  function SumInts(c: seq<int>): int {
    if c == [] then 0 else c[0] + SumInts(c[1..])
  }

  lemma {:induction false} SumIntsAtLeast(c: seq<int>)
    requires forall i :: 0 <= i < |c| ==> c[i] >= 1
    ensures SumInts(c) >= |c|
  {
    if c != [] {
      SumIntsAtLeast(c[1..]);
    }
  }

  lemma SumIntsUnfold(c: seq<int>)
    requires |c| <= 5
    ensures |c| == 1 ==> SumInts(c) == c[0]
    ensures |c| == 2 ==> SumInts(c) == c[0] + c[1]
    ensures |c| == 3 ==> SumInts(c) == c[0] + c[1] + c[2]
    ensures |c| == 4 ==> SumInts(c) == c[0] + c[1] + c[2] + c[3]
    ensures |c| == 5 ==> SumInts(c) == c[0] + c[1] + c[2] + c[3] + c[4]
  {
    if c != [] {
      assert SumInts(c) == c[0] + SumInts(c[1..]);
      SumIntsUnfold(c[1..]);
    }
  }

  lemma ShapeOfTwo(c: seq<int>)
    requires |c| == 2 && c[0] >= c[1] >= 1 && c[0] + c[1] == 5
    ensures IsCountShape(c)
  {
    if c[0] == 4 {
      assert c == [4, 1];
    } else {
      assert c == [3, 2];
    }
  }

  lemma ShapeOfThree(c: seq<int>)
    requires |c| == 3 && c[0] >= c[1] >= c[2] >= 1 && c[0] + c[1] + c[2] == 5
    ensures IsCountShape(c)
  {
    if c[0] == 3 {
      assert c == [3, 1, 1];
    } else {
      assert c == [2, 2, 1];
    }
  }

  lemma ShapeOfFour(c: seq<int>)
    requires |c| == 4 && c[0] >= c[1] >= c[2] >= c[3] >= 1 && c[0] + c[1] + c[2] + c[3] == 5
    ensures IsCountShape(c)
  {
    assert c == [2, 1, 1, 1];
  }

  lemma ShapeOfFive(c: seq<int>)
    requires |c| == 5 && forall i :: 0 <= i < 5 ==> c[i] >= 1
    requires c[0] + c[1] + c[2] + c[3] + c[4] == 5
    ensures IsCountShape(c)
  {
    assert c == [1, 1, 1, 1, 1];
  }

  /** Positive counts in non-increasing order that add up to five. */
  lemma ShapeOfCounts(c: seq<int>)
    requires forall i :: 0 <= i < |c| ==> c[i] >= 1
    requires forall i, j :: 0 <= i < j < |c| ==> c[i] >= c[j]
    requires SumInts(c) == 5
    ensures IsCountShape(c)
  {
    SumIntsAtLeast(c);
    SumIntsUnfold(c);
    if |c| == 1 {
      assert c == [5];
    } else if |c| == 2 {
      assert c[0] >= c[1];
      ShapeOfTwo(c);
    } else if |c| == 3 {
      assert c[0] >= c[1] >= c[2];
      ShapeOfThree(c);
    } else if |c| == 4 {
      assert c[0] >= c[1] >= c[2] >= c[3];
      ShapeOfFour(c);
    } else {
      ShapeOfFive(c);
    }
  }

  lemma {:induction false} SumEntryCounts(e: seq<Entry>)
    ensures SumInts(EntryCounts(e)) == Total(e)
  {
    if e != [] {
      SumEntryCounts(e[1..]);
      assert EntryCounts(e)[1..] == EntryCounts(e[1..]);
    }
  }

  /** The sorted counts of five cards form one of seven patterns. */
  lemma CountPatterns(cards: seq<Card>)
    requires |cards| == 5
    ensures IsCountShape(EntryCounts(SortedEntries(cards)))
  {
    EntriesFacts(cards);
    EntryShape(SortedEntries(cards));
  }

  /** Entries ordered count first: their counts never increase. */
  lemma CountsDescend(e: seq<Entry>)
    requires SortedBy(e, EntryFirst)
    ensures forall i, j :: 0 <= i < j < |e| ==> EntryCounts(e)[i] >= EntryCounts(e)[j]
  {
    forall i, j | 0 <= i < j < |e| ensures EntryCounts(e)[i] >= EntryCounts(e)[j] {
      assert EntryFirst(e[i], e[j]);
    }
  }

  /** Positive counts ordered count first and adding up to five form one of seven patterns. */
  lemma EntryShape(e: seq<Entry>)
    requires SortedBy(e, EntryFirst) && Total(e) == 5
    requires forall i :: 0 <= i < |e| ==> e[i].count > 0
    ensures IsCountShape(EntryCounts(e))
  {
    var c := EntryCounts(e);
    SumEntryCounts(e);
    CountsDescend(e);
    ShapeOfCounts(c);
  }

  /** Some rank occurs exactly `k` times among the cards. */
  ghost predicate HasCount(cards: seq<Card>, k: int) {
    exists v :: Occ(cards, v) == k
  }

  /** Two different ranks each occur exactly twice. */
  ghost predicate HasTwoPairs(cards: seq<Card>) {
    exists v, w :: v != w && Occ(cards, v) == 2 && Occ(cards, w) == 2
  }

  /** The poker category of five cards, strongest test first, defined on rank multiplicities. */
  ghost function CategoryOf(cards: seq<Card>): int
    requires |cards| == 5
  {
    var flush := IsFlush(cards);
    var straight := StraightHigh(cards).Some?;
    if flush && straight then 8
    else if HasCount(cards, 4) then 7
    else if HasCount(cards, 3) && HasCount(cards, 2) then 6
    else if flush then 5
    else if straight then 4
    else if HasCount(cards, 3) then 3
    else if HasTwoPairs(cards) then 2
    else if HasCount(cards, 2) then 1
    else 0
  }

  /** The counts of the entries, in entry order. */
  function EntryCounts(e: seq<Entry>): seq<int> {
    Map((x: Entry) => x.count, e)
  }

  lemma HasCountEntries(cards: seq<Card>, k: int)
    requires k > 0
    ensures HasCount(cards, k) <==> k in EntryCounts(SortedEntries(cards))
  {
    if HasCount(cards, k) {
      CountHasEntry(cards, k);
    }
    if k in EntryCounts(SortedEntries(cards)) {
      EntryHasCount(cards, k);
    }
  }

  lemma CountHasEntry(cards: seq<Card>, k: int)
    requires k > 0 && HasCount(cards, k)
    ensures k in EntryCounts(SortedEntries(cards))
  {
    var e := SortedEntries(cards);
    var v :| Occ(cards, v) == k;
    EntriesMembership(cards, Entry(v, k));
    var i :| 0 <= i < |e| && e[i] == Entry(v, k);
    assert EntryCounts(e)[i] == k;
  }

  lemma EntryHasCount(cards: seq<Card>, k: int)
    requires k in EntryCounts(SortedEntries(cards))
    ensures HasCount(cards, k)
  {
    var e := SortedEntries(cards);
    EntriesFacts(cards);
    var i :| 0 <= i < |e| && EntryCounts(e)[i] == k;
    assert Occ(cards, e[i].rank) == k;
  }

  lemma TwoTwos(c: seq<int>, i: int, j: int)
    requires IsCountShape(c) && 0 <= i < |c| && 0 <= j < |c| && i != j && c[i] == 2 && c[j] == 2
    ensures c == [2, 2, 1]
  {
  }

  lemma TwoPairsEntries(cards: seq<Card>)
    requires |cards| == 5
    ensures HasTwoPairs(cards) <==> EntryCounts(SortedEntries(cards)) == [2, 2, 1]
  {
    var e := SortedEntries(cards);
    EntriesFacts(cards);
    CountPatterns(cards);
    var c := EntryCounts(e);
    if HasTwoPairs(cards) {
      var v, w :| v != w && Occ(cards, v) == 2 && Occ(cards, w) == 2;
      EntriesMembership(cards, Entry(v, 2));
      EntriesMembership(cards, Entry(w, 2));
      var i :| 0 <= i < |e| && e[i] == Entry(v, 2);
      var j :| 0 <= j < |e| && e[j] == Entry(w, 2);
      assert i != j && c[i] == 2 && c[j] == 2;
      TwoTwos(c, i, j);
    }
    if EntryCounts(e) == [2, 2, 1] {
      EntriesDistinct(cards);
      assert EntryCounts(e)[0] == 2 && EntryCounts(e)[1] == 2;
      assert Occ(cards, e[0].rank) == 2 && Occ(cards, e[1].rank) == 2;
    }
  }

  /** A straight has five different ranks, so five entries. */
  lemma StraightEntries(cards: seq<Card>)
    requires |cards| == 5 && StraightHigh(cards).Some?
    ensures |SortedEntries(cards)| == 5
  {
    CountsByRankLength(cards);
  }

  /** CategoryOf, read off the sorted counts. */
  function CategoryByCounts(flush: bool, straight: bool, c: seq<int>): int {
    if flush && straight then 8
    else if 4 in c then 7
    else if 3 in c && 2 in c then 6
    else if flush then 5
    else if straight then 4
    else if 3 in c then 3
    else if c == [2, 2, 1] then 2
    else if 2 in c then 1
    else 0
  }

  lemma ClassifyByCounts(flush: bool, straight: Option<int>, e: seq<Entry>, desc: seq<int>)
    requires EntriesFit(e, 5) && IsCountShape(EntryCounts(e))
    requires straight.Some? ==> EntryCounts(e) == [1, 1, 1, 1, 1]
    ensures ClassifyFive(flush, straight, e, desc).category == CategoryByCounts(flush, straight.Some?, EntryCounts(e))
  {
    var c := EntryCounts(e);
    assert e[0].count == c[0];
    assert |e| >= 2 ==> e[1].count == c[1];
  }

  /** evalFive picks the strongest category the five cards make. */
  lemma EvalFiveCategory(cards: seq<Card>)
    requires |cards| == 5
    ensures EvalFive(cards).value.category == CategoryOf(cards)
  {
    var e := SortedEntries(cards);
    var c := EntryCounts(e);
    var straight := StraightHigh(cards);
    EntriesBounds(cards);
    CountPatterns(cards);
    HasCountEntries(cards, 4);
    HasCountEntries(cards, 3);
    HasCountEntries(cards, 2);
    TwoPairsEntries(cards);
    if straight.Some? {
      StraightEntries(cards);
      assert |c| == 5;
    }
    ClassifyByCounts(IsFlush(cards), straight, e, SortedRanksDesc(cards));
  }

  /** sortedRanksDesc lists the cards' rank values, highest first. */
  lemma SortedRanksDescMeaning(cards: seq<Card>)
    ensures multiset(SortedRanksDesc(cards)) == multiset(RankValues(cards))
    ensures forall i, j :: 0 <= i < j < |cards| ==> SortedRanksDesc(cards)[i] >= SortedRanksDesc(cards)[j]
  {
    DescOrder();
    SortBySorted(RankValues(cards), Desc);
  }

  /** When the entries after the first share one count, the kickers are their ranks, already in descending order. */
  lemma KickersInOrder(cards: seq<Card>)
    requires |SortedEntries(cards)| >= 1
    requires forall i :: 1 <= i < |SortedEntries(cards)| ==> SortedEntries(cards)[i].count == 1
    ensures var e := SortedEntries(cards);
      && Kickers(e) == Map((x: Entry) => x.rank, e[1..])
      && forall i, j :: 0 <= i < j < |Kickers(e)| ==> Kickers(e)[i] > Kickers(e)[j]
  {
    var e := SortedEntries(cards);
    var ranks := Map((x: Entry) => x.rank, e[1..]);
    EntriesFacts(cards);
    EntriesDistinct(cards);
    DescOrder();
    forall i, j | 0 <= i < j < |ranks| ensures ranks[i] > ranks[j] {
      assert EntryFirst(e[i + 1], e[j + 1]);
      assert e[i + 1].rank != e[j + 1].rank;
    }
    SortBySorted(ranks, Desc);
    SortedUnique(Kickers(e), ranks, Desc);
  }

  /** evalFive, unfolded to its classification of the sorted entries. */
  lemma EvalFiveUnfold(cards: seq<Card>)
    requires |cards| == 5
    ensures EntriesFit(SortedEntries(cards), 5)
    ensures EvalFive(cards).value
         == ClassifyFive(IsFlush(cards), StraightHigh(cards), SortedEntries(cards), SortedRanksDesc(cards))
  {
    EntriesBounds(cards);
  }

  /** The counts of a five-card hand, given which branch of evalFive's chain was taken. */
  lemma CountsAfterThree(c: seq<int>)
    requires IsCountShape(c) && |c| >= 2 && c[0] == 3 && c[1] != 2
    ensures c == [3, 1, 1]
  {
  }

  /** Which branch of the classification produced each category, and the tiebreak that branch built. */
  lemma ClassifyFiveBranches(flush: bool, straight: Option<int>, e: seq<Entry>, ranksDesc: seq<int>)
    requires EntriesFit(e, 5)
    ensures var h := ClassifyFive(flush, straight, e, ranksDesc);
      && (h.category == 7 ==> e[0].count == 4 && h.tiebreak == [e[0].rank, e[1].rank])
      && (h.category == 6 ==> e[0].count == 3 && e[1].count == 2 && h.tiebreak == [e[0].rank, e[1].rank])
      && (h.category == 3 ==> e[0].count == 3 && e[1].count != 2 && h.tiebreak == [e[0].rank] + Kickers(e))
      && (h.category == 2 ==> (
            && e[0].count == 2 && e[1].count == 2 && |e| >= 3
            && h.tiebreak == [Max(e[0].rank, e[1].rank), Min(e[0].rank, e[1].rank), e[2].rank]))
      && (h.category == 1 ==> e[0].count == 2 && e[1].count != 2 && h.tiebreak == [e[0].rank] + Kickers(e))
      && ((h.category == 0 || h.category == 5) ==> h.tiebreak == ranksDesc)
      && ((h.category == 4 || h.category == 8) ==> straight.Some? && h.tiebreak == [straight.value])
  {
  }

  /** The entries behind each category evalFive can give, and the tiebreak it builds from them. */
  predicate CategoryShape(h: HandEval, e: seq<Entry>) {
    && (h.category == 7 ==> |e| == 2 && e[0].count == 4 && e[1].count == 1 && h.tiebreak == [e[0].rank, e[1].rank])
    && (h.category == 6 ==> |e| == 2 && e[0].count == 3 && e[1].count == 2 && h.tiebreak == [e[0].rank, e[1].rank])
    && (h.category == 3 ==> EntryCounts(e) == [3, 1, 1] && e[0].count == 3 && h.tiebreak == [e[0].rank] + Kickers(e))
    && (h.category == 2 ==> (
          && |e| == 3 && e[0].count == 2 && e[1].count == 2 && e[2].count == 1
          && h.tiebreak == [Max(e[0].rank, e[1].rank), Min(e[0].rank, e[1].rank), e[2].rank]))
    && (h.category == 1 ==> EntryCounts(e) == [2, 1, 1, 1] && e[0].count == 2 && h.tiebreak == [e[0].rank] + Kickers(e))
  }

  /** The count pattern behind each category the classification gives. */
  lemma ClassifiedShapes(flush: bool, straight: Option<int>, e: seq<Entry>, ranksDesc: seq<int>)
    requires EntriesFit(e, 5) && IsCountShape(EntryCounts(e))
    ensures CategoryShape(ClassifyFive(flush, straight, e, ranksDesc), e)
  {
    ClassifyFiveBranches(flush, straight, e, ranksDesc);
    var c := EntryCounts(e);
    assert |c| == |e| && c[0] == e[0].count;
    assert |c| >= 2 ==> c[1] == e[1].count;
    assert |c| >= 3 ==> c[2] == e[2].count;
  }

  /** The facts about a five-card hand the tiebreak lemmas start from. */
  lemma FiveFacts(cards: seq<Card>)
    requires |cards| == 5
    ensures CategoryShape(EvalFive(cards).value, SortedEntries(cards))
    ensures var e := SortedEntries(cards); forall i :: 0 <= i < |e| ==> Occ(cards, e[i].rank) == e[i].count
  {
    EvalFiveUnfold(cards);
    CountPatterns(cards);
    EntriesFacts(cards);
    ClassifiedShapes(IsFlush(cards), StraightHigh(cards), SortedEntries(cards), SortedRanksDesc(cards));
  }

  lemma QuadsTiebreak(cards: seq<Card>)
    requires |cards| == 5 && EvalFive(cards).value.category == 7
    ensures var tb := EvalFive(cards).value.tiebreak;
      |tb| == 2 && Occ(cards, tb[0]) == 4 && Occ(cards, tb[1]) == 1
  {
    FiveFacts(cards);
  }

  lemma FullHouseTiebreak(cards: seq<Card>)
    requires |cards| == 5 && EvalFive(cards).value.category == 6
    ensures var tb := EvalFive(cards).value.tiebreak;
      |tb| == 2 && Occ(cards, tb[0]) == 3 && Occ(cards, tb[1]) == 2
  {
    FiveFacts(cards);
  }

  /** When every entry after the first is a single card, the kickers are those entries' ranks, descending. */
  lemma SingletonKickers(cards: seq<Card>)
    requires var c := EntryCounts(SortedEntries(cards)); c == [3, 1, 1] || c == [2, 1, 1, 1]
    ensures var e := SortedEntries(cards);
      && Kickers(e) == Map((x: Entry) => x.rank, e[1..])
      && (forall i :: 1 <= i < |e| ==> e[i].count == 1)
      && (forall i, j :: 1 <= i < j < |e| ==> e[i].rank > e[j].rank)
  {
    var e := SortedEntries(cards);
    var c := EntryCounts(e);
    assert forall i :: 1 <= i < |e| ==> e[i].count == 1 by {
      forall i | 1 <= i < |e| ensures e[i].count == 1 {
        assert e[i].count == c[i];
      }
    }
    KickersInOrder(cards);
    var k := Kickers(e);
    forall i, j | 1 <= i < j < |e| ensures e[i].rank > e[j].rank {
      assert k[i - 1] > k[j - 1];
    }
  }

  lemma TripsTiebreak(cards: seq<Card>)
    requires |cards| == 5 && EvalFive(cards).value.category == 3
    ensures var tb := EvalFive(cards).value.tiebreak;
      |tb| == 3 && Occ(cards, tb[0]) == 3 && Occ(cards, tb[1]) == 1 && Occ(cards, tb[2]) == 1 && tb[1] > tb[2]
  {
    TripsShape(cards);
    EntriesOcc(cards);
  }

  lemma TripsKickers(cards: seq<Card>)
    requires EntryCounts(SortedEntries(cards)) == [3, 1, 1]
    ensures var e := SortedEntries(cards);
      && |e| == 3 && e[0].count == 3 && e[1].count == 1 && e[2].count == 1
      && [e[0].rank] + Kickers(e) == [e[0].rank, e[1].rank, e[2].rank]
      && e[1].rank > e[2].rank
  {
    var e := SortedEntries(cards);
    var c := EntryCounts(e);
    assert e[0].count == c[0] && e[1].count == c[1] && e[2].count == c[2];
    SingletonKickers(cards);
    assert e[1].rank > e[2].rank;
  }

  /** A hand evalFive classifies as trips has a triple and two singletons, named by rank. */
  lemma TripsShape(cards: seq<Card>)
    requires |cards| == 5 && EvalFive(cards).value.category == 3
    ensures var e := SortedEntries(cards);
      && |e| == 3 && e[0].count == 3 && e[1].count == 1 && e[2].count == 1
      && EvalFive(cards).value.tiebreak == [e[0].rank, e[1].rank, e[2].rank]
      && e[1].rank > e[2].rank
  {
    FiveFacts(cards);
    TripsKickers(cards);
  }

  /** Each entry's count is how often its rank occurs. */
  lemma EntriesOcc(cards: seq<Card>)
    ensures var e := SortedEntries(cards); forall i :: 0 <= i < |e| ==> Occ(cards, e[i].rank) == e[i].count
  {
    EntriesFacts(cards);
  }

  lemma TwoPairTiebreak(cards: seq<Card>)
    requires |cards| == 5 && EvalFive(cards).value.category == 2
    ensures var tb := EvalFive(cards).value.tiebreak;
      |tb| == 3 && Occ(cards, tb[0]) == 2 && Occ(cards, tb[1]) == 2 && tb[0] > tb[1] && Occ(cards, tb[2]) == 1
  {
    FiveFacts(cards);
    EntriesDistinct(cards);
  }

  lemma PairKickers(cards: seq<Card>)
    requires EntryCounts(SortedEntries(cards)) == [2, 1, 1, 1]
    ensures var e := SortedEntries(cards);
      && |e| == 4 && e[0].count == 2 && e[1].count == 1 && e[2].count == 1 && e[3].count == 1
      && [e[0].rank] + Kickers(e) == [e[0].rank, e[1].rank, e[2].rank, e[3].rank]
      && e[1].rank > e[2].rank > e[3].rank
  {
    var e := SortedEntries(cards);
    var c := EntryCounts(e);
    assert e[0].count == c[0] && e[1].count == c[1] && e[2].count == c[2] && e[3].count == c[3];
    SingletonKickers(cards);
    assert e[1].rank > e[2].rank && e[2].rank > e[3].rank;
  }

  /** A hand evalFive classifies as one pair has one pair and three singletons, named by rank. */
  lemma PairShape(cards: seq<Card>)
    requires |cards| == 5 && EvalFive(cards).value.category == 1
    ensures var e := SortedEntries(cards);
      && |e| == 4 && e[0].count == 2 && e[1].count == 1 && e[2].count == 1 && e[3].count == 1
      && EvalFive(cards).value.tiebreak == [e[0].rank, e[1].rank, e[2].rank, e[3].rank]
      && e[1].rank > e[2].rank > e[3].rank
  {
    FiveFacts(cards);
    PairKickers(cards);
  }

  lemma PairTiebreak(cards: seq<Card>)
    requires |cards| == 5 && EvalFive(cards).value.category == 1
    ensures var tb := EvalFive(cards).value.tiebreak;
      && |tb| == 4 && Occ(cards, tb[0]) == 2 && tb[1] > tb[2] > tb[3]
      && Occ(cards, tb[1]) == 1 && Occ(cards, tb[2]) == 1 && Occ(cards, tb[3]) == 1
  {
    PairShape(cards);
    EntriesOcc(cards);
  }

  lemma RanksTiebreak(cards: seq<Card>)
    requires |cards| == 5 && (EvalFive(cards).value.category == 0 || EvalFive(cards).value.category == 5)
    ensures EvalFive(cards).value.tiebreak == SortedRanksDesc(cards)
  {
    EvalFiveUnfold(cards);
    ClassifyFiveBranches(IsFlush(cards), StraightHigh(cards), SortedEntries(cards), SortedRanksDesc(cards));
  }

  lemma StraightTiebreak(cards: seq<Card>)
    requires |cards| == 5 && (EvalFive(cards).value.category == 4 || EvalFive(cards).value.category == 8)
    ensures StraightHigh(cards).Some? && EvalFive(cards).value.tiebreak == [StraightHigh(cards).value]
  {
    EvalFiveUnfold(cards);
    ClassifyFiveBranches(IsFlush(cards), StraightHigh(cards), SortedEntries(cards), SortedRanksDesc(cards));
  }

  /** A straight flush from two to six is [8, [4]] and beats the wheel straight flush [8, [3]]. */
  lemma SixHighStraightFlushBeatsWheel(wheel: seq<Card>, sixHigh: seq<Card>)
    requires |wheel| == 5 && |sixHigh| == 5 && IsFlush(wheel) && IsFlush(sixHigh)
    requires forall v :: v in RankValues(wheel) <==> v in Wheel
    requires forall v :: v in RankValues(sixHigh) <==> 0 <= v <= 4
    ensures EvalFive(wheel).value == HandEval(8, [3])
    ensures EvalFive(sixHigh).value == HandEval(8, [4])
    ensures CompareEval(EvalFive(sixHigh).value, EvalFive(wheel).value) > 0
  {
    StraightHighMeaning(wheel);
    StraightHighMeaning(sixHigh);
    assert IsStraight(RankValues(wheel), 3);
    assert IsStraight(RankValues(sixHigh), 4);
    EvalFiveUnfold(wheel);
    EvalFiveUnfold(sixHigh);
  }

  // ---------------------------------------------------------------------------
  // What evalThree's category and tiebreak mean
  // ---------------------------------------------------------------------------

  /** The sorted counts three cards can have. */
  lemma ThreeCountPatterns(cards: seq<Card>)
    requires |cards| == 3
    ensures var c := EntryCounts(SortedEntries(cards)); c == [3] || c == [2, 1] || c == [1, 1, 1]
  {
    EntriesFacts(cards);
    ThreeEntryShape(SortedEntries(cards));
  }

  /** Positive counts ordered count first and adding up to three form one of three patterns. */
  lemma ThreeEntryShape(e: seq<Entry>)
    requires SortedBy(e, EntryFirst) && Total(e) == 3
    requires forall i :: 0 <= i < |e| ==> e[i].count > 0
    ensures var c := EntryCounts(e); c == [3] || c == [2, 1] || c == [1, 1, 1]
  {
    SumEntryCounts(e);
    CountsDescend(e);
    ThreeCounts(EntryCounts(e));
  }

  /** Positive counts in non-increasing order that add up to three. */
  lemma ThreeCounts(c: seq<int>)
    requires forall i :: 0 <= i < |c| ==> c[i] >= 1
    requires forall i, j :: 0 <= i < j < |c| ==> c[i] >= c[j]
    requires SumInts(c) == 3
    ensures c == [3] || c == [2, 1] || c == [1, 1, 1]
  {
    SumIntsAtLeast(c);
    assert SumInts([]) == 0;
    assert 1 <= |c| <= 3;
    SumIntsUnfold(c);
    if |c| == 1 {
      assert c == [3];
    } else if |c| == 2 {
      assert c[0] >= c[1] >= 1 && c[0] + c[1] == 3;
      assert c == [2, 1];
    } else {
      assert c[0] >= 1 && c[1] >= 1 && c[2] >= 1 && c[0] + c[1] + c[2] == 3;
      assert c == [1, 1, 1];
    }
  }

  /** evalThree says trips exactly when a rank occurs three times, and a pair exactly when one occurs twice. */
  lemma EvalThreeCategory(cards: seq<Card>)
    requires |cards| == 3
    ensures EvalThree(cards).value.category == 3 <==> HasCount(cards, 3)
    ensures EvalThree(cards).value.category == 1 <==> HasCount(cards, 2)
  {
    EvalThreeByHead(cards);
    ThreeCountPatterns(cards);
    HasCountEntries(cards, 3);
    HasCountEntries(cards, 2);
    ThreeHeadCount(SortedEntries(cards));
  }

  /** evalThree's category is read off the count of the first entry. */
  lemma EvalThreeByHead(cards: seq<Card>)
    requires |cards| == 3
    ensures var e := SortedEntries(cards);
      && |e| > 0
      && EvalThree(cards).value.category == (if e[0].count == 3 then 3 else if e[0].count == 2 then 1 else 0)
  {
    EntriesBounds(cards);
  }

  /** In each of the three patterns, a count of three or two occurs exactly when it comes first. */
  lemma ThreeHeadCount(e: seq<Entry>)
    requires var c := EntryCounts(e); c == [3] || c == [2, 1] || c == [1, 1, 1]
    ensures |e| > 0
    ensures e[0].count == 3 <==> 3 in EntryCounts(e)
    ensures e[0].count == 2 <==> 2 in EntryCounts(e)
  {
    assert e[0].count == EntryCounts(e)[0];
  }

  /** The tiebreak evalThree builds: the trips rank; the pair rank then the odd card; or all ranks, highest first. */
  lemma EvalThreeTiebreak(cards: seq<Card>)
    requires |cards| == 3
    ensures var h := EvalThree(cards).value;
      && (h.category == 3 ==> |h.tiebreak| == 1 && Occ(cards, h.tiebreak[0]) == 3)
      && (h.category == 1 ==> |h.tiebreak| == 2 && Occ(cards, h.tiebreak[0]) == 2 && Occ(cards, h.tiebreak[1]) == 1)
      && (h.category == 0 ==> h.tiebreak == SortedRanksDesc(cards))
  {
    var e := SortedEntries(cards);
    var c := EntryCounts(e);
    EntriesBounds(cards);
    ThreeCountPatterns(cards);
    EntriesFacts(cards);
    assert e[0].count == c[0];
    if c == [2, 1] {
      assert e[1].count == c[1];
    }
  }

  // ---------------------------------------------------------------------------
  // Arrangements: three lanes, validated and compared lane by lane
  // ---------------------------------------------------------------------------

  /** A player's arrangement `{ top, middle, bottom }`: 3, 5 and 5 cards when well formed. */
  datatype Arrangement = Arrangement(top: seq<Card>, middle: seq<Card>, bottom: seq<Card>)

  predicate HasLaneSizes(a: Arrangement) {
    |a.top| == 3 && |a.middle| == 5 && |a.bottom| == 5
  }

  /** "At least as strong": compareEval(x, y) >= 0. */
  ghost predicate AtLeast(x: HandEval, y: HandEval) {
    Outranks(x, y) || Ties(x, y)
  }

  /**
   * isValidArrangement: false for a missing arrangement or wrong lane sizes; otherwise
   * the bottom must be at least the middle and the middle at least the top.
   */
  function IsValidArrangement(a: Option<Arrangement>): (ok: bool)
    ensures ok ==> a.Some? && HasLaneSizes(a.value)
  {
    if a.None? || !HasLaneSizes(a.value) then false
    else
      var top := EvalThree(a.value.top).value;
      var mid := EvalFive(a.value.middle).value;
      var bot := EvalFive(a.value.bottom).value;
      if CompareEval(bot, mid) < 0 then false
      else if CompareEval(mid, top) < 0 then false
      else true
  }

  /** The lane order isValidArrangement enforces, and its consequence that the bottom is at least the top. */
  lemma IsValidArrangementMeaning(a: Arrangement)
    ensures IsValidArrangement(Some(a)) <==>
      && HasLaneSizes(a)
      && AtLeast(EvalFive(a.bottom).value, EvalFive(a.middle).value)
      && AtLeast(EvalFive(a.middle).value, EvalThree(a.top).value)
    ensures IsValidArrangement(Some(a)) ==> AtLeast(EvalFive(a.bottom).value, EvalThree(a.top).value)
  {
    if HasLaneSizes(a) {
      var top := EvalThree(a.top).value;
      var mid := EvalFive(a.middle).value;
      var bot := EvalFive(a.bottom).value;
      CompareEvalMeaning(bot, mid);
      CompareEvalMeaning(mid, top);
      CompareEvalMeaning(bot, top);
      if IsValidArrangement(Some(a)) {
        CompareEvalTransitive(bot, mid, top);
      }
    }
  }

  /** Validity depends only on which cards are in each lane, not their order. */
  lemma IsValidArrangementPermutation(a: Arrangement, b: Arrangement)
    requires multiset(a.top) == multiset(b.top) && multiset(a.middle) == multiset(b.middle)
    requires multiset(a.bottom) == multiset(b.bottom)
    ensures IsValidArrangement(Some(a)) == IsValidArrangement(Some(b))
  {
    EvalThreePermutation(a.top, b.top);
    EvalFivePermutation(a.middle, b.middle);
    EvalFivePermutation(a.bottom, b.bottom);
  }

  /** `Math.sign`. */
  function Sign(x: int): (s: int)
    ensures (s == -1 || s == 0 || s == 1)
    ensures (s > 0 <==> x > 0) && (s < 0 <==> x < 0)
  {
    if x > 0 then 1 else if x < 0 then -1 else 0
  }

  /** compareArrangements' result `{ top, middle, bottom }`, each -1, 0 or 1 from the first player's side. */
  datatype LaneSigns = LaneSigns(top: int, middle: int, bottom: int)

  function Negate(r: LaneSigns): LaneSigns {
    LaneSigns(-r.top, -r.middle, -r.bottom)
  }

  /** Lane-by-lane comparison; a lane of the wrong size makes the evaluator throw. */
  function CompareArrangements(a: Arrangement, b: Arrangement): (r: Result<LaneSigns>)
    ensures r.Ok? <==> |a.top| == 3 && |b.top| == 3 && |a.middle| == 5 && |b.middle| == 5
                       && |a.bottom| == 5 && |b.bottom| == 5
    ensures r.Ok? ==> (r.value.top == -1 || r.value.top == 0 || r.value.top == 1) && (r.value.middle == -1 || r.value.middle == 0 || r.value.middle == 1) && (r.value.bottom == -1 || r.value.bottom == 0 || r.value.bottom == 1)
  {
    var at :- EvalThree(a.top);
    var bt :- EvalThree(b.top);
    var am :- EvalFive(a.middle);
    var bm :- EvalFive(b.middle);
    var ab :- EvalFive(a.bottom);
    var bb :- EvalFive(b.bottom);
    Ok(LaneSigns(Sign(CompareEval(at, bt)), Sign(CompareEval(am, bm)), Sign(CompareEval(ab, bb))))
  }

  /** Swapping the two arrangements negates every lane. */
  lemma CompareArrangementsSwap(a: Arrangement, b: Arrangement)
    ensures CompareArrangements(a, b).Ok? == CompareArrangements(b, a).Ok?
    ensures CompareArrangements(a, b).Ok? ==> CompareArrangements(b, a).value == Negate(CompareArrangements(a, b).value)
  {
    if CompareArrangements(a, b).Ok? {
      CompareEvalAntisymmetric(EvalThree(a.top).value, EvalThree(b.top).value);
      CompareEvalAntisymmetric(EvalFive(a.middle).value, EvalFive(b.middle).value);
      CompareEvalAntisymmetric(EvalFive(a.bottom).value, EvalFive(b.bottom).value);
    }
  }

  /** Each lane's sign says which side's lane is stronger. */
  lemma CompareArrangementsMeaning(a: Arrangement, b: Arrangement)
    requires CompareArrangements(a, b).Ok?
    ensures var r := CompareArrangements(a, b).value;
      && (r.top == 1 <==> Outranks(EvalThree(a.top).value, EvalThree(b.top).value))
      && (r.middle == 1 <==> Outranks(EvalFive(a.middle).value, EvalFive(b.middle).value))
      && (r.bottom == 1 <==> Outranks(EvalFive(a.bottom).value, EvalFive(b.bottom).value))
      && (r.top == 0 <==> Ties(EvalThree(a.top).value, EvalThree(b.top).value))
      && (r.middle == 0 <==> Ties(EvalFive(a.middle).value, EvalFive(b.middle).value))
      && (r.bottom == 0 <==> Ties(EvalFive(a.bottom).value, EvalFive(b.bottom).value))
  {
    CompareEvalMeaning(EvalThree(a.top).value, EvalThree(b.top).value);
    CompareEvalMeaning(EvalFive(a.middle).value, EvalFive(b.middle).value);
    CompareEvalMeaning(EvalFive(a.bottom).value, EvalFive(b.bottom).value);
  }
}
