/**
 * The computer player of the shedding game: `findBestPlay` and the candidate finders it
 * uses (singles, pairs, triples and the five-card straights, flushes, full houses and
 * four-of-a-kind hands). Each finder is a method whose loops fill a `byRank`,
 * `byValue` or `bySuit` map and a `results` list; each is proved equal to a
 * specification function over the hand, and the lemmas beside those functions state
 * what the candidates are: cards of the hand, of the promised sizes and values, and
 * every same-value pair, at most one triple per value, the highest card of each value
 * in a straight, a kicker whenever one exists.
 *
 * The key order of `Object.values`/`Object.entries` on a map keyed by card values is
 * ascending (integer-like keys come first, in numeric order); on the map keyed by suit
 * names it is the order in which each suit was first met.
 */
module AiPlayer {

  import opened Wrappers
  import opened Sorting
  import opened Cards
  import opened CardUtils

  // ---------------------------------------------------------------------------
  // Grouping by value (the `byRank` / `byValue` maps)
  // ---------------------------------------------------------------------------

  predicate Ascending(keys: seq<int>) {
    forall i, j :: 0 <= i < j < |keys| ==> keys[i] < keys[j]
  }

  /** Adding a key to a map keyed by integers: the keys stay listed in ascending order. */
  function InsertKey(v: int, keys: seq<int>): (r: seq<int>)
    requires Ascending(keys)
    ensures Ascending(r)
    ensures forall x :: x in r <==> x == v || x in keys
  {
    if keys == [] then [v]
    else if v == keys[0] then keys
    else if v < keys[0] then [v] + keys
    else
      var rest := InsertKey(v, keys[1..]);
      assert forall x :: x in keys <==> x == keys[0] || x in keys[1..];
      assert forall j :: 0 <= j < |rest| ==> keys[0] < rest[j] by {
        forall j | 0 <= j < |rest| ensures keys[0] < rest[j] {
          assert rest[j] in rest;
        }
      }
      [keys[0]] + rest
  }

  /** The keys of the map built from `cards`: every value that occurs, ascending. */
  function ValueKeys(cards: seq<ClientCard>): (r: seq<int>)
    ensures Ascending(r)
    ensures forall v :: v in r <==> exists c :: c in cards && c.value == v
  {
    if cards == [] then []
    else
      var p := cards[..|cards| - 1];
      assert forall c :: c in cards <==> c in p || c == cards[|cards| - 1];
      InsertKey(cards[|cards| - 1].value, ValueKeys(p))
  }

  /** The group of one value: the cards of that value, in the order they come. */
  function OfValue(cards: seq<ClientCard>, v: int): (r: seq<ClientCard>)
    ensures forall c :: c in r <==> c in cards && c.value == v
    ensures r == [] <==> forall c :: c in cards ==> c.value != v
    ensures |r| <= |cards|
  {
    if cards == [] then []
    else
      var p := cards[..|cards| - 1];
      var c := cards[|cards| - 1];
      assert forall x :: x in cards <==> x in p || x == c;
      OfValue(p, v) + (if c.value == v then [c] else [])
  }

  /** `Object.values(byRank)`: the groups, ascending by value. */
  function Groups(cards: seq<ClientCard>): (gs: seq<seq<ClientCard>>)
    ensures |gs| == |ValueKeys(cards)|
  {
    var keys := ValueKeys(cards);
    seq(|keys|, k requires 0 <= k < |keys| => OfValue(cards, keys[k]))
  }

  /** The loop every finder opens with: each card is pushed onto the list of its value. */
  method GroupByValue(cards: seq<ClientCard>) returns (byRank: map<int, seq<ClientCard>>, keys: seq<int>)
    ensures keys == ValueKeys(cards)
    ensures forall v :: v in byRank <==> v in keys
    ensures forall v :: v in byRank ==> byRank[v] == OfValue(cards, v)
  {
    byRank := map[];
    keys := [];
    for i := 0 to |cards|
      invariant keys == ValueKeys(cards[..i])
      invariant forall v :: v in byRank <==> v in keys
      invariant forall v :: v in byRank ==> byRank[v] == OfValue(cards[..i], v)
    {
      var c := cards[i];
      assert cards[..i + 1][..i] == cards[..i];
      ghost var g := OfValue(cards[..i], c.value);
      if c.value !in byRank {
        assert c.value !in ValueKeys(cards[..i]);
        byRank := byRank[c.value := []];
      }
      byRank := byRank[c.value := byRank[c.value] + [c]];
      forall v | v in byRank
        ensures byRank[v] == OfValue(cards[..i + 1], v)
      {
        assert OfValue(cards[..i + 1], v) == OfValue(cards[..i], v) + (if c.value == v then [c] else []);
      }
      keys := InsertKey(c.value, keys);
    }
    assert cards[..|cards|] == cards;
  }

  // ---------------------------------------------------------------------------
  // count 1: singles
  // ---------------------------------------------------------------------------

  /** Each card on its own. */
  function Singles(cards: seq<ClientCard>): (r: seq<seq<ClientCard>>)
    ensures |r| == |cards|
    ensures forall k :: 0 <= k < |r| ==> r[k] == [cards[k]]
  {
    if cards == [] then [] else Singles(cards[..|cards| - 1]) + [[cards[|cards| - 1]]]
  }

  method FindSingles(cards: seq<ClientCard>) returns (results: seq<seq<ClientCard>>)
    ensures results == Singles(cards)
  {
    results := [];
    for i := 0 to |cards|
      invariant results == Singles(cards[..i])
    {
      results := results + [[cards[i]]];
      assert cards[..i + 1][..i] == cards[..i];
    }
    assert cards[..|cards|] == cards;
  }

  // ---------------------------------------------------------------------------
  // count 2: every pair within each value
  // ---------------------------------------------------------------------------

  /** The pairs `[g[i], g[j]]` for `i < j' < j`. */
  function PairsWith(g: seq<ClientCard>, i: nat, j: nat): (r: seq<seq<ClientCard>>)
    requires i < j <= |g|
    decreases j
  {
    if j == i + 1 then [] else PairsWith(g, i, j - 1) + [[g[i], g[j - 1]]]
  }

  /** The pairs whose first card sits before position `n`. */
  function PairsUpTo(g: seq<ClientCard>, n: nat): (r: seq<seq<ClientCard>>)
    requires n <= |g|
  {
    if n == 0 then [] else PairsUpTo(g, n - 1) + PairsWith(g, n - 1, |g|)
  }

  /** Every pair of positions `i < j` of one group, row by row. */
  function PairsOf(g: seq<ClientCard>): seq<seq<ClientCard>> {
    PairsUpTo(g, |g|)
  }

  /** The pairs of every group with two cards or more, groups in order. */
  function AllPairs(gs: seq<seq<ClientCard>>): seq<seq<ClientCard>> {
    if gs == [] then []
    else
      var g := gs[|gs| - 1];
      AllPairs(gs[..|gs| - 1]) + (if |g| >= 2 then PairsOf(g) else [])
  }

  method FindPairs(cards: seq<ClientCard>) returns (results: seq<seq<ClientCard>>)
    ensures results == AllPairs(Groups(cards))
  {
    var byRank, keys := GroupByValue(cards);
    ghost var gs := Groups(cards);
    results := [];
    for k := 0 to |keys|
      invariant results == AllPairs(gs[..k])
    {
      ValueGroupAt(cards, byRank, keys, k);
      var group := byRank[keys[k]];
      AllPairsStep(gs, k);
      if |group| >= 2 {
        var pairs := PairsInGroup(group);
        results := results + pairs;
      }
    }
    assert gs[..|keys|] == gs;
  }

  /** Read through the map, the group of the `k`-th key is the `k`-th group. */
  lemma ValueGroupAt(cards: seq<ClientCard>, byRank: map<int, seq<ClientCard>>, keys: seq<int>, k: int)
    requires keys == ValueKeys(cards) && 0 <= k < |keys|
    requires forall v :: v in byRank <==> v in keys
    requires forall v :: v in byRank ==> byRank[v] == OfValue(cards, v)
    ensures keys[k] in byRank && byRank[keys[k]] == Groups(cards)[k]
  {
  }

  lemma AllPairsStep(gs: seq<seq<ClientCard>>, k: int)
    requires 0 <= k < |gs|
    ensures AllPairs(gs[..k + 1]) == AllPairs(gs[..k]) + (if |gs[k]| >= 2 then PairsOf(gs[k]) else [])
  {
    assert gs[..k + 1][..k] == gs[..k];
  }

  lemma AllTriplesStep(gs: seq<seq<ClientCard>>, k: int)
    requires 0 <= k < |gs|
    ensures AllTriples(gs[..k + 1]) == AllTriples(gs[..k]) + (if |gs[k]| >= 3 then [gs[k][..3]] else [])
  {
    assert gs[..k + 1][..k] == gs[..k];
  }

  /** The two nested loops over one group: `[group[i], group[j]]` for every `i < j`. */
  method PairsInGroup(group: seq<ClientCard>) returns (pairs: seq<seq<ClientCard>>)
    ensures pairs == PairsOf(group)
  {
    pairs := [];
    for i := 0 to |group|
      invariant pairs == PairsUpTo(group, i)
    {
      for j := i + 1 to |group|
        invariant pairs == PairsUpTo(group, i) + PairsWith(group, i, j)
      {
        pairs := pairs + [[group[i], group[j]]];
      }
    }
  }

  // ---------------------------------------------------------------------------
  // count 3: the first three cards of each value
  // ---------------------------------------------------------------------------

  /** The first three cards of every group with three cards or more, groups in order. */
  function AllTriples(gs: seq<seq<ClientCard>>): seq<seq<ClientCard>> {
    if gs == [] then []
    else
      var g := gs[|gs| - 1];
      AllTriples(gs[..|gs| - 1]) + (if |g| >= 3 then [g[..3]] else [])
  }

  method FindTriples(cards: seq<ClientCard>) returns (results: seq<seq<ClientCard>>)
    ensures results == AllTriples(Groups(cards))
  {
    var byRank, keys := GroupByValue(cards);
    ghost var gs := Groups(cards);
    results := [];
    for k := 0 to |keys|
      invariant results == AllTriples(gs[..k])
    {
      ValueGroupAt(cards, byRank, keys, k);
      var group := byRank[keys[k]];
      AllTriplesStep(gs, k);
      if |group| >= 3 {
        results := results + [group[..3]];
      }
    }
    assert gs[..|keys|] == gs;
  }

  // ---------------------------------------------------------------------------
  // What the groups are
  // ---------------------------------------------------------------------------

  /** Each group holds cards of the hand, all of its key's value, and the keys ascend. */
  ghost predicate Keyed(cards: seq<ClientCard>, gs: seq<seq<ClientCard>>, keys: seq<int>) {
    && |gs| == |keys|
    && Ascending(keys)
    && (forall k, c :: 0 <= k < |gs| && c in gs[k] ==> c in cards && c.value == keys[k])
  }

  lemma GroupsKeyed(cards: seq<ClientCard>)
    ensures Keyed(cards, Groups(cards), ValueKeys(cards))
  {
  }

  /** Every value of the hand has its group among the groups. */
  lemma GroupOfValue(cards: seq<ClientCard>, c: ClientCard) returns (k: nat)
    requires c in cards
    ensures k < |Groups(cards)| && Groups(cards)[k] == OfValue(cards, c.value)
  {
    var keys := ValueKeys(cards);
    assert c.value in keys;
    k :| 0 <= k < |keys| && keys[k] == c.value;
  }

  /** Two cards of one value keep their order inside the group of that value. */
  lemma {:induction false} GroupPositions(cards: seq<ClientCard>, i: nat, j: nat) returns (x: nat, y: nat)
    requires i < j < |cards| && cards[i].value == cards[j].value
    ensures x < y < |OfValue(cards, cards[i].value)|
    ensures OfValue(cards, cards[i].value)[x] == cards[i] && OfValue(cards, cards[i].value)[y] == cards[j]
    decreases |cards|
  {
    var v := cards[i].value;
    var p := cards[..|cards| - 1];
    assert OfValue(cards, v) == OfValue(p, v) + (if cards[|cards| - 1].value == v then [cards[|cards| - 1]] else []);
    if j == |cards| - 1 {
      var g := OfValue(p, v);
      assert cards[i] == p[i];
      assert cards[i] in g;
      x :| 0 <= x < |g| && g[x] == cards[i];
      y := |g|;
    } else {
      assert cards[i] == p[i] && cards[j] == p[j];
      x, y := GroupPositions(p, i, j);
    }
  }

  // ---------------------------------------------------------------------------
  // Pairs: sound and complete
  // ---------------------------------------------------------------------------

  lemma {:induction false} PairsWithHas(g: seq<ClientCard>, i: nat, j: nat, m: nat)
    requires i < j < m <= |g|
    ensures [g[i], g[j]] in PairsWith(g, i, m)
    decreases m
  {
    if j < m - 1 {
      PairsWithHas(g, i, j, m - 1);
    }
  }

  lemma {:induction false} PairsUpToHas(g: seq<ClientCard>, i: nat, j: nat, n: nat)
    requires i < j < |g| && i < n <= |g|
    ensures [g[i], g[j]] in PairsUpTo(g, n)
    decreases n
  {
    if i < n - 1 {
      PairsUpToHas(g, i, j, n - 1);
    } else {
      PairsWithHas(g, i, j, |g|);
    }
  }

  lemma {:induction false} AllPairsHas(gs: seq<seq<ClientCard>>, k: nat, p: seq<ClientCard>)
    requires k < |gs| && |gs[k]| >= 2 && p in PairsOf(gs[k])
    ensures p in AllPairs(gs)
    decreases |gs|
  {
    if k < |gs| - 1 {
      assert gs[..|gs| - 1][k] == gs[k];
      AllPairsHas(gs[..|gs| - 1], k, p);
    }
  }

  /** For count 2, every two cards of one value are offered, in hand order. */
  lemma PairsOffered(cards: seq<ClientCard>, i: nat, j: nat)
    requires i < j < |cards| && cards[i].value == cards[j].value
    ensures [cards[i], cards[j]] in AllPairs(Groups(cards))
  {
    var x, y := GroupPositions(cards, i, j);
    var k := GroupOfValue(cards, cards[i]);
    var g := Groups(cards)[k];
    PairsUpToHas(g, x, y, |g|);
    AllPairsHas(Groups(cards), k, [cards[i], cards[j]]);
  }

  /** Cards of the hand, all of one value. */
  ghost predicate SameValueFrom(h: seq<ClientCard>, cards: seq<ClientCard>) {
    && (forall c :: c in h ==> c in cards)
    && (forall a, b :: a in h && b in h ==> a.value == b.value)
  }

  lemma {:induction false} PairsWithSound(g: seq<ClientCard>, i: nat, m: nat, cards: seq<ClientCard>)
    requires i < m <= |g| && SameValueFrom(g, cards)
    ensures forall p :: p in PairsWith(g, i, m) ==> |p| == 2 && SameValueFrom(p, cards)
    decreases m
  {
    if m > i + 1 {
      PairsWithSound(g, i, m - 1, cards);
      assert g[i] in g && g[m - 1] in g;
    }
  }

  lemma {:induction false} PairsUpToSound(g: seq<ClientCard>, n: nat, cards: seq<ClientCard>)
    requires n <= |g| && SameValueFrom(g, cards)
    ensures forall p :: p in PairsUpTo(g, n) ==> |p| == 2 && SameValueFrom(p, cards)
    decreases n
  {
    if n > 0 {
      PairsUpToSound(g, n - 1, cards);
      PairsWithSound(g, n - 1, |g|, cards);
    }
  }

  lemma {:induction false} AllPairsSound(gs: seq<seq<ClientCard>>, cards: seq<ClientCard>)
    requires forall k :: 0 <= k < |gs| ==> SameValueFrom(gs[k], cards)
    ensures forall p :: p in AllPairs(gs) ==> |p| == 2 && SameValueFrom(p, cards)
    decreases |gs|
  {
    if gs != [] {
      AllPairsSound(gs[..|gs| - 1], cards);
      PairsUpToSound(gs[|gs| - 1], |gs[|gs| - 1]|, cards);
    }
  }

  /** For count 2, every candidate is two cards of the hand of one value. */
  lemma PairsSound(cards: seq<ClientCard>)
    ensures forall p :: p in AllPairs(Groups(cards)) ==> |p| == 2 && SameValueFrom(p, cards)
  {
    GroupsKeyed(cards);
    AllPairsSound(Groups(cards), cards);
  }

  // ---------------------------------------------------------------------------
  // Triples: one per value, sound and complete
  // ---------------------------------------------------------------------------

  lemma {:induction false} AllTriplesKeyed(cards: seq<ClientCard>, gs: seq<seq<ClientCard>>, keys: seq<int>)
    requires Keyed(cards, gs, keys)
    ensures forall a :: 0 <= a < |AllTriples(gs)| ==>
      |AllTriples(gs)[a]| == 3 && SameValueFrom(AllTriples(gs)[a], cards) && AllTriples(gs)[a][0].value in keys
    ensures forall a, b :: 0 <= a < b < |AllTriples(gs)| ==> AllTriples(gs)[a][0].value < AllTriples(gs)[b][0].value
    decreases |gs|
  {
    if gs != [] {
      var n := |gs| - 1;
      var ts: seq<seq<ClientCard>> := AllTriples(gs[..n]);
      assert Keyed(cards, gs[..n], keys[..n]) by {
        forall k, c | 0 <= k < n && c in gs[..n][k] ensures c in cards && c.value == keys[..n][k] {
          assert gs[..n][k] == gs[k];
        }
      }
      AllTriplesKeyed(cards, gs[..n], keys[..n]);
      var g := gs[n];
      if |g| >= 3 {
        var t := g[..3];
        assert t[0] in gs[n] && t[1] in gs[n] && t[2] in gs[n];
        forall a: int | 0 <= a < |ts| ensures ts[a][0].value < t[0].value {
          var v := ts[a][0].value;
          assert v in keys[..n];
        }
      }
    }
  }

  /** For count 3, every candidate is three cards of the hand of one value, and no value gives two. */
  lemma TriplesOnePerValue(cards: seq<ClientCard>)
    ensures forall t :: t in AllTriples(Groups(cards)) ==> |t| == 3 && SameValueFrom(t, cards)
    ensures forall a, b :: 0 <= a < b < |AllTriples(Groups(cards))| ==>
      AllTriples(Groups(cards))[a][0].value < AllTriples(Groups(cards))[b][0].value
  {
    GroupsKeyed(cards);
    AllTriplesKeyed(cards, Groups(cards), ValueKeys(cards));
  }

  lemma {:induction false} AllTriplesHas(gs: seq<seq<ClientCard>>, k: nat)
    requires k < |gs| && |gs[k]| >= 3
    ensures gs[k][..3] in AllTriples(gs)
    decreases |gs|
  {
    if k < |gs| - 1 {
      assert gs[..|gs| - 1][k] == gs[k];
      AllTriplesHas(gs[..|gs| - 1], k);
    }
  }

  /** For count 3, a value held three times or more offers its first three cards. */
  lemma TriplesOffered(cards: seq<ClientCard>, c: ClientCard)
    requires c in cards && |OfValue(cards, c.value)| >= 3
    ensures OfValue(cards, c.value)[..3] in AllTriples(Groups(cards))
  {
    var k := GroupOfValue(cards, c);
    AllTriplesHas(Groups(cards), k);
  }

  // ---------------------------------------------------------------------------
  // Straights: five consecutive values from start 0..8, the highest card of each
  // ---------------------------------------------------------------------------

  /** The straight from `start`, when `sorted` holds all five values: the last card of each group. */
  function StraightFrom(sorted: seq<ClientCard>, start: int): (r: Option<seq<ClientCard>>)
    ensures r.Some? <==> RunFrom(sorted, start)
  {
    if RunFrom(sorted, start) then
      Some(seq(5, i requires 0 <= i < 5 => Last(OfValue(sorted, start + i))))
    else None
  }

  /** The cards hold each of the five values from `start` on. */
  predicate RunFrom(cards: seq<ClientCard>, start: int) {
    forall v :: start <= v < start + 5 ==> OfValue(cards, v) != []
  }

  function Last(g: seq<ClientCard>): ClientCard
    requires g != []
  {
    g[|g| - 1]
  }

  /** The straights found from the starts below `n`, in order of start. */
  function Straights(sorted: seq<ClientCard>, n: nat): seq<seq<ClientCard>> {
    if n == 0 then []
    else
      Straights(sorted, n - 1) + (match StraightFrom(sorted, n - 1) case Some(s) => [s] case None => [])
  }

  method FindStraights(cards: seq<ClientCard>) returns (results: seq<seq<ClientCard>>)
    ensures results == Straights(SortCards(cards), 9)
  {
    results := [];
    var sorted := SortCards(cards);
    var byValue, keys := GroupByValue(sorted);
    GroupsInMap(sorted, byValue, keys);
    for start := 0 to 9
      invariant results == Straights(sorted, start)
    {
      var valid, straight := StraightAt(byValue, start);
      StraightsStep(sorted, byValue, start, valid, straight);
      if valid {
        results := results + [straight];
      }
    }
  }

  /** The map the grouping loop builds holds a group for a value exactly when the value occurs. */
  ghost predicate GroupsMap(sorted: seq<ClientCard>, byValue: map<int, seq<ClientCard>>) {
    && (forall v :: v in byValue ==> byValue[v] == OfValue(sorted, v))
    && (forall v :: v !in byValue ==> OfValue(sorted, v) == [])
  }

  lemma GroupsInMap(sorted: seq<ClientCard>, byValue: map<int, seq<ClientCard>>, keys: seq<int>)
    requires keys == ValueKeys(sorted)
    requires forall v :: v in byValue <==> v in keys
    requires forall v :: v in byValue ==> byValue[v] == OfValue(sorted, v)
    ensures GroupsMap(sorted, byValue)
  {
    forall v | v !in byValue ensures OfValue(sorted, v) == [] {
      assert v !in keys;
    }
  }

  /** The map holds a non-empty group for each of the five values from `start` on. */
  ghost predicate RunIn(byValue: map<int, seq<ClientCard>>, start: int) {
    forall v :: start <= v < start + 5 ==> v in byValue && byValue[v] != []
  }

  /** The last card of each of the first `n` of those groups. */
  function LastsIn(byValue: map<int, seq<ClientCard>>, start: int, n: nat): (r: seq<ClientCard>)
    requires forall v :: start <= v < start + n ==> v in byValue && byValue[v] != []
    ensures |r| == n
    ensures forall k :: 0 <= k < n ==> r[k] == Last(byValue[start + k])
  {
    if n == 0 then [] else LastsIn(byValue, start, n - 1) + [Last(byValue[start + n - 1])]
  }

  /** Read through the map, the run from `start` is that of the sorted hand. */
  lemma MapRun(sorted: seq<ClientCard>, byValue: map<int, seq<ClientCard>>, start: int)
    requires GroupsMap(sorted, byValue)
    ensures RunIn(byValue, start) <==> RunFrom(sorted, start)
  {
    if RunFrom(sorted, start) {
      forall v | start <= v < start + 5 ensures v in byValue && byValue[v] != [] {
        assert OfValue(sorted, v) != [];
      }
    }
  }

  /** Read through the map, the straight from `start` is that of the sorted hand. */
  lemma MapStraight(sorted: seq<ClientCard>, byValue: map<int, seq<ClientCard>>, start: int)
    requires GroupsMap(sorted, byValue) && RunIn(byValue, start)
    ensures StraightFrom(sorted, start) == Some(LastsIn(byValue, start, 5))
  {
    MapRun(sorted, byValue, start);
    var s := StraightFrom(sorted, start).value;
    var t := LastsIn(byValue, start, 5);
    assert |s| == 5;
    forall k | 0 <= k < 5 ensures s[k] == t[k] {
      MapStraightCard(sorted, byValue, start, k);
    }
    assert s == t;
  }

  lemma MapStraightCard(sorted: seq<ClientCard>, byValue: map<int, seq<ClientCard>>, start: int, k: int)
    requires GroupsMap(sorted, byValue) && RunIn(byValue, start) && RunFrom(sorted, start) && 0 <= k < 5
    ensures StraightFrom(sorted, start).value[k] == LastsIn(byValue, start, 5)[k]
  {
    StraightFromAt(sorted, start, k);
    assert byValue[start + k] == OfValue(sorted, start + k);
  }

  /** The card of the straight at position `k` is the last card of value `start + k`. */
  lemma StraightFromAt(sorted: seq<ClientCard>, start: int, k: int)
    requires RunFrom(sorted, start) && 0 <= k < 5
    ensures |StraightFrom(sorted, start).value| == 5
    ensures OfValue(sorted, start + k) != []
    ensures StraightFrom(sorted, start).value[k] == Last(OfValue(sorted, start + k))
  {
    assert start <= start + k < start + 5;
  }

  /** One start of the outer loop adds the straight found from it, if any. */
  lemma StraightsStep(sorted: seq<ClientCard>, byValue: map<int, seq<ClientCard>>, start: nat, valid: bool, straight: seq<ClientCard>)
    requires GroupsMap(sorted, byValue)
    requires valid <==> RunIn(byValue, start)
    requires valid ==> straight == LastsIn(byValue, start, 5)
    ensures Straights(sorted, start + 1) == Straights(sorted, start) + (if valid then [straight] else [])
  {
    MapRun(sorted, byValue, start);
    if valid {
      MapStraight(sorted, byValue, start);
    }
  }

  /** The inner loop of one start: collect the last card of each of five values, or stop at a missing one. */
  method StraightAt(byValue: map<int, seq<ClientCard>>, start: int) returns (valid: bool, straight: seq<ClientCard>)
    ensures valid <==> RunIn(byValue, start)
    ensures valid ==> straight == LastsIn(byValue, start, 5)
  {
    valid := true;
    straight := [];
    var i := 0;
    while i < 5
      invariant 0 <= i <= 5
      invariant forall v :: start <= v < start + i ==> v in byValue && byValue[v] != []
      invariant straight == LastsIn(byValue, start, i)
    {
      var value := start + i;
      if value !in byValue || |byValue[value]| == 0 {
        valid := false;
        break;
      }
      straight := straight + [byValue[value][|byValue[value]| - 1]];
      i := i + 1;
    }
  }

  /** A group taken from a sorted hand is sorted too. */
  lemma {:induction false} OfValueSorted(sorted: seq<ClientCard>, v: int)
    requires SortedBy(sorted, CardLe)
    ensures SortedBy(OfValue(sorted, v), CardLe)
    decreases |sorted|
  {
    if sorted != [] {
      var p := sorted[..|sorted| - 1];
      var c := sorted[|sorted| - 1];
      assert SortedBy(p, CardLe);
      OfValueSorted(p, v);
      var g := OfValue(p, v);
      forall x | x in g ensures CardLe(x, c) {
        var m :| 0 <= m < |p| && p[m] == x;
      }
    }
  }

  /** In a sorted hand, the last card of a value has the highest suit of that value. */
  lemma {:induction false} LastIsHighest(sorted: seq<ClientCard>, v: int)
    requires SortedBy(sorted, CardLe) && OfValue(sorted, v) != []
    ensures TopOf(sorted, v, Last(OfValue(sorted, v)))
  {
    var g := OfValue(sorted, v);
    OfValueSorted(sorted, v);
    assert Last(g) in g;
    SortedGroupTop(g, v);
  }

  /** In a sorted group of one value, no card has a higher suit than the last. */
  lemma SortedGroupTop(g: seq<ClientCard>, v: int)
    requires SortedBy(g, CardLe) && g != []
    requires forall c :: c in g ==> c.value == v
    ensures forall c :: c in g ==> c.suitValue <= Last(g).suitValue
  {
    forall m | 0 <= m < |g| - 1 ensures g[m].suitValue <= Last(g).suitValue {
      assert CardLe(g[m], g[|g| - 1]);
    }
  }

  lemma {:induction false} StraightsFrom(sorted: seq<ClientCard>, n: nat, s: seq<ClientCard>) returns (start: nat)
    requires s in Straights(sorted, n)
    ensures start < n && StraightFrom(sorted, start) == Some(s)
    decreases n
  {
    if s in Straights(sorted, n - 1) {
      start := StraightsFrom(sorted, n - 1, s);
    } else {
      start := n - 1;
    }
  }

  /** Five cards of the hand with consecutive values, each the highest suit of its value. */
  ghost predicate HighStraight(s: seq<ClientCard>, cards: seq<ClientCard>) {
    && |s| == 5
    && (forall k :: 0 <= k < 5 ==> s[k] in cards && s[k].value == s[0].value + k)
    && (forall k, c :: 0 <= k < 5 && c in cards && c.value == s[k].value ==> c.suitValue <= s[k].suitValue)
  }

  /** Sorting keeps the cards of the hand. */
  lemma SortedMembers(cards: seq<ClientCard>)
    ensures forall c :: c in SortCards(cards) <==> c in cards
  {
    var sorted := SortCards(cards);
    assert forall c :: c in cards <==> c in multiset(cards);
    assert forall c :: c in sorted <==> c in multiset(sorted);
  }

  lemma {:induction false} StraightShape(sorted: seq<ClientCard>, start: int)
    requires HighLasts(sorted) && RunFrom(sorted, start)
    ensures HighStraight(StraightFrom(sorted, start).value, sorted)
    ensures StraightFrom(sorted, start).value[0].value == start
  {
    var s := StraightFrom(sorted, start).value;
    forall k | 0 <= k < 5
      ensures s[k] in sorted && s[k].value == start + k
    {
      StraightCard(sorted, start, k);
    }
    forall k, c | 0 <= k < 5 && c in sorted && c.value == s[k].value
      ensures c.suitValue <= s[k].suitValue
    {
      StraightCard(sorted, start, k);
    }
  }

  /** `x` is a card of value `v` in the hand, with the highest suit among the cards of that value. */
  ghost predicate TopOf(cards: seq<ClientCard>, v: int, x: ClientCard) {
    && x in cards && x.value == v
    && forall c :: c in cards && c.value == v ==> c.suitValue <= x.suitValue
  }

  /** Every group's last card is the highest of its value. */
  ghost predicate HighLasts(sorted: seq<ClientCard>) {
    forall v :: OfValue(sorted, v) != [] ==> TopOf(sorted, v, Last(OfValue(sorted, v)))
  }

  lemma GroupsTop(sorted: seq<ClientCard>)
    requires SortedBy(sorted, CardLe)
    ensures HighLasts(sorted)
  {
    forall v | OfValue(sorted, v) != [] ensures TopOf(sorted, v, Last(OfValue(sorted, v))) {
      LastIsHighest(sorted, v);
    }
  }

  lemma {:induction false} StraightCard(sorted: seq<ClientCard>, start: int, k: int)
    requires HighLasts(sorted) && RunFrom(sorted, start) && 0 <= k < 5
    ensures TopOf(sorted, start + k, StraightFrom(sorted, start).value[k])
  {
    StraightFromAt(sorted, start, k);
  }

  /** findStraights: every candidate starts at a value 0..8 and is a high straight of the hand. */
  lemma StraightsSound(cards: seq<ClientCard>, s: seq<ClientCard>)
    requires s in Straights(SortCards(cards), 9)
    ensures HighStraight(s, cards) && 0 <= s[0].value <= 8
  {
    var sorted := SortCards(cards);
    var start := StraightsFrom(sorted, 9, s);
    SortCardsSorted(cards);
    GroupsTop(sorted);
    StraightShape(sorted, start);
    SortedMembers(cards);
  }

  /** The hand holds a card of value `v`. */
  predicate HoldsValue(cards: seq<ClientCard>, v: int) {
    exists c :: c in cards && c.value == v
  }

  /** findStraights offers a straight from each start 0..8 whose five values the hand holds. */
  lemma StraightsOffered(cards: seq<ClientCard>, start: nat)
    requires start <= 8
    requires forall v :: start <= v < start + 5 ==> HoldsValue(cards, v)
    ensures StraightFrom(SortCards(cards), start).Some?
    ensures StraightFrom(SortCards(cards), start).value in Straights(SortCards(cards), 9)
  {
    var sorted := SortCards(cards);
    SortedMembers(cards);
    forall v | start <= v < start + 5 ensures OfValue(sorted, v) != [] {
      assert HoldsValue(cards, v);
      var c :| c in cards && c.value == v;
      assert c in sorted;
    }
    StraightsHas(sorted, 9, start);
  }

  lemma {:induction false} StraightsHas(sorted: seq<ClientCard>, n: nat, start: nat)
    requires start < n && StraightFrom(sorted, start).Some?
    ensures StraightFrom(sorted, start).value in Straights(sorted, n)
    decreases n
  {
    if start < n - 1 {
      StraightsHas(sorted, n - 1, start);
    }
  }

  // ---------------------------------------------------------------------------
  // Flushes: the highest five cards of each suit with five or more
  // ---------------------------------------------------------------------------

  /** The keys of the map keyed by suit name: each suit where it first occurs. */
  function SuitKeys(cards: seq<ClientCard>): (r: seq<Suit>)
    ensures forall s :: s in r <==> exists c :: c in cards && c.suit == s
    ensures forall i, j :: 0 <= i < j < |r| ==> r[i] != r[j]
  {
    if cards == [] then []
    else
      var p := cards[..|cards| - 1];
      var c := cards[|cards| - 1];
      assert forall x :: x in cards <==> x in p || x == c;
      var ks := SuitKeys(p);
      if c.suit in ks then ks else ks + [c.suit]
  }

  /** The cards of one suit, in the order they come. */
  function OfSuit(cards: seq<ClientCard>, s: Suit): (r: seq<ClientCard>)
    ensures forall c :: c in r <==> c in cards && c.suit == s
    ensures r == [] <==> forall c :: c in cards ==> c.suit != s
  {
    if cards == [] then []
    else
      var p := cards[..|cards| - 1];
      var c := cards[|cards| - 1];
      assert forall x :: x in cards <==> x in p || x == c;
      OfSuit(p, s) + (if c.suit == s then [c] else [])
  }

  /** `Object.values(bySuit)`: the suit groups, in order of first occurrence. */
  function SuitGroups(cards: seq<ClientCard>): (gs: seq<seq<ClientCard>>)
    ensures |gs| == |SuitKeys(cards)|
  {
    var keys := SuitKeys(cards);
    seq(|keys|, k requires 0 <= k < |keys| => OfSuit(cards, keys[k]))
  }

  method GroupBySuit(cards: seq<ClientCard>) returns (bySuit: map<Suit, seq<ClientCard>>, suits: seq<Suit>)
    ensures suits == SuitKeys(cards)
    ensures forall s :: s in bySuit <==> s in suits
    ensures forall s :: s in bySuit ==> bySuit[s] == OfSuit(cards, s)
  {
    bySuit := map[];
    suits := [];
    for i := 0 to |cards|
      invariant suits == SuitKeys(cards[..i])
      invariant forall s :: s in bySuit <==> s in suits
      invariant forall s :: s in bySuit ==> bySuit[s] == OfSuit(cards[..i], s)
    {
      var c := cards[i];
      assert cards[..i + 1][..i] == cards[..i];
      if c.suit !in bySuit {
        assert c.suit !in SuitKeys(cards[..i]);
        bySuit := bySuit[c.suit := []];
        suits := suits + [c.suit];
      }
      bySuit := bySuit[c.suit := bySuit[c.suit] + [c]];
      forall s | s in bySuit
        ensures bySuit[s] == OfSuit(cards[..i + 1], s)
      {
        assert OfSuit(cards[..i + 1], s) == OfSuit(cards[..i], s) + (if c.suit == s then [c] else []);
      }
    }
    assert cards[..|cards|] == cards;
  }

  /** `slice(-5)`: the last five. */
  function TopFive(sorted: seq<ClientCard>): (r: seq<ClientCard>)
    requires |sorted| >= 5
    ensures |r| == 5
  {
    sorted[|sorted| - 5..]
  }

  /** The top five of every suit group with five cards or more, groups in order. */
  function AllFlushes(gs: seq<seq<ClientCard>>): seq<seq<ClientCard>> {
    if gs == [] then []
    else
      var g := gs[|gs| - 1];
      AllFlushes(gs[..|gs| - 1]) + (if |g| >= 5 then [TopFive(SortCards(g))] else [])
  }

  method FindFlushes(cards: seq<ClientCard>) returns (results: seq<seq<ClientCard>>)
    ensures results == AllFlushes(SuitGroups(cards))
  {
    var bySuit, suits := GroupBySuit(cards);
    ghost var gs := SuitGroups(cards);
    results := [];
    for k := 0 to |suits|
      invariant results == AllFlushes(gs[..k])
    {
      SuitGroupAt(cards, bySuit, suits, k);
      var suitCards := bySuit[suits[k]];
      AllFlushesStep(gs, k);
      if |suitCards| >= 5 {
        var sorted := SortCards(suitCards);
        results := results + [TopFive(sorted)];
      }
    }
    assert gs[..|suits|] == gs;
  }

  /** Read through the map, the group of the `k`-th suit is the `k`-th suit group. */
  lemma SuitGroupAt(cards: seq<ClientCard>, bySuit: map<Suit, seq<ClientCard>>, suits: seq<Suit>, k: int)
    requires suits == SuitKeys(cards) && 0 <= k < |suits|
    requires forall s :: s in bySuit <==> s in suits
    requires forall s :: s in bySuit ==> bySuit[s] == OfSuit(cards, s)
    ensures suits[k] in bySuit && bySuit[suits[k]] == SuitGroups(cards)[k]
  {
  }

  lemma AllFlushesStep(gs: seq<seq<ClientCard>>, k: int)
    requires 0 <= k < |gs|
    ensures AllFlushes(gs[..k + 1]) == AllFlushes(gs[..k]) + (if |gs[k]| >= 5 then [TopFive(SortCards(gs[k]))] else [])
  {
    assert gs[..k + 1][..k] == gs[..k];
  }

  lemma {:induction false} FlushesFrom(gs: seq<seq<ClientCard>>, f: seq<ClientCard>) returns (k: nat)
    requires f in AllFlushes(gs)
    ensures k < |gs| && |gs[k]| >= 5 && f == TopFive(SortCards(gs[k]))
    decreases |gs|
  {
    var n := |gs| - 1;
    if f in AllFlushes(gs[..n]) {
      k := FlushesFrom(gs[..n], f);
      assert gs[..n][k] == gs[k];
    } else {
      k := n;
    }
  }

  /** The top five of a sorted group: every other card of the group comes below each of them. */
  lemma {:induction false} TopFiveHighest(g: seq<ClientCard>)
    requires |g| >= 5
    ensures forall x :: x in TopFive(SortCards(g)) ==> x in g
    ensures forall y :: y in g ==> y in TopFive(SortCards(g)) || forall x :: x in TopFive(SortCards(g)) ==> CardLe(y, x)
  {
    var sorted := SortCards(g);
    var f := TopFive(sorted);
    var n := |sorted|;
    SortCardsSorted(g);
    SortedMembers(g);
    forall y | y in g && y !in f ensures forall x :: x in f ==> CardLe(y, x) {
      var m :| 0 <= m < n && sorted[m] == y;
      forall x | x in f ensures CardLe(y, x) {
        var q :| 0 <= q < 5 && f[q] == x;
        assert x == sorted[n - 5 + q];
      }
    }
  }

  /** findFlushes: every candidate is five cards of one suit of the hand, the highest of that suit. */
  lemma FlushesSound(cards: seq<ClientCard>, f: seq<ClientCard>)
    requires f in AllFlushes(SuitGroups(cards))
    ensures |f| == 5
    ensures forall x :: x in f ==> x in cards && x.suit == f[0].suit
    ensures forall y :: y in cards && y.suit == f[0].suit ==> y in f || forall x :: x in f ==> CardLe(y, x)
  {
    var gs := SuitGroups(cards);
    var k := FlushesFrom(gs, f);
    var s := SuitKeys(cards)[k];
    assert gs[k] == OfSuit(cards, s);
    TopFiveHighest(gs[k]);
    assert f[0] in f;
  }

  lemma {:induction false} AllFlushesHas(gs: seq<seq<ClientCard>>, k: nat)
    requires k < |gs| && |gs[k]| >= 5
    ensures TopFive(SortCards(gs[k])) in AllFlushes(gs)
    decreases |gs|
  {
    if k < |gs| - 1 {
      assert gs[..|gs| - 1][k] == gs[k];
      AllFlushesHas(gs[..|gs| - 1], k);
    }
  }

  /** findFlushes offers the top five of every suit held five times or more. */
  lemma FlushesOffered(cards: seq<ClientCard>, c: ClientCard)
    requires c in cards && |OfSuit(cards, c.suit)| >= 5
    ensures TopFive(SortCards(OfSuit(cards, c.suit))) in AllFlushes(SuitGroups(cards))
  {
    var keys := SuitKeys(cards);
    assert c.suit in keys;
    var k :| 0 <= k < |keys| && keys[k] == c.suit;
    AllFlushesHas(SuitGroups(cards), k);
  }

  // ---------------------------------------------------------------------------
  // Full houses and four of a kind, over `Object.entries(byRank)`
  // ---------------------------------------------------------------------------

  /** `Object.entries(byRank)`: each value with its group, ascending by value. */
  function Entries(cards: seq<ClientCard>): (es: seq<(int, seq<ClientCard>)>)
    ensures |es| == |ValueKeys(cards)|
    ensures forall k :: 0 <= k < |es| ==> es[k] == (ValueKeys(cards)[k], OfValue(cards, ValueKeys(cards)[k]))
  {
    var keys := ValueKeys(cards);
    seq(|keys|, k requires 0 <= k < |keys| => (keys[k], OfValue(cards, keys[k])))
  }

  /** `.filter(([, v]) => v.length >= n)`. */
  function AtLeast(es: seq<(int, seq<ClientCard>)>, n: nat): (r: seq<(int, seq<ClientCard>)>)
    ensures forall e :: e in r <==> e in es && |e.1| >= n
  {
    if es == [] then []
    else
      var p := es[..|es| - 1];
      var e := es[|es| - 1];
      assert forall x :: x in es <==> x in p || x == e;
      AtLeast(p, n) + (if |e.1| >= n then [e] else [])
  }

  /** `.filter(([, v]) => v.length === n)`. */
  function Exactly(es: seq<(int, seq<ClientCard>)>, n: nat): (r: seq<(int, seq<ClientCard>)>)
    ensures forall e :: e in r <==> e in es && |e.1| == n
  {
    if es == [] then []
    else
      var p := es[..|es| - 1];
      var e := es[|es| - 1];
      assert forall x :: x in es <==> x in p || x == e;
      Exactly(p, n) + (if |e.1| == n then [e] else [])
  }

  ghost predicate Sized(es: seq<(int, seq<ClientCard>)>, n: nat) {
    forall e :: e in es ==> |e.1| >= n
  }

  /** The houses of one triple with each pair of another value, pairs in order. */
  function HousesWith(t: (int, seq<ClientCard>), ps: seq<(int, seq<ClientCard>)>): seq<seq<ClientCard>>
    requires |t.1| >= 3 && Sized(ps, 2)
  {
    if ps == [] then []
    else
      var p := ps[|ps| - 1];
      assert p in ps;
      HousesWith(t, ps[..|ps| - 1]) + (if t.0 != p.0 then [t.1[..3] + p.1[..2]] else [])
  }

  /** Every triple with every pair of another value, triples in order. */
  function Houses(ts: seq<(int, seq<ClientCard>)>, ps: seq<(int, seq<ClientCard>)>): seq<seq<ClientCard>>
    requires Sized(ts, 3) && Sized(ps, 2)
  {
    if ts == [] then []
    else
      assert ts[|ts| - 1] in ts;
      Houses(ts[..|ts| - 1], ps) + HousesWith(ts[|ts| - 1], ps)
  }

  /** The full houses of a hand. */
  function FullHouses(cards: seq<ClientCard>): seq<seq<ClientCard>> {
    Houses(AtLeast(Entries(cards), 3), AtLeast(Entries(cards), 2))
  }

  /** The grouping loop followed by `Object.entries(byRank)`. */
  method GroupEntries(cards: seq<ClientCard>) returns (entries: seq<(int, seq<ClientCard>)>)
    ensures entries == Entries(cards)
  {
    var byRank, keys := GroupByValue(cards);
    entries := seq(|keys|, k requires 0 <= k < |keys| && keys[k] in byRank => (keys[k], byRank[keys[k]]));
  }

  /** The inner loop of findFullHouses: one triple against every pair. */
  method PairUp(t: (int, seq<ClientCard>), pairs: seq<(int, seq<ClientCard>)>) returns (results: seq<seq<ClientCard>>)
    requires |t.1| >= 3 && Sized(pairs, 2)
    ensures results == HousesWith(t, pairs)
  {
    results := [];
    for b := 0 to |pairs|
      invariant results == HousesWith(t, pairs[..b])
    {
      var p := pairs[b];
      assert p in pairs;
      assert pairs[..b + 1][..b] == pairs[..b];
      if t.0 != p.0 {
        results := results + [t.1[..3] + p.1[..2]];
      }
    }
    assert pairs[..|pairs|] == pairs;
  }

  method FindFullHouses(cards: seq<ClientCard>) returns (results: seq<seq<ClientCard>>)
    ensures results == FullHouses(cards)
  {
    var entries := GroupEntries(cards);
    var triples := AtLeast(entries, 3);
    var pairs := AtLeast(entries, 2);
    results := [];
    for a := 0 to |triples|
      invariant results == Houses(triples[..a], pairs)
    {
      var t := triples[a];
      assert t in triples;
      assert triples[..a + 1][..a] == triples[..a];
      var row := PairUp(t, pairs);
      results := results + row;
    }
    assert triples[..|triples|] == triples;
  }

  /** `cards.find(c => c.value !== v)`. */
  function FirstOther(cards: seq<ClientCard>, v: int): (r: Option<ClientCard>)
    ensures r.Some? ==> r.value in cards && r.value.value != v
    ensures r.Some? ==> exists i :: 0 <= i < |cards| && cards[i] == r.value && forall j :: 0 <= j < i ==> cards[j].value == v
    ensures r.None? <==> forall c :: c in cards ==> c.value == v
  {
    if cards == [] then None
    else if cards[0].value != v then Some(cards[0])
    else
      assert forall c :: c in cards <==> c == cards[0] || c in cards[1..];
      FirstOther(cards[1..], v)
  }

  /** Each four of a kind with its kicker, when the hand has one, fours in order. */
  function Fours(fs: seq<(int, seq<ClientCard>)>, cards: seq<ClientCard>): seq<seq<ClientCard>> {
    if fs == [] then []
    else
      var f := fs[|fs| - 1];
      Fours(fs[..|fs| - 1], cards) + (match FirstOther(cards, f.0) case Some(kicker) => [f.1 + [kicker]] case None => [])
  }

  lemma FoursStep(fs: seq<(int, seq<ClientCard>)>, a: int, cards: seq<ClientCard>)
    requires 0 <= a < |fs|
    ensures Fours(fs[..a + 1], cards) == Fours(fs[..a], cards) +
      (match FirstOther(cards, fs[a].0) case Some(kicker) => [fs[a].1 + [kicker]] case None => [])
  {
    assert fs[..a + 1][..a] == fs[..a];
  }

  method FindFourOfAKind(cards: seq<ClientCard>) returns (results: seq<seq<ClientCard>>)
    ensures results == Fours(Exactly(Entries(cards), 4), cards)
  {
    var entries := GroupEntries(cards);
    var fours := Exactly(entries, 4);
    results := [];
    for a := 0 to |fours|
      invariant results == Fours(fours[..a], cards)
    {
      var f := fours[a];
      FoursStep(fours, a, cards);
      var kicker := FirstOther(cards, f.0);
      if kicker.Some? {
        results := results + [f.1 + [kicker.value]];
      }
    }
    assert fours[..|fours|] == fours;
  }

  /** Entries whose groups hold cards of the hand of the entry's value. */
  ghost predicate FromHand(es: seq<(int, seq<ClientCard>)>, cards: seq<ClientCard>) {
    forall e, c :: e in es && c in e.1 ==> c in cards && c.value == e.0
  }

  /** The entry of each value the hand holds. */
  lemma EntryOf(cards: seq<ClientCard>, c: ClientCard)
    requires c in cards
    ensures (c.value, OfValue(cards, c.value)) in Entries(cards)
  {
    var keys := ValueKeys(cards);
    assert c.value in keys;
    var k :| 0 <= k < |keys| && keys[k] == c.value;
    assert Entries(cards)[k] == (c.value, OfValue(cards, c.value));
  }

  lemma EntriesFromHand(cards: seq<ClientCard>)
    ensures FromHand(Entries(cards), cards)
  {
    var es := Entries(cards);
    forall e, c | e in es && c in e.1 ensures c in cards && c.value == e.0 {
      var k :| 0 <= k < |es| && es[k] == e;
    }
  }

  /** Three cards of one value and two of another, all from the hand. */
  ghost predicate FullHouseShape(h: seq<ClientCard>, cards: seq<ClientCard>) {
    && |h| == 5
    && (forall c :: c in h ==> c in cards)
    && h[0].value == h[1].value == h[2].value
    && h[3].value == h[4].value
    && h[0].value != h[3].value
  }

  lemma {:induction false} HousesWithSound(t: (int, seq<ClientCard>), ps: seq<(int, seq<ClientCard>)>, cards: seq<ClientCard>, h: seq<ClientCard>)
    requires |t.1| >= 3 && Sized(ps, 2) && FromHand([t], cards) && FromHand(ps, cards)
    requires h in HousesWith(t, ps)
    ensures FullHouseShape(h, cards)
    decreases |ps|
  {
    var n := |ps| - 1;
    var p := ps[n];
    if h in HousesWith(t, ps[..n]) {
      HousesWithSound(t, ps[..n], cards, h);
    } else {
      assert h == t.1[..3] + p.1[..2];
      assert p in ps && t in [t];
      forall c | c in h ensures c in cards {
        var m :| 0 <= m < 5 && h[m] == c;
        if m < 3 {
          assert c in t.1;
        } else {
          assert c in p.1;
        }
      }
      assert t.1[0] in t.1 && t.1[1] in t.1 && t.1[2] in t.1;
      assert p.1[0] in p.1 && p.1[1] in p.1;
    }
  }

  lemma {:induction false} HousesSound(ts: seq<(int, seq<ClientCard>)>, ps: seq<(int, seq<ClientCard>)>, cards: seq<ClientCard>, h: seq<ClientCard>)
    requires Sized(ts, 3) && Sized(ps, 2) && FromHand(ts, cards) && FromHand(ps, cards)
    requires h in Houses(ts, ps)
    ensures FullHouseShape(h, cards)
    decreases |ts|
  {
    var n := |ts| - 1;
    var t := ts[n];
    assert t in ts;
    if h in Houses(ts[..n], ps) {
      HousesSound(ts[..n], ps, cards, h);
    } else {
      HousesWithSound(t, ps, cards, h);
    }
  }

  /** findFullHouses: every candidate is three cards of one value and two of another, from the hand. */
  lemma FullHousesSound(cards: seq<ClientCard>, h: seq<ClientCard>)
    requires h in FullHouses(cards)
    ensures FullHouseShape(h, cards)
  {
    EntriesFromHand(cards);
    HousesSound(AtLeast(Entries(cards), 3), AtLeast(Entries(cards), 2), cards, h);
  }

  lemma {:induction false} HousesWithHas(t: (int, seq<ClientCard>), ps: seq<(int, seq<ClientCard>)>, p: (int, seq<ClientCard>))
    requires |t.1| >= 3 && Sized(ps, 2) && p in ps && t.0 != p.0
    ensures t.1[..3] + p.1[..2] in HousesWith(t, ps)
    decreases |ps|
  {
    var n := |ps| - 1;
    if p != ps[n] {
      assert p in ps[..n];
      HousesWithHas(t, ps[..n], p);
    }
  }

  lemma {:induction false} HousesHas(ts: seq<(int, seq<ClientCard>)>, ps: seq<(int, seq<ClientCard>)>, t: (int, seq<ClientCard>), p: (int, seq<ClientCard>))
    requires Sized(ts, 3) && Sized(ps, 2) && t in ts && p in ps && t.0 != p.0
    ensures t.1[..3] + p.1[..2] in Houses(ts, ps)
    decreases |ts|
  {
    var n := |ts| - 1;
    if t != ts[n] {
      assert t in ts[..n];
      HousesHas(ts[..n], ps, t, p);
    } else {
      HousesWithHas(t, ps, p);
    }
  }

  /** findFullHouses offers the first three of every value held three times with the first two of every other value held twice. */
  lemma FullHousesOffered(cards: seq<ClientCard>, a: ClientCard, b: ClientCard)
    requires a in cards && b in cards && a.value != b.value
    requires |OfValue(cards, a.value)| >= 3 && |OfValue(cards, b.value)| >= 2
    ensures OfValue(cards, a.value)[..3] + OfValue(cards, b.value)[..2] in FullHouses(cards)
  {
    EntryOf(cards, a);
    EntryOf(cards, b);
    HousesHas(AtLeast(Entries(cards), 3), AtLeast(Entries(cards), 2), (a.value, OfValue(cards, a.value)), (b.value, OfValue(cards, b.value)));
  }

  lemma {:induction false} FoursFrom(fs: seq<(int, seq<ClientCard>)>, cards: seq<ClientCard>, f: seq<ClientCard>) returns (e: (int, seq<ClientCard>))
    requires f in Fours(fs, cards)
    ensures e in fs && FirstOther(cards, e.0).Some? && f == e.1 + [FirstOther(cards, e.0).value]
    decreases |fs|
  {
    var n := |fs| - 1;
    if f in Fours(fs[..n], cards) {
      e := FoursFrom(fs[..n], cards, f);
    } else {
      e := fs[n];
    }
  }

  /** findFourOfAKind: every candidate is the four cards of one value followed by a card of another value. */
  lemma FoursSound(cards: seq<ClientCard>, f: seq<ClientCard>)
    requires f in Fours(Exactly(Entries(cards), 4), cards)
    ensures |f| == 5 && f[..4] == OfValue(cards, f[0].value)
    ensures f[4] in cards && f[4].value != f[0].value
  {
    var e := FoursFrom(Exactly(Entries(cards), 4), cards, f);
    EntriesFromHand(cards);
    var es := Entries(cards);
    var k :| 0 <= k < |es| && es[k] == e;
    assert e.1 == OfValue(cards, e.0);
    assert e.1[0] in e.1;
    assert f[..4] == e.1;
  }

  lemma {:induction false} FoursHas(fs: seq<(int, seq<ClientCard>)>, cards: seq<ClientCard>, e: (int, seq<ClientCard>))
    requires e in fs && FirstOther(cards, e.0).Some?
    ensures e.1 + [FirstOther(cards, e.0).value] in Fours(fs, cards)
    decreases |fs|
  {
    var n := |fs| - 1;
    if e != fs[n] {
      assert e in fs[..n];
      FoursHas(fs[..n], cards, e);
    }
  }

  /** findFourOfAKind attaches a kicker to every value held four times, whenever the hand holds another value. */
  lemma FoursKicker(cards: seq<ClientCard>, c: ClientCard, d: ClientCard)
    requires c in cards && d in cards && d.value != c.value && |OfValue(cards, c.value)| == 4
    ensures FirstOther(cards, c.value).Some?
    ensures OfValue(cards, c.value) + [FirstOther(cards, c.value).value] in Fours(Exactly(Entries(cards), 4), cards)
  {
    EntryOf(cards, c);
    FoursHas(Exactly(Entries(cards), 4), cards, (c.value, OfValue(cards, c.value)));
  }

  // ---------------------------------------------------------------------------
  // find5CardHands and findAllHands
  // ---------------------------------------------------------------------------

  /** Straights, then flushes, then full houses, then four of a kind. */
  function FiveCardHands(cards: seq<ClientCard>): seq<seq<ClientCard>> {
    Straights(SortCards(cards), 9) + AllFlushes(SuitGroups(cards)) + FullHouses(cards) + Fours(Exactly(Entries(cards), 4), cards)
  }

  method Find5CardHands(cards: seq<ClientCard>) returns (results: seq<seq<ClientCard>>)
    ensures results == FiveCardHands(cards)
  {
    results := [];
    var straights := FindStraights(cards);
    results := results + straights;
    assert results == straights;
    var flushes := FindFlushes(cards);
    results := results + flushes;
    var fullHouses := FindFullHouses(cards);
    results := results + fullHouses;
    var fours := FindFourOfAKind(cards);
    results := results + fours;
  }

  /** The candidates of each size: every single, every pair, one triple per value, the five-card hands. */
  function AllHands(cards: seq<ClientCard>, count: int): seq<seq<ClientCard>> {
    if count == 1 then Singles(cards)
    else if count == 2 then AllPairs(Groups(cards))
    else if count == 3 then AllTriples(Groups(cards))
    else if count == 5 then FiveCardHands(cards)
    else []
  }

  method FindAllHands(cards: seq<ClientCard>, count: int) returns (results: seq<seq<ClientCard>>)
    ensures results == AllHands(cards, count)
  {
    if count == 1 {
      results := FindSingles(cards);
      return;
    }
    if count == 2 {
      results := FindPairs(cards);
      return;
    }
    if count == 3 {
      results := FindTriples(cards);
      return;
    }
    if count == 5 {
      results := Find5CardHands(cards);
      return;
    }
    results := [];
  }

  /** Every candidate has the requested size and consists of cards of the hand. */
  lemma CandidatesFromHand(cards: seq<ClientCard>, count: int, h: seq<ClientCard>)
    requires h in AllHands(cards, count)
    ensures |h| == count
    ensures forall c :: c in h ==> c in cards
  {
    if count == 1 {
      var k :| 0 <= k < |cards| && Singles(cards)[k] == h;
    } else if count == 2 {
      PairsSound(cards);
    } else if count == 3 {
      TriplesOnePerValue(cards);
    } else if count == 5 {
      FiveFromHand(cards, h);
    }
  }

  lemma FiveFromHand(cards: seq<ClientCard>, h: seq<ClientCard>)
    requires h in FiveCardHands(cards)
    ensures |h| == 5
    ensures forall c :: c in h ==> c in cards
  {
    var straights := Straights(SortCards(cards), 9);
    var flushes := AllFlushes(SuitGroups(cards));
    var houses := FullHouses(cards);
    var fours := Fours(Exactly(Entries(cards), 4), cards);
    assert FiveCardHands(cards) == straights + flushes + houses + fours;
    if h in straights {
      StraightInHand(cards, h);
    } else if h in flushes {
      FlushInHand(cards, h);
    } else if h in houses {
      FullHousesSound(cards, h);
    } else {
      FourInHand(cards, h);
    }
  }

  lemma StraightInHand(cards: seq<ClientCard>, h: seq<ClientCard>)
    requires h in Straights(SortCards(cards), 9)
    ensures |h| == 5 && forall c :: c in h ==> c in cards
  {
    StraightsSound(cards, h);
    forall c | c in h ensures c in cards {
      var k :| 0 <= k < 5 && h[k] == c;
    }
  }

  lemma FlushInHand(cards: seq<ClientCard>, h: seq<ClientCard>)
    requires h in AllFlushes(SuitGroups(cards))
    ensures |h| == 5 && forall c :: c in h ==> c in cards
  {
    FlushesSound(cards, h);
  }

  lemma FourInHand(cards: seq<ClientCard>, h: seq<ClientCard>)
    requires h in Fours(Exactly(Entries(cards), 4), cards)
    ensures |h| == 5 && forall c :: c in h ==> c in cards
  {
    FoursSound(cards, h);
    var g := OfValue(cards, h[0].value);
    forall c | c in h ensures c in cards {
      var k :| 0 <= k < 5 && h[k] == c;
      if k < 4 {
        assert c == g[k] && g[k] in g;
      }
    }
  }

  // ---------------------------------------------------------------------------
  // findBestPlay
  // ---------------------------------------------------------------------------

  /** The filter of findBestPlay: the candidate is a detected hand that beats the last play. */
  predicate Legal(h: seq<ClientCard>, lastPlay: Option<Hand>) {
    DetectHandType(h).Some? && CanPlayOn(DetectHandType(h).value, lastPlay)
  }

  /** `possibleHands.filter(...)`. */
  function LegalOnes(hands: seq<seq<ClientCard>>, lastPlay: Option<Hand>): (r: seq<seq<ClientCard>>)
    ensures forall h :: h in r <==> h in hands && Legal(h, lastPlay)
  {
    if hands == [] then []
    else
      var p := hands[..|hands| - 1];
      var h := hands[|hands| - 1];
      assert forall x :: x in hands <==> x in p || x == h;
      LegalOnes(p, lastPlay) + (if Legal(h, lastPlay) then [h] else [])
  }

  /** The value detectHandType gives a candidate. */
  function Weight(h: seq<ClientCard>): int {
    match DetectHandType(h)
    case Some(hand) => hand.value
    case None => 0
  }

  /** The comparator `handA.value - handB.value` lets `a` come first. */
  predicate Lighter(a: seq<ClientCard>, b: seq<ClientCard>) {
    Weight(a) - Weight(b) <= 0
  }

  /** A stable sort by a key puts first the earliest element of least key. */
  lemma {:induction false} SortByHead<T>(s: seq<T>, le: (T, T) -> bool, key: T -> int) returns (idx: nat)
    requires s != []
    requires forall a, b {:trigger le(a, b)} :: le(a, b) <==> key(a) <= key(b)
    ensures idx < |s| && SortBy(s, le)[0] == s[idx]
    ensures forall k :: 0 <= k < |s| ==> key(s[idx]) <= key(s[k])
    ensures forall k :: 0 <= k < idx ==> key(s[k]) > key(s[idx])
    decreases |s|
  {
    SortByFirst(s, le);
    if |s| == 1 {
      idx := 0;
    } else {
      var rest := s[1..];
      var j := SortByHead(rest, le, key);
      forall k | 0 < k < |s| ensures key(s[j + 1]) <= key(s[k]) {
        assert s[k] == rest[k - 1];
      }
      forall k | 0 < k < j + 1 ensures key(s[k]) > key(s[j + 1]) {
        assert s[k] == rest[k - 1];
      }
      idx := HeadStep(s, le, key, j);
    }
  }

  /** One insertion step of the stable sort: the new head is the first element or the old head. */
  lemma HeadStep<T>(s: seq<T>, le: (T, T) -> bool, key: T -> int, j: nat) returns (idx: nat)
    requires |s| > 1 && j < |s| - 1
    requires forall a, b {:trigger le(a, b)} :: le(a, b) <==> key(a) <= key(b)
    requires SortBy(s, le) == Insert(s[0], SortBy(s[1..], le), le)
    requires SortBy(s[1..], le)[0] == s[j + 1]
    requires forall k :: 0 < k < |s| ==> key(s[j + 1]) <= key(s[k])
    requires forall k :: 0 < k < j + 1 ==> key(s[k]) > key(s[j + 1])
    ensures idx < |s| && SortBy(s, le)[0] == s[idx]
    ensures forall k :: 0 <= k < |s| ==> key(s[idx]) <= key(s[k])
    ensures forall k :: 0 <= k < idx ==> key(s[k]) > key(s[idx])
  {
    InsertHead(s[0], SortBy(s[1..], le), le);
    if le(s[0], s[j + 1]) {
      idx := 0;
    } else {
      idx := j + 1;
    }
  }

  lemma SortByFirst<T>(s: seq<T>, le: (T, T) -> bool)
    requires s != []
    ensures SortBy(s, le) == Insert(s[0], SortBy(s[1..], le), le)
  {
    assert s == [s[0]] + s[1..];
  }

  lemma InsertHead<T>(x: T, s: seq<T>, le: (T, T) -> bool)
    requires s != []
    ensures Insert(x, s, le)[0] == if le(x, s[0]) then x else s[0]
  {
  }

  /**
   * The choice findBestPlay promises among `candidates`: a legal one of least value, and the
   * earliest such in the filtered list.
   */
  ghost predicate LightestLegal(b: seq<ClientCard>, candidates: seq<seq<ClientCard>>, lastPlay: Option<Hand>) {
    var valid := LegalOnes(candidates, lastPlay);
    && b in candidates
    && Legal(b, lastPlay)
    && (forall h :: h in candidates && Legal(h, lastPlay) ==> Weight(b) <= Weight(h))
    && (exists i :: 0 <= i < |valid| && valid[i] == b && forall j :: 0 <= j < i ==> Weight(valid[j]) > Weight(b))
  }

  /** The head of the valid plays sorted by value is the lightest legal candidate. */
  lemma HeadIsLightest(candidates: seq<seq<ClientCard>>, lastPlay: Option<Hand>)
    requires LegalOnes(candidates, lastPlay) != []
    ensures LightestLegal(SortBy(LegalOnes(candidates, lastPlay), Lighter)[0], candidates, lastPlay)
  {
    var valid := LegalOnes(candidates, lastPlay);
    var idx := SortByHead(valid, Lighter, Weight);
    var b := valid[idx];
    assert b in valid;
    forall h | h in candidates && Legal(h, lastPlay) ensures Weight(b) <= Weight(h) {
      assert h in valid;
      var k :| 0 <= k < |valid| && valid[k] == h;
    }
  }

  /** The first card of the sorted hand is its lowest card. */
  lemma LowestFirst(cards: seq<ClientCard>)
    requires cards != []
    ensures forall c :: c in cards ==> CardLe(SortCards(cards)[0], c)
  {
    var sorted := SortCards(cards);
    SortCardsSorted(cards);
    SortedMembers(cards);
    forall c | c in cards ensures CardLe(sorted[0], c) {
      var k :| 0 <= k < |sorted| && sorted[k] == c;
    }
  }

  /**
   * `findBestPlay`: nothing for an empty hand; the lowest card when leading; otherwise the
   * earliest legal candidate of least value among the candidates of the last play's size,
   * or nothing when no candidate is legal.
   */
  method FindBestPlay(cards: seq<ClientCard>, lastPlay: Option<Hand>) returns (r: Option<seq<ClientCard>>)
    ensures cards == [] ==> r.None?
    ensures cards != [] && lastPlay.None? ==>
      r == Some([SortCards(cards)[0]]) && forall c :: c in cards ==> CardLe(r.value[0], c)
    ensures cards != [] && lastPlay.Some? ==>
      var candidates := AllHands(SortCards(cards), |lastPlay.value.cards|);
      && (r.None? <==> forall h :: h in candidates ==> !Legal(h, lastPlay))
      && (r.Some? ==> LightestLegal(r.value, candidates, lastPlay) && |r.value| == |lastPlay.value.cards|)
    ensures r.Some? ==> forall c :: c in r.value ==> c in cards
  {
    if |cards| == 0 {
      return None;
    }
    var sorted := SortCards(cards);
    if lastPlay.None? {
      LowestFirst(cards);
      SortedMembers(cards);
      return Some([sorted[0]]);
    }
    var requiredCount := |lastPlay.value.cards|;
    var possibleHands := FindAllHands(sorted, requiredCount);
    var validPlays := LegalOnes(possibleHands, lastPlay);
    if |validPlays| == 0 {
      assert validPlays == [];
      return None;
    }
    var ordered := SortBy(validPlays, Lighter);
    HeadIsLightest(possibleHands, lastPlay);
    r := Some(ordered[0]);
    assert ordered[0] in possibleHands;
    CandidatesFromHand(sorted, requiredCount, ordered[0]);
    SortedMembers(cards);
  }
}
