// Round-robin tallies: every unordered pair of seats `i < j` is visited once,
// seat `i` gains `f(xs[i], xs[j])` and seat `j` loses the same. Both the local
// reveal scoring and the settlement's per-lane net score are such tallies.

module PairTally {

  import opened Ledger

  /** Row `i`, from partner `j` on. */
  function Row<T>(xs: seq<T>, f: (T, T) -> int, d: seq<int>, i: nat, j: nat): (r: seq<int>)
    requires |d| == |xs| && i < j <= |xs|
    ensures |r| == |d|
    decreases |xs| - j
  {
    if j == |xs| then d else Row(xs, f, Award(d, i, j, f(xs[i], xs[j])), i, j + 1)
  }

  /** Rows `i`, `i + 1`, ... in turn. */
  function Rows<T>(xs: seq<T>, f: (T, T) -> int, d: seq<int>, i: nat): (r: seq<int>)
    requires |d| == |xs| && i <= |xs|
    ensures |r| == |d|
    decreases |xs| - i
  {
    if i == |xs| then d else Rows(xs, f, Row(xs, f, d, i, i + 1), i + 1)
  }

  /** The whole tally, from all zeroes. */
  function Tally<T>(xs: seq<T>, f: (T, T) -> int): (d: seq<int>)
    ensures |d| == |xs|
  {
    Rows(xs, f, Zeroes(|xs|), 0)
  }

  /**
   * The nested loops both tallies share: for every pair `i < j`, seat `i` gains the
   * pair's score and seat `j` loses it.
   */
  method TallyPairs<T>(xs: seq<T>, f: (T, T) -> int) returns (d: seq<int>)
    ensures d == Tally(xs, f)
  {
    d := Zeroes(|xs|);
    for i := 0 to |xs|
      invariant |d| == |xs| && Rows(xs, f, d, i) == Tally(xs, f)
    {
      ghost var start := d;
      for j := i + 1 to |xs|
        invariant |d| == |xs| && Row(xs, f, d, i, j) == Row(xs, f, start, i, i + 1)
      {
        var x := f(xs[i], xs[j]);
        d := d[i := d[i] + x];
        d := d[j := d[j] - x];
      }
    }
  }

  // ---------------------------------------------------------------------------
  // Zero sum
  // ---------------------------------------------------------------------------

  lemma {:induction false} RowSum<T>(xs: seq<T>, f: (T, T) -> int, d: seq<int>, i: nat, j: nat)
    requires |d| == |xs| && i < j <= |xs|
    ensures SumTo(Row(xs, f, d, i, j), |d|) == SumTo(d, |d|)
    decreases |xs| - j
  {
    if j < |xs| {
      var d' := Award(d, i, j, f(xs[i], xs[j]));
      AwardSum(d, i, j, f(xs[i], xs[j]));
      RowSum(xs, f, d', i, j + 1);
    }
  }

  lemma {:induction false} RowsSum<T>(xs: seq<T>, f: (T, T) -> int, d: seq<int>, i: nat)
    requires |d| == |xs| && i <= |xs|
    ensures SumTo(Rows(xs, f, d, i), |d|) == SumTo(d, |d|)
    decreases |xs| - i
  {
    if i < |xs| {
      RowSum(xs, f, d, i, i + 1);
      RowsSum(xs, f, Row(xs, f, d, i, i + 1), i + 1);
    }
  }

  /** Whatever the pair scores, a tally sums to zero. */
  lemma TallyZeroSum<T>(xs: seq<T>, f: (T, T) -> int)
    ensures SumTo(Tally(xs, f), |xs|) == 0
  {
    RowsSum(xs, f, Zeroes(|xs|), 0);
    ZeroesSum(|xs|, |xs|);
  }

  // ---------------------------------------------------------------------------
  // Each seat's entry
  // ---------------------------------------------------------------------------

  /** Scoring `b` against `a` is the negation of scoring `a` against `b`. */
  ghost predicate SwapNegates<T(!new)>(f: (T, T) -> int) {
    forall a, b :: f(a, b) == -f(b, a)
  }

  /** What seat `k` scores against the seats before `j`, itself excluded. */
  function Against<T>(xs: seq<T>, f: (T, T) -> int, k: nat, j: nat): int
    requires k < |xs| && j <= |xs|
  {
    if j == 0 then 0 else Against(xs, f, k, j - 1) + (if j - 1 == k then 0 else f(xs[k], xs[j - 1]))
  }

  /** Seat `k`'s entry while row `i` has reached partner `j`. */
  function Partial<T>(xs: seq<T>, f: (T, T) -> int, k: nat, i: nat, j: nat): int
    requires k < |xs| && i < j <= |xs|
  {
    Against(xs, f, k, if k < i then |xs| else if k == i then j else if k < j then i + 1 else i)
  }

  /** Seat `k`'s entry once rows before `i` are done. */
  function Done<T>(xs: seq<T>, f: (T, T) -> int, k: nat, i: nat): int
    requires k < |xs| && i <= |xs|
  {
    Against(xs, f, k, if k < i then |xs| else i)
  }

  lemma {:induction false} RowAt<T(!new)>(xs: seq<T>, f: (T, T) -> int, d: seq<int>, i: nat, j: nat)
    requires SwapNegates(f)
    requires |d| == |xs| && i < j <= |xs|
    requires forall k :: 0 <= k < |xs| ==> d[k] == Partial(xs, f, k, i, j)
    ensures forall k :: 0 <= k < |xs| ==> Row(xs, f, d, i, j)[k] == Done(xs, f, k, i + 1)
    decreases |xs| - j
  {
    if j < |xs| {
      var x := f(xs[i], xs[j]);
      var d' := Award(d, i, j, x);
      forall k | 0 <= k < |xs|
        ensures d'[k] == Partial(xs, f, k, i, j + 1)
      {
        AwardAt(d, i, j, x, k);
        if k == j {
          assert f(xs[j], xs[i]) == -x;
        }
      }
      RowAt(xs, f, d', i, j + 1);
    }
  }

  lemma {:induction false} RowsAt<T(!new)>(xs: seq<T>, f: (T, T) -> int, d: seq<int>, i: nat)
    requires SwapNegates(f)
    requires |d| == |xs| && i <= |xs|
    requires forall k :: 0 <= k < |xs| ==> d[k] == Done(xs, f, k, i)
    ensures forall k :: 0 <= k < |xs| ==> Rows(xs, f, d, i)[k] == Against(xs, f, k, |xs|)
    decreases |xs| - i
  {
    if i < |xs| {
      forall k | 0 <= k < |xs|
        ensures d[k] == Partial(xs, f, k, i, i + 1)
      {
        if k == i {
          assert Against(xs, f, i, i + 1) == Against(xs, f, i, i);
        }
      }
      RowAt(xs, f, d, i, i + 1);
      RowsAt(xs, f, Row(xs, f, d, i, i + 1), i + 1);
    }
  }

  /** With a pair score that negates under swapping, each seat ends with the sum of its scores against every other seat. */
  lemma TallyAt<T(!new)>(xs: seq<T>, f: (T, T) -> int, k: nat)
    requires SwapNegates(f) && k < |xs|
    ensures Tally(xs, f)[k] == Against(xs, f, k, |xs|)
  {
    RowsAt(xs, f, Zeroes(|xs|), 0);
  }

  /** Every pair score lies in `-bound..bound`. */
  ghost predicate Bounded<T(!new)>(f: (T, T) -> int, bound: nat) {
    forall a, b :: -(bound as int) <= f(a, b) <= bound
  }

  lemma {:induction false} AgainstBound<T(!new)>(xs: seq<T>, f: (T, T) -> int, bound: nat, k: nat, j: nat)
    requires Bounded(f, bound) && k < |xs| && j <= |xs|
    ensures var others := if k < j then j - 1 else j;
      -(bound * others) <= Against(xs, f, k, j) <= bound * others
  {
    if j > 0 {
      AgainstBound(xs, f, bound, k, j - 1);
      var others := if k < j - 1 then j - 2 else j - 1;
      if j - 1 != k {
        assert bound * (others + 1) == bound * others + bound;
      }
    }
  }

  /** So with `n` seats each entry lies in `-bound * (n - 1)..bound * (n - 1)`. */
  lemma TallyBound<T(!new)>(xs: seq<T>, f: (T, T) -> int, bound: nat, k: nat)
    requires SwapNegates(f) && Bounded(f, bound) && k < |xs|
    ensures -(bound * (|xs| - 1)) <= Tally(xs, f)[k] <= bound * (|xs| - 1)
  {
    TallyAt(xs, f, k);
    AgainstBound(xs, f, bound, k, |xs|);
  }

  lemma {:induction false} AgainstZero<T>(xs: seq<T>, f: (T, T) -> int, k: nat, j: nat)
    requires k < |xs| && j <= |xs|
    requires forall q :: 0 <= q < |xs| ==> f(xs[k], xs[q]) == 0
    ensures Against(xs, f, k, j) == 0
  {
    if j > 0 {
      AgainstZero(xs, f, k, j - 1);
    }
  }

  /** A seat that scores nothing against anyone ends at zero. */
  lemma TallyIdle<T(!new)>(xs: seq<T>, f: (T, T) -> int, k: nat)
    requires SwapNegates(f) && k < |xs|
    requires forall q :: 0 <= q < |xs| ==> f(xs[k], xs[q]) == 0
    ensures Tally(xs, f)[k] == 0
  {
    TallyAt(xs, f, k);
    AgainstZero(xs, f, k, |xs|);
  }
}
