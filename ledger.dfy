// Per-seat point deltas: `d[p]` is what seat `p` has won (or lost) so far in a round.

module Ledger {

  /** `n` seats, every delta zero. */
  function Zeroes(n: nat): (r: seq<int>)
    ensures |r| == n && forall p :: 0 <= p < n ==> r[p] == 0
  {
    seq(n, p => 0)
  }

  /** Seat `s` gains `x`. */
  function Credit(d: seq<int>, s: nat, x: int): (r: seq<int>)
    requires s < |d|
    ensures |r| == |d|
  {
    d[s := d[s] + x]
  }

  /** Seat `t` loses `x`. */
  function Debit(d: seq<int>, t: nat, x: int): (r: seq<int>)
    requires t < |d|
    ensures |r| == |d|
  {
    d[t := d[t] - x]
  }

  /** Seat `s` gains `x`, then seat `t` loses `x`. */
  function Award(d: seq<int>, s: nat, t: nat, x: int): (r: seq<int>)
    requires s < |d| && t < |d|
    ensures |r| == |d|
  {
    Debit(Credit(d, s, x), t, x)
  }

  /** After an award, seat `s` is up by `x`, seat `t` down by `x` (nothing when they coincide), and every other seat is as it was. */
  lemma AwardAt(d: seq<int>, s: nat, t: nat, x: int, k: nat)
    requires s < |d| && t < |d| && k < |d|
    ensures Award(d, s, t, x)[k] == d[k] + (if k == s then x else 0) - (if k == t then x else 0)
  {
  }

  /** The first `n` deltas, added up. */
  function SumTo(d: seq<int>, n: nat): int
    requires n <= |d|
  {
    if n == 0 then 0 else SumTo(d, n - 1) + d[n - 1]
  }

  lemma {:induction false} CreditSum(d: seq<int>, s: nat, x: int, n: nat)
    requires s < |d| && n <= |d|
    ensures SumTo(Credit(d, s, x), n) == SumTo(d, n) + (if s < n then x else 0)
  {
    if n > 0 {
      CreditSum(d, s, x, n - 1);
    }
  }

  lemma {:induction false} DebitSum(d: seq<int>, t: nat, x: int, n: nat)
    requires t < |d| && n <= |d|
    ensures SumTo(Debit(d, t, x), n) == SumTo(d, n) - (if t < n then x else 0)
  {
    if n > 0 {
      DebitSum(d, t, x, n - 1);
    }
  }

  /** Moving points from one seat to another keeps the sum. */
  lemma AwardSum(d: seq<int>, s: nat, t: nat, x: int)
    requires s < |d| && t < |d|
    ensures SumTo(Award(d, s, t, x), |d|) == SumTo(d, |d|)
  {
    CreditSum(d, s, x, |d|);
    DebitSum(Credit(d, s, x), t, x, |d|);
  }

  lemma {:induction false} ZeroesSum(n: nat, k: nat)
    requires k <= n
    ensures SumTo(Zeroes(n), k) == 0
  {
    if k > 0 {
      ZeroesSum(n, k - 1);
    }
  }
}
