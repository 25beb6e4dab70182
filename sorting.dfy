/**
 * `Array.prototype.sort` with a comparator, which is stable: a stable insertion sort
 * `SortBy(s, le)`, where `le(x, y)` holds when the comparator lets `x` stand before `y`
 * (it returns a value <= 0). Also the generic facts the evaluators rely on: sorting
 * keeps the multiset, yields a sorted sequence, and a sorted sequence is determined by
 * its multiset (or, when strictly sorted, by its set).
 */
module Sorting {

  /** `seq.map(f)`. */
  function Map<T, U>(f: T -> U, s: seq<T>): (r: seq<U>)
    ensures |r| == |s|
    ensures forall i :: 0 <= i < |s| ==> r[i] == f(s[i])
  {
    seq(|s|, i requires 0 <= i < |s| => f(s[i]))
  }

  ghost predicate TotalPreorder<T(!new)>(le: (T, T) -> bool) {
    && (forall x, y :: le(x, y) || le(y, x))
    && (forall x, y, z :: le(x, y) && le(y, z) ==> le(x, z))
  }

  ghost predicate Antisymmetric<T(!new)>(le: (T, T) -> bool) {
    forall x, y :: le(x, y) && le(y, x) ==> x == y
  }

  ghost predicate SortedBy<T>(s: seq<T>, le: (T, T) -> bool) {
    forall i, j :: 0 <= i < j < |s| ==> le(s[i], s[j])
  }

  /** A strict order that is total: any two distinct values are related one way. */
  ghost predicate StrictTotalOrder<T(!new)>(lt: (T, T) -> bool) {
    && (forall x :: !lt(x, x))
    && (forall x, y, z :: lt(x, y) && lt(y, z) ==> lt(x, z))
    && (forall x, y :: x == y || lt(x, y) || lt(y, x))
  }

  ghost predicate StrictlySortedBy<T>(s: seq<T>, lt: (T, T) -> bool) {
    forall i, j :: 0 <= i < j < |s| ==> lt(s[i], s[j])
  }

  /** Puts `x` before the first element it may precede, so that it stays ahead of its equals. */
  function Insert<T>(x: T, s: seq<T>, le: (T, T) -> bool): (r: seq<T>)
    ensures |r| == |s| + 1
    ensures multiset(r) == multiset(s) + multiset{x}
  {
    if s == [] || le(x, s[0]) then [x] + s
    else
      assert s == [s[0]] + s[1..];
      [s[0]] + Insert(x, s[1..], le)
  }

  /** The stable sort: each element is inserted ahead of the equal elements that follow it. */
  function SortBy<T>(s: seq<T>, le: (T, T) -> bool): (r: seq<T>)
    ensures |r| == |s|
    ensures multiset(r) == multiset(s)
  {
    if s == [] then []
    else
      assert s == [s[0]] + s[1..];
      Insert(s[0], SortBy(s[1..], le), le)
  }

  lemma {:induction false} InsertSorted<T(!new)>(x: T, s: seq<T>, le: (T, T) -> bool)
    requires TotalPreorder(le) && SortedBy(s, le)
    ensures SortedBy(Insert(x, s, le), le)
  {
    if s == [] || le(x, s[0]) {
      var r := [x] + s;
      forall i, j | 0 <= i < j < |r| ensures le(r[i], r[j]) {
        if i == 0 {
          if j > 1 { assert le(s[0], s[j - 1]); }
        } else {
          assert le(s[i - 1], s[j - 1]);
        }
      }
    } else {
      var t := Insert(x, s[1..], le);
      InsertSorted(x, s[1..], le);
      var r := [s[0]] + t;
      assert le(s[0], x);
      forall k | 0 <= k < |t| ensures le(s[0], t[k]) {
        assert t[k] in multiset(t);
        assert t[k] == x || t[k] in multiset(s[1..]);
        if t[k] != x {
          var m :| 0 <= m < |s[1..]| && s[1..][m] == t[k];
          assert le(s[0], s[m + 1]);
        }
      }
      forall i, j | 0 <= i < j < |r| ensures le(r[i], r[j]) {
        if i == 0 {
          assert le(s[0], t[j - 1]);
        } else {
          assert le(t[i - 1], t[j - 1]);
        }
      }
    }
  }

  lemma {:induction false} SortBySorted<T(!new)>(s: seq<T>, le: (T, T) -> bool)
    requires TotalPreorder(le)
    ensures SortedBy(SortBy(s, le), le)
  {
    if s != [] {
      SortBySorted(s[1..], le);
      InsertSorted(s[0], SortBy(s[1..], le), le);
    }
  }

  /** Two sequences sorted by a total order that hold the same multiset are equal. */
  lemma {:induction false} SortedUnique<T(!new)>(a: seq<T>, b: seq<T>, le: (T, T) -> bool)
    requires TotalPreorder(le) && Antisymmetric(le)
    requires SortedBy(a, le) && SortedBy(b, le)
    requires multiset(a) == multiset(b)
    ensures a == b
    decreases |a|
  {
    assert |b| == |multiset(b)| == |multiset(a)| == |a|;
    if a != [] {
      SortedHeads(a, b, le);
      var ta, tb := a[1..], b[1..];
      TailFacts(a, le);
      TailFacts(b, le);
      SortedUnique(ta, tb, le);
      SameHeadTail(a, b);
    }
  }

  lemma SameHeadTail<T>(a: seq<T>, b: seq<T>)
    requires a != [] && b != [] && a[0] == b[0] && a[1..] == b[1..]
    ensures a == b
  {
    assert a == [a[0]] + a[1..] && b == [b[0]] + b[1..];
  }

  /** Two sorted permutations of each other start with the same element. */
  lemma SortedHeads<T(!new)>(a: seq<T>, b: seq<T>, le: (T, T) -> bool)
    requires TotalPreorder(le) && Antisymmetric(le)
    requires SortedBy(a, le) && SortedBy(b, le)
    requires multiset(a) == multiset(b) && a != [] && b != []
    ensures a[0] == b[0]
  {
    var a0, b0 := a[0], b[0];
    assert a0 in multiset(b);
    var j :| 0 <= j < |b| && b[j] == a0;
    assert b0 in multiset(a);
    var i :| 0 <= i < |a| && a[i] == b0;
    assert le(a0, a0) && le(b0, b0);
    assert le(b0, a0) by { assert j == 0 || le(b[0], b[j]); }
    assert le(a0, b0) by { assert i == 0 || le(a[0], a[i]); }
  }

  /** The tail of a sorted sequence is sorted, and holds the rest of its multiset. */
  lemma TailFacts<T>(a: seq<T>, le: (T, T) -> bool)
    requires SortedBy(a, le) && a != []
    ensures SortedBy(a[1..], le)
    ensures multiset(a[1..]) == multiset(a) - multiset{a[0]}
  {
    assert a == [a[0]] + a[1..];
  }

  lemma {:induction false} StrictlySortedUnique<T(!new)>(a: seq<T>, b: seq<T>, lt: (T, T) -> bool)
    requires StrictTotalOrder(lt)
    requires StrictlySortedBy(a, lt) && StrictlySortedBy(b, lt)
    requires forall x :: x in a <==> x in b
    ensures a == b
  {
    if a != [] || b != [] {
      assert a != [] && b != [] by {
        assert a != [] ==> a[0] in b;
        assert b != [] ==> b[0] in a;
      }
      assert a[0] in b;
      var j :| 0 <= j < |b| && b[j] == a[0];
      assert b[0] in a;
      var i :| 0 <= i < |a| && a[i] == b[0];
      var a0, b0 := a[0], b[0];
      assert j == 0 || lt(b0, a0);
      assert i == 0 || lt(a0, b0);
      assert a0 == b0;
      forall x ensures x in a[1..] <==> x in b[1..] {
        assert x in a[1..] ==> lt(a[0], x) && x != a[0];
        assert x in b[1..] ==> lt(b[0], x) && x != b[0];
        assert a == [a[0]] + a[1..];
        assert b == [b[0]] + b[1..];
        assert x in a ==> x == a[0] || x in a[1..];
        assert x in b ==> x == b[0] || x in b[1..];
      }
      StrictlySortedUnique(a[1..], b[1..], lt);
      assert a == [a[0]] + a[1..];
      assert b == [b[0]] + b[1..];
    }
  }

  lemma MapConcat<T, U>(f: T -> U, x: seq<T>, y: seq<T>)
    ensures Map(f, x + y) == Map(f, x) + Map(f, y)
  {
  }

  /** Mapping a function over two permutations of each other gives permutations of each other. */
  lemma {:induction false} MapPermutation<T, U>(f: T -> U, s: seq<T>, t: seq<T>)
    requires multiset(s) == multiset(t)
    ensures multiset(Map(f, s)) == multiset(Map(f, t))
  {
    if s == [] {
      assert |t| == |multiset(t)| == 0;
    } else {
      var x, rest := s[0], s[1..];
      assert x in multiset(t);
      var j :| 0 <= j < |t| && t[j] == x;
      var t1, t2 := t[..j], t[j + 1..];
      assert t == t1 + [x] + t2;
      assert s == [x] + rest;
      assert multiset(t1 + t2) == multiset(t) - multiset{x};
      assert multiset(rest) == multiset(s) - multiset{x};
      MapPermutation(f, rest, t1 + t2);
      MapConcat(f, [x], rest);
      MapConcat(f, t1 + [x], t2);
      MapConcat(f, t1, [x]);
      MapConcat(f, t1, t2);
      assert Map(f, [x]) == [f(x)];
      assert Map(f, s) == [f(x)] + Map(f, rest);
      assert Map(f, t) == Map(f, t1) + [f(x)] + Map(f, t2);
      var m1, m2, my := multiset(Map(f, t1)), multiset(Map(f, t2)), multiset{f(x)};
      calc {
        multiset(Map(f, s));
        multiset([f(x)] + Map(f, rest));
        my + multiset(Map(f, rest));
        my + multiset(Map(f, t1 + t2));
        my + m1 + m2;
        multiset(Map(f, t1) + [f(x)] + Map(f, t2));
        multiset(Map(f, t));
      }
    }
  }

  /** An element that occurs at two positions is counted at least twice. */
  lemma DuplicateCount<T>(s: seq<T>, i: int, j: int)
    requires 0 <= i < j < |s| && s[i] == s[j]
    ensures multiset(s)[s[i]] >= 2
  {
    assert s == s[..j] + s[j..];
    assert s[i] in s[..j];
    assert s[j] in s[j..];
    assert multiset(s) == multiset(s[..j]) + multiset(s[j..]);
  }

  /** No value occurs twice. */
  ghost predicate Distinct<T(!new)>(s: seq<T>) {
    forall x :: multiset(s)[x] <= 1
  }

  /** Dropping one element from a sequence drops it from the multiset. */
  lemma MultisetRemoveAt<T>(t: seq<T>, j: nat)
    requires j < |t|
    ensures multiset(t) == multiset(t[..j] + t[j + 1..]) + multiset{t[j]}
  {
    assert t == t[..j] + [t[j]] + t[j + 1..];
  }

  /** Dropping one element from a sequence drops its image from the mapped multiset. */
  lemma MapRemoveAt<T, U>(f: T -> U, t: seq<T>, j: nat)
    requires j < |t|
    ensures multiset(Map(f, t[..j] + t[j + 1..])) == multiset(Map(f, t)) - multiset{f(t[j])}
  {
    var t1, t2 := t[..j], t[j + 1..];
    assert t == t1 + [t[j]] + t2;
    MapConcat(f, t1 + [t[j]], t2);
    MapConcat(f, t1, [t[j]]);
    MapConcat(f, t1, t2);
    assert Map(f, [t[j]]) == [f(t[j])];
  }

  /** `f` never sends two different values to the same image. */
  ghost predicate Injective<T(!new), U>(f: T -> U) {
    forall x, y :: f(x) == f(y) ==> x == y
  }

  /** Mapping an injective function: equal image multisets come from equal multisets. */
  lemma {:induction false} MapInjectiveMultiset<T(!new), U>(f: T -> U, a: seq<T>, b: seq<T>)
    requires Injective(f)
    requires multiset(Map(f, a)) == multiset(Map(f, b))
    ensures multiset(a) == multiset(b)
    decreases |a|
  {
    if a == [] {
      assert |b| == |Map(f, b)| == |multiset(Map(f, b))| == 0;
    } else {
      var j := ImageAt(f, b, f(a[0]));
      var rest, others := a[1..], b[..j] + b[j + 1..];
      RemoveImages(f, a, b, j);
      MapInjectiveMultiset(f, rest, others);
      assert b[j] == a[0];
      RemoveBoth(a, b, j);
    }
  }

  /** Taking the first element of `a` and an element of `b` with the same image leaves images with equal multisets. */
  lemma RemoveImages<T, U>(f: T -> U, a: seq<T>, b: seq<T>, j: nat)
    requires a != [] && j < |b| && f(b[j]) == f(a[0])
    requires multiset(Map(f, a)) == multiset(Map(f, b))
    ensures multiset(Map(f, a[1..])) == multiset(Map(f, b[..j] + b[j + 1..]))
  {
    MapRemoveAt(f, a, 0);
    MapRemoveAt(f, b, j);
    assert a[..0] + a[1..] == a[1..];
  }

  /** Equal elements removed from sequences whose rests have equal multisets. */
  lemma RemoveBoth<T>(a: seq<T>, b: seq<T>, j: nat)
    requires a != [] && j < |b| && b[j] == a[0]
    requires multiset(a[1..]) == multiset(b[..j] + b[j + 1..])
    ensures multiset(a) == multiset(b)
  {
    MultisetRemoveAt(a, 0);
    MultisetRemoveAt(b, j);
    assert a[..0] + a[1..] == a[1..];
  }

  /** A value of the image of `b` is the image of some element of `b`. */
  lemma ImageAt<T, U>(f: T -> U, b: seq<T>, y: U) returns (j: nat)
    requires y in multiset(Map(f, b))
    ensures j < |b| && f(b[j]) == y
  {
    var m := Map(f, b);
    assert y in m;
    j :| 0 <= j < |m| && m[j] == y;
  }

}
