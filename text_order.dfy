/**
 * JavaScript's default string order (the one `Array.prototype.sort()` without a comparator
 * and the `<`/`>=` operators use): lexicographic by character, a proper prefix first.
 * Also `Array.prototype.join(sep)` and the fact that joining strings that never contain
 * the separator loses nothing.
 */
module TextOrder {

  import opened Sorting

  /** `a < b` on strings. */
  predicate Less(a: string, b: string) {
    if b == [] then false
    else if a == [] then true
    else if a[0] != b[0] then a[0] < b[0]
    else Less(a[1..], b[1..])
  }

  /** `a <= b` on strings: what the default sort lets stand first. */
  predicate LessEq(a: string, b: string) {
    a == b || Less(a, b)
  }

  lemma {:induction false} LessIrreflexive(a: string)
    ensures !Less(a, a)
  {
    if a != [] {
      LessIrreflexive(a[1..]);
    }
  }

  lemma {:induction false} LessTransitive(a: string, b: string, c: string)
    requires Less(a, b) && Less(b, c)
    ensures Less(a, c)
  {
    if a != [] && a[0] == b[0] && b[0] == c[0] {
      LessTransitive(a[1..], b[1..], c[1..]);
    }
  }

  lemma {:induction false} LessTrichotomy(a: string, b: string)
    ensures a == b || Less(a, b) || Less(b, a)
  {
    if a != [] && b != [] && a[0] == b[0] {
      LessTrichotomy(a[1..], b[1..]);
      if a[1..] == b[1..] {
        assert a == [a[0]] + a[1..] && b == [b[0]] + b[1..];
      }
    }
  }

  lemma {:induction false} LessAsymmetric(a: string, b: string)
    requires Less(a, b)
    ensures !Less(b, a)
  {
    if a != [] && a[0] == b[0] {
      LessAsymmetric(a[1..], b[1..]);
    }
  }

  /** The string order is a strict total order, and `<=` is an antisymmetric total preorder. */
  lemma StringOrders()
    ensures StrictTotalOrder(Less)
    ensures TotalPreorder(LessEq) && Antisymmetric(LessEq)
  {
    forall a ensures !Less(a, a) {
      LessIrreflexive(a);
    }
    forall a, b, c | Less(a, b) && Less(b, c) ensures Less(a, c) {
      LessTransitive(a, b, c);
    }
    forall a, b ensures a == b || Less(a, b) || Less(b, a) {
      LessTrichotomy(a, b);
    }
    forall a, b | LessEq(a, b) && LessEq(b, a) ensures a == b {
      if a != b {
        LessAsymmetric(a, b);
      }
    }
    forall a, b, c | LessEq(a, b) && LessEq(b, c) ensures LessEq(a, c) {
      if a != b && b != c {
        LessTransitive(a, b, c);
      }
    }
  }

  /** `xs.join(sep)`. */
  function Join(xs: seq<string>, sep: char): string {
    if xs == [] then ""
    else if |xs| == 1 then xs[0]
    else xs[0] + [sep] + Join(xs[1..], sep)
  }

  /** Non-empty strings that never contain `sep`. */
  ghost predicate Separable(xs: seq<string>, sep: char) {
    forall i :: 0 <= i < |xs| ==> xs[i] != [] && sep !in xs[i]
  }

  lemma {:induction false} JoinLength(xs: seq<string>, sep: char)
    requires Separable(xs, sep)
    ensures xs == [] <==> Join(xs, sep) == []
    ensures xs != [] ==> |Join(xs, sep)| >= |xs[0]|
  {
  }

  /** Joining strings that do not contain the separator can be undone. */
  lemma {:induction false} JoinInjective(xs: seq<string>, ys: seq<string>, sep: char)
    requires Separable(xs, sep) && Separable(ys, sep)
    requires Join(xs, sep) == Join(ys, sep)
    ensures xs == ys
  {
    JoinLength(xs, sep);
    JoinLength(ys, sep);
    if xs != [] {
      var s := Join(xs, sep);
      var x, y := xs[0], ys[0];
      assert s[..|x|] == x;
      assert s[..|y|] == y;
      assert |xs| > 1 ==> |s| > |x| && s[|x|] == sep;
      assert |ys| > 1 ==> |s| > |y| && s[|y|] == sep;
      assert |xs| == 1 ==> |s| == |x|;
      assert |ys| == 1 ==> |s| == |y|;
      assert x == y;
      if |xs| == 1 || |ys| == 1 {
        assert xs == [x] && ys == [y];
      } else {
        assert Join(xs[1..], sep) == s[|x| + 1..] == Join(ys[1..], sep);
        JoinInjective(xs[1..], ys[1..], sep);
        assert xs == [x] + xs[1..] && ys == [y] + ys[1..];
      }
    }
  }
}
