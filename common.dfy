/** Exact fixed-point amounts (`Fixed` in src/common.rs): a numerator over a
    16-bit denominator. Every binary operation first equalizes the two
    denominators by scaling the numerator of the operand with the smaller
    denominator by the integer quotient of the denominators; the result keeps
    the larger denominator. The quotient is a truncating u16 division, so the
    arithmetic is exact only when one denominator divides the other. */
module Common {
  import opened Basics
  import opened Decimal

  /** `Fixed<i32, u16>`: numerator and denominator. */
  datatype Fixed = Fixed(num: int, den: U16)

  /** Equalization divides the larger denominator by the smaller one: it
      panics on a zero divisor unless the denominators are already equal. */
  predicate CanEqualize(a: Fixed, b: Fixed)
  {
    a.den == b.den || (a.den > 0 && b.den > 0)
  }

  /** One denominator is a (nonzero) multiple of the other, as for the
      minor-unit scales of one currency. */
  predicate Comparable(a: Fixed, b: Fixed)
  {
    && a.den > 0 && b.den > 0
    && if a.den <= b.den then b.den % a.den == 0 else a.den % b.den == 0
  }

  /** The rational number an amount stands for. */
  function Val(x: Fixed): real
    requires x.den > 0
  {
    x.num as real / x.den as real
  }

  function EqualizeFractions(a: Fixed, b: Fixed): (r: (Fixed, Fixed))
    requires CanEqualize(a, b)
    ensures r.0.den == r.1.den == Max(a.den, b.den)
    ensures a.den >= b.den ==> r.0 == a
    ensures b.den >= a.den ==> r.1 == b
  {
    if a.den == b.den then (a, b)
    else if a.den > b.den then
      var factor := a.den / b.den;
      (a, Fixed(b.num * factor, a.den))
    else
      var factor := b.den / a.den;
      (Fixed(a.num * factor, b.den), b)
  }

  /** `is_zero`: looks only at the numerator, and so agrees with the value
      being zero whatever the (positive) denominator. */
  predicate IsZero(x: Fixed)
    ensures x.den > 0 ==> (IsZero(x) <==> Val(x) == 0.0)
  {
    x.num == 0
  }

  /** `to_string_raw`: "<numerator>/<denominator>". */
  function ToStringRaw(x: Fixed): (r: string)
    ensures '/' in r
    ensures forall k | 0 <= k < |r| && r[k] == '/' :: k == |IntToString(x.num)|
  {
    IntToString(x.num) + "/" + NatToString(x.den)
  }

  /** `Default`: zero over one. */
  function Default(): (r: Fixed)
    ensures r.den > 0 && Val(r) == 0.0
  {
    Fixed(0, 1)
  }

  /** `PartialEq`: the numerators after equalization. */
  predicate Eq(a: Fixed, b: Fixed)
    requires CanEqualize(a, b)
    ensures a == b ==> Eq(a, b)
    ensures a.den == b.den ==> (Eq(a, b) <==> a.num == b.num)
  {
    var (x, y) := EqualizeFractions(a, b);
    x.num == y.num
  }

  function Add(a: Fixed, b: Fixed): (r: Fixed)
    requires CanEqualize(a, b)
    ensures r.den == Max(a.den, b.den)
  {
    var (x, y) := EqualizeFractions(a, b);
    Fixed(x.num + y.num, x.den)
  }

  function Sub(a: Fixed, b: Fixed): (r: Fixed)
    requires CanEqualize(a, b)
    ensures r.den == Max(a.den, b.den)
  {
    var (x, y) := EqualizeFractions(a, b);
    Fixed(x.num - y.num, x.den)
  }

  function Neg(a: Fixed): (r: Fixed)
    ensures r.den == a.den
    ensures a.den > 0 ==> Val(r) == -Val(a)
  {
    Fixed(-a.num, a.den)
  }

  /** A running total can absorb every element without a zero division:
      zero denominators only ever meet zero denominators. */
  predicate Compatible(acc: Fixed, xs: seq<Fixed>)
  {
    forall i | 0 <= i < |xs| :: (xs[i].den == 0) == (acc.den == 0)
  }

  /** Adding each element in order to a running total with `+=`. */
  function FoldAdd(acc: Fixed, xs: seq<Fixed>): (r: Fixed)
    requires Compatible(acc, xs)
    ensures (r.den == 0) == (acc.den == 0)
    ensures r.den >= acc.den
    decreases |xs|
  {
    if xs == [] then acc else Add(FoldAdd(acc, xs[..|xs| - 1]), xs[|xs| - 1])
  }

  /** `Sum`: start from `Default` and `+=` every element. */
  method Sum(xs: seq<Fixed>) returns (sum: Fixed)
    requires Compatible(Default(), xs)
    ensures sum == FoldAdd(Default(), xs)
  {
    sum := Default();
    for i := 0 to |xs|
      invariant sum == FoldAdd(Default(), xs[..i])
    {
      assert xs[..i + 1][..i] == xs[..i];
      sum := Add(sum, xs[i]);
    }
    assert xs[..|xs|] == xs;
  }

  /** `SumExtender`: a running total that `Extend` grows with `+=`. */
  class SumExtender {
    var total: Fixed

    /** `Default`: the sum of an empty iterator. */
    constructor ()
      ensures total == Fixed(0, 1)
    {
      var s := Sum([]);
      total := s;
    }

    method Extend(xs: seq<Fixed>)
      requires Compatible(total, xs)
      modifies this
      ensures total == FoldAdd(old(total), xs)
    {
      ghost var start := total;
      for i := 0 to |xs|
        invariant total == FoldAdd(start, xs[..i])
      {
        assert xs[..i + 1][..i] == xs[..i];
        total := Add(total, xs[i]);
      }
      assert xs[..|xs|] == xs;
    }
  }

  /* ---------------------------------------------------------------- */
  /* Algebraic laws                                                    */

  /** Addition gives the same pair whichever operand comes first. */
  lemma AddCommutative(a: Fixed, b: Fixed)
    requires CanEqualize(a, b)
    ensures Add(a, b) == Add(b, a)
  {
  }

  /** Subtracting is adding the negation, pair for pair. */
  lemma SubIsAddNeg(a: Fixed, b: Fixed)
    requires CanEqualize(a, b)
    ensures CanEqualize(a, Neg(b)) && Sub(a, b) == Add(a, Neg(b))
  {
  }

  lemma SubSelfIsZero(a: Fixed)
    ensures IsZero(Sub(a, a)) && Sub(a, a).den == a.den
  {
  }

  lemma NegInvolutive(a: Fixed)
    ensures Neg(Neg(a)) == a && Neg(a).den == a.den
  {
  }

  lemma AddNegIsZero(a: Fixed)
    ensures IsZero(Add(a, Neg(a))) && Add(a, Neg(a)).den == a.den
  {
  }

  /** `Default` is the identity of `+` on every amount with a positive
      denominator, on either side. */
  lemma AddDefault(x: Fixed)
    requires x.den > 0
    ensures Add(Default(), x) == x && Add(x, Default()) == x
  {
  }

  /** Scaling numerator and denominator by the same factor keeps the value. */
  lemma ScaledValue(n: int, d: int, k: int)
    requires d > 0 && k > 0
    ensures (n * k) as real / (d * k) as real == n as real / d as real
  {
    var nr, dr, kr := n as real, d as real, k as real;
    assert (n * k) as real == nr * kr;
    assert (d * k) as real == dr * kr;
    assert (nr * kr) / (dr * kr) == nr / dr;
  }

  /** With commensurable denominators, equalization keeps both values. */
  lemma EqualizePreservesValue(a: Fixed, b: Fixed)
    requires Comparable(a, b)
    ensures var r := EqualizeFractions(a, b);
      r.0.den > 0 && r.1.den > 0 && Val(r.0) == Val(a) && Val(r.1) == Val(b)
  {
    if a.den > b.den {
      var k := a.den / b.den;
      assert a.den == b.den * k;
      ScaledValue(b.num, b.den, k);
    } else if a.den < b.den {
      var k := b.den / a.den;
      assert b.den == a.den * k;
      ScaledValue(a.num, a.den, k);
    }
  }

  /** With commensurable denominators, `+` is exact rational addition. */
  lemma AddExact(a: Fixed, b: Fixed)
    requires Comparable(a, b)
    ensures Add(a, b).den > 0 && Val(Add(a, b)) == Val(a) + Val(b)
  {
    EqualizePreservesValue(a, b);
    var r := EqualizeFractions(a, b);
    var d := r.0.den as real;
    assert Val(Add(a, b)) == (r.0.num + r.1.num) as real / d;
    assert (r.0.num + r.1.num) as real / d == r.0.num as real / d + r.1.num as real / d;
  }

  /** With commensurable denominators, `-` is exact rational subtraction. */
  lemma SubExact(a: Fixed, b: Fixed)
    requires Comparable(a, b)
    ensures Sub(a, b).den > 0 && Val(Sub(a, b)) == Val(a) - Val(b)
  {
    EqualizePreservesValue(a, b);
    var r := EqualizeFractions(a, b);
    var d := r.0.den as real;
    assert Val(Sub(a, b)) == (r.0.num - r.1.num) as real / d;
    assert (r.0.num - r.1.num) as real / d == r.0.num as real / d - r.1.num as real / d;
  }

  /** With commensurable denominators, `==` is equality of values. */
  lemma EqIffSameValue(a: Fixed, b: Fixed)
    requires Comparable(a, b)
    ensures Eq(a, b) <==> Val(a) == Val(b)
  {
    EqualizePreservesValue(a, b);
    var r := EqualizeFractions(a, b);
    var d := r.0.den as real;
    assert Val(r.0) == r.0.num as real / d && Val(r.1) == r.1.num as real / d;
    if Val(a) == Val(b) {
      assert r.0.num as real == Val(r.0) * d;
      assert r.1.num as real == Val(r.1) * d;
    }
  }

  /** When the denominators do not divide each other, the truncated quotient
      loses value: 1/2 + 1/3 gives 2/3, and 1/2 == 1/3 holds. */
  lemma IncommensurableTruncates()
    ensures Add(Fixed(1, 2), Fixed(1, 3)) == Fixed(2, 3)
    ensures Val(Fixed(2, 3)) != Val(Fixed(1, 2)) + Val(Fixed(1, 3))
    ensures Eq(Fixed(1, 2), Fixed(1, 3))
  {
  }

  /* ---------------------------------------------------------------- */
  /* Sums                                                              */

  predicate Positive(xs: seq<Fixed>)
  {
    forall i | 0 <= i < |xs| :: xs[i].den > 0
  }

  /** Every pair of denominators is commensurable. */
  predicate DivisibilityChain(xs: seq<Fixed>)
  {
    forall i, j | 0 <= i < |xs| && 0 <= j < |xs| :: Comparable(xs[i], xs[j])
  }

  /** The exact rational sum of the values, left to right. */
  function ValSum(xs: seq<Fixed>): real
    requires Positive(xs)
    decreases |xs|
  {
    if xs == [] then 0.0 else ValSum(xs[..|xs| - 1]) + Val(xs[|xs| - 1])
  }

  function NumSum(xs: seq<Fixed>): int
    decreases |xs|
  {
    if xs == [] then 0 else NumSum(xs[..|xs| - 1]) + xs[|xs| - 1].num
  }

  /** The denominator of a fold is the starting one or one of the elements'. */
  lemma {:induction false} FoldDenIsSomeDen(acc: Fixed, xs: seq<Fixed>)
    requires Compatible(acc, xs)
    ensures var d := FoldAdd(acc, xs).den;
      d == acc.den || exists i | 0 <= i < |xs| :: d == xs[i].den
    ensures forall i | 0 <= i < |xs| :: FoldAdd(acc, xs).den >= xs[i].den
    decreases |xs|
  {
    if xs != [] {
      var p := xs[..|xs| - 1];
      assert Compatible(acc, p);
      FoldDenIsSomeDen(acc, p);
      var d := FoldAdd(acc, p).den;
      if d < xs[|xs| - 1].den {
        assert FoldAdd(acc, xs).den == xs[|xs| - 1].den;
      } else if d != acc.den {
        var i :| 0 <= i < |p| && d == p[i].den;
        assert FoldAdd(acc, xs).den == xs[i].den;
      }
      forall i | 0 <= i < |xs|
        ensures FoldAdd(acc, xs).den >= xs[i].den
      {
        if i < |p| { assert xs[i] == p[i]; }
      }
    }
  }

  /** A fold over commensurable denominators adds the exact values. */
  lemma {:induction false} FoldExact(acc: Fixed, xs: seq<Fixed>)
    requires acc.den > 0 && Positive(xs) && DivisibilityChain([acc] + xs)
    ensures Compatible(acc, xs)
    ensures FoldAdd(acc, xs).den > 0 && Val(FoldAdd(acc, xs)) == Val(acc) + ValSum(xs)
    decreases |xs|
  {
    if xs != [] {
      var p := xs[..|xs| - 1];
      var last := xs[|xs| - 1];
      var all := [acc] + xs;
      assert [acc] + p == all[..|xs|];
      assert DivisibilityChain([acc] + p) by {
        forall i, j | 0 <= i < |xs| && 0 <= j < |xs|
          ensures Comparable(([acc] + p)[i], ([acc] + p)[j])
        {
          assert ([acc] + p)[i] == all[i] && ([acc] + p)[j] == all[j];
        }
      }
      FoldExact(acc, p);
      var f := FoldAdd(acc, p);
      FoldDenIsSomeDen(acc, p);
      assert Comparable(f, last) by {
        assert last == all[|xs|];
        if f.den != acc.den {
          var i :| 0 <= i < |p| && f.den == p[i].den;
          assert p[i] == all[i + 1];
          assert Comparable(all[i + 1], all[|xs|]);
        } else {
          assert Comparable(all[0], all[|xs|]);
        }
      }
      AddExact(f, last);
    }
  }

  /** Folding a concatenation is folding the second part onto the total of
      the first: extending a running total twice is extending it once. */
  lemma {:induction false} FoldAppend(acc: Fixed, xs: seq<Fixed>, ys: seq<Fixed>)
    requires Compatible(acc, xs + ys)
    ensures Compatible(acc, xs) && Compatible(FoldAdd(acc, xs), ys)
    ensures FoldAdd(acc, xs + ys) == FoldAdd(FoldAdd(acc, xs), ys)
    decreases |ys|
  {
    assert forall i | 0 <= i < |xs| :: xs[i] == (xs + ys)[i];
    assert forall i | 0 <= i < |ys| :: ys[i] == (xs + ys)[|xs| + i];
    if ys != [] {
      var zs := xs + ys;
      var front := ys[..|ys| - 1];
      assert zs[..|zs| - 1] == xs + front;
      assert forall i | 0 <= i < |xs + front| :: (xs + front)[i] == zs[i];
      FoldAppend(acc, xs, front);
    } else {
      assert xs + ys == xs;
    }
  }

  /** Amounts that all share one positive denominator d sum to the sum of
      their numerators over d; the empty sum is 0/1. */
  lemma {:induction false} SumUniform(xs: seq<Fixed>, d: U16)
    requires d > 0 && forall i | 0 <= i < |xs| :: xs[i].den == d
    ensures Compatible(Default(), xs)
    ensures FoldAdd(Default(), xs) == if xs == [] then Fixed(0, 1) else Fixed(NumSum(xs), d)
    decreases |xs|
  {
    if xs != [] {
      var p := xs[..|xs| - 1];
      SumUniform(p, d);
      if p == [] {
        assert Add(Default(), xs[0]) == Fixed(xs[0].num, d);
      }
    }
  }
}
