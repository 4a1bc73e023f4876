/** Which canonical form a number takes. */
module CanonicalForms {
  import opened Rationals
  import opened KeyEncoding

  function TwoTo(k: nat): nat {
    if k == 0 then 1 else 2 * TwoTo(k - 1)
  }

  ghost predicate IsTwoTo(d: int) {
    exists k: nat :: TwoTo(k) == d
  }

  lemma {:induction false} PowerOfTwoIff(d: int)
    requires d > 0
    ensures IsPowerOfTwo(d) <==> IsTwoTo(d)
  {
    if d == 1 {
      assert TwoTo(0) == 1;
    } else {
      if d % 2 == 0 {
        PowerOfTwoIff(d / 2);
        if IsTwoTo(d / 2) {
          var k: nat :| TwoTo(k) == d / 2;
          assert TwoTo(k + 1) == d;
        }
      }
      if IsTwoTo(d) {
        var k: nat :| TwoTo(k) == d;
        assert d == 2 * TwoTo(k - 1);
        assert TwoTo(k - 1) == d / 2;
      }
    }
  }

  lemma WholeIff(n: int, d: int, g: int, rn: int, rd: int, x: int, y: int)
    requires d > 0 && g > 0 && rd > 0 && n == g * rn && d == g * rd && rn * x + rd * y == 1
    ensures n % d == 0 <==> rd == 1
  {
    if rd == 1 {
      assert n == rn * d;
      Multiple(rn, d);
    }
    if n % d == 0 {
      var q := n / d;
      assert n == q * d;
      assert g * (rn - q * rd) == g * rn - q * (g * rd);
      Zero(g, rn - q * rd);
      var k := q * x + y;
      assert rd * k == (q * rd) * x + rd * y;
      if k <= 0 {
        NonPositiveProduct(rd, k);
      } else {
        AtLeast(rd, k);
      }
    }
  }

  lemma Multiple(k: int, d: int)
    requires d > 0
    ensures k * d % d == 0
  {
    var q, r := k * d / d, k * d % d;
    assert (k - q) * d == r;
    Small(k - q, d);
  }

  lemma Small(k: int, d: int)
    requires d > 0 && 0 <= k * d < d
    ensures k * d == 0
  {
  }

  lemma Zero(g: int, z: int)
    requires g > 0 && g * z == 0
    ensures z == 0
  {
  }

  /**
    The canonical form of a ratio is the same number, in lowest terms: an integer exactly when the
    ratio is whole, else a float exactly when its denominator is a power of two and a float can hold
    it, and else a fraction.
   */
  lemma CanonicalNumber(p: Platform, n: int, d: int) returns (x: int, y: int)
    requires d > 0
    ensures var v := CanonicalRatio(p, n, d);
      && IsRational(v) && DenominatorOf(v) > 0 && NumeratorOf(v) * d == n * DenominatorOf(v)
      && NumeratorOf(v) * x + DenominatorOf(v) * y == 1
      && (v.Int? <==> n % d == 0)
      && (v.Float? <==> n % d != 0 && IsTwoTo(DenominatorOf(v)) && p.exactFloat(NumeratorOf(v), DenominatorOf(v)))
      && (v.Fraction? <==> !v.Int? && !v.Float?)
  {
    hide IsPowerOfTwo, Gcd;
    var g;
    g, x, y := ReducedFacts(n, d);
    var (rn, rd) := Reduced(n, d);
    WholeIff(n, d, g, rn, rd, x, y);
    PowerOfTwoIff(rd);
    assert rn * d == rn * (g * rd) == (g * rn) * rd == n * rd;
  }
}
