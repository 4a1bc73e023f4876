/** Ratios in lowest terms, as `fractions.Fraction` keeps them. */
module Rationals {
  function Gcd(a: nat, b: nat): (g: nat)
    ensures a + b > 0 ==> g > 0
    decreases b
  {
    if b == 0 then a else Gcd(b, a % b)
  }

  function Abs(n: int): nat {
    if n < 0 then -n else n
  }

  function Reduced(n: int, d: int): (int, int)
    requires d > 0
  {
    var g := Gcd(Abs(n), d);
    (n / g, d / g)
  }

  lemma {:induction false} GcdDivides(a: nat, b: nat)
    requires a + b > 0
    ensures a == Gcd(a, b) * (a / Gcd(a, b)) && b == Gcd(a, b) * (b / Gcd(a, b))
    decreases b
  {
    if b != 0 {
      var g := Gcd(b, a % b);
      GcdDivides(b, a % b);
      GcdStep(a, b, g, a / b, a % b);
    } else {
      Quotient(a, a, 1);
      Quotient(0, a, 0);
    }
  }

  lemma GcdStep(a: int, b: int, g: int, t: int, r: int)
    requires g > 0 && a == t * b + r && b == g * (b / g) && r == g * (r / g)
    ensures a == g * (a / g)
  {
    Regroup(t, g, b / g, r / g);
    Quotient(a, g, t * (b / g) + r / g);
  }

  lemma Regroup(t: int, g: int, q: int, r: int)
    ensures t * (g * q) + g * r == g * (t * q + r)
  {
  }

  lemma Quotient(n: int, g: int, q: int)
    requires g > 0 && n == g * q
    ensures n / g == q
  {
    var z := n / g - q;
    assert g * z + n % g == 0 by { assert g * z == g * (n / g) - g * q; }
    assert z >= 1 ==> g * z >= g;
    assert z <= -1 ==> g * z <= -g;
  }

  lemma {:induction false} Bezout(a: nat, b: nat) returns (x: int, y: int)
    ensures a * x + b * y == Gcd(a, b)
    decreases b
  {
    if b == 0 {
      x, y := 1, 0;
    } else {
      var u, v := Bezout(b, a % b);
      x, y := v, u - (a / b) * v;
      BezoutStep(a, b, a / b, a % b, u, v);
    }
  }

  lemma BezoutStep(a: int, b: int, t: int, r: int, u: int, v: int)
    requires a == t * b + r
    ensures a * v + b * (u - t * v) == b * u + r * v
  {
    assert a * v == (t * b) * v + r * v;
    assert b * (u - t * v) == b * u - b * (t * v);
    assert (t * b) * v == b * (t * v);
  }

  /** The reduced ratio, the factor taken out, and a witness that nothing more can be taken out. */
  lemma ReducedFacts(n: int, d: int) returns (g: int, x: int, y: int)
    requires d > 0
    ensures g > 0
    ensures var (rn, rd) := Reduced(n, d);
      rd > 0 && n == g * rn && d == g * rd && rn * x + rd * y == 1
  {
    g := Gcd(Abs(n), d);
    GcdDivides(Abs(n), d);
    var q := Abs(n) / g;
    if n < 0 {
      assert n == g * -q;
      Quotient(n, g, -q);
    } else {
      Quotient(n, g, q);
    }
    var rd := d / g;
    assert rd > 0 by {
      if rd <= 0 {
        NonPositiveProduct(g, rd);
      }
    }
    var u, v := Bezout(Abs(n), d);
    x, y := if n < 0 then -u else u, v;
    Cancel(g, n / g, rd, x, y, n, d);
  }

  lemma NonPositiveProduct(g: int, r: int)
    requires g > 0 && r <= 0
    ensures g * r <= 0
  {
  }

  lemma Cancel(g: int, a: int, b: int, x: int, y: int, n: int, d: int)
    requires g > 0 && n == g * a && d == g * b && n * x + d * y == g
    ensures a * x + b * y == 1
  {
    assert n * x == g * (a * x) && d * y == g * (b * y);
    assert g * (a * x + b * y) == g * 1;
    SameProduct(g, a * x + b * y, 1);
  }

  lemma SameProduct(g: int, p: int, q: int)
    requires g > 0 && g * p == g * q
    ensures p == q
  {
    Quotient(g * p, g, p);
    Quotient(g * p, g, q);
  }

  /** Two ratios are equal exactly when their lowest terms are. */
  lemma EqualRatios(n: int, d: int, m: int, e: int)
    requires d > 0 && e > 0
    ensures n * e == m * d <==> Reduced(n, d) == Reduced(m, e)
  {
    var g, x, y := ReducedFacts(n, d);
    var h, u, v := ReducedFacts(m, e);
    var (a, b) := Reduced(n, d);
    var (c, f) := Reduced(m, e);
    Scale(g, a, h, f);
    Scale(h, c, g, b);
    assert n * e == (g * h) * (a * f);
    assert m * d == (g * h) * (c * b) by { assert g * h == h * g; }
    if n * e == m * d {
      assert g * h > 0;
      SameProduct(g * h, a * f, c * b);
      LowestTermsUnique(a, b, x, y, c, f, u, v);
    }
  }

  lemma Scale(g: int, a: int, h: int, f: int)
    ensures (g * a) * (h * f) == (g * h) * (a * f)
  {
    assert (g * a) * (h * f) == g * (a * (h * f));
    assert a * (h * f) == h * (a * f);
  }

  lemma LowestTermsUnique(a: int, b: int, x: int, y: int, c: int, f: int, u: int, v: int)
    requires b > 0 && f > 0
    requires a * x + b * y == 1 && c * u + f * v == 1
    requires a * f == c * b
    ensures a == c && b == f
  {
    Divides(a, b, x, y, c, f);
    Divides(c, f, u, v, a, b);
    var k, l := c * x + f * y, a * u + b * v;
    // f == b * k and b == f * l, so both factors are one
    Unit(b, f, k, l);
    SameProduct(f, a, c);
  }

  lemma Divides(a: int, b: int, x: int, y: int, c: int, f: int)
    requires a * x + b * y == 1 && a * f == c * b
    ensures f == b * (c * x + f * y)
  {
    assert f == f * (a * x + b * y);
    assert f * (a * x + b * y) == f * (a * x) + f * (b * y);
    assert f * (a * x) == (a * f) * x;
    assert (c * b) * x == b * (c * x);
    assert f * (b * y) == b * (f * y);
  }

  lemma Unit(b: int, f: int, k: int, l: int)
    requires b > 0 && f > 0 && f == b * k && b == f * l
    ensures b == f
  {
    if k <= 0 {
      NonPositiveProduct(b, k);
    } else if l <= 0 {
      NonPositiveProduct(f, l);
    } else {
      AtLeast(b, k);
      AtLeast(f, l);
    }
  }

  lemma AtLeast(b: int, k: int)
    requires b > 0 && k >= 1
    ensures b * k >= b
  {
    assert b * k == b + b * (k - 1);
  }

  /** Reducing a reduced ratio changes nothing. */
  lemma ReducedTwice(n: int, d: int)
    requires d > 0
    ensures Reduced(n, d).1 > 0
    ensures Reduced(Reduced(n, d).0, Reduced(n, d).1) == Reduced(n, d)
  {
    var g, x, y := ReducedFacts(n, d);
    var (a, b) := Reduced(n, d);
    assert a * d == a * (g * b) == (g * a) * b == n * b;
    EqualRatios(a, b, n, d);
  }
}
