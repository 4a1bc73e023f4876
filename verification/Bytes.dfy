/**
  Byte strings as Python orders them, and the fixed-width big-endian integers of
  the `struct` formats ">I" and ">Q".
 */
module Bytes {
  type Byte = b: int | 0 <= b < 256
  type Blob = seq<Byte>

  /** Strict lexicographic order; a proper prefix comes first. */
  predicate Less(a: Blob, b: Blob) {
    b != [] && (a == [] || a[0] < b[0] || (a[0] == b[0] && Less(a[1..], b[1..])))
  }

  predicate StartsWith(s: Blob, prefix: Blob) {
    |prefix| <= |s| && s[..|prefix|] == prefix
  }

  lemma {:induction false} LessIrreflexive(a: Blob)
    ensures !Less(a, a)
  {
    if a != [] {
      LessIrreflexive(a[1..]);
    }
  }

  lemma {:induction false} LessTransitive(a: Blob, b: Blob, c: Blob)
    requires Less(a, b) && Less(b, c)
    ensures Less(a, c)
  {
    if a != [] && a[0] == b[0] == c[0] {
      LessTransitive(a[1..], b[1..], c[1..]);
    }
  }

  lemma {:induction false} LessTotal(a: Blob, b: Blob)
    ensures Less(a, b) || a == b || Less(b, a)
  {
    if a != [] && b != [] && a[0] == b[0] {
      LessTotal(a[1..], b[1..]);
      assert a == [a[0]] + a[1..] && b == [b[0]] + b[1..];
    }
  }

  lemma LessAsymmetric(a: Blob, b: Blob)
    requires Less(a, b)
    ensures !Less(b, a) && a != b
  {
    LessIrreflexive(a);
    if Less(b, a) {
      LessTransitive(a, b, a);
    }
  }

  /** A common prefix does not influence the order. */
  lemma {:induction false} LessAfterPrefix(p: Blob, a: Blob, b: Blob)
    ensures Less(p + a, p + b) <==> Less(a, b)
  {
    if p == [] {
      assert p + a == a && p + b == b;
    } else {
      assert (p + a)[1..] == p[1..] + a && (p + b)[1..] == p[1..] + b;
      LessAfterPrefix(p[1..], a, b);
    }
  }

  /** Between different heads of one length, the tails do not matter. */
  lemma {:induction false} LessOfHeads(a: Blob, b: Blob, x: Blob, y: Blob)
    requires |a| == |b| && a != b
    ensures Less(a + x, b + y) <==> Less(a, b)
  {
    if a[0] == b[0] {
      assert a == [a[0]] + a[1..] && b == [b[0]] + b[1..];
      assert (a + x)[1..] == a[1..] + x && (b + y)[1..] == b[1..] + y;
      LessOfHeads(a[1..], b[1..], x, y);
    }
  }

  /** A prefix and everything that starts with it form one interval of the order. */
  lemma {:induction false} PrefixIsInterval(p: Blob, a: Blob, b: Blob, c: Blob)
    requires StartsWith(a, p) && StartsWith(c, p)
    requires a == b || Less(a, b)
    requires b == c || Less(b, c)
    ensures StartsWith(b, p)
  {
    if p != [] && a != b && b != c {
      assert p[0] == a[0] == c[0];
      assert b[0] == p[0];
      assert StartsWith(a[1..], p[1..]) by { assert a[1..][..|p[1..]|] == a[..|p|][1..]; }
      assert StartsWith(c[1..], p[1..]) by { assert c[1..][..|p[1..]|] == c[..|p|][1..]; }
      PrefixIsInterval(p[1..], a[1..], b[1..], c[1..]);
      assert b[..|p|] == [b[0]] + b[1..][..|p[1..]|];
      assert p == [p[0]] + p[1..];
    }
  }

  lemma {:induction false} PrefixIsLeast(p: Blob, a: Blob)
    requires StartsWith(a, p)
    ensures p == a || Less(p, a)
  {
    if p != [] {
      assert a[1..][..|p[1..]|] == a[..|p|][1..];
      PrefixIsLeast(p[1..], a[1..]);
      assert a == [a[0]] + a[1..] && p == [p[0]] + p[1..];
    }
  }

  function Power256(width: nat): (r: nat)
    ensures r > 0
  {
    if width == 0 then 1 else 256 * Power256(width - 1)
  }

  function BigEndian(n: nat, width: nat): (r: Blob)
    requires n < Power256(width)
    ensures |r| == width
    ensures FromBigEndian(r) == n
  {
    if width == 0 then
      []
    else
      var unit := Power256(width - 1);
      DigitBound(n, unit);
      var r := [n / unit] + BigEndian(n % unit, width - 1);
      assert r[1..] == BigEndian(n % unit, width - 1);
      r
  }

  function FromBigEndian(b: Blob): (n: nat)
    ensures n < Power256(|b|)
  {
    if b == [] then
      0
    else
      PlaceBound(b[0], FromBigEndian(b[1..]), Power256(|b| - 1));
      b[0] * Power256(|b| - 1) + FromBigEndian(b[1..])
  }

  lemma ProductOrder(a: int, b: int, unit: nat)
    ensures a <= b ==> a * unit <= b * unit
  {
  }

  lemma DigitBound(n: nat, unit: nat)
    requires 0 < unit && n < 256 * unit
    ensures 0 <= n / unit < 256
    ensures (n / unit) * unit + n % unit == n
  {
    ProductOrder(256, n / unit, unit);
  }

  lemma PlaceBound(digit: Byte, rest: nat, unit: nat)
    requires rest < unit
    ensures 0 <= digit * unit + rest < 256 * unit
  {
    assert digit * unit <= 255 * unit;
  }

  /** Decoding is injective on strings of one width, so it inverts the encoding both ways. */
  lemma {:induction false} FromBigEndianInjective(a: Blob, b: Blob)
    requires |a| == |b| && FromBigEndian(a) == FromBigEndian(b)
    ensures a == b
  {
    if a != [] {
      var unit := Power256(|a| - 1);
      SameDigits(a[0], FromBigEndian(a[1..]), b[0], FromBigEndian(b[1..]), unit);
      FromBigEndianInjective(a[1..], b[1..]);
      assert a == [a[0]] + a[1..] && b == [b[0]] + b[1..];
    }
  }

  lemma SameDigits(d: Byte, x: nat, e: Byte, y: nat, unit: nat)
    requires x < unit && y < unit
    requires d * unit + x == e * unit + y
    ensures d == e && x == y
  {
    ProductOrder(d + 1, e, unit);
    ProductOrder(e + 1, d, unit);
    assert (d + 1) * unit == d * unit + unit && (e + 1) * unit == e * unit + unit;
  }

  /** The order of equally wide encodings is the order of the numbers. */
  lemma {:induction false} BigEndianOrder(a: Blob, b: Blob)
    requires |a| == |b|
    ensures Less(a, b) <==> FromBigEndian(a) < FromBigEndian(b)
  {
    if a != [] {
      var unit := Power256(|a| - 1);
      if a[0] < b[0] {
        assert (a[0] + 1) * unit <= b[0] * unit;
      } else if b[0] < a[0] {
        assert (b[0] + 1) * unit <= a[0] * unit;
      } else {
        BigEndianOrder(a[1..], b[1..]);
      }
    }
  }
}
