/** Hexadecimal texts, as `hexdigest` gives them. */
module HexTexts {
  import opened Bytes

  predicate IsHex(c: char) {
    '0' <= c <= '9' || 'a' <= c <= 'f'
  }

  predicate AllHex(s: string) {
    forall i :: 0 <= i < |s| ==> IsHex(s[i])
  }

  function HexDigit(d: nat): (c: char)
    requires d < 16
    ensures IsHex(c) && HexValue(c) == d
  {
    if d < 10 then '0' + d as char else 'a' + (d - 10) as char
  }

  function HexValue(c: char): (d: nat)
    requires IsHex(c)
    ensures d < 16
  {
    if '0' <= c <= '9' then (c - '0') as int else 10 + (c - 'a') as int
  }

  lemma HexValueInjective(c: char, d: char)
    requires IsHex(c) && IsHex(d) && HexValue(c) == HexValue(d)
    ensures c == d
  {
  }

  function HexText(b: Blob): (s: string)
    ensures |s| == 2 * |b| && AllHex(s)
  {
    if b == [] then [] else [HexDigit(b[0] / 16), HexDigit(b[0] % 16)] + HexText(b[1..])
  }

  lemma {:induction false} HexTextInjective(a: Blob, b: Blob)
    requires HexText(a) == HexText(b)
    ensures a == b
  {
    if a != [] {
      var s, t := HexText(a), HexText(b);
      assert s[0] == HexDigit(a[0] / 16) && s[1] == HexDigit(a[0] % 16);
      assert t[0] == HexDigit(b[0] / 16) && t[1] == HexDigit(b[0] % 16);
      assert a[0] / 16 == b[0] / 16 && a[0] % 16 == b[0] % 16;
      assert s[2..] == HexText(a[1..]) && t[2..] == HexText(b[1..]);
      HexTextInjective(a[1..], b[1..]);
      assert a == [a[0]] + a[1..] && b == [b[0]] + b[1..];
    }
  }

  // ---- counting short texts ------------------------------------------------

  function Power17(n: nat): (p: nat)
    ensures p >= 1
  {
    if n == 0 then 1 else 17 * Power17(n - 1)
  }

  /** Texts of up to `n` hexadecimal digits have different codes below `Power17(n)`. */
  function Code(s: string): nat
    requires AllHex(s)
  {
    if s == [] then 0 else HexValue(s[0]) + 1 + 17 * Code(s[1..])
  }

  lemma {:induction false} CodeBound(s: string, n: nat)
    requires AllHex(s) && |s| <= n
    ensures Code(s) < Power17(n)
  {
    if s != [] {
      CodeBound(s[1..], n - 1);
    }
  }

  lemma {:induction false} CodeInjective(s: string, t: string)
    requires AllHex(s) && AllHex(t) && Code(s) == Code(t)
    ensures s == t
  {
    if s != [] && t != [] {
      LastDigits(HexValue(s[0]), Code(s[1..]), HexValue(t[0]), Code(t[1..]));
      HexValueInjective(s[0], t[0]);
      CodeInjective(s[1..], t[1..]);
      assert s == [s[0]] + s[1..] && t == [t[0]] + t[1..];
    }
  }

  lemma LastDigits(d: nat, x: nat, e: nat, y: nat)
    requires d < 16 && e < 16 && d + 1 + 17 * x == e + 1 + 17 * y
    ensures d == e && x == y
  {
  }
}
