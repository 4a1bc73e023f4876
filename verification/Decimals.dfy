/** Decimal numerals: what `f"{n}"` prints for a natural number and what `int` reads from ASCII digits. */
module Decimals {
  import opened Wrappers

  predicate IsDigit(c: char) {
    '0' <= c <= '9'
  }

  function Digit(d: nat): (c: char)
    requires d < 10
    ensures IsDigit(c) && c as int == '0' as int + d
  {
    '0' + d as char
  }

  function Decimal(n: nat): (s: string)
    ensures s != [] && forall c :: c in s ==> IsDigit(c)
  {
    if n < 10 then [Digit(n)] else Decimal(n / 10) + [Digit(n % 10)]
  }

  /** The number that a string of digits denotes; `None` when it is not one. */
  function ParseDigits(s: string): Option<nat> {
    if s == [] then
      None
    else
      var last := s[|s| - 1];
      if !IsDigit(last) then
        None
      else
        var d := last as int - '0' as int;
        if |s| == 1 then
          Some(d)
        else
          match ParseDigits(s[..|s| - 1])
          case None => None
          case Some(n) => Some(10 * n + d)
  }

  /** A numeral without superfluous zeros: the only kind that printing produces. */
  predicate Plain(s: string) {
    |s| == 1 || (s != [] && s[0] != '0')
  }

  lemma {:induction false} ParseDecimal(n: nat)
    ensures ParseDigits(Decimal(n)) == Some(n) && Plain(Decimal(n))
    ensures Decimal(n)[0] == '0' <==> n == 0
  {
    if n >= 10 {
      ParseDecimal(n / 10);
      var s := Decimal(n);
      assert s[..|s| - 1] == Decimal(n / 10);
      assert s[0] == Decimal(n / 10)[0];
    }
  }

  lemma {:induction false} LeadingZero(s: string)
    requires ParseDigits(s).Some? && s[0] != '0'
    ensures ParseDigits(s).value > 0
  {
    if |s| > 1 {
      LeadingZero(s[..|s| - 1]);
    }
  }

  lemma PlainPrefix(s: string)
    requires Plain(s) && |s| > 1
    ensures Plain(s[..|s| - 1]) && s[0] != '0' && s[..|s| - 1][0] == s[0]
  {
  }

  lemma LastDigit(s: string, n: nat)
    requires ParseDigits(s) == Some(n) && |s| > 1
    ensures var last := s[|s| - 1]; IsDigit(last) && last == Digit(n % 10)
    ensures ParseDigits(s[..|s| - 1]) == Some(n / 10)
  {
  }

  lemma DecimalStep(n: nat)
    requires n >= 10
    ensures Decimal(n) == Decimal(n / 10) + [Digit(n % 10)]
  {
  }

  /** Of the digit strings that denote `n`, printing yields the one without superfluous zeros. */
  lemma {:induction false} DecimalOfDigits(s: string, n: nat)
    requires ParseDigits(s) == Some(n)
    ensures Decimal(n) == s <==> Plain(s)
  {
    ParseDecimal(n);
    if Plain(s) && |s| > 1 {
      hide Decimal, ParseDigits, Plain, Digit;
      var init := s[..|s| - 1];
      PlainPrefix(s);
      LastDigit(s, n);
      LeadingZero(init);
      DecimalOfDigits(init, n / 10);
      DecimalStep(n);
      assert s == init + [s[|s| - 1]];
    }
  }

  lemma DecimalInjective(a: nat, b: nat)
    requires Decimal(a) == Decimal(b)
    ensures a == b
  {
    ParseDecimal(a);
    ParseDecimal(b);
  }
}
