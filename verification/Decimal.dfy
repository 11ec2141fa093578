/** Decimal text of natural numbers, as PostgreSQL's ::text and Go's strconv.Itoa print them. */
module Decimal {
  predicate IsDigit(c: char) {
    '0' <= c <= '9'
  }

  predicate AllDigits(s: string) {
    forall i :: 0 <= i < |s| ==> IsDigit(s[i])
  }

  function DigitValue(c: char): (n: nat)
    requires IsDigit(c)
    ensures n < 10
  {
    c as int - '0' as int
  }

  function Digit(n: nat): (c: char)
    requires n < 10
    ensures IsDigit(c) && DigitValue(c) == n
  {
    ('0' as int + n) as char
  }

  function Value(s: string): nat
    requires AllDigits(s)
  {
    if s == "" then 0 else 10 * Value(s[..|s| - 1]) + DigitValue(s[|s| - 1])
  }

  function Text(n: nat): (s: string)
    ensures s != ""
  {
    if n < 10 then [Digit(n)] else Text(n / 10) + [Digit(n % 10)]
  }

  function Pow10(k: nat): (p: nat)
    ensures p > 0
  {
    if k == 0 then 1 else 10 * Pow10(k - 1)
  }

  /** Printing has no leading zero and reading it back gives the number. */
  lemma {:induction false} TextValue(n: nat)
    ensures AllDigits(Text(n)) && Value(Text(n)) == n
    ensures n > 0 ==> Text(n)[0] != '0'
  {
    var s := Text(n);
    if n >= 10 {
      TextValue(n / 10);
      assert s[..|s| - 1] == Text(n / 10) && s[|s| - 1] == Digit(n % 10);
    } else {
      assert s[..0] == "";
    }
  }

  /** Digits without a leading zero are what printing their value gives. */
  lemma {:induction false} ValueText(s: string)
    requires s != "" && AllDigits(s) && s[0] != '0'
    ensures Value(s) > 0 && Text(Value(s)) == s
  {
    var init, last := s[..|s| - 1], s[|s| - 1];
    assert s == init + [last];
    if init != "" {
      ValueText(init);
      assert Value(s) / 10 == Value(init) && Value(s) % 10 == DigitValue(last);
    }
  }

  lemma TextInjective(a: nat, b: nat)
    requires Text(a) == Text(b)
    ensures a == b
  {
    TextValue(a);
    TextValue(b);
  }

  lemma {:induction false} TextLength(n: nat, k: nat)
    requires k > 0 && n < Pow10(k)
    ensures |Text(n)| <= k
  {
    if n >= 10 { TextLength(n / 10, k - 1); }
  }

  lemma Pow10Of14()
    ensures Pow10(14) == 100_000_000_000_000
  {
    assert Pow10(7) == 10_000_000;
    assert Pow10(13) == 10_000_000_000_000;
  }
}
