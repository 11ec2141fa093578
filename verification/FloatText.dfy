/**
 Reading a small whole number the way strconv.ParseFloat does: any decimal spelling, rounded to the
 nearest double (validScheduleRow in internal/handlers/schedule_excel.go).
 */
module FloatText {
  import opened Wrappers
  import opened Decimal

  /** The largest period number, and so the largest number this module tells apart. */
  const LARGEST := 6

  /** digits * 10^scale, with its sign. */
  datatype Number = Number(negative: bool, digits: nat, scale: int)

  function Unsigned(s: string): string {
    if s != "" && (s[0] == '+' || s[0] == '-') then s[1..] else s
  }

  predicate Negative(s: string) {
    s != "" && s[0] == '-'
  }

  /** The first place, from i on, of one of the two characters; the length when there is none. */
  function Find(s: string, a: char, b: char, i: nat := 0): (k: nat)
    requires i <= |s|
    ensures i <= k <= |s|
    decreases |s| - i
  {
    if i == |s| || s[i] == a || s[i] == b then i else Find(s, a, b, i + 1)
  }

  /** The exponent: an optional sign and digits. */
  function ReadExponent(s: string): Option<int> {
    var digits := Unsigned(s);
    if digits == "" || !AllDigits(digits) then None
    else Some(if Negative(s) then 0 - Value(digits) else Value(digits))
  }

  /** Digits, an optional point among them, and an optional exponent. */
  function ReadNumber(s: string): Option<Number> {
    var u := Unsigned(s);
    var e := Find(u, 'e', 'E');
    var exponent := if e == |u| then Some(0) else ReadExponent(u[e + 1..]);
    var p := Find(u[..e], '.', '.');
    var fraction := if p < e then u[..e][p + 1..] else "";
    var digits := u[..e][..p] + fraction;
    if exponent.None? || digits == "" || !AllDigits(digits) then None
    else Some(Number(Negative(s), Value(digits), exponent.value - |fraction|))
  }

  /** 2^54, in whose parts the distances below are whole. */
  const UNIT := 18_014_398_509_481_984

  /** Half the distance from n to the next double above and below it, in parts of 2^-54. */
  function Above(n: nat): nat {
    if n <= 1 then 2 else if n <= 3 then 4 else 8
  }

  function Below(n: nat): nat {
    if n <= 1 then 1 else if n == 2 then 2 else if n <= 4 then 4 else 8
  }

  /**
   The nearest double is n. Both ends belong to n: its significand is even, and a tie goes to the
   even one.
   */
  predicate RoundsTo(x: Number, n: nat)
    requires 1 <= n <= LARGEST
  {
    var low, high := n * UNIT - Below(n), n * UNIT + Above(n);
    && !x.negative
    && if x.scale >= 0 then low <= x.digits * Pow10(x.scale) * UNIT <= high
       else low * Pow10(-x.scale) <= x.digits * UNIT <= high * Pow10(-x.scale)
  }

  /** The whole number from `from` to 6 that x rounds to. */
  function WholeFrom(x: Number, from: nat): (n: Option<nat>)
    requires 1 <= from <= LARGEST + 1
    ensures n.Some? ==> from <= n.value <= LARGEST && RoundsTo(x, n.value)
    ensures n.None? ==> forall m :: from <= m <= LARGEST ==> !RoundsTo(x, m)
    decreases LARGEST + 1 - from
  {
    if from > LARGEST then None else if RoundsTo(x, from) then Some(from) else WholeFrom(x, from + 1)
  }

  /** The whole number from 1 to 6 that ParseFloat gives, None for any other number or for no number. */
  function ReadWhole(s: string): (n: Option<nat>)
    ensures n.Some? ==> 1 <= n.value <= LARGEST
  {
    var x := ReadNumber(s);
    if x.None? then None else WholeFrom(x.value, 1)
  }

  /** The rounding intervals are disjoint, so at most one number fits. */
  lemma RoundsToOne(x: Number, m: nat, n: nat)
    requires 1 <= m <= LARGEST && 1 <= n <= LARGEST && RoundsTo(x, m) && RoundsTo(x, n)
    ensures m == n
  {
    if m < n { RoundsApart(x, m, n); }
    if n < m { RoundsApart(x, n, m); }
  }

  lemma RoundsApart(x: Number, m: nat, n: nat)
    requires 1 <= m < n <= LARGEST && RoundsTo(x, m)
    ensures !RoundsTo(x, n)
  {
    var high, low := m * UNIT + Above(m), n * UNIT - Below(n);
    assert high < low;
    if x.scale < 0 { MulLess(high, low, Pow10(-x.scale)); }
  }

  lemma MulLess(a: int, b: int, p: nat)
    requires a < b && p > 0
    ensures a * p < b * p
  {
  }

  lemma {:induction false} FindNone(s: string, a: char, b: char, i: nat)
    requires i <= |s| && forall k :: i <= k < |s| ==> s[k] != a && s[k] != b
    ensures Find(s, a, b, i) == |s|
    decreases |s| - i
  {
    if i < |s| { FindNone(s, a, b, i + 1); }
  }

  lemma {:induction false} FindFirst(s: string, a: char, b: char, i: nat, k: nat)
    requires i <= k < |s| && (s[k] == a || s[k] == b) && forall j :: i <= j < k ==> s[j] != a && s[j] != b
    ensures Find(s, a, b, i) == k
    decreases k - i
  {
    if i < k { FindFirst(s, a, b, i + 1, k); }
  }

  /** Plain digits, with a sign or without, read as their value. */
  lemma ReadDigits(s: string, digits: string)
    requires digits != "" && AllDigits(digits) && Unsigned(s) == digits
    ensures ReadNumber(s) == Some(Number(Negative(s), Value(digits), 0))
  {
    FindNone(digits, 'e', 'E', 0);
    FindNone(digits, '.', '.', 0);
    assert digits[..|digits|] == digits && digits + "" == digits;
  }

  /** A negative number is no period number. */
  lemma NegativeIsNone(x: Number)
    requires x.negative
    ensures WholeFrom(x, 1) == None
  {
  }

  /** A whole number reads as itself from 1 to 6, and as nothing else. */
  lemma WholeOf(v: nat)
    ensures WholeFrom(Number(false, v, 0), 1) == if 1 <= v <= LARGEST then Some(v) else None
  {
    var x := Number(false, v, 0);
    assert Pow10(0) == 1;
    forall n | 1 <= n <= LARGEST ensures RoundsTo(x, n) <==> n == v {
      assert RoundsTo(x, n) <==> n * UNIT - Below(n) <= v * UNIT <= n * UNIT + Above(n);
    }
  }

  /** strconv.Itoa */
  function IntText(n: int): string {
    if n < 0 then "-" + Text(-n) else Text(n)
  }

  /** A printed number reads back as itself from 1 to 6, and is refused otherwise. */
  lemma ReadWholeOfText(n: int)
    ensures ReadWhole(IntText(n)) == if 1 <= n <= LARGEST then Some(n) else None
  {
    var v: nat := if n < 0 then -n else n;
    TextValue(v);
    if n < 0 {
      assert IntText(n)[1..] == Text(v);
      ReadDigits(IntText(n), Text(v));
      NegativeIsNone(Number(true, Value(Text(v)), 0));
    } else {
      ReadDigits(Text(v), Text(v));
      WholeOf(v);
    }
  }

  function Zeros(k: nat): (s: string)
    ensures |s| == k && AllDigits(s)
  {
    seq(k, i => '0')
  }

  lemma {:induction false} ValueZeros(s: string, k: nat)
    requires AllDigits(s)
    ensures AllDigits(s + Zeros(k)) && Value(s + Zeros(k)) == Value(s) * Pow10(k)
  {
    if k == 0 {
      assert s + Zeros(0) == s;
    } else {
      ValueZeros(s, k - 1);
      var t := s + Zeros(k);
      assert t[..|t| - 1] == s + Zeros(k - 1) && t[|t| - 1] == '0';
    }
  }

  /** Writing n as n.000 changes nothing. */
  lemma ReadWholeOfDecimal(n: nat, k: nat)
    requires 1 <= n <= LARGEST
    ensures ReadWhole(Text(n) + "." + Zeros(k)) == Some(n)
  {
    var d, s := Text(n), Text(n) + "." + Zeros(k);
    TextValue(n);
    ValueZeros(d, k);
    FindNone(s, 'e', 'E', 0);
    assert s[..|s|] == s;
    FindFirst(s, '.', '.', 0, |d|);
    assert s[..|d|] == d && s[|d| + 1..] == Zeros(k);
    var x := Number(false, n * Pow10(k), 0 - k);
    assert ReadNumber(s) == Some(x);
    DecimalRounds(n, k);
    var w := WholeFrom(x, 1);
    if w.Some? { RoundsToOne(x, w.value, n); }
  }

  lemma MulBetween(low: int, n: nat, high: int, p: nat)
    requires low <= n * UNIT <= high
    ensures low * p <= n * p * UNIT <= high * p
  {
    MulMore(low, n * UNIT, p);
    MulMore(n * UNIT, high, p);
    MulSwap(n, UNIT, p);
  }

  lemma MulMore(a: int, b: int, p: nat)
    requires a <= b
    ensures a * p <= b * p
  {
  }

  lemma MulSwap(a: int, b: int, c: int)
    ensures a * b * c == a * c * b
  {
  }

  lemma DecimalRounds(n: nat, k: nat)
    requires 1 <= n <= LARGEST
    ensures RoundsTo(Number(false, n * Pow10(k), 0 - k), n)
  {
    MulBetween(n * UNIT - Below(n), n, n * UNIT + Above(n), Pow10(k));
    assert Pow10(0) == 1;
  }
}
