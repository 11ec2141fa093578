/**
 The Iraqi mobile number normaliser (internal/phone/phone.go). A number written in any accepted way
 becomes +9647XXXXXXXXX, the international form of section 6.2.1 of ITU-T E.164. Text is a sequence
 of Unicode code points, as Go's strings.Map and strings.NewReplacer read it.
 */
module Phone {
  import opened Wrappers
  import opened Decimal

  /** Space, tab, dash, parentheses, dot, no-break and thin spaces, direction and joiner marks. */
  const IGNORED := " \t-().\U{A0}\U{2009}\U{202F}\U{200E}\U{200F}\U{200C}\U{200D}"

  const ASCII_DIGITS := "0123456789"

  /** Arabic-Indic and Persian digits become ASCII digits; any other character stays. */
  function FoldDigit(c: char): char {
    var n := c as int;
    if 0x660 <= n <= 0x669 then ASCII_DIGITS[n - 0x660]
    else if 0x6F0 <= n <= 0x6F9 then ASCII_DIGITS[n - 0x6F0]
    else c
  }

  function Cleaned(raw: string): string {
    if raw == "" then ""
    else
      var c := FoldDigit(raw[0]);
      (if c in IGNORED then "" else [c]) + Cleaned(raw[1..])
  }

  predicate HasPrefix(s: string, p: string) {
    |p| <= |s| && s[..|p|] == p
  }

  function TrimTrunkZero(s: string): string {
    if HasPrefix(s, "0") then s[1..] else s
  }

  /** A subscriber number: a 7 and nine digits. */
  predicate IsMobile(s: string) {
    |s| == 10 && s[0] == '7' && forall i :: 1 <= i < 10 ==> IsDigit(s[i])
  }

  function Normalize(raw: string): Option<string> {
    NormalizeCleaned(Cleaned(raw))
  }

  function NormalizeCleaned(s: string): Option<string> {
    var rest :=
      if HasPrefix(s, "+964") then Some(TrimTrunkZero(s[4..]))
      else if HasPrefix(s, "00964") then Some(TrimTrunkZero(s[5..]))
      else if HasPrefix(s, "964") then Some(TrimTrunkZero(s[3..]))
      else if HasPrefix(s, "0") then Some(s[1..])
      else None;
    if rest.Some? && IsMobile(rest.value) then Some("+964" + rest.value) else None
  }

  /** The ways to write the part before the subscriber number. */
  const PREFIXES := ["0", "+964", "+9640", "00964", "009640", "964", "9640"]

  /** `raw` spells the subscriber number `number`. */
  ghost predicate Spells(raw: string, number: string) {
    IsMobile(number) && exists p :: p in PREFIXES && Cleaned(raw) == p + number
  }

  /** Normalize accepts exactly the seven spellings, and returns the number they carry. */
  lemma NormalizeExact(raw: string, number: string)
    ensures Spells(raw, number) <==> IsMobile(number) && Normalize(raw) == Some("+964" + number)
  {
    var s := Cleaned(raw);
    if Spells(raw, number) {
      var p :| p in PREFIXES && s == p + number;
      SplitPrefix(p, number);
    } else if IsMobile(number) && Normalize(raw) == Some("+964" + number) {
      var n := Normalize(raw).value;
      assert n[4..] == number;
      RejoinPrefix(s, number);
    }
  }

  lemma NoPrefix(s: string, q: string, i: nat)
    requires i < |s| && i < |q| && s[i] != q[i]
    ensures !HasPrefix(s, q)
  {
    assert |q| <= |s| ==> s[..|q|][i] == s[i];
  }

  /** After the country code a trunk 0, if there is one, is dropped; the number itself starts with 7. */
  lemma AfterCode(code: string, trunk: string, number: string)
    requires IsMobile(number) && (trunk == "" || trunk == "0")
    ensures var s := code + trunk + number;
      HasPrefix(s, code) && TrimTrunkZero(s[|code|..]) == number
  {
    var s := code + trunk + number;
    assert s[..|code|] == code && s[|code|..] == trunk + number;
    if trunk == "" {
      assert trunk + number == number;
      NoPrefix(number, "0", 0);
    } else {
      assert (trunk + number)[..1] == "0" && (trunk + number)[1..] == number;
    }
  }

  /** Reading any of the spellings takes the prefix off, whole. */
  lemma SplitPrefix(p: string, number: string)
    requires p in PREFIXES && IsMobile(number)
    ensures NormalizeCleaned(p + number) == Some("+964" + number)
  {
    var s := p + number;
    if p == "0" {
      NoPrefix(s, "+964", 0);
      NoPrefix(s, "00964", 1);
      NoPrefix(s, "964", 0);
      assert s[..1] == "0" && s[1..] == number;
    } else if p == "+964" || p == "+9640" {
      SplitCode("+964", p[4..], p, number);
    } else if p == "00964" || p == "009640" {
      SplitCode("00964", p[5..], p, number);
      NoPrefix(s, "+964", 0);
    } else {
      SplitCode("964", p[3..], p, number);
      NoPrefix(s, "+964", 0);
      NoPrefix(s, "00964", 0);
    }
  }

  lemma SplitCode(code: string, trunk: string, p: string, number: string)
    requires IsMobile(number) && (trunk == "" || trunk == "0") && p == code + trunk
    ensures HasPrefix(p + number, code) && TrimTrunkZero((p + number)[|code|..]) == number
  {
    AfterCode(code, trunk, number);
  }

  lemma RejoinCode(s: string, code: string, number: string)
    requires HasPrefix(s, code) && TrimTrunkZero(s[|code|..]) == number
    ensures s == code + number || s == code + "0" + number
  {
    var rest := s[|code|..];
    assert s == code + rest;
    if HasPrefix(rest, "0") { assert rest == rest[..1] + rest[1..]; }
  }

  lemma RejoinPrefix(s: string, number: string)
    requires
      if HasPrefix(s, "+964") then TrimTrunkZero(s[4..]) == number
      else if HasPrefix(s, "00964") then TrimTrunkZero(s[5..]) == number
      else if HasPrefix(s, "964") then TrimTrunkZero(s[3..]) == number
      else HasPrefix(s, "0") && s[1..] == number
    ensures exists p :: p in PREFIXES && s == p + number
  {
    if HasPrefix(s, "+964") {
      RejoinCode(s, "+964", number);
      assert "+964" + "0" == "+9640" && "+964" in PREFIXES && "+9640" in PREFIXES;
    } else if HasPrefix(s, "00964") {
      RejoinCode(s, "00964", number);
      assert "00964" + "0" == "009640" && "00964" in PREFIXES && "009640" in PREFIXES;
    } else if HasPrefix(s, "964") {
      RejoinCode(s, "964", number);
      assert "964" + "0" == "9640" && "964" in PREFIXES && "9640" in PREFIXES;
    } else {
      assert s == s[..1] + s[1..] && "0" in PREFIXES;
    }
  }

  /** The canonical form is a fixed point: normalising twice changes nothing more. */
  lemma NormalizeIdempotent(raw: string)
    requires Normalize(raw).Some?
    ensures Normalize(Normalize(raw).value) == Normalize(raw)
  {
    var c := Normalize(raw).value;
    var number := c[4..];
    CleanedKeeps(c);
    assert "+964" in PREFIXES;
    NormalizeExact(c, number);
  }

  lemma {:induction false} CleanedKeeps(s: string)
    requires forall i :: 0 <= i < |s| ==> IsDigit(s[i]) || s[i] == '+'
    ensures Cleaned(s) == s
  {
    if s != "" { CleanedKeeps(s[1..]); }
  }

  /** Two accepted spellings agree exactly when they carry the same subscriber number. */
  lemma NormalizeAgrees(a: string, b: string, na: string, nb: string)
    requires Spells(a, na) && Spells(b, nb)
    ensures Normalize(a) == Normalize(b) <==> na == nb
  {
    NormalizeExact(a, na);
    NormalizeExact(b, nb);
    assert ("+964" + na)[4..] == na && ("+964" + nb)[4..] == nb;
  }

  /** Ignored characters never matter, wherever they stand. */
  lemma {:induction false} CleanedConcat(a: string, b: string)
    ensures Cleaned(a + b) == Cleaned(a) + Cleaned(b)
  {
    if a == "" {
      assert a + b == b;
    } else {
      assert (a + b)[1..] == a[1..] + b;
      CleanedConcat(a[1..], b);
    }
  }

  lemma IgnoredAnywhere(a: string, c: char, b: string)
    requires c in IGNORED
    ensures Normalize(a + [c] + b) == Normalize(a + b)
  {
    CleanedConcat(a, b);
    CleanedConcat(a + [c], b);
    CleanedConcat(a, [c]);
    assert Cleaned([c]) == "";
    assert Cleaned(a) + "" == Cleaned(a);
  }
}
