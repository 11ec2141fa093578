/** The pieces of Go's strings package the parsers use, on sequences of Unicode code points. */
module Text {
  /** unicode.IsSpace */
  predicate IsSpace(c: char) {
    var n := c as int;
    || 0x9 <= n <= 0xD || n == 0x20 || n == 0x85 || n == 0xA0 || n == 0x1680 || 0x2000 <= n <= 0x200A
    || n == 0x2028 || n == 0x2029 || n == 0x202F || n == 0x205F || n == 0x3000
  }

  function TrimLeft(s: string): string {
    if s != "" && IsSpace(s[0]) then TrimLeft(s[1..]) else s
  }

  function TrimRight(s: string): string {
    if s != "" && IsSpace(s[|s| - 1]) then TrimRight(s[..|s| - 1]) else s
  }

  /** strings.TrimSpace */
  function Trim(s: string): string {
    TrimRight(TrimLeft(s))
  }

  /** strings.Split by one character: always at least one piece. */
  function Split(s: string, sep: char): (parts: seq<string>)
    ensures parts != []
  {
    if s == "" then [""]
    else if s[0] == sep then [""] + Split(s[1..], sep)
    else
      var rest := Split(s[1..], sep);
      [[s[0]] + rest[0]] + rest[1..]
  }

  function Join(parts: seq<string>, sep: char): string
    requires parts != []
  {
    if |parts| == 1 then parts[0] else parts[0] + [sep] + Join(parts[1..], sep)
  }

  predicate Trimmed(s: string) {
    s != "" ==> !IsSpace(s[0]) && !IsSpace(s[|s| - 1])
  }

  lemma TrimOfTrimmed(s: string)
    requires Trimmed(s)
    ensures Trim(s) == s
  {
  }

  lemma {:induction false} TrimIsTrimmed(s: string)
    ensures Trimmed(Trim(s))
  {
    TrimLeftStart(s);
    TrimRightEnd(TrimLeft(s));
  }

  lemma {:induction false} TrimLeftStart(s: string)
    ensures TrimLeft(s) != "" ==> !IsSpace(TrimLeft(s)[0])
  {
    if s != "" && IsSpace(s[0]) { TrimLeftStart(s[1..]); }
  }

  lemma {:induction false} TrimRightEnd(s: string)
    ensures TrimRight(s) <= s
    ensures TrimRight(s) != "" ==> !IsSpace(TrimRight(s)[|TrimRight(s)| - 1])
  {
    if s != "" && IsSpace(s[|s| - 1]) { TrimRightEnd(s[..|s| - 1]); }
  }

  lemma {:induction false} TrimLeftAppend(s: string, c: char)
    requires IsSpace(c)
    ensures TrimLeft(s + [c]) == if TrimLeft(s) == "" then "" else TrimLeft(s) + [c]
  {
    if s == "" {
      assert "" + [c] == [c];
      assert TrimLeft([c]) == TrimLeft([c][1..]);
    } else if IsSpace(s[0]) {
      assert (s + [c])[1..] == s[1..] + [c];
      TrimLeftAppend(s[1..], c);
    } else {
      assert (s + [c])[0] == s[0];
    }
  }

  /** White space at either end does not change what TrimSpace returns. */
  lemma TrimIgnoresEnds(s: string, c: char)
    requires IsSpace(c)
    ensures Trim(s + [c]) == Trim(s) == Trim([c] + s)
  {
    TrimLeftAppend(s, c);
    var t := TrimLeft(s);
    assert t != "" ==> (t + [c])[..|t + [c]| - 1] == t;
    assert ([c] + s)[1..] == s;
  }

  lemma {:induction false} SplitConcat(a: string, sep: char, b: string)
    ensures Split(a + [sep] + b, sep) == Split(a, sep) + Split(b, sep)
  {
    if a == "" {
      assert "" + [sep] + b == [sep] + b;
      assert ([sep] + b)[1..] == b;
    } else {
      assert (a + [sep] + b)[1..] == a[1..] + [sep] + b;
      SplitConcat(a[1..], sep, b);
    }
  }

  lemma {:induction false} SplitWhole(s: string, sep: char)
    requires sep !in s
    ensures Split(s, sep) == [s]
  {
    if s != "" {
      SplitWhole(s[1..], sep);
      assert [s[0]] + s[1..] == s;
    }
  }

  lemma {:induction false} SplitJoin(parts: seq<string>, sep: char)
    requires parts != [] && forall i :: 0 <= i < |parts| ==> sep !in parts[i]
    ensures Split(Join(parts, sep), sep) == parts
  {
    SplitWhole(parts[0], sep);
    if |parts| > 1 {
      SplitJoin(parts[1..], sep);
      SplitConcat(parts[0], sep, Join(parts[1..], sep));
      assert parts == [parts[0]] + parts[1..];
    }
  }

  /** Appending a character to the text appends it to the last piece, or starts an empty one. */
  lemma {:induction false} SplitAppend(s: string, sep: char, c: char)
    ensures var p := Split(s, sep);
      Split(s + [c], sep) == if c == sep then p + [""] else p[..|p| - 1] + [p[|p| - 1] + [c]]
  {
    if s == "" {
      assert "" + [c] == [c] && [c][1..] == "" && [c] + "" == [c];
      assert Split([c], sep) == if c == sep then ["", ""] else [[c]];
    } else {
      assert (s + [c])[1..] == s[1..] + [c];
      SplitAppend(s[1..], sep, c);
      var q := Split(s[1..], sep);
      var r := Split(s[1..] + [c], sep);
      if s[0] == sep {
        assert ([""] + q)[..|q|] == [""] + q[..|q| - 1];
      } else {
        GrowFirst(q, r, s[0], c, sep);
      }
    }
  }

  /** Putting a character before the first piece and one after the last do not interfere. */
  lemma GrowFirst(q: seq<string>, r: seq<string>, first: char, c: char, sep: char)
    requires q != [] && r == if c == sep then q + [""] else q[..|q| - 1] + [q[|q| - 1] + [c]]
    ensures var p := [[first] + q[0]] + q[1..];
      [[first] + r[0]] + r[1..] == if c == sep then p + [""] else p[..|p| - 1] + [p[|p| - 1] + [c]]
  {
    var p := [[first] + q[0]] + q[1..];
    assert |p| == |q| && forall i :: 1 <= i < |p| ==> p[i] == q[i];
    assert [first] + (q[0] + [c]) == [first] + q[0] + [c];
  }
}
