/**
 Parsing of the ATTLOG batches that ZKTeco devices push (parseATTLOG in
 internal/handlers/hardware.go). A line is positional (PIN, tab, time, ...) or key=value
 (PIN=..., tab, DateTime=..., ...); blank and malformed lines are skipped.
 */
module AttLog {
  import opened Wrappers
  import opened Text
  import opened Decimal

  datatype DateTime = DateTime(year: nat, month: nat, day: nat, hour: nat, minute: nat, second: nat)

  datatype Event = Event(pin: string, at: DateTime)

  predicate Leap(y: nat) {
    y % 4 == 0 && (y % 100 != 0 || y % 400 == 0)
  }

  function DaysIn(y: nat, m: nat): nat {
    if m in {4, 6, 9, 11} then 30 else if m != 2 then 31 else if Leap(y) then 29 else 28
  }

  predicate ValidTime(t: DateTime) {
    && t.year <= 9999 && 1 <= t.month <= 12 && 1 <= t.day <= DaysIn(t.year, t.month)
    && t.hour < 24 && t.minute < 60 && t.second < 60
  }

  function Two(n: nat): (s: string)
    requires n < 100
    ensures |s| == 2 && AllDigits(s)
  {
    [Digit(n / 10), Digit(n % 10)]
  }

  /** YYYY-MM-DD HH:MM:SS */
  function PrintTime(t: DateTime): (s: string)
    requires ValidTime(t)
    ensures |s| == 19
  {
    Two(t.year / 100) + Two(t.year % 100) + "-" + Two(t.month) + "-" + Two(t.day) + " "
    + Two(t.hour) + ":" + Two(t.minute) + ":" + Two(t.second)
  }

  function ReadTwo(s: string, i: nat): nat
    requires i + 2 <= |s| && IsDigit(s[i]) && IsDigit(s[i + 1])
  {
    10 * DigitValue(s[i]) + DigitValue(s[i + 1])
  }

  predicate TimeShape(s: string) {
    && |s| == 19 && s[4] == '-' && s[7] == '-' && s[10] == ' ' && s[13] == ':' && s[16] == ':'
    && forall i :: 0 <= i < 19 && i != 4 && i != 7 && i != 10 && i != 13 && i != 16 ==> IsDigit(s[i])
  }

  function ParseTime(s: string): Option<DateTime> {
    if !TimeShape(s) then None
    else
      var t := DateTime(100 * ReadTwo(s, 0) + ReadTwo(s, 2), ReadTwo(s, 5), ReadTwo(s, 8), ReadTwo(s, 11),
        ReadTwo(s, 14), ReadTwo(s, 17));
      if ValidTime(t) then Some(t) else None
  }

  lemma ReadPrinted(s: string, i: nat, n: nat)
    requires i + 2 <= |s| && n < 100 && s[i..i + 2] == Two(n)
    ensures IsDigit(s[i]) && IsDigit(s[i + 1]) && ReadTwo(s, i) == n
  {
    assert s[i] == s[i..i + 2][0] && s[i + 1] == s[i..i + 2][1];
  }

  lemma PrintedShape(t: DateTime)
    requires ValidTime(t)
    ensures TimeShape(PrintTime(t))
    ensures Trimmed(PrintTime(t)) && '\t' !in PrintTime(t) && '\n' !in PrintTime(t)
  {
  }

  lemma ParsePrintTime(t: DateTime)
    requires ValidTime(t)
    ensures ParseTime(PrintTime(t)) == Some(t)
    ensures Trimmed(PrintTime(t)) && '\t' !in PrintTime(t) && '\n' !in PrintTime(t)
  {
    var s := PrintTime(t);
    PrintedShape(t);
    assert s[0..2] == Two(t.year / 100) && s[2..4] == Two(t.year % 100);
    assert s[5..7] == Two(t.month) && s[8..10] == Two(t.day);
    assert s[11..13] == Two(t.hour) && s[14..16] == Two(t.minute) && s[17..19] == Two(t.second);
    ReadPrinted(s, 0, t.year / 100);
    ReadPrinted(s, 2, t.year % 100);
    ReadPrinted(s, 5, t.month);
    ReadPrinted(s, 8, t.day);
    ReadPrinted(s, 11, t.hour);
    ReadPrinted(s, 14, t.minute);
    ReadPrinted(s, 17, t.second);
  }

  // ---------------------------------------------------------------- lines

  /** strings.IndexByte, None for -1. */
  function Index(s: string, c: char): (i: Option<nat>)
    ensures i.Some? ==> i.value < |s| && s[i.value] == c && c !in s[..i.value]
    ensures i.None? ==> c !in s
  {
    if s == "" then None
    else if s[0] == c then Some(0)
    else
      var r := Index(s[1..], c);
      if r.Some? then (assert s[..r.value + 1] == [s[0]] + s[1..][..r.value]; Some(r.value + 1)) else None
  }

  function WithField(kv: map<string, string>, field: string): map<string, string> {
    var i := Index(field, '=');
    if i.None? then kv else kv[Trim(field[..i.value]) := Trim(field[i.value + 1..])]
  }

  /** A later field with the same key wins. */
  function KeyValues(fields: seq<string>): map<string, string> {
    if fields == [] then map[] else WithField(KeyValues(fields[..|fields| - 1]), fields[|fields| - 1])
  }

  /** The PIN and time texts of a line split at its tabs. */
  function Columns(fields: seq<string>): Option<(string, string)>
    requires fields != []
  {
    if '=' in fields[0] then
      var kv := KeyValues(fields);
      if "PIN" in kv && "DateTime" in kv then Some((kv["PIN"], kv["DateTime"])) else None
    else if |fields| < 2 then None
    else Some((Trim(fields[0]), Trim(fields[1])))
  }

  function ParseLine(line: string): Option<Event> {
    var l := Trim(line);
    var columns := Columns(Split(l, '\t'));
    if l == "" || columns.None? || columns.value.0 == "" then None
    else
      var at := ParseTime(columns.value.1);
      if at.None? then None else Some(Event(columns.value.0, at.value))
  }

  function EventsOf(lines: seq<string>): seq<Event> {
    if lines == [] then []
    else
      var e := ParseLine(lines[|lines| - 1]);
      EventsOf(lines[..|lines| - 1]) + if e.Some? then [e.value] else []
  }

  /** What a body means: the events of its lines. */
  function Parse(body: string): seq<Event> {
    EventsOf(Split(body, '\n'))
  }

  lemma {:induction false} EventsConcat(a: seq<string>, b: seq<string>)
    ensures EventsOf(a + b) == EventsOf(a) + EventsOf(b)
  {
    if b == [] {
      assert a + b == a;
    } else {
      assert (a + b)[..|a + b| - 1] == a + b[..|b| - 1];
      EventsConcat(a, b[..|b| - 1]);
    }
  }

  /** Parsing is a homomorphism: cutting a body at a line end parses the parts in order. */
  lemma ParseConcat(a: string, b: string)
    ensures Parse(a + "\n" + b) == Parse(a) + Parse(b)
  {
    SplitConcat(a, '\n', b);
    EventsConcat(Split(a, '\n'), Split(b, '\n'));
  }

  lemma ParseLineTrim(line: string, c: char)
    requires IsSpace(c)
    ensures ParseLine(line + [c]) == ParseLine(line) == ParseLine([c] + line)
  {
    TrimIgnoresEnds(line, c);
  }

  lemma ParseIgnoresFirst(body: string, c: char)
    requires IsSpace(c)
    ensures Parse([c] + body) == Parse(body)
  {
    var p := Split(body, '\n');
    assert ([c] + body)[1..] == body;
    if c == '\n' {
      EventsConcat([""], p);
      assert EventsOf([""]) == [];
    } else {
      assert p == [p[0]] + p[1..];
      EventsConcat([p[0]], p[1..]);
      EventsConcat([[c] + p[0]], p[1..]);
      ParseLineTrim(p[0], c);
    }
  }

  lemma ParseIgnoresLast(body: string, c: char)
    requires IsSpace(c)
    ensures Parse(body + [c]) == Parse(body)
  {
    var p := Split(body, '\n');
    SplitAppend(body, '\n', c);
    if c == '\n' {
      EventsConcat(p, [""]);
      assert EventsOf([""]) == [];
    } else {
      ParseLineTrim(p[|p| - 1], c);
    }
  }

  lemma {:induction false} ParseTrimLeft(body: string)
    ensures Parse(TrimLeft(body)) == Parse(body)
  {
    if body != "" && IsSpace(body[0]) {
      ParseTrimLeft(body[1..]);
      assert body == [body[0]] + body[1..];
      ParseIgnoresFirst(body[1..], body[0]);
    }
  }

  lemma {:induction false} ParseTrimRight(body: string)
    ensures Parse(TrimRight(body)) == Parse(body)
  {
    if body != "" && IsSpace(body[|body| - 1]) {
      var init := body[..|body| - 1];
      ParseTrimRight(init);
      assert body == init + [body[|body| - 1]];
      ParseIgnoresLast(init, body[|body| - 1]);
    }
  }

  /** Trimming the whole body first, as the program does, loses no line. */
  lemma ParseTrim(body: string)
    ensures Parse(Trim(body)) == Parse(body)
  {
    ParseTrimLeft(body);
    ParseTrimRight(TrimLeft(body));
  }

  method ReadKeyValues(fields: seq<string>) returns (kv: map<string, string>)
    ensures kv == KeyValues(fields)
  {
    kv := map[];
    for f := 0 to |fields|
      invariant kv == KeyValues(fields[..f])
    {
      assert fields[..f + 1][..f] == fields[..f];
      var i := Index(fields[f], '=');
      if i.None? { continue; }
      kv := kv[Trim(fields[f][..i.value]) := Trim(fields[f][i.value + 1..])];
    }
    assert fields[..|fields|] == fields;
  }

  /** The body of the loop over lines: None where the program skips the line. */
  method ReadLine(raw: string) returns (event: Option<Event>)
    ensures event == ParseLine(raw)
  {
    var line := Trim(raw);
    if line == "" { return None; }
    var fields := Split(line, '\t');
    var pin, text;
    if '=' in fields[0] {
      var kv := ReadKeyValues(fields);
      if "PIN" !in kv || "DateTime" !in kv { return None; }
      pin, text := kv["PIN"], kv["DateTime"];
    } else {
      if |fields| < 2 { return None; }
      pin, text := Trim(fields[0]), Trim(fields[1]);
    }
    if pin == "" { return None; }
    var at := ParseTime(text);
    if at.None? { return None; }
    return Some(Event(pin, at.value));
  }

  method ParseATTLOG(body: string) returns (events: seq<Event>)
    ensures events == Parse(body)
  {
    ParseTrim(body);
    events := [];
    var lines := Split(Trim(body), '\n');
    for n := 0 to |lines|
      invariant events == EventsOf(lines[..n])
    {
      assert lines[..n + 1][..n] == lines[..n];
      var event := ReadLine(lines[n]);
      if event.Some? { events := events + [event.value]; }
    }
    assert lines[..|lines|] == lines;
  }

  // ---------------------------------------------------------------- printing

  /** A line of a body: an event in either format with the fields that follow it, or anything unusable. */
  datatype Line = Positional(event: Event, rest: seq<string>) | KeyValue(event: Event, rest: seq<string>)
    | Junk(text: string)

  predicate Printable(e: Event) {
    e.pin != "" && Trimmed(e.pin) && '\t' !in e.pin && '\n' !in e.pin && ValidTime(e.at)
  }

  predicate PlainField(f: string) {
    f != "" && Trimmed(f) && '\t' !in f && '\n' !in f
  }

  predicate OtherKey(f: string) {
    var i := Index(f, '=');
    i.Some? ==> Trim(f[..i.value]) != "PIN" && Trim(f[..i.value]) != "DateTime"
  }

  predicate WellFormed(l: Line) {
    match l
    case Positional(e, rest) => Printable(e) && '=' !in e.pin && forall i :: 0 <= i < |rest| ==> PlainField(rest[i])
    case KeyValue(e, rest) => Printable(e) && forall i :: 0 <= i < |rest| ==> PlainField(rest[i]) && OtherKey(rest[i])
    case Junk(text) => '\n' !in text && ParseLine(text).None?
  }

  function FieldsOf(l: Line): seq<string>
    requires WellFormed(l) && !l.Junk?
  {
    if l.Positional? then [l.event.pin, PrintTime(l.event.at)] + l.rest
    else ["PIN=" + l.event.pin, "DateTime=" + PrintTime(l.event.at)] + l.rest
  }

  function LineText(l: Line): string
    requires WellFormed(l)
  {
    if l.Junk? then l.text else Join(FieldsOf(l), '\t')
  }

  function EventOf(l: Line): seq<Event> {
    if l.Junk? then [] else [l.event]
  }

  lemma {:induction false} JoinTrimmed(parts: seq<string>)
    requires parts != [] && forall i :: 0 <= i < |parts| ==> PlainField(parts[i])
    ensures PlainField(parts[0]) && PlainField(parts[|parts| - 1])
    ensures var s := Join(parts, '\t');
      s != "" && s[0] == parts[0][0] && s[|s| - 1] == parts[|parts| - 1][|parts[|parts| - 1]| - 1] && '\n' !in s
  {
    if |parts| > 1 {
      JoinTrimmed(parts[1..]);
      var tail := Join(parts[1..], '\t');
      assert Join(parts, '\t')[|Join(parts, '\t')| - 1] == tail[|tail| - 1];
    }
  }

  lemma {:induction false} IndexOfKey(key: string, value: string)
    requires '=' !in key
    ensures Index(key + "=" + value, '=') == Some(|key|)
  {
    var s := key + "=" + value;
    if key != "" {
      assert s[1..] == key[1..] + "=" + value;
      IndexOfKey(key[1..], value);
    }
  }

  lemma {:induction false} OtherKeysKeep(first: seq<string>, rest: seq<string>)
    requires forall i :: 0 <= i < |rest| ==> OtherKey(rest[i])
    requires "PIN" in KeyValues(first) && "DateTime" in KeyValues(first)
    ensures var kv := KeyValues(first + rest);
      && "PIN" in kv && kv["PIN"] == KeyValues(first)["PIN"]
      && "DateTime" in kv && kv["DateTime"] == KeyValues(first)["DateTime"]
  {
    if rest == [] {
      assert first + rest == first;
    } else {
      var all := first + rest;
      assert all[..|all| - 1] == first + rest[..|rest| - 1] && all[|all| - 1] == rest[|rest| - 1];
      OtherKeysKeep(first, rest[..|rest| - 1]);
      assert OtherKey(rest[|rest| - 1]);
    }
  }

  lemma KeyValuesOfPair(pin: string, time: string)
    requires Trimmed(pin) && Trimmed(time)
    ensures KeyValues(["PIN=" + pin, "DateTime=" + time]) == map["PIN" := pin, "DateTime" := time]
  {
    var a, b := "PIN=" + pin, "DateTime=" + time;
    assert a == "PIN" + "=" + pin && b == "DateTime" + "=" + time;
    IndexOfKey("PIN", pin);
    IndexOfKey("DateTime", time);
    assert a[..3] == "PIN" && a[4..] == pin && b[..8] == "DateTime" && b[9..] == time;
    TrimOfTrimmed(pin);
    TrimOfTrimmed(time);
    TrimOfTrimmed("PIN");
    TrimOfTrimmed("DateTime");
    assert [a, b][..1] == [a] && [a][..0] == [];
    assert KeyValues([]) == map[];
    assert KeyValues([a]) == map["PIN" := pin];
  }

  lemma LineFields(l: Line)
    requires WellFormed(l) && !l.Junk?
    ensures Trim(LineText(l)) == LineText(l) != "" && '\n' !in LineText(l)
    ensures Split(LineText(l), '\t') == FieldsOf(l)
  {
    var fields := FieldsOf(l);
    ParsePrintTime(l.event.at);
    forall i | 0 <= i < |fields| ensures PlainField(fields[i]) {
      if i >= 2 { assert fields[i] == l.rest[i - 2]; }
    }
    JoinTrimmed(fields);
    TrimOfTrimmed(LineText(l));
    SplitJoin(fields, '\t');
  }

  lemma ColumnsOfPrinted(l: Line)
    requires WellFormed(l) && !l.Junk?
    ensures Columns(FieldsOf(l)) == Some((l.event.pin, PrintTime(l.event.at)))
  {
    var fields := FieldsOf(l);
    var time := PrintTime(l.event.at);
    ParsePrintTime(l.event.at);
    if l.KeyValue? {
      var first := ["PIN=" + l.event.pin, "DateTime=" + time];
      KeyValuesOfPair(l.event.pin, time);
      OtherKeysKeep(first, l.rest);
      assert fields == first + l.rest && fields[0][3] == '=';
    } else {
      TrimOfTrimmed(l.event.pin);
      TrimOfTrimmed(time);
    }
  }

  /** A printed event reads back as itself, in either format and whatever fields follow. */
  lemma ParsePrintedLine(l: Line)
    requires WellFormed(l) && !l.Junk?
    ensures ParseLine(LineText(l)) == Some(l.event)
  {
    LineFields(l);
    ColumnsOfPrinted(l);
    ParsePrintTime(l.event.at);
  }

  function Texts(lines: seq<Line>): seq<string>
    requires forall i {:trigger lines[i]} :: 0 <= i < |lines| ==> WellFormed(lines[i])
  {
    seq(|lines|, i requires 0 <= i < |lines| => LineText(lines[i]))
  }

  function Events(lines: seq<Line>): seq<Event> {
    if lines == [] then [] else Events(lines[..|lines| - 1]) + EventOf(lines[|lines| - 1])
  }

  lemma {:induction false} EventsOfTexts(lines: seq<Line>)
    requires forall i {:trigger lines[i]} :: 0 <= i < |lines| ==> WellFormed(lines[i])
    ensures EventsOf(Texts(lines)) == Events(lines)
  {
    if lines != [] {
      var last := lines[|lines| - 1];
      EventsOfTexts(lines[..|lines| - 1]);
      assert Texts(lines)[..|lines| - 1] == Texts(lines[..|lines| - 1]);
      if !last.Junk? { ParsePrintedLine(last); }
    }
  }

  /**
   Printing then parsing gives the events back, in order: any mix of both formats, with blank and
   malformed lines between them.
   */
  lemma ParsePrinted(lines: seq<Line>)
    requires lines != [] && forall i {:trigger lines[i]} :: 0 <= i < |lines| ==> WellFormed(lines[i])
    ensures Parse(Join(Texts(lines), '\n')) == Events(lines)
  {
    var texts := Texts(lines);
    forall i | 0 <= i < |texts| ensures '\n' !in texts[i] {
      assert WellFormed(lines[i]);
      if !lines[i].Junk? { LineFields(lines[i]); }
    }
    SplitJoin(texts, '\n');
    EventsOfTexts(lines);
  }

  // ---------------------------------------------------------------- the counts logged for a batch

  function CountNonBlank(lines: seq<string>): nat {
    if lines == [] then 0
    else CountNonBlank(lines[..|lines| - 1]) + if Trim(lines[|lines| - 1]) != "" then 1 else 0
  }

  function CountMalformed(lines: seq<string>): nat {
    if lines == [] then 0
    else
      var l := lines[|lines| - 1];
      CountMalformed(lines[..|lines| - 1]) + if Trim(l) != "" && ParseLine(l).None? then 1 else 0
  }

  lemma {:induction false} CountsAdd(lines: seq<string>)
    ensures |EventsOf(lines)| + CountMalformed(lines) == CountNonBlank(lines)
  {
    if lines != [] { CountsAdd(lines[..|lines| - 1]); }
  }

  /** The counts of a batch: every non-blank line is either parsed or malformed. */
  method BatchCounts(body: string, events: seq<Event>) returns (lines: nat, malformed: int)
    requires events == Parse(body)
    ensures lines == CountNonBlank(Split(body, '\n'))
    ensures malformed == CountMalformed(Split(body, '\n'))
  {
    lines := 0;
    var all := Split(body, '\n');
    for i := 0 to |all|
      invariant lines == CountNonBlank(all[..i])
    {
      assert all[..i + 1][..i] == all[..i];
      if Trim(all[i]) != "" { lines := lines + 1; }
    }
    assert all[..|all|] == all;
    CountsAdd(all);
    malformed := lines - |events|;
  }
}
