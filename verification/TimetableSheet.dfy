/**
 One worksheet of a timetable workbook, as rows of cell texts: finding the header row, mapping its
 columns and reading the rows below it (readScheduleSheet, matchScheduleHeader and
 validScheduleRow in internal/handlers/schedule_excel.go).
 */
module TimetableSheet {
  import opened Wrappers
  import opened Text
  import opened Timetable
  import opened FloatText
  import Decimal
  import Phone

  type Row = seq<string>
  type Sheet = seq<Row>

  const HEADER_SEARCH_ROWS := 10
  const HEADER_MIN_MATCHES := 3
  const MAX_IMPORT_ROWS := 2000

  // The fields of a row, in export order.
  const FIELDS := 6
  const GRADE := 0
  const SECTION := 1
  const DAY := 2
  const PERIOD := 3
  const SUBJECT := 4
  const TEACHER := 5

  const HEADERS: Row := ["المرحلة", "الشعبة", "اليوم", "الحصة", "المادة", "المعلم"]

  /** The header names accepted for each field, in field order, folded by Normalise. */
  const ALIASES: seq<Row> := [
    ["المرحله", "الصف", "grade"], ["الشعبه", "section"], ["اليوم", "day"],
    ["الحصه", "period"], ["الماده", "subject"], ["المعلم", "المدرس", "teacher"]]

  /** Drops diacritics and tatweel, folds letter forms, lower-cases; only letters of ALIASES matter. */
  function HeaderFold(c: char): string {
    var n := c as int;
    if 0x64B <= n <= 0x652 || n == 0x670 || n == 0x640 then ""
    else if 'A' <= c <= 'Z' then [(n + 32) as char]
    else if n == 0x130 then "i"
    else if n == 0x623 || n == 0x625 || n == 0x622 || n == 0x671 then "\U{627}"
    else if n == 0x649 || n == 0x6CC then "\U{64A}"
    else if n == 0x6A9 then "\U{643}"
    else if n == 0x629 then "\U{647}"
    else [c]
  }

  function Folded(s: string): string {
    if s == "" then "" else Folded(s[..|s| - 1]) + HeaderFold(s[|s| - 1])
  }

  /** strings.Join(strings.Fields(s), " "): the words, one space apart. */
  function Collapse(s: string): string {
    if s == "" then ""
    else
      var init, last := s[..|s| - 1], s[|s| - 1];
      var before := Collapse(init);
      if IsSpace(last) then before
      else if init != "" && IsSpace(init[|init| - 1]) && before != "" then before + [' ', last]
      else before + [last]
  }

  /** normalizeArabic */
  function Normalise(s: string): string {
    Collapse(Folded(s))
  }

  /** The field from k on that has the name. */
  function NamedFrom(name: string, k: nat): (field: Option<nat>)
    requires k <= FIELDS
    ensures field.Some? ==> k <= field.value < FIELDS && name in ALIASES[field.value]
    decreases FIELDS - k
  {
    if k == FIELDS then None else if name in ALIASES[k] then Some(k) else NamedFrom(name, k + 1)
  }

  function Field(cell: string): (k: Option<nat>)
    ensures k.Some? ==> k.value < FIELDS
  {
    NamedFrom(Normalise(cell), 0)
  }

  // ---------------------------------------------------------------- the header row

  /** The first column that names field k. */
  function First(cells: Row, k: nat): Option<nat> {
    if cells == [] then None
    else
      var before := First(cells[..|cells| - 1], k);
      if before.Some? then before else if Field(cells[|cells| - 1]) == Some(k) then Some(|cells| - 1) else None
  }

  /** How many columns name field k. */
  function Times(cells: Row, k: nat): nat {
    if cells == [] then 0 else Times(cells[..|cells| - 1], k) + if Field(cells[|cells| - 1]) == Some(k) then 1 else 0
  }

  function Matched(cols: seq<Option<nat>>): nat {
    if cols == [] then 0 else Matched(cols[..|cols| - 1]) + if cols[|cols| - 1].Some? then 1 else 0
  }

  /** Broken: the header row, with a field missing or named twice. */
  datatype Header = NotHeader | Broken | Columns(cols: seq<nat>)

  function FirstColumns(cells: Row): (cols: seq<Option<nat>>)
    ensures |cols| == FIELDS
  {
    seq(FIELDS, k requires 0 <= k < FIELDS => First(cells, k))
  }

  function HeaderOf(cells: Row): Header {
    var cols := FirstColumns(cells);
    if Matched(cols) < HEADER_MIN_MATCHES then NotHeader
    else if forall k :: 0 <= k < FIELDS ==> cols[k].Some? && Times(cells, k) < 2 then
      Columns(seq(FIELDS, k requires 0 <= k < FIELDS => cols[k].value))
    else Broken
  }

  lemma {:induction false} FirstNames(cells: Row, k: nat)
    ensures First(cells, k).Some? <==> Times(cells, k) > 0
    ensures First(cells, k).Some? ==> First(cells, k).value < |cells| && Field(cells[First(cells, k).value]) == Some(k)
  {
    if cells != [] { FirstNames(cells[..|cells| - 1], k); }
  }

  lemma {:induction false} TimesNone(cells: Row, k: nat)
    requires forall c :: 0 <= c < |cells| ==> Field(cells[c]) != Some(k)
    ensures Times(cells, k) == 0
  {
    if cells != [] { TimesNone(cells[..|cells| - 1], k); }
  }

  lemma {:induction false} TimesTwice(cells: Row, k: nat, c: nat, d: nat)
    requires c < d < |cells| && Field(cells[c]) == Field(cells[d]) == Some(k)
    ensures Times(cells, k) >= 2
  {
    if d < |cells| - 1 { TimesTwice(cells[..|cells| - 1], k, c, d); } else { TimesNamed(cells[..d], k, c); }
  }

  lemma {:induction false} TimesNamed(cells: Row, k: nat, c: nat)
    requires c < |cells| && Field(cells[c]) == Some(k)
    ensures Times(cells, k) >= 1
  {
    if c < |cells| - 1 { TimesNamed(cells[..|cells| - 1], k, c); }
  }

  lemma {:induction false} TimesOnce(cells: Row, k: nat, c: nat)
    requires forall d :: 0 <= d < |cells| && Field(cells[d]) == Some(k) ==> d == c
    ensures Times(cells, k) <= 1
  {
    if cells != [] {
      var init := cells[..|cells| - 1];
      assert forall d :: 0 <= d < |init| ==> init[d] == cells[d];
      if c < |init| { TimesOnce(init, k, c); } else { TimesNone(init, k); }
    }
  }

  /** Column cols[k], and no other, names field k. */
  ghost predicate Names(cells: Row, cols: seq<nat>, k: nat) {
    k < |cols| && cols[k] < |cells| && Field(cells[cols[k]]) == Some(k)
    && forall c :: 0 <= c < |cells| && Field(cells[c]) == Some(k) ==> c == cols[k]
  }

  /** A row gives the columns exactly when each of the six fields is named by exactly one cell. */
  lemma HeaderExact(cells: Row, cols: seq<nat>)
    ensures HeaderOf(cells) == Columns(cols) <==> |cols| == FIELDS && forall k :: 0 <= k < FIELDS ==>
      Names(cells, cols, k)
  {
    if HeaderOf(cells) == Columns(cols) {
      forall k | 0 <= k < FIELDS ensures Names(cells, cols, k) { ColumnNames(cells, cols, k); }
    }
    if |cols| == FIELDS && forall k :: 0 <= k < FIELDS ==> Names(cells, cols, k) {
      var found := FirstColumns(cells);
      forall k | 0 <= k < FIELDS ensures found[k] == Some(cols[k]) && Times(cells, k) == 1 {
        assert Names(cells, cols, k) && found[k] == First(cells, k);
        TimesNamed(cells, k, cols[k]);
        TimesOnce(cells, k, cols[k]);
        FirstNames(cells, k);
      }
      AllMatched(found);
      assert HeaderOf(cells).Columns?;
      assert HeaderOf(cells).cols == cols;
    }
  }

  lemma ColumnNames(cells: Row, cols: seq<nat>, k: nat)
    requires HeaderOf(cells) == Columns(cols) && k < FIELDS
    ensures Names(cells, cols, k)
  {
    assert FirstColumns(cells)[k] == First(cells, k);
    FirstNames(cells, k);
    forall c | 0 <= c < |cells| && Field(cells[c]) == Some(k) ensures c == cols[k] {
      if c < cols[k] { TimesTwice(cells, k, c, cols[k]); }
      if c > cols[k] { TimesTwice(cells, k, cols[k], c); }
    }
  }

  lemma {:induction false} AllMatched(cols: seq<Option<nat>>)
    requires forall k :: 0 <= k < |cols| ==> cols[k].Some?
    ensures Matched(cols) == |cols|
  {
    if cols != [] { AllMatched(cols[..|cols| - 1]); }
  }

  lemma {:induction false} OneMatched(cols: seq<Option<nat>>, only: nat)
    requires forall k :: 0 <= k < |cols| && cols[k].Some? ==> k == only
    ensures Matched(cols) <= if only < |cols| then 1 else 0
  {
    if cols != [] { OneMatched(cols[..|cols| - 1], only); }
  }

  lemma EmptyCell()
    ensures Field("") == None
  {
    assert Normalise("") == "";
  }

  /** A row with text in its first cell only, whatever it is, is never taken for the header. */
  lemma TitleIsNotHeader(cells: Row)
    requires forall c :: 1 <= c < |cells| ==> cells[c] == ""
    ensures HeaderOf(cells) == NotHeader
  {
    EmptyCell();
    var found := FirstColumns(cells);
    var only := if cells != [] && Field(cells[0]).Some? then Field(cells[0]).value else 0;
    forall k | 0 <= k < FIELDS && found[k].Some? ensures k == only {
      assert found[k] == First(cells, k);
      FirstNames(cells, k);
    }
    OneMatched(found, only);
  }

  lemma {:induction false} MatchedMore(cols: seq<Option<nat>>, k: nat, c: nat)
    requires k < |cols| && cols[k].None?
    ensures Matched(cols[k := Some(c)]) == Matched(cols) + 1
  {
    var init := cols[..|cols| - 1];
    if k < |cols| - 1 {
      MatchedMore(init, k, c);
      assert cols[k := Some(c)][..|cols| - 1] == init[k := Some(c)];
    } else {
      assert cols[k := Some(c)][..|cols| - 1] == init;
    }
  }

  /** What the loop of matchScheduleHeader knows after the cells read so far. */
  ghost predicate Scanned(cells: Row, cols: seq<Option<nat>>, repeated: set<nat>, matches: int) {
    && cols == FirstColumns(cells) && matches == Matched(cols)
    && forall k: nat :: k in repeated <==> k < FIELDS && Times(cells, k) >= 2
  }

  lemma CellMore(cells: Row, cell: string, k: nat)
    ensures Times(cells + [cell], k) == Times(cells, k) + if Field(cell) == Some(k) then 1 else 0
    ensures First(cells + [cell], k) == if First(cells, k).None?
      && Field(cell) == Some(k) then Some(|cells|) else First(cells, k)
    ensures First(cells, k).Some? <==> Times(cells, k) > 0
  {
    assert (cells + [cell])[..|cells|] == cells;
    FirstNames(cells, k);
  }

  lemma FirstColumnsAt(cells: Row, k: nat)
    requires k < FIELDS
    ensures FirstColumns(cells)[k] == First(cells, k)
  {
  }

  lemma ScannedMore(cells: Row, cell: string, cols: seq<Option<nat>>, repeated: set<nat>, matches: int)
    requires Scanned(cells, cols, repeated, matches)
    ensures Field(cell).None? ==> Scanned(cells + [cell], cols, repeated, matches)
    ensures Field(cell).Some? ==>
      var k := Field(cell).value;
      if cols[k].Some? then Scanned(cells + [cell], cols, repeated + {k}, matches)
      else Scanned(cells + [cell], cols[k := Some(|cells|)], repeated, matches + 1)
  {
    var more, after := cells + [cell], FirstColumns(cells + [cell]);
    forall k: nat ensures Times(more, k) == Times(cells, k) + (if Field(cell) == Some(k) then 1 else 0) {
      CellMore(cells, cell, k);
    }
    forall k: nat | k < FIELDS
      ensures after[k] == (if cols[k].None? && Field(cell) == Some(k) then Some(|cells|) else cols[k])
        && (cols[k].Some? <==> Times(cells, k) > 0)
    {
      FirstColumnsAt(cells, k);
      FirstColumnsAt(more, k);
      CellMore(cells, cell, k);
    }
    if Field(cell).None? {
      assert after == cols;
    } else {
      var k := Field(cell).value;
      if cols[k].None? {
        MatchedMore(cols, k, |cells|);
        assert after == cols[k := Some(|cells|)];
      } else {
        assert after == cols;
      }
    }
  }

  /** matchScheduleHeader */
  method MatchHeader(cells: Row) returns (header: Header)
    ensures header == HeaderOf(cells)
  {
    var cols: seq<Option<nat>> := [None, None, None, None, None, None];
    var repeated: set<nat> := {};
    var matches := 0;
    OneMatched(cols, FIELDS);
    assert cols == FirstColumns([]) && cells[..0] == [];
    for c := 0 to |cells|
      invariant Scanned(cells[..c], cols, repeated, matches)
    {
      assert cells[..c + 1] == cells[..c] + [cells[c]];
      ScannedMore(cells[..c], cells[c], cols, repeated, matches);
      var field := Field(cells[c]);
      if field.Some? {
        var k := field.value;
        if cols[k].Some? {
          repeated := repeated + {k};
        } else {
          cols := cols[k := Some(c)];
          matches := matches + 1;
        }
      }
    }
    assert cells[..|cells|] == cells;
    if matches < HEADER_MIN_MATCHES { return NotHeader; }
    var complete := repeated == {};
    for k := 0 to FIELDS
      invariant complete <==> repeated == {} && forall j :: 0 <= j < k ==> cols[j].Some?
    {
      if k !in repeated && cols[k].None? { complete := false; }
    }
    assert repeated != {} ==> exists k: nat :: k in repeated;
    assert forall k: nat :: k < FIELDS ==> (Times(cells, k) >= 2 <==> k in repeated);
    if !complete { return Broken; }
    return Columns(seq(FIELDS, k requires 0 <= k < FIELDS => cols[k].value));
  }

  // ---------------------------------------------------------------- a row of data

  /** The six texts of a row. */
  datatype Cells = Cells(grade: string, section: string, day: string, period: string, subject: string, teacher: string)

  /** The text of a column: trimmed, "" when the row is shorter. */
  function CellText(row: Row, column: nat): string {
    if column < |row| then Trim(row[column]) else ""
  }

  function Values(row: Row, cols: seq<nat>): Cells
    requires |cols| == FIELDS
  {
    Cells(CellText(row, cols[GRADE]), CellText(row, cols[SECTION]), CellText(row, cols[DAY]),
          CellText(row, cols[PERIOD]), CellText(row, cols[SUBJECT]), CellText(row, cols[TEACHER]))
  }

  /** A row with neither subject nor teacher is blank and skipped. */
  predicate IsData(values: Cells) {
    values.subject != "" || values.teacher != ""
  }

  function FoldDigits(s: string): string {
    seq(|s|, i requires 0 <= i < |s| => Phone.FoldDigit(s[i]))
  }

  /** A whole number from 1 to 6, in any spelling ParseFloat takes and in either kind of Eastern digits. */
  function PeriodNumber(text: string): (n: Option<nat>)
    ensures n.Some? ==> 1 <= n.value <= MAX_PERIOD_NUMBER
  {
    ReadWhole(FoldDigits(text))
  }

  lemma IntTextTrimmed(n: int)
    ensures Trimmed(IntText(n)) && FoldDigits(IntText(n)) == IntText(n)
  {
    var s := IntText(n);
    Decimal.TextValue(if n < 0 then -n else n);
    assert FoldDigits(s) == s;
  }

  /** A printed number reads back as itself when it is a period number, and is refused otherwise. */
  lemma PeriodNumberOfText(n: int)
    ensures PeriodNumber(IntText(n)) == if 1 <= n <= MAX_PERIOD_NUMBER then Some(n) else None
  {
    IntTextTrimmed(n);
    ReadWholeOfText(n);
  }

  datatype Entry = Entry(class_: ClassKey, period: Period)

  /** What a valid row means: all six fields, already trimmed. */
  function Import(values: Cells): Option<Entry>
  {
    var c, day, number := ClassKey(values.grade, values.section), DayIndex(values.day), PeriodNumber(values.period);
    var subject, teacher := values.subject, values.teacher;
    if !ClassOk(c) || day.None? || number.None? || subject == "" || TooLong(subject, 100) || TooLong(teacher, 100)
    then None
    else
      var named := if teacher == "" then None else Some(teacher);
      Some(Entry(c, Period(SCHOOL_WEEK[day.value], number.value, subject, named)))
  }

  /** validScheduleRow: every problem of the row is counted, not only the first. */
  method ValidScheduleRow(values: Cells) returns (e: Entry, problems: nat)
    ensures problems == 0 <==> Import(values).Some?
    ensures problems == 0 ==> e == Import(values).value
  {
    problems := 0;
    if values.grade == "" || TooLong(values.grade, 50) { problems := problems + 1; }
    if values.section == "" || TooLong(values.section, 50) { problems := problems + 1; }
    var day := DayIndex(values.day);
    if day.None? { problems := problems + 1; }
    var number := PeriodNumber(values.period);
    if number.None? { problems := problems + 1; }
    var subject, teacher := values.subject, values.teacher;
    if subject == "" || TooLong(subject, 100) { problems := problems + 1; }
    if TooLong(teacher, 100) { problems := problems + 1; }
    e := Entry(ClassKey(values.grade, values.section), Period(
      if day.Some? then SCHOOL_WEEK[day.value] else "", if number.Some? then number.value else 0,
      subject, if teacher == "" then None else Some(teacher)));
  }

  // ---------------------------------------------------------------- a sheet

  /** The first of the first ten rows, from row i on, that is the header row. */
  function HeaderRow(sheet: Sheet, i: nat): (h: Option<nat>)
    ensures h.Some? ==> i <= h.value < |sheet| && HeaderOf(sheet[h.value]) != NotHeader
    decreases |sheet| - i
  {
    if i >= |sheet| || i >= HEADER_SEARCH_ROWS then None
    else if HeaderOf(sheet[i]) != NotHeader then Some(i)
    else HeaderRow(sheet, i + 1)
  }

  function SheetHeader(sheet: Sheet): Header {
    var h := HeaderRow(sheet, 0);
    if h.None? then NotHeader else HeaderOf(sheet[h.value])
  }

  /** The values of the rows that are not blank. */
  function DataOf(rows: seq<Row>, cols: seq<nat>): seq<Cells>
    requires |cols| == FIELDS
  {
    if rows == [] then []
    else
      var values := Values(rows[|rows| - 1], cols);
      DataOf(rows[..|rows| - 1], cols) + if IsData(values) then [values] else []
  }

  function SheetData(sheet: Sheet): seq<Cells>
  {
    var header := SheetHeader(sheet);
    if header.Columns? then DataOf(sheet[HeaderRow(sheet, 0).value + 1..], header.cols) else []
  }

  /** What each data row means, None for an invalid one. */
  function Imports(data: seq<Cells>): (rows: seq<Option<Entry>>)
    ensures |rows| == |data|
  {
    seq(|data|, i requires 0 <= i < |data| => Import(data[i]))
  }

  function SheetRows(sheet: Sheet): seq<Option<Entry>> {
    Imports(SheetData(sheet))
  }

  /** Every row is valid. */
  predicate AllImport(rows: seq<Option<Entry>>) {
    rows == [] || (AllImport(rows[..|rows| - 1]) && rows[|rows| - 1].Some?)
  }

  lemma {:induction false} AllImportMeans(rows: seq<Option<Entry>>)
    ensures AllImport(rows) <==> forall i :: 0 <= i < |rows| ==> rows[i].Some?
  {
    if rows != [] { AllImportMeans(rows[..|rows| - 1]); }
  }

  /** The entries of the valid rows, in order. */
  function Entries(rows: seq<Option<Entry>>): seq<Entry> {
    if rows == [] then []
    else
      var last := rows[|rows| - 1];
      Entries(rows[..|rows| - 1]) + if last.Some? then [last.value] else []
  }

  lemma {:induction false} DataOfPrefix(rows: seq<Row>, n: nat, cols: seq<nat>)
    requires |cols| == FIELDS && n <= |rows|
    ensures |DataOf(rows[..n], cols)| <= |DataOf(rows, cols)|
  {
    if n < |rows| {
      assert rows[..|rows| - 1][..n] == rows[..n];
      DataOfPrefix(rows[..|rows| - 1], n, cols);
    } else {
      assert rows[..n] == rows;
    }
  }

  /** Rows from `from` up to the end of a growing prefix: one more row, at most one more value row. */
  lemma DataOfStep(sheet: Sheet, from: nat, i: nat, cols: seq<nat>)
    requires |cols| == FIELDS && from <= i < |sheet|
    ensures DataOf(sheet[from..i + 1], cols) ==
      DataOf(sheet[from..i], cols) + if IsData(Values(sheet[i], cols)) then [Values(sheet[i], cols)] else []
    ensures |DataOf(sheet[from..i + 1], cols)| <= |DataOf(sheet[from..], cols)|
  {
    assert sheet[from..i + 1][..i - from] == sheet[from..i];
    assert sheet[from..][..i + 1 - from] == sheet[from..i + 1];
    DataOfPrefix(sheet[from..], i + 1 - from, cols);
  }

  /** The search for the header row: stops at the first that qualifies, or after ten rows. */
  method FindHeader(sheet: Sheet) returns (header: Header, from: nat)
    ensures header == SheetHeader(sheet) && from <= |sheet|
    ensures SheetData(sheet) == if header.Columns? then DataOf(sheet[from..], header.cols) else []
  {
    hide HeaderOf, DataOf;
    header, from := NotHeader, 0;
    while header == NotHeader && from < |sheet| && from < HEADER_SEARCH_ROWS
      invariant from <= |sheet|
      invariant header == NotHeader ==> HeaderRow(sheet, 0) == HeaderRow(sheet, from)
      invariant header != NotHeader ==>
        from > 0 && HeaderRow(sheet, 0) == Some(from - 1) && header == HeaderOf(sheet[from - 1])
    {
      header := MatchHeader(sheet[from]);
      from := from + 1;
    }
  }

  /** Collecting the rows below the header, up to the limit shared by all sheets. */
  method CollectRows(sheet: Sheet, before: nat) returns (raw: seq<Cells>, header: Header, dataRows: nat)
    requires before <= MAX_IMPORT_ROWS
    ensures dataRows > MAX_IMPORT_ROWS <==> before + |SheetData(sheet)| > MAX_IMPORT_ROWS
    ensures dataRows <= MAX_IMPORT_ROWS ==>
      raw == SheetData(sheet) && header == SheetHeader(sheet) && dataRows == before + |raw|
  {
    var from;
    header, from := FindHeader(sheet);
    raw, dataRows := [], before;
    if !header.Columns? { return; }
    raw, dataRows := CollectFrom(sheet, from, header.cols, before);
  }

  method CollectFrom(sheet: Sheet, from: nat, cols: seq<nat>, before: nat) returns (raw: seq<Cells>, dataRows: nat)
    requires |cols| == FIELDS && from <= |sheet| && before <= MAX_IMPORT_ROWS
    ensures dataRows > MAX_IMPORT_ROWS <==> before + |DataOf(sheet[from..], cols)| > MAX_IMPORT_ROWS
    ensures dataRows <= MAX_IMPORT_ROWS ==> raw == DataOf(sheet[from..], cols) && dataRows == before + |raw|
  {
    hide Values;
    raw, dataRows := [], before;
    for i := from to |sheet|
      invariant raw == DataOf(sheet[from..i], cols)
      invariant dataRows == before + |raw| <= MAX_IMPORT_ROWS
    {
      DataOfStep(sheet, from, i, cols);
      var values := Values(sheet[i], cols);
      if IsData(values) {
        dataRows := dataRows + 1;
        raw := raw + [values];
        if dataRows > MAX_IMPORT_ROWS { return; }
      }
    }
    assert sheet[from..|sheet|] == sheet[from..];
  }

  /** Validating the collected rows. */
  method ValidateRows(raw: seq<Cells>) returns (valid: seq<Entry>, problems: nat)
    ensures valid == Entries(Imports(raw)) && (problems == 0 <==> AllImport(Imports(raw)))
  {
    valid, problems := [], 0;
    ghost var rows := Imports(raw);
    for i := 0 to |raw|
      invariant valid == Entries(rows[..i]) && (problems == 0 <==> AllImport(rows[..i]))
    {
      assert rows[..i + 1][..i] == rows[..i];
      var e, bad := ValidScheduleRow(raw[i]);
      if bad == 0 { valid := valid + [e]; }
      problems := problems + bad;
    }
    assert rows[..|rows|] == rows;
  }

  /** readScheduleSheet: the valid entries of one sheet, and how many problems its header and rows have. */
  method ReadSheet(sheet: Sheet, before: nat)
    returns (valid: seq<Entry>, headerFound: bool, problems: nat, dataRows: nat)
    requires before <= MAX_IMPORT_ROWS
    ensures dataRows > MAX_IMPORT_ROWS <==> before + |SheetRows(sheet)| > MAX_IMPORT_ROWS
    ensures dataRows <= MAX_IMPORT_ROWS ==>
      && dataRows == before + |SheetRows(sheet)| && valid == Entries(SheetRows(sheet))
      && (headerFound <==> SheetHeader(sheet) != NotHeader)
      && (problems == 0 <==> SheetHeader(sheet) != Broken && AllImport(SheetRows(sheet)))
  {
    var raw, header;
    raw, header, dataRows := CollectRows(sheet, before);
    valid, headerFound, problems := [], header != NotHeader, 0;
    if dataRows > MAX_IMPORT_ROWS { return; }
    valid, problems := ValidateRows(raw);
    if header == Broken { problems := problems + 1; }
  }
}
