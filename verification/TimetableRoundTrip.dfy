/**
 Exporting a class's timetable, and what importing the file gives back
 (AdminScheduleExportHandler in internal/handlers/schedule_excel.go); and the agreement of the
 import with the API that stores a timetable directly.
 */
module TimetableRoundTrip {
  import opened Wrappers
  import opened Text
  import opened Timetable
  import opened TimetableSheet
  import opened TimetableImport
  import opened FloatText

  const GRID := 30
  const ALL_COLUMNS: seq<nat> := [0, 1, 2, 3, 4, 5]

  function CellAt(row: Row, i: nat): string {
    if i < |row| then row[i] else ""
  }

  /** The same texts: a file may leave blank cells at the end of a row out. */
  ghost predicate SameCells(row: Row, other: Row) {
    forall i: nat :: CellAt(row, i) == CellAt(other, i)
  }

  function RowOf(c: ClassKey, p: Period): Row {
    [c.grade, c.section, p.day, IntText(p.number), p.subject, if p.teacher.Some? then p.teacher.value else ""]
  }

  // ---------------------------------------------------------------- the header row of a report

  lemma {:induction false} FoldedAs(s: string, t: string)
    requires |s| == |t| && forall i :: 0 <= i < |s| ==> HeaderFold(s[i]) == [t[i]]
    ensures Folded(s) == t
  {
    if s != "" {
      FoldedAs(s[..|s| - 1], t[..|t| - 1]);
      assert t == t[..|t| - 1] + [t[|t| - 1]];
    }
  }

  lemma {:induction false} CollapseWord(s: string)
    requires forall i :: 0 <= i < |s| ==> !IsSpace(s[i])
    ensures Collapse(s) == s
  {
    if s != "" {
      CollapseWord(s[..|s| - 1]);
      assert s == s[..|s| - 1] + [s[|s| - 1]];
    }
  }

  const FOLDED_HEADERS: Row := ["المرحله", "الشعبه", "اليوم", "الحصه", "الماده", "المعلم"]

  predicate PlainLetter(c: char) {
    0x627 <= c as int <= 0x648 && c as int != 0x629 && c as int != 0x640
  }

  lemma PlainLetterStays(c: char)
    requires PlainLetter(c) || c == '\U{64A}'
    ensures HeaderFold(c) == [c] && !IsSpace(c)
  {
  }

  lemma HeaderLetters(k: nat, i: nat)
    requires k < FIELDS && i < |HEADERS[k]|
    ensures |HEADERS[k]| == |FOLDED_HEADERS[k]|
    ensures if HEADERS[k][i] == '\U{629}' then FOLDED_HEADERS[k][i] == '\U{647}'
      else FOLDED_HEADERS[k][i] == HEADERS[k][i] && (PlainLetter(HEADERS[k][i]) || HEADERS[k][i] == '\U{64A}')
  {
  }

  lemma HeaderNormal(k: nat)
    requires k < FIELDS
    ensures Normalise(HEADERS[k]) == FOLDED_HEADERS[k]
  {
    var s, t := HEADERS[k], FOLDED_HEADERS[k];
    assert |s| == |t|;
    forall i | 0 <= i < |s| ensures HeaderFold(s[i]) == [t[i]] && !IsSpace(t[i]) {
      HeaderLetters(k, i);
      if s[i] != '\U{629}' { PlainLetterStays(s[i]); }
    }
    FoldedAs(s, t);
    CollapseWord(t);
  }

  /** No header name is an alias of an earlier field. */
  lemma NotEarlier(k: nat, j: nat, i: nat)
    requires j < k < FIELDS && i < |ALIASES[j]|
    ensures FOLDED_HEADERS[k] != ALIASES[j][i]
  {
    var s, t := FOLDED_HEADERS[k], ALIASES[j][i];
    if |s| == |t| {
      assert s[0] != t[0] || s[2] != t[2] || s[3] != t[3];
    }
  }

  lemma HeaderNamed(k: nat, j: nat)
    requires j <= k < FIELDS
    ensures NamedFrom(FOLDED_HEADERS[k], j) == Some(k)
    decreases k - j
  {
    if j < k {
      HeaderNamed(k, j + 1);
      forall i | 0 <= i < |ALIASES[j]| ensures FOLDED_HEADERS[k] != ALIASES[j][i] { NotEarlier(k, j, i); }
    } else {
      assert ALIASES[k][0] == FOLDED_HEADERS[k];
    }
  }

  lemma HeaderField(k: nat)
    requires k < FIELDS
    ensures Field(HEADERS[k]) == Some(k)
  {
    HeaderNormal(k);
    HeaderNamed(k, 0);
  }

  lemma HeadersRecognised(row: Row)
    requires SameCells(row, HEADERS)
    ensures HeaderOf(row) == Columns(ALL_COLUMNS)
  {
    EmptyCell();
    forall k | 0 <= k < FIELDS ensures Names(row, ALL_COLUMNS, k) {
      HeaderField(k);
      assert CellAt(row, k) == CellAt(HEADERS, k);
      assert HEADERS[k] != "";
      forall c | 0 <= c < |row| && Field(row[c]) == Some(k) ensures c == k {
        assert CellAt(row, c) == CellAt(HEADERS, c);
        if c < FIELDS { HeaderField(c); }
      }
    }
    HeaderExact(row, ALL_COLUMNS);
  }

  // ---------------------------------------------------------------- rows of one class

  /** What the import reads of a written row: every text trimmed, the number as printed. */
  lemma RowValues(row: Row, c: ClassKey, p: Period)
    requires SameCells(row, RowOf(c, p))
    ensures Values(row, ALL_COLUMNS)
      == Cells(Trim(c.grade), Trim(c.section), Trim(p.day), IntText(p.number), Trim(p.subject), TeacherText(p))
  {
    forall i | 0 <= i < FIELDS ensures CellText(row, i) == Trim(RowOf(c, p)[i]) { CellValue(row, RowOf(c, p), i); }
    IntTextTrimmed(p.number);
    TrimOfTrimmed(IntText(p.number));
    TrimEmpty();
  }

  lemma TrimEmpty()
    ensures Trim("") == ""
  {
  }

  lemma CellValue(row: Row, cells: Row, i: nat)
    requires SameCells(row, cells) && i < |cells|
    ensures CellText(row, i) == Trim(cells[i])
  {
    TrimEmpty();
    assert CellAt(row, i) == CellAt(cells, i);
  }

  /** Reading back a written row is the normalisation of PUT. */
  lemma ImportRow(row: Row, c: ClassKey, p: Period)
    requires SameCells(row, RowOf(c, p))
    ensures var values, trimmed := Values(row, ALL_COLUMNS), ClassKey(Trim(c.grade), Trim(c.section));
      && (IsData(values) <==> Trim(p.subject) != "" || TeacherText(p) != "")
      && Import(values) == if ClassOk(trimmed) && Normal(p).Some? then Some(Entry(trimmed, Normal(p).value)) else None
  {
    RowValues(row, c, p);
    PeriodNumberOfText(p.number);
    TrimIsTrimmed(p.day);
    TrimOfTrimmed(Trim(p.day));
  }

  /** The rows are, in order, the entries of these periods of one class. */
  ghost predicate Carries(rows: seq<Option<Entry>>, c: ClassKey, periods: seq<Period>) {
    |rows| == |periods| && forall i :: 0 <= i < |rows| ==> rows[i] == Some(Entry(c, periods[i]))
  }

  /** The entries are these periods of the class, in order. */
  ghost predicate EntriesFor(entries: seq<Entry>, c: ClassKey, periods: seq<Period>) {
    |entries| == |periods| && forall i :: 0 <= i < |entries| ==> entries[i] == Entry(c, periods[i])
  }

  lemma EntriesForStep(all: seq<Entry>, before: seq<Entry>, c: ClassKey, periods: seq<Period>, n: nat)
    requires n + 1 == |periods| && all == before + [Entry(c, periods[n])] && EntriesFor(before, c, periods[..n])
    ensures EntriesFor(all, c, periods)
  {
  }

  lemma {:induction false} CarriesEntries(rows: seq<Option<Entry>>, c: ClassKey, periods: seq<Period>)
    requires Carries(rows, c, periods)
    ensures EntriesFor(Entries(rows), c, periods)
  {
    if rows != [] {
      var n := |rows| - 1;
      CarriesEntries(rows[..n], c, periods[..n]);
      EntriesForStep(Entries(rows), Entries(rows[..n]), c, periods, n);
    }
  }

  lemma {:induction false} GroupedOne(entries: seq<Entry>, c: ClassKey, periods: seq<Period>)
    requires EntriesFor(entries, c, periods)
    ensures Grouped(entries) == if periods == [] then map[] else map[c := periods]
  {
    if periods != [] {
      var n := |periods| - 1;
      assert entries[n] == Entry(c, periods[n]);
      GroupedOne(entries[..n], c, periods[..n]);
      assert periods == periods[..n] + [periods[n]];
    }
  }

  lemma GoodWeeksOne(c: ClassKey, periods: seq<Period>)
    ensures GoodWeeks(map[c := periods]) <==> GoodWeek(periods)
  {
    assert map[c := periods][c] == periods;
  }

  lemma GoodDataOne(rows: seq<Option<Entry>>, only: Option<ClassKey>, c: ClassKey, periods: seq<Period>)
    requires Carries(rows, c, periods) && (only.None? || only == Some(c)) && periods != []
    ensures GoodData(rows, only) <==> (|periods| <= MAX_IMPORT_ROWS && GoodWeek(periods))
    ensures Grouped(Entries(rows)) == map[c := periods]
  {
    CarriesEntries(rows, c, periods);
    AllImportMeans(rows);
    GroupedOne(Entries(rows), c, periods);
    GoodWeeksOne(c, periods);
    assert map[c := periods].Keys == {c};
  }

  /** A book of one sheet with a sound header. */
  lemma OneView(view: View, only: Option<ClassKey>)
    requires view.header.Columns?
    ensures BookData([view]) == view.rows && HasHeader([view]) && HeadersWhole([view])
    ensures Accepted([view], only) <==> GoodData(view.rows, only)
  {
    var book := [view];
    assert DataTo(book, 0) == [] && book[0] == view;
  }

  /** A sheet with a sound header whose data rows carry one class. */
  lemma OneClass(view: View, only: Option<ClassKey>, c: ClassKey, periods: seq<Period>)
    requires view.header.Columns? && Carries(view.rows, c, periods)
    requires (only.None? || only == Some(c)) && periods != []
    ensures Accepted([view], only) <==> (|periods| <= MAX_IMPORT_ROWS && GoodWeek(periods))
    ensures Grouped(Entries(BookData([view]))) == map[c := periods]
  {
    OneView(view, only);
    GoodDataOne(view.rows, only, c, periods);
  }

  /** A sheet with a header and no data rows. */
  lemma BlankView(view: View, c: ClassKey)
    requires view.header.Columns? && view.rows == []
    ensures FileRefused([view], Some(c)) && Accepted([view], None) && Grouped(Entries(BookData([view]))) == map[]
  {
    OneView(view, None);
  }

  lemma ReadOne(sheet: Sheet)
    ensures Read([sheet]) == [ViewOf(sheet)]
  {
  }

  // ---------------------------------------------------------------- PUT and import agree

  /** A timetable of one class written out as a sheet, one row a period. */
  function Written(class_: ClassKey, periods: seq<Period>): Sheet {
    [HEADERS] + seq(|periods|, i requires 0 <= i < |periods| => RowOf(class_, periods[i]))
  }

  predicate HasText(p: Period) {
    Trim(p.subject) != "" || TeacherText(p) != ""
  }

  lemma WrittenHeader(class_: ClassKey, periods: seq<Period>)
    ensures HeaderRow(Written(class_, periods), 0) == Some(0)
    ensures SheetHeader(Written(class_, periods)) == Columns(ALL_COLUMNS)
    ensures SheetData(Written(class_, periods)) == DataOf(Written(class_, periods)[1..], ALL_COLUMNS)
  {
    assert Written(class_, periods)[0] == HEADERS;
    HeadersRecognised(HEADERS);
  }

  lemma {:induction false} WrittenData(class_: ClassKey, periods: seq<Period>, rows: seq<Row>)
    requires forall i :: 0 <= i < |periods| ==> HasText(periods[i])
    requires |rows| == |periods| && forall i :: 0 <= i < |rows| ==> rows[i] == RowOf(class_, periods[i])
    ensures |DataOf(rows, ALL_COLUMNS)| == |rows|
    ensures forall i :: 0 <= i < |rows| ==>
      DataOf(rows, ALL_COLUMNS)[i] == Values(RowOf(class_, periods[i]), ALL_COLUMNS)
  {
    hide Values;
    if rows != [] {
      var n := |rows| - 1;
      WrittenData(class_, periods[..n], rows[..n]);
      WrittenRow(class_, periods[n]);
      assert HasText(periods[n]);
      assert rows[n] == RowOf(class_, periods[n]);
      var before := DataOf(rows[..n], ALL_COLUMNS);
      assert DataOf(rows, ALL_COLUMNS) == before + [Values(rows[n], ALL_COLUMNS)];
      forall i | 0 <= i < n ensures before[i] == Values(RowOf(class_, periods[i]), ALL_COLUMNS) {
        assert periods[..n][i] == periods[i];
      }
    }
  }

  lemma WrittenRow(class_: ClassKey, p: Period)
    requires HasText(p)
    ensures IsData(Values(RowOf(class_, p), ALL_COLUMNS))
  {
    ImportRow(RowOf(class_, p), class_, p);
  }

  lemma WrittenImports(class_: ClassKey, periods: seq<Period>, data: seq<Cells>)
    requires |data| == |periods| && forall i :: 0 <= i < |data| ==>
      data[i] == Values(RowOf(class_, periods[i]), ALL_COLUMNS)
    ensures var c := ClassKey(Trim(class_.grade), Trim(class_.section));
      forall i :: 0 <= i < |data| ==>
        Import(data[i])
          == if ClassOk(c) && Normal(periods[i]).Some? then Some(Entry(c, Normal(periods[i]).value)) else None
  {
    forall i | 0 <= i < |data|
      ensures var c := ClassKey(Trim(class_.grade), Trim(class_.section));
        Import(data[i])
          == if ClassOk(c) && Normal(periods[i]).Some? then Some(Entry(c, Normal(periods[i]).value)) else None
    {
      ImportRow(RowOf(class_, periods[i]), class_, periods[i]);
    }
  }

  /**
   PUT and the import accept the same non-empty timetables of a class, and store the same periods.
   A row with neither subject nor teacher is outside: PUT refuses it and the import skips it.
   */
  lemma SameAcceptance(class_: ClassKey, periods: seq<Period>, only: Option<ClassKey>)
    requires periods != [] && forall i :: 0 <= i < |periods| ==> HasText(periods[i])
    requires only.None? || only == Some(ClassKey(Trim(class_.grade), Trim(class_.section)))
    ensures Accepted(Read([Written(class_, periods)]), only) <==> PutOk(class_, periods)
    ensures var c := ClassKey(Trim(class_.grade), Trim(class_.section));
      PutOk(class_, periods) ==>
        Grouped(Entries(BookData(Read([Written(class_, periods)])))) == map[c := Normalised(periods)]
  {
    hide Read, Written, ViewOf, Accepted, PutOk, BookData, Entries, Grouped, Normalised, AllNormal, HasText;
    ReadOne(Written(class_, periods));
    if ClassOk(ClassKey(Trim(class_.grade), Trim(class_.section))) && AllNormal(periods) {
      WrittenAccepted(class_, periods, only);
    } else {
      WrittenNotAccepted(class_, periods, only);
    }
  }

  lemma WrittenAccepted(class_: ClassKey, periods: seq<Period>, only: Option<ClassKey>)
    requires periods != [] && forall i :: 0 <= i < |periods| ==> HasText(periods[i])
    requires only.None? || only == Some(ClassKey(Trim(class_.grade), Trim(class_.section)))
    requires ClassOk(ClassKey(Trim(class_.grade), Trim(class_.section))) && AllNormal(periods)
    ensures Accepted([ViewOf(Written(class_, periods))], only) <==> PutOk(class_, periods)
    ensures Grouped(Entries(BookData([ViewOf(Written(class_, periods))]))) ==
      map[ClassKey(Trim(class_.grade), Trim(class_.section)) := Normalised(periods)]
  {
    hide SheetHeader, SheetData, Values, Import, Written, Accepted, BookData, Entries, Grouped, Carries, HasText;
    var sheet, c := Written(class_, periods), ClassKey(Trim(class_.grade), Trim(class_.section));
    WrittenSheet(class_, periods);
    WrittenCarries(class_, periods, SheetData(sheet));
    OneClass(ViewOf(sheet), only, c, Normalised(periods));
    if GoodWeek(Normalised(periods)) { NormalisedCap(periods); }
  }

  lemma WrittenNotAccepted(class_: ClassKey, periods: seq<Period>, only: Option<ClassKey>)
    requires periods != [] && forall i :: 0 <= i < |periods| ==> HasText(periods[i])
    requires !ClassOk(ClassKey(Trim(class_.grade), Trim(class_.section))) || !AllNormal(periods)
    ensures !Accepted([ViewOf(Written(class_, periods))], only) && !PutOk(class_, periods)
  {
    hide SheetHeader, SheetData, Values, Import, Written, HasText;
    var sheet := Written(class_, periods);
    WrittenSheet(class_, periods);
    OneView(ViewOf(sheet), only);
    WrittenRefused(class_, periods, SheetData(sheet));
  }

  lemma WrittenSheet(class_: ClassKey, periods: seq<Period>)
    requires forall i :: 0 <= i < |periods| ==> HasText(periods[i])
    ensures var sheet := Written(class_, periods);
      && SheetHeader(sheet).Columns? && |SheetData(sheet)| == |periods|
      && forall i :: 0 <= i < |periods| ==> SheetData(sheet)[i] == Values(RowOf(class_, periods[i]), ALL_COLUMNS)
  {
    WrittenHeader(class_, periods);
    WrittenData(class_, periods, Written(class_, periods)[1..]);
  }

  lemma WrittenCarries(class_: ClassKey, periods: seq<Period>, data: seq<Cells>)
    requires |data| == |periods| && forall i :: 0 <= i < |data| ==>
      data[i] == Values(RowOf(class_, periods[i]), ALL_COLUMNS)
    requires ClassOk(ClassKey(Trim(class_.grade), Trim(class_.section))) && AllNormal(periods)
    ensures Carries(Imports(data), ClassKey(Trim(class_.grade), Trim(class_.section)), Normalised(periods))
  {
    WrittenImports(class_, periods, data);
  }

  lemma NormalisedCap(periods: seq<Period>)
    requires AllNormal(periods) && GoodWeek(Normalised(periods))
    ensures |periods| <= MAX_SCHEDULE_PERIODS
  {
    var stored := Normalised(periods);
    forall i | 0 <= i < |stored| ensures stored[i].day in SCHOOL_WEEK { NormalIsStored(periods[i]); }
    CapIsImplied(stored);
  }

  lemma {:induction false} WrittenRefused(class_: ClassKey, periods: seq<Period>, data: seq<Cells>)
    requires |data| == |periods| > 0 && forall i :: 0 <= i < |data| ==>
      data[i] == Values(RowOf(class_, periods[i]), ALL_COLUMNS)
    requires !ClassOk(ClassKey(Trim(class_.grade), Trim(class_.section))) || !AllNormal(periods)
    ensures !AllImport(Imports(data))
  {
    WrittenImports(class_, periods, data);
    var i :| 0 <= i < |periods|
      && (!ClassOk(ClassKey(Trim(class_.grade), Trim(class_.section))) || Normal(periods[i]).None?);
    assert Imports(data)[i].None?;
    AllImportMeans(Imports(data));
  }

  /** The one difference: an empty timetable clears the class with PUT, and is no timetable to the import. */
  lemma EmptyTimetable(class_: ClassKey, only: ClassKey)
    ensures PutOk(class_, []) <==> ClassOk(ClassKey(Trim(class_.grade), Trim(class_.section)))
    ensures FileRefused(Read([Written(class_, [])]), Some(only))
  {
    WrittenSheet(class_, []);
    ReadOne(Written(class_, []));
    BlankView(ViewOf(Written(class_, [])), only);
  }

  // ---------------------------------------------------------------- the exported grid

  /** The row the export query takes for a slot: the first stored, by id. */
  function Lookup(stored: seq<Period>, d: nat, n: int): Option<Period> {
    if stored == [] then None
    else if DayIndex(stored[0].day) == Some(d) && stored[0].number == n then Some(stored[0])
    else Lookup(stored[1..], d, n)
  }

  /** The stored period of the k-th slot of the week, counting six slots a day. */
  function InSlot(stored: seq<Period>, k: nat): Option<Period> {
    Lookup(stored, k / MAX_PERIOD_NUMBER, k % MAX_PERIOD_NUMBER + 1)
  }

  /** A slot of the grid: a blank lesson when nothing is stored there. */
  function SlotPeriod(stored: seq<Period>, k: nat): Period
    requires k < GRID
  {
    var d, n := k / MAX_PERIOD_NUMBER, k % MAX_PERIOD_NUMBER + 1;
    var p := InSlot(stored, k);
    if p.None? then Period(SCHOOL_WEEK[d], n, "", None) else Period(SCHOOL_WEEK[d], n, p.value.subject, p.value.teacher)
  }

  function Grid(c: ClassKey, stored: seq<Period>): seq<Row> {
    seq(GRID, k requires 0 <= k < GRID => RowOf(c, SlotPeriod(stored, k)))
  }

  /** The sheet of a report: a title in the first cell of three rows, a blank row, the header, the grid. */
  ghost predicate IsReport(sheet: Sheet, grid: seq<Row>) {
    && |sheet| == 5 + |grid|
    && (forall r, i :: 0 <= r < 4 && 1 <= i < |sheet[r]| ==> sheet[r][i] == "")
    && SameCells(sheet[4], HEADERS)
    && forall r :: 0 <= r < |grid| ==> SameCells(sheet[5 + r], grid[r])
  }

  /** AdminScheduleExportHandler: no file for a class nobody knows. */
  method Export(class_: ClassKey, hasStudents: bool, stored: seq<Period>, titles: (string, string, string))
    returns (sheet: Option<Sheet>)
    ensures sheet.Some? <==>
      ClassOk(ClassKey(Trim(class_.grade), Trim(class_.section))) && (hasStudents || stored != [])
    ensures sheet.Some? ==> IsReport(sheet.value, Grid(ClassKey(Trim(class_.grade), Trim(class_.section)), stored))
  {
    var c := ClassKey(Trim(class_.grade), Trim(class_.section));
    if !ClassOk(c) || !(hasStudents || stored != []) { return None; }
    var rows: Sheet := [[titles.0], [titles.1], [titles.2], [], HEADERS];
    for k := 0 to GRID
      invariant |rows| == 5 + k && rows[..5] == [[titles.0], [titles.1], [titles.2], [], HEADERS]
      invariant forall r :: 0 <= r < k ==> rows[5 + r] == Grid(c, stored)[r]
    {
      rows := rows + [RowOf(c, SlotPeriod(stored, k))];
    }
    assert forall r :: 0 <= r < 5 ==> rows[r] == rows[..5][r];
    return Some(rows);
  }

  predicate AllStored(stored: seq<Period>) {
    forall i :: 0 <= i < |stored| ==> Stored(stored[i])
  }

  /** The stored periods of the first k slots, in grid order. */
  function Scan(stored: seq<Period>, k: nat): seq<Period>
    requires k <= GRID
    decreases |stored|, k
  {
    if k == 0 then []
    else
      var p := InSlot(stored, k - 1);
      Scan(stored, k - 1) + if p.Some? then [p.value] else []
  }

  function Slot(p: Period): int {
    MAX_PERIOD_NUMBER * WeekIndex(p.day) + p.number - 1
  }

  lemma StoredDay(p: Period)
    requires Stored(p)
    ensures WeekIndex(p.day) < 5 && DayIndex(p.day) == Some(WeekIndex(p.day)) && SCHOOL_WEEK[WeekIndex(p.day)] == p.day
  {
    var d :| 0 <= d < 5 && SCHOOL_WEEK[d] == p.day;
    WeekIndexOf(d);
    WeekIsCanonical(d);
  }

  /** The slot lookup finds exactly the stored period of that slot. */
  lemma {:induction false} LookupExact(stored: seq<Period>, d: nat, n: int, p: Period)
    requires AllStored(stored) && NoDuplicates(stored)
    ensures Lookup(stored, d, n) == Some(p) <==> p in stored && WeekIndex(p.day) == d && p.number == n
  {
    if stored != [] {
      var first, rest := stored[0], stored[1..];
      StoredDay(first);
      assert stored == [first] + rest;
      StoredRest(stored);
      LookupExact(rest, d, n, p);
      if p in rest {
        StoredDay(p);
        assert !SameSlot(first, p);
      }
    }
  }

  lemma StoredRest(stored: seq<Period>)
    requires AllStored(stored) && NoDuplicates(stored) && stored != []
    ensures AllStored(stored[1..]) && NoDuplicates(stored[1..])
    ensures forall p :: p in stored[1..] ==> Stored(p) && !SameSlot(stored[0], p)
  {
    var rest := stored[1..];
    assert forall i :: 0 <= i < |rest| ==> rest[i] == stored[i + 1];
  }

  lemma SlotParts(p: Period, k: nat)
    requires Stored(p) && k < GRID
    ensures Slot(p) == k <==> WeekIndex(p.day) == k / MAX_PERIOD_NUMBER && p.number == k % MAX_PERIOD_NUMBER + 1
  {
  }

  lemma SlotLookup(stored: seq<Period>, k: nat, p: Period)
    requires AllStored(stored) && NoDuplicates(stored) && k < GRID
    ensures InSlot(stored, k) == Some(p) <==> p in stored && Slot(p) == k
  {
    LookupExact(stored, k / MAX_PERIOD_NUMBER, k % MAX_PERIOD_NUMBER + 1, p);
    if p in stored { SlotParts(p, k); }
  }

  /** The scan of the first k slots holds the stored periods of those slots. */
  lemma {:induction false} ScanHolds(stored: seq<Period>, k: nat, p: Period)
    requires AllStored(stored) && NoDuplicates(stored) && k <= GRID
    ensures p in Scan(stored, k) <==> p in stored && 0 <= Slot(p) < k
  {
    if k > 0 {
      ScanHolds(stored, k - 1, p);
      SlotLookup(stored, k - 1, p);
    }
  }

  /** It is in strict week order. */
  lemma {:induction false} ScanInOrder(stored: seq<Period>, k: nat)
    requires AllStored(stored) && NoDuplicates(stored) && k <= GRID
    ensures InWeekOrder(Scan(stored, k))
  {
    if k > 0 {
      ScanInOrder(stored, k - 1);
      ScanStepInOrder(stored, k - 1);
    }
  }

  lemma ScanStepInOrder(stored: seq<Period>, k: nat)
    requires AllStored(stored) && NoDuplicates(stored) && k < GRID && InWeekOrder(Scan(stored, k))
    ensures InWeekOrder(Scan(stored, k + 1))
  {
    var found := InSlot(stored, k);
    if found.Some? {
      ScanBefore(stored, k, found.value);
      InOrderMore(Scan(stored, k), found.value);
    } else {
      assert Scan(stored, k + 1) == Scan(stored, k);
    }
  }

  lemma ScanBefore(stored: seq<Period>, k: nat, p: Period)
    requires AllStored(stored) && NoDuplicates(stored) && k < GRID
    requires InSlot(stored, k) == Some(p)
    ensures forall q :: q in Scan(stored, k) ==> Before(q, p)
  {
    SlotLookup(stored, k, p);
    forall q | q in Scan(stored, k) ensures Before(q, p) {
      ScanHolds(stored, k, q);
      SlotOrder(q, p, stored);
    }
  }

  lemma SlotOrder(p: Period, q: Period, stored: seq<Period>)
    requires AllStored(stored) && p in stored && q in stored && Slot(p) < Slot(q)
    ensures Before(p, q)
  {
    StoredDay(p);
    StoredDay(q);
  }

  lemma {:induction false} DistinctCount(periods: seq<Period>, p: Period)
    requires NoDuplicates(periods)
    ensures multiset(periods)[p] == if p in periods then 1 else 0
  {
    if periods != [] {
      var init, last := periods[..|periods| - 1], periods[|periods| - 1];
      assert periods == init + [last];
      NoDuplicatesLess(init, last);
      DistinctCount(init, p);
      assert last !in init;
    }
  }

  lemma OrderNoDuplicates(periods: seq<Period>)
    requires InWeekOrder(periods)
    ensures NoDuplicates(periods)
  {
    forall i, j | 0 <= i < j < |periods| ensures !SameSlot(periods[i], periods[j]) {
      assert Before(periods[i], periods[j]);
    }
  }

  /** The whole scan is the stored week, rearranged. */
  lemma ScanIsStored(stored: seq<Period>)
    requires AllStored(stored) && NoDuplicates(stored)
    ensures multiset(Scan(stored, GRID)) == multiset(stored)
    ensures InWeekOrder(Scan(stored, GRID)) && NoDuplicates(Scan(stored, GRID))
    ensures forall p :: p in Scan(stored, GRID) <==> p in stored
  {
    var scan := Scan(stored, GRID);
    ScanInOrder(stored, GRID);
    OrderNoDuplicates(scan);
    forall p ensures p in scan <==> p in stored {
      ScanHolds(stored, GRID, p);
      if p in stored { StoredDay(p); }
    }
    forall p: Period ensures multiset(scan)[p] == multiset(stored)[p] {
      DistinctCount(scan, p);
      DistinctCount(stored, p);
    }
  }

  // ---------------------------------------------------------------- rearranging keeps a week good

  lemma CountMore(s: seq<int>, x: int, n: int)
    ensures Count(s + [x], n) == Count(s, n) + (if x == n then 1 else 0) && s + [] == s
  {
    assert (s + [x])[..|s|] == s;
  }

  lemma {:induction false} CountInWeek(periods: seq<Period>, day: string, n: int)
    requires NoDuplicates(periods)
    ensures Count(NumbersOn(periods, day), n) == if SlotAmong(periods, day, n) then 1 else 0
  {
    if periods != [] {
      var init, last := periods[..|periods| - 1], periods[|periods| - 1];
      assert periods == init + [last];
      NoDuplicatesLess(init, last);
      CountInWeek(init, day, n);
      SlotAmongMore(init, last, day, n);
      NumbersOnMore(init, last, day);
      CountMore(NumbersOn(init, day), last.number, n);
    }
  }

  lemma SameDay(a: seq<Period>, b: seq<Period>, day: string, n: int)
    requires NoDuplicates(a) && NoDuplicates(b) && forall p :: p in a <==> p in b
    ensures Count(NumbersOn(a, day), n) == Count(NumbersOn(b, day), n)
  {
    CountInWeek(a, day, n);
    CountInWeek(b, day, n);
    if SlotAmong(a, day, n) { SlotMoves(a, b, day, n); }
    if SlotAmong(b, day, n) { SlotMoves(b, a, day, n); }
  }

  lemma SlotMoves(a: seq<Period>, b: seq<Period>, day: string, n: int)
    requires (forall p :: p in a ==> p in b) && SlotAmong(a, day, n)
    ensures SlotAmong(b, day, n)
  {
    var k :| 0 <= k < |a| && a[k].day == day && a[k].number == n;
    assert a[k] in a;
    var j :| 0 <= j < |b| && b[j] == a[k];
  }

  lemma SameNumbers(s: seq<int>, t: seq<int>)
    requires forall n :: Count(s, n) == Count(t, n)
    requires s == [] || IsPermutation(s)
    ensures t == [] || IsPermutation(t)
  {
    if t != [] {
      CountPositive(t, 0);
      assert Count(s, t[0]) > 0;
    }
  }

  /** Whether a week is good depends on which periods it has, not on their order. */
  lemma GoodWeekRearranged(a: seq<Period>, b: seq<Period>)
    requires AllStored(a) && GoodWeek(a) && NoDuplicates(b) && forall p :: p in a <==> p in b
    ensures GoodWeek(b)
  {
    forall i | 0 <= i < |a| ensures a[i].day in SCHOOL_WEEK { assert Stored(a[i]); }
    forall i | 0 <= i < |b| ensures b[i].day in SCHOOL_WEEK { assert b[i] in b; assert b[i] in a; }
    GoodWeekExact(a);
    forall d | 0 <= d < 5 ensures NumbersOn(b, SCHOOL_WEEK[d]) == [] || IsPermutation(NumbersOn(b, SCHOOL_WEEK[d])) {
      forall n ensures Count(NumbersOn(a, SCHOOL_WEEK[d]), n) == Count(NumbersOn(b, SCHOOL_WEEK[d]), n) {
        SameDay(a, b, SCHOOL_WEEK[d], n);
      }
      SameNumbers(NumbersOn(a, SCHOOL_WEEK[d]), NumbersOn(b, SCHOOL_WEEK[d]));
    }
    GoodWeekExact(b);
  }

  // ---------------------------------------------------------------- export, then import

  lemma ReportHeader(sheet: Sheet, grid: seq<Row>)
    requires IsReport(sheet, grid)
    ensures HeaderRow(sheet, 0) == Some(4) && SheetHeader(sheet) == Columns(ALL_COLUMNS)
    ensures SheetData(sheet) == DataOf(sheet[5..], ALL_COLUMNS)
  {
    forall r | 0 <= r < 4 ensures HeaderOf(sheet[r]) == NotHeader { TitleIsNotHeader(sheet[r]); }
    HeadersRecognised(sheet[4]);
    assert HeaderRow(sheet, 4) == Some(4);
    assert HeaderRow(sheet, 3) == Some(4);
    assert HeaderRow(sheet, 2) == Some(4);
    assert HeaderRow(sheet, 1) == Some(4);
  }

  lemma StoredIsNormal(p: Period)
    requires Stored(p)
    ensures Normal(p) == Some(p) && HasText(p)
  {
    StoredDay(p);
    TrimOfTrimmed(p.subject);
    if p.teacher.Some? { TrimOfTrimmed(p.teacher.value); }
  }

  lemma SlotFilled(stored: seq<Period>, k: nat, p: Period)
    requires AllStored(stored) && NoDuplicates(stored) && k < GRID
    requires InSlot(stored, k) == Some(p)
    ensures Stored(p) && SlotPeriod(stored, k) == p
  {
    LookupExact(stored, k / MAX_PERIOD_NUMBER, k % MAX_PERIOD_NUMBER + 1, p);
    StoredDay(p);
  }

  /** A grid row imports as the stored period of its slot, or is blank. */
  lemma GridRow(row: Row, c: ClassKey, stored: seq<Period>, k: nat)
    requires AllStored(stored) && NoDuplicates(stored) && k < GRID
    requires Trimmed(c.grade) && Trimmed(c.section) && ClassOk(c)
    requires SameCells(row, RowOf(c, SlotPeriod(stored, k)))
    ensures var p, values := InSlot(stored, k), Values(row, ALL_COLUMNS);
      (IsData(values) <==> p.Some?) && (p.Some? ==> Import(values) == Some(Entry(c, p.value)))
  {
    var p := InSlot(stored, k);
    TrimOfTrimmed(c.grade);
    TrimOfTrimmed(c.section);
    ImportRow(row, c, SlotPeriod(stored, k));
    if p.Some? {
      SlotFilled(stored, k, p.value);
      StoredIsNormal(p.value);
    }
  }

  lemma CarriesMore(data: seq<Cells>, c: ClassKey, periods: seq<Period>, row: Cells, p: Period)
    requires Carries(Imports(data), c, periods) && Import(row) == Some(Entry(c, p))
    ensures Carries(Imports(data + [row]), c, periods + [p])
  {
  }

  lemma {:induction false} GridData(rows: seq<Row>, c: ClassKey, stored: seq<Period>)
    requires AllStored(stored) && NoDuplicates(stored) && |rows| <= GRID
    requires Trimmed(c.grade) && Trimmed(c.section) && ClassOk(c)
    requires forall k :: 0 <= k < |rows| ==> SameCells(rows[k], RowOf(c, SlotPeriod(stored, k)))
    ensures Carries(Imports(DataOf(rows, ALL_COLUMNS)), c, Scan(stored, |rows|))
  {
    if rows != [] {
      var k := |rows| - 1;
      GridData(rows[..k], c, stored);
      GridRow(rows[k], c, stored, k);
      var p, values := InSlot(stored, k), Values(rows[k], ALL_COLUMNS);
      if p.Some? {
        CarriesMore(DataOf(rows[..k], ALL_COLUMNS), c, Scan(stored, k), values, p.value);
      } else {
        assert DataOf(rows, ALL_COLUMNS) == DataOf(rows[..k], ALL_COLUMNS) && Scan(stored, |rows|) == Scan(stored, k);
      }
    }
  }

  /** The one class c with exactly the stored periods, strictly in school-week and period order. */
  ghost predicate OnlyWeek(classes: Classes, c: ClassKey, stored: seq<Period>) {
    classes.Keys == {c} && multiset(classes[c]) == multiset(stored) && InWeekOrder(classes[c])
  }

  /**
   Importing the export of a good week reports no problem and stores the same periods, in school-week
   and period order. The week may miss whole days and teachers, and the file may drop blank cells at
   the end of a row.
   */
  lemma ExportImport(c: ClassKey, stored: seq<Period>, sheet: Sheet, only: Option<ClassKey>)
    requires Trimmed(c.grade) && Trimmed(c.section) && ClassOk(c)
    requires stored != [] && AllStored(stored) && GoodWeek(stored)
    requires IsReport(sheet, Grid(c, stored)) && (only.None? || only == Some(c))
    ensures Accepted(Read([sheet]), only)
    ensures OnlyWeek(ImportedClasses(Read([sheet])), c, stored)
  {
    ExportRead(c, stored, sheet, only);
    ScanIsStored(stored);
    var scan := Scan(stored, GRID);
    SortedOne(c, scan);
    assert map[c := scan].Keys == {c} && map[c := scan][c] == scan;
  }

  /** Before the sort: the import reads the grid's periods, in grid order. */
  lemma ExportRead(c: ClassKey, stored: seq<Period>, sheet: Sheet, only: Option<ClassKey>)
    requires Trimmed(c.grade) && Trimmed(c.section) && ClassOk(c)
    requires stored != [] && AllStored(stored) && GoodWeek(stored)
    requires IsReport(sheet, Grid(c, stored)) && (only.None? || only == Some(c))
    ensures Accepted(Read([sheet]), only)
    ensures Grouped(Entries(BookData(Read([sheet])))) == map[c := Scan(stored, GRID)]
  {
    ReportData(sheet, c, stored);
    ScanIsGood(stored);
    ReadOne(sheet);
    OneClass(ViewOf(sheet), only, c, Scan(stored, GRID));
  }

  lemma SortedOne(c: ClassKey, periods: seq<Period>)
    requires InWeekOrder(periods)
    ensures SortedClasses(map[c := periods]) == map[c := periods]
  {
    SortOfSorted(periods);
  }

  lemma ScanIsGood(stored: seq<Period>)
    requires stored != [] && AllStored(stored) && GoodWeek(stored)
    ensures var scan := Scan(stored, GRID); GoodWeek(scan) && 0 < |scan| <= MAX_IMPORT_ROWS
  {
    var scan := Scan(stored, GRID);
    ScanIsStored(stored);
    assert stored[0] in scan;
    GoodWeekRearranged(stored, scan);
    ScanShort(stored, GRID);
  }

  lemma {:induction false} ScanShort(stored: seq<Period>, k: nat)
    requires k <= GRID
    ensures |Scan(stored, k)| <= k
  {
    if k > 0 { ScanShort(stored, k - 1); }
  }

  lemma ReportData(sheet: Sheet, c: ClassKey, stored: seq<Period>)
    requires Trimmed(c.grade) && Trimmed(c.section) && ClassOk(c)
    requires AllStored(stored) && NoDuplicates(stored) && IsReport(sheet, Grid(c, stored))
    ensures SheetHeader(sheet).Columns? && Carries(SheetRows(sheet), c, Scan(stored, GRID))
  {
    ReportHeader(sheet, Grid(c, stored));
    forall k | 0 <= k < GRID ensures SameCells(sheet[5..][k], RowOf(c, SlotPeriod(stored, k))) {
      assert SameCells(sheet[5 + k], Grid(c, stored)[k]);
    }
    GridData(sheet[5..], c, stored);
  }

  /** The export of a class without periods is blank: no class to a whole import, refused for one class. */
  lemma ExportBlank(c: ClassKey, sheet: Sheet)
    requires Trimmed(c.grade) && Trimmed(c.section) && ClassOk(c) && IsReport(sheet, Grid(c, []))
    ensures Accepted(Read([sheet]), None) && Grouped(Entries(BookData(Read([sheet])))) == map[]
    ensures FileRefused(Read([sheet]), Some(c))
  {
    ReportData(sheet, c, []);
    BlankScan(GRID);
    ReadOne(sheet);
    BlankView(ViewOf(sheet), c);
  }

  lemma {:induction false} BlankScan(k: nat)
    requires k <= GRID
    ensures Scan([], k) == []
  {
    if k > 0 { BlankScan(k - 1); }
  }

  /** Whatever PUT accepts and stores, its export imports as the same week. */
  lemma PutExportImport(class_: ClassKey, periods: seq<Period>, sheet: Sheet)
    requires periods != [] && PutOk(class_, periods)
    requires IsReport(sheet, Grid(ClassKey(Trim(class_.grade), Trim(class_.section)), Normalised(periods)))
    ensures Accepted(Read([sheet]), None)
    ensures var c := ClassKey(Trim(class_.grade), Trim(class_.section));
      OnlyWeek(ImportedClasses(Read([sheet])), c, Normalised(periods))
  {
    var stored := Normalised(periods);
    forall i | 0 <= i < |stored| ensures Stored(stored[i]) { NormalIsStored(periods[i]); }
    TrimIsTrimmed(class_.grade);
    TrimIsTrimmed(class_.section);
    ExportImport(ClassKey(Trim(class_.grade), Trim(class_.section)), stored, sheet, None);
  }
}
