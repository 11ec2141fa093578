/**
 A whole timetable workbook: its rows grouped by class, the rules across rows, and the order the
 periods are stored in (readScheduleWorkbook in internal/handlers/schedule_excel.go).
 */
module TimetableImport {
  import opened Wrappers
  import opened Timetable
  import opened TimetableSheet

  const MAX_IMPORT_CLASSES := 100

  type Classes = map<ClassKey, seq<Period>>

  /** What reading one sheet gives: its header, and what its data rows mean when the header is whole. */
  datatype View = View(header: Header, rows: seq<Option<Entry>>)

  type Book = seq<View>

  function ViewOf(sheet: Sheet): View {
    View(SheetHeader(sheet), SheetRows(sheet))
  }

  function Read(sheets: seq<Sheet>): (book: Book)
    ensures |book| == |sheets|
  {
    seq(|sheets|, i requires 0 <= i < |sheets| => ViewOf(sheets[i]))
  }

  /** The data rows of the first n sheets, in sheet order. */
  function DataTo(book: Book, n: nat): seq<Option<Entry>>
    requires n <= |book|
  {
    if n == 0 then [] else DataTo(book, n - 1) + book[n - 1].rows
  }

  function BookData(book: Book): seq<Option<Entry>> {
    DataTo(book, |book|)
  }

  function PeriodsOf(classes: Classes, c: ClassKey): seq<Period> {
    if c in classes then classes[c] else []
  }

  function Added(classes: Classes, e: Entry): Classes {
    classes[e.class_ := PeriodsOf(classes, e.class_) + [e.period]]
  }

  /** The entries by class, each class in file order. */
  function Grouped(entries: seq<Entry>): Classes {
    if entries == [] then map[] else Added(Grouped(entries[..|entries| - 1]), entries[|entries| - 1])
  }

  predicate HasHeader(book: Book) {
    exists i :: 0 <= i < |book| && book[i].header != NotHeader
  }

  predicate HeadersWhole(book: Book) {
    forall i :: 0 <= i < |book| ==> book[i].header != Broken
  }

  ghost predicate GoodWeeks(classes: Classes) {
    forall c :: c in classes ==> GoodWeek(classes[c])
  }

  /** The rows, taken together, are good weeks of the class asked for, or of up to 100 classes. */
  ghost predicate GoodData(data: seq<Option<Entry>>, only: Option<ClassKey>)
  {
    var classes := Grouped(Entries(data));
    && |data| <= MAX_IMPORT_ROWS && AllImport(data)
    && (only.Some? ==> classes.Keys == {only.value}) && |classes| <= MAX_IMPORT_CLASSES && GoodWeeks(classes)
  }

  /** The workbooks the import accepts. */
  ghost predicate Accepted(book: Book, only: Option<ClassKey>) {
    HasHeader(book) && HeadersWhole(book) && GoodData(BookData(book), only)
  }

  /** The entries of the one class asked for, or all. */
  function Ours(entries: seq<Entry>, only: Option<ClassKey>): seq<Entry> {
    if entries == [] then []
    else
      var e := entries[|entries| - 1];
      Ours(entries[..|entries| - 1], only) + if IsOurs(e, only) then [e] else []
  }

  /** The file as a whole is refused, without a list of problems. */
  ghost predicate FileRefused(book: Book, only: Option<ClassKey>) {
    var data := BookData(book);
    || |data| > MAX_IMPORT_ROWS || !HasHeader(book)
    || (only.Some? && data == [] && HeadersWhole(book))
    || |Grouped(Ours(Entries(data), only))| > MAX_IMPORT_CLASSES
  }

  // ---------------------------------------------------------------- grouping

  predicate AllOurs(entries: seq<Entry>, only: Option<ClassKey>) {
    forall i :: 0 <= i < |entries| ==> IsOurs(entries[i], only)
  }

  /** No row of another class and no slot of a class twice. */
  ghost predicate Clean(entries: seq<Entry>, only: Option<ClassKey>) {
    AllOurs(entries, only) && NoneTwice(Grouped(entries))
  }

  predicate IsOurs(e: Entry, only: Option<ClassKey>) {
    only.Some? ==> e.class_ == only.value
  }

  lemma GroupedMore(entries: seq<Entry>, e: Entry)
    ensures Grouped(entries + [e]) == Added(Grouped(entries), e)
  {
    assert (entries + [e])[..|entries|] == entries;
  }

  ghost predicate NoneTwice(classes: Classes) {
    forall c :: c in classes ==> NoDuplicates(classes[c])
  }

  lemma NoneTwiceMore(classes: Classes, e: Entry)
    ensures NoneTwice(Added(classes, e)) <==>
      (NoneTwice(classes) && !SlotAmong(PeriodsOf(classes, e.class_), e.period.day, e.period.number))
  {
    var after, periods := Added(classes, e), PeriodsOf(classes, e.class_);
    if NoneTwice(after) {
      assert e.class_ in after && after[e.class_] == periods + [e.period];
      NoDuplicatesLess(periods, e.period);
      forall c | c in classes ensures NoDuplicates(classes[c]) {
        assert c in after;
        if c != e.class_ { assert after[c] == classes[c]; }
      }
    } else if NoneTwice(classes) && !SlotAmong(periods, e.period.day, e.period.number) {
      NoDuplicatesMore(periods, e.period);
    }
  }

  lemma CleanMore(entries: seq<Entry>, e: Entry, only: Option<ClassKey>)
    ensures Clean(entries + [e], only) <==>
      (Clean(entries, only) && IsOurs(e, only)
        && !SlotAmong(PeriodsOf(Grouped(entries), e.class_), e.period.day, e.period.number))
  {
    GroupedMore(entries, e);
    NoneTwiceMore(Grouped(entries), e);
    var more := entries + [e];
    assert more[|entries|] == e && forall i :: 0 <= i < |entries| ==> more[i] == entries[i];
  }

  lemma NoDuplicatesLess(periods: seq<Period>, p: Period)
    requires NoDuplicates(periods + [p])
    ensures NoDuplicates(periods) && !SlotAmong(periods, p.day, p.number)
  {
    var more := periods + [p];
    assert forall i :: 0 <= i < |periods| ==> more[i] == periods[i];
    assert more[|periods|] == p;
  }

  type Slots = set<(ClassKey, string, int)>
  type Numbers = map<(ClassKey, string), seq<int>>

  function NumbersAt(numbers: Numbers, c: ClassKey, day: string): seq<int> {
    if (c, day) in numbers then numbers[(c, day)] else []
  }

  ghost predicate SeenIn(seen: Slots, classes: Classes) {
    forall c, day, number :: (c, day, number) in seen <==> SlotAmong(PeriodsOf(classes, c), day, number)
  }

  ghost predicate NumbersIn(numbers: Numbers, classes: Classes) {
    && (forall k :: k in numbers ==> numbers[k] != [])
    && forall c, day :: NumbersAt(numbers, c, day) == NumbersOn(PeriodsOf(classes, c), day)
  }

  lemma SeenInMore(seen: Slots, classes: Classes, e: Entry)
    requires SeenIn(seen, classes)
    ensures SeenIn(seen + {(e.class_, e.period.day, e.period.number)}, Added(classes, e))
  {
    forall c, day, number
      ensures SlotAmong(PeriodsOf(Added(classes, e), c), day, number) <==>
        SlotAmong(PeriodsOf(classes, c), day, number) || (c, day, number) == (e.class_, e.period.day, e.period.number)
    {
      if c == e.class_ { SlotAmongMore(PeriodsOf(classes, c), e.period, day, number); }
    }
  }

  lemma SlotAmongMore(periods: seq<Period>, p: Period, day: string, number: int)
    ensures SlotAmong(periods + [p], day, number) <==>
      SlotAmong(periods, day, number) || (p.day == day && p.number == number)
  {
    var more := periods + [p];
    assert more[|periods|] == p;
    if SlotAmong(periods, day, number) {
      var k :| 0 <= k < |periods| && periods[k].day == day && periods[k].number == number;
      assert more[k] == periods[k];
    }
  }

  lemma NumbersOnMore(periods: seq<Period>, p: Period, day: string)
    ensures NumbersOn(periods + [p], day) == NumbersOn(periods, day) + if p.day == day then [p.number] else []
  {
    assert (periods + [p])[..|periods|] == periods;
  }

  function NumberAdded(numbers: Numbers, e: Entry): Numbers {
    numbers[(e.class_, e.period.day) := NumbersAt(numbers, e.class_, e.period.day) + [e.period.number]]
  }

  lemma NumbersAtMore(numbers: Numbers, classes: Classes, e: Entry, c: ClassKey, day: string)
    requires NumbersAt(numbers, c, day) == NumbersOn(PeriodsOf(classes, c), day)
    ensures NumbersAt(NumberAdded(numbers, e), c, day) == NumbersOn(PeriodsOf(Added(classes, e), c), day)
  {
    if c == e.class_ {
      assert PeriodsOf(Added(classes, e), c) == PeriodsOf(classes, c) + [e.period];
      NumbersOnMore(PeriodsOf(classes, c), e.period, day);
    }
  }

  lemma NumbersInMore(numbers: Numbers, classes: Classes, e: Entry)
    requires NumbersIn(numbers, classes)
    ensures NumbersIn(NumberAdded(numbers, e), Added(classes, e))
  {
    forall c, day
      ensures NumbersAt(NumberAdded(numbers, e), c, day) == NumbersOn(PeriodsOf(Added(classes, e), c), day)
    {
      NumbersAtMore(numbers, classes, e, c, day);
    }
  }

  /** Every class found, once. */
  ghost predicate Lists(order: seq<ClassKey>, keys: set<ClassKey>) {
    && (forall i, j :: 0 <= i < j < |order| ==> order[i] != order[j])
    && (forall i :: 0 <= i < |order| ==> order[i] in keys)
    && |order| == |keys|
  }

  lemma {:induction false} ListsAll(order: seq<ClassKey>, keys: set<ClassKey>)
    requires Lists(order, keys)
    ensures forall c :: c in keys ==> c in order
  {
    if order != [] {
      var init, last := order[..|order| - 1], order[|order| - 1];
      ListsAll(init, keys - {last});
      assert order == init + [last];
    }
  }

  lemma ListsMore(order: seq<ClassKey>, keys: set<ClassKey>, c: ClassKey)
    requires Lists(order, keys)
    ensures Lists(if c in keys then order else order + [c], keys + {c})
  {
    if c in keys { assert keys + {c} == keys; }
  }

  /** The state of the loop over the valid rows, after `entries`. */
  ghost predicate Progress(entries: seq<Entry>, only: Option<ClassKey>, classes: Classes, problems: nat) {
    && (problems == 0 <==> Clean(entries, only)) && (problems == 0 ==> classes == Grouped(entries))
    && classes.Keys == Grouped(Ours(entries, only)).Keys
  }

  ghost predicate Gathered(classes: Classes, order: seq<ClassKey>, seen: Slots, numbers: Numbers) {
    SeenIn(seen, classes) && NumbersIn(numbers, classes) && Lists(order, classes.Keys)
  }

  lemma GatheredMore(classes: Classes, order: seq<ClassKey>, seen: Slots, numbers: Numbers, e: Entry)
    requires Gathered(classes, order, seen, numbers)
    ensures Gathered(Added(classes, e), if e.class_ in classes then order else order + [e.class_],
      seen + {(e.class_, e.period.day, e.period.number)},
      NumberAdded(numbers, e))
  {
    SeenInMore(seen, classes, e);
    NumbersInMore(numbers, classes, e);
    ListsMore(order, classes.Keys, e.class_);
    assert Added(classes, e).Keys == classes.Keys + {e.class_};
  }

  lemma SeenMeans(classes: Classes, order: seq<ClassKey>, seen: Slots, numbers: Numbers, e: Entry)
    requires Gathered(classes, order, seen, numbers)
    ensures (e.class_, e.period.day, e.period.number) in seen <==>
      SlotAmong(PeriodsOf(classes, e.class_), e.period.day, e.period.number)
  {
  }

  lemma StrangerStep(entries: seq<Entry>, e: Entry, only: Option<ClassKey>, classes: Classes, problems: nat)
    requires Progress(entries, only, classes, problems) && !IsOurs(e, only)
    ensures Progress(entries + [e], only, classes, problems + 1)
  {
    CleanMore(entries, e, only);
    OursMore(entries, e, only);
  }

  lemma RepeatStep(entries: seq<Entry>, e: Entry, only: Option<ClassKey>, classes: Classes, problems: nat)
    requires Progress(entries, only, classes, problems) && IsOurs(e, only)
    requires SlotAmong(PeriodsOf(classes, e.class_), e.period.day, e.period.number)
    ensures Progress(entries + [e], only, classes, problems + 1)
  {
    CleanMore(entries, e, only);
    OursMore(entries, e, only);
    assert classes.Keys + {e.class_} == classes.Keys;
  }

  lemma AddedStep(entries: seq<Entry>, e: Entry, only: Option<ClassKey>, classes: Classes, problems: nat)
    requires Progress(entries, only, classes, problems) && IsOurs(e, only)
    requires !SlotAmong(PeriodsOf(classes, e.class_), e.period.day, e.period.number)
    ensures Progress(entries + [e], only, Added(classes, e), problems)
  {
    CleanMore(entries, e, only);
    OursMore(entries, e, only);
    GroupedMore(entries, e);
  }

  /** The loop over the valid rows: groups them and reports strangers and repeated slots, which it skips. */
  method GroupEntries(entries: seq<Entry>, only: Option<ClassKey>)
    returns (classes: Classes, order: seq<ClassKey>, numbers: Numbers, problems: nat)
    ensures Progress(entries, only, classes, problems)
    ensures NumbersIn(numbers, classes) && Lists(order, classes.Keys)
  {
    hide Progress, SeenIn, NumbersIn, Lists, SlotAmong;
    classes, order, numbers, problems := map[], [], map[], 0;
    var seen: Slots := {};
    NothingRead(only);
    for i := 0 to |entries|
      invariant Progress(entries[..i], only, classes, problems)
      invariant Gathered(classes, order, seen, numbers)
    {
      var e := entries[i];
      assert entries[..i + 1] == entries[..i] + [e];
      var slot := (e.class_, e.period.day, e.period.number);
      SeenMeans(classes, order, seen, numbers, e);
      if !IsOurs(e, only) {
        StrangerStep(entries[..i], e, only, classes, problems);
        problems := problems + 1;
      } else if slot in seen {
        RepeatStep(entries[..i], e, only, classes, problems);
        problems := problems + 1;
      } else {
        AddedStep(entries[..i], e, only, classes, problems);
        GatheredMore(classes, order, seen, numbers, e);
        if e.class_ !in classes { order := order + [e.class_]; }
        seen := seen + {slot};
        numbers := NumberAdded(numbers, e);
        classes := Added(classes, e);
      }
    }
    assert entries[..|entries|] == entries;
  }

  lemma NothingRead(only: Option<ClassKey>)
    ensures Progress([], only, map[], 0) && Gathered(map[], [], {}, map[])
  {
    assert Grouped([]) == map[] && Ours([], only) == [];
  }

  lemma OursMore(entries: seq<Entry>, e: Entry, only: Option<ClassKey>)
    ensures var ours, more := Ours(entries, only), Ours(entries + [e], only);
      if IsOurs(e, only) then Grouped(more) == Added(Grouped(ours), e) else more == ours
  {
    assert (entries + [e])[..|entries|] == entries;
    var ours := Ours(entries, only);
    assert (ours + [e])[..|ours|] == ours && ours + [] == ours;
  }

  lemma {:induction false} AllOursIsAll(entries: seq<Entry>, only: Option<ClassKey>)
    requires AllOurs(entries, only)
    ensures Ours(entries, only) == entries
  {
    if entries != [] { AllOursIsAll(entries[..|entries| - 1], only); }
  }

  // ---------------------------------------------------------------- the stored order

  /** dayIndex: the place of a stored day name in the week, from place i on; 5 for another name. */
  function WeekIndex(day: string, i: nat := 0): (d: nat)
    requires i <= 5
    ensures i <= d <= 5 && (d < 5 ==> SCHOOL_WEEK[d] == day)
    ensures forall j :: i <= j < d ==> SCHOOL_WEEK[j] != day
    decreases 5 - i
  {
    if i == 5 || SCHOOL_WEEK[i] == day then i else WeekIndex(day, i + 1)
  }

  /** The comparison of sort.SliceStable: school-week order, then period number. */
  predicate Before(p: Period, q: Period) {
    if p.day != q.day then WeekIndex(p.day) < WeekIndex(q.day) else p.number < q.number
  }

  function SortWeek(periods: seq<Period>): seq<Period> {
    if periods == [] then [] else InsertPeriod(SortWeek(periods[..|periods| - 1]), periods[|periods| - 1])
  }

  function InsertPeriod(sorted: seq<Period>, p: Period): seq<Period> {
    if sorted == [] || !Before(p, sorted[|sorted| - 1]) then sorted + [p]
    else InsertPeriod(sorted[..|sorted| - 1], p) + [sorted[|sorted| - 1]]
  }

  function SortedClasses(classes: Classes): Classes {
    map c | c in classes :: SortWeek(classes[c])
  }

  /** What an accepted workbook stores: the periods of each of its classes, sorted. */
  function ImportedClasses(book: Book): Classes {
    SortedClasses(Grouped(Entries(BookData(book))))
  }

  ghost predicate InWeekOrder(periods: seq<Period>) {
    forall i, j :: 0 <= i < j < |periods| ==> Before(periods[i], periods[j])
  }

  predicate OnSchoolDays(periods: seq<Period>) {
    forall i :: 0 <= i < |periods| ==> periods[i].day in SCHOOL_WEEK
  }

  lemma WeekIndexOf(i: nat)
    requires i < 5
    ensures WeekIndex(SCHOOL_WEEK[i]) == i
  {
    WeekDistinct();
  }

  /** On the days of the week Before is a strict order that separates any two slots. */
  lemma BeforeIsTotal(p: Period, q: Period)
    requires p.day in SCHOOL_WEEK && q.day in SCHOOL_WEEK && !SameSlot(p, q)
    ensures Before(p, q) <==> !Before(q, p)
  {
    var i :| 0 <= i < 5 && SCHOOL_WEEK[i] == p.day;
    var j :| 0 <= j < 5 && SCHOOL_WEEK[j] == q.day;
    WeekIndexOf(i);
    WeekIndexOf(j);
  }

  lemma {:induction false} InsertKeeps(sorted: seq<Period>, p: Period)
    ensures multiset(InsertPeriod(sorted, p)) == multiset(sorted) + multiset{p}
  {
    if sorted != [] && Before(p, sorted[|sorted| - 1]) {
      var init, last := sorted[..|sorted| - 1], sorted[|sorted| - 1];
      InsertKeeps(init, p);
      assert sorted == init + [last];
    }
  }

  lemma {:induction false} SortKeeps(periods: seq<Period>)
    ensures multiset(SortWeek(periods)) == multiset(periods)
  {
    if periods != [] {
      var init, last := periods[..|periods| - 1], periods[|periods| - 1];
      SortKeeps(init);
      InsertKeeps(SortWeek(init), last);
      assert periods == init + [last];
    }
  }

  lemma InOrderMore(periods: seq<Period>, p: Period)
    requires InWeekOrder(periods) && forall q :: q in periods ==> Before(q, p)
    ensures InWeekOrder(periods + [p])
  {
  }

  lemma InsertedIn(sorted: seq<Period>, p: Period, q: Period)
    requires q in InsertPeriod(sorted, p)
    ensures q == p || q in sorted
  {
    InsertKeeps(sorted, p);
    assert q in multiset(InsertPeriod(sorted, p));
  }

  /** A new period, in order after all that are not after it. */
  lemma {:induction false} InsertInOrder(sorted: seq<Period>, p: Period)
    requires InWeekOrder(sorted) && OnSchoolDays(sorted) && p.day in SCHOOL_WEEK
    requires forall i :: 0 <= i < |sorted| ==> !SameSlot(sorted[i], p)
    ensures InWeekOrder(InsertPeriod(sorted, p))
  {
    if sorted == [] { return; }
    var init, last := sorted[..|sorted| - 1], sorted[|sorted| - 1];
    BeforeIsTotal(p, last);
    if Before(p, last) {
      InsertInOrder(init, p);
      forall q | q in InsertPeriod(init, p) ensures Before(q, last) { InsertedIn(init, p, q); }
      InOrderMore(InsertPeriod(init, p), last);
    } else {
      forall q | q in sorted ensures Before(q, p) { LastBefore(sorted, q, p); }
      InOrderMore(sorted, p);
    }
  }

  lemma BeforeTrans(p: Period, q: Period, r: Period)
    requires Before(p, q) && Before(q, r)
    ensures Before(p, r)
  {
  }

  lemma LastBefore(sorted: seq<Period>, q: Period, p: Period)
    requires InWeekOrder(sorted) && q in sorted && Before(sorted[|sorted| - 1], p)
    ensures Before(q, p)
  {
    var k :| 0 <= k < |sorted| && sorted[k] == q;
    if k < |sorted| - 1 { BeforeTrans(q, sorted[|sorted| - 1], p); }
  }

  /** A week without repeated slots is sorted strictly: by day of the week, then by number. */
  lemma {:induction false} SortOrders(periods: seq<Period>)
    requires OnSchoolDays(periods) && NoDuplicates(periods)
    ensures InWeekOrder(SortWeek(periods))
  {
    if periods != [] {
      var init, last := periods[..|periods| - 1], periods[|periods| - 1];
      SortOrders(init);
      SortKeeps(init);
      var sorted := SortWeek(init);
      forall i | 0 <= i < |sorted| ensures !SameSlot(sorted[i], last) && sorted[i].day in SCHOOL_WEEK {
        assert sorted[i] in multiset(sorted);
        assert sorted[i] in init;
        var k :| 0 <= k < |init| && init[k] == sorted[i];
        assert periods[k] == sorted[i] && periods[|periods| - 1] == last;
      }
      InsertInOrder(sorted, last);
    }
  }

  lemma InsertLast(sorted: seq<Period>, p: Period)
    requires InWeekOrder(sorted + [p])
    ensures InsertPeriod(sorted, p) == sorted + [p]
  {
    if sorted != [] {
      assert Before((sorted + [p])[|sorted| - 1], (sorted + [p])[|sorted|]);
      BeforeAsym(sorted[|sorted| - 1], p);
    }
  }

  lemma BeforeAsym(p: Period, q: Period)
    requires Before(p, q)
    ensures !Before(q, p)
  {
  }

  lemma {:induction false} SortOfSorted(periods: seq<Period>)
    requires InWeekOrder(periods)
    ensures SortWeek(periods) == periods
  {
    if periods != [] {
      var init, last := periods[..|periods| - 1], periods[|periods| - 1];
      SortOfSorted(init);
      InsertLast(init, last);
      assert periods == init + [last];
    }
  }

  // ---------------------------------------------------------------- the whole file

  predicate NumbersWhole(numbers: Numbers, c: ClassKey) {
    forall d :: 0 <= d < 5 ==>
      NumbersAt(numbers, c, SCHOOL_WEEK[d]) == [] || DayOk(NumbersAt(numbers, c, SCHOOL_WEEK[d]))
  }

  /** The days of one class: a problem for each day that is used and not complete. */
  method IncompleteDays(numbers: Numbers, c: ClassKey) returns (problems: nat)
    requires forall k :: k in numbers ==> numbers[k] != []
    ensures problems == 0 <==> NumbersWhole(numbers, c)
  {
    problems := 0;
    for d := 0 to 5
      invariant problems == 0 <==>
        forall k :: 0 <= k < d ==>
          NumbersAt(numbers, c, SCHOOL_WEEK[k]) == [] || DayOk(NumbersAt(numbers, c, SCHOOL_WEEK[k]))
    {
      if (c, SCHOOL_WEEK[d]) in numbers && !DayOk(numbers[(c, SCHOOL_WEEK[d])]) { problems := problems + 1; }
    }
  }

  predicate DaysWhole(periods: seq<Period>) {
    forall d :: 0 <= d < 5 ==> NumbersOn(periods, SCHOOL_WEEK[d]) == [] || DayOk(NumbersOn(periods, SCHOOL_WEEK[d]))
  }

  /** The classes before place i of the list are sorted, the others not yet. */
  ghost predicate SortedTo(finished: Classes, classes: Classes, order: seq<ClassKey>, i: nat) {
    && finished.Keys == classes.Keys
    && forall k :: 0 <= k < |order| && order[k] in classes ==>
      finished[order[k]] == if k < i then SortWeek(classes[order[k]]) else classes[order[k]]
  }

  lemma SortedToMore(finished: Classes, classes: Classes, order: seq<ClassKey>, i: nat)
    requires Lists(order, classes.Keys) && i < |order| && SortedTo(finished, classes, order, i)
    ensures SortedTo(finished[order[i] := SortWeek(finished[order[i]])], classes, order, i + 1)
  {
    assert order[i] in classes && forall k :: 0 <= k < |order| && k != i ==> order[k] != order[i];
  }

  lemma SortedToAll(finished: Classes, classes: Classes, order: seq<ClassKey>)
    requires Lists(order, classes.Keys) && SortedTo(finished, classes, order, |order|)
    ensures finished == SortedClasses(classes)
  {
    ListsAll(order, classes.Keys);
  }

  /** The classes before place i of the list have whole days. */
  ghost predicate WholeTo(classes: Classes, order: seq<ClassKey>, i: nat)
    requires i <= |order|
  {
    forall k :: 0 <= k < i ==> DaysWhole(PeriodsOf(classes, order[k]))
  }

  lemma WholeToMore(classes: Classes, order: seq<ClassKey>, numbers: Numbers, i: nat)
    requires NumbersIn(numbers, classes) && i < |order|
    ensures WholeTo(classes, order, i + 1) <==> (WholeTo(classes, order, i) && NumbersWhole(numbers, order[i]))
  {
    NumbersTellDays(numbers, classes, order[i]);
  }

  lemma WholeToAll(classes: Classes, order: seq<ClassKey>)
    requires Lists(order, classes.Keys)
    ensures WholeTo(classes, order, |order|) <==> WholeDays(classes)
  {
    ListsAll(order, classes.Keys);
    if WholeDays(classes) {
      forall k | 0 <= k < |order| ensures DaysWhole(PeriodsOf(classes, order[k])) { assert order[k] in classes; }
    }
    if WholeTo(classes, order, |order|) {
      forall c | c in classes ensures DaysWhole(classes[c]) {
        var k :| 0 <= k < |order| && order[k] == c;
        assert DaysWhole(PeriodsOf(classes, order[k]));
      }
    }
  }

  /** The last loop: checks the days of every class and sorts its periods. */
  method FinishClasses(classes: Classes, order: seq<ClassKey>, numbers: Numbers)
    returns (finished: Classes, problems: nat)
    requires NumbersIn(numbers, classes) && Lists(order, classes.Keys)
    ensures finished == SortedClasses(classes)
    ensures problems == 0 <==> WholeDays(classes)
  {
    finished, problems := classes, 0;
    for i := 0 to |order|
      invariant SortedTo(finished, classes, order, i)
      invariant problems == 0 <==> WholeTo(classes, order, i)
    {
      var c := order[i];
      var bad := IncompleteDays(numbers, c);
      WholeToMore(classes, order, numbers, i);
      SortedToMore(finished, classes, order, i);
      problems := problems + bad;
      finished := finished[c := SortWeek(finished[c])];
    }
    SortedToAll(finished, classes, order);
    WholeToAll(classes, order);
  }

  lemma NumbersTellDays(numbers: Numbers, classes: Classes, c: ClassKey)
    requires NumbersIn(numbers, classes)
    ensures DaysWhole(PeriodsOf(classes, c)) <==> NumbersWhole(numbers, c)
  {
    forall d | 0 <= d < 5
      ensures NumbersAt(numbers, c, SCHOOL_WEEK[d]) == NumbersOn(PeriodsOf(classes, c), SCHOOL_WEEK[d])
    {
    }
  }

  datatype Outcome = FileProblem | RowProblems(count: nat) | Imported(classes: Classes)

  lemma {:induction false} EntriesConcat(a: seq<Option<Entry>>, b: seq<Option<Entry>>)
    ensures Entries(a + b) == Entries(a) + Entries(b)
  {
    if b == [] {
      assert a + b == a;
    } else {
      var init := b[..|b| - 1];
      EntriesConcat(a, init);
      assert (a + b)[..|a + b| - 1] == a + init;
    }
  }

  lemma {:induction false} AllImportConcat(a: seq<Option<Entry>>, b: seq<Option<Entry>>)
    ensures AllImport(a + b) <==> (AllImport(a) && AllImport(b))
  {
    if b == [] {
      assert a + b == a;
    } else {
      var init := b[..|b| - 1];
      AllImportConcat(a, init);
      assert (a + b)[..|a + b| - 1] == a + init;
    }
  }

  lemma {:induction false} DataGrows(book: Book, m: nat, n: nat)
    requires m <= n <= |book|
    ensures |DataTo(book, m)| <= |DataTo(book, n)|
    decreases n
  {
    if m < n { DataGrows(book, m, n - 1); }
  }

  /** What the loop over the sheets knows after the first n. */
  ghost predicate SheetsRead(book: Book, n: nat, dataRows: nat, valid: seq<Entry>, withHeader: nat, problems: nat)
    requires n <= |book|
  {
    && dataRows == |DataTo(book, n)| && valid == Entries(DataTo(book, n))
    && (withHeader == 0 <==> forall i :: 0 <= i < n ==> book[i].header == NotHeader)
    && (problems == 0 <==> (forall i :: 0 <= i < n ==> book[i].header != Broken) && AllImport(DataTo(book, n)))
  }

  lemma SheetsReadMore(
    book: Book, n: nat, dataRows: nat, valid: seq<Entry>, withHeader: nat, problems: nat, bad: nat)
    requires n < |book| && SheetsRead(book, n, dataRows, valid, withHeader, problems)
    requires bad == 0 <==> book[n].header != Broken && AllImport(book[n].rows)
    ensures SheetsRead(book, n + 1, dataRows + |book[n].rows|, valid + Entries(book[n].rows),
      withHeader + (if book[n].header != NotHeader then 1 else 0), problems + bad)
  {
    EntriesConcat(DataTo(book, n), book[n].rows);
    AllImportConcat(DataTo(book, n), book[n].rows);
  }

  /** Sheet n: its entries and problems are added, unless it passes the row limit. */
  method NextSheet(sheets: seq<Sheet>, n: nat, dataRows: nat, valid: seq<Entry>, withHeader: nat, problems: nat)
    returns (rows: nat, entries: seq<Entry>, headers: nat, bad: nat, tooMany: bool)
    requires n < |sheets| && dataRows <= MAX_IMPORT_ROWS
    requires SheetsRead(Read(sheets), n, dataRows, valid, withHeader, problems)
    ensures tooMany <==> |DataTo(Read(sheets), n + 1)| > MAX_IMPORT_ROWS
    ensures !tooMany ==> SheetsRead(Read(sheets), n + 1, rows, entries, headers, bad) && rows <= MAX_IMPORT_ROWS
  {
    var headerFound;
    entries, headerFound, bad, rows := ReadSheet(sheets[n], dataRows);
    tooMany := rows > MAX_IMPORT_ROWS;
    if !tooMany { SheetsReadMore(Read(sheets), n, dataRows, valid, withHeader, problems, bad); }
    headers := if headerFound then withHeader + 1 else withHeader;
    entries, bad := valid + entries, problems + bad;
  }

  /** The loop over the sheets, with one row limit for them all. */
  method ReadSheets(sheets: seq<Sheet>) returns (valid: seq<Entry>, withHeader: nat, problems: nat, tooMany: bool)
    ensures tooMany <==> |BookData(Read(sheets))| > MAX_IMPORT_ROWS
    ensures !tooMany ==> SheetsRead(Read(sheets), |sheets|, |BookData(Read(sheets))|, valid, withHeader, problems)
  {
    hide SheetHeader, SheetRows;
    valid, withHeader, problems, tooMany := [], 0, 0, false;
    ghost var book := Read(sheets);
    var dataRows: nat := 0;
    for i := 0 to |sheets|
      invariant SheetsRead(book, i, dataRows, valid, withHeader, problems) && dataRows <= MAX_IMPORT_ROWS && !tooMany
    {
      dataRows, valid, withHeader, problems, tooMany := NextSheet(sheets, i, dataRows, valid, withHeader, problems);
      DataGrows(book, i + 1, |sheets|);
      if tooMany { return; }
    }
  }

  lemma {:induction false} AllImportCount(data: seq<Option<Entry>>)
    requires AllImport(data)
    ensures |Entries(data)| == |data|
  {
    if data != [] { AllImportCount(data[..|data| - 1]); }
  }

  lemma {:induction false} GroupedKeys(entries: seq<Entry>, only: ClassKey)
    requires AllOurs(entries, Some(only))
    ensures Grouped(entries).Keys == if entries == [] then {} else {only}
  {
    if entries != [] {
      assert IsOurs(entries[|entries| - 1], Some(only));
      GroupedKeys(entries[..|entries| - 1], only);
    }
  }

  lemma {:induction false} KeysOurs(entries: seq<Entry>, only: ClassKey)
    requires Grouped(entries).Keys <= {only}
    ensures AllOurs(entries, Some(only))
  {
    if entries != [] {
      var init, last := entries[..|entries| - 1], entries[|entries| - 1];
      assert last.class_ in Grouped(entries).Keys;
      assert Grouped(init).Keys <= Grouped(entries).Keys;
      KeysOurs(init, only);
      assert forall i :: 0 <= i < |init| ==> IsOurs(init[i], Some(only)) && entries[i] == init[i];
    }
  }

  lemma {:induction false} GroupedEmpty(entries: seq<Entry>)
    ensures Grouped(entries) == map[] <==> entries == []
  {
    if entries != [] {
      var last := entries[|entries| - 1];
      assert last.class_ in Grouped(entries);
    }
  }

  ghost predicate WholeDays(classes: Classes) {
    forall c :: c in classes ==> DaysWhole(classes[c])
  }

  lemma GoodWeeksInPasses(classes: Classes)
    ensures GoodWeeks(classes) <==> (NoneTwice(classes) && WholeDays(classes))
  {
    if NoneTwice(classes) && WholeDays(classes) {
      forall c | c in classes ensures GoodWeek(classes[c]) { assert NoDuplicates(classes[c]) && DaysWhole(classes[c]); }
    }
    if GoodWeeks(classes) {
      forall c | c in classes ensures NoDuplicates(classes[c]) && DaysWhole(classes[c]) { assert GoodWeek(classes[c]); }
    }
  }

  lemma OnlyInPasses(data: seq<Option<Entry>>, only: ClassKey)
    requires AllImport(data)
    ensures Grouped(Entries(data)).Keys == {only} <==> (AllOurs(Entries(data), Some(only)) && data != [])
  {
    AllImportCount(data);
    if AllOurs(Entries(data), Some(only)) { GroupedKeys(Entries(data), only); }
    if Grouped(Entries(data)).Keys == {only} {
      KeysOurs(Entries(data), only);
      GroupedKeys(Entries(data), only);
    }
  }

  /** The acceptance rule, split the way the passes of readScheduleWorkbook check it. */
  lemma AcceptedInPasses(book: Book, only: Option<ClassKey>)
    requires |BookData(book)| <= MAX_IMPORT_ROWS && HasHeader(book)
    ensures var data := BookData(book);
      var entries := Entries(data);
      Accepted(book, only) <==>
        (&& HeadersWhole(book) && AllImport(data) && Clean(entries, only) && (only.Some? ==> data != [])
         && |Grouped(entries)| <= MAX_IMPORT_CLASSES && WholeDays(Grouped(entries)))
  {
    var data := BookData(book);
    GoodWeeksInPasses(Grouped(Entries(data)));
    if only.Some? && AllImport(data) { OnlyInPasses(data, only.value); }
  }

  /** A file with no rows for the class asked for, and no other problem, has no rows at all. */
  lemma NothingForClass(data: seq<Option<Entry>>, only: Option<ClassKey>)
    ensures AllImport(data) && Clean(Entries(data), only) && Grouped(Ours(Entries(data), only)) == map[] <==> data == []
  {
    if data == [] {
      assert Entries(data) == [];
    } else if AllImport(data) && Clean(Entries(data), only) {
      AllImportCount(data);
      AllOursIsAll(Entries(data), only);
      GroupedEmpty(Entries(data));
    }
  }

  /** readScheduleWorkbook on the sheets' rows: accepts exactly the workbooks Accepted describes. */
  method ReadWorkbook(sheets: seq<Sheet>, only: Option<ClassKey>) returns (r: Outcome)
    ensures r.FileProblem? <==> FileRefused(Read(sheets), only)
    ensures r.Imported? <==> Accepted(Read(sheets), only)
    ensures r.Imported? ==> r.classes == ImportedClasses(Read(sheets))
    ensures r.RowProblems? ==> r.count > 0
  {
    var valid, withHeader, problems, tooMany := ReadSheets(sheets);
    if tooMany || withHeader == 0 { return FileProblem; }
    var classes, order, numbers, bad := GroupEntries(valid, only);
    problems := problems + bad;
    ghost var data := BookData(Read(sheets));
    NothingForClass(data, only);
    AcceptedInPasses(Read(sheets), only);
    if bad == 0 { AllOursIsAll(valid, only); }
    assert |order| == |classes.Keys| == |Grouped(Ours(valid, only)).Keys|;
    if only.Some? && |order| == 0 && problems == 0 { return FileProblem; }
    if |order| > MAX_IMPORT_CLASSES { return FileProblem; }
    classes, bad := FinishClasses(classes, order, numbers);
    problems := problems + bad;
    return if problems > 0 then RowProblems(problems) else Imported(classes);
  }
}
