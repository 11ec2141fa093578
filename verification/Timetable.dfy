/**
 What makes a class's weekly timetable valid, and the API that stores one
 (validateScheduleRequest and dayPeriodsProblem in internal/handlers/admin.go).
 */
module Timetable {
  import opened Wrappers
  import opened Text

  const MIN_DAY_PERIODS := 5
  const MAX_PERIOD_NUMBER := 6
  const MAX_SCHEDULE_PERIODS := 5 * MAX_PERIOD_NUMBER

  /** One lesson; teacher None is NULL. */
  datatype Period = Period(day: string, number: int, subject: string, teacher: Option<string>)

  datatype ClassKey = ClassKey(grade: string, section: string)

  /** The stored day names, Sunday to Thursday. */
  const SCHOOL_WEEK := ["الأحد", "الإثنين", "الثلاثاء", "الأربعاء", "الخميس"]

  /** The accepted names, folded, with the index of their day in SCHOOL_WEEK. */
  const DAY_NAMES := map[
    "sunday" := 0, "الاحد" := 0, "monday" := 1, "الاثنين" := 1, "tuesday" := 2, "الثلاثاء" := 2,
    "wednesday" := 3, "الاربعاء" := 3, "thursday" := 4, "الخميس" := 4]

  /** Lower case and the three hamza forms; of the letters in DAY_NAMES only ASCII ones have capitals. */
  function FoldChar(c: char): char {
    if 'A' <= c <= 'Z' then (c as int + 32) as char
    else if c == '\U{623}' || c == '\U{625}' || c == '\U{622}' then '\U{627}'
    else c
  }

  function Fold(s: string): string {
    seq(|s|, i requires 0 <= i < |s| => FoldChar(s[i]))
  }

  /** canonicalSchoolDay: the index of the day, None when it is not Sunday to Thursday. */
  function DayIndex(day: string): (i: Option<nat>)
    ensures i.Some? ==> i.value < 5
  {
    var f := Fold(Trim(day));
    if f in DAY_NAMES then Some(DAY_NAMES[f]) else None
  }

  lemma WeekIsCanonical(i: nat)
    requires i < 5
    ensures Trimmed(SCHOOL_WEEK[i]) && DayIndex(SCHOOL_WEEK[i]) == Some(i)
  {
    var names := ["الاحد", "الاثنين", "الثلاثاء", "الاربعاء", "الخميس"];
    var s := SCHOOL_WEEK[i];
    TrimOfTrimmed(s);
    assert |s| == |names[i]| && forall k :: 0 <= k < |s| ==> FoldChar(s[k]) == names[i][k];
    assert Fold(s) == names[i];
  }

  function TrimRightSpaces(s: string): string {
    if s != "" && s[|s| - 1] == ' ' then TrimRightSpaces(s[..|s| - 1]) else s
  }

  predicate TooLong(s: string, max: nat) {
    |TrimRightSpaces(s)| > max
  }

  predicate ClassOk(c: ClassKey) {
    c.grade != "" && c.section != "" && !TooLong(c.grade, 50) && !TooLong(c.section, 50)
  }

  function TeacherText(p: Period): string {
    if p.teacher.Some? then Trim(p.teacher.value) else ""
  }

  /** A period as it is stored: trimmed, with the canonical day and a blank teacher as NULL. */
  function Normal(p: Period): Option<Period> {
    var day, subject, teacher := DayIndex(p.day), Trim(p.subject), TeacherText(p);
    if day.None? || p.number < 1 || p.number > MAX_PERIOD_NUMBER || subject == "" || TooLong(subject, 100)
      || TooLong(teacher, 100)
    then None
    else Some(Period(SCHOOL_WEEK[day.value], p.number, subject, if teacher == "" then None else Some(teacher)))
  }

  /** sort.Ints */
  function Sort(numbers: seq<int>): seq<int> {
    if numbers == [] then [] else Insert(Sort(numbers[..|numbers| - 1]), numbers[|numbers| - 1])
  }

  function Insert(sorted: seq<int>, n: int): seq<int> {
    if sorted == [] || sorted[|sorted| - 1] <= n then sorted + [n]
    else Insert(sorted[..|sorted| - 1], n) + [sorted[|sorted| - 1]]
  }

  /** dayPeriodsProblem returns "": sorted, the numbers count 1, 2, ... up to 5 or 6. */
  predicate DayOk(numbers: seq<int>) {
    var sorted := Sort(numbers);
    MIN_DAY_PERIODS <= |sorted| <= MAX_PERIOD_NUMBER && forall i :: 0 <= i < |sorted| ==> sorted[i] == i + 1
  }

  function Count(s: seq<int>, x: int): nat {
    if s == [] then 0 else Count(s[..|s| - 1], x) + if s[|s| - 1] == x then 1 else 0
  }

  /** Each of 1 to n exactly once, in any order, and nothing else. */
  ghost predicate Enumerates(s: seq<int>, n: nat) {
    forall x :: Count(s, x) == if 1 <= x <= n then 1 else 0
  }

  ghost predicate IsPermutation(numbers: seq<int>) {
    Enumerates(numbers, 5) || Enumerates(numbers, 6)
  }

  ghost predicate Ascending(s: seq<int>) {
    forall i, j :: 0 <= i < j < |s| ==> s[i] <= s[j]
  }

  ghost predicate AtMost(s: seq<int>, m: int) {
    forall i :: 0 <= i < |s| ==> s[i] <= m
  }

  lemma {:induction false} InsertAtMost(sorted: seq<int>, n: int, m: int)
    requires AtMost(sorted, m) && n <= m
    ensures AtMost(Insert(sorted, n), m)
  {
    if sorted != [] && sorted[|sorted| - 1] > n { InsertAtMost(sorted[..|sorted| - 1], n, m); }
  }

  lemma {:induction false} InsertSorts(sorted: seq<int>, n: int)
    requires Ascending(sorted)
    ensures Ascending(Insert(sorted, n))
  {
    if sorted != [] && sorted[|sorted| - 1] > n {
      var init, last := sorted[..|sorted| - 1], sorted[|sorted| - 1];
      InsertSorts(init, n);
      InsertAtMost(init, n, last);
    }
  }

  lemma {:induction false} InsertCount(sorted: seq<int>, n: int, x: int)
    ensures Count(Insert(sorted, n), x) == Count(sorted, x) + if x == n then 1 else 0
  {
    if sorted == [] || sorted[|sorted| - 1] <= n {
      assert (sorted + [n])[..|sorted|] == sorted;
    } else {
      var init, last := sorted[..|sorted| - 1], sorted[|sorted| - 1];
      InsertCount(init, n, x);
      assert (Insert(init, n) + [last])[..|Insert(init, n)|] == Insert(init, n);
    }
  }

  lemma {:induction false} SortSorts(numbers: seq<int>)
    ensures Ascending(Sort(numbers))
    ensures forall x :: Count(Sort(numbers), x) == Count(numbers, x)
  {
    if numbers != [] {
      var init, last := numbers[..|numbers| - 1], numbers[|numbers| - 1];
      SortSorts(init);
      InsertSorts(Sort(init), last);
      forall x ensures Count(Sort(numbers), x) == Count(numbers, x) { InsertCount(Sort(init), last, x); }
    }
  }

  lemma {:induction false} CountPositive(s: seq<int>, i: nat)
    requires i < |s|
    ensures Count(s, s[i]) > 0
  {
    if i < |s| - 1 { CountPositive(s[..|s| - 1], i); }
  }

  lemma {:induction false} CountFinds(s: seq<int>, x: int) returns (i: nat)
    requires Count(s, x) > 0
    ensures i < |s| && s[i] == x
  {
    if s[|s| - 1] == x { i := |s| - 1; } else { i := CountFinds(s[..|s| - 1], x); }
  }

  /** Ascending numbers that hold each of 1 to n once are 1, 2, ..., n. */
  lemma {:induction false} AscendingEnumeration(s: seq<int>, n: nat)
    requires Ascending(s) && Enumerates(s, n)
    ensures |s| == n && forall i :: 0 <= i < n ==> s[i] == i + 1
    decreases n
  {
    if s != [] {
      var last := s[|s| - 1];
      CountPositive(s, |s| - 1);
      assert n > 0;
      var k := CountFinds(s, n);
      assert last == n;
      var init := s[..|s| - 1];
      forall x: int ensures Count(init, x) == if 1 <= x <= n - 1 then 1 else 0 {
        assert Count(s, x) == if 1 <= x <= n then 1 else 0;
      }
      AscendingEnumeration(init, n - 1);
    } else {
      assert Count(s, n) == 0;
    }
  }

  lemma {:induction false} OneToN(s: seq<int>, n: nat)
    requires |s| == n && forall i :: 0 <= i < n ==> s[i] == i + 1
    ensures Enumerates(s, n)
  {
    if n > 0 { OneToN(s[..n - 1], n - 1); }
  }

  /** The sorted check accepts exactly the permutations of 1 to 5 and of 1 to 6. */
  lemma DayOkExact(numbers: seq<int>)
    ensures DayOk(numbers) <==> IsPermutation(numbers)
  {
    SortSorts(numbers);
    var s := Sort(numbers);
    if DayOk(numbers) {
      OneToN(s, |s|);
    } else if Enumerates(numbers, 5) {
      AscendingEnumeration(s, 5);
    } else if Enumerates(numbers, 6) {
      AscendingEnumeration(s, 6);
    }
  }

  // ---------------------------------------------------------------- a week

  /** The period numbers of one day, in order of appearance. */
  function NumbersOn(periods: seq<Period>, day: string): seq<int> {
    if periods == [] then []
    else
      var p := periods[|periods| - 1];
      NumbersOn(periods[..|periods| - 1], day) + if p.day == day then [p.number] else []
  }

  predicate SameSlot(p: Period, q: Period) {
    p.day == q.day && p.number == q.number
  }

  predicate NoDuplicates(periods: seq<Period>) {
    forall i, j :: 0 <= i < j < |periods| ==> !SameSlot(periods[i], periods[j])
  }

  /** What both validators check of stored periods: no slot twice, and every day used is complete. */
  predicate GoodWeek(periods: seq<Period>) {
    NoDuplicates(periods) && forall d :: 0 <= d < 5 ==>
      NumbersOn(periods, SCHOOL_WEEK[d]) == [] || DayOk(NumbersOn(periods, SCHOOL_WEEK[d]))
  }

  /** The rule in one line: each day's numbers are empty, or 1 to 5 or 1 to 6 in any order. */
  ghost predicate Complete(periods: seq<Period>) {
    forall d :: 0 <= d < 5 ==>
      NumbersOn(periods, SCHOOL_WEEK[d]) == [] || IsPermutation(NumbersOn(periods, SCHOOL_WEEK[d]))
  }

  /** Periods as they are stored. */
  predicate Stored(p: Period) {
    p.day in SCHOOL_WEEK && 1 <= p.number <= MAX_PERIOD_NUMBER && p.subject != "" && Trimmed(p.subject)
      && !TooLong(p.subject, 100)
    && (p.teacher.Some? ==> p.teacher.value != "" && Trimmed(p.teacher.value) && !TooLong(p.teacher.value, 100))
  }

  lemma NormalIsStored(p: Period)
    requires Normal(p).Some?
    ensures Stored(Normal(p).value)
  {
    TrimIsTrimmed(p.subject);
    if p.teacher.Some? { TrimIsTrimmed(p.teacher.value); }
  }

  lemma {:induction false} NumberOccurs(periods: seq<Period>, i: nat)
    requires i < |periods|
    ensures Count(NumbersOn(periods, periods[i].day), periods[i].number) >= 1
  {
    var n := |periods| - 1;
    var before, p := NumbersOn(periods[..n], periods[i].day), periods[n];
    assert (before + [p.number])[..|before|] == before && before + [] == before;
    if i < n { NumberOccurs(periods[..n], i); }
  }

  lemma {:induction false} NumberOccursTwice(periods: seq<Period>, i: nat, j: nat)
    requires i < j < |periods| && SameSlot(periods[i], periods[j])
    ensures Count(NumbersOn(periods, periods[j].day), periods[j].number) >= 2
  {
    var n := |periods| - 1;
    var before, p := NumbersOn(periods[..n], periods[j].day), periods[n];
    assert (before + [p.number])[..|before|] == before && before + [] == before;
    if j < n { NumberOccursTwice(periods[..n], i, j); } else { NumberOccurs(periods[..n], i); }
  }

  /** A complete week repeats no slot, so the two statements of the rule agree. */
  lemma GoodWeekExact(periods: seq<Period>)
    requires forall i :: 0 <= i < |periods| ==> periods[i].day in SCHOOL_WEEK
    ensures GoodWeek(periods) <==> Complete(periods)
  {
    forall d | 0 <= d < 5
      ensures DayOk(NumbersOn(periods, SCHOOL_WEEK[d])) <==> IsPermutation(NumbersOn(periods, SCHOOL_WEEK[d]))
    {
      DayOkExact(NumbersOn(periods, SCHOOL_WEEK[d]));
    }
    if Complete(periods) {
      forall i, j | 0 <= i < j < |periods| ensures !SameSlot(periods[i], periods[j]) {
        if SameSlot(periods[i], periods[j]) { CompleteNoRepeat(periods, i, j); }
      }
    }
  }

  lemma CompleteNoRepeat(periods: seq<Period>, i: nat, j: nat)
    requires i < j < |periods| && SameSlot(periods[i], periods[j]) && periods[j].day in SCHOOL_WEEK
    ensures !Complete(periods)
  {
    NumberOccursTwice(periods, i, j);
    var d :| 0 <= d < 5 && SCHOOL_WEEK[d] == periods[j].day;
    var numbers := NumbersOn(periods, SCHOOL_WEEK[d]);
    assert Count(numbers, periods[j].number) >= 2;
    assert Count([], periods[j].number) == 0;
  }

  lemma {:induction false} PeriodsByDay(periods: seq<Period>)
    requires forall i :: 0 <= i < |periods| ==> periods[i].day in SCHOOL_WEEK
    ensures |periods| == |NumbersOn(periods, SCHOOL_WEEK[0])| + |NumbersOn(periods, SCHOOL_WEEK[1])|
      + |NumbersOn(periods, SCHOOL_WEEK[2])| + |NumbersOn(periods, SCHOOL_WEEK[3])|
      + |NumbersOn(periods, SCHOOL_WEEK[4])|
  {
    if periods != [] {
      PeriodsByDay(periods[..|periods| - 1]);
      WeekDistinct();
    }
  }

  lemma WeekDistinct()
    ensures forall i, j :: 0 <= i < j < 5 ==> SCHOOL_WEEK[i] != SCHOOL_WEEK[j]
  {
    forall i, j | 0 <= i < j < 5 ensures SCHOOL_WEEK[i] != SCHOOL_WEEK[j] {
      WeekIsCanonical(i);
      WeekIsCanonical(j);
    }
  }

  lemma {:induction false} SortLength(numbers: seq<int>)
    ensures |Sort(numbers)| == |numbers|
  {
    if numbers != [] {
      SortLength(numbers[..|numbers| - 1]);
      InsertLength(Sort(numbers[..|numbers| - 1]), numbers[|numbers| - 1]);
    }
  }

  lemma {:induction false} InsertLength(sorted: seq<int>, n: int)
    ensures |Insert(sorted, n)| == |sorted| + 1
  {
    if sorted != [] && sorted[|sorted| - 1] > n { InsertLength(sorted[..|sorted| - 1], n); }
  }

  /** Five days of at most six periods: a good week never reaches the cap of PUT. */
  lemma CapIsImplied(periods: seq<Period>)
    requires GoodWeek(periods) && forall i :: 0 <= i < |periods| ==> periods[i].day in SCHOOL_WEEK
    ensures |periods| <= MAX_SCHEDULE_PERIODS
  {
    PeriodsByDay(periods);
    forall d | 0 <= d < 5 ensures |NumbersOn(periods, SCHOOL_WEEK[d])| <= MAX_PERIOD_NUMBER {
      SortLength(NumbersOn(periods, SCHOOL_WEEK[d]));
    }
  }

  // ---------------------------------------------------------------- PUT

  predicate AllNormal(periods: seq<Period>) {
    forall i :: 0 <= i < |periods| ==> Normal(periods[i]).Some?
  }

  function Normalised(periods: seq<Period>): (r: seq<Period>)
    requires AllNormal(periods)
    ensures |r| == |periods|
  {
    seq(|periods|, i requires 0 <= i < |periods| => Normal(periods[i]).value)
  }

  predicate PutOk(class_: ClassKey, periods: seq<Period>) {
    && ClassOk(ClassKey(Trim(class_.grade), Trim(class_.section)))
    && |periods| <= MAX_SCHEDULE_PERIODS && AllNormal(periods) && GoodWeek(Normalised(periods))
  }

  /** PUT accepts a timetable exactly when its texts are valid and each day is complete; the cap adds nothing. */
  lemma PutExact(class_: ClassKey, periods: seq<Period>)
    ensures PutOk(class_, periods) <==>
      ClassOk(ClassKey(Trim(class_.grade), Trim(class_.section))) && AllNormal(periods) && Complete(Normalised(periods))
  {
    if AllNormal(periods) {
      var n := Normalised(periods);
      forall i | 0 <= i < |n| ensures n[i].day in SCHOOL_WEEK { NormalIsStored(periods[i]); }
      GoodWeekExact(n);
      if GoodWeek(n) { CapIsImplied(n); }
    }
  }

  predicate SlotAmong(periods: seq<Period>, day: string, number: int) {
    exists k :: 0 <= k < |periods| && periods[k].day == day && periods[k].number == number
  }

  /** The checks and rewriting of one period of the request. */
  method NormalisePeriod(p: Period) returns (r: Option<Period>)
    ensures r == Normal(p)
  {
    var day := DayIndex(p.day);
    if day.None? { return None; }
    if p.number < 1 || p.number > MAX_PERIOD_NUMBER { return None; }
    var subject := Trim(p.subject);
    if subject == "" { return None; }
    var teacher := "";
    if p.teacher.Some? { teacher := Trim(p.teacher.value); }
    if TooLong(subject, 100) || TooLong(teacher, 100) { return None; }
    return Some(Period(SCHOOL_WEEK[day.value], p.number, subject, if teacher == "" then None else Some(teacher)));
  }

  ghost predicate SeenSlots(seen: set<(string, int)>, periods: seq<Period>) {
    forall day, number :: (day, number) in seen <==> SlotAmong(periods, day, number)
  }

  lemma SeenMore(seen: set<(string, int)>, periods: seq<Period>, p: Period)
    requires SeenSlots(seen, periods)
    ensures SeenSlots(seen + {(p.day, p.number)}, periods + [p])
  {
    forall day, number ensures (day, number) in seen + {(p.day, p.number)} <==> SlotAmong(periods + [p], day, number) {
      var longer := periods + [p];
      assert longer[|periods|] == p;
      if SlotAmong(periods, day, number) {
        var k :| 0 <= k < |periods| && periods[k].day == day && periods[k].number == number;
        assert longer[k] == periods[k];
      }
    }
  }

  lemma NoDuplicatesMore(periods: seq<Period>, p: Period)
    requires NoDuplicates(periods) && !SlotAmong(periods, p.day, p.number)
    ensures NoDuplicates(periods + [p])
  {
  }

  /** The first loop: rewrites the periods in place, up to the first one that is invalid or repeated. */
  method NormaliseInPlace(periods: array<Period>) returns (ok: bool)
    modifies periods
    ensures ok <==> AllNormal(old(periods[..])) && NoDuplicates(Normalised(old(periods[..])))
    ensures ok ==> periods[..] == Normalised(old(periods[..]))
  {
    ghost var was := periods[..];
    ghost var done: seq<Period> := [];
    var seen: set<(string, int)> := {};
    for i := 0 to periods.Length
      invariant periods[i..] == was[i..] && periods[..i] == done
      invariant AllNormal(was[..i]) && done == Normalised(was[..i]) && NoDuplicates(done)
      invariant SeenSlots(seen, done)
    {
      assert periods[i] == periods[i..][0] == was[i];
      var normal := NormalisePeriod(periods[i]);
      if normal.None? { return false; }
      var p := normal.value;
      if (p.day, p.number) in seen {
        Repeated(was, i);
        return false;
      }
      NormalisedMore(was, i);
      NoDuplicatesMore(done, p);
      SeenMore(seen, done, p);
      periods[i] := p;
      seen := seen + {(p.day, p.number)};
      done := done + [p];
    }
    assert was[..periods.Length] == was && periods[..periods.Length] == periods[..];
    return true;
  }

  lemma NormalisedMore(was: seq<Period>, i: nat)
    requires i < |was| && AllNormal(was[..i]) && Normal(was[i]).Some?
    ensures AllNormal(was[..i + 1]) && Normalised(was[..i + 1]) == Normalised(was[..i]) + [Normal(was[i]).value]
  {
    var longer := was[..i + 1];
    assert longer[..i] == was[..i];
    forall k | 0 <= k < |longer| ensures Normal(longer[k]).Some? {
      if k < i { assert longer[k] == was[..i][k]; }
    }
  }

  lemma Repeated(periods: seq<Period>, i: nat)
    requires i < |periods| && AllNormal(periods[..i]) && Normal(periods[i]).Some?
    requires SlotAmong(Normalised(periods[..i]), Normal(periods[i]).value.day, Normal(periods[i]).value.number)
    ensures AllNormal(periods) ==> !NoDuplicates(Normalised(periods))
  {
    var done, p := Normalised(periods[..i]), Normal(periods[i]).value;
    var k :| 0 <= k < |done| && done[k].day == p.day && done[k].number == p.number;
    if AllNormal(periods) {
      assert Normalised(periods)[k] == done[k];
      assert SameSlot(Normalised(periods)[k], Normalised(periods)[i]);
    }
  }

  /** The second loop: the school week's days in order, each empty or complete. */
  method DaysComplete(periods: seq<Period>) returns (ok: bool)
    ensures ok <==> forall d :: 0 <= d < 5 ==>
      NumbersOn(periods, SCHOOL_WEEK[d]) == [] || DayOk(NumbersOn(periods, SCHOOL_WEEK[d]))
  {
    for d := 0 to 5
      invariant forall k :: 0 <= k < d ==>
        NumbersOn(periods, SCHOOL_WEEK[k]) == [] || DayOk(NumbersOn(periods, SCHOOL_WEEK[k]))
    {
      var numbers := NumbersOn(periods, SCHOOL_WEEK[d]);
      if numbers != [] && !DayOk(numbers) { return false; }
    }
    return true;
  }

  /**
   validateScheduleRequest: rewrites the periods in place as it goes and accepts exactly the requests
   PutOk describes; the accepted array holds what will be stored. A request without periods is
   refused before.
   */
  method ValidateScheduleRequest(class_: ClassKey, periods: array<Period>) returns (ok: bool, trimmed: ClassKey)
    modifies periods
    ensures trimmed == ClassKey(Trim(class_.grade), Trim(class_.section))
    ensures ok <==> PutOk(class_, old(periods[..]))
    ensures ok ==> periods[..] == Normalised(old(periods[..]))
  {
    trimmed := ClassKey(Trim(class_.grade), Trim(class_.section));
    if !ClassOk(trimmed) || periods.Length > MAX_SCHEDULE_PERIODS { return false, trimmed; }
    ok := NormaliseInPlace(periods);
    if ok { ok := DaysComplete(periods[..]); }
  }
}
