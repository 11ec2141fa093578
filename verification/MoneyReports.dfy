/**
 The money reports on one snapshot of the database: the tuition list's summary
 (AdminTuitionHandler in internal/handlers/tuition.go) and the yearly expenses summary
 (AdminExpensesSummaryHandler in internal/handlers/expenses.go), and why they agree.
 */
module MoneyReports {
  import opened Wrappers
  import opened TuitionLedger
  import opened TuitionViews

  function Sum<T>(s: seq<T>, f: T -> int): int {
    if s == [] then 0 else Sum(s[..|s| - 1], f) + f(s[|s| - 1])
  }

  lemma SumAppend<T>(s: seq<T>, x: T, f: T -> int)
    ensures Sum(s + [x], f) == Sum(s, f) + f(x)
  {
    assert (s + [x])[..|s|] == s;
  }

  lemma {:induction false} SumZero<T>(s: seq<T>, f: T -> int)
    requires forall i :: 0 <= i < |s| ==> f(s[i]) == 0
    ensures Sum(s, f) == 0
  {
    if s != [] { SumZero(s[..|s| - 1], f); }
  }

  lemma {:induction false} SumSplit<T>(s: seq<T>, f: T -> int, g: T -> int, h: T -> int)
    requires forall i :: 0 <= i < |s| ==> f(s[i]) == g(s[i]) + h(s[i])
    ensures Sum(s, f) == Sum(s, g) + Sum(s, h)
  {
    if s != [] { SumSplit(s[..|s| - 1], f, g, h); }
  }

  // ---------------------------------------------------------------- the tuition list

  datatype Totals = Totals(fee: int, discount: int, collected: int, remaining: int, notSet: nat)

  function FeeOf(r: ListRow): int { if r.fee.Some? then r.fee.value else 0 }
  function RemainingOf(r: ListRow): int { if r.remaining.Some? then r.remaining.value else 0 }

  /** What holds of every listed row: without a fee there is no discount and no payment. */
  predicate RowOk(r: ListRow) {
    && (r.remaining.Some? <==> r.fee.Some?)
    && RemainingOf(r) == FeeOf(r) - r.discount - r.paid
  }

  lemma RowIsOk(db: Db, student: nat, year: Year, current: bool)
    requires student in db.students
    ensures RowOk(RowOf(db, student, year, current))
  {
  }

  predicate RowsOk(rows: seq<ListRow>) {
    forall i :: 0 <= i < |rows| ==> RowOk(rows[i])
  }

  predicate Shown(r: ListRow, onlyRemaining: bool) {
    onlyRemaining ==> r.remaining.Some? && r.remaining.value > 0
  }

  function Kept(rows: seq<ListRow>, onlyRemaining: bool): seq<ListRow> {
    if rows == [] then []
    else
      var last := rows[|rows| - 1];
      Kept(rows[..|rows| - 1], onlyRemaining) + if Shown(last, onlyRemaining) then [last] else []
  }

  function DiscountOf(r: ListRow): int { r.discount }
  function CollectedFrom(r: ListRow): int { r.paid }
  function NotSet(r: ListRow): int { if r.fee.Some? then 0 else 1 }

  /** The totals of the rows, each the sum of its column. */
  ghost predicate TotalsOf(rows: seq<ListRow>, sum: Totals) {
    && sum.fee == Sum(rows, FeeOf) && sum.discount == Sum(rows, DiscountOf) && sum.collected == Sum(rows, CollectedFrom)
    && sum.remaining == Sum(rows, RemainingOf) && sum.notSet == Sum(rows, NotSet)
  }

  lemma TotalsMore(rows: seq<ListRow>, sum: Totals, r: ListRow)
    requires TotalsOf(rows, sum)
    ensures TotalsOf(rows + [r], Totals(
      sum.fee + FeeOf(r), sum.discount + r.discount, sum.collected + r.paid, sum.remaining + RemainingOf(r), sum.notSet
        + NotSet(r)))
  {
    SumAppend(rows, r, FeeOf);
    SumAppend(rows, r, DiscountOf);
    SumAppend(rows, r, CollectedFrom);
    SumAppend(rows, r, RemainingOf);
    SumAppend(rows, r, NotSet);
  }

  /**
   The list and its totals. The totals are those of the rows shown, and they close: what remains is
   the fees less the discounts less what was collected, whichever filter chose the rows.
   */
  method Summarize(records: seq<ListRow>, onlyRemaining: bool) returns (sum: Totals, items: seq<ListRow>)
    requires RowsOk(records)
    ensures items == Kept(records, onlyRemaining) && TotalsOf(items, sum)
    ensures sum.remaining == sum.fee - sum.discount - sum.collected
  {
    sum, items := Totals(0, 0, 0, 0, 0), [];
    for i := 0 to |records|
      invariant items == Kept(records[..i], onlyRemaining) && TotalsOf(items, sum)
      invariant sum.remaining == sum.fee - sum.discount - sum.collected
    {
      assert records[..i + 1][..i] == records[..i];
      var rec := records[i];
      assert RowOk(rec);
      if onlyRemaining && (rec.remaining.None? || rec.remaining.value <= 0) { continue; }
      TotalsMore(items, sum, rec);
      if rec.fee.Some? {
        sum := sum.(fee := sum.fee + rec.fee.value, remaining := sum.remaining + rec.remaining.value);
      } else {
        sum := sum.(notSet := sum.notSet + 1);
      }
      sum := sum.(discount := sum.discount + rec.discount, collected := sum.collected + rec.paid);
      items := items + [rec];
    }
    assert records[..|records|] == records;
  }

  // ---------------------------------------------------------------- collected, per list and per year

  function AmountIn(year: Year): Payment -> int {
    (p: Payment) => if p.account.year == year && !p.voided then p.amount else 0
  }

  predicate Known(db: Db, students: seq<nat>) {
    forall i :: 0 <= i < |students| ==> students[i] in db.students
  }

  /** The unfiltered list of a year: every listed student once, in any order. */
  ghost predicate IsListing(db: Db, students: seq<nat>, year: Year) {
    && Known(db, students)
    && (forall i, j :: 0 <= i < j < |students| ==> students[i] != students[j])
    && (forall s :: s in students <==> Listed(db, s, year))
  }

  function PaidOf(payments: seq<Payment>, year: Year): nat -> int {
    (s: nat) => Paid(payments, Key(s, year))
  }

  lemma {:induction false} SumIndicator(students: seq<nat>, f: nat -> int, g: nat -> int, x: nat, v: int)
    requires forall i, j :: 0 <= i < j < |students| ==> students[i] != students[j]
    requires forall s :: f(s) == g(s) + if s == x then v else 0
    ensures Sum(students, f) == Sum(students, g) + if x in students then v else 0
  {
    if students != [] {
      var n := |students| - 1;
      SumIndicator(students[..n], f, g, x, v);
      assert students == students[..n] + [students[n]];
    }
  }

  /** Adding up what each listed student paid counts every payment of the year exactly once. */
  lemma {:induction false} ListCollects(students: seq<nat>, payments: seq<Payment>, year: Year)
    requires forall i, j :: 0 <= i < j < |students| ==> students[i] != students[j]
    requires forall i :: 0 <= i < |payments| && payments[i].account.year == year ==>
      payments[i].account.student in students
    ensures Sum(students, PaidOf(payments, year)) == Sum(payments, AmountIn(year))
  {
    if payments == [] {
      SumZero(students, PaidOf(payments, year));
    } else {
      var before, p := payments[..|payments| - 1], payments[|payments| - 1];
      ListCollects(students, before, year);
      var v := AmountIn(year)(p);
      SumIndicator(students, PaidOf(payments, year), PaidOf(before, year), p.account.student, v);
    }
  }

  /** total_collected of the unfiltered list is the sum of the year's payments that are not voided. */
  lemma ListCollectsYear(db: Db, students: seq<nat>, year: Year)
    requires Schema(db) && IsListing(db, students, year)
    ensures Sum(students, PaidOf(db.payments, year)) == Sum(db.payments, AmountIn(year))
  {
    forall i | 0 <= i < |db.payments| && db.payments[i].account.year == year
      ensures db.payments[i].account.student in students
    {
      var k := db.payments[i].account;
      assert k == Key(k.student, year) && k in db.accounts;
    }
    ListCollects(students, db.payments, year);
  }

  // ---------------------------------------------------------------- the list of a year

  /** The rows of the year's list. */
  function ListOf(db: Db, students: seq<nat>, year: Year, current: bool): seq<ListRow>
    requires Known(db, students)
  {
    if students == [] then []
    else ListOf(db, students[..|students| - 1], year, current) + [RowOf(db, students[|students| - 1], year, current)]
  }

  lemma {:induction false} ListRowsOk(db: Db, students: seq<nat>, year: Year, current: bool)
    requires Known(db, students)
    ensures RowsOk(ListOf(db, students, year, current))
  {
    if students != [] {
      var init, last := students[..|students| - 1], students[|students| - 1];
      ListRowsOk(db, init, year, current);
      RowIsOk(db, last, year, current);
      RowsOkMore(ListOf(db, init, year, current), RowOf(db, last, year, current));
    }
  }

  lemma RowsOkMore(rows: seq<ListRow>, r: ListRow)
    requires RowsOk(rows) && RowOk(r)
    ensures RowsOk(rows + [r])
  {
  }

  /** The paid figure of a row is what the student paid, also without account. */
  lemma RowPaid(db: Db, student: nat, year: Year, current: bool)
    requires Schema(db) && student in db.students
    ensures RowOf(db, student, year, current).paid == Paid(db.payments, Key(student, year))
  {
    if Key(student, year) !in db.accounts { PaidNothing(db.payments, Key(student, year)); }
  }

  /** The paid column of the list adds up to what the listed students paid. */
  lemma {:induction false} ListPaid(db: Db, students: seq<nat>, year: Year, current: bool)
    requires Schema(db) && Known(db, students)
    ensures Sum(ListOf(db, students, year, current), CollectedFrom) == Sum(students, PaidOf(db.payments, year))
  {
    if students != [] {
      var init, last := students[..|students| - 1], students[|students| - 1];
      ListPaid(db, init, year, current);
      RowPaid(db, last, year, current);
      SumAppend(ListOf(db, init, year, current), RowOf(db, last, year, current), CollectedFrom);
    }
  }

  lemma {:induction false} KeptAll(rows: seq<ListRow>)
    ensures Kept(rows, false) == rows
  {
    if rows != [] {
      KeptAll(rows[..|rows| - 1]);
      assert rows == rows[..|rows| - 1] + [rows[|rows| - 1]];
    }
  }

  /** The total_collected of the year's list without filter: the sum of its paid column. */
  function ListCollected(db: Db, students: seq<nat>, year: Year, current: bool): int
    requires Known(db, students)
  {
    Sum(ListOf(db, students, year, current), CollectedFrom)
  }

  /**
   The tuition list of a year. Without filter its total_collected is the sum of the year's payments
   that are not voided.
   */
  method TuitionList(db: Db, students: seq<nat>, year: Year, current: bool, onlyRemaining: bool)
    returns (sum: Totals, items: seq<ListRow>)
    requires Schema(db) && IsListing(db, students, year)
    ensures items == Kept(ListOf(db, students, year, current), onlyRemaining) && TotalsOf(items, sum)
    ensures sum.remaining == sum.fee - sum.discount - sum.collected
    ensures !onlyRemaining ==>
      sum.collected == ListCollected(db, students, year, current) == Sum(db.payments, AmountIn(year))
  {
    ListRowsOk(db, students, year, current);
    sum, items := Summarize(ListOf(db, students, year, current), onlyRemaining);
    KeptAll(ListOf(db, students, year, current));
    ListPaid(db, students, year, current);
    ListCollectsYear(db, students, year);
  }

  // ---------------------------------------------------------------- the expenses summary

  /** A row that counts, with its key: a month (12 * year + month) or a category. */
  datatype Item = Item(key: nat, amount: int)

  function AmountOf(i: Item): int { i.amount }

  function OfKey(k: nat): Item -> int {
    (i: Item) => if i.key == k then i.amount else 0
  }

  /** SELECT key, SUM(amount) ... GROUP BY key, in any order. */
  ghost predicate IsGrouping(items: seq<Item>, groups: seq<Item>) {
    && DistinctKeys(groups)
    && (forall i :: 0 <= i < |groups| ==> groups[i].amount == Sum(items, OfKey(groups[i].key)))
    && (forall i :: 0 <= i < |items| ==> exists g :: 0 <= g < |groups| && groups[g].key == items[i].key)
  }

  /** GROUP BY over the rows themselves has no empty group. */
  ghost predicate OnlyKeysOf(items: seq<Item>, groups: seq<Item>) {
    forall k :: HasKey(groups, k) ==> HasKey(items, k)
  }

  predicate HasKey(groups: seq<Item>, k: nat) {
    exists g :: 0 <= g < |groups| && groups[g].key == k
  }

  function Keys(groups: seq<Item>): seq<nat> {
    seq(|groups|, i requires 0 <= i < |groups| => groups[i].key)
  }

  function SumOfKey(items: seq<Item>): nat -> int {
    (k: nat) => Sum(items, OfKey(k))
  }

  lemma {:induction false} KeysCount(items: seq<Item>, keys: seq<nat>)
    requires forall i, j :: 0 <= i < j < |keys| ==> keys[i] != keys[j]
    requires forall i :: 0 <= i < |items| ==> items[i].key in keys
    ensures Sum(keys, SumOfKey(items)) == Sum(items, AmountOf)
  {
    if items == [] {
      SumZero(keys, SumOfKey(items));
    } else {
      var before, last := items[..|items| - 1], items[|items| - 1];
      KeysCount(before, keys);
      SumIndicator(keys, SumOfKey(items), SumOfKey(before), last.key, last.amount);
    }
  }

  lemma {:induction false} GroupsByKeys(items: seq<Item>, groups: seq<Item>)
    requires forall i :: 0 <= i < |groups| ==> groups[i].amount == Sum(items, OfKey(groups[i].key))
    ensures Sum(groups, AmountOf) == Sum(Keys(groups), SumOfKey(items))
  {
    if groups != [] {
      GroupsByKeys(items, groups[..|groups| - 1]);
      assert Keys(groups)[..|groups| - 1] == Keys(groups[..|groups| - 1]);
    }
  }

  /** Grouping by any key loses and repeats nothing: the groups add up to the rows. */
  lemma GroupingTotal(items: seq<Item>, groups: seq<Item>)
    requires IsGrouping(items, groups)
    ensures Sum(groups, AmountOf) == Sum(items, AmountOf)
  {
    forall i | 0 <= i < |items| ensures items[i].key in Keys(groups) {
      var g :| 0 <= g < |groups| && groups[g].key == items[i].key;
      assert Keys(groups)[g] == items[i].key;
    }
    GroupsByKeys(items, groups);
    KeysCount(items, Keys(groups));
  }

  datatype Month = Month(month: nat, expenses: int, collected: Option<int>, difference: Option<int>)

  function ExpensesOf(m: Month): int { m.expenses }
  function CollectedOf(m: Month): int { if m.collected.Some? then m.collected.value else 0 }
  function DifferenceOf(m: Month): int { if m.difference.Some? then m.difference.value else 0 }

  predicate DistinctKeys(groups: seq<Item>) {
    forall i, j :: 0 <= i < j < |groups| ==> groups[i].key != groups[j].key
  }

  predicate HasMonth(months: seq<Month>, m: nat) {
    exists i :: 0 <= i < |months| && months[i].month == m
  }

  predicate Ascending(months: seq<Month>) {
    forall i, j :: 0 <= i < j < |months| ==> months[i].month < months[j].month
  }

  /** Each month holds exactly what its groups hold. */
  ghost predicate RightMonth(m: Month, expenses: seq<Item>, collected: seq<Item>) {
    && m.expenses == Sum(expenses, OfKey(m.month)) && CollectedOf(m) == Sum(collected, OfKey(m.month))
    && (HasKey(expenses, m.month) || HasKey(collected, m.month))
  }

  ghost predicate Covers(months: seq<Month>, groups: seq<Item>) {
    forall g :: 0 <= g < |groups| ==> HasMonth(months, groups[g].key)
  }

  /** The months are those of the groups, and each holds exactly what its groups hold. */
  ghost predicate MonthsOf(months: seq<Month>, expenses: seq<Item>, collected: seq<Item>) {
    && (forall i :: 0 <= i < |months| ==> RightMonth(months[i], expenses, collected))
    && Covers(months, expenses) && Covers(months, collected)
  }

  lemma {:induction false} NoKeyNoSum(groups: seq<Item>, k: nat)
    requires !HasKey(groups, k)
    ensures Sum(groups, OfKey(k)) == 0
  {
    SumZero(groups, OfKey(k));
  }

  lemma HasKeyMore(groups: seq<Item>, x: Item, k: nat)
    ensures HasKey(groups + [x], k) <==> (HasKey(groups, k) || x.key == k)
  {
    var more := groups + [x];
    assert more[|groups|] == x && forall g :: 0 <= g < |groups| ==> more[g] == groups[g];
    if HasKey(groups, k) {
      var g :| 0 <= g < |groups| && groups[g].key == k;
      assert more[g].key == k;
    }
  }

  lemma KeySumMore(groups: seq<Item>, x: Item, k: nat)
    ensures Sum(groups + [x], OfKey(k)) == Sum(groups, OfKey(k)) + if x.key == k then x.amount else 0
  {
    SumAppend(groups, x, OfKey(k));
  }

  /** `after` has the months of `months` and, at place i, the month of the key, blank if it is new. */
  ghost predicate Entered(months: seq<Month>, after: seq<Month>, i: nat, key: nat) {
    && i < |after| && after[i].month == key
    && (after == months || (i <= |months| && !HasMonth(months, key)
      && after == months[..i] + [Month(key, 0, None, None)] + months[i..]))
  }

  lemma EnteredMonths(months: seq<Month>, after: seq<Month>, i: nat, key: nat, n: Month)
    requires Entered(months, after, i, key) && n.month == key
    ensures forall m :: HasMonth(after[i := n], m) <==> (HasMonth(months, m) || m == key)
  {
    var done := after[i := n];
    forall m ensures HasMonth(done, m) <==> (HasMonth(months, m) || m == key) {
      assert done[i].month == key;
      if HasMonth(months, m) {
        var k :| 0 <= k < |months| && months[k].month == m;
        assert after == months ==> done[k].month == m;
        assert after != months ==> done[if k < i then k else k + 1].month == m;
      }
    }
  }

  /** Entering the expenses of one more month. */
  lemma ExpenseStep(months: seq<Month>, after: seq<Month>, i: nat, expenses: seq<Item>, x: Item)
    requires Ascending(after) && Entered(months, after, i, x.key) && !HasKey(expenses, x.key)
      && MonthsOf(months, expenses, [])
    ensures MonthsOf(after[i := after[i].(expenses := x.amount)], expenses + [x], [])
  {
    var done := after[i := after[i].(expenses := x.amount)];
    EnteredMonths(months, after, i, x.key, done[i]);
    forall k | 0 <= k < |done| ensures RightMonth(done[k], expenses + [x], []) {
      HasKeyMore(expenses, x, done[k].month);
      KeySumMore(expenses, x, done[k].month);
      if k == i {
        NoKeyNoSum(expenses, x.key);
      } else {
        assert done[k] == months[if after == months || k < i then k else k - 1];
        assert done[k].month != x.key;
      }
    }
    forall g | 0 <= g < |expenses + [x]| ensures HasMonth(done, (expenses + [x])[g].key) {
      if g < |expenses| { assert HasMonth(months, expenses[g].key); }
    }
  }

  /** Entering the collections of one more month. */
  lemma CollectionStep(
    months: seq<Month>, after: seq<Month>, i: nat, expenses: seq<Item>, collected: seq<Item>, x: Item)
    requires Ascending(after) && Entered(months, after, i, x.key) && !HasKey(collected, x.key)
    requires MonthsOf(months, expenses, collected)
    ensures MonthsOf(after[i := after[i].(collected := Some(x.amount))], expenses, collected + [x])
  {
    var done := after[i := after[i].(collected := Some(x.amount))];
    forall k | 0 <= k < |done| ensures RightMonth(done[k], expenses, collected + [x]) {
      if k == i {
        TouchedMonth(months, after, i, expenses, collected, x);
      } else {
        OtherMonth(months, after, i, k, expenses, collected, x);
      }
    }
    EnteredMonths(months, after, i, x.key, done[i]);
    CoversMore(months, done, expenses, collected, x);
  }

  lemma TouchedMonth(months: seq<Month>, after: seq<Month>, i: nat, expenses: seq<Item>, collected: seq<Item>, x: Item)
    requires Entered(months, after, i, x.key) && !HasKey(collected, x.key) && MonthsOf(months, expenses, collected)
    ensures RightMonth(after[i].(collected := Some(x.amount)), expenses, collected + [x])
  {
    HasKeyMore(collected, x, x.key);
    KeySumMore(collected, x, x.key);
    NoKeyNoSum(collected, x.key);
    if after == months {
      assert RightMonth(months[i], expenses, collected);
    } else {
      NotCovered(months, expenses, x.key);
      NoKeyNoSum(expenses, x.key);
    }
  }

  lemma OtherMonth(
    months: seq<Month>, after: seq<Month>, i: nat, k: nat, expenses: seq<Item>, collected: seq<Item>, x: Item)
    requires Ascending(after) && Entered(months, after, i, x.key) && MonthsOf(months, expenses, collected)
    requires k < |after| && k != i
    ensures RightMonth(after[k], expenses, collected + [x])
  {
    var j := if after == months || k < i then k else k - 1;
    assert after[k] == months[j] && after[k].month != x.key;
    assert RightMonth(months[j], expenses, collected);
    HasKeyMore(collected, x, after[k].month);
    KeySumMore(collected, x, after[k].month);
  }

  lemma CoversMore(months: seq<Month>, done: seq<Month>, expenses: seq<Item>, collected: seq<Item>, x: Item)
    requires Covers(months, expenses) && Covers(months, collected)
    requires forall m :: HasMonth(done, m) <==> (HasMonth(months, m) || m == x.key)
    ensures Covers(done, expenses) && Covers(done, collected + [x])
  {
    forall g | 0 <= g < |expenses| ensures HasMonth(done, expenses[g].key) { assert HasMonth(months, expenses[g].key); }
    forall g | 0 <= g < |collected + [x]| ensures HasMonth(done, (collected + [x])[g].key) {
      if g < |collected| { assert HasMonth(months, collected[g].key); }
    }
  }

  lemma FreshKey(groups: seq<Item>, g: nat)
    requires DistinctKeys(groups) && g < |groups|
    ensures !HasKey(groups[..g], groups[g].key)
  {
  }

  lemma StillAscending(months: seq<Month>, i: nat, n: Month)
    requires Ascending(months) && i < |months| && n.month == months[i].month
    ensures Ascending(months[i := n])
  {
  }

  lemma NotCovered(months: seq<Month>, groups: seq<Item>, k: nat)
    requires Covers(months, groups) && !HasMonth(months, k)
    ensures !HasKey(groups, k)
  {
  }

  /** Grouping again by the same key changes nothing: a group sum is the sum of its rows. */
  lemma GroupingAt(items: seq<Item>, groups: seq<Item>, k: nat)
    requires IsGrouping(items, groups)
    ensures Sum(groups, OfKey(k)) == Sum(items, OfKey(k))
    ensures HasKey(groups, k) ==>
      exists g :: 0 <= g < |groups| && groups[g].key == k && groups[g].amount == Sum(items, OfKey(k))
  {
    if HasKey(groups, k) {
      var g :| 0 <= g < |groups| && groups[g].key == k;
      OneKeySum(groups, g);
    } else {
      NoKeyNoSum(groups, k);
      forall i | 0 <= i < |items| ensures items[i].key != k {
        assert exists g :: 0 <= g < |groups| && groups[g].key == items[i].key;
      }
      NoKeyNoSum(items, k);
    }
  }

  lemma {:induction false} OneKeySum(groups: seq<Item>, g: nat)
    requires g < |groups| && DistinctKeys(groups)
    ensures Sum(groups, OfKey(groups[g].key)) == groups[g].amount
  {
    var n := |groups| - 1;
    if g < n { OneKeySum(groups[..n], g); } else { SumZero(groups[..n], OfKey(groups[g].key)); }
  }

  /** The months entry of m, created when it is missing; the months are kept in ascending order. */
  method MonthIndex(months: seq<Month>, m: nat) returns (after: seq<Month>, i: nat)
    requires Ascending(months)
    ensures Ascending(after) && Entered(months, after, i, m)
  {
    i := 0;
    while i < |months| && months[i].month < m
      invariant i <= |months| && forall k :: 0 <= k < i ==> months[k].month < m
    {
      i := i + 1;
    }
    if i < |months| && months[i].month == m {
      after := months;
    } else {
      after := months[..i] + [Month(m, 0, None, None)] + months[i..];
    }
  }

  function MonthKeys(months: seq<Month>): seq<nat> {
    seq(|months|, i requires 0 <= i < |months| => months[i].month)
  }

  lemma {:induction false} SumByMonth(months: seq<Month>, groups: seq<Item>, f: Month -> int)
    requires forall i :: 0 <= i < |months| ==> f(months[i]) == Sum(groups, OfKey(months[i].month))
    ensures Sum(months, f) == Sum(MonthKeys(months), SumOfKey(groups))
  {
    if months != [] {
      var n := |months| - 1;
      SumByMonth(months[..n], groups, f);
      assert MonthKeys(months)[..n] == MonthKeys(months[..n]);
    }
  }

  /** Months that hold exactly their groups add up to all the groups. */
  lemma MonthsTotal(months: seq<Month>, groups: seq<Item>, f: Month -> int)
    requires Ascending(months) && Covers(months, groups)
    requires forall i :: 0 <= i < |months| ==> f(months[i]) == Sum(groups, OfKey(months[i].month))
    ensures Sum(months, f) == Sum(groups, AmountOf)
  {
    SumByMonth(months, groups, f);
    forall g | 0 <= g < |groups| ensures groups[g].key in MonthKeys(months) {
      assert HasMonth(months, groups[g].key);
      var i :| 0 <= i < |months| && months[i].month == groups[g].key;
      assert MonthKeys(months)[i] == groups[g].key;
    }
    KeysCount(groups, MonthKeys(months));
  }

  /** What the months add up to: all the expenses and all the collections. */
  lemma MonthTotals(months: seq<Month>, expenses: seq<Item>, collected: seq<Item>)
    requires Ascending(months) && MonthsOf(months, expenses, collected)
    ensures Sum(months, ExpensesOf) == Sum(expenses, AmountOf) && Sum(months, CollectedOf) == Sum(collected, AmountOf)
  {
    assert forall i :: 0 <= i < |months| ==> RightMonth(months[i], expenses, collected);
    MonthsTotal(months, expenses, ExpensesOf);
    MonthsTotal(months, collected, CollectedOf);
  }

  predicate Unfiltered(m: Month) {
    m.collected.Some? && m.difference == Some(m.collected.value - m.expenses)
  }

  predicate NoCollections(m: Month) {
    m.collected.None? && m.difference.None?
  }

  /** Months of expenses, then of collections, then the differences; collected is None when filtered. */
  method ByMonth(expenses: seq<Item>, collected: Option<seq<Item>>) returns (months: seq<Month>, total: int)
    requires DistinctKeys(expenses) && (collected.Some? ==> DistinctKeys(collected.value))
    ensures Ascending(months) && MonthsOf(months, expenses, if collected.Some? then collected.value else [])
    ensures collected.Some? ==> total == Sum(collected.value, AmountOf)
    ensures forall i :: 0 <= i < |months| ==>
      if collected.Some? then Unfiltered(months[i]) else NoCollections(months[i])
  {
    months := ExpenseMonths(expenses);
    total := 0;
    if collected.Some? {
      months, total := CollectedMonths(months, expenses, collected.value);
      months := Differences(months, expenses, collected.value);
    }
  }

  method ExpenseMonths(expenses: seq<Item>) returns (months: seq<Month>)
    requires DistinctKeys(expenses)
    ensures Ascending(months) && MonthsOf(months, expenses, [])
    ensures forall i :: 0 <= i < |months| ==> NoCollections(months[i])
  {
    months := [];
    for g := 0 to |expenses|
      invariant Ascending(months) && MonthsOf(months, expenses[..g], [])
      invariant forall i :: 0 <= i < |months| ==> NoCollections(months[i])
    {
      var x := expenses[g];
      assert expenses[..g + 1] == expenses[..g] + [x];
      var after, i := MonthIndex(months, x.key);
      FreshKey(expenses, g);
      ExpenseStep(months, after, i, expenses[..g], x);
      StillAscending(after, i, after[i].(expenses := x.amount));
      months := after[i := after[i].(expenses := x.amount)];
    }
    assert expenses[..|expenses|] == expenses;
  }

  method CollectedMonths(start: seq<Month>, ghost expenses: seq<Item>, collected: seq<Item>)
    returns (months: seq<Month>, total: int)
    requires Ascending(start) && DistinctKeys(collected) && MonthsOf(start, expenses, [])
    ensures Ascending(months) && MonthsOf(months, expenses, collected)
    ensures total == Sum(collected, AmountOf)
  {
    months, total := start, 0;
    for g := 0 to |collected|
      invariant Ascending(months) && MonthsOf(months, expenses, collected[..g])
      invariant total == Sum(collected[..g], AmountOf)
    {
      var x := collected[g];
      assert collected[..g + 1] == collected[..g] + [x];
      SumAppend(collected[..g], x, AmountOf);
      var after, i := MonthIndex(months, x.key);
      FreshKey(collected, g);
      CollectionStep(months, after, i, expenses, collected[..g], x);
      StillAscending(after, i, after[i].(collected := Some(x.amount)));
      months := after[i := after[i].(collected := Some(x.amount))];
      total := total + x.amount;
    }
    assert collected[..|collected|] == collected;
  }

  /** The same month, with a missing collection as 0 and the difference filled in. */
  predicate Completed(m: Month, n: Month) {
    n.month == m.month && n.expenses == m.expenses && CollectedOf(n) == CollectedOf(m) && Unfiltered(n)
  }

  lemma CompletedMonths(start: seq<Month>, months: seq<Month>, expenses: seq<Item>, collected: seq<Item>)
    requires |months| == |start| && (forall i :: 0 <= i < |start| ==> Completed(start[i], months[i]))
    requires Ascending(start) && MonthsOf(start, expenses, collected)
    ensures Ascending(months) && MonthsOf(months, expenses, collected)
  {
    forall i | 0 <= i < |months| ensures RightMonth(months[i], expenses, collected) {
      assert Completed(start[i], months[i]) && RightMonth(start[i], expenses, collected);
    }
    forall k | HasMonth(start, k) ensures HasMonth(months, k) {
      var i :| 0 <= i < |start| && start[i].month == k;
      assert Completed(start[i], months[i]);
    }
    forall i, j | 0 <= i < j < |months| ensures months[i].month < months[j].month {
      assert Completed(start[i], months[i]) && Completed(start[j], months[j]);
    }
  }

  method Differences(start: seq<Month>, ghost expenses: seq<Item>, ghost collected: seq<Item>)
    returns (months: seq<Month>)
    requires Ascending(start) && MonthsOf(start, expenses, collected)
    ensures Ascending(months) && MonthsOf(months, expenses, collected)
    ensures forall i :: 0 <= i < |months| ==> Unfiltered(months[i])
  {
    months := [];
    for i := 0 to |start|
      invariant |months| == i && forall k :: 0 <= k < i ==> Completed(start[k], months[k])
    {
      var m := start[i];
      if m.collected.None? { m := m.(collected := Some(0)); }
      months := months + [m.(difference := Some(m.collected.value - m.expenses))];
    }
    CompletedMonths(start, months, expenses, collected);
  }

  // ---------------------------------------------------------------- the reports agree

  datatype Expense = Expense(category: nat, year: Year, month: nat, amount: nat, voided: bool)

  /** The rows the queries sum: of the year, not voided, and of the one category asked for, if any. */
  predicate Counts(e: Expense, year: Year, only: Option<nat>) {
    e.year == year && !e.voided && (only.Some? ==> e.category == only.value)
  }

  function ByCategoryItems(expenses: seq<Expense>, year: Year, only: Option<nat>): seq<Item> {
    if expenses == [] then []
    else
      var e := expenses[|expenses| - 1];
      ByCategoryItems(expenses[..|expenses| - 1], year, only)
        + if Counts(e, year, only) then [Item(e.category, e.amount)] else []
  }

  function ByMonthItems(expenses: seq<Expense>, year: Year, only: Option<nat>): seq<Item> {
    if expenses == [] then []
    else
      var e := expenses[|expenses| - 1];
      ByMonthItems(expenses[..|expenses| - 1], year, only)
        + if Counts(e, year, only) then [Item(e.month, e.amount)] else []
  }

  /** months[i] is the month in which payment i was made. */
  function PaymentItems(payments: seq<Payment>, months: seq<nat>, year: Year): seq<Item>
    requires |months| == |payments|
  {
    if payments == [] then []
    else
      var n := |payments| - 1;
      PaymentItems(payments[..n], months[..n], year)
      + if payments[n].account.year == year && !payments[n].voided then [Item(months[n], payments[n].amount)] else []
  }

  lemma {:induction false} SameItems(expenses: seq<Expense>, year: Year, only: Option<nat>)
    ensures Sum(ByCategoryItems(expenses, year, only), AmountOf) == Sum(ByMonthItems(expenses, year, only), AmountOf)
  {
    if expenses != [] {
      var before, e := expenses[..|expenses| - 1], expenses[|expenses| - 1];
      SameItems(before, year, only);
      var c, m := ByCategoryItems(before, year, only), ByMonthItems(before, year, only);
      if Counts(e, year, only) {
        SumAppend(c, Item(e.category, e.amount), AmountOf);
        SumAppend(m, Item(e.month, e.amount), AmountOf);
      } else {
        assert c + [] == c && m + [] == m;
      }
    }
  }

  lemma {:induction false} PaymentItemsTotal(payments: seq<Payment>, months: seq<nat>, year: Year)
    requires |months| == |payments|
    ensures Sum(PaymentItems(payments, months, year), AmountOf) == Sum(payments, AmountIn(year))
  {
    if payments != [] {
      var n := |payments| - 1;
      PaymentItemsTotal(payments[..n], months[..n], year);
      var items := PaymentItems(payments[..n], months[..n], year);
      SumAppend(items, Item(months[n], payments[n].amount), AmountOf);
      assert items + [] == items;
    }
  }

  datatype Summary = Summary(spent: int, collected: Option<int>, difference: Option<int>, byMonth: seq<Month>)

  /** The answer of the summary, from the answers of its queries. */
  ghost predicate IsSummary(
    only: Option<nat>, categories: seq<Item>, expenseMonths: seq<Item>, paymentMonths: seq<Item>, s: Summary)
  {
    && s.spent == Sum(categories, AmountOf)
    && s.collected == (if only.None? then Some(Sum(paymentMonths, AmountOf)) else None)
    && s.difference == (if only.None? then Some(s.collected.value - s.spent) else None)
    && Ascending(s.byMonth) && MonthsOf(s.byMonth, expenseMonths, if only.None? then paymentMonths else [])
    && forall i :: 0 <= i < |s.byMonth| ==> if only.None? then Unfiltered(s.byMonth[i]) else NoCollections(s.byMonth[i])
  }

  method ExpensesSummary(only: Option<nat>, categories: seq<Item>, expenseMonths: seq<Item>, paymentMonths: seq<Item>)
    returns (s: Summary)
    requires DistinctKeys(expenseMonths) && DistinctKeys(paymentMonths)
    ensures IsSummary(only, categories, expenseMonths, paymentMonths, s)
  {
    var spent := CategoryTotal(categories);
    var months, total := ByMonth(expenseMonths, if only.None? then Some(paymentMonths) else None);
    s := Summary(spent, None, None, months);
    if only.None? {
      s := Summary(spent, Some(total), Some(total - spent), months);
    }
  }

  /** SELECT key, SUM(amount) ... GROUP BY key over the rows themselves: no group is empty. */
  ghost predicate IsGroupBy(items: seq<Item>, groups: seq<Item>) {
    IsGrouping(items, groups) && OnlyKeysOf(items, groups)
  }

  /**
   On one snapshot the category totals, in which every expense has its category, and the month totals
   both add up to the year's expenses.
   */
  lemma SpentAgrees(
    expenses: seq<Expense>, year: Year, only: Option<nat>,
    categories: seq<Item>, expenseMonths: seq<Item>, paymentMonths: seq<Item>, s: Summary)
    requires IsGrouping(ByCategoryItems(expenses, year, only), categories)
    requires IsGroupBy(ByMonthItems(expenses, year, only), expenseMonths)
    requires IsSummary(only, categories, expenseMonths, paymentMonths, s)
    ensures s.spent == Sum(s.byMonth, ExpensesOf) == Sum(ByMonthItems(expenses, year, only), AmountOf)
  {
    GroupingTotal(ByCategoryItems(expenses, year, only), categories);
    GroupingTotal(ByMonthItems(expenses, year, only), expenseMonths);
    SameItems(expenses, year, only);
    MonthTotals(s.byMonth, expenseMonths, if only.None? then paymentMonths else []);
  }

  /** On one snapshot, without a category filter, the difference is the sum of the monthly differences. */
  lemma DifferenceAgrees(
    expenses: seq<Expense>, year: Year,
    categories: seq<Item>, expenseMonths: seq<Item>, paymentMonths: seq<Item>, s: Summary)
    requires IsGrouping(ByCategoryItems(expenses, year, None), categories)
    requires IsGroupBy(ByMonthItems(expenses, year, None), expenseMonths)
    requires IsSummary(None, categories, expenseMonths, paymentMonths, s)
    ensures s.difference == Some(Sum(s.byMonth, DifferenceOf))
  {
    hide Sum, IsSummary, IsGrouping, IsGroupBy, ByCategoryItems, ByMonthItems;
    SpentAgrees(expenses, year, None, categories, expenseMonths, paymentMonths, s);
    SummaryDifference(categories, expenseMonths, paymentMonths, s);
  }

  /** The months of payments sum what the tuition list collects. */
  lemma PaymentMonthsTotal(
    db: Db, students: seq<nat>, year: Year, current: bool, paidIn: seq<nat>, paymentMonths: seq<Item>)
    requires Schema(db) && IsListing(db, students, year)
    requires |paidIn| == |db.payments| && IsGroupBy(PaymentItems(db.payments, paidIn, year), paymentMonths)
    ensures Sum(paymentMonths, AmountOf) == ListCollected(db, students, year, current)
  {
    GroupingTotal(PaymentItems(db.payments, paidIn, year), paymentMonths);
    PaymentItemsTotal(db.payments, paidIn, year);
    ListCollectsYear(db, students, year);
    ListPaid(db, students, year, current);
  }

  /**
   On one snapshot, without a category filter, collected is the total_collected of the year's
   unfiltered tuition list and the sum of the months; the difference and the monthly differences are
   what is left of it after the category totals and after the monthly expenses.
   */
  lemma CollectedAgrees(
    db: Db, students: seq<nat>, year: Year, current: bool, paidIn: seq<nat>,
    categories: seq<Item>, expenseMonths: seq<Item>, paymentMonths: seq<Item>, s: Summary)
    requires Schema(db) && IsListing(db, students, year)
    requires |paidIn| == |db.payments| && IsGroupBy(PaymentItems(db.payments, paidIn, year), paymentMonths)
    requires IsSummary(None, categories, expenseMonths, paymentMonths, s)
    ensures var collected := ListCollected(db, students, year, current);
      && s.collected == Some(collected) == Some(Sum(s.byMonth, CollectedOf))
      && s.difference == Some(collected - s.spent)
      && Sum(s.byMonth, DifferenceOf) == collected - Sum(s.byMonth, ExpensesOf)
  {
    hide Sum, IsSummary, IsListing, IsGroupBy, PaymentItems, ListCollected;
    PaymentMonthsTotal(db, students, year, current, paidIn, paymentMonths);
    SummaryDifference(categories, expenseMonths, paymentMonths, s);
  }

  lemma SummaryDifference(categories: seq<Item>, expenseMonths: seq<Item>, paymentMonths: seq<Item>, s: Summary)
    requires IsSummary(None, categories, expenseMonths, paymentMonths, s)
    ensures var collected := Sum(paymentMonths, AmountOf);
      && s.collected == Some(collected) == Some(Sum(s.byMonth, CollectedOf))
      && s.difference == Some(collected - s.spent)
      && Sum(s.byMonth, DifferenceOf) == collected - Sum(s.byMonth, ExpensesOf)
  {
    MonthTotals(s.byMonth, expenseMonths, paymentMonths);
    UnfilteredDifference(s.byMonth);
  }

  /** The payments that count towards the collected amounts: none with a category filter. */
  function CollectedItems(payments: seq<Payment>, paidIn: seq<nat>, year: Year, only: Option<nat>): seq<Item>
    requires |paidIn| == |payments|
  {
    if only.None? then PaymentItems(payments, paidIn, year) else []
  }

  /** Each month of the summary holds exactly the sums of its own rows, and no month is missing. */
  lemma MonthsAgree(
    payments: seq<Payment>, year: Year, expenses: seq<Expense>, paidIn: seq<nat>, only: Option<nat>,
    categories: seq<Item>, expenseMonths: seq<Item>, paymentMonths: seq<Item>, s: Summary)
    requires |paidIn| == |payments| && IsGroupBy(PaymentItems(payments, paidIn, year), paymentMonths)
    requires IsGroupBy(ByMonthItems(expenses, year, only), expenseMonths)
    requires IsSummary(only, categories, expenseMonths, paymentMonths, s)
    ensures MonthsOf(s.byMonth, ByMonthItems(expenses, year, only), CollectedItems(payments, paidIn, year, only))
  {
    if only.None? {
      MonthsOfRows(s.byMonth, expenseMonths, paymentMonths, ByMonthItems(expenses, year, only),
        PaymentItems(payments, paidIn, year));
    } else {
      MonthsOfRows(s.byMonth, expenseMonths, [], ByMonthItems(expenses, year, only), []);
    }
  }

  /** Months right for the groups are right for the rows. */
  lemma MonthsOfRows(
    months: seq<Month>, expenses: seq<Item>, collected: seq<Item>, spentRows: seq<Item>, paidRows: seq<Item>)
    requires MonthsOf(months, expenses, collected) && IsGroupBy(spentRows, expenses) && IsGroupBy(paidRows, collected)
    ensures MonthsOf(months, spentRows, paidRows)
  {
    forall i | 0 <= i < |months| ensures RightMonth(months[i], spentRows, paidRows) {
      GroupingAt(spentRows, expenses, months[i].month);
      GroupingAt(paidRows, collected, months[i].month);
    }
    CoversRows(months, expenses, spentRows);
    CoversRows(months, collected, paidRows);
  }

  lemma CoversRows(months: seq<Month>, groups: seq<Item>, rows: seq<Item>)
    requires Covers(months, groups) && IsGrouping(rows, groups)
    ensures Covers(months, rows)
  {
    forall i | 0 <= i < |rows| ensures HasMonth(months, rows[i].key) {
      var g :| 0 <= g < |groups| && groups[g].key == rows[i].key;
      assert HasMonth(months, groups[g].key);
    }
  }

  method CategoryTotal(categories: seq<Item>) returns (spent: int)
    ensures spent == Sum(categories, AmountOf)
  {
    spent := 0;
    for i := 0 to |categories|
      invariant spent == Sum(categories[..i], AmountOf)
    {
      assert categories[..i + 1][..i] == categories[..i];
      spent := spent + categories[i].amount;
    }
    assert categories[..|categories|] == categories;
  }

  lemma UnfilteredDifference(months: seq<Month>)
    requires forall i :: 0 <= i < |months| ==> Unfiltered(months[i])
    ensures Sum(months, DifferenceOf) == Sum(months, CollectedOf) - Sum(months, ExpensesOf)
  {
    SumSplit(months, CollectedOf, DifferenceOf, ExpensesOf);
  }
}
