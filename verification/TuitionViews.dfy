/**
 What the ledger shows: the tuition list (tuitionRows in internal/handlers/tuition.go), what a year
 switch does to it, and how long a year that is no longer current stays as it was.
 */
module TuitionViews {
  import opened Wrappers
  import opened TuitionLedger

  /** One student's figures for a year. */
  datatype ListRow = ListRow(grade: Option<Grade>, fee: Option<nat>, discount: nat, paid: nat, remaining: Option<int>)

  /** The list has the active students and every student with an account that year. */
  predicate Listed(db: Db, student: nat, year: Year) {
    student in db.students && (db.students[student].active || Key(student, year) in db.accounts)
  }

  /** An account's frozen figures win; without one, the current year uses the grade's fee live. */
  function RowOf(db: Db, student: nat, year: Year, current: bool): ListRow
    requires student in db.students
  {
    var k := Key(student, year);
    var s := db.students[student];
    if k in db.accounts then
      var a := db.accounts[k];
      var paid := Paid(db.payments, k);
      ListRow(Some(a.grade), Some(a.fee), a.discount, paid, Some(a.fee - a.discount - paid))
    else
      var fee := if current then LiveFee(db.fees, s, year) else None;
      var grade := LiveGrade(s);
      ListRow(if grade == Some("") then None else grade, fee, 0, 0, if fee.Some? then Some(fee.value as int) else None)
  }

  /** Freezing keeps the list: the same students, each with the same row, live before and frozen after. */
  lemma FreezeKeepsView(db: Db, u: Db, student: nat)
    requires Schema(db) && u == db.(accounts := db.accounts + FreezeRows(db), year := u.year)
    ensures Listed(db, student, db.year) <==> Listed(u, student, db.year)
    ensures Listed(db, student, db.year) ==> RowOf(db, student, db.year, true) == RowOf(u, student, db.year, false)
  {
    var k := Key(student, db.year);
    if student in db.students && k !in db.accounts {
      PaidNothing(db.payments, k);
      assert k in FreezeRows(db) <==> db.students[student].active && FromFee(db, k).Some?;
    }
  }

  /**
   Committing a year switch leaves the ending year's list as it was: the same students, each with the
   same grade, fee, discount, payments and remaining, live just before and frozen just after. The
   students must be those its INSERT saw: a student edited in between is not locked.
   */
  lemma SwitchKeepsView(s: System, id: TxId, student: nat)
    requires Invariant(s) && id in s.txs && s.txs[id].Frozen?
    requires s.db.students == s.txs[id].seen
    ensures var db, u, year := s.db, Do(s, Commit(id)).db, s.db.year;
      && u.year != year
      && (Listed(db, student, year) <==> Listed(u, student, year))
      && (Listed(db, student, year) ==> RowOf(db, student, year, true) == RowOf(u, student, year, false))
  {
    assert s.db.(students := s.txs[id].seen) == s.db;
    FreezeKeepsView(s.db, Do(s, Commit(id)).db, student);
  }

  /** What the INSERT froze for a student is what it would freeze at the commit: nothing, or the same grade. */
  predicate Undisturbed(db: Db, seen: map<nat, Student>, student: nat) {
    var frozen := student in seen && seen[student].active && LiveFee(db.fees, seen[student], db.year).Some?;
    if frozen then
      && student in db.students && db.students[student].active
      && LiveGrade(db.students[student]) == LiveGrade(seen[student])
    else student in db.students && db.students[student].active ==> LiveFee(db.fees, db.students[student], db.year).None?
  }

  /**
   Exactly when the switch keeps a student's row: the student had an account, or was not edited
   between the INSERT and the commit in a way that changes what is frozen.
   */
  lemma SwitchKeepsViewExactly(s: System, id: TxId, student: nat)
    requires Invariant(s) && id in s.txs && s.txs[id].Frozen?
    ensures var db, u, year := s.db, Do(s, Commit(id)).db, s.db.year;
      ((Listed(db, student, year) <==> Listed(u, student, year))
       && (Listed(db, student, year) ==> RowOf(db, student, year, true) == RowOf(u, student, year, false)))
      <==> (Key(student, year) in db.accounts || Undisturbed(db, s.txs[id].seen, student))
  {
    var db, k := s.db, Key(student, s.db.year);
    assert TxOk(db, s.txs[id]);
    if k !in db.accounts {
      PaidNothing(db.payments, k);
      FrozenRow(db.(students := s.txs[id].seen), student);
    }
  }

  /** The row that the INSERT creates for a student without account. */
  lemma FrozenRow(db: Db, student: nat)
    requires Key(student, db.year) !in db.accounts
    ensures var k, rows := Key(student, db.year), FreezeRows(db);
      if student in db.students && db.students[student].active
        && LiveFee(db.fees, db.students[student], db.year).Some? then
        var s := db.students[student];
        k in rows && rows[k] == Account(LiveGrade(s).value, LiveFee(db.fees, s, db.year).value, 0)
      else k !in rows
  {
  }

  const YEAR: Year := "2026-2027"
  const NEXT_YEAR: Year := "2027-2028"
  const EXAMPLE := Db(YEAR, map[1 := Student(Some("A"), true)], map[(YEAR, "A") := 100, (YEAR, "B") := 200], map[], [])

  /** A switch transaction whose student moves from grade A to grade B after its INSERT. */
  function Example(n: nat): System {
    if n == 0 then System(EXAMPLE, map[])
    else if n == 1 then System(EXAMPLE, map[0 := Begun(SwitchYear(NEXT_YEAR))])
    else if n == 2 then System(EXAMPLE, map[0 := SettingLocked(NEXT_YEAR, YEAR)])
    else if n == 3 then System(EXAMPLE, map[0 := Frozen(NEXT_YEAR, YEAR, FreezeRows(EXAMPLE), EXAMPLE.students)])
    else System(EXAMPLE.(students := EXAMPLE.students[1 := Student(Some("B"), true)]), Example(3).txs)
  }

  lemma ExampleStep(n: nat)
    requires n < 4
    ensures Next(Example(n), Example(n + 1))
  {
    var s := Example(n);
    assert YEAR[3] != NEXT_YEAR[3];
    var a :=
      if n == 0 then Begin(0, SwitchYear(NEXT_YEAR)) else if n == 1 then Run(0, LockSetting)
      else if n == 2 then Run(0, Freeze) else EditStudent(1, Student(Some("B"), true));
    assert Can(s, a) && Do(s, a).txs == Example(n + 1).txs && Do(s, a) == Example(n + 1);
  }

  /** The condition is needed: a grade edited between the INSERT and the commit moves the row. */
  lemma GradeEditMovesView() returns (run: seq<System>)
    ensures IsExecution(run)
    ensures var s := run[|run| - 1];
      && 0 in s.txs && s.txs[0].Frozen? && Can(s, Commit(0)) && Listed(s.db, 1, s.db.year)
      && RowOf(s.db, 1, s.db.year, true) != RowOf(Do(s, Commit(0)).db, 1, s.db.year, false)
  {
    run := seq(5, n requires 0 <= n => Example(n));
    forall i | 0 < i < |run| ensures Stepped(run, i) { ExampleStep(i - 1); }
    OneStudentFreeze(EXAMPLE, YEAR);
    ExampleRows(Example(4));
  }

  lemma ExampleRows(s: System)
    requires s == Example(4) && FreezeRows(EXAMPLE) == map[Key(1, YEAR) := Account("A", 100, 0)]
    ensures RowOf(s.db, 1, YEAR, true).fee == Some(200)
    ensures RowOf(Committed(s.db, s.txs[0]), 1, YEAR, false).fee == Some(100)
  {
    assert Btrim("B") == "B";
    assert Key(1, YEAR) in Committed(s.db, s.txs[0]).accounts;
  }

  lemma OneStudentFreeze(db: Db, y: Year)
    requires db == Db(y, map[1 := Student(Some("A"), true)], map[(y, "A") := 100, (y, "B") := 200], map[], [])
    ensures FreezeRows(db) == map[Key(1, y) := Account("A", 100, 0)]
  {
    var k := Key(1, y);
    assert Btrim("A") == "A";
    assert FromFee(db, k) == Some(Account("A", 100, 0));
    assert AllKeys(db) == {k};
  }

  // ---------------------------------------------------------------- a year that is not current

  /** The action commits a discount on the account. */
  predicate DiscountsOn(s: System, a: Action, k: Key) {
    a.Commit? && a.id in s.txs && s.txs[a.id].Wrote? && s.txs[a.id].write.SetDiscount? && s.txs[a.id].write.key == k
  }

  /**
   While a year is not current, no step creates an account of it or changes the grade or fee of one;
   only a discount set on it changes an account at all.
   */
  lemma OtherYearStep(s: System, a: Action, k: Key)
    requires Invariant(s) && Can(s, a) && k.year != s.db.year
    ensures var u := Do(s, a);
      && (k in u.db.accounts <==> k in s.db.accounts)
      && (k in s.db.accounts ==>
        u.db.accounts[k].grade == s.db.accounts[k].grade && u.db.accounts[k].fee == s.db.accounts[k].fee)
      && (k in s.db.accounts && !DiscountsOn(s, a, k) ==> u.db.accounts[k] == s.db.accounts[k])
  {
    if a.Commit? {
      assert TxOk(s.db, s.txs[a.id]);
    }
  }

  /** A step that commits a discount on the account. */
  ghost predicate Discounts(s: System, u: System, k: Key) {
    exists a :: Can(s, a) && u == Do(s, a) && DiscountsOn(s, a, k)
  }

  /** The account is there or not as before, with the same grade and fee. */
  predicate SamePrice(db: Db, u: Db, k: Key) {
    && (k in u.accounts <==> k in db.accounts)
    && (k in db.accounts ==> u.accounts[k].grade == db.accounts[k].grade && u.accounts[k].fee == db.accounts[k].fee)
  }

  predicate SameAccount(db: Db, u: Db, k: Key) {
    (k in u.accounts <==> k in db.accounts) && (k in db.accounts ==> u.accounts[k] == db.accounts[k])
  }

  lemma OtherYearNext(s: System, u: System, k: Key)
    requires Invariant(s) && Next(s, u) && k.year != s.db.year
    ensures SamePrice(s.db, u.db, k) && (!Discounts(s, u, k) ==> SameAccount(s.db, u.db, k))
  {
    var a :| Can(s, a) && u == Do(s, a);
    OtherYearStep(s, a, k);
  }

  /** Step n of the run. */
  lemma OtherYearAt(run: seq<System>, n: nat, k: Key)
    requires IsExecution(run) && 0 < n < |run| && run[n - 1].db.year != k.year
    ensures SamePrice(run[n - 1].db, run[n].db, k)
    ensures !DiscountsAt(run, n, k) ==> SameAccount(run[n - 1].db, run[n].db, k)
  {
    NeverNegative(run, n - 1);
    assert Stepped(run, n);
    OtherYearNext(run[n - 1], run[n], k);
  }

  ghost predicate DiscountsAt(run: seq<System>, n: nat, k: Key) {
    0 < n < |run| && Discounts(run[n - 1], run[n], k)
  }

  /** What holds from each step to the next holds over the stretch. */
  lemma {:induction false} SameOver(run: seq<System>, i: nat, j: nat, k: Key, discounts: nat -> bool)
    requires i <= j < |run|
    requires forall n :: i < n <= j ==> SamePrice(run[n - 1].db, run[n].db, k)
    requires forall n :: i < n <= j && !discounts(n) ==> SameAccount(run[n - 1].db, run[n].db, k)
    ensures SamePrice(run[i].db, run[j].db, k)
    ensures (forall n :: i < n <= j ==> !discounts(n)) ==> SameAccount(run[i].db, run[j].db, k)
    decreases j
  {
    if i < j { SameOver(run, i, j - 1, k, discounts); }
  }

  /**
   From step i to step j, as long as the year is never current in between: no account of it appears
   or changes grade or fee, and an account changes at all only when some step sets a discount on it.
   */
  lemma OtherYearFrozen(run: seq<System>, i: nat, j: nat, k: Key)
    requires IsExecution(run) && i <= j < |run|
    requires forall n :: i <= n < j ==> run[n].db.year != k.year
    ensures SamePrice(run[i].db, run[j].db, k)
    ensures (forall n :: i < n <= j ==> !DiscountsAt(run, n, k)) ==> SameAccount(run[i].db, run[j].db, k)
  {
    forall n | i < n <= j
      ensures SamePrice(run[n - 1].db, run[n].db, k)
      ensures !DiscountsAt(run, n, k) ==> SameAccount(run[n - 1].db, run[n].db, k)
    {
      OtherYearAt(run, n, k);
    }
    SameOver(run, i, j, k, (n: nat) => DiscountsAt(run, n, k));
  }
}
