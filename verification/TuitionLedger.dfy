/**
 The tuition ledger (internal/handlers/tuition.go) under concurrency. Payment, discount, void, fee
 and year-switch transactions run statement by statement and interleave freely; the locks they hold
 to commit are the academic-year setting (FOR SHARE or FOR UPDATE), account rows, payment rows, fee
 rows and the unique key of an account being inserted. Each statement sees the committed data and the
 transaction's own writes. apply_to_existing is one atomic step.

 An account is identified by its unique key (student, year); a payment by its place in the history,
 which only grows.
 */
module TuitionLedger {
  import opened Wrappers

  type Year = string
  type Grade = string
  type TxId = nat

  const MAX_AMOUNT := 1_000_000_000

  datatype Student = Student(grade: Option<Grade>, active: bool)

  datatype Key = Key(student: nat, year: Year)

  datatype Account = Account(grade: Grade, fee: nat, discount: nat)

  datatype Payment = Payment(account: Key, amount: nat, voided: bool)

  datatype Db = Db(
    year: Year,
    students: map<nat, Student>,
    fees: map<(Year, Grade), nat>,
    accounts: map<Key, Account>,
    payments: seq<Payment>)

  /** btrim: spaces only. */
  function Btrim(s: string): string {
    if s != "" && s[0] == ' ' then Btrim(s[1..])
    else if s != "" && s[|s| - 1] == ' ' then Btrim(s[..|s| - 1])
    else s
  }

  function LiveGrade(s: Student): Option<Grade> {
    if s.grade.None? then None else Some(Btrim(s.grade.value))
  }

  /** The fee that the student's grade has in the year, if any. */
  function LiveFee(fees: map<(Year, Grade), nat>, s: Student, year: Year): Option<nat> {
    var g := LiveGrade(s);
    if g.Some? && (year, g.value) in fees then Some(fees[(year, g.value)]) else None
  }

  /** The sum of an account's payments that are not voided. */
  function Paid(payments: seq<Payment>, k: Key): nat {
    if payments == [] then 0
    else
      var p := payments[|payments| - 1];
      Paid(payments[..|payments| - 1], k) + if p.account == k && !p.voided then p.amount else 0
  }

  // ---------------------------------------------------------------- transactions

  /** A write that locks an account: a new discount, or a payment. */
  datatype Write = SetDiscount(key: Key, amount: nat) | Pay(key: Key, amount: nat)

  datatype Request =
    | Ledger(write: Write)
    | VoidPayment(id: nat)
    | SaveFee(grade: Grade, fee: nat)
    | SwitchYear(to: Year)

  /** amountProblem and the grade check, made before the transaction begins. */
  predicate ValidRequest(r: Request) {
    match r
    case Ledger(SetDiscount(_, amount)) => amount <= MAX_AMOUNT
    case Ledger(Pay(_, amount)) => 1 <= amount <= MAX_AMOUNT
    case SaveFee(grade, fee) => grade != "" && 1 <= fee <= MAX_AMOUNT
    case _ => true
  }

  /**
   Where a transaction stands, with what it has read and written. `own` is the account it inserted
   itself; Frozen keeps the students its INSERT saw.
   */
  datatype Tx =
    | Begun(req: Request)
    | Shared(write: Write, current: bool)
    | Ready(write: Write, own: Option<Account>)
    | Locked(write: Write, own: Option<Account>, fee: nat, discount: nat)
    | Summed(write: Write, own: Option<Account>, fee: nat, discount: nat, paid: nat)
    | Wrote(write: Write, own: Option<Account>, fee: nat, discount: nat, paid: nat)
    | PaymentLocked(id: nat)
    | PaymentWritten(id: nat)
    | FeeShared(grade: Grade, amount: nat, year: Year)
    | FeeWritten(grade: Grade, amount: nat, year: Year)
    | SettingLocked(to: Year, was: Year)
    | Frozen(to: Year, was: Year, rows: map<Key, Account>, seen: map<nat, Student>)

  datatype System = System(db: Db, txs: map<TxId, Tx>)

  predicate SharesSetting(t: Tx) {
    t.Shared? || t.Ready? || HasAccount(t) || t.FeeShared? || t.FeeWritten?
  }

  predicate OwnsSetting(t: Tx) {
    t.SettingLocked? || t.Frozen?
  }

  predicate HasAccount(t: Tx) {
    t.Locked? || t.Summed? || t.Wrote?
  }

  predicate HoldsAccount(t: Tx, k: Key) {
    HasAccount(t) && t.write.key == k
  }

  predicate Inserting(t: Tx, k: Key) {
    (t.Ready? || HasAccount(t)) && t.own.Some? && t.write.key == k
  }

  predicate HoldsPayment(t: Tx, id: nat) {
    (t.PaymentLocked? || t.PaymentWritten?) && t.id == id
  }

  predicate HoldsFee(t: Tx, year: Year, grade: Grade) {
    t.FeeWritten? && t.year == year && t.grade == grade
  }

  /** Locks held by two transactions never conflict. */
  predicate Compatible(a: Tx, b: Tx) {
    && !(OwnsSetting(a) && (OwnsSetting(b) || SharesSetting(b))) && !(OwnsSetting(b) && SharesSetting(a))
    && (HasAccount(a) ==> !HoldsAccount(b, a.write.key))
    && ((a.Ready? || HasAccount(a)) && a.own.Some? ==> !Inserting(b, a.write.key))
    && (a.PaymentLocked? || a.PaymentWritten? ==> !HoldsPayment(b, a.id))
    && (a.FeeWritten? ==> !HoldsFee(b, a.year, a.grade))
  }

  /** The account that a fee gives: the grade's fee, no discount. */
  function FromFee(db: Db, k: Key): Option<Account> {
    if k.student !in db.students then None
    else
      var f := LiveFee(db.fees, db.students[k.student], k.year);
      if f.None? then None else Some(Account(LiveGrade(db.students[k.student]).value, f.value, 0))
  }

  /** The accounts the year switch creates: active students whose grade has a fee, without account. */
  function FreezeRows(db: Db): map<Key, Account> {
    map k | k in AllKeys(db) && db.students[k.student].active && k !in db.accounts && FromFee(db, k).Some?
      :: FromFee(db, k).value
  }

  /** The keys that accounts of the current year have or could have. */
  function AllKeys(db: Db): (keys: set<Key>)
    ensures forall k :: k in keys <==> k.student in db.students && k.year == db.year
  {
    set s | s in db.students :: Key(s, db.year)
  }

  /** The current-year accounts of the students now in the grade. */
  predicate Repriced(db: Db, grade: Grade, k: Key) {
    k in db.accounts && k.year == db.year && k.student in db.students
      && LiveGrade(db.students[k.student]) == Some(grade)
  }

  datatype Statement =
    /** SELECT the setting FOR SHARE, or FOR UPDATE in a year switch */
    | LockSetting
    /** In the current year, INSERT the account ON CONFLICT DO NOTHING */
    | InsertAccount
    /** SELECT the account FOR UPDATE */
    | LockAccount
    /** SELECT the sum of the account's payments */
    | SumPayments
    /** The check, and the INSERT of the payment or the UPDATE of the discount */
    | WriteLedger
    /** SELECT the payment FOR UPDATE; it must not be voided */
    | LockPayment
    | WritePayment
    | WriteFee
    /** INSERT the accounts of the year that ends; then UPDATE the setting */
    | Freeze

  /** What a statement makes of a transaction, None when it does not apply or the request is refused. */
  function Execute(db: Db, t: Tx, st: Statement): Option<Tx> {
    match st
    case LockSetting =>
      if !t.Begun? then None
      else (match t.req
        case Ledger(w) => Some(Shared(w, w.key.year == db.year))
        case SaveFee(grade, fee) => Some(FeeShared(grade, fee, db.year))
        case SwitchYear(to) => if to == db.year then None else Some(SettingLocked(to, db.year))
        case VoidPayment(_) => None)
    case InsertAccount =>
      if !t.Shared? || t.write.key.student !in db.students then None
      else Some(Ready(t.write, if t.current && t.write.key !in db.accounts then FromFee(db, t.write.key) else None))
    case LockAccount =>
      if !t.Ready? then None
      else if t.own.Some? then Some(Locked(t.write, t.own, t.own.value.fee, t.own.value.discount))
      else if t.write.key in db.accounts
      then Some(Locked(t.write, None, db.accounts[t.write.key].fee, db.accounts[t.write.key].discount))
      else None
    case SumPayments =>
      if t.Locked? then Some(Summed(t.write, t.own, t.fee, t.discount, Paid(db.payments, t.write.key))) else None
    case WriteLedger =>
      if t.Summed? && t.write.amount + t.paid + (if t.write.Pay? then t.discount else 0) <= t.fee
      then Some(Wrote(t.write, t.own, t.fee, t.discount, t.paid)) else None
    case LockPayment =>
      if t.Begun? && t.req.VoidPayment? && t.req.id < |db.payments| && !db.payments[t.req.id].voided
      then Some(PaymentLocked(t.req.id)) else None
    case WritePayment => if t.PaymentLocked? then Some(PaymentWritten(t.id)) else None
    case WriteFee => if t.FeeShared? then Some(FeeWritten(t.grade, t.amount, t.year)) else None
    case Freeze => if t.SettingLocked? then Some(Frozen(t.to, t.was, FreezeRows(db), db.students)) else None
  }

  predicate Committable(t: Tx) {
    t.Wrote? || t.PaymentWritten? || t.FeeWritten? || t.Frozen?
  }

  /** The database once the transaction has committed. */
  function Committed(db: Db, t: Tx): Db {
    match t
    case Wrote(w, own, _, _, _) =>
      var accounts := if own.Some? then db.accounts[w.key := own.value] else db.accounts;
      (match w
        case Pay(key, amount) => db.(accounts := accounts, payments := db.payments + [Payment(key, amount, false)])
        case SetDiscount(key, amount) =>
          db.(accounts := if key in accounts then accounts[key := accounts[key].(discount := amount)] else accounts))
    case PaymentWritten(id) =>
      if id < |db.payments| then db.(payments := db.payments[id := db.payments[id].(voided := true)]) else db
    case FeeWritten(grade, fee, year) => db.(fees := db.fees[(year, grade) := fee])
    case Frozen(to, _, rows, _) => db.(accounts := db.accounts + rows, year := to)
    case _ => db
  }

  function Applied(db: Db, grade: Grade, fee: nat): Db {
    db.(fees := db.fees[(db.year, grade) := fee],
        accounts := map k | k in db.accounts ::
          if Repriced(db, grade, k) then db.accounts[k].(grade := grade, fee := fee) else db.accounts[k])
  }

  datatype Action =
    | Begin(id: TxId, req: Request)
    | Run(id: TxId, st: Statement)
    | Commit(id: TxId)
    | Abort(id: TxId)
    | ApplyFee(grade: Grade, fee: nat)
    | EditStudent(student: nat, value: Student)

  /** A statement waits until the locks it takes are free; a refused request can only abort. */
  predicate Can(s: System, a: Action) {
    match a
    case Begin(id, req) => id !in s.txs && ValidRequest(req)
    case Run(id, st) =>
      && id in s.txs
      && var after := Execute(s.db, s.txs[id], st);
         after.Some? && forall i :: i in s.txs && i != id ==>
           Compatible(after.value, s.txs[i]) && Compatible(s.txs[i], after.value)
    case Commit(id) => id in s.txs && Committable(s.txs[id])
    case Abort(id) => id in s.txs
    case ApplyFee(grade, fee) =>
      && grade != "" && 1 <= fee <= MAX_AMOUNT
      && (forall i :: i in s.txs ==> !OwnsSetting(s.txs[i]) && !HoldsFee(s.txs[i], s.db.year, grade))
      && (forall i :: i in s.txs && HasAccount(s.txs[i]) ==> !Repriced(s.db, grade, s.txs[i].write.key))
      && (forall k :: k in s.db.accounts && Repriced(s.db, grade, k) ==>
        s.db.accounts[k].discount + Paid(s.db.payments, k) <= fee)
    case EditStudent(_, _) => true
  }

  function Do(s: System, a: Action): System
    requires Can(s, a)
  {
    match a
    case Begin(id, req) => s.(txs := s.txs[id := Begun(req)])
    case Run(id, st) => s.(txs := s.txs[id := Execute(s.db, s.txs[id], st).value])
    case Commit(id) => System(Committed(s.db, s.txs[id]), s.txs - {id})
    case Abort(id) => s.(txs := s.txs - {id})
    case ApplyFee(grade, fee) => s.(db := Applied(s.db, grade, fee))
    case EditStudent(student, value) => s.(db := s.db.(students := s.db.students[student := value]))
  }

  // ---------------------------------------------------------------- balances

  /** No balance is negative: every discount and the payments that count fit in the fee. */
  ghost predicate Balanced(db: Db) {
    forall k :: k in db.accounts ==> db.accounts[k].discount + Paid(db.payments, k) <= db.accounts[k].fee
  }

  /** The schema: payments refer to accounts, accounts to students, and fees are positive. */
  ghost predicate Schema(db: Db) {
    && (forall i :: 0 <= i < |db.payments| ==> db.payments[i].account in db.accounts)
    && (forall k :: k in db.accounts ==>
      k.student in db.students && db.accounts[k].fee >= 1 && db.accounts[k].grade != "")
    && (forall y, g :: (y, g) in db.fees ==> db.fees[(y, g)] >= 1 && g != "")
  }

  /** What a transaction may rely on until it commits, because of the locks it holds. */
  ghost predicate TxOk(db: Db, t: Tx) {
    match t
    case Begun(req) => ValidRequest(req)
    case Shared(w, current) => current == (w.key.year == db.year)
    case Ready(w, own) => w.key.student in db.students && OwnOk(db, w.key, own)
    case Locked(w, own, fee, discount) => LockedOk(db, w.key, own, fee, discount)
    case Summed(w, own, fee, discount, paid) => LockedOk(db, w.key, own, fee, discount)
      && Paid(db.payments, w.key) <= paid
    case Wrote(w, own, fee, discount, paid) =>
      && LockedOk(db, w.key, own, fee, discount) && Paid(db.payments, w.key) <= paid
      && w.amount + paid + (if w.Pay? then discount else 0) <= fee
    case PaymentLocked(id) => id < |db.payments| && !db.payments[id].voided
    case PaymentWritten(id) => id < |db.payments| && !db.payments[id].voided
    case FeeShared(grade, amount, year) => year == db.year && amount >= 1 && grade != ""
    case FeeWritten(grade, amount, year) => year == db.year && amount >= 1 && grade != ""
    case SettingLocked(to, was) => was == db.year && to != was
    case Frozen(to, was, rows, seen) =>
      && was == db.year && to != was && rows == FreezeRows(db.(students := seen))
      && forall s :: s in seen ==> s in db.students
  }

  ghost predicate OwnOk(db: Db, k: Key, own: Option<Account>) {
    own.Some? ==> k !in db.accounts && k.year == db.year && k.student in db.students
                  && own.value.discount == 0 && own.value.fee >= 1 && own.value.grade != ""
  }

  ghost predicate LockedOk(db: Db, k: Key, own: Option<Account>, fee: nat, discount: nat) {
    && OwnOk(db, k, own)
    && if own.Some? then own.value.fee == fee && discount == 0
       else k in db.accounts && db.accounts[k].fee == fee && db.accounts[k].discount == discount
  }

  ghost predicate Invariant(s: System) {
    && Balanced(s.db) && Schema(s.db)
    && (forall i :: i in s.txs ==> TxOk(s.db, s.txs[i]))
    && (forall i, j :: i in s.txs && j in s.txs && i != j ==> Compatible(s.txs[i], s.txs[j]))
  }

  lemma {:induction false} PaidVoid(payments: seq<Payment>, id: nat, k: Key)
    requires id < |payments| && !payments[id].voided
    ensures Paid(payments[id := payments[id].(voided := true)], k)
      + (if payments[id].account == k then payments[id].amount else 0)
         == Paid(payments, k)
  {
    var n := |payments| - 1;
    var after := payments[id := payments[id].(voided := true)];
    if id < n {
      PaidVoid(payments[..n], id, k);
      assert after[..n] == payments[..n][id := payments[id].(voided := true)];
    } else {
      assert after[..n] == payments[..n];
    }
  }

  lemma PaidAppend(payments: seq<Payment>, p: Payment, k: Key)
    ensures Paid(payments + [p], k) == Paid(payments, k) + if p.account == k && !p.voided then p.amount else 0
  {
    assert (payments + [p])[..|payments|] == payments;
  }

  lemma {:induction false} PaidNothing(payments: seq<Payment>, k: Key)
    requires forall i :: 0 <= i < |payments| ==> payments[i].account != k
    ensures Paid(payments, k) == 0
  {
    if payments != [] { PaidNothing(payments[..|payments| - 1], k); }
  }

  lemma FreezeRowsSame(db: Db, other: Db)
    requires other.year == db.year && other.students == db.students && other.fees == db.fees
      && other.accounts == db.accounts
    ensures FreezeRows(other) == FreezeRows(db)
  {
    assert AllKeys(other) == AllKeys(db);
  }

  /** A statement that finds its locks free establishes what the transaction relies on next. */
  lemma ExecuteOk(db: Db, t: Tx, st: Statement)
    requires Balanced(db) && Schema(db) && TxOk(db, t) && Execute(db, t, st).Some?
    ensures TxOk(db, Execute(db, t, st).value)
  {
  }

  lemma PaymentSums(db: Db, t: Tx)
    requires t.Wrote? && t.write.Pay?
    ensures forall k ::
      Paid(Committed(db, t).payments, k) == Paid(db.payments, k) + if k == t.write.key then t.write.amount else 0
  {
    forall k
      ensures Paid(Committed(db, t).payments, k) == Paid(db.payments, k)
        + if k == t.write.key then t.write.amount else 0
    {
      PaidAppend(db.payments, Payment(t.write.key, t.write.amount, false), k);
    }
  }

  /** The accounts after a payment: as before, and the one the transaction inserted itself. */
  lemma PaymentAccounts(db: Db, t: Tx)
    requires t.Wrote? && t.write.Pay? && TxOk(db, t)
    ensures var u := Committed(db, t);
      && u.accounts.Keys == db.accounts.Keys + {t.write.key}
      && (forall k :: k in db.accounts ==> u.accounts[k] == db.accounts[k])
      && u.accounts[t.write.key].fee == t.fee && u.accounts[t.write.key].discount == t.discount
  {
  }

  lemma PaymentBalanced(db: Db, t: Tx)
    requires t.Wrote? && t.write.Pay? && Balanced(db) && TxOk(db, t)
    ensures Balanced(Committed(db, t))
  {
    PaymentSums(db, t);
    PaymentAccounts(db, t);
  }

  lemma PaymentSchema(db: Db, t: Tx)
    requires t.Wrote? && t.write.Pay? && Schema(db) && TxOk(db, t)
    ensures Schema(Committed(db, t))
  {
    var u := Committed(db, t);
    forall i | 0 <= i < |u.payments| ensures u.payments[i].account in u.accounts {
      if i < |db.payments| { assert u.payments[i] == db.payments[i]; }
    }
  }

  lemma PaymentCommit(db: Db, t: Tx)
    requires t.Wrote? && t.write.Pay?
    requires Balanced(db) && Schema(db) && TxOk(db, t)
    ensures Balanced(Committed(db, t)) && Schema(Committed(db, t))
  {
    PaymentBalanced(db, t);
    PaymentSchema(db, t);
  }

  lemma PaymentCommitOther(db: Db, t: Tx, o: Tx)
    requires t.Wrote? && t.write.Pay? && TxOk(db, t)
    requires TxOk(db, o) && Compatible(t, o) && Compatible(o, t)
    ensures TxOk(Committed(db, t), o)
  {
    PaymentSums(db, t);
  }

  lemma DiscountCommit(db: Db, t: Tx)
    requires t.Wrote? && t.write.SetDiscount?
    requires Balanced(db) && Schema(db) && TxOk(db, t)
    ensures Balanced(Committed(db, t)) && Schema(Committed(db, t))
  {
    if t.own.Some? { PaidNothing(db.payments, t.write.key); }
  }

  lemma DiscountCommitOther(db: Db, t: Tx, o: Tx)
    requires t.Wrote? && t.write.SetDiscount? && TxOk(db, t)
    requires TxOk(db, o) && Compatible(t, o) && Compatible(o, t)
    ensures TxOk(Committed(db, t), o)
  {
  }

  lemma VoidCommit(db: Db, t: Tx, o: Tx)
    requires t.PaymentWritten?
    requires Balanced(db) && Schema(db) && TxOk(db, t)
    ensures Balanced(Committed(db, t)) && Schema(Committed(db, t))
    ensures TxOk(db, o) && Compatible(t, o) && Compatible(o, t) ==> TxOk(Committed(db, t), o)
  {
    var u := Committed(db, t);
    forall k ensures Paid(u.payments, k) <= Paid(db.payments, k) { PaidVoid(db.payments, t.id, k); }
    if o.Frozen? { FreezeRowsSame(db.(students := o.seen), u.(students := o.seen)); }
  }

  lemma FeeCommit(db: Db, t: Tx, o: Tx)
    requires t.FeeWritten?
    requires Balanced(db) && Schema(db) && TxOk(db, t)
    ensures Balanced(Committed(db, t)) && Schema(Committed(db, t))
    ensures TxOk(db, o) && Compatible(t, o) && Compatible(o, t) ==> TxOk(Committed(db, t), o)
  {
  }

  lemma SwitchCommit(db: Db, t: Tx)
    requires t.Frozen?
    requires Balanced(db) && Schema(db) && TxOk(db, t)
    ensures Balanced(Committed(db, t)) && Schema(Committed(db, t))
  {
    var u := Committed(db, t);
    forall k | k in t.rows
      ensures u.accounts[k].discount == 0 && Paid(db.payments, k) == 0 && u.accounts[k].fee >= 1
        && u.accounts[k].grade != ""
    {
      PaidNothing(db.payments, k);
    }
  }

  lemma SwitchCommitOther(db: Db, t: Tx, o: Tx)
    requires t.Frozen? && TxOk(db, t)
    requires TxOk(db, o) && Compatible(t, o) && Compatible(o, t)
    ensures TxOk(Committed(db, t), o)
  {
  }

  lemma CommitOk(db: Db, t: Tx, o: Tx)
    requires Balanced(db) && Schema(db) && TxOk(db, t) && Committable(t)
    ensures Balanced(Committed(db, t)) && Schema(Committed(db, t))
    ensures TxOk(db, o) && Compatible(t, o) && Compatible(o, t) ==> TxOk(Committed(db, t), o)
  {
    match t
    case Wrote(w, _, _, _, _) =>
      if w.Pay? {
        PaymentCommit(db, t);
        if TxOk(db, o) && Compatible(t, o) && Compatible(o, t) { PaymentCommitOther(db, t, o); }
      } else {
        DiscountCommit(db, t);
        if TxOk(db, o) && Compatible(t, o) && Compatible(o, t) { DiscountCommitOther(db, t, o); }
      }
    case PaymentWritten(_) => VoidCommit(db, t, o);
    case FeeWritten(_, _, _) => FeeCommit(db, t, o);
    case Frozen(_, _, _, _) =>
      SwitchCommit(db, t);
      if TxOk(db, o) && Compatible(t, o) && Compatible(o, t) { SwitchCommitOther(db, t, o); }
  }

  lemma AppliedOk(db: Db, grade: Grade, fee: nat)
    requires Balanced(db) && Schema(db) && grade != "" && fee >= 1
    requires forall k :: k in db.accounts && Repriced(db, grade, k) ==>
      db.accounts[k].discount + Paid(db.payments, k) <= fee
    ensures Balanced(Applied(db, grade, fee)) && Schema(Applied(db, grade, fee))
  {
  }

  lemma AppliedKeeps(db: Db, grade: Grade, fee: nat, t: Tx)
    requires TxOk(db, t) && !OwnsSetting(t) && !HoldsFee(t, db.year, grade)
    requires HasAccount(t) ==> !Repriced(db, grade, t.write.key)
    ensures TxOk(Applied(db, grade, fee), t)
  {
  }

  lemma ApplyOk(s: System, grade: Grade, fee: nat)
    requires Invariant(s) && Can(s, ApplyFee(grade, fee))
    ensures Invariant(Do(s, ApplyFee(grade, fee)))
  {
    AppliedOk(s.db, grade, fee);
    forall i | i in s.txs ensures TxOk(Applied(s.db, grade, fee), s.txs[i]) {
      AppliedKeeps(s.db, grade, fee, s.txs[i]);
    }
  }

  lemma EditOk(db: Db, t: Tx, student: nat, value: Student)
    requires TxOk(db, t)
    ensures TxOk(db.(students := db.students[student := value]), t)
  {
    var u := db.(students := db.students[student := value]);
    if t.Frozen? { FreezeRowsSame(db.(students := t.seen), u.(students := t.seen)); }
  }

  lemma InvariantStep(s: System, a: Action)
    requires Invariant(s) && Can(s, a)
    ensures Invariant(Do(s, a))
  {
    match a
    case Begin(id, req) =>
    case Run(id, st) => ExecuteOk(s.db, s.txs[id], st);
    case Commit(id) =>
      CommitOk(s.db, s.txs[id], s.txs[id]);
      forall i | i in s.txs && i != id ensures TxOk(Do(s, a).db, s.txs[i]) {
        CommitOk(s.db, s.txs[id], s.txs[i]);
      }
    case Abort(id) =>
    case ApplyFee(grade, fee) => ApplyOk(s, grade, fee);
    case EditStudent(student, value) =>
      forall i | i in s.txs ensures TxOk(Do(s, a).db, s.txs[i]) { EditOk(s.db, s.txs[i], student, value); }
  }

  ghost predicate Next(s: System, u: System) {
    exists a :: Can(s, a) && u == Do(s, a)
  }

  /** Step i of the run. */
  ghost predicate Stepped(run: seq<System>, i: nat)
    requires 0 < i < |run|
  {
    Next(run[i - 1], run[i])
  }

  /** An execution starts from any consistent ledger with no transaction open. */
  ghost predicate IsExecution(run: seq<System>) {
    && run != [] && Balanced(run[0].db) && Schema(run[0].db) && run[0].txs == map[]
    && forall i :: 0 < i < |run| ==> Stepped(run, i)
  }

  /**
   However the transactions interleave, no committed state ever has a negative balance: fee, less
   discount, less the payments that count. Void takes no account lock; it only lowers what is paid.
   */
  lemma {:induction false} NeverNegative(run: seq<System>, i: nat)
    requires IsExecution(run) && i < |run|
    ensures Invariant(run[i])
    ensures forall k :: k in run[i].db.accounts ==>
      run[i].db.accounts[k].fee as int - run[i].db.accounts[k].discount - Paid(run[i].db.payments, k) >= 0
  {
    if i > 0 {
      NeverNegative(run, i - 1);
      assert Stepped(run, i);
      var a :| Can(run[i - 1], a) && run[i] == Do(run[i - 1], a);
      InvariantStep(run[i - 1], a);
    }
  }
}
