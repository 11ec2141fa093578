/**
 Device-token registration (internal/handlers/mobile.go) against the parent's push switch
 (internal/handlers/parent_account.go). First the protocol: transactions interleaved statement by
 statement, with the row locks PostgreSQL holds to commit. Then one registration as an atomic step,
 with its cap of ten tokens a parent.
 */
module DeviceTokens {
  import opened Wrappers
  import opened Sets

  type Parent = nat
  type Token = string
  type TxId = nat

  datatype Row = Row(parent: Parent, seen: int, id: nat)

  /** parents holds push_enabled. The unique key on token is the map. */
  datatype Database = Database(parents: map<Parent, bool>, tokens: map<Token, Row>)

  datatype Kind = Register(token: Token) | SwitchTo(on: bool)

  /** Locked: the parent row is read FOR SHARE (Register) or updated (SwitchTo). */
  datatype Stage = Begun | Locked | Written | Evicted

  /** `writes` are the token rows this transaction has changed (None: deleted) and holds locked. */
  datatype Tx = Tx(kind: Kind, parent: Parent, stage: Stage, enabled: bool, writes: map<Token, Option<Row>>)

  datatype System = System(db: Database, txs: map<TxId, Tx>)

  predicate HoldsShare(tx: Tx, p: Parent) {
    tx.kind.Register? && tx.stage != Begun && tx.parent == p
  }

  predicate HoldsExclusive(tx: Tx, p: Parent) {
    tx.kind.SwitchTo? && tx.stage != Begun && tx.parent == p
  }

  function Overlay(tokens: map<Token, Row>, writes: map<Token, Option<Row>>): map<Token, Row> {
    map t | t in tokens.Keys + writes.Keys && (t in writes ==> writes[t].Some?)
      :: if t in writes then writes[t].value else tokens[t]
  }

  datatype Action =
    | AddParent(p: Parent)
    | DeleteParent(p: Parent)
    | Begin(id: TxId, kind: Kind, parent: Parent)
    | Lock(id: TxId)
    | Write(id: TxId, now: int, newId: nat)
    | Evict(id: TxId, evicted: set<Token>)
    | Commit(id: TxId)
    | Abort(id: TxId)
    /** A single DELETE: unregistering, the cleanup of dead tokens, a new PIN. */
    | Remove(tokens: set<Token>)

  /** No transaction other than `id` has a lock on any of these token rows. */
  predicate Unlocked(s: System, id: TxId, tokens: set<Token>) {
    forall i :: i in s.txs && i != id ==> s.txs[i].writes.Keys !! tokens
  }

  predicate ParentFree(s: System, id: TxId, p: Parent) {
    forall i :: i in s.txs && i != id ==> !HoldsShare(s.txs[i], p) && !HoldsExclusive(s.txs[i], p)
  }

  function TokensOf(db: Database, p: Parent): set<Token> {
    set t | t in db.tokens && db.tokens[t].parent == p
  }

  /** The token rows that the write statement of a transaction deletes or upserts. */
  function WriteSet(db: Database, tx: Tx, now: int, newId: nat): map<Token, Option<Row>> {
    match tx.kind
    case Register(token) =>
      var id := if token in db.tokens then db.tokens[token].id else newId;
      if tx.enabled then map[token := Some(Row(tx.parent, now, id))]
      else if token in db.tokens then map[token := None]
      else map[]
    case SwitchTo(on) =>
      if on then map[] else map t | t in TokensOf(db, tx.parent) :: None
  }

  predicate ReadyToCommit(tx: Tx) {
    if tx.kind.Register? && tx.enabled then tx.stage == Evicted else tx.stage == Written
  }

  /** The database once the transaction has committed. */
  function Committed(db: Database, tx: Tx): Database {
    Database(
      if tx.kind.SwitchTo? then db.parents[tx.parent := tx.kind.on] else db.parents,
      Overlay(db.tokens, tx.writes))
  }

  predicate Can(s: System, a: Action) {
    match a
    case AddParent(p) => p !in s.db.parents
    case DeleteParent(p) => (forall i :: i in s.txs ==> !HoldsShare(s.txs[i], p) && !HoldsExclusive(s.txs[i], p))
        && (forall i :: i in s.txs ==> s.txs[i].writes.Keys !! TokensOf(s.db, p))
    case Begin(id, _, _) => id !in s.txs
    case Lock(id) =>
      && id in s.txs && s.txs[id].stage == Begun && s.txs[id].parent in s.db.parents
      && var p := s.txs[id].parent;
         if s.txs[id].kind.Register? then forall i :: i in s.txs && i != id ==> !HoldsExclusive(s.txs[i], p)
         else ParentFree(s, id, p)
    case Write(id, now, newId) =>
      && id in s.txs && s.txs[id].stage == Locked
      && Unlocked(s, id, WriteSet(s.db, s.txs[id], now, newId).Keys)
    case Evict(id, evicted) =>
      && id in s.txs && s.txs[id].stage == Written && s.txs[id].kind.Register? && s.txs[id].enabled
      && Unlocked(s, id, evicted)
    case Commit(id) => id in s.txs && ReadyToCommit(s.txs[id])
    case Abort(id) => id in s.txs
    case Remove(tokens) => forall i :: i in s.txs ==> s.txs[i].writes.Keys !! tokens
  }

  function Do(s: System, a: Action): System
    requires Can(s, a)
  {
    match a
    case AddParent(p) => s.(db := s.db.(parents := s.db.parents[p := true]))
    case DeleteParent(p) => s.(db := Database(s.db.parents - {p}, s.db.tokens - TokensOf(s.db, p)))
    case Begin(id, kind, parent) => s.(txs := s.txs[id := Tx(kind, parent, Begun, false, map[])])
    case Lock(id) =>
      var tx := s.txs[id];
      s.(txs := s.txs[id := tx.(stage := Locked, enabled := s.db.parents[tx.parent])])
    case Write(id, now, newId) =>
      var tx := s.txs[id];
      s.(txs := s.txs[id := tx.(stage := Written, writes := WriteSet(s.db, tx, now, newId))])
    case Evict(id, evicted) =>
      var tx := s.txs[id];
      s.(txs := s.txs[id := tx.(stage := Evicted, writes := tx.writes + map t | t in evicted :: None)])
    case Commit(id) =>
      var tx := s.txs[id];
      System(Committed(s.db, tx), s.txs - {id})
    case Abort(id) => s.(txs := s.txs - {id})
    case Remove(tokens) => s.(db := s.db.(tokens := s.db.tokens - tokens))
  }

  /** Every stored token belongs to one existing parent, whose push notifications are on. */
  ghost predicate Safe(db: Database) {
    forall t :: t in db.tokens ==> db.tokens[t].parent in db.parents && db.parents[db.tokens[t].parent]
  }

  /** What a transaction in flight knows, thanks to its lock on the parent row. */
  ghost predicate TxOk(db: Database, tx: Tx) {
    && (tx.stage == Begun ==> tx.writes == map[])
    && (tx.stage == Locked ==> tx.writes == map[])
    && (tx.stage == Evicted ==> tx.kind.Register?)
    && (tx.stage != Begun ==> tx.parent in db.parents)
    && (tx.stage != Begun && tx.kind.Register? ==> db.parents[tx.parent] == tx.enabled)
    && (forall t :: t in tx.writes && tx.writes[t].Some? ==>
      tx.kind.Register? && tx.enabled && tx.writes[t].value.parent == tx.parent)
    && (tx.stage == Written && tx.kind == SwitchTo(false) ==> TokensOf(db, tx.parent) <= tx.writes.Keys)
  }

  /** Locks held by two transactions are compatible. */
  ghost predicate LocksOk(a: Tx, b: Tx) {
    && a.writes.Keys !! b.writes.Keys
    && (a.stage != Begun && b.stage != Begun && a.parent == b.parent ==> a.kind.Register? && b.kind.Register?)
  }

  ghost predicate Invariant(s: System) {
    && Safe(s.db)
    && (forall i :: i in s.txs ==> TxOk(s.db, s.txs[i]))
    && (forall i, j :: i in s.txs && j in s.txs && i != j ==> LocksOk(s.txs[i], s.txs[j]))
  }

  /** A commit by one transaction leaves what the others know true. */
  lemma CommitKeepsOther(db: Database, tx: Tx, other: Tx)
    requires Safe(db) && TxOk(db, tx) && TxOk(db, other) && LocksOk(tx, other) && LocksOk(other, tx)
      && ReadyToCommit(tx)
    ensures TxOk(Committed(db, tx), other)
  {
  }

  lemma CommitSafe(db: Database, tx: Tx)
    requires Safe(db) && TxOk(db, tx) && ReadyToCommit(tx)
    ensures Safe(Committed(db, tx))
  {
    if tx.kind == SwitchTo(false) {
      forall t | t in Overlay(db.tokens, tx.writes) ensures db.tokens[t].parent != tx.parent {
        assert t !in TokensOf(db, tx.parent);
      }
    }
  }

  lemma CommitInvariant(s: System, id: TxId)
    requires Invariant(s) && Can(s, Commit(id))
    ensures Invariant(Do(s, Commit(id)))
  {
    var tx := s.txs[id];
    CommitSafe(s.db, tx);
    forall i | i in s.txs && i != id ensures TxOk(Do(s, Commit(id)).db, s.txs[i]) {
      CommitKeepsOther(s.db, tx, s.txs[i]);
    }
  }

  lemma LockInvariant(s: System, id: TxId)
    requires Invariant(s) && Can(s, Lock(id))
    ensures Invariant(Do(s, Lock(id)))
  {
    var u := Do(s, Lock(id));
    assert TxOk(u.db, u.txs[id]) && forall i :: i in s.txs && i != id ==> u.txs[i] == s.txs[i];
  }

  lemma WriteInvariant(s: System, id: TxId, now: int, newId: nat)
    requires Invariant(s) && Can(s, Write(id, now, newId))
    ensures Invariant(Do(s, Write(id, now, newId)))
  {
    var u := Do(s, Write(id, now, newId));
    assert TxOk(u.db, u.txs[id]) && forall i :: i in s.txs && i != id ==> u.txs[i] == s.txs[i];
  }

  lemma EvictInvariant(s: System, id: TxId, evicted: set<Token>)
    requires Invariant(s) && Can(s, Evict(id, evicted))
    ensures Invariant(Do(s, Evict(id, evicted)))
  {
    var u := Do(s, Evict(id, evicted));
    assert TxOk(u.db, u.txs[id]) && forall i :: i in s.txs && i != id ==> u.txs[i] == s.txs[i];
  }

  lemma ParentInvariant(s: System, a: Action)
    requires Invariant(s) && Can(s, a) && (a.AddParent? || a.DeleteParent?)
    ensures Invariant(Do(s, a))
  {
    forall i | i in s.txs ensures TxOk(Do(s, a).db, s.txs[i]) {
      assert TxOk(s.db, s.txs[i]);
    }
  }

  lemma RemoveInvariant(s: System, tokens: set<Token>)
    requires Invariant(s) && Can(s, Remove(tokens))
    ensures Invariant(Do(s, Remove(tokens)))
  {
    forall i | i in s.txs ensures TxOk(Do(s, Remove(tokens)).db, s.txs[i]) {
      assert TokensOf(Do(s, Remove(tokens)).db, s.txs[i].parent) <= TokensOf(s.db, s.txs[i].parent);
    }
  }

  lemma InvariantStep(s: System, a: Action)
    requires Invariant(s) && Can(s, a)
    ensures Invariant(Do(s, a))
  {
    match a
    case Commit(id) => CommitInvariant(s, id);
    case Lock(id) => LockInvariant(s, id);
    case Write(id, now, newId) => WriteInvariant(s, id, now, newId);
    case Evict(id, evicted) => EvictInvariant(s, id, evicted);
    case AddParent(p) => ParentInvariant(s, a);
    case DeleteParent(p) => ParentInvariant(s, a);
    case Remove(tokens) => RemoveInvariant(s, tokens);
    case _ =>
  }

  ghost predicate Next(s: System, u: System) {
    exists a :: Can(s, a) && u == Do(s, a)
  }

  /** Step i of the run. */
  ghost predicate Stepped(run: seq<System>, i: nat)
    requires 0 < i < |run|
  {
    Next(run[i - 1], run[i])
  }

  ghost predicate IsExecution(run: seq<System>) {
    run != [] && run[0] == System(Database(map[], map[]), map[]) && forall i :: 0 < i < |run| ==> Stepped(run, i)
  }

  /**
   However registrations and switches interleave, no committed state holds a token of a parent whose
   push notifications are off.
   */
  lemma {:induction false} OffMeansNoToken(run: seq<System>, i: nat)
    requires IsExecution(run) && i < |run|
    ensures Invariant(run[i])
    ensures forall p :: p in run[i].db.parents && !run[i].db.parents[p] ==> TokensOf(run[i].db, p) == {}
  {
    if i > 0 {
      OffMeansNoToken(run, i - 1);
      assert Stepped(run, i);
      var a :| Can(run[i - 1], a) && run[i] == Do(run[i - 1], a);
      InvariantStep(run[i - 1], a);
    }
  }

  // ---------------------------------------------------------------- the cap, registration as one step

  const MAX_DEVICE_TOKENS_PER_PARENT := 10

  /** The eviction order: last seen first, then the higher id. */
  predicate Newer(a: Row, b: Row) {
    a.seen > b.seen || (a.seen == b.seen && a.id > b.id)
  }

  function NewerThan(tokens: map<Token, Row>, among: set<Token>, t: Token): set<Token>
    requires t in tokens && among <= tokens.Keys
  {
    set u | u in among && Newer(tokens[u], tokens[t])
  }

  /** The tokens of `among` that fewer than `keep` others precede. */
  function Top(tokens: map<Token, Row>, among: set<Token>, keep: nat): set<Token>
    requires among <= tokens.Keys
  {
    set t | t in among && |NewerThan(tokens, among, t)| < keep
  }

  function Upserted(db: Database, p: Parent, token: Token, now: int, newId: nat): map<Token, Row> {
    db.tokens[token := Row(p, now, if token in db.tokens then db.tokens[token].id else newId)]
  }

  /** The tokens after one registration: the upsert, then all but the ten most recent are deleted. */
  function Registered(db: Database, p: Parent, token: Token, now: int, newId: nat): map<Token, Row> {
    var u := Upserted(db, p, token, now, newId);
    var mine := TokensOf(db.(tokens := u), p);
    u - (mine - Top(u, mine, MAX_DEVICE_TOKENS_PER_PARENT))
  }

  predicate SameId(tokens: map<Token, Row>, t: Token, u: Token) {
    t in tokens && u in tokens && tokens[t].id == tokens[u].id
  }

  ghost predicate DistinctIds(tokens: map<Token, Row>) {
    forall t, u :: SameId(tokens, t, u) ==> t == u
  }

  lemma FewerDistinct(tokens: map<Token, Row>, less: map<Token, Row>)
    requires DistinctIds(tokens) && less.Keys <= tokens.Keys
    requires forall t :: t in less ==> less[t] == tokens[t]
    ensures DistinctIds(less)
  {
    forall t, u | SameId(less, t, u) ensures t == u { assert SameId(tokens, t, u); }
  }

  lemma UpsertDistinct(db: Database, p: Parent, token: Token, now: int, newId: nat)
    requires DistinctIds(db.tokens) && forall t :: t in db.tokens ==> db.tokens[t].id < newId
    ensures DistinctIds(Upserted(db, p, token, now, newId))
  {
    var less := Upserted(db, p, token, now, newId);
    forall t, u | SameId(less, t, u) ensures t == u {
      if t in db.tokens && u in db.tokens { assert SameId(db.tokens, t, u); }
    }
  }

  lemma Newest(tokens: map<Token, Row>, among: set<Token>) returns (m: Token)
    requires among <= tokens.Keys && among != {} && DistinctIds(tokens)
    ensures m in among && forall t :: t in among && t != m ==> Newer(tokens[m], tokens[t])
    decreases |among|
  {
    m :| m in among;
    if among != {m} {
      var n := Newest(tokens, among - {m});
      assert !SameId(tokens, m, n);
      if Newer(tokens[n], tokens[m]) { m := n; }
    }
  }

  lemma {:induction false} RankBound(tokens: map<Token, Row>, among: set<Token>, keep: nat, kept: set<Token>)
    requires among <= tokens.Keys && DistinctIds(tokens) && kept <= among
    requires forall t :: t in kept ==> |NewerThan(tokens, among, t)| < keep
    ensures |kept| <= keep
    decreases |among|
  {
    if kept != {} {
      var m := Newest(tokens, among);
      forall t | t in kept - {m} ensures |NewerThan(tokens, among - {m}, t)| < keep - 1 {
        assert NewerThan(tokens, among, t) == NewerThan(tokens, among - {m}, t) + {m};
      }
      var t :| t in kept;
      assert |NewerThan(tokens, among, t)| < keep;
      RankBound(tokens, among - {m}, keep - 1, kept - {m});
    }
  }

  /** Ranking never keeps more than it should, and keeps everything when there is room. */
  lemma TopSize(tokens: map<Token, Row>, among: set<Token>, keep: nat)
    requires among <= tokens.Keys && DistinctIds(tokens)
    ensures |Top(tokens, among, keep)| <= keep
    ensures |among| <= keep ==> Top(tokens, among, keep) == among
  {
    RankBound(tokens, among, keep, Top(tokens, among, keep));
    forall t | t in among ensures |NewerThan(tokens, among, t)| < |among| {
      SubsetSize(NewerThan(tokens, among, t), among - {t});
    }
  }

  /** A kept token is newer than every evicted one. */
  lemma TopIsNewest(tokens: map<Token, Row>, among: set<Token>, keep: nat, t: Token, u: Token)
    requires among <= tokens.Keys && DistinctIds(tokens)
    requires t in Top(tokens, among, keep) && u in among - Top(tokens, among, keep)
    ensures Newer(tokens[t], tokens[u])
  {
    if !Newer(tokens[t], tokens[u]) {
      SubsetSize(NewerThan(tokens, among, u), NewerThan(tokens, among, t));
    }
  }

  lemma RegisteredTokens(db: Database, p: Parent, token: Token, now: int, newId: nat, q: Parent)
    ensures TokensOf(db.(tokens := Upserted(db, p, token, now, newId)), p) == TokensOf(db, p) + {token}
    ensures TokensOf(db.(tokens := Registered(db, p, token, now, newId)), q) ==
      if q == p then Top(Upserted(db, p, token, now, newId), TokensOf(db, p) + {token}, MAX_DEVICE_TOKENS_PER_PARENT)
      else TokensOf(db, q) - {token}
  {
    assert TokensOf(db.(tokens := Upserted(db, p, token, now, newId)), p) == TokensOf(db, p) + {token};
  }

  /**
   One registration: the parent keeps at most ten tokens, the most recently seen of those it had and
   the one just registered; other parents keep theirs, except the token that moved.
   */
  lemma RegistrationCap(db: Database, p: Parent, token: Token, now: int, newId: nat)
    requires DistinctIds(db.tokens) && forall t :: t in db.tokens ==> db.tokens[t].id < newId
    ensures var u := Upserted(db, p, token, now, newId);
      var r := Registered(db, p, token, now, newId);
      var had := TokensOf(db, p) + {token};
      var kept := TokensOf(db.(tokens := r), p);
      && |kept| <= MAX_DEVICE_TOKENS_PER_PARENT
      && (|had| <= MAX_DEVICE_TOKENS_PER_PARENT ==> kept == had)
      && kept <= had && (forall t, e :: t in kept && e in had - kept ==> Newer(u[t], u[e]))
      && (forall q :: q != p ==> TokensOf(db.(tokens := r), q) == TokensOf(db, q) - {token})
  {
    var u := Upserted(db, p, token, now, newId);
    var had := TokensOf(db, p) + {token};
    var top := Top(u, had, MAX_DEVICE_TOKENS_PER_PARENT);
    RegisteredTokens(db, p, token, now, newId, p);
    UpsertDistinct(db, p, token, now, newId);
    TopSize(u, had, MAX_DEVICE_TOKENS_PER_PARENT);
    forall t, e | t in top && e in had - top ensures Newer(u[t], u[e]) {
      TopIsNewest(u, had, MAX_DEVICE_TOKENS_PER_PARENT, t, e);
    }
    forall q | q != p
      ensures TokensOf(db.(tokens := Registered(db, p, token, now, newId)), q) == TokensOf(db, q) - {token}
    {
      RegisteredTokens(db, p, token, now, newId, q);
    }
  }

  /**
   The token just registered is itself dropped exactly when ten others of the parent come before it,
   which takes ten tokens seen at or after `now`: a token moved from another parent keeps its old,
   lower id and can lose every tie.
   */
  lemma RegisteredIsKept(db: Database, p: Parent, token: Token, now: int, newId: nat)
    requires DistinctIds(db.tokens) && forall t :: t in db.tokens ==> db.tokens[t].id < newId
    ensures var u := Upserted(db, p, token, now, newId);
      token in Registered(db, p, token, now, newId) <==>
        |set t | t in TokensOf(db, p) && t != token && Newer(db.tokens[t], u[token])| < MAX_DEVICE_TOKENS_PER_PARENT
  {
    var u := Upserted(db, p, token, now, newId);
    var mine := TokensOf(db.(tokens := u), p);
    assert NewerThan(u, mine, token) == set t | t in TokensOf(db, p) && t != token && Newer(db.tokens[t], u[token]);
  }

  /** What the store keeps: fresh ids, no token of a parent with push off, and at most ten a parent. */
  ghost predicate Tidy(db: Database, nextId: nat) {
    && DistinctIds(db.tokens) && (forall t :: t in db.tokens ==> db.tokens[t].id < nextId)
    && Safe(db)
    && forall p :: |TokensOf(db, p)| <= MAX_DEVICE_TOKENS_PER_PARENT
  }

  lemma RegisteredValid(db: Database, p: Parent, token: Token, now: int, newId: nat)
    requires Tidy(db, newId) && p in db.parents && db.parents[p]
    ensures Tidy(db.(tokens := Registered(db, p, token, now, newId)), newId + 1)
  {
    var less := db.(tokens := Registered(db, p, token, now, newId));
    RegistrationCap(db, p, token, now, newId);
    UpsertDistinct(db, p, token, now, newId);
    FewerDistinct(Upserted(db, p, token, now, newId), less.tokens);
    forall q ensures |TokensOf(less, q)| <= MAX_DEVICE_TOKENS_PER_PARENT {
      if q != p { SubsetSize(TokensOf(less, q), TokensOf(db, q)); }
    }
  }

  /** Ten other tokens of the parent that come before it evict the token just registered. */
  lemma MovedTokenEvicted(db: Database, p: Parent, token: Token, now: int, newId: nat, others: set<Token>)
    requires DistinctIds(db.tokens) && forall t :: t in db.tokens ==> db.tokens[t].id < newId
    requires others <= TokensOf(db, p) - {token} && |others| >= MAX_DEVICE_TOKENS_PER_PARENT
    requires forall t :: t in others ==> Newer(db.tokens[t], Upserted(db, p, token, now, newId)[token])
    ensures token !in Registered(db, p, token, now, newId)
  {
    var u := Upserted(db, p, token, now, newId);
    RegisteredIsKept(db, p, token, now, newId);
    SubsetSize(others, set t | t in TokensOf(db, p) && t != token && Newer(db.tokens[t], u[token]));
  }

  predicate TokenChar(c: char) {
    'A' <= c <= 'Z' || 'a' <= c <= 'z' || '0' <= c <= '9' || c in ":_.-"
  }

  const MIN_DEVICE_TOKEN_LENGTH := 20
  const MAX_DEVICE_TOKEN_LENGTH := 1024

  /** validDeviceToken: the handler refuses any other token. */
  predicate ValidToken(t: Token) {
    MIN_DEVICE_TOKEN_LENGTH <= |t| <= MAX_DEVICE_TOKEN_LENGTH && forall i :: 0 <= i < |t| ==> TokenChar(t[i])
  }

  /** Token n of the example. */
  function Named(n: nat): (t: Token)
    ensures |t| == MIN_DEVICE_TOKEN_LENGTH + n
    ensures n <= MAX_DEVICE_TOKENS_PER_PARENT ==> ValidToken(t)
  {
    seq(MIN_DEVICE_TOKEN_LENGTH + n, i => 'a')
  }

  /** Which token of the example it is. */
  function Number(t: Token): nat {
    if |t| < MIN_DEVICE_TOKEN_LENGTH then 0 else |t| - MIN_DEVICE_TOKEN_LENGTH
  }

  function Names(n: nat): (names: set<Token>)
    ensures |names| == n
    ensures forall t :: t in names <==> 1 <= Number(t) <= n && t == Named(Number(t))
  {
    if n == 0 then {} else Names(n - 1) + {Named(n)}
  }

  /** Token 0 is parent 1's; parent 2 has n tokens, all seen at this very moment. */
  function TieExample(n: nat, now: int): Database {
    Database(
      map[1 := true, 2 := true],
      map t | t in Names(n) + {Named(0)} :: Row(if Number(t) == 0 then 1 else 2, now, Number(t)))
  }

  lemma TieTokens(n: nat, now: int)
    ensures TokensOf(TieExample(n, now), 2) == Names(n)
    ensures forall p :: p != 2 ==> TokensOf(TieExample(n, now), p) <= {Named(0)}
  {
    var db := TieExample(n, now);
    forall t | t in db.tokens ensures db.tokens[t].parent == if Number(t) == 0 then 1 else 2 {}
    assert forall t :: t in Names(n) ==> Number(t) != 0;
    forall p, t | p != 2 && t in TokensOf(db, p) ensures t == Named(0) { assert Number(t) == 0; }
  }

  lemma TieTidy(n: nat, now: int)
    requires n <= MAX_DEVICE_TOKENS_PER_PARENT
    ensures Tidy(TieExample(n, now), n + 1)
  {
    var db := TieExample(n, now);
    TieTokens(n, now);
    forall p ensures |TokensOf(db, p)| <= MAX_DEVICE_TOKENS_PER_PARENT {
      if p != 2 { SubsetSize(TokensOf(db, p), {Named(0)}); }
    }
    forall t, u | SameId(db.tokens, t, u) ensures t == u { assert t == Named(Number(t)) && u == Named(Number(u)); }
  }

  /**
   A phone handed to a parent with ten tokens seen at the same instant: every token is one the handler
   accepts, the store is tidy, push is on, the registration reports success, and its token is the one
   deleted.
   */
  lemma MovedTokenLost(n: nat, now: int)
    requires n == MAX_DEVICE_TOKENS_PER_PARENT
    ensures var db := TieExample(n, now);
      && Tidy(db, n + 1) && 2 in db.parents && db.parents[2] && Named(0) in db.tokens
      && (forall t :: t in db.tokens ==> ValidToken(t))
      && Named(0) !in Registered(db, 2, Named(0), now, n + 1)
  {
    var db := TieExample(n, now);
    TieTidy(n, now);
    TieTokens(n, now);
    assert Named(0) !in Names(n);
    forall t | t in db.tokens ensures ValidToken(t) { assert t == Named(Number(t)); }
    MovedTokenEvicted(db, 2, Named(0), now, n + 1, Names(n));
  }

  /** The tokens table and the push switches, with registration in the order the program works. */
  class TokenStore {
    var parents: map<Parent, bool>
    var tokens: map<Token, Row>
    var nextId: nat

    ghost predicate Valid()
      reads this
    {
      Tidy(Database(parents, tokens), nextId)
    }

    constructor ()
      ensures Valid() && parents == map[] && tokens == map[]
    {
      parents, tokens, nextId := map[], map[], 0;
      new;
      assert forall p :: TokensOf(Database(parents, tokens), p) == {};
    }

    /** None: the parent is gone. Some(false): push is off, and the token was only removed. */
    method RegisterDeviceToken(p: Parent, token: Token, now: int) returns (stored: Option<bool>)
      requires Valid()
      modifies this
      ensures Valid() && parents == old(parents)
      ensures stored == if p in parents then Some(parents[p]) else None
      ensures tokens ==
        if stored.None? then old(tokens)
        else if stored.value then Registered(Database(parents, old(tokens)), p, token, now, old(nextId))
        else old(tokens) - {token}
    {
      ghost var db := Database(parents, tokens);
      if p !in parents {
        return None;
      }
      if !parents[p] {
        tokens := tokens - {token};
        Shrunk(db, Database(parents, tokens));
        return Some(false);
      }
      RegisteredValid(db, p, token, now, nextId);
      tokens := tokens[token := Row(p, now, if token in tokens then tokens[token].id else nextId)];
      var mine := TokensOf(Database(parents, tokens), p);
      tokens := tokens - (mine - Top(tokens, mine, MAX_DEVICE_TOKENS_PER_PARENT));
      nextId := nextId + 1;
      return Some(true);
    }

    /** Turning the switch off deletes every token of the parent in the same transaction. */
    method SetPushEnabled(p: Parent, enabled: bool) returns (found: bool)
      requires Valid()
      modifies this`parents, this`tokens
      ensures Valid() && found == (p in old(parents))
      ensures parents == if found then old(parents)[p := enabled] else old(parents)
      ensures tokens ==
        if found && !enabled then old(tokens) - TokensOf(old(Database(parents, tokens)), p) else old(tokens)
    {
      ghost var db := Database(parents, tokens);
      if p !in parents {
        return false;
      }
      parents := parents[p := enabled];
      if !enabled {
        tokens := tokens - TokensOf(Database(parents, tokens), p);
      }
      Shrunk(db, Database(parents, tokens));
      return true;
    }
  }

  lemma Shrunk(db: Database, less: Database)
    requires less.tokens.Keys <= db.tokens.Keys && forall t :: t in less.tokens ==> less.tokens[t] == db.tokens[t]
    ensures DistinctIds(db.tokens) ==> DistinctIds(less.tokens)
    ensures forall p :: |TokensOf(less, p)| <= |TokensOf(db, p)|
  {
    if DistinctIds(db.tokens) { FewerDistinct(db.tokens, less.tokens); }
    forall p ensures |TokensOf(less, p)| <= |TokensOf(db, p)| {
      SubsetSize(TokensOf(less, p), TokensOf(db, p));
    }
  }
}
