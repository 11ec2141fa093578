/**
 Admin logins (AdminLoginHandler in internal/handlers/admin.go): what one login does to its two
 limiters, with any number of logins at once. Between the calls of one login, any others may arrive, be
 refused, fail or succeed; the calls that the limiters see are still a legal run, so the bounds proved
 for legal runs hold for them. Every call of the handler is a step of this machine.
 */
module AdminLogins {
  import opened Wrappers
  import opened LoginLimiter

  /** What the credential check of one admin login finds. */
  datatype Credentials = UnknownUser | DatabaseError | WrongPassword | Right

  /** What the deferred Finish of the per-user and of the per-address limiter is told. */
  function UserOutcome(c: Credentials): Outcome {
    match c
    case UnknownUser | WrongPassword => Failed
    case DatabaseError => Released
    case Right => Succeeded
  }

  function AddressOutcome(c: Credentials): Outcome {
    if c == Right then Released else UserOutcome(c)
  }

  /**
   Reserved: only the per-user reservation is held. Admitted: the address was admitted too, or is not
   known. Leaving: only the per-user reservation is left to end, with this outcome.
   */
  datatype Stage = Reserved | Admitted | Leaving(outcome: Outcome)

  datatype Login = Login(userKey: Key, address: Option<Key>, stage: Stage)

  /** The runs of calls of the per-user and of the per-address limiter, and the logins in flight. */
  datatype World = World(now: int, users: Run, addresses: Run, logins: map<nat, Login>)

  datatype Limits = Limits(users: Config, addresses: Config)

  datatype Action =
    | Arrive(id: nat, userKey: Key, address: Option<Key>, at: int)
    | AskAddress(id: nat, at: int)
    | EndAddress(id: nat, found: Credentials, at: int)
    | EndUser(id: nat, found: Credentials, at: int)

  predicate HoldsAddress(l: Login, k: Key) {
    l.stage == Admitted && l.address == Some(k)
  }

  predicate Can(w: World, a: Action) {
    && w.now <= a.at
    && match a
       case Arrive(id, _, _, _) => id !in w.logins
       case AskAddress(id, _) => id in w.logins && w.logins[id].stage == Reserved
       case EndAddress(id, _, _) => id in w.logins && w.logins[id].stage == Admitted && w.logins[id].address.Some?
       case EndUser(id, _, _) =>
         id in w.logins && (w.logins[id].stage.Leaving?
           || (w.logins[id].stage == Admitted && w.logins[id].address.None?))
  }

  function Do(c: Limits, w: World, a: Action): World
    requires Can(w, a)
  {
    match a
    case Arrive(id, userKey, address, at) =>
      var ok := Allowed(c.users, After(c.users, w.users), userKey, at).1.ok;
      w.(now := at, users := w.users + [Attempt(userKey, at)],
         logins := if ok then w.logins[id := Login(userKey, address, Reserved)] else w.logins)
    case AskAddress(id, at) =>
      var l := w.logins[id];
      if l.address.None? then w.(now := at, logins := w.logins[id := l.(stage := Admitted)])
      else
        var ok := Allowed(c.addresses, After(c.addresses, w.addresses), l.address.value, at).1.ok;
        w.(now := at, addresses := w.addresses + [Attempt(l.address.value, at)],
           logins := w.logins[id := l.(stage := if ok then Admitted else Leaving(Released))])
    case EndAddress(id, found, at) =>
      var l := w.logins[id];
      w.(now := at, addresses := w.addresses + [Ended(l.address.value, AddressOutcome(found), at)],
         logins := w.logins[id := l.(stage := Leaving(UserOutcome(found)))])
    case EndUser(id, found, at) =>
      var l := w.logins[id];
      var outcome := if l.stage.Leaving? then l.stage.outcome else UserOutcome(found);
      w.(now := at, users := w.users + [Ended(l.userKey, outcome, at)], logins := w.logins - {id})
  }

  /** The logins in flight that hold a reservation of the key. */
  function OfUser(w: World, k: Key): set<nat> {
    set id | id in w.logins && w.logins[id].userKey == k
  }

  function OfAddress(w: World, k: Key): set<nat> {
    set id | id in w.logins && HoldsAddress(w.logins[id], k)
  }

  /** Both runs are legal, and what they owe is exactly what the logins in flight hold. */
  ghost predicate Ok(c: Limits, w: World) {
    && Timely(c.users, w.users, w.now) && Timely(c.addresses, w.addresses, w.now)
    && (forall k :: Outstanding(c.users, w.users, k) == |OfUser(w, k)|)
    && (forall k :: Outstanding(c.addresses, w.addresses, k) == |OfAddress(w, k)|)
  }

  lemma TimelyLater(cfg: Config, run: Run, now: int, later: int)
    requires Timely(cfg, run, now) && now <= later
    ensures Timely(cfg, run, later)
  {
  }

  /** One more attempt: granted, it is one more reservation of its key. */
  lemma Attempted(cfg: Config, run: Run, now: int, key: Key, at: int)
    requires Timely(cfg, run, now) && now <= at
    ensures Timely(cfg, run + [Attempt(key, at)], at)
    ensures forall k ::
      Outstanding(cfg, run + [Attempt(key, at)], k) == Outstanding(cfg, run, k) + Owed(cfg, run, key, at, k)
  {
    TimelyLater(cfg, run, now, at);
    Extend(cfg, run, Attempt(key, at));
    forall k
      ensures Outstanding(cfg, run + [Attempt(key, at)], k) == Outstanding(cfg, run, k) + Owed(cfg, run, key, at, k)
    {
      OutstandingMore(cfg, run, Attempt(key, at), k);
    }
  }

  function Owed(cfg: Config, run: Run, key: Key, at: int, k: Key): nat {
    if k == key && Allowed(cfg, After(cfg, run), key, at).1.ok then 1 else 0
  }

  lemma ArriveGranted(w: World, u: World, id: nat, l: Login)
    requires id !in w.logins && u.logins == w.logins[id := l]
    ensures |OfUser(u, l.userKey)| == |OfUser(w, l.userKey)| + 1
  {
    assert OfUser(u, l.userKey) == OfUser(w, l.userKey) + {id};
  }

  lemma ArriveOther(w: World, u: World, id: nat, l: Login, k: Key)
    requires id !in w.logins && u.logins == w.logins[id := l] && k != l.userKey
    ensures OfUser(u, k) == OfUser(w, k)
  {
  }

  /** A login that arrives holds its user key, if granted, and no address yet. */
  lemma ArriveHolds(w: World, u: World, id: nat, l: Login, ok: bool)
    requires id !in w.logins && l.stage == Reserved
    requires u.logins == if ok then w.logins[id := l] else w.logins
    ensures forall k :: |OfUser(u, k)| == |OfUser(w, k)| + if ok && k == l.userKey then 1 else 0
    ensures forall k :: OfAddress(u, k) == OfAddress(w, k)
  {
    forall k ensures |OfUser(u, k)| == |OfUser(w, k)| + if ok && k == l.userKey then 1 else 0 {
      if ok && k == l.userKey { ArriveGranted(w, u, id, l); } else if ok { ArriveOther(w, u, id, l, k); }
    }
  }

  lemma ArriveOk(c: Limits, w: World, a: Action)
    requires Ok(c, w) && Can(w, a) && a.Arrive?
    ensures Ok(c, Do(c, w, a))
  {
    var ok := Allowed(c.users, After(c.users, w.users), a.userKey, a.at).1.ok;
    ArriveHolds(w, Do(c, w, a), a.id, Login(a.userKey, a.address, Reserved), ok);
    Attempted(c.users, w.users, w.now, a.userKey, a.at);
    TimelyLater(c.addresses, w.addresses, w.now, a.at);
  }

  function Holds(l: Login, stage: Stage, k: Key): nat {
    if stage == Admitted && l.address == Some(k) then 1 else 0
  }

  lemma AskAddressOf(w: World, u: World, id: nat, stage: Stage, k: Key)
    requires id in w.logins && w.logins[id].stage == Reserved
    requires u.logins == w.logins[id := w.logins[id].(stage := stage)]
    ensures |OfAddress(u, k)| == |OfAddress(w, k)| + Holds(w.logins[id], stage, k)
  {
    assert OfAddress(u, k) == OfAddress(w, k)
      + if stage == Admitted && w.logins[id].address == Some(k) then {id} else {};
  }

  /** A login that is answered about its address keeps its user key, and holds the address if admitted. */
  lemma AskHolds(w: World, u: World, id: nat, stage: Stage)
    requires id in w.logins && w.logins[id].stage == Reserved
    requires u.logins == w.logins[id := w.logins[id].(stage := stage)]
    ensures forall k :: OfUser(u, k) == OfUser(w, k)
    ensures forall k :: |OfAddress(u, k)| == |OfAddress(w, k)| + Holds(w.logins[id], stage, k)
  {
    forall k ensures |OfAddress(u, k)| == |OfAddress(w, k)| + Holds(w.logins[id], stage, k) {
      AskAddressOf(w, u, id, stage, k);
    }
  }

  lemma AskAddressOk(c: Limits, w: World, a: Action)
    requires Ok(c, w) && Can(w, a) && a.AskAddress?
    ensures Ok(c, Do(c, w, a))
  {
    var u, l := Do(c, w, a), w.logins[a.id];
    AskHolds(w, u, a.id, u.logins[a.id].stage);
    TimelyLater(c.users, w.users, w.now, a.at);
    if l.address.Some? {
      Attempted(c.addresses, w.addresses, w.now, l.address.value, a.at);
    } else {
      TimelyLater(c.addresses, w.addresses, w.now, a.at);
    }
  }

  /** A login whose address is ended keeps its user key only. */
  lemma EndHolds(w: World, u: World, id: nat, key: Key, outcome: Outcome)
    requires id in w.logins && HoldsAddress(w.logins[id], key)
    requires u.logins == w.logins[id := w.logins[id].(stage := Leaving(outcome))]
    ensures forall k :: OfUser(u, k) == OfUser(w, k)
    ensures id in OfAddress(w, key) && OfAddress(u, key) == OfAddress(w, key) - {id}
    ensures forall k :: k != key ==> OfAddress(u, k) == OfAddress(w, k)
  {
  }

  /** One more Finish of a key with reservations: one fewer of them. */
  lemma Finished(cfg: Config, run: Run, now: int, key: Key, outcome: Outcome, at: int)
    requires Timely(cfg, run, now) && now <= at && Outstanding(cfg, run, key) > 0
    ensures Timely(cfg, run + [Ended(key, outcome, at)], at)
    ensures var longer := run + [Ended(key, outcome, at)];
      forall k :: Outstanding(cfg, longer, k) == Outstanding(cfg, run, k) - if k == key then 1 else 0
  {
    var longer := run + [Ended(key, outcome, at)];
    TimelyLater(cfg, run, now, at);
    Extend(cfg, run, Ended(key, outcome, at));
    forall k ensures Outstanding(cfg, longer, k) == Outstanding(cfg, run, k) - if k == key then 1 else 0 {
      OutstandingMore(cfg, run, Ended(key, outcome, at), k);
    }
  }

  lemma EndAddressOk(c: Limits, w: World, a: Action)
    requires Ok(c, w) && Can(w, a) && a.EndAddress?
    ensures Ok(c, Do(c, w, a))
  {
    hide Outstanding, Timely;
    var key := w.logins[a.id].address.value;
    EndHolds(w, Do(c, w, a), a.id, key, UserOutcome(a.found));
    hide OfUser, OfAddress;
    TimelyLater(c.users, w.users, w.now, a.at);
    assert |OfAddress(w, key)| > 0;
    Finished(c.addresses, w.addresses, w.now, key, AddressOutcome(a.found), a.at);
  }

  /** A login that leaves held its user key, and no address any more. */
  lemma LeaveHolds(w: World, u: World, id: nat)
    requires id in w.logins && u.logins == w.logins - {id}
    requires w.logins[id].stage == Admitted ==> w.logins[id].address.None?
    ensures forall k :: OfAddress(u, k) == OfAddress(w, k)
    ensures var key := w.logins[id].userKey;
      && id in OfUser(w, key) && OfUser(u, key) == OfUser(w, key) - {id}
      && forall k :: k != key ==> OfUser(u, k) == OfUser(w, k)
  {
  }

  lemma EndUserOk(c: Limits, w: World, a: Action)
    requires Ok(c, w) && Can(w, a) && a.EndUser?
    ensures Ok(c, Do(c, w, a))
  {
    hide Outstanding, Timely;
    var l := w.logins[a.id];
    LeaveHolds(w, Do(c, w, a), a.id);
    hide OfUser, OfAddress;
    TimelyLater(c.addresses, w.addresses, w.now, a.at);
    assert |OfUser(w, l.userKey)| > 0;
    var outcome := if l.stage.Leaving? then l.stage.outcome else UserOutcome(a.found);
    Finished(c.users, w.users, w.now, l.userKey, outcome, a.at);
  }

  ghost predicate Next(c: Limits, w: World, u: World) {
    exists a :: Can(w, a) && u == Do(c, w, a)
  }

  /** Step i of the run. */
  ghost predicate Stepped(c: Limits, ws: seq<World>, i: nat)
    requires 0 < i < |ws|
  {
    Next(c, ws[i - 1], ws[i])
  }

  lemma NextOk(c: Limits, w: World, u: World)
    requires Ok(c, w) && Next(c, w, u)
    ensures Ok(c, u)
  {
    hide Ok;
    var a :| Can(w, a) && u == Do(c, w, a);
    match a
    case Arrive(_, _, _, _) => ArriveOk(c, w, a);
    case AskAddress(_, _) => AskAddressOk(c, w, a);
    case EndAddress(_, _, _) => EndAddressOk(c, w, a);
    case EndUser(_, _, _) => EndUserOk(c, w, a);
  }

  /** An execution starts with fresh limiters, at least one window after Go's zero time. */
  ghost predicate IsExecution(c: Limits, ws: seq<World>) {
    && ws != [] && ws[0] == World(ws[0].now, [], [], map[])
    && 0 < c.users.window <= ws[0].now && 0 < c.addresses.window <= ws[0].now
    && forall i :: 0 < i < |ws| ==> Stepped(c, ws, i)
  }

  /**
   However logins interleave, both limiters see a legal run, and what each key has outstanding is the
   number of logins in flight that hold it.
   */
  lemma {:induction false} AlwaysLegal(c: Limits, ws: seq<World>, i: nat)
    requires IsExecution(c, ws) && i < |ws|
    ensures Ok(c, ws[i])
    ensures Legal(c.users, ws[i].users) && Legal(c.addresses, ws[i].addresses)
  {
    if i == 0 {
      forall k ensures OfUser(ws[0], k) == {} && OfAddress(ws[0], k) == {} {}
    } else {
      AlwaysLegal(c, ws, i - 1);
      assert Stepped(c, ws, i);
      NextOk(c, ws[i - 1], ws[i]);
    }
  }

  /** Once no login is in flight, no reservation is outstanding: none leaks, whatever the paths taken. */
  lemma NoneLeaks(c: Limits, ws: seq<World>, i: nat, k: Key)
    requires IsExecution(c, ws) && i < |ws| && ws[i].logins == map[]
    ensures Outstanding(c.users, ws[i].users, k) == 0 && Outstanding(c.addresses, ws[i].addresses, k) == 0
  {
    AlwaysLegal(c, ws, i);
    assert OfUser(ws[i], k) == {} && OfAddress(ws[i], k) == {};
  }

  /** So the rate bound holds for the logins of one user, however they interleave with all others. */
  lemma LoginRateBound(c: Limits, ws: seq<World>, i: nat, key: Key, from: int)
    requires IsExecution(c, ws) && i < |ws|
    requires forall n :: 0 <= n < |ws[i].users| && from <= ws[i].users[n].at < from + c.users.window ==>
      !Succeeds(ws[i].users[n], key)
    ensures Failures(ws[i].users, key, from, from + c.users.window) <= 2 * c.users.maxFailures
  {
    AlwaysLegal(c, ws, i);
    RateBound(c.users, ws[i].users, key, from);
  }

  // ---------------------------------------------------------------- the handler

  /** The two limiters have seen exactly the calls of this state. */
  ghost predicate Linked(w: World, users: Limiter, addresses: Limiter)
    reads users, addresses
  {
    users != addresses && users.Valid() && addresses.Valid() && w.users == users.calls && w.addresses == addresses.calls
  }

  /** Steps of the machine, from w on. */
  ghost predicate IsPath(c: Limits, w: World, path: seq<World>) {
    path != [] && path[0] == w && forall i :: 0 < i < |path| ==> Stepped(c, path, i)
  }

  /** The steps lead from w to u. */
  ghost predicate Leads(c: Limits, w: World, path: seq<World>, u: World) {
    IsPath(c, w, path) && path[|path| - 1] == u
  }

  lemma {:induction false} PathOk(c: Limits, w: World, path: seq<World>)
    requires IsPath(c, w, path) && Ok(c, w)
    ensures Ok(c, path[|path| - 1])
  {
    if |path| > 1 {
      var before := path[..|path| - 1];
      forall i | 0 < i < |before| ensures Stepped(c, before, i) { assert Stepped(c, path, i); }
      PathOk(c, w, before);
      assert Stepped(c, path, |path| - 1);
      NextOk(c, path[|path| - 2], path[|path| - 1]);
    }
  }

  /** The calls made since `run` end every reservation they made, and no other. */
  ghost predicate Balanced(cfg: Config, run: Run, longer: Run) {
    Legal(cfg, longer) && forall k :: Outstanding(cfg, longer, k) == Outstanding(cfg, run, k)
  }

  /** Steps that leave the logins in flight as they were leave nothing reserved. */
  lemma PathBalanced(c: Limits, w: World, path: seq<World>, u: World)
    requires Leads(c, w, path, u) && Ok(c, w) && u.logins == w.logins
    ensures Balanced(c.users, w.users, u.users) && Balanced(c.addresses, w.addresses, u.addresses)
  {
    PathOk(c, w, path);
    forall k ensures OfUser(u, k) == OfUser(w, k) && OfAddress(u, k) == OfAddress(w, k) {}
  }

  ghost predicate Admits(cfg: Config, run: Run, key: Key, at: int) {
    Allowed(cfg, After(cfg, run), key, at).1.ok
  }

  ghost predicate AdmitsAddress(cfg: Config, run: Run, address: Option<Key>, at: int) {
    address.Some? ==> Admits(cfg, run, address.value, at)
  }

  /** One login: who asks from where, what the credential check finds, and the four clock readings. */
  datatype Request = Request(userKey: Key, address: Option<Key>, found: Credentials, at: (int, int, int, int))

  /** Its calls of the per-user limiter, given what the two limiters answer. */
  function UserCalls(r: Request, user: bool, addr: bool): Run {
    if !user then [Attempt(r.userKey, r.at.0)]
    else [Attempt(r.userKey, r.at.0), Ended(r.userKey, if addr then UserOutcome(r.found) else Released, r.at.3)]
  }

  /** And of the per-address limiter, which is not asked when the user is refused or the address unknown. */
  function AddressCalls(r: Request, user: bool, addr: bool): Run {
    if !user || r.address.None? then []
    else if !addr then [Attempt(r.address.value, r.at.1)]
    else [Attempt(r.address.value, r.at.1), Ended(r.address.value, AddressOutcome(r.found), r.at.2)]
  }

  /**
   One admin login: a reservation in the per-user limiter, then one in the per-address limiter, each
   ended exactly once on every path, the address first. The address is None when the client could not
   be identified. Its calls are steps of the machine: `path` leads from the state w to the state
   `after`, in which the login has left nothing behind.
   */
  method AdminLogin(users: Limiter, addresses: Limiter, r: Request, ghost w: World, ghost id: nat)
    returns (admitted: bool, ghost path: seq<World>, ghost after: World)
    requires Linked(w, users, addresses) && Ok(Limits(users.cfg, addresses.cfg), w) && id !in w.logins
    requires w.now <= r.at.0 <= r.at.1 <= r.at.2 <= r.at.3
    modifies users, addresses
    ensures Leads(Limits(users.cfg, addresses.cfg), w, path, after)
    ensures Linked(after, users, addresses) && after.logins == w.logins
    ensures Balanced(users.cfg, old(users.calls), users.calls)
    ensures Balanced(addresses.cfg, old(addresses.calls), addresses.calls)
    ensures var user := Admits(users.cfg, old(users.calls), r.userKey, r.at.0);
      var addr := AdmitsAddress(addresses.cfg, old(addresses.calls), r.address, r.at.1);
      && admitted == (user && addr)
      && users.calls == old(users.calls) + UserCalls(r, user, addr)
      && addresses.calls == old(addresses.calls) + AddressCalls(r, user, addr)
  {
    hide Allowed, After, Ok, Leads, Balanced;
    path, after := LoginPath(Limits(users.cfg, addresses.cfg), w, id, r);
    PathBalanced(Limits(users.cfg, addresses.cfg), w, path, after);
    var ok, retry := users.Allow(r.userKey, r.at.0);
    if !ok { return false, path, after; }
    var userOutcome, addressOutcome := Released, Released;
    if r.address.Some? {
      ok, retry := addresses.Allow(r.address.value, r.at.1);
      if !ok {
        users.Finish(r.userKey, userOutcome, r.at.3);
        return false, path, after;
      }
    }
    match r.found {
      case UnknownUser | WrongPassword => userOutcome, addressOutcome := Failed, Failed;
      case DatabaseError =>
      case Right => userOutcome := Succeeded;
    }
    if r.address.Some? {
      addresses.Finish(r.address.value, addressOutcome, r.at.2);
    }
    users.Finish(r.userKey, userOutcome, r.at.3);
    return true, path, after;
  }

  /** The steps of one login on its own. */
  lemma LoginPath(c: Limits, w: World, id: nat, r: Request) returns (path: seq<World>, after: World)
    requires id !in w.logins && w.now <= r.at.0 <= r.at.1 <= r.at.2 <= r.at.3
    ensures Leads(c, w, path, after) && after.logins == w.logins
    ensures var user := Admits(c.users, w.users, r.userKey, r.at.0);
      var addr := AdmitsAddress(c.addresses, w.addresses, r.address, r.at.1);
      && after.users == w.users + UserCalls(r, user, addr)
      && after.addresses == w.addresses + AddressCalls(r, user, addr)
  {
    hide Allowed, After, Leads;
    path := Start(c, w);
    path, after := Walk(c, w, path, w, Arrive(id, r.userKey, r.address, r.at.0));
    if !Admits(c.users, w.users, r.userKey, r.at.0) { return; }
    path, after := Walk(c, w, path, after, AskAddress(id, r.at.1));
    if AdmitsAddress(c.addresses, w.addresses, r.address, r.at.1) && r.address.Some? {
      path, after := Walk(c, w, path, after, EndAddress(id, r.found, r.at.2));
    }
    path, after := Walk(c, w, path, after, EndUser(id, r.found, r.at.3));
  }

  lemma Start(c: Limits, w: World) returns (path: seq<World>)
    ensures Leads(c, w, path, w)
  {
    path := [w];
  }

  lemma Walk(c: Limits, w: World, path: seq<World>, u: World, a: Action) returns (longer: seq<World>, next: World)
    requires Leads(c, w, path, u) && Can(u, a)
    ensures Leads(c, w, longer, next) && next == Do(c, u, a)
  {
    next := Do(c, u, a);
    longer := path + [next];
    forall i | 0 < i < |longer| ensures Stepped(c, longer, i) {
      if i < |path| { assert Stepped(c, path, i); }
    }
  }
}
