/** The premium ledger. Every operation is a guard that reads the tables and, later, a transaction
    that writes them; requests may interleave at the two, and at the reads inside a transaction. */
module Premium {
  import opened Common

  datatype SubStatus = Active | Expired | Revoked

  datatype PremiumStatus = FREE | PREMIUM | EXPIRED | REVOKED | TRIAL

  /** Who activated: an administrator, or the constant SYSTEM_PAYMENT. */
  datatype Actor = Admin(id: string) | SystemPayment

  datatype User = User(isPremium: bool, expiry: Option<int>, status: PremiumStatus)

  datatype Row = Row(user: string, actor: Actor, activation: int, expiry: int, status: SubStatus)

  datatype Action = Activate | Renew | Revoke

  datatype History = History(user: string, action: Action, previous: Option<int>, next: int, actor: Actor)

  datatype Subscription = Subscription(order: string, user: string, expiry: int)

  datatype Db = Db(users: map<string, User>, rows: seq<Row>, history: seq<History>, subs: seq<Subscription>)

  const DAY: int := 86400000

  // ---------------------------------------------------------------- transactions

  /** A request past its guard, with what it has read. reach is how many rows the user had when the update
      of the rows was made: rows inserted between that and the commit are not touched. */
  datatype Commit =
    | CActivate(user: string, actor: Actor, activation: int, expiry: int)
    | CRenew(user: string, admin: string, previous: int, expiry: int, reach: nat)
    | CRevoke(user: string, admin: string, seen: Option<int>, reach: nat)
    | CExpire(users: set<string>, at: int)
    | CPay(order: string, user: string, sawSubscription: bool, durationDays: Option<int>)
    | CDelete(user: string)

  function UpdateMany(rows: seq<Row>, f: Row -> Row): (r: seq<Row>)
    ensures |r| == |rows| && forall i :: 0 <= i < |rows| ==> r[i] == f(rows[i])
  {
    seq(|rows|, i requires 0 <= i < |rows| => f(rows[i]))
  }

  /** The update of the first reach rows of one user's. */
  function UpdateFirst(own: seq<Row>, reach: nat, f: Row -> Row): (r: seq<Row>)
    ensures |r| == |own| && forall i :: 0 <= i < |own| ==> r[i] == if i < reach then f(own[i]) else own[i]
  {
    seq(|own|, i requires 0 <= i < |own| => if i < reach then f(own[i]) else own[i])
  }

  /** The same in the table of all users. */
  function UpdateOwn(rows: seq<Row>, user: string, reach: nat, f: Row -> Row): seq<Row> {
    if rows == [] then []
    else
      var most, last := rows[..|rows| - 1], rows[|rows| - 1];
      UpdateOwn(most, user, reach, f) +
      [if last.user == user && |Filter(RowOf(user), most)| < reach then f(last) else last]
  }

  function RenewRow(user: string, expiry: int): Row -> Row {
    (r: Row) => if r.user == user && r.status == Active then r.(expiry := expiry) else r
  }

  function RevokeRow(user: string): Row -> Row {
    (r: Row) => if r.user == user && r.status == Active then r.(status := Revoked) else r
  }

  function ExpireRow(users: set<string>, at: int): Row -> Row {
    (r: Row) => if r.user in users && r.status == Active && r.expiry < at then r.(status := Expired) else r
  }

  /** The rows of one user, in the order of their insertion. */
  function Own(db: Db, user: string): seq<Row> {
    Filter(RowOf(user), db.rows)
  }

  function ActivateTables(db: Db, user: string, actor: Actor, activation: int, expiry: int): Db {
    db.(rows := db.rows + [Row(user, actor, activation, expiry, Active)],
        users := db.users[user := User(true, Some(expiry), PREMIUM)],
        history := db.history + [History(user, Activate, None, expiry, actor)])
  }

  function RowOf(user: string): Row -> bool {
    (r: Row) => r.user == user
  }

  function HistoryOf(user: string): History -> bool {
    (h: History) => h.user == user
  }

  function SubOf(user: string): Subscription -> bool {
    (s: Subscription) => s.user == user
  }

  function Not<T>(p: T -> bool): T -> bool {
    x => !p(x)
  }

  function HasOrder(subs: seq<Subscription>, order: string): bool {
    exists i :: 0 <= i < |subs| && subs[i].order == order
  }

  datatype Outcome = Done | AlreadyActivated | PlanNotFound | NoSuchUser | DuplicateOrder

  /** What a transaction answers. All but Done leave the tables alone. */
  function OutcomeOf(db: Db, c: Commit): Outcome {
    match c
    case CExpire(_, _) => Done
    case CPay(order, user, saw, duration) =>
      if saw then AlreadyActivated
      else if duration.None? then PlanNotFound
      else if user !in db.users then NoSuchUser
      else if HasOrder(db.subs, order) then DuplicateOrder
      else Done
    case _ => if c.user in db.users then Done else NoSuchUser
  }

  function Apply(db: Db, c: Commit, now: int): Db {
    if OutcomeOf(db, c) != Done then db
    else
      match c
      case CActivate(user, actor, activation, expiry) => ActivateTables(db, user, actor, activation, expiry)
      case CRenew(user, admin, previous, expiry, reach) =>
        db.(rows := UpdateOwn(db.rows, user, reach, RenewRow(user, expiry)),
            users := db.users[user := db.users[user].(expiry := Some(expiry), status := PREMIUM)],
            history := db.history + [History(user, Renew, Some(previous), expiry, Admin(admin))])
      case CRevoke(user, admin, seen, reach) =>
        db.(rows := UpdateOwn(db.rows, user, reach, RevokeRow(user)),
            users := db.users[user := User(false, Some(now), REVOKED)],
            history := db.history + [History(user, Revoke, seen, now, Admin(admin))])
      case CExpire(users, at) =>
        db.(rows := UpdateMany(db.rows, ExpireRow(users, at)),
            users := map u | u in db.users ::
                       if u in users then db.users[u].(isPremium := false, status := EXPIRED) else db.users[u])
      case CPay(order, user, _, duration) =>
        var expiry := now + duration.value * DAY;
        ActivateTables(db, user, SystemPayment, now, expiry).(subs := db.subs + [Subscription(order, user, expiry)])
      // The deletion of a user cascades to the user's rows in the other tables.
      case CDelete(user) =>
        Db(db.users - {user}, Filter(Not(RowOf(user)), db.rows), Filter(Not(HistoryOf(user)), db.history),
           Filter(Not(SubOf(user)), db.subs))
  }

  // ---------------------------------------------------------------- guards

  datatype Request =
    | ActivateRequest(user: string, admin: string, activation: int, expiry: int)
    | RenewRequest(user: string, admin: string, expiry: int)
    | RevokeRequest(user: string, admin: string)
    | ExpiryJob
    | PaymentRequest(order: string, user: string, plan: string)
    | DeleteRequest(user: string, profileComplete: bool)

  function Overdue(users: map<string, User>, now: int): set<string> {
    set u | u in users && users[u].isPremium && users[u].expiry.Some? && users[u].expiry.value < now
  }

  /** The service's checks; None is an exception, or nothing to do. */
  function Guard(db: Db, plans: map<string, int>, r: Request, now: int): Option<Commit> {
    match r
    case ActivateRequest(user, admin, activation, expiry) =>
      if user !in db.users || db.users[user].isPremium || expiry <= activation || expiry <= now then None
      else Some(CActivate(user, Admin(admin), activation, expiry))
    case RenewRequest(user, admin, expiry) =>
      if user !in db.users || !db.users[user].isPremium then None
      else
        (match db.users[user].expiry
         case None => None
         case Some(current) => if expiry <= current then None else Some(CRenew(user, admin, current, expiry, |Own(db, user)|)))
    case RevokeRequest(user, admin) =>
      if user !in db.users || !db.users[user].isPremium then None
      else Some(CRevoke(user, admin, db.users[user].expiry, |Own(db, user)|))
    case ExpiryJob =>
      if Overdue(db.users, now) == {} then None else Some(CExpire(Overdue(db.users, now), now))
    case PaymentRequest(order, user, plan) =>
      Some(CPay(order, user, HasOrder(db.subs, order), if plan in plans then Some(plans[plan]) else None))
    case DeleteRequest(user, profileComplete) =>
      if user !in db.users || profileComplete then None else Some(CDelete(user))
  }

  /** A request served with nothing in between guard and transaction. */
  function Serve(db: Db, plans: map<string, int>, r: Request, now: int): Db {
    var c := Guard(db, plans, r, now);
    if c.None? then db else Apply(db, c.value, now)
  }

  /** Access decision of the premium guard for a user who is not being impersonated. */
  predicate CanActivate(u: User, now: int) {
    u.isPremium && !(u.expiry.Some? && u.expiry.value < now)
  }

  // ---------------------------------------------------------------- interleaved runs

  /** The tables and the requests that are past their guard. */
  datatype System = System(db: Db, pending: seq<Commit>)

  /** Between guard and commit, the transaction of a revocation reads the previous expiry, and those of
      renewals and revocations update the rows that the user has by then. */
  datatype Step =
    | Begin(request: Request, now: int)
    | ReadPrevious(k: nat)
    | ReachRows(k: nat)
    | Finish(k: nat, now: int)

  predicate Enabled(s: System, step: Step) {
    !step.Begin? ==> step.k < |s.pending|
  }

  function WithPrevious(db: Db, c: Commit): Commit {
    if c.CRevoke? then c.(seen := if c.user in db.users then db.users[c.user].expiry else None) else c
  }

  function WithReach(db: Db, c: Commit): Commit {
    if c.CRenew? || c.CRevoke? then c.(reach := |Own(db, c.user)|) else c
  }

  function StepTo(s: System, plans: map<string, int>, step: Step): System
    requires Enabled(s, step)
  {
    match step
    case Begin(r, now) =>
      var c := Guard(s.db, plans, r, now);
      if c.None? then s else s.(pending := s.pending + [c.value])
    case ReadPrevious(k) => s.(pending := s.pending[k := WithPrevious(s.db, s.pending[k])])
    case ReachRows(k) => s.(pending := s.pending[k := WithReach(s.db, s.pending[k])])
    case Finish(k, now) =>
      System(Apply(s.db, s.pending[k], now), s.pending[..k] + s.pending[k + 1..])
  }

  ghost predicate Runs(s: System, plans: map<string, int>, steps: seq<Step>)
    decreases |steps|
  {
    steps == [] || (Enabled(s, steps[0]) && Runs(StepTo(s, plans, steps[0]), plans, steps[1..]))
  }

  ghost function RunTo(s: System, plans: map<string, int>, steps: seq<Step>): System
    requires Runs(s, plans, steps)
    decreases |steps|
  {
    if steps == [] then s else RunTo(StepTo(s, plans, steps[0]), plans, steps[1..])
  }

  lemma OneMore(s: System, plans: map<string, int>, step: Step, rest: seq<Step>)
    requires Enabled(s, step) && Runs(StepTo(s, plans, step), plans, rest)
    ensures Runs(s, plans, [step] + rest)
    ensures RunTo(s, plans, [step] + rest) == RunTo(StepTo(s, plans, step), plans, rest)
  {
    assert ([step] + rest)[1..] == rest;
  }

  // ---------------------------------------------------------------- two overlapping requests

  function PremiumUser(expiry: int): User {
    User(true, Some(expiry), PREMIUM)
  }

  /** A user who is premium by one row. */
  function OnePremium(user: string, expiry: int): Db {
    Db(map[user := PremiumUser(expiry)], [Row(user, Admin(""), 0, expiry, Active)],
       [History(user, Activate, None, expiry, Admin(""))], [])
  }

  /** Begin, begin, finish the first, finish the second. */
  function BothPending(first: Request, second: Request, now: int): seq<Step> {
    [Begin(first, now)] + ([Begin(second, now)] + ([Finish(0, now)] + ([Finish(0, now)] + [])))
  }

  ghost predicate Leads(db: Db, plans: map<string, int>, steps: seq<Step>, end: Db) {
    Runs(System(db, []), plans, steps) && RunTo(System(db, []), plans, steps) == System(end, [])
  }

  lemma BothPendingRun(db: Db, plans: map<string, int>, first: Request, second: Request, now: int)
    requires Guard(db, plans, first, now).Some? && Guard(db, plans, second, now).Some?
    ensures var c1, c2 := Guard(db, plans, first, now).value, Guard(db, plans, second, now).value;
            Leads(db, plans, BothPending(first, second, now), Apply(Apply(db, c1, now), c2, now))
  {
    var c1, c2 := Guard(db, plans, first, now).value, Guard(db, plans, second, now).value;
    var s1, s2 := System(db, [c1]), System(db, [c1, c2]);
    var s3 := System(Apply(db, c1, now), [c2]);
    var s4 := System(Apply(Apply(db, c1, now), c2, now), []);
    assert StepTo(System(db, []), plans, Begin(first, now)) == s1 && StepTo(s1, plans, Begin(second, now)) == s2;
    assert StepTo(s2, plans, Finish(0, now)) == s3 && StepTo(s3, plans, Finish(0, now)) == s4;
    OneMore(s3, plans, Finish(0, now), []);
    OneMore(s2, plans, Finish(0, now), [Finish(0, now)] + []);
    OneMore(s1, plans, Begin(second, now), [Finish(0, now)] + ([Finish(0, now)] + []));
    OneMore(System(db, []), plans, Begin(first, now), [Begin(second, now)] + ([Finish(0, now)] + ([Finish(0, now)] + [])));
  }

  // ---------------------------------------------------------------- the rows of one user

  lemma UpdateSnoc(rows: seq<Row>, last: Row, f: Row -> Row)
    ensures UpdateMany(rows + [last], f) == UpdateMany(rows, f) + [f(last)]
  {
  }

  lemma {:induction false} UpdateFiltered(rows: seq<Row>, f: Row -> Row, user: string)
    requires forall r <- rows :: f(r).user == r.user
    ensures Filter(RowOf(user), UpdateMany(rows, f)) == UpdateMany(Filter(RowOf(user), rows), f)
  {
    if rows == [] {
    } else {
      var most, last := rows[..|rows| - 1], rows[|rows| - 1];
      assert rows == most + [last];
      UpdateFiltered(most, f, user);
      UpdateSnoc(most, last, f);
      FilterSnoc(RowOf(user), UpdateMany(most, f), f(last));
      FilterSnoc(RowOf(user), most, last);
      var kept := Filter(RowOf(user), most);
      if last.user == user {
        UpdateSnoc(kept, last, f);
      } else {
        assert kept + [] == kept && UpdateMany(kept, f) + [] == UpdateMany(kept, f);
      }
    }
  }

  lemma FirstSnoc(own: seq<Row>, last: Row, reach: nat, f: Row -> Row)
    ensures UpdateFirst(own + [last], reach, f) == UpdateFirst(own, reach, f) + [if |own| < reach then f(last) else last]
  {
  }

  lemma OwnSnoc(most: seq<Row>, last: Row, u: string, reach: nat, f: Row -> Row)
    ensures UpdateOwn(most + [last], u, reach, f) ==
            UpdateOwn(most, u, reach, f) + [if last.user == u && |Filter(RowOf(u), most)| < reach then f(last) else last]
  {
    assert (most + [last])[..|most|] == most;
  }

  lemma {:induction false} OwnUpdated(rows: seq<Row>, u: string, reach: nat, f: Row -> Row, user: string)
    requires forall r <- rows :: f(r).user == r.user
    ensures Filter(RowOf(user), UpdateOwn(rows, u, reach, f)) ==
            if u == user then UpdateFirst(Filter(RowOf(user), rows), reach, f) else Filter(RowOf(user), rows)
  {
    if rows == [] {
    } else {
      var most, last := rows[..|rows| - 1], rows[|rows| - 1];
      assert rows == most + [last] && last in rows;
      OwnUpdated(most, u, reach, f, user);
      OwnUpdatedSnoc(most, last, u, reach, f, user);
    }
  }

  lemma OwnUpdatedSnoc(most: seq<Row>, last: Row, u: string, reach: nat, f: Row -> Row, user: string)
    requires f(last).user == last.user
    requires Filter(RowOf(user), UpdateOwn(most, u, reach, f)) ==
             if u == user then UpdateFirst(Filter(RowOf(user), most), reach, f) else Filter(RowOf(user), most)
    ensures Filter(RowOf(user), UpdateOwn(most + [last], u, reach, f)) ==
            if u == user then UpdateFirst(Filter(RowOf(user), most + [last]), reach, f) else Filter(RowOf(user), most + [last])
  {
    var kept, updated := Filter(RowOf(user), most), UpdateOwn(most, u, reach, f);
    var last' := if last.user == u && |Filter(RowOf(u), most)| < reach then f(last) else last;
    OwnSnoc(most, last, u, reach, f);
    FilterSnoc(RowOf(user), updated, last');
    FilterSnoc(RowOf(user), most, last);
    if last.user == user {
      FirstSnoc(kept, last, reach, f);
    } else {
      assert Filter(RowOf(user), updated) + [] == Filter(RowOf(user), updated) && kept + [] == kept;
    }
  }

  /** An update that reaches all rows of the user. */
  lemma {:induction false} FullReach(rows: seq<Row>, user: string, reach: nat, f: Row -> Row)
    requires |Filter(RowOf(user), rows)| <= reach && forall r <- rows :: r.user != user ==> f(r) == r
    ensures UpdateOwn(rows, user, reach, f) == UpdateMany(rows, f)
  {
    if rows == [] {
    } else {
      var most, last := rows[..|rows| - 1], rows[|rows| - 1];
      assert rows == most + [last] && last in rows;
      FilterSnoc(RowOf(user), most, last);
      FullReach(most, user, reach, f);
      OwnSnoc(most, last, user, reach, f);
      UpdateSnoc(most, last, f);
    }
  }

  /** What a transaction makes of the rows of one user. */
  function UserRows(own: seq<Row>, c: Commit, now: int, user: string): seq<Row> {
    match c
    case CActivate(u, actor, activation, expiry) =>
      if u == user then own + [Row(u, actor, activation, expiry, Active)] else own
    case CRenew(u, _, _, expiry, reach) => if u == user then UpdateFirst(own, reach, RenewRow(u, expiry)) else own
    case CRevoke(u, _, _, reach) => if u == user then UpdateFirst(own, reach, RevokeRow(u)) else own
    case CExpire(users, at) => UpdateMany(own, ExpireRow(users, at))
    case CPay(_, u, _, duration) =>
      if u == user && duration.Some? then own + [Row(u, SystemPayment, now, now + duration.value * DAY, Active)] else own
    case CDelete(u) => if u == user then [] else own
  }

  /** The rows of the premium table after a transaction that is done. */
  function RowsAfter(rows: seq<Row>, c: Commit, now: int): seq<Row> {
    match c
    case CActivate(u, actor, activation, expiry) => rows + [Row(u, actor, activation, expiry, Active)]
    case CRenew(u, _, _, expiry, reach) => UpdateOwn(rows, u, reach, RenewRow(u, expiry))
    case CRevoke(u, _, _, reach) => UpdateOwn(rows, u, reach, RevokeRow(u))
    case CExpire(users, at) => UpdateMany(rows, ExpireRow(users, at))
    case CPay(_, u, _, duration) =>
      if duration.Some? then rows + [Row(u, SystemPayment, now, now + duration.value * DAY, Active)] else rows
    case CDelete(u) => Filter(Not(RowOf(u)), rows)
  }

  lemma ApplyRows(db: Db, c: Commit, now: int)
    requires OutcomeOf(db, c) == Done
    ensures Apply(db, c, now).rows == RowsAfter(db.rows, c, now)
  {
  }

  lemma RowsAfterOfUser(rows: seq<Row>, c: Commit, now: int, user: string)
    ensures Filter(RowOf(user), RowsAfter(rows, c, now)) == UserRows(Filter(RowOf(user), rows), c, now, user)
  {
    var own := Filter(RowOf(user), rows);
    assert own + [] == own;
    match c
    case CActivate(u, actor, activation, expiry) =>
      FilterSnoc(RowOf(user), rows, Row(u, actor, activation, expiry, Active));
    case CRenew(u, _, _, expiry, reach) => OwnUpdated(rows, u, reach, RenewRow(u, expiry), user);
    case CRevoke(u, _, _, reach) => OwnUpdated(rows, u, reach, RevokeRow(u), user);
    case CExpire(users, at) => UpdateFiltered(rows, ExpireRow(users, at), user);
    case CPay(_, u, _, duration) =>
      if duration.Some? {
        FilterSnoc(RowOf(user), rows, Row(u, SystemPayment, now, now + duration.value * DAY, Active));
      }
    case CDelete(u) => RowsAfterDeletion(rows, u, user);
  }

  lemma RowsOfUser(db: Db, c: Commit, now: int, user: string)
    requires OutcomeOf(db, c) == Done
    ensures Own(Apply(db, c, now), user) == UserRows(Own(db, user), c, now, user)
  {
    ApplyRows(db, c, now);
    RowsAfterOfUser(db.rows, c, now, user);
  }

  lemma RowsAfterDeletion(rows: seq<Row>, gone: string, user: string)
    ensures Filter(RowOf(user), Filter(Not(RowOf(gone)), rows)) == if gone == user then [] else Filter(RowOf(user), rows)
  {
    if gone == user {
      FilterOutside(RowOf(user), Not(RowOf(gone)), rows);
    } else {
      FilterWithin(RowOf(user), Not(RowOf(gone)), rows);
    }
  }

  // ---------------------------------------------------------------- agreement of users and rows

  predicate RunsAt(own: seq<Row>, i: int, expiry: int) {
    0 <= i < |own| && own[i].status == Active && own[i].expiry == expiry
  }

  /** A premium user has an ACTIVE row that expires when the user record says. */
  ghost predicate BackedBy(u: User, own: seq<Row>) {
    u.isPremium ==> u.expiry.Some? && exists i :: RunsAt(own, i, u.expiry.value)
  }

  ghost predicate Backed(db: Db, user: string)
    requires user in db.users
  {
    BackedBy(db.users[user], Own(db, user))
  }

  ghost predicate Agreement(db: Db) {
    forall u :: u in db.users ==> Backed(db, u)
  }

  /** A renewal of a premium user has reached an ACTIVE row, or one happens to end at the new expiry. */
  predicate Covers(own: seq<Row>, reach: nat, expiry: int) {
    exists i :: 0 <= i < |own| && own[i].status == Active && (i < reach || own[i].expiry == expiry)
  }

  predicate Covered(db: Db, c: Commit) {
    c.CRenew? && c.user in db.users && db.users[c.user].isPremium ==> Covers(Own(db, c.user), c.reach, c.expiry)
  }

  lemma RenewedBackedIff(own: seq<Row>, user: string, reach: nat, expiry: int)
    requires forall r <- own :: r.user == user
    ensures (exists i :: RunsAt(UpdateFirst(own, reach, RenewRow(user, expiry)), i, expiry)) <==> Covers(own, reach, expiry)
  {
    var after := UpdateFirst(own, reach, RenewRow(user, expiry));
    if Covers(own, reach, expiry) {
      var i :| 0 <= i < |own| && own[i].status == Active && (i < reach || own[i].expiry == expiry);
      assert own[i] in own && RunsAt(after, i, expiry);
    }
    if i :| RunsAt(after, i, expiry) {
      assert own[i] in own && own[i].status == Active;
    }
  }

  lemma OwnIsOwn(db: Db, user: string)
    ensures forall r <- Own(db, user) :: r.user == user
  {
    forall r | r in Own(db, user) ensures r.user == user {
      var i :| 0 <= i < |Own(db, user)| && Own(db, user)[i] == r;
      FilterSound(RowOf(user), db.rows, i);
    }
  }

  /** What a transaction makes of the record of one user. */
  function UserRecord(u: User, c: Commit, now: int, user: string): User {
    match c
    case CActivate(v, _, _, expiry) => if v == user then User(true, Some(expiry), PREMIUM) else u
    case CPay(_, v, _, duration) =>
      if v == user && duration.Some? then User(true, Some(now + duration.value * DAY), PREMIUM) else u
    case CRenew(v, _, _, expiry, _) => if v == user then u.(expiry := Some(expiry), status := PREMIUM) else u
    case CRevoke(v, _, _, _) => if v == user then User(false, Some(now), REVOKED) else u
    case CExpire(users, _) => if user in users then u.(isPremium := false, status := EXPIRED) else u
    case CDelete(_) => u
  }

  lemma RecordOfUser(db: Db, c: Commit, now: int, user: string)
    requires OutcomeOf(db, c) == Done
    ensures user in Apply(db, c, now).users <==> user in db.users && c != CDelete(user)
    ensures user in Apply(db, c, now).users ==> Apply(db, c, now).users[user] == UserRecord(db.users[user], c, now, user)
  {
  }

  lemma RecordStaysBacked(u: User, own: seq<Row>, c: Commit, now: int, user: string)
    requires BackedBy(u, own) && c != CDelete(user) && forall r <- own :: r.user == user
    ensures BackedBy(UserRecord(u, c, now, user), UserRows(own, c, now, user)) <==>
            (c.CRenew? && c.user == user && u.isPremium ==> Covers(own, c.reach, c.expiry))
  {
    var u', own' := UserRecord(u, c, now, user), UserRows(own, c, now, user);
    if c.CRenew? && c.user == user {
      RenewedBackedIff(own, user, c.reach, c.expiry);
    } else if u'.isPremium && |own'| > |own| {
      assert RunsAt(own', |own|, u'.expiry.value);
    } else if u'.isPremium {
      var i :| RunsAt(own, i, u.expiry.value);
      assert own[i] in own;
      assert RunsAt(own', i, u'.expiry.value);
    }
  }

  lemma UserStaysBacked(db: Db, c: Commit, now: int, user: string)
    requires OutcomeOf(db, c) == Done && user in db.users && Backed(db, user) && c != CDelete(user)
    ensures user in Apply(db, c, now).users
    ensures Backed(Apply(db, c, now), user) <==> (c.CRenew? && c.user == user ==> Covered(db, c))
  {
    RowsOfUser(db, c, now, user);
    RecordOfUser(db, c, now, user);
    OwnIsOwn(db, user);
    RecordStaysBacked(db.users[user], Own(db, user), c, now, user);
  }

  /** Whatever else the transactions have read, however stale: only a renewal that has missed the rows it
      should have extended breaks the agreement. */
  lemma ApplyKeepsAgreementIff(db: Db, c: Commit, now: int)
    requires Agreement(db)
    ensures Agreement(Apply(db, c, now)) <==> Covered(db, c)
  {
    var db' := Apply(db, c, now);
    if OutcomeOf(db, c) == Done {
      forall u | u in db'.users ensures Backed(db', u) <==> (c.CRenew? && c.user == u ==> Covered(db, c)) {
        RecordOfUser(db, c, now, u);
        assert u in db.users && Backed(db, u);
        UserStaysBacked(db, c, now, u);
      }
      if c.CRenew? {
        RecordOfUser(db, c, now, c.user);
      }
    }
  }

  ghost predicate AlwaysAgrees(s: System, plans: map<string, int>, steps: seq<Step>)
    requires Runs(s, plans, steps)
    decreases |steps|
  {
    Agreement(s.db) && (steps == [] || AlwaysAgrees(StepTo(s, plans, steps[0]), plans, steps[1..]))
  }

  ghost predicate AllCovered(s: System, plans: map<string, int>, steps: seq<Step>)
    requires Runs(s, plans, steps)
    decreases |steps|
  {
    steps == [] ||
    ((steps[0].Finish? ==> Covered(s.db, s.pending[steps[0].k])) && AllCovered(StepTo(s, plans, steps[0]), plans, steps[1..]))
  }

  /** Premium agreement throughout every interleaving of guards, reads and commits, if and only if every
      renewal of a premium user is covered when it commits. */
  lemma {:induction false} RunKeepsAgreementIff(s: System, plans: map<string, int>, steps: seq<Step>)
    requires Agreement(s.db) && Runs(s, plans, steps)
    ensures AlwaysAgrees(s, plans, steps) <==> AllCovered(s, plans, steps)
    decreases |steps|
  {
    if steps == [] {
    } else {
      var s' := StepTo(s, plans, steps[0]);
      if steps[0].Finish? {
        ApplyKeepsAgreementIff(s.db, s.pending[steps[0].k], steps[0].now);
      }
      if Agreement(s'.db) {
        RunKeepsAgreementIff(s', plans, steps[1..]);
      }
    }
  }

  /** No row of the user is inserted between a renewal's update of the rows and its commit. */
  ghost predicate AllReach(s: System, plans: map<string, int>, steps: seq<Step>)
    requires Runs(s, plans, steps)
    decreases |steps|
  {
    steps == [] ||
    ((steps[0].Finish? && s.pending[steps[0].k].CRenew? ==>
        |Own(s.db, s.pending[steps[0].k].user)| <= s.pending[steps[0].k].reach) &&
     AllReach(StepTo(s, plans, steps[0]), plans, steps[1..]))
  }

  /** So with renewals whose own statements nothing comes between, the agreement holds in every reachable
      state, whatever the guards have read. */
  lemma {:induction false} RunKeepsAgreement(s: System, plans: map<string, int>, steps: seq<Step>)
    requires Agreement(s.db) && Runs(s, plans, steps) && AllReach(s, plans, steps)
    ensures Agreement(RunTo(s, plans, steps).db)
    decreases |steps|
  {
    if steps == [] {
    } else {
      if steps[0].Finish? {
        var c := s.pending[steps[0].k];
        if c.CRenew? && c.user in s.db.users && s.db.users[c.user].isPremium {
          assert Backed(s.db, c.user);
        }
        ApplyKeepsAgreementIff(s.db, c, steps[0].now);
      }
      RunKeepsAgreement(StepTo(s, plans, steps[0]), plans, steps[1..]);
    }
  }

  /** Access granted means an ACTIVE subscription that has not expired. */
  lemma AccessMeansActive(db: Db, user: string, now: int)
    requires Agreement(db) && user in db.users && CanActivate(db.users[user], now)
    ensures exists r <- db.rows :: r.user == user && r.status == Active && now <= r.expiry
  {
    assert Backed(db, user);
    var i :| RunsAt(Own(db, user), i, db.users[user].expiry.value);
    FilterSound(RowOf(user), db.rows, i);
  }

  // ---------------------------------------------------------------- a renewal across a revocation and a payment

  /** The first request is past its guard when the second commits; it updates the rows; the third is
      guarded and commits; and the first goes on to the user record. */
  function Straddling(first: Request, second: Request, third: Request): seq<Step> {
    [Begin(first, 0)] + ([Begin(second, 0)] + ([Finish(1, 0)] + ([ReachRows(0)] + LastOfStraddling(third))))
  }

  function LastOfStraddling(third: Request): seq<Step> {
    [Begin(third, 0)] + ([Finish(1, 0)] + ([Finish(0, 0)] + []))
  }

  lemma LastStraddles(db: Db, plans: map<string, int>, c1: Commit, third: Request)
    requires Guard(db, plans, third, 0).Some?
    ensures var c3 := Guard(db, plans, third, 0).value;
            Runs(System(db, [c1]), plans, LastOfStraddling(third)) &&
            RunTo(System(db, [c1]), plans, LastOfStraddling(third)) == System(Apply(Apply(db, c3, 0), c1, 0), [])
  {
    var c3 := Guard(db, plans, third, 0).value;
    var paid := Apply(db, c3, 0);
    assert StepTo(System(db, [c1]), plans, Begin(third, 0)) == System(db, [c1, c3]);
    assert StepTo(System(db, [c1, c3]), plans, Finish(1, 0)) == System(paid, [c1]);
    assert StepTo(System(paid, [c1]), plans, Finish(0, 0)) == System(Apply(paid, c1, 0), []);
    OneMore(System(paid, [c1]), plans, Finish(0, 0), []);
    OneMore(System(db, [c1, c3]), plans, Finish(1, 0), [Finish(0, 0)] + []);
    OneMore(System(db, [c1]), plans, Begin(third, 0), [Finish(1, 0)] + ([Finish(0, 0)] + []));
  }

  lemma StraddlingRun(db: Db, plans: map<string, int>, first: Request, second: Request, third: Request)
    requires Guard(db, plans, first, 0).Some? && Guard(db, plans, second, 0).Some?
    requires Guard(Apply(db, Guard(db, plans, second, 0).value, 0), plans, third, 0).Some?
    ensures var c1, c2 := Guard(db, plans, first, 0).value, Guard(db, plans, second, 0).value;
            var db1 := Apply(db, c2, 0);
            var c3 := Guard(db1, plans, third, 0).value;
            Leads(db, plans, Straddling(first, second, third), Apply(Apply(db1, c3, 0), WithReach(db1, c1), 0))
  {
    var c1, c2 := Guard(db, plans, first, 0).value, Guard(db, plans, second, 0).value;
    var db1, rest := Apply(db, c2, 0), LastOfStraddling(third);
    assert StepTo(System(db, []), plans, Begin(first, 0)) == System(db, [c1]);
    assert StepTo(System(db, [c1]), plans, Begin(second, 0)) == System(db, [c1, c2]);
    assert StepTo(System(db, [c1, c2]), plans, Finish(1, 0)) == System(db1, [c1]);
    assert StepTo(System(db1, [c1]), plans, ReachRows(0)) == System(db1, [WithReach(db1, c1)]);
    LastStraddles(db1, plans, WithReach(db1, c1), third);
    OneMore(System(db1, [c1]), plans, ReachRows(0), rest);
    OneMore(System(db, [c1, c2]), plans, Finish(1, 0), [ReachRows(0)] + rest);
    OneMore(System(db, [c1]), plans, Begin(second, 0), [Finish(1, 0)] + ([ReachRows(0)] + rest));
    OneMore(System(db, []), plans, Begin(first, 0), [Begin(second, 0)] + ([Finish(1, 0)] + ([ReachRows(0)] + rest)));
  }

  lemma OwnRowOfOne(user: string, expiry: int)
    ensures Own(OnePremium(user, expiry), user) == [Row(user, Admin(""), 0, expiry, Active)]
  {
    FilterOne(RowOf(user), Row(user, Admin(""), 0, expiry, Active));
  }

  /** A user who is premium until 10 is renewed for ten days, revoked, and pays for one. */
  lemma StraddledRevocation(user: string) returns (c: Commit)
    ensures var db := OnePremium(user, 10);
            Guard(db, map["day" := 1], RevokeRequest(user, "b"), 0) == Some(c) &&
            Guard(db, map["day" := 1], RenewRequest(user, "a", 10 * DAY), 0) == Some(CRenew(user, "a", 10, 10 * DAY, 1)) &&
            Own(Apply(db, c, 0), user) == [Row(user, Admin(""), 0, 10, Revoked)] && user in Apply(db, c, 0).users &&
            Apply(db, c, 0).subs == []
  {
    c := CRevoke(user, "b", Some(10), 1);
    OwnRowOfOne(user, 10);
    RevokedOne(user, c);
  }

  lemma RevokedOne(user: string, c: Commit)
    requires c == CRevoke(user, "b", Some(10), 1)
    ensures var db1 := Apply(OnePremium(user, 10), c, 0);
            Own(db1, user) == [Row(user, Admin(""), 0, 10, Revoked)] && user in db1.users && db1.subs == []
  {
    OwnRowOfOne(user, 10);
    RowsOfUser(OnePremium(user, 10), c, 0, user);
  }

  lemma StraddledPayment(db: Db, user: string, order: string)
    requires user in db.users && db.subs == [] && Own(db, user) == [Row(user, Admin(""), 0, 10, Revoked)]
    ensures var c3, c1 := CPay(order, user, false, Some(1)), CRenew(user, "a", 10, 10 * DAY, 1);
            var end := Apply(Apply(db, c3, 0), c1, 0);
            Guard(db, map["day" := 1], PaymentRequest(order, user, "day"), 0) == Some(c3) &&
            Own(end, user) == [Row(user, Admin(""), 0, 10, Revoked), Row(user, SystemPayment, 0, DAY, Active)] &&
            user in end.users && end.users[user] == User(true, Some(10 * DAY), PREMIUM)
  {
    var c3, c1 := CPay(order, user, false, Some(1)), CRenew(user, "a", 10, 10 * DAY, 1);
    var paid := Apply(db, c3, 0);
    RowsOfUser(db, c3, 0, user);
    RecordOfUser(db, c3, 0, user);
    RowsOfUser(paid, c1, 0, user);
    RecordOfUser(paid, c1, 0, user);
  }

  /** The user has paid for one day, and is let in for ten. */
  lemma RenewalAcrossPayment(user: string, order: string) returns (end: Db)
    ensures Leads(OnePremium(user, 10), map["day" := 1],
                  Straddling(RenewRequest(user, "a", 10 * DAY), RevokeRequest(user, "b"), PaymentRequest(order, user, "day")), end)
    ensures user in end.users && CanActivate(end.users[user], 10 * DAY) && !Backed(end, user)
    ensures Own(end, user) == [Row(user, Admin(""), 0, 10, Revoked), Row(user, SystemPayment, 0, DAY, Active)]
  {
    var db := OnePremium(user, 10);
    var c2 := StraddledRevocation(user);
    StraddledPayment(Apply(db, c2, 0), user, order);
    StraddlingRun(db, map["day" := 1], RenewRequest(user, "a", 10 * DAY), RevokeRequest(user, "b"), PaymentRequest(order, user, "day"));
    end := Apply(Apply(Apply(db, c2, 0), CPay(order, user, false, Some(1)), 0), CRenew(user, "a", 10, 10 * DAY, 1), 0);
  }

  // ---------------------------------------------------------------- closed rows are frozen

  /** Rows are kept in place, closed ones unchanged; owner, activator and activation never change. */
  ghost predicate Grew(before: seq<Row>, after: seq<Row>) {
    |before| <= |after| &&
    forall i :: 0 <= i < |before| ==>
      (before[i].status != Active ==> after[i] == before[i]) &&
      after[i].user == before[i].user && after[i].actor == before[i].actor && after[i].activation == before[i].activation
  }

  lemma UserRowsGrow(own: seq<Row>, c: Commit, now: int, user: string)
    requires c != CDelete(user)
    ensures Grew(own, UserRows(own, c, now, user))
  {
  }

  lemma StepGrows(db: Db, c: Commit, now: int, user: string)
    requires c != CDelete(user)
    ensures Grew(Own(db, user), Own(Apply(db, c, now), user))
  {
    if OutcomeOf(db, c) == Done {
      RowsOfUser(db, c, now, user);
      UserRowsGrow(Own(db, user), c, now, user);
    }
  }

  /** Without the user there are no rows of the user. */
  ghost predicate Owned(db: Db, user: string) {
    user !in db.users ==> Own(db, user) == []
  }

  lemma StepKeepsOwned(db: Db, c: Commit, now: int, user: string)
    requires Owned(db, user)
    ensures Owned(Apply(db, c, now), user)
    ensures user !in db.users ==> user !in Apply(db, c, now).users
  {
    if OutcomeOf(db, c) == Done {
      RowsOfUser(db, c, now, user);
      assert user !in db.users && !c.CExpire? ==> c.user != user;
    }
  }

  lemma {:induction false} RunKeepsOwned(s: System, plans: map<string, int>, steps: seq<Step>, user: string)
    requires Owned(s.db, user) && Runs(s, plans, steps)
    ensures Owned(RunTo(s, plans, steps).db, user)
    ensures user !in s.db.users ==> user !in RunTo(s, plans, steps).db.users
    decreases |steps|
  {
    if steps == [] {
    } else {
      if steps[0].Finish? {
        StepKeepsOwned(s.db, s.pending[steps[0].k], steps[0].now, user);
      }
      RunKeepsOwned(StepTo(s, plans, steps[0]), plans, steps[1..], user);
    }
  }

  lemma GrewThrough(a: seq<Row>, b: seq<Row>, c: seq<Row>)
    requires Grew(a, b) && Grew(b, c)
    ensures Grew(a, c)
  {
  }

  /** Over every run, the rows of a user who is there in the end have only grown. */
  lemma {:induction false} RunGrows(s: System, plans: map<string, int>, steps: seq<Step>, user: string)
    requires user in s.db.users && Runs(s, plans, steps) && user in RunTo(s, plans, steps).db.users
    ensures Grew(Own(s.db, user), Own(RunTo(s, plans, steps).db, user))
    decreases |steps|
  {
    if steps == [] {
    } else {
      var s' := StepTo(s, plans, steps[0]);
      if steps[0].Finish? {
        var c := s.pending[steps[0].k];
        StepKeepsOwned(s.db, c, steps[0].now, user);
        RunKeepsOwned(s', plans, steps[1..], user);
        StepGrows(s.db, c, steps[0].now, user);
      }
      RunGrows(s', plans, steps[1..], user);
      GrewThrough(Own(s.db, user), Own(s'.db, user),
                  Own(RunTo(s, plans, steps).db, user));
    }
  }

  /** Over every interleaving: no row of a user is lost and EXPIRED and REVOKED ones never change, if
      and only if the user had none or has not been deleted. */
  lemma ClosedRowsAreFrozenIff(s: System, plans: map<string, int>, steps: seq<Step>, user: string)
    requires user in s.db.users && Runs(s, plans, steps)
    ensures Grew(Own(s.db, user), Own(RunTo(s, plans, steps).db, user)) <==>
            Own(s.db, user) == [] || user in RunTo(s, plans, steps).db.users
  {
    RunKeepsOwned(s, plans, steps, user);
    if user in RunTo(s, plans, steps).db.users {
      RunGrows(s, plans, steps, user);
    }
  }
}
