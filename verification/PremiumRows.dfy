/** How many ACTIVE rows a user has: one if premium, none otherwise, as long as every transaction commits
    on what its guard has read. */
module PremiumRows {
  import opened Common
  import opened Premium

  // ---------------------------------------------------------------- the ACTIVE rows of a user

  function ActiveOf(user: string): Row -> bool {
    (r: Row) => r.user == user && r.status == Active
  }

  /** The ACTIVE rows of a premium user are one row with the user's expiry; others have none. */
  ghost predicate OneRow(db: Db, user: string) {
    var active := Filter(ActiveOf(user), db.rows);
    if user in db.users && db.users[user].isPremium
    then |active| == 1 && db.users[user].expiry == Some(active[0].expiry)
    else active == []
  }

  ghost predicate OneRowEach(db: Db) {
    forall user :: OneRow(db, user)
  }

  lemma UpdatedSnoc(rows: seq<Row>, last: Row, f: Row -> Row, p: Row -> bool)
    ensures Filter(p, UpdateMany(rows + [last], f)) == Filter(p, UpdateMany(rows, f)) + if p(f(last)) then [f(last)] else []
  {
    UpdateSnoc(rows, last, f);
    FilterSnoc(p, UpdateMany(rows, f), f(last));
  }

  lemma {:induction false} RenewedActive(rows: seq<Row>, user: string, expiry: int, v: string)
    ensures var before, after := Filter(ActiveOf(v), rows), Filter(ActiveOf(v), UpdateMany(rows, RenewRow(user, expiry)));
            |after| == |before| &&
            (v == user ==> forall i :: 0 <= i < |after| ==> after[i].expiry == expiry) &&
            (v != user ==> after == before)
  {
    if rows == [] {
    } else {
      var most, last := rows[..|rows| - 1], rows[|rows| - 1];
      assert rows == most + [last];
      RenewedActive(most, user, expiry, v);
      UpdatedSnoc(most, last, RenewRow(user, expiry), ActiveOf(v));
    }
  }

  lemma {:induction false} RevokedActive(rows: seq<Row>, user: string, v: string)
    ensures Filter(ActiveOf(v), UpdateMany(rows, RevokeRow(user))) == if v == user then [] else Filter(ActiveOf(v), rows)
  {
    if rows == [] {
    } else {
      var most, last := rows[..|rows| - 1], rows[|rows| - 1];
      assert rows == most + [last];
      RevokedActive(most, user, v);
      UpdatedSnoc(most, last, RevokeRow(user), ActiveOf(v));
    }
  }

  /** The rows that an update of the first reach ones does not touch. */
  function Beyond(own: seq<Row>, reach: nat): seq<Row> {
    if reach < |own| then own[reach..] else []
  }

  function Within(own: seq<Row>, reach: nat): seq<Row> {
    if reach < |own| then own[..reach] else own
  }

  /** No ACTIVE row of the user is newer than the update of the rows. */
  predicate AllReached(db: Db, user: string, reach: nat) {
    Filter(ActiveOf(user), Beyond(Own(db, user), reach)) == []
  }

  lemma UpdateFirstSplits(own: seq<Row>, reach: nat, f: Row -> Row)
    ensures own == Within(own, reach) + Beyond(own, reach)
    ensures UpdateFirst(own, reach, f) == UpdateMany(Within(own, reach), f) + Beyond(own, reach)
  {
  }

  lemma ActiveOfOwn(db: Db, user: string)
    ensures Filter(ActiveOf(user), db.rows) == Filter(ActiveOf(user), Own(db, user))
  {
    FilterWithin(ActiveOf(user), RowOf(user), db.rows);
  }

  /** The ACTIVE rows of a user after an update of the first ones. */
  lemma ActiveAfterUpdate(db: Db, c: Commit, now: int, f: Row -> Row)
    requires OutcomeOf(db, c) == Done && (c.CRenew? || c.CRevoke?)
    requires f == if c.CRenew? then RenewRow(c.user, c.expiry) else RevokeRow(c.user)
    ensures var own := Own(db, c.user);
            Filter(ActiveOf(c.user), db.rows) ==
            Filter(ActiveOf(c.user), Within(own, c.reach)) + Filter(ActiveOf(c.user), Beyond(own, c.reach)) &&
            Filter(ActiveOf(c.user), Apply(db, c, now).rows) ==
            Filter(ActiveOf(c.user), UpdateMany(Within(own, c.reach), f)) + Filter(ActiveOf(c.user), Beyond(own, c.reach))
  {
    var own, p := Own(db, c.user), ActiveOf(c.user);
    ActiveOfOwn(db, c.user);
    ActiveOfOwn(Apply(db, c, now), c.user);
    RowsOfUser(db, c, now, c.user);
    UpdateFirstSplits(own, c.reach, f);
    FilterConcat(p, Within(own, c.reach), Beyond(own, c.reach));
    FilterConcat(p, UpdateMany(Within(own, c.reach), f), Beyond(own, c.reach));
  }

  lemma ActiveOfOthers(db: Db, c: Commit, now: int, v: string)
    requires OutcomeOf(db, c) == Done && (c.CRenew? || c.CRevoke?) && v != c.user
    ensures Filter(ActiveOf(v), Apply(db, c, now).rows) == Filter(ActiveOf(v), db.rows)
  {
    ActiveOfOwn(db, v);
    ActiveOfOwn(Apply(db, c, now), v);
    RowsOfUser(db, c, now, v);
  }

  lemma RenewedOneRow(db: Db, c: Commit, now: int, v: string)
    requires OneRow(db, v) && c.CRenew? && OutcomeOf(db, c) == Done
    ensures OneRow(Apply(db, c, now), v) <==> FreshFor(db, c, v)
  {
    RecordOfUser(db, c, now, v);
    if v == c.user {
      var own := Own(db, v);
      ActiveAfterUpdate(db, c, now, RenewRow(v, c.expiry));
      RenewedActive(Within(own, c.reach), v, c.expiry, v);
    } else {
      ActiveOfOthers(db, c, now, v);
    }
  }

  lemma RevokedOneRow(db: Db, c: Commit, now: int, v: string)
    requires OneRow(db, v) && c.CRevoke? && OutcomeOf(db, c) == Done
    ensures OneRow(Apply(db, c, now), v) <==> FreshFor(db, c, v)
  {
    RecordOfUser(db, c, now, v);
    if v == c.user {
      ActiveAfterUpdate(db, c, now, RevokeRow(v));
      RevokedActive(Within(Own(db, v), c.reach), v, v);
    } else {
      ActiveOfOthers(db, c, now, v);
    }
  }

  function LaterThan(at: int): Row -> bool {
    (r: Row) => r.expiry >= at
  }

  lemma {:induction false} ExpiredActive(rows: seq<Row>, users: set<string>, at: int, v: string)
    ensures Filter(ActiveOf(v), UpdateMany(rows, ExpireRow(users, at))) ==
            if v in users then Filter(LaterThan(at), Filter(ActiveOf(v), rows)) else Filter(ActiveOf(v), rows)
  {
    if rows == [] {
    } else {
      var most, last := rows[..|rows| - 1], rows[|rows| - 1];
      assert rows == most + [last];
      ExpiredActive(most, users, at, v);
      UpdatedSnoc(most, last, ExpireRow(users, at), ActiveOf(v));
      assert UpdateMany(rows, ExpireRow(users, at)) == UpdateMany(most + [last], ExpireRow(users, at));
      var active := Filter(ActiveOf(v), most);
      FilterSnoc(ActiveOf(v), most, last);
      FilterSnoc(LaterThan(at), active, last);
      assert Filter(LaterThan(at), active) + [] == Filter(LaterThan(at), active) && active + [] == active;
    }
  }

  lemma ActivatedOneRow(db: Db, user: string, actor: Actor, activation: int, expiry: int, v: string)
    requires OneRow(db, v) && user in db.users
    ensures OneRow(ActivateTables(db, user, actor, activation, expiry), v) <==> v != user || !db.users[user].isPremium
  {
    FilterSnoc(ActiveOf(v), db.rows, Row(user, actor, activation, expiry, Active));
  }

  lemma ActiveAfterExpiry(db: Db, users: set<string>, at: int, now: int, v: string)
    ensures Filter(ActiveOf(v), Apply(db, CExpire(users, at), now).rows) ==
            if v in users then Filter(LaterThan(at), Filter(ActiveOf(v), db.rows)) else Filter(ActiveOf(v), db.rows)
  {
    ApplyRows(db, CExpire(users, at), now);
    ExpiredActive(db.rows, users, at, v);
  }

  lemma ExpiredOneRow(db: Db, users: set<string>, at: int, now: int, v: string)
    requires OneRow(db, v)
    ensures OneRow(Apply(db, CExpire(users, at), now), v) <==>
            (v in users && v in db.users && db.users[v].isPremium ==> db.users[v].expiry.value < at)
  {
    ActiveAfterExpiry(db, users, at, now, v);
    RecordOfUser(db, CExpire(users, at), now, v);
    OneLeft(Filter(ActiveOf(v), db.rows), at);
  }

  lemma OneLeft(active: seq<Row>, at: int)
    requires |active| <= 1
    ensures Filter(LaterThan(at), active) == if active == [] || active[0].expiry < at then [] else active
  {
    if active != [] {
      FilterOne(LaterThan(at), active[0]);
      assert active == [active[0]];
    }
  }

  lemma DeletedOneRow(db: Db, user: string, now: int, v: string)
    requires OneRow(db, v)
    ensures OneRow(Apply(db, CDelete(user), now), v)
  {
    if user in db.users {
      if v == user {
        FilterOutside(ActiveOf(v), Not(RowOf(user)), db.rows);
      } else {
        FilterWithin(ActiveOf(v), Not(RowOf(user)), db.rows);
      }
    }
  }

  // ---------------------------------------------------------------- when there is one row per premium user

  /** What was read still holds when it matters: nobody activates a user who is premium by now, the expiry
      job ends nobody whose expiry has moved to its instant or later, and renewals and revocations have
      reached the ACTIVE row. */
  predicate Fresh(db: Db, c: Commit) {
    match c
    case CActivate(user, _, _, _) => user in db.users ==> !db.users[user].isPremium
    case CPay(_, user, _, _) => OutcomeOf(db, c) == Done ==> !db.users[user].isPremium
    case CExpire(users, at) =>
      forall u <- users :: u in db.users && db.users[u].isPremium ==> db.users[u].expiry.Some? && db.users[u].expiry.value < at
    case CRenew(user, _, _, expiry, reach) =>
      user in db.users && db.users[user].isPremium ==> AllReached(db, user, reach) || db.users[user].expiry == Some(expiry)
    case CRevoke(user, _, _, reach) => user in db.users ==> AllReached(db, user, reach)
    case CDelete(_) => true
  }

  /** The part of Fresh that concerns one user. */
  predicate FreshFor(db: Db, c: Commit, v: string) {
    match c
    case CActivate(user, _, _, _) => v == user && user in db.users ==> !db.users[user].isPremium
    case CPay(_, user, _, _) => v == user && OutcomeOf(db, c) == Done ==> !db.users[user].isPremium
    case CExpire(users, at) =>
      v in users && v in db.users && db.users[v].isPremium ==> db.users[v].expiry.Some? && db.users[v].expiry.value < at
    case CRenew(user, _, _, _, _) => v == user ==> Fresh(db, c)
    case CRevoke(user, _, _, _) => v == user ==> Fresh(db, c)
    case CDelete(_) => true
  }

  lemma PaidOneRow(db: Db, c: Commit, now: int, v: string)
    requires OneRow(db, v) && c.CPay? && OutcomeOf(db, c) == Done
    ensures OneRow(Apply(db, c, now), v) <==> v != c.user || !db.users[c.user].isPremium
  {
    var expiry := now + c.durationDays.value * DAY;
    ActivatedOneRow(db, c.user, SystemPayment, now, expiry, v);
    assert OneRow(Apply(db, c, now), v) == OneRow(ActivateTables(db, c.user, SystemPayment, now, expiry), v);
  }

  lemma OneRowForIff(db: Db, c: Commit, now: int, v: string)
    requires OneRow(db, v)
    ensures OneRow(Apply(db, c, now), v) <==> FreshFor(db, c, v)
  {
    if OutcomeOf(db, c) == Done {
      match c
      case CActivate(user, actor, activation, expiry) => ActivatedOneRow(db, user, actor, activation, expiry, v);
      case CRenew(_, _, _, _, _) => RenewedOneRow(db, c, now, v);
      case CRevoke(_, _, _, _) => RevokedOneRow(db, c, now, v);
      case CExpire(users, at) => ExpiredOneRow(db, users, at, now, v);
      case CPay(_, _, _, _) => PaidOneRow(db, c, now, v);
      case CDelete(user) => DeletedOneRow(db, user, now, v);
    }
  }

  lemma FreshForEach(db: Db, c: Commit)
    ensures Fresh(db, c) <==> forall v :: FreshFor(db, c, v)
  {
    match c
    case CActivate(user, _, _, _) => assert FreshFor(db, c, user) ==> Fresh(db, c);
    case CPay(_, user, _, _) => assert FreshFor(db, c, user) ==> Fresh(db, c);
    case CRenew(user, _, _, _, _) => assert FreshFor(db, c, user) ==> Fresh(db, c);
    case CRevoke(user, _, _, _) => assert FreshFor(db, c, user) ==> Fresh(db, c);
    case CExpire(users, _) =>
      if forall v :: FreshFor(db, c, v) {
        forall u | u in users && u in db.users && db.users[u].isPremium
          ensures db.users[u].expiry.Some? && db.users[u].expiry.value < c.at
        {
          assert FreshFor(db, c, u);
        }
      }
    case _ =>
  }

  /** Whatever the guards have read: a transaction keeps exactly one ACTIVE row, with the right expiry,
      per premium user and none for the others, if and only if it is fresh. */
  lemma OneRowIffFresh(db: Db, c: Commit, now: int)
    requires OneRowEach(db)
    ensures OneRowEach(Apply(db, c, now)) <==> Fresh(db, c)
  {
    FreshForEach(db, c);
    forall v ensures OneRow(Apply(db, c, now), v) <==> FreshFor(db, c, v) {
      assert OneRow(db, v);
      OneRowForIff(db, c, now, v);
    }
  }

  /** The state has one row per premium user after every step. */
  ghost predicate AlwaysOneRow(s: System, plans: map<string, int>, steps: seq<Step>)
    requires Runs(s, plans, steps)
    decreases |steps|
  {
    OneRowEach(s.db) && (steps == [] || AlwaysOneRow(StepTo(s, plans, steps[0]), plans, steps[1..]))
  }

  ghost predicate AllFresh(s: System, plans: map<string, int>, steps: seq<Step>)
    requires Runs(s, plans, steps)
    decreases |steps|
  {
    steps == [] ||
    ((steps[0].Finish? ==> Fresh(s.db, s.pending[steps[0].k])) && AllFresh(StepTo(s, plans, steps[0]), plans, steps[1..]))
  }

  /** Over every interleaving: one ACTIVE row per premium user throughout, if and only if every
      transaction is fresh when it commits. */
  lemma {:induction false} RunKeepsOneRowIff(s: System, plans: map<string, int>, steps: seq<Step>)
    requires OneRowEach(s.db) && Runs(s, plans, steps)
    ensures AlwaysOneRow(s, plans, steps) <==> AllFresh(s, plans, steps)
    decreases |steps|
  {
    if steps == [] {
    } else {
      var s' := StepTo(s, plans, steps[0]);
      if steps[0].Finish? {
        OneRowIffFresh(s.db, s.pending[steps[0].k], steps[0].now);
      }
      if OneRowEach(s'.db) {
        RunKeepsOneRowIff(s', plans, steps[1..]);
      }
    }
  }

  /** With nothing between guard and transaction, only the payment of a premium user is not fresh: the
      code does not check. */
  lemma ServedOneRowIff(db: Db, plans: map<string, int>, r: Request, now: int)
    requires OneRowEach(db)
    ensures OneRowEach(Serve(db, plans, r, now)) <==>
            !(r.PaymentRequest? && r.user in db.users && db.users[r.user].isPremium &&
              r.plan in plans && !HasOrder(db.subs, r.order))
  {
    var c := Guard(db, plans, r, now);
    if c.Some? {
      OneRowIffFresh(db, c.value, now);
    }
  }

  // ---------------------------------------------------------------- the races

  lemma OnePremiumHasOneRow(user: string, expiry: int)
    ensures OneRowEach(OnePremium(user, expiry))
  {
    forall v ensures OneRow(OnePremium(user, expiry), v) {
      FilterOne(ActiveOf(v), Row(user, Admin(""), 0, expiry, Active));
    }
  }

  /** Two administrators activate the same user: both pass the check, and the user has two ACTIVE rows. */
  lemma ActivatedTwice(plans: map<string, int>, user: string) returns (db: Db, end: Db)
    ensures OneRowEach(db)
    ensures Leads(db, plans, BothPending(ActivateRequest(user, "a", 0, 10), ActivateRequest(user, "b", 0, 20), 0), end)
    ensures Filter(ActiveOf(user), end.rows) ==
            [Row(user, Admin("a"), 0, 10, Active), Row(user, Admin("b"), 0, 20, Active)]
  {
    db := Db(map[user := User(false, None, FREE)], [], [], []);
    BothPendingRun(db, plans, ActivateRequest(user, "a", 0, 10), ActivateRequest(user, "b", 0, 20), 0);
    end := Apply(Apply(db, CActivate(user, Admin("a"), 0, 10), 0), CActivate(user, Admin("b"), 0, 20), 0);
    var row1, row2 := Row(user, Admin("a"), 0, 10, Active), Row(user, Admin("b"), 0, 20, Active);
    assert end.rows == [row1] + [row2];
    FilterSnoc(ActiveOf(user), [row1], row2);
    FilterOne(ActiveOf(user), row1);
    assert forall v :: OneRow(db, v);
  }

  /** The expiry job has listed a user who is then renewed: the user loses premium, although the renewed
      row is ACTIVE and runs on. */
  lemma RenewedThenExpired(plans: map<string, int>, user: string) returns (db: Db, end: Db)
    ensures OneRowEach(db) && Leads(db, plans, BothPending(RenewRequest(user, "a", 1000), ExpiryJob, 20), end)
    ensures user in end.users && !end.users[user].isPremium
    ensures Filter(ActiveOf(user), end.rows) == [Row(user, Admin(""), 0, 1000, Active)]
  {
    db := OnePremium(user, 10);
    OnePremiumHasOneRow(user, 10);
    OwnRowOfOne(user, 10);
    assert Overdue(db.users, 20) == {user};
    BothPendingRun(db, plans, RenewRequest(user, "a", 1000), ExpiryJob, 20);
    var c1, c2 := CRenew(user, "a", 10, 1000, 1), CExpire({user}, 20);
    var renewed, row := Apply(db, c1, 20), Row(user, Admin(""), 0, 1000, Active);
    end := Apply(renewed, c2, 20);
    RowsOfUser(db, c1, 20, user);
    RowsOfUser(renewed, c2, 20, user);
    assert Own(end, user) == [row];
    ActiveOfOwn(end, user);
    FilterOne(ActiveOf(user), row);
  }

  lemma RunningRowSurvives(rows: seq<Row>, row: Row, users: set<string>, later: int, running: int)
    requires Filter(ActiveOf(row.user), rows) != [] && Filter(ActiveOf(row.user), rows)[0].expiry == running
    requires row.status == Active && row.user in users && later <= running
    ensures Filter(ActiveOf(row.user), UpdateMany(rows + [row], ExpireRow(users, later))) != []
  {
    FilterSnoc(ActiveOf(row.user), rows, row);
    ExpiredActive(rows + [row], users, later, row.user);
    FilterKeeps(LaterThan(later), Filter(ActiveOf(row.user), rows + [row]), 0);
  }

  /** What a payment of a premium user leads to: one that ends before the running row makes the expiry
      job end the premium status, although the running row is still ACTIVE. */
  lemma PaymentStrandsRunningRow(db: Db, plans: map<string, int>, c: Commit, now: int, running: int, later: int)
    requires OneRowEach(db) && c.CPay? && OutcomeOf(db, c) == Done
    requires db.users[c.user].isPremium && db.users[c.user].expiry == Some(running)
    requires now + c.durationDays.value * DAY < later <= running
    ensures var after := Serve(Apply(db, c, now), plans, ExpiryJob, later);
            !after.users[c.user].isPremium && Filter(ActiveOf(c.user), after.rows) != []
  {
    var paid, row := Apply(db, c, now), Row(c.user, SystemPayment, now, now + c.durationDays.value * DAY, Active);
    var overdue := Overdue(paid.users, later);
    assert OneRow(db, c.user);
    assert c.user in overdue;
    RunningRowSurvives(db.rows, row, overdue, later, running);
    assert Serve(paid, plans, ExpiryJob, later) == Apply(paid, CExpire(overdue, later), later);
  }

  /** A user with ten days left buys one more day; two days later the job ends the premium status, and
      eight paid days are lost. */
  lemma StrandedPayer(user: string, order: string)
    ensures var plans, db := map["day" := 1], OnePremium(user, 10 * DAY);
            var paid := Serve(db, plans, PaymentRequest(order, user, "day"), 0);
            var end := Serve(paid, plans, ExpiryJob, 2 * DAY);
            OneRowEach(db) && !end.users[user].isPremium && Filter(ActiveOf(user), end.rows) != []
  {
    OnePremiumHasOneRow(user, 10 * DAY);
    var c := CPay(order, user, false, Some(1));
    PaymentStrandsRunningRow(OnePremium(user, 10 * DAY), map["day" := 1], c, 0, 10 * DAY, 2 * DAY);
  }
}
