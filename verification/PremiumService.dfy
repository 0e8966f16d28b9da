/** The premium and payments services over their tables, one statement per table operation. */
module PremiumService {
  import opened Common
  import opened Premium
  import opened PremiumRows

  // ---------------------------------------------------------------- what administrators may insert

  /** Whoever is past the guard of an activation has asked for an expiry after the activation. */
  ghost predicate Dated(c: Commit) {
    c.CActivate? ==> c.activation < c.expiry && c.actor.Admin?
  }

  lemma {:induction false} RunKeepsDated(s: System, plans: map<string, int>, steps: seq<Step>)
    requires Runs(s, plans, steps) && forall c <- s.pending :: Dated(c)
    ensures forall c <- RunTo(s, plans, steps).pending :: Dated(c)
    decreases |steps|
  {
    if steps == [] {
    } else {
      RunKeepsDated(StepTo(s, plans, steps[0]), plans, steps[1..]);
    }
  }

  /** Over every interleaving: a row that appears has been activated before it expires by an administrator,
      or is paid for, from the instant of the payment on. */
  lemma NewRowsAreDated(s: System, plans: map<string, int>, steps: seq<Step>, step: Step)
    requires s.pending == [] && Runs(s, plans, steps) && Enabled(RunTo(s, plans, steps), step)
    ensures var before, after := RunTo(s, plans, steps).db.rows, StepTo(RunTo(s, plans, steps), plans, step).db.rows;
            |after| > |before| ==>
              (after == before + [after[|before|]] && after[|before|].status == Active &&
               if after[|before|].actor.Admin? then after[|before|].activation < after[|before|].expiry
               else step.Finish? && after[|before|].activation == step.now)
  {
    RunKeepsDated(s, plans, steps);
    var t := RunTo(s, plans, steps);
    if step.Finish? {
      var c := t.pending[step.k];
      assert c in t.pending;
      RowCount(t.db, c, step.now);
    }
  }

  lemma {:induction false} UpdateOwnCount(rows: seq<Row>, user: string, reach: nat, f: Row -> Row)
    ensures |UpdateOwn(rows, user, reach, f)| == |rows|
  {
    if rows == [] {
    } else {
      UpdateOwnCount(rows[..|rows| - 1], user, reach, f);
    }
  }

  lemma RowCount(db: Db, c: Commit, now: int)
    ensures !c.CActivate? && !c.CPay? ==> |Apply(db, c, now).rows| <= |db.rows|
  {
    match c
    case CRenew(user, _, _, expiry, reach) => UpdateOwnCount(db.rows, user, reach, RenewRow(user, expiry));
    case CRevoke(user, _, _, reach) => UpdateOwnCount(db.rows, user, reach, RevokeRow(user));
    case _ =>
  }

  class PremiumTables {
    var users: map<string, User>
    var rows: seq<Row>
    var history: seq<History>
    var subs: seq<Subscription>
    var plans: map<string, int>

    function Tables(): Db
      reads this
    {
      Db(users, rows, history, subs)
    }

    // -------------------------------------------------------------- premium repository

    /** Subscription row, user, history row; without the user the transaction rolls back. */
    method ActivatePremium(user: string, actor: Actor, activation: int, expiry: int) returns (ok: bool)
      modifies this
      ensures plans == old(plans) && ok == (user in old(users))
      ensures Tables() == if ok then ActivateTables(old(Tables()), user, actor, activation, expiry) else old(Tables())
    {
      var rows0 := rows;
      rows := rows + [Row(user, actor, activation, expiry, Active)];
      if user !in users {
        rows := rows0;
        return false;
      }
      users := users[user := User(true, Some(expiry), PREMIUM)];
      history := history + [History(user, Action.Activate, None, expiry, actor)];
      ok := true;
    }

    method RenewPremium(user: string, admin: string, previous: int, expiry: int)
      modifies this
      ensures plans == old(plans)
      ensures Tables() == Apply(old(Tables()), CRenew(user, admin, previous, expiry, |Own(old(Tables()), user)|), 0)
      ensures user in old(users) ==> rows == UpdateMany(old(rows), RenewRow(user, expiry))
    {
      var rows0 := rows;
      FullReach(rows, user, |Own(Tables(), user)|, RenewRow(user, expiry));
      rows := UpdateMany(rows, RenewRow(user, expiry));
      if user !in users {
        rows := rows0;
        return;
      }
      users := users[user := users[user].(expiry := Some(expiry), status := PREMIUM)];
      history := history + [History(user, Action.Renew, Some(previous), expiry, Admin(admin))];
    }

    method RevokePremium(user: string, admin: string, now: int)
      modifies this
      ensures plans == old(plans)
      ensures var db := old(Tables());
              var seen := if user in db.users then db.users[user].expiry else None;
              Tables() == Apply(db, CRevoke(user, admin, seen, |Own(db, user)|), now)
      ensures user in old(users) ==> rows == UpdateMany(old(rows), RevokeRow(user))
    {
      var previous := if user in users then users[user].expiry else None;
      var rows0 := rows;
      FullReach(rows, user, |Own(Tables(), user)|, RevokeRow(user));
      rows := UpdateMany(rows, RevokeRow(user));
      if user !in users {
        rows := rows0;
        return;
      }
      users := users[user := User(false, Some(now), REVOKED)];
      history := history + [History(user, Action.Revoke, previous, now, Admin(admin))];
    }

    method ExpireOverdueSubscriptions(now: int) returns (expiredCount: nat)
      modifies this
      ensures plans == old(plans) && Tables() == Serve(old(Tables()), plans, ExpiryJob, now)
      ensures var overdue := set u | u in old(users) && old(users)[u].isPremium && old(users)[u].expiry.Some? &&
                                     old(users)[u].expiry.value < now;
              expiredCount == |overdue| && users.Keys == old(users.Keys) && |rows| == |old(rows)| &&
              (forall u :: u in users ==>
                 users[u] == if u in overdue then User(false, old(users)[u].expiry, EXPIRED) else old(users)[u]) &&
              forall i :: 0 <= i < |rows| ==>
                rows[i] == if old(rows)[i].user in overdue && old(rows)[i].status == Active && old(rows)[i].expiry < now
                           then old(rows)[i].(status := SubStatus.Expired) else old(rows)[i]
      ensures history == old(history) && subs == old(subs)
    {
      var expired := Overdue(users, now);
      if |expired| == 0 {
        return 0;
      }
      rows := UpdateMany(rows, ExpireRow(expired, now));
      users := map u | u in users ::
                 if u in expired then users[u].(isPremium := false, status := EXPIRED) else users[u];
      expiredCount := |expired|;
    }

    // -------------------------------------------------------------- premium service

    method Activate(user: string, admin: string, activation: int, expiry: int, now: int) returns (ok: bool)
      modifies this
      ensures plans == old(plans)
      ensures Tables() == Serve(old(Tables()), plans, ActivateRequest(user, admin, activation, expiry), now)
      ensures ok <==> user in old(users) && !old(users)[user].isPremium && activation < expiry && now < expiry
      ensures !ok ==> Tables() == old(Tables())
      ensures ok ==> rows == old(rows) + [Row(user, Admin(admin), activation, expiry, Active)] && subs == old(subs)
      ensures ok ==> users == old(users)[user := User(true, Some(expiry), PREMIUM)]
      ensures ok ==> history == old(history) + [History(user, Action.Activate, None, expiry, Admin(admin))]
      ensures ok ==> forall later :: CanActivate(users[user], later) <==> later <= expiry
      ensures old(OneRowEach(Tables())) ==> OneRowEach(Tables())
    {
      if OneRowEach(Tables()) {
        ServedOneRowIff(Tables(), plans, ActivateRequest(user, admin, activation, expiry), now);
      }
      if user !in users || users[user].isPremium || expiry <= activation || expiry <= now {
        return false;
      }
      ok := ActivatePremium(user, Admin(admin), activation, expiry);
    }

    method Renew(user: string, admin: string, expiry: int, now: int) returns (ok: bool)
      modifies this
      ensures plans == old(plans)
      ensures Tables() == Serve(old(Tables()), plans, RenewRequest(user, admin, expiry), now)
      ensures ok <==> user in old(users) && old(users)[user].isPremium &&
                      old(users)[user].expiry.Some? && old(users)[user].expiry.value < expiry
      ensures !ok ==> Tables() == old(Tables())
      ensures ok ==> |rows| == |old(rows)| && subs == old(subs)
      ensures ok ==> forall i :: 0 <= i < |rows| ==>
                rows[i] == if old(rows)[i].user == user && old(rows)[i].status == Active
                           then old(rows)[i].(expiry := expiry) else old(rows)[i]
      ensures ok ==> users == old(users)[user := User(true, Some(expiry), PREMIUM)]
      ensures ok ==> history == old(history) + [History(user, Action.Renew, old(users)[user].expiry, expiry, Admin(admin))]
      ensures ok ==> forall later :: CanActivate(users[user], later) <==> later <= expiry
      ensures old(OneRowEach(Tables())) ==> OneRowEach(Tables())
    {
      if OneRowEach(Tables()) {
        ServedOneRowIff(Tables(), plans, RenewRequest(user, admin, expiry), now);
      }
      if user !in users || !users[user].isPremium {
        return false;
      }
      var currentExpiry := users[user].expiry;
      if currentExpiry.None? || expiry <= currentExpiry.value {
        return false;
      }
      RenewPremium(user, admin, currentExpiry.value, expiry);
      ok := true;
    }

    method Revoke(user: string, admin: string, now: int) returns (ok: bool)
      modifies this
      ensures plans == old(plans)
      ensures Tables() == Serve(old(Tables()), plans, RevokeRequest(user, admin), now)
      ensures ok <==> user in old(users) && old(users)[user].isPremium
      ensures !ok ==> Tables() == old(Tables())
      ensures ok ==> |rows| == |old(rows)| && subs == old(subs)
      ensures ok ==> forall i :: 0 <= i < |rows| ==>
                rows[i] == if old(rows)[i].user == user && old(rows)[i].status == Active
                           then old(rows)[i].(status := SubStatus.Revoked) else old(rows)[i]
      ensures ok ==> users == old(users)[user := User(false, Some(now), REVOKED)]
      ensures ok ==> history == old(history) + [History(user, Action.Revoke, old(users)[user].expiry, now, Admin(admin))]
      ensures ok ==> forall later :: !CanActivate(users[user], later)
      ensures old(OneRowEach(Tables())) ==> OneRowEach(Tables())
    {
      if OneRowEach(Tables()) {
        ServedOneRowIff(Tables(), plans, RevokeRequest(user, admin), now);
      }
      if user !in users || !users[user].isPremium {
        return false;
      }
      RevokePremium(user, admin, now);
      ok := true;
    }

    // -------------------------------------------------------------- payments service

    /** The reads at the start of the payment transaction. */
    method ReadOrder(order: string, plan: string) returns (existing: bool, durationDays: Option<int>)
      ensures existing == HasOrder(subs, order)
      ensures durationDays == if plan in plans then Some(plans[plan]) else None
    {
      existing := false;
      for i := 0 to |subs|
        invariant existing <==> exists j :: 0 <= j < i && subs[j].order == order
      {
        if subs[i].order == order {
          existing := true;
        }
      }
      durationDays := if plan in plans then Some(plans[plan]) else None;
    }

    /** The writes of the payment transaction, possibly after other transactions have committed.
        A duplicate order ID fails the last insert, which undoes all of them. */
    method ActivateFromPayment(order: string, user: string, existing: bool, durationDays: Option<int>, now: int)
      returns (outcome: Outcome)
      modifies this
      ensures var c := CPay(order, user, existing, durationDays);
              plans == old(plans) && outcome == OutcomeOf(old(Tables()), c) && Tables() == Apply(old(Tables()), c, now)
      ensures outcome == if existing then AlreadyActivated
                         else if durationDays == None then PlanNotFound
                         else if user !in old(users) then NoSuchUser
                         else if exists i :: 0 <= i < |old(subs)| && old(subs)[i].order == order then DuplicateOrder
                         else Done
      ensures outcome != Done ==> Tables() == old(Tables())
      ensures outcome == Done ==>
                (var expiry := now + durationDays.value * 24 * 60 * 60 * 1000;
                 rows == old(rows) + [Row(user, SystemPayment, now, expiry, Active)] &&
                 users == old(users)[user := User(true, Some(expiry), PREMIUM)] &&
                 history == old(history) + [History(user, Action.Activate, None, expiry, SystemPayment)] &&
                 subs == old(subs) + [Subscription(order, user, expiry)])
    {
      if existing {
        return AlreadyActivated;
      }
      if durationDays.None? {
        return PlanNotFound;
      }
      var users0, rows0, history0 := users, rows, history;
      var expiry := now + durationDays.value * DAY;
      var ok := ActivatePremium(user, SystemPayment, now, expiry);
      if !ok {
        return NoSuchUser;
      }
      if HasOrder(subs, order) {
        users, rows, history := users0, rows0, history0;
        return DuplicateOrder;
      }
      subs := subs + [Subscription(order, user, expiry)];
      outcome := Done;
    }

    /** Called by payment verification and by the webhook alike. */
    method ActivateUserSubscription(user: string, plan: string, order: string, now: int) returns (outcome: Outcome)
      modifies this
      ensures plans == old(plans)
      ensures Tables() == Serve(old(Tables()), plans, PaymentRequest(order, user, plan), now)
      ensures outcome == Done <==> !old(HasOrder(subs, order)) && HasOrder(subs, order)
      ensures outcome == Done <==> plan in plans && user in old(users) &&
                                   forall i :: 0 <= i < |old(subs)| ==> old(subs)[i].order != order
    {
      var existing, durationDays := ReadOrder(order, plan);
      ghost var before := Tables();
      outcome := ActivateFromPayment(order, user, existing, durationDays, now);
      PaidIffDone(before, CPay(order, user, existing, durationDays), now);
    }

    lemma PaidIffDone(db: Db, c: Commit, now: int)
      requires c.CPay? && c.sawSubscription == HasOrder(db.subs, c.order)
      ensures OutcomeOf(db, c) == Done <==> !HasOrder(db.subs, c.order) && HasOrder(Apply(db, c, now).subs, c.order)
    {
      if OutcomeOf(db, c) == Done {
        assert Apply(db, c, now).subs[|db.subs|].order == c.order;
      }
    }

    // -------------------------------------------------------------- user deletion

    lemma {:induction false} KeptOnes<T>(p: T -> bool, s: seq<T>)
      ensures forall x :: multiset(Filter(p, s))[x] == if p(x) then multiset(s)[x] else 0
    {
      if s == [] {
      } else {
        KeptOnes(p, s[..|s| - 1]);
        assert s == s[..|s| - 1] + [s[|s| - 1]];
      }
    }

    /** The rows of the others, each as often as before. */
    ghost predicate RowsWithout(before: seq<Row>, user: string, after: seq<Row>) {
      forall r :: multiset(after)[r] == if r.user == user then 0 else multiset(before)[r]
    }

    ghost predicate HistoryWithout(before: seq<History>, user: string, after: seq<History>) {
      forall h :: multiset(after)[h] == if h.user == user then 0 else multiset(before)[h]
    }

    ghost predicate SubsWithout(before: seq<Subscription>, user: string, after: seq<Subscription>) {
      forall b :: multiset(after)[b] == if b.user == user then 0 else multiset(before)[b]
    }

    /** The cascade takes the user's rows and no others. */
    lemma DeletionKeepsOthers(db: Db, user: string, now: int)
      requires user in db.users
      ensures var db' := Apply(db, CDelete(user), now);
              db'.users == db.users - {user} && RowsWithout(db.rows, user, db'.rows) &&
              HistoryWithout(db.history, user, db'.history) && SubsWithout(db.subs, user, db'.subs)
    {
      KeptOnes(Not(RowOf(user)), db.rows);
      KeptOnes(Not(HistoryOf(user)), db.history);
      KeptOnes(Not(SubOf(user)), db.subs);
    }

    /** The premium part of the deletion of a user: the database cascades to the user's rows. */
    method DeleteUser(user: string, profileComplete: bool) returns (ok: bool)
      modifies this
      ensures plans == old(plans) && Tables() == Serve(old(Tables()), plans, DeleteRequest(user, profileComplete), 0)
      ensures ok <==> user in old(users) && !profileComplete
      ensures !ok ==> Tables() == old(Tables())
      ensures ok ==> users == old(users) - {user}
    {
      if user !in users || profileComplete {
        return false;
      }
      users := users - {user};
      rows := Filter(Not(RowOf(user)), rows);
      history := Filter(Not(HistoryOf(user)), history);
      subs := Filter(Not(SubOf(user)), subs);
      ok := true;
    }
  }
}
