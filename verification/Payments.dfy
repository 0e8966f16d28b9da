/** Paid activation: verification and webhook race for one order, and user deletion removes the rows
    that would have stopped them. */
module Payments {
  import opened Common
  import opened Premium

  // ---------------------------------------------------------------- the three tables together

  function PaidRowOf(user: string): Row -> bool {
    (r: Row) => r.user == user && r.actor == SystemPayment
  }

  function PaidHistoryOf(user: string): History -> bool {
    (h: History) => h.user == user && h.actor == SystemPayment
  }

  /** Every paid subscription of a user has its premium row and its ACTIVATE history row. */
  ghost predicate PaidTogether(db: Db) {
    forall user ::
      |Filter(SubOf(user), db.subs)| == |Filter(PaidRowOf(user), db.rows)| == |Filter(PaidHistoryOf(user), db.history)|
  }

  ghost predicate UniqueOrders(subs: seq<Subscription>) {
    forall i, j :: 0 <= i < j < |subs| ==> subs[i].order != subs[j].order
  }

  lemma {:induction false} UpdateKeepsCount(rows: seq<Row>, f: Row -> Row, p: Row -> bool)
    requires forall i :: 0 <= i < |rows| ==> p(f(rows[i])) == p(rows[i])
    ensures |Filter(p, UpdateMany(rows, f))| == |Filter(p, rows)|
  {
    if rows == [] {
    } else {
      var most := rows[..|rows| - 1];
      UpdateKeepsCount(most, f, p);
      assert UpdateMany(rows, f)[..|rows| - 1] == UpdateMany(most, f);
    }
  }

  lemma {:induction false} OwnUpdateKeepsCount(rows: seq<Row>, u: string, reach: nat, f: Row -> Row, p: Row -> bool)
    requires forall r <- rows :: p(f(r)) == p(r)
    ensures |Filter(p, UpdateOwn(rows, u, reach, f))| == |Filter(p, rows)|
  {
    if rows == [] {
    } else {
      var most, last := rows[..|rows| - 1], rows[|rows| - 1];
      assert rows == most + [last] && last in rows;
      OwnUpdateKeepsCount(most, u, reach, f, p);
      OwnSnoc(most, last, u, reach, f);
      var last' := if last.user == u && |Filter(RowOf(u), most)| < reach then f(last) else last;
      FilterSnoc(p, UpdateOwn(most, u, reach, f), last');
      FilterSnoc(p, most, last);
    }
  }

  /** Only payments have SystemPayment as their actor. */
  predicate FromGuard(c: Commit) {
    c.CActivate? ==> c.actor.Admin?
  }

  /** The paid rows that a transaction adds for the user. */
  predicate PaysFor(db: Db, c: Commit, user: string) {
    c.CPay? && OutcomeOf(db, c) == Done && c.user == user
  }

  lemma UpdatesKeepPaidRows(rows: seq<Row>, c: Commit, now: int, user: string)
    requires c.CRenew? || c.CRevoke? || c.CExpire?
    ensures |Filter(PaidRowOf(user), RowsAfter(rows, c, now))| == |Filter(PaidRowOf(user), rows)|
  {
    match c
    case CRenew(u, _, _, expiry, reach) => OwnUpdateKeepsCount(rows, u, reach, RenewRow(u, expiry), PaidRowOf(user));
    case CRevoke(u, _, _, reach) => OwnUpdateKeepsCount(rows, u, reach, RevokeRow(u), PaidRowOf(user));
    case CExpire(users, at) => UpdateKeepsCount(rows, ExpireRow(users, at), PaidRowOf(user));
  }

  lemma PaidRowsStep(db: Db, c: Commit, now: int, user: string)
    requires FromGuard(c)
    ensures |Filter(PaidRowOf(user), Apply(db, c, now).rows)| ==
            if c == CDelete(user) && user in db.users then 0
            else |Filter(PaidRowOf(user), db.rows)| + if PaysFor(db, c, user) then 1 else 0
  {
    if OutcomeOf(db, c) == Done {
      ApplyRows(db, c, now);
      match c
      case CActivate(u, actor, activation, expiry) =>
        FilterSnoc(PaidRowOf(user), db.rows, Row(u, actor, activation, expiry, Active));
      case CPay(_, u, _, duration) =>
        FilterSnoc(PaidRowOf(user), db.rows, Row(u, SystemPayment, now, now + duration.value * DAY, Active));
      case CDelete(u) =>
        if u == user {
          FilterOutside(PaidRowOf(user), Not(RowOf(u)), db.rows);
        } else {
          FilterWithin(PaidRowOf(user), Not(RowOf(u)), db.rows);
        }
      case _ => UpdatesKeepPaidRows(db.rows, c, now, user);
    }
  }

  lemma PaidHistoryStep(db: Db, c: Commit, now: int, user: string)
    requires FromGuard(c)
    ensures |Filter(PaidHistoryOf(user), Apply(db, c, now).history)| ==
            if c == CDelete(user) && user in db.users then 0
            else |Filter(PaidHistoryOf(user), db.history)| + if PaysFor(db, c, user) then 1 else 0
  {
    if OutcomeOf(db, c) == Done {
      if c.CDelete? {
        if c.user == user {
          FilterOutside(PaidHistoryOf(user), Not(HistoryOf(c.user)), db.history);
        } else {
          FilterWithin(PaidHistoryOf(user), Not(HistoryOf(c.user)), db.history);
        }
      } else if !c.CExpire? {
        FilterSnoc(PaidHistoryOf(user), db.history, Apply(db, c, now).history[|db.history|]);
      }
    }
  }

  lemma SubsStep(db: Db, c: Commit, now: int, user: string)
    ensures |Filter(SubOf(user), Apply(db, c, now).subs)| ==
            if c == CDelete(user) && user in db.users then 0
            else |Filter(SubOf(user), db.subs)| + if PaysFor(db, c, user) then 1 else 0
  {
    if OutcomeOf(db, c) == Done {
      if c.CDelete? {
        if c.user == user {
          FilterOutside(SubOf(user), Not(SubOf(c.user)), db.subs);
        } else {
          FilterWithin(SubOf(user), Not(SubOf(c.user)), db.subs);
        }
      } else if c.CPay? {
        FilterSnoc(SubOf(user), db.subs, Apply(db, c, now).subs[|db.subs|]);
      }
    }
  }

  lemma ApplyKeepsPaidTogether(db: Db, c: Commit, now: int)
    requires PaidTogether(db) && FromGuard(c)
    ensures PaidTogether(Apply(db, c, now))
  {
    var db' := Apply(db, c, now);
    forall user
      ensures |Filter(SubOf(user), db'.subs)| == |Filter(PaidRowOf(user), db'.rows)| ==
              |Filter(PaidHistoryOf(user), db'.history)|
    {
      PaidRowsStep(db, c, now, user);
      PaidHistoryStep(db, c, now, user);
      SubsStep(db, c, now, user);
    }
  }

  // ---------------------------------------------------------------- the subscription of an order

  /** Orders are unique, and only payments act for SystemPayment. */
  ghost predicate PaymentsSound(s: System) {
    UniqueOrders(s.db.subs) && PaidTogether(s.db) && forall k :: 0 <= k < |s.pending| ==> FromGuard(s.pending[k])
  }

  function OfOrder(order: string): Subscription -> bool {
    (s: Subscription) => s.order == order
  }

  lemma {:induction false} OrderCount(subs: seq<Subscription>, order: string)
    requires UniqueOrders(subs)
    ensures |Filter(OfOrder(order), subs)| == if HasOrder(subs, order) then 1 else 0
  {
    if subs == [] {
    } else {
      var most, last := subs[..|subs| - 1], subs[|subs| - 1];
      OrderCount(most, order);
      assert HasOrder(subs, order) <==> HasOrder(most, order) || last.order == order by {
        if HasOrder(most, order) {
          var i :| 0 <= i < |most| && most[i].order == order;
          assert subs[i].order == order;
        }
        assert subs[|subs| - 1].order == last.order;
      }
      assert last.order == order ==> !HasOrder(most, order);
    }
  }

  /** The user holds the subscription of the order. */
  predicate HoldsOrder(subs: seq<Subscription>, order: string, user: string) {
    exists i :: 0 <= i < |subs| && subs[i].order == order && subs[i].user == user
  }

  lemma {:induction false} DeletionKeepsUnique(subs: seq<Subscription>, user: string)
    requires UniqueOrders(subs)
    ensures UniqueOrders(Filter(Not(SubOf(user)), subs))
  {
    if subs == [] {
    } else {
      var most := subs[..|subs| - 1];
      DeletionKeepsUnique(most, user);
      var kept := Filter(Not(SubOf(user)), most);
      forall i | 0 <= i < |kept| ensures kept[i].order != subs[|subs| - 1].order {
        FilterSound(Not(SubOf(user)), most, i);
      }
    }
  }

  lemma DeletionOfHolder(subs: seq<Subscription>, user: string, order: string)
    requires UniqueOrders(subs)
    ensures HasOrder(Filter(Not(SubOf(user)), subs), order) <==> HasOrder(subs, order) && !HoldsOrder(subs, order, user)
  {
    var kept := Filter(Not(SubOf(user)), subs);
    if HasOrder(kept, order) {
      var i :| 0 <= i < |kept| && kept[i].order == order;
      FilterSound(Not(SubOf(user)), subs, i);
      var k :| 0 <= k < |subs| && subs[k] == kept[i];
    }
    if HasOrder(subs, order) && !HoldsOrder(subs, order, user) {
      var i :| 0 <= i < |subs| && subs[i].order == order;
      FilterKeeps(Not(SubOf(user)), subs, i);
    }
  }

  /** The transaction writes the rows of the order. */
  predicate Pays(db: Db, c: Commit, order: string) {
    c.CPay? && c.order == order && OutcomeOf(db, c) == Done
  }

  /** The transaction deletes the holder of the order's subscription. */
  predicate Deletes(db: Db, c: Commit, order: string) {
    c.CDelete? && OutcomeOf(db, c) == Done && HoldsOrder(db.subs, order, c.user)
  }

  /** Orders stay unique; an order gets its subscription by a payment and loses it with its holder. */
  lemma OrderStep(db: Db, c: Commit, now: int, order: string)
    requires UniqueOrders(db.subs)
    ensures UniqueOrders(Apply(db, c, now).subs)
    ensures HasOrder(Apply(db, c, now).subs, order) <==>
            Pays(db, c, order) || (HasOrder(db.subs, order) && !Deletes(db, c, order))
    ensures Pays(db, c, order) ==> !HasOrder(db.subs, order)
  {
    var subs, subs' := db.subs, Apply(db, c, now).subs;
    if c.CDelete? && OutcomeOf(db, c) == Done {
      DeletionKeepsUnique(subs, c.user);
      DeletionOfHolder(subs, c.user, order);
    } else if c.CPay? && OutcomeOf(db, c) == Done {
      assert forall i :: 0 <= i < |subs| ==> subs[i].order != c.order;
      assert subs'[|subs|].order == c.order;
      assert forall i :: 0 <= i < |subs| ==> subs'[i] == subs[i];
    }
  }

  lemma StepKeepsFromGuard(s: System, plans: map<string, int>, step: Step)
    requires Enabled(s, step) && forall k :: 0 <= k < |s.pending| ==> FromGuard(s.pending[k])
    ensures forall k :: 0 <= k < |StepTo(s, plans, step).pending| ==> FromGuard(StepTo(s, plans, step).pending[k])
  {
  }

  lemma StepKeepsPaymentsSound(s: System, plans: map<string, int>, step: Step)
    requires PaymentsSound(s) && Enabled(s, step)
    ensures PaymentsSound(StepTo(s, plans, step))
  {
    StepKeepsFromGuard(s, plans, step);
    if step.Finish? {
      var c := s.pending[step.k];
      ApplyKeepsPaidTogether(s.db, c, step.now);
      OrderStep(s.db, c, step.now, "");
    }
  }

  // ---------------------------------------------------------------- payments happen once

  predicate Activates(s: System, step: Step, order: string)
    requires Enabled(s, step)
  {
    step.Finish? && Pays(s.db, s.pending[step.k], order)
  }

  predicate Removes(s: System, step: Step, order: string)
    requires Enabled(s, step)
  {
    step.Finish? && Deletes(s.db, s.pending[step.k], order)
  }

  /** How many payment transactions for the order activate something during the run. */
  ghost function Activations(s: System, plans: map<string, int>, steps: seq<Step>, order: string): nat
    requires Runs(s, plans, steps)
    decreases |steps|
  {
    if steps == [] then 0
    else
      (if Activates(s, steps[0], order) then 1 else 0) + Activations(StepTo(s, plans, steps[0]), plans, steps[1..], order)
  }

  /** How often the order's subscription is deleted with its holder. */
  ghost function Removals(s: System, plans: map<string, int>, steps: seq<Step>, order: string): nat
    requires Runs(s, plans, steps)
    decreases |steps|
  {
    if steps == [] then 0
    else (if Removes(s, steps[0], order) then 1 else 0) + Removals(StepTo(s, plans, steps[0]), plans, steps[1..], order)
  }

  function One(b: bool): nat {
    if b then 1 else 0
  }

  /** Over any interleaving of verify and webhook transactions with each other, with administration and
      with user deletions: activations and deletions of an order's subscription alternate, and the
      three tables stay in step. */
  lemma {:induction false} PaymentsAlternate(s: System, plans: map<string, int>, steps: seq<Step>, order: string)
    requires PaymentsSound(s) && Runs(s, plans, steps)
    ensures PaymentsSound(RunTo(s, plans, steps))
    ensures One(HasOrder(s.db.subs, order)) + Activations(s, plans, steps, order) ==
            One(HasOrder(RunTo(s, plans, steps).db.subs, order)) + Removals(s, plans, steps, order)
    decreases |steps|
  {
    if steps == [] {
    } else {
      var s' := StepTo(s, plans, steps[0]);
      if steps[0].Finish? {
        OrderStep(s.db, s.pending[steps[0].k], steps[0].now, order);
        HolderHasOrder(s.db.subs, s.pending[steps[0].k], order);
      }
      StepKeepsPaymentsSound(s, plans, steps[0]);
      PaymentsAlternate(s', plans, steps[1..], order);
    }
  }

  lemma HolderHasOrder(subs: seq<Subscription>, c: Commit, order: string)
    ensures c.CDelete? && HoldsOrder(subs, order, c.user) ==> HasOrder(subs, order)
  {
  }

  /** A payment transaction of the order with a known plan and user, whose check has found no subscription. */
  predicate Attempts(s: System, step: Step, order: string)
    requires Enabled(s, step)
  {
    step.Finish? &&
    var c := s.pending[step.k];
    c.CPay? && c.order == order && !c.sawSubscription && c.durationDays.Some? && c.user in s.db.users
  }

  ghost predicate Attempted(s: System, plans: map<string, int>, steps: seq<Step>, order: string)
    requires Runs(s, plans, steps)
    decreases |steps|
  {
    steps != [] && (Attempts(s, steps[0], order) || Attempted(StepTo(s, plans, steps[0]), plans, steps[1..], order))
  }

  /** The order's subscription is deleted with its holder, and such a transaction commits later. */
  ghost predicate AttemptedAgain(s: System, plans: map<string, int>, steps: seq<Step>, order: string)
    requires Runs(s, plans, steps)
    decreases |steps|
  {
    steps != [] &&
    var s' := StepTo(s, plans, steps[0]);
    (Removes(s, steps[0], order) && Attempted(s', plans, steps[1..], order)) || AttemptedAgain(s', plans, steps[1..], order)
  }

  lemma {:induction false} AgainIsAttempted(s: System, plans: map<string, int>, steps: seq<Step>, order: string)
    requires Runs(s, plans, steps) && AttemptedAgain(s, plans, steps, order)
    ensures Attempted(s, plans, steps, order)
    decreases |steps|
  {
    var s' := StepTo(s, plans, steps[0]);
    if AttemptedAgain(s', plans, steps[1..], order) {
      AgainIsAttempted(s', plans, steps[1..], order);
    }
  }

  /** Among such transactions the unique index lets the first one through. */
  lemma AttemptStep(s: System, plans: map<string, int>, step: Step, order: string)
    requires PaymentsSound(s) && Enabled(s, step)
    ensures Activates(s, step, order) <==> Attempts(s, step, order) && !HasOrder(s.db.subs, order)
    ensures Removes(s, step, order) ==> HasOrder(s.db.subs, order) && !Attempts(s, step, order)
    ensures HasOrder(StepTo(s, plans, step).db.subs, order) <==>
            Activates(s, step, order) || (HasOrder(s.db.subs, order) && !Removes(s, step, order))
    ensures PaymentsSound(StepTo(s, plans, step))
  {
    StepKeepsPaymentsSound(s, plans, step);
    if step.Finish? {
      OrderStep(s.db, s.pending[step.k], step.now, order);
      HolderHasOrder(s.db.subs, s.pending[step.k], order);
    }
  }

  lemma {:induction false} ActivatedAtAllIff(s: System, plans: map<string, int>, steps: seq<Step>, order: string)
    requires PaymentsSound(s) && Runs(s, plans, steps)
    ensures Activations(s, plans, steps, order) >= 1 <==>
            if HasOrder(s.db.subs, order) then AttemptedAgain(s, plans, steps, order)
            else Attempted(s, plans, steps, order)
    decreases |steps|
  {
    if steps == [] {
    } else {
      var s' := StepTo(s, plans, steps[0]);
      AttemptStep(s, plans, steps[0], order);
      ActivatedAtAllIff(s', plans, steps[1..], order);
      if AttemptedAgain(s', plans, steps[1..], order) {
        AgainIsAttempted(s', plans, steps[1..], order);
      }
    }
  }

  lemma {:induction false} ActivatedOnceIff(s: System, plans: map<string, int>, steps: seq<Step>, order: string)
    requires PaymentsSound(s) && Runs(s, plans, steps) && !HasOrder(s.db.subs, order)
    ensures Activations(s, plans, steps, order) <= 1 <==> !AttemptedAgain(s, plans, steps, order)
    decreases |steps|
  {
    if steps == [] {
    } else {
      var s' := StepTo(s, plans, steps[0]);
      AttemptStep(s, plans, steps[0], order);
      if HasOrder(s'.db.subs, order) {
        ActivatedAtAllIff(s', plans, steps[1..], order);
      } else {
        ActivatedOnceIff(s', plans, steps[1..], order);
      }
    }
  }

  /** Exactly once: a new order is activated at most once if and only if no payment transaction for it
      that found no subscription commits after its subscription has been deleted with its holder. It is
      activated at all if and only if some such transaction commits. */
  lemma PaymentExactlyOnceIff(s: System, plans: map<string, int>, steps: seq<Step>, order: string)
    requires PaymentsSound(s) && Runs(s, plans, steps) && !HasOrder(s.db.subs, order)
    ensures Activations(s, plans, steps, order) <= 1 <==> !AttemptedAgain(s, plans, steps, order)
    ensures Activations(s, plans, steps, order) >= 1 <==> Attempted(s, plans, steps, order)
    ensures |Filter(OfOrder(order), RunTo(s, plans, steps).db.subs)| <= 1
  {
    ActivatedOnceIff(s, plans, steps, order);
    ActivatedAtAllIff(s, plans, steps, order);
    PaymentsAlternate(s, plans, steps, order);
    OrderCount(RunTo(s, plans, steps).db.subs, order);
  }

  /** At least once: after a payment transaction with a known plan and user the order has its
      subscription, unless the transaction had found one that has since been deleted. */
  lemma PaymentAtLeastOnceIff(s: System, plans: map<string, int>, k: nat, now: int)
    requires PaymentsSound(s) && k < |s.pending| && s.pending[k].CPay?
    requires s.pending[k].durationDays.Some? && s.pending[k].user in s.db.users
    ensures HasOrder(StepTo(s, plans, Finish(k, now)).db.subs, s.pending[k].order) <==>
            HasOrder(s.db.subs, s.pending[k].order) || !s.pending[k].sawSubscription
  {
    OrderStep(s.db, s.pending[k], now, s.pending[k].order);
  }

  // ---------------------------------------------------------------- an order that activates twice

  /** One payment of an order without subscription, by a user who exists. */
  lemma PaidOnce(db: Db, plans: map<string, int>, order: string, user: string, plan: string, now: int, rest: seq<Step>)
    requires !HasOrder(db.subs, order) && user in db.users && plan in plans
    requires Runs(System(Apply(db, CPay(order, user, false, Some(plans[plan])), now), []), plans, rest)
    ensures var after := System(Apply(db, CPay(order, user, false, Some(plans[plan])), now), []);
            var steps := [Begin(PaymentRequest(order, user, plan), now)] + ([Finish(0, now)] + rest);
            Runs(System(db, []), plans, steps) &&
            Activations(System(db, []), plans, steps, order) == 1 + Activations(after, plans, rest, order)
  {
    var c := CPay(order, user, false, Some(plans[plan]));
    var begin, s1 := Begin(PaymentRequest(order, user, plan), now), System(db, [c]);
    assert StepTo(System(db, []), plans, begin) == s1;
    assert StepTo(s1, plans, Finish(0, now)) == System(Apply(db, c, now), []);
    OneMore(s1, plans, Finish(0, now), rest);
    QuietStep(System(db, []), plans, begin, [Finish(0, now)] + rest, order);
    assert ([Finish(0, now)] + rest)[1..] == rest;
  }

  lemma DeletedOnce(db: Db, plans: map<string, int>, order: string, user: string, now: int, rest: seq<Step>)
    requires user in db.users && Runs(System(Apply(db, CDelete(user), now), []), plans, rest)
    ensures var steps := [Begin(DeleteRequest(user, false), now)] + ([Finish(0, now)] + rest);
            Runs(System(db, []), plans, steps) &&
            Activations(System(db, []), plans, steps, order) ==
            Activations(System(Apply(db, CDelete(user), now), []), plans, rest, order)
  {
    var begin, s1 := Begin(DeleteRequest(user, false), now), System(db, [CDelete(user)]);
    assert StepTo(System(db, []), plans, begin) == s1;
    assert StepTo(s1, plans, Finish(0, now)) == System(Apply(db, CDelete(user), now), []);
    OneMore(s1, plans, Finish(0, now), rest);
    OneMore(System(db, []), plans, begin, [Finish(0, now)] + rest);
    QuietStep(s1, plans, Finish(0, now), rest, order);
    QuietStep(System(db, []), plans, begin, [Finish(0, now)] + rest, order);
  }

  lemma QuietStep(s: System, plans: map<string, int>, step: Step, rest: seq<Step>, order: string)
    requires Enabled(s, step) && Runs(StepTo(s, plans, step), plans, rest) && !Activates(s, step, order)
    ensures Runs(s, plans, [step] + rest)
    ensures Activations(s, plans, [step] + rest, order) == Activations(StepTo(s, plans, step), plans, rest, order)
  {
    assert ([step] + rest)[1..] == rest;
  }

  /** After the payment and the deletion the order is as good as new for the other user. */
  lemma UnpaidAgain(db: Db, order: string, first: string, second: string, duration: int, now: int)
    requires UniqueOrders(db.subs) && !HasOrder(db.subs, order)
    requires first in db.users && second in db.users && first != second
    ensures var db1 := Apply(db, CPay(order, first, false, Some(duration)), now);
            first in db1.users && second in Apply(db1, CDelete(first), now).users &&
            !HasOrder(Apply(db1, CDelete(first), now).subs, order)
  {
    var c := CPay(order, first, false, Some(duration));
    var db1 := Apply(db, c, now);
    OrderStep(db, c, now, order);
    assert db1.subs[|db.subs|] == Subscription(order, first, now + duration * DAY);
    assert HoldsOrder(db1.subs, order, first);
    OrderStep(db1, CDelete(first), now, order);
  }

  /** One user pays and is deleted, then another one verifies the same order. */
  function PaidTwice(order: string, first: string, second: string, plan: string, now: int): seq<Step> {
    [Begin(PaymentRequest(order, first, plan), now)] + ([Finish(0, now)] +
    ([Begin(DeleteRequest(first, false), now)] + ([Finish(0, now)] +
    ([Begin(PaymentRequest(order, second, plan), now)] + ([Finish(0, now)] + [])))))
  }

  /** Whatever the tables, an unpaid order is activated twice by that run. */
  lemma OrderPaidTwice(db: Db, plans: map<string, int>, order: string, first: string, second: string, plan: string, now: int)
    requires UniqueOrders(db.subs) && !HasOrder(db.subs, order) && plan in plans
    requires first in db.users && second in db.users && first != second
    ensures Runs(System(db, []), plans, PaidTwice(order, first, second, plan, now))
    ensures Activations(System(db, []), plans, PaidTwice(order, first, second, plan, now), order) == 2
  {
    var db1 := Apply(db, CPay(order, first, false, Some(plans[plan])), now);
    var db2 := Apply(db1, CDelete(first), now);
    var last := [Begin(PaymentRequest(order, second, plan), now)] + ([Finish(0, now)] + []);
    var middle := [Begin(DeleteRequest(first, false), now)] + ([Finish(0, now)] + last);
    UnpaidAgain(db, order, first, second, plans[plan], now);
    PaidOnce(db2, plans, order, second, plan, now, []);
    DeletedOnce(db1, plans, order, first, now, last);
    PaidOnce(db, plans, order, first, plan, now, middle);
  }
}
