/** The premium history: folding it gives every user's expiry, and when its entries continue each other. */
module PremiumHistory {
  import opened Common
  import opened Premium

  // ---------------------------------------------------------------- replay

  /** Folding a user's history: the last entry's new expiry. */
  function Replay(entries: seq<History>): Option<int> {
    if entries == [] then None else Some(entries[|entries| - 1].next)
  }

  ghost predicate Replays(db: Db, user: string) {
    if user in db.users then db.users[user].expiry == Replay(Filter(HistoryOf(user), db.history))
    else Filter(HistoryOf(user), db.history) == []
  }

  ghost predicate HistoryReplays(db: Db) {
    forall user :: Replays(db, user)
  }

  lemma UserAfter(db: Db, c: Commit, now: int, user: string)
    requires OutcomeOf(db, c) == Done && !c.CExpire? && !c.CDelete?
    ensures var db', entry := Apply(db, c, now), Apply(db, c, now).history[|db.history|];
            && db'.history == db.history + [entry] && entry.user == c.user && c.user in db.users
            && (user in db'.users <==> user in db.users)
            && (user in db.users ==> db'.users[user].expiry == if user == c.user then Some(entry.next) else db.users[user].expiry)
  {
  }

  lemma HistoryAfterDeletion(history: seq<History>, gone: string, user: string)
    ensures Filter(HistoryOf(user), Filter(Not(HistoryOf(gone)), history)) ==
            if gone == user then [] else Filter(HistoryOf(user), history)
  {
    if gone == user {
      FilterOutside(HistoryOf(user), Not(HistoryOf(gone)), history);
    } else {
      FilterWithin(HistoryOf(user), Not(HistoryOf(gone)), history);
    }
  }

  /** Replay holds whatever the guards read. */
  lemma ApplyKeepsReplay(db: Db, c: Commit, now: int)
    requires HistoryReplays(db)
    ensures HistoryReplays(Apply(db, c, now))
  {
    var db' := Apply(db, c, now);
    forall user ensures Replays(db', user) {
      assert Replays(db, user);
      if OutcomeOf(db, c) == Done && c.CDelete? {
        HistoryAfterDeletion(db.history, c.user, user);
      } else if OutcomeOf(db, c) == Done && !c.CExpire? {
        UserAfter(db, c, now, user);
        FilterSnoc(HistoryOf(user), db.history, db'.history[|db.history|]);
      }
    }
  }

  lemma {:induction false} RunKeepsReplay(s: System, plans: map<string, int>, steps: seq<Step>)
    requires HistoryReplays(s.db) && Runs(s, plans, steps)
    ensures HistoryReplays(RunTo(s, plans, steps).db)
    decreases |steps|
  {
    if steps == [] {
    } else {
      if steps[0].Finish? {
        ApplyKeepsReplay(s.db, s.pending[steps[0].k], steps[0].now);
      }
      RunKeepsReplay(StepTo(s, plans, steps[0]), plans, steps[1..]);
    }
  }

  // ---------------------------------------------------------------- the chain

  /** The entry continues the entries before it; a renewal moves the expiry forward. */
  predicate Continues(before: seq<History>, entry: History) {
    match entry.action
    case Activate => entry.previous == None
    case Renew => entry.previous.Some? && entry.previous == Replay(before) && entry.previous.value < entry.next
    case Revoke => entry.previous == Replay(before)
  }

  ghost predicate Chained(entries: seq<History>) {
    forall i :: 0 <= i < |entries| ==> Continues(entries[..i], entries[i])
  }

  ghost predicate ChainedFor(db: Db, user: string) {
    Chained(Filter(HistoryOf(user), db.history))
  }

  ghost predicate HistoryChained(db: Db) {
    forall user :: ChainedFor(db, user)
  }

  /** The previous expiry that a renewal's guard or a revocation's transaction has read is still the
      current one, and a renewal moves it forward. */
  predicate ReadCurrent(db: Db, c: Commit) {
    (c.CRenew? && c.user in db.users ==> db.users[c.user].expiry == Some(c.previous) && c.previous < c.expiry) &&
    (c.CRevoke? && c.user in db.users ==> db.users[c.user].expiry == c.seen)
  }

  /** A transaction keeps the chain exactly when it is no renewal or revocation that has read an outdated
      expiry, and no renewal that does not move it forward. */
  lemma ApplyKeepsChainIff(db: Db, c: Commit, now: int)
    requires HistoryReplays(db) && HistoryChained(db)
    ensures HistoryChained(Apply(db, c, now)) <==> ReadCurrent(db, c)
  {
    var db' := Apply(db, c, now);
    if OutcomeOf(db, c) == Done && c.CDelete? {
      forall user ensures ChainedFor(db', user) {
        assert ChainedFor(db, user);
        HistoryAfterDeletion(db.history, c.user, user);
      }
    } else if OutcomeOf(db, c) == Done && !c.CExpire? {
      UserAfter(db, c, now, c.user);
      var entry := db'.history[|db.history|];
      forall user ensures ChainedFor(db', user) <==> user != c.user || ReadCurrent(db, c) {
        FilterSnoc(HistoryOf(user), db.history, entry);
        assert ChainedFor(db, user) && Replays(db, user);
        if user == c.user {
          ChainOneMore(Filter(HistoryOf(user), db.history), entry);
          EntryContinues(db, c, now);
        } else {
          assert Filter(HistoryOf(user), db.history) + [] == Filter(HistoryOf(user), db.history);
        }
      }
      assert ChainedFor(db', c.user) <==> ReadCurrent(db, c);
    } else {
      forall user ensures ChainedFor(db', user) {
        assert ChainedFor(db, user);
      }
    }
  }

  lemma EntryContinues(db: Db, c: Commit, now: int)
    requires OutcomeOf(db, c) == Done && !c.CExpire? && !c.CDelete?
    requires Replays(db, c.user)
    ensures Continues(Filter(HistoryOf(c.user), db.history), Apply(db, c, now).history[|db.history|]) <==> ReadCurrent(db, c)
  {
  }

  lemma ChainOneMore(before: seq<History>, entry: History)
    requires Chained(before)
    ensures Chained(before + [entry]) <==> Continues(before, entry)
  {
    var after, n := before + [entry], |before|;
    assert after[..n] == before && after[n] == entry;
    forall i | 0 <= i < n ensures Continues(after[..i], after[i]) {
      assert after[i] == before[i] && after[..i] == before[..i];
      assert Continues(before[..i], before[i]);
    }
  }

  lemma GuardReadsCurrent(db: Db, plans: map<string, int>, r: Request, now: int)
    ensures var c := Guard(db, plans, r, now); c.Some? ==> ReadCurrent(db, c.value)
  {
  }

  /** Served one at a time, every request keeps replay and chain. */
  lemma ServeKeepsHistory(db: Db, plans: map<string, int>, r: Request, now: int)
    requires HistoryReplays(db) && HistoryChained(db)
    ensures HistoryReplays(Serve(db, plans, r, now)) && HistoryChained(Serve(db, plans, r, now))
  {
    var c := Guard(db, plans, r, now);
    GuardReadsCurrent(db, plans, r, now);
    if c.Some? {
      ApplyKeepsReplay(db, c.value, now);
      ApplyKeepsChainIff(db, c.value, now);
    }
  }

  /** Every transaction of the run has read the current expiry. */
  ghost predicate AllReadCurrent(s: System, plans: map<string, int>, steps: seq<Step>)
    requires Runs(s, plans, steps)
    decreases |steps|
  {
    steps == [] ||
    ((steps[0].Finish? ==> ReadCurrent(s.db, s.pending[steps[0].k])) &&
     AllReadCurrent(StepTo(s, plans, steps[0]), plans, steps[1..]))
  }

  ghost predicate AlwaysChained(s: System, plans: map<string, int>, steps: seq<Step>)
    requires Runs(s, plans, steps)
    decreases |steps|
  {
    HistoryChained(s.db) && (steps == [] || AlwaysChained(StepTo(s, plans, steps[0]), plans, steps[1..]))
  }

  /** Over every interleaving: the history stays chained throughout if and only if no renewal or revocation
      commits on an outdated expiry. */
  lemma {:induction false} RunKeepsChainIff(s: System, plans: map<string, int>, steps: seq<Step>)
    requires HistoryReplays(s.db) && HistoryChained(s.db) && Runs(s, plans, steps)
    ensures AlwaysChained(s, plans, steps) <==> AllReadCurrent(s, plans, steps)
    decreases |steps|
  {
    if steps == [] {
    } else {
      var s' := StepTo(s, plans, steps[0]);
      if steps[0].Finish? {
        ApplyKeepsReplay(s.db, s.pending[steps[0].k], steps[0].now);
        ApplyKeepsChainIff(s.db, s.pending[steps[0].k], steps[0].now);
      }
      if HistoryChained(s'.db) {
        RunKeepsChainIff(s', plans, steps[1..]);
      }
    }
  }

  lemma OnePremiumIsExplained(user: string, expiry: int)
    ensures HistoryReplays(OnePremium(user, expiry)) && HistoryChained(OnePremium(user, expiry))
  {
    var db, entry := OnePremium(user, expiry), History(user, Activate, None, expiry, Admin(""));
    forall v ensures Replays(db, v) && ChainedFor(db, v) {
      FilterOne(HistoryOf(v), entry);
      assert db.history == [entry];
    }
  }

  /** Two renewals that both read before either commits: the second records an expiry that had already
      been replaced. */
  lemma OverlappingRenewals(plans: map<string, int>, user: string) returns (db: Db, end: Db)
    ensures HistoryReplays(db) && HistoryChained(db)
    ensures Leads(db, plans, BothPending(RenewRequest(user, "a", 100), RenewRequest(user, "b", 200), 0), end)
    ensures HistoryReplays(end) && !HistoryChained(end)
  {
    db := OnePremium(user, 10);
    OnePremiumIsExplained(user, 10);
    BothPendingRun(db, plans, RenewRequest(user, "a", 100), RenewRequest(user, "b", 200), 0);
    OwnRowOfOne(user, 10);
    end := BothCommitted(db, CRenew(user, "a", 10, 100, 1), CRenew(user, "b", 10, 200, 1));
  }

  /** Two transactions of which the second has read what the first replaces. */
  lemma BothCommitted(db: Db, c1: Commit, c2: Commit) returns (end: Db)
    requires HistoryReplays(db) && HistoryChained(db) && ReadCurrent(db, c1) && !ReadCurrent(Apply(db, c1, 0), c2)
    ensures end == Apply(Apply(db, c1, 0), c2, 0) && HistoryReplays(end) && !HistoryChained(end)
  {
    var db1 := Apply(db, c1, 0);
    end := Apply(db1, c2, 0);
    ApplyKeepsReplay(db, c1, 0);
    ApplyKeepsChainIff(db, c1, 0);
    ApplyKeepsReplay(db1, c2, 0);
    ApplyKeepsChainIff(db1, c2, 0);
  }

  /** A renewal that commits after a revocation has read the expiry: the revocation records one that had
      been replaced, although no renewal was outdated. */
  lemma RevocationAcrossRenewal(plans: map<string, int>, user: string) returns (db: Db, end: Db)
    ensures HistoryReplays(db) && HistoryChained(db)
    ensures Leads(db, plans, BothPending(RenewRequest(user, "a", 100), RevokeRequest(user, "b"), 0), end)
    ensures HistoryReplays(end) && !HistoryChained(end)
  {
    db := OnePremium(user, 10);
    OnePremiumIsExplained(user, 10);
    BothPendingRun(db, plans, RenewRequest(user, "a", 100), RevokeRequest(user, "b"), 0);
    OwnRowOfOne(user, 10);
    end := BothCommitted(db, CRenew(user, "a", 10, 100, 1), CRevoke(user, "b", Some(10), 1));
  }
}
