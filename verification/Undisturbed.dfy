/** Operations that the run models take apart, put together again: with nothing in between, the steps do what
    the operation served at once does. */
module Undisturbed {
  import opened Common
  import Sessions
  import SessionRaces
  import Cache
  import Devices
  import ThresholdRaces
  import DeviceList
  import Offline
  import Alerts
  import Premium

  // ---------------------------------------------------------------- refreshes

  /** Read, revoke, issue. */
  function RefreshSteps(t: nat, now: int): seq<SessionRaces.Step> {
    [SessionRaces.Read(t, now)] + ([SessionRaces.RevokeOld(0)] + ([SessionRaces.IssueNew(0, now)] + []))
  }

  lemma Onward(s: SessionRaces.System, step: SessionRaces.Step, rest: seq<SessionRaces.Step>, lifetime: nat)
    requires SessionRaces.Enabled(s, step) && SessionRaces.Runs(SessionRaces.StepTo(s, step, lifetime), rest, lifetime)
    ensures SessionRaces.Runs(s, [step] + rest, lifetime)
    ensures SessionRaces.RunTo(s, [step] + rest, lifetime) == SessionRaces.RunTo(SessionRaces.StepTo(s, step, lifetime), rest, lifetime)
  {
    assert ([step] + rest)[1..] == rest;
  }

  lemma GoodRefreshRun(state: Sessions.State, t: nat, now: int, lifetime: nat)
    requires Sessions.AnswerTo(state, t, now).Fresh?
    ensures var s := SessionRaces.System(state, [], {});
            SessionRaces.Runs(s, RefreshSteps(t, now), lifetime) &&
            SessionRaces.RunTo(s, RefreshSteps(t, now), lifetime) ==
            SessionRaces.System(Sessions.Refresh(state, t, now, lifetime), [], {})
  {
    var row := state.tokens[t];
    var p := SessionRaces.Refreshing(t, row, |state.log|, false);
    var revoked := state.(tokens := state.tokens[t := row.(revoked := true)]);
    var s0, s1 := SessionRaces.System(state, [], {}), SessionRaces.System(state, [p], {});
    var s2 := SessionRaces.System(revoked, [p.(revoked := true)], {});
    var s3 := SessionRaces.System(Sessions.Refresh(state, t, now, lifetime), [], {});
    assert SessionRaces.StepTo(s0, SessionRaces.Read(t, now), lifetime) == s1;
    assert SessionRaces.StepTo(s1, SessionRaces.RevokeOld(0), lifetime) == s2;
    assert SessionRaces.StepTo(s2, SessionRaces.IssueNew(0, now), lifetime) == s3;
    Onward(s2, SessionRaces.IssueNew(0, now), [], lifetime);
    Onward(s1, SessionRaces.RevokeOld(0), [SessionRaces.IssueNew(0, now)] + [], lifetime);
    Onward(s0, SessionRaces.Read(t, now), [SessionRaces.RevokeOld(0)] + ([SessionRaces.IssueNew(0, now)] + []), lifetime);
  }

  /** A refresh whose token is good is the three steps; one that is refused ends with the first. */
  lemma RefreshAlone(state: Sessions.State, t: nat, now: int, lifetime: nat)
    ensures var s, after := SessionRaces.System(state, [], {}), Sessions.Apply(state, Sessions.DoRefresh(t, now), lifetime);
            if Sessions.AnswerTo(state, t, now).Fresh? then
              SessionRaces.Runs(s, RefreshSteps(t, now), lifetime) &&
              SessionRaces.RunTo(s, RefreshSteps(t, now), lifetime) == SessionRaces.System(after, [], {})
            else
              SessionRaces.StepTo(s, SessionRaces.Read(t, now), lifetime) == SessionRaces.System(after, [], {})
  {
    if Sessions.AnswerTo(state, t, now).Fresh? {
      GoodRefreshRun(state, t, now, lifetime);
    }
  }

  /** A refresh ends without a token if its old one is no longer there when it is to be revoked, or its user
      has been deleted when the new one is to be stored. */
  lemma RefreshEndsEarly(s: SessionRaces.System, k: nat, now: int, lifetime: nat)
    requires k < |s.pending|
    ensures var ended := s.(pending := s.pending[..k] + s.pending[k + 1..]);
            (s.pending[k].token !in s.state.tokens && !s.pending[k].revoked ==>
               SessionRaces.StepTo(s, SessionRaces.RevokeOld(k), lifetime) == ended) &&
            (s.pending[k].row.user in s.gone && s.pending[k].revoked ==>
               SessionRaces.StepTo(s, SessionRaces.IssueNew(k, now), lifetime) == ended)
    ensures forall op: Sessions.Op :: !op.DoRefresh? ==>
              SessionRaces.StepTo(s, SessionRaces.Serve(op), lifetime).gone ==
              s.gone + if op.DoDeleteUser? then {op.user} else {}
  {
  }

  // ---------------------------------------------------------------- requests through a cache

  /** A request that misses takes the view and caches it for its lifetime; one that hits, or a deletion,
      leaves what others are about to do alone. */
  lemma RequestAlone<V>(view: V, slot: Cache.Slot<V>, now: int, ttl: int)
    requires slot.misses == 0 && slot.fills == []
    ensures var l := Cache.Line(view, slot, now);
            if slot.cached.Some? && now < slot.cached.value.expiresAt then
              Cache.StepTo(l, Cache.Look(now), ttl) == l && Cache.Served(l, now) == slot.cached.value.value
            else
              Cache.StepTo(Cache.StepTo(Cache.StepTo(l, Cache.Look(now), ttl), Cache.Take(now), ttl), Cache.Fill(0, now), ttl) ==
              Cache.Line(view, Cache.Slot(Some(Cache.Cached(view, now + ttl)), 0, [], slot.deletes), now) &&
              Cache.Served(l, now) == view
  {
    if !(slot.cached.Some? && now < slot.cached.value.expiresAt) {
      var l := Cache.Line(view, slot, now);
      var l2 := Cache.StepTo(Cache.StepTo(l, Cache.Look(now), ttl), Cache.Take(now), ttl);
      assert l2.slot.fills == [Cache.Taken(view, now)];
      assert l2.slot.fills[..0] + l2.slot.fills[1..] == [];
    }
  }

  /** A deletion that is owed empties the key and is owed no more; the others still are. */
  lemma DeletionAlone<V>(l: Cache.Line<V>, now: int, ttl: int)
    requires Cache.Enabled(l, Cache.Delete(now))
    ensures var l' := Cache.StepTo(l, Cache.Delete(now), ttl);
            l'.slot.cached == None && l'.slot.deletes + 1 == l.slot.deletes && l'.slot.misses == l.slot.misses &&
            l'.slot.fills == l.slot.fills && l'.view == l.view
  {
  }

  /** A claim owes the claimer's key a deletion exactly if it gives the claimer the device. */
  lemma ClaimOwesDeletion(s: DeviceList.Lists, k: nat, now: int)
    requires k < |s.system.pending|
    ensures var c, s' := s.system.pending[k], DeviceList.ListStepTo(s, DeviceList.EndOfClaim(k, now));
            DeviceList.SlotOf(s', c.user).deletes ==
            DeviceList.SlotOf(s, c.user).deletes +
            (if |s'.system.registry.assignments| > |s.system.registry.assignments| then 1 else 0)
    ensures forall user :: user != s.system.pending[k].user ==>
              DeviceList.SlotOf(DeviceList.ListStepTo(s, DeviceList.EndOfClaim(k, now)), user) == DeviceList.SlotOf(s, user)
  {
  }

  // ---------------------------------------------------------------- checks and writes of thresholds

  /** An operation that checks first and writes later: refused by its check, or the operation served at once. */
  lemma CheckAndWriteAlone(r: Devices.Registry, op: Devices.Op)
    requires op.DoAddToGroup? || op.DoSetGroupThreshold? || op.DoSetDeviceThreshold?
    ensures var s := ThresholdRaces.Checked(r, []);
            ThresholdRaces.Enabled(s, ThresholdRaces.Check(op)) &&
            ThresholdRaces.StepTo(s, ThresholdRaces.Serve(op)) == ThresholdRaces.Checked(Devices.Apply(r, op), []) &&
            var checked := ThresholdRaces.StepTo(s, ThresholdRaces.Check(op));
            if checked.pending == [] then checked == s && Devices.Apply(r, op) == r
            else
              checked.pending == [op] &&
              ThresholdRaces.StepTo(checked, ThresholdRaces.Commit(0)) == ThresholdRaces.Checked(Devices.Apply(r, op), [])
  {
    ThresholdRaces.CheckThenWrite(r, op);
    assert [op][..0] + [op][1..] == [];
  }

  // ---------------------------------------------------------------- deleted devices

  /** A deleted device is offline, its messages end at once, and no sweep marks it. */
  lemma DeletedIsLeftAlone(f: Offline.Fleet, c: Offline.Config, d: string, dto: map<string, Alerts.Reading>, cutoff: int)
    requires d in f.devices
    ensures Offline.Enabled(f, c, Offline.DoDelete(d))
    ensures var f' := Offline.StepTo(f, c, Offline.DoDelete(d));
            f' == f.(devices := f'.devices) && f'.devices.Keys == f.devices.Keys &&
            f'.devices[d] == Offline.DeviceRow(Offline.OFFLINE, f.devices[d].heartbeat, true) &&
            (forall k :: k in f.devices && k != d ==> f'.devices[k] == f.devices[k]) &&
            Offline.StepTo(f', c, Offline.ReadStatus(d, dto)) == f' &&
            Offline.MarkOffline(f'.devices, cutoff)[d] == f'.devices[d]
  {
  }

  // ---------------------------------------------------------------- premium requests

  /** The guard, the reads and row updates inside the transaction, and the commit. */
  lemma RequestServedAlone(db: Premium.Db, plans: map<string, int>, r: Premium.Request, now: int)
    ensures var s := Premium.System(db, []);
            var begun := Premium.StepTo(s, plans, Premium.Begin(r, now));
            if begun.pending == [] then
              Premium.Serve(db, plans, r, now) == db && begun.db == db
            else
              |begun.pending| == 1 &&
              Premium.StepTo(begun, plans, Premium.ReadPrevious(0)) == begun &&
              Premium.StepTo(begun, plans, Premium.ReachRows(0)) == begun &&
              Premium.StepTo(begun, plans, Premium.Finish(0, now)) ==
              Premium.System(Premium.Serve(db, plans, r, now), [])
  {
    var begun := Premium.StepTo(Premium.System(db, []), plans, Premium.Begin(r, now));
    if begun.pending != [] {
      var c := begun.pending[0];
      assert begun.pending == [c] && begun.pending[0 := c] == begun.pending;
      assert Premium.WithPrevious(db, c) == c && Premium.WithReach(db, c) == c;
    }
  }

  /** A revocation that reads the previous expiry, updates the rows and commits with nothing in between,
      however long after its guard, goes by what the tables say then. */
  lemma RevocationGoesByTables(s: Premium.System, plans: map<string, int>, k: nat, now: int)
    requires k < |s.pending| && s.pending[k].CRevoke? && s.pending[k].user in s.db.users
    ensures var c, db := s.pending[k], s.db;
            var read := Premium.StepTo(s, plans, Premium.ReadPrevious(k));
            var reached := Premium.StepTo(read, plans, Premium.ReachRows(k));
            var after := Premium.StepTo(reached, plans, Premium.Finish(k, now)).db;
            read.db == reached.db == db && |read.pending| == |reached.pending| == |s.pending| &&
            after.history == db.history + [Premium.History(c.user, Premium.Revoke, db.users[c.user].expiry, now, Premium.Admin(c.admin))] &&
            |after.rows| == |db.rows| && forall i :: 0 <= i < |db.rows| ==>
              after.rows[i] == if db.rows[i].user == c.user && db.rows[i].status == Premium.Active
                               then db.rows[i].(status := Premium.Revoked) else db.rows[i]
  {
    var c := s.pending[k];
    Premium.FullReach(s.db.rows, c.user, |Premium.Own(s.db, c.user)|, Premium.RevokeRow(c.user));
  }

  /** And so does the update of a renewal. */
  lemma RenewalReachesRows(s: Premium.System, plans: map<string, int>, k: nat, now: int)
    requires k < |s.pending| && s.pending[k].CRenew? && s.pending[k].user in s.db.users
    ensures var c, db := s.pending[k], s.db;
            var reached := Premium.StepTo(s, plans, Premium.ReachRows(k));
            var after := Premium.StepTo(reached, plans, Premium.Finish(k, now)).db;
            reached.db == db && |reached.pending| == |s.pending| &&
            |after.rows| == |db.rows| && forall i :: 0 <= i < |db.rows| ==>
              after.rows[i] == if db.rows[i].user == c.user && db.rows[i].status == Premium.Active
                               then db.rows[i].(expiry := c.expiry) else db.rows[i]
  {
    var c := s.pending[k];
    Premium.FullReach(s.db.rows, c.user, |Premium.Own(s.db, c.user)|, Premium.RenewRow(c.user, c.expiry));
  }
}
