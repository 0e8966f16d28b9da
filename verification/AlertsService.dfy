/** The alert service over its tables: threshold lookup, the prefetched state map, and the double
    loop that writes event log, notification and state rows. */
module AlertsService {
  import opened Common
  import opened Alerts
  import opened AlertAnswers

  const DEFAULT_THRESHOLDS: Record :=
    Limits(["pm25", "pm10", "tvoc", "co2", "temperature", "humidity", "noise"],
           map["pm25" := 20.0, "pm10" := 45.0, "tvoc" := 500.0, "co2" := 1000.0,
               "temperature" := 28.0, "humidity" := 60.0, "noise" := 55.0])

  /** The key of the prefetched state map: user ID, a colon, parameter. */
  function JoinKey(user: string, param: string): string {
    user + ":" + param
  }

  lemma FirstColon(u: string, p: string)
    requires ':' !in u
    ensures |u| < |JoinKey(u, p)| && JoinKey(u, p)[|u|] == ':'
    ensures forall i :: 0 <= i < |u| ==> JoinKey(u, p)[i] != ':'
  {
    forall i | 0 <= i < |u| ensures JoinKey(u, p)[i] != ':' {
      assert JoinKey(u, p)[i] == u[i] && u[i] in u;
    }
  }

  /** User IDs are UUIDs, which hold no colon; parameters may hold one. */
  lemma JoinKeyInjective(u: string, p: string, u': string, p': string)
    requires ':' !in u && ':' !in u'
    ensures JoinKey(u, p) == JoinKey(u', p') <==> u == u' && p == p'
  {
    FirstColon(u, p);
    FirstColon(u', p');
    if JoinKey(u, p) == JoinKey(u', p') {
      assert |u| == |u'|;
      assert u == JoinKey(u, p)[..|u|] && u' == JoinKey(u', p')[..|u|];
      assert p == JoinKey(u, p)[|u| + 1..] && p' == JoinKey(u', p')[|u| + 1..];
    }
  }

  function ActiveOn(device: string): Assignment -> bool {
    (a: Assignment) => a.device == device && a.active
  }

  function UsersOf(rows: seq<Assignment>): (users: seq<string>)
    ensures |users| == |rows|
  {
    seq(|rows|, i requires 0 <= i < |rows| => rows[i].user)
  }

  lemma {:induction false} NothingTimes(n: nat)
    ensures Times([], n) == [] && Times([], 0) == []
  {
    if n == 0 {
    } else {
      NothingTimes(n - 1);
    }
  }

  class AlertTables {
    var assignments: seq<Assignment>
    var deviceThresholds: map<string, Record>
    var groupOf: map<string, string>
    var groupThresholds: map<string, Record>
    var states: map<Key, State>
    var log: seq<Event>
    var notifications: seq<Notification>

    /** No stored user ID holds a colon. */
    ghost predicate Valid()
      reads this
    {
      (forall i :: 0 <= i < |assignments| ==> ':' !in assignments[i].user) &&
      forall k :: k in states ==> ':' !in k.user
    }

    function AssignedUsers(device: string): seq<string>
      reads this
    {
      UsersOf(Filter(ActiveOn(device), assignments))
    }

    /** Device specific, then group default, then global default. */
    function Effective(device: string): Record
      reads this
    {
      if device in deviceThresholds then deviceThresholds[device]
      else if device in groupOf && groupOf[device] in groupThresholds then groupThresholds[groupOf[device]]
      else DEFAULT_THRESHOLDS
    }

    ghost predicate Wrote(log0: seq<Event>, notes0: seq<Notification>, states0: map<Key, State>,
                          limit: map<string, real>, es: seq<Event>)
      reads this
    {
      log == log0 + es && notifications == notes0 + NotificationsOf(es, limit) && states == Upsert(states0, es)
    }

    /** The limit that counts for the device: its own, else its group's, else the built-in one. */
    ghost predicate Limited(device: string, param: string, limit: real)
      reads this
    {
      if device in deviceThresholds then
        param in deviceThresholds[device].limit && limit == deviceThresholds[device].limit[param]
      else if device in groupOf && groupOf[device] in groupThresholds then
        param in groupThresholds[groupOf[device]].limit && limit == groupThresholds[groupOf[device]].limit[param]
      else
        (param, limit) in {("pm25", 20.0), ("pm10", 45.0), ("tvoc", 500.0), ("co2", 1000.0), ("temperature", 28.0),
                           ("humidity", 60.0), ("noise", 55.0)}
    }

    ghost predicate Assigned(device: string, user: string)
      reads this
    {
      exists i :: 0 <= i < |assignments| && assignments[i] == Assignment(device, user, true)
    }

    ghost predicate RightFor(device: string, telemetry: map<string, Reading>, es: seq<Event>, states0: map<Key, State>,
                             user: string, param: string, limit: real)
      reads this
    {
      var key := Key(user, device, param);
      RightAnswer(key, if key in states0 then states0[key] else Normal, limit,
                  if param in telemetry then telemetry[param] else Absent, Filter(ByKey(key), es),
                  if key in states then states[key] else Normal)
    }

    ghost predicate Expected(device: string, e: Event)
      reads this
    {
      e.key.device == device && Assigned(device, e.key.user) && exists limit :: Limited(device, e.key.param, limit)
    }

    /** In numbers, what a message has to do to the tables: the right answer for every assigned user and
        limit, no events for anybody or anything else. */
    ghost predicate Answered(device: string, telemetry: map<string, Reading>, log0: seq<Event>, states0: map<Key, State>)
      reads this
    {
      log0 <= log &&
      (forall user, param, limit :: Assigned(device, user) && Limited(device, param, limit) ==>
         RightFor(device, telemetry, log[|log0|..], states0, user, param, limit)) &&
      forall e <- log[|log0|..] :: Expected(device, e)
    }

    /** The notification belongs to the event, and names the limit that counts. */
    ghost predicate Tells(device: string, e: Event, n: Notification)
      reads this
    {
      forall limit :: Limited(device, e.key.param, limit) ==>
        n == if e.kind == Triggered then Exceeded(e.key, e.value, limit) else BackToNormal(e.key, e.value)
    }

    /** One notification for each new event. */
    ghost predicate Notified(device: string, log0: seq<Event>, notes0: seq<Notification>)
      reads this
    {
      notes0 <= notifications && log0 <= log &&
      var es, ns := log[|log0|..], notifications[|notes0|..];
      |ns| == |es| && forall i :: 0 <= i < |es| ==> Tells(device, es[i], ns[i])
    }

    lemma LimitedIff(device: string, param: string, limit: real)
      ensures Limited(device, param, limit) <==> param in Effective(device).limit && limit == Effective(device).limit[param]
    {
    }

    lemma AssignedIff(device: string, user: string)
      ensures Assigned(device, user) <==> user in AssignedUsers(device)
    {
      var rows := Filter(ActiveOn(device), assignments);
      if Assigned(device, user) {
        var i :| 0 <= i < |assignments| && assignments[i] == Assignment(device, user, true);
        FilterKeeps(ActiveOn(device), assignments, i);
        var k :| 0 <= k < |rows| && rows[k] == assignments[i];
        assert AssignedUsers(device)[k] == user;
      }
      if user in AssignedUsers(device) {
        var k :| 0 <= k < |rows| && rows[k].user == user;
        FilterSound(ActiveOn(device), assignments, k);
        assert rows[k] == Assignment(device, user, true);
      }
    }

    lemma EventIsExpected(device: string, telemetry: map<string, Reading>, states0: map<Key, State>, e: Event)
      requires e in BatchEvents(states0, device, AssignedUsers(device), Effective(device), telemetry)
      ensures Expected(device, e)
    {
      var users, record := AssignedUsers(device), Effective(device);
      var es := BatchEvents(states0, device, users, record, telemetry);
      var i :| 0 <= i < |es| && es[i] == e;
      FilterKeeps(ByKey(e.key), es, i);
      BatchProjects(states0, device, users, record, telemetry, e.key);
      NothingTimes(Occurrences(users, e.key.user));
      OccurrencesPositive(users, e.key.user);
      AssignedIff(device, e.key.user);
      LimitedIff(device, e.key.param, record.limit[e.key.param]);
    }

    lemma BatchIsRight(device: string, telemetry: map<string, Reading>, states0: map<Key, State>,
                       user: string, param: string, limit: real)
      requires NoDup(AssignedUsers(device)) && Assigned(device, user) && Limited(device, param, limit)
      requires states == Upsert(states0, BatchEvents(states0, device, AssignedUsers(device), Effective(device), telemetry))
      ensures RightFor(device, telemetry, BatchEvents(states0, device, AssignedUsers(device), Effective(device), telemetry),
                       states0, user, param, limit)
    {
      AssignedIff(device, user);
      LimitedIff(device, param, limit);
      AnswersInNumbers(states0, device, AssignedUsers(device), Effective(device), telemetry, Key(user, device, param));
    }

    lemma WroteIsAnswered(device: string, telemetry: map<string, Reading>, log0: seq<Event>, notes0: seq<Notification>,
                          states0: map<Key, State>)
      requires NoDup(AssignedUsers(device))
      requires Wrote(log0, notes0, states0, Effective(device).limit,
                     BatchEvents(states0, device, AssignedUsers(device), Effective(device), telemetry))
      ensures Answered(device, telemetry, log0, states0)
    {
      var es := BatchEvents(states0, device, AssignedUsers(device), Effective(device), telemetry);
      assert log[|log0|..] == es;
      forall user, param, limit | Assigned(device, user) && Limited(device, param, limit)
        ensures RightFor(device, telemetry, es, states0, user, param, limit)
      {
        BatchIsRight(device, telemetry, states0, user, param, limit);
      }
      forall e | e in es ensures Expected(device, e) {
        EventIsExpected(device, telemetry, states0, e);
      }
    }

    lemma NotificationTells(device: string, e: Event)
      ensures Tells(device, e, NotificationOf(e, Effective(device).limit))
    {
      forall limit | Limited(device, e.key.param, limit)
        ensures NotificationOf(e, Effective(device).limit) ==
                if e.kind == Triggered then Exceeded(e.key, e.value, limit) else BackToNormal(e.key, e.value)
      {
        LimitedIff(device, e.key.param, limit);
      }
    }

    lemma WroteIsNotified(device: string, log0: seq<Event>, notes0: seq<Notification>, states0: map<Key, State>, es: seq<Event>)
      requires Wrote(log0, notes0, states0, Effective(device).limit, es)
      ensures Notified(device, log0, notes0)
    {
      assert log[|log0|..] == es && notifications[|notes0|..] == NotificationsOf(es, Effective(device).limit);
      forall i | 0 <= i < |es| ensures Tells(device, es[i], NotificationsOf(es, Effective(device).limit)[i]) {
        NotificationTells(device, es[i]);
      }
    }

    method TriggerAlert(device: string, user: string, param: string, value: real, limit: real)
      modifies this`log, this`notifications, this`states
      ensures log == old(log) + [Event(Key(user, device, param), Triggered, value)]
      ensures notifications == old(notifications) + [Exceeded(Key(user, device, param), value, limit)]
      ensures states == old(states)[Key(user, device, param) := Alerting]
    {
      log := log + [Event(Key(user, device, param), Triggered, value)];
      notifications := notifications + [Exceeded(Key(user, device, param), value, limit)];
      states := states[Key(user, device, param) := Alerting];
    }

    method ResolveAlert(device: string, user: string, param: string, value: real)
      modifies this`log, this`notifications, this`states
      ensures log == old(log) + [Event(Key(user, device, param), Resolved, value)]
      ensures notifications == old(notifications) + [BackToNormal(Key(user, device, param), value)]
      ensures states == old(states)[Key(user, device, param) := Normal]
    {
      log := log + [Event(Key(user, device, param), Resolved, value)];
      notifications := notifications + [BackToNormal(Key(user, device, param), value)];
      states := states[Key(user, device, param) := Normal];
    }

    /** The rows of the device for the given users and parameters, keyed by "user:parameter". */
    method FetchStates(device: string, users: seq<string>, params: seq<string>) returns (stateMap: map<string, State>)
      requires Valid() && forall i :: 0 <= i < |users| ==> ':' !in users[i]
      ensures forall u, p :: u in users && p in params ==>
                (if JoinKey(u, p) in stateMap then stateMap[JoinKey(u, p)] else Normal) ==
                StateOf(states, Key(u, device, p))
    {
      forall u: string, p: string, u': string, p': string | ':' !in u && ':' !in u'
        ensures JoinKey(u, p) == JoinKey(u', p') <==> u == u' && p == p'
      {
        JoinKeyInjective(u, p, u', p');
      }
      stateMap := map k | k in states && k.device == device && k.user in users && k.param in params
                      :: JoinKey(k.user, k.param) := states[k];
      forall u, p | u in users && p in params
        ensures (if JoinKey(u, p) in stateMap then stateMap[JoinKey(u, p)] else Normal) ==
                StateOf(states, Key(u, device, p))
      {
        if Key(u, device, p) in states {
          assert JoinKey(u, p) in stateMap;
        }
      }
    }

    /** The body of the double loop for one user and parameter; state is the prefetched one. */
    method EvaluateOne(device: string, user: string, param: string, threshold: real, value: Reading, state: State,
                       ghost log0: seq<Event>, ghost notes0: seq<Notification>, ghost states0: map<Key, State>,
                       ghost limit: map<string, real>, ghost es: seq<Event>)
      requires Wrote(log0, notes0, states0, limit, es) && param in limit && limit[param] == threshold
      modifies this`log, this`notifications, this`states
      ensures Wrote(log0, notes0, states0, limit, es + Fire(Key(user, device, param), state, threshold, value))
    {
      ghost var fired := Fire(Key(user, device, param), state, threshold, value);
      assert fired == [] ==> es + fired == es;
      assert fired != [] ==> (es + fired)[..|es|] == es;
      match value
      case Absent =>
      case NotANumber =>
      case Num(v) =>
        var hysteresis := Hysteresis(threshold);
        var resolveLimit := threshold - hysteresis;
        if state == Normal && v > threshold {
          TriggerAlert(device, user, param, v, threshold);
          assert NotificationsOf(es + fired, limit) == NotificationsOf(es, limit) + [NotificationOf(fired[0], limit)];
        } else if state == Alerting && v < resolveLimit {
          ResolveAlert(device, user, param, v);
          assert NotificationsOf(es + fired, limit) == NotificationsOf(es, limit) + [NotificationOf(fired[0], limit)];
        }
    }

    method EvaluateUser(device: string, user: string, thresholds: Record, telemetry: map<string, Reading>,
                        stateMap: map<string, State>, ghost log0: seq<Event>, ghost notes0: seq<Notification>,
                        ghost states0: map<Key, State>, ghost es: seq<Event>)
      requires Wrote(log0, notes0, states0, thresholds.limit, es)
      requires forall p :: p in thresholds.params ==>
                 (if JoinKey(user, p) in stateMap then stateMap[JoinKey(user, p)] else Normal) ==
                 StateOf(states0, Key(user, device, p))
      modifies this`log, this`notifications, this`states
      ensures Wrote(log0, notes0, states0, thresholds.limit,
                    es + UserEvents(states0, device, user, thresholds.params, thresholds.limit, telemetry))
    {
      var params := thresholds.params;
      assert es + [] == es;
      for j := 0 to |params|
        invariant Wrote(log0, notes0, states0, thresholds.limit,
                        es + UserEvents(states0, device, user, params[..j], thresholds.limit, telemetry))
      {
        var param := params[j];
        ghost var soFar := UserEvents(states0, device, user, params[..j], thresholds.limit, telemetry);
        var currentState := if JoinKey(user, param) in stateMap then stateMap[JoinKey(user, param)] else Normal;
        EvaluateOne(device, user, param, thresholds.limit[param], ReadingOf(telemetry, param), currentState,
                    log0, notes0, states0, thresholds.limit, es + soFar);
        assert params[..j + 1][..j] == params[..j];
        Assoc(es, soFar, Fire(Key(user, device, param), currentState, thresholds.limit[param], ReadingOf(telemetry, param)));
      }
      assert params[..|params|] == params;
    }

    /** The message's events, exactly as BatchEvents lists them, reach all three tables. */
    method EvaluateWithThresholds(device: string, thresholds: Record, telemetry: map<string, Reading>)
      requires Valid()
      modifies this`log, this`notifications, this`states
      ensures Wrote(old(log), old(notifications), old(states), thresholds.limit,
                    BatchEvents(old(states), device, AssignedUsers(device), thresholds, telemetry))
    {
      var users := AssignedUsers(device);
      ghost var log0, notes0, states0 := log, notifications, states;
      ColonFreeUsers(device);
      var stateMap := FetchStates(device, users, thresholds.params);
      for i := 0 to |users|
        invariant Wrote(log0, notes0, states0, thresholds.limit,
                        BatchEvents(states0, device, users[..i], thresholds, telemetry))
      {
        assert users[i] in users;
        ghost var soFar := BatchEvents(states0, device, users[..i], thresholds, telemetry);
        EvaluateUser(device, users[i], thresholds, telemetry, stateMap, log0, notes0, states0, soFar);
        assert users[..i + 1][..i] == users[..i];
      }
      assert users[..|users|] == users;
    }

    lemma ColonFreeUsers(device: string)
      requires Valid()
      ensures forall i :: 0 <= i < |AssignedUsers(device)| ==> ':' !in AssignedUsers(device)[i]
    {
      forall i | 0 <= i < |AssignedUsers(device)| ensures ':' !in AssignedUsers(device)[i] {
        FilterSound(ActiveOn(device), assignments, i);
      }
    }

    /** One message: the effective limits, the events of the batch, and agreement of log and states
        whenever the device has no user assigned twice. */
    method Evaluate(device: string, telemetry: map<string, Reading>)
      requires Valid()
      modifies this`log, this`notifications, this`states
      ensures Wrote(old(log), old(notifications), old(states), Effective(device).limit,
                    BatchEvents(old(states), device, AssignedUsers(device), Effective(device), telemetry))
      ensures NoDup(AssignedUsers(device)) && old(LogAgrees(states, log)) ==> LogAgrees(states, log)
      ensures NoDup(AssignedUsers(device)) ==> Answered(device, telemetry, old(log), old(states))
      ensures Notified(device, old(log), old(notifications))
    {
      ghost var log0, notes0, states0 := log, notifications, states;
      if NoDup(AssignedUsers(device)) {
        DistinctUsersKeepAgreement(device, AssignedUsers(device), states, log, Effective(device), telemetry);
      }
      if device in deviceThresholds {
        EvaluateWithThresholds(device, deviceThresholds[device], telemetry);
      } else if device in groupOf && groupOf[device] in groupThresholds {
        EvaluateWithThresholds(device, groupThresholds[groupOf[device]], telemetry);
      } else {
        EvaluateWithThresholds(device, DEFAULT_THRESHOLDS, telemetry);
      }
      ghost var es := BatchEvents(states0, device, AssignedUsers(device), Effective(device), telemetry);
      WroteIsNotified(device, log0, notes0, states0, es);
      if NoDup(AssignedUsers(device)) {
        WroteIsAnswered(device, telemetry, log0, notes0, states0);
      }
    }
  }
}
