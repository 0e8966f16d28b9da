/** Threshold alerts. One hysteresis machine per (user, device, parameter) is specified by Fire;
    the service evaluates a whole telemetry message against a snapshot of the stored states. */
module Alerts {
  import opened Common

  /** A DTO value: missing or null, not a number (no comparison holds), or a number. */
  datatype Reading = Absent | NotANumber | Num(value: real)

  datatype State = Normal | Alerting

  datatype Kind = Triggered | Resolved

  datatype Key = Key(user: string, device: string, param: string)

  datatype Event = Event(key: Key, kind: Kind, value: real)

  datatype Notification = Exceeded(key: Key, value: real, limit: real) | BackToNormal(key: Key, value: real)

  /** A JSON record of limits, with its keys in enumeration order. */
  datatype Limits = Limits(params: seq<string>, limit: map<string, real>) {
    ghost predicate IsRecord() {
      NoDup(params) && forall p :: p in params <==> p in limit
    }
  }

  type Record = r: Limits | r.IsRecord() witness Limits([], map[])

  datatype Assignment = Assignment(device: string, user: string, active: bool)

  // ---------------------------------------------------------------- the machine of one key

  function Hysteresis(limit: real): (h: real)
    ensures h >= 1.0
  {
    if limit * 0.05 > 1.0 then limit * 0.05 else 1.0
  }

  /** What one reading makes of one stored state: at most one event. */
  function Fire(key: Key, state: State, limit: real, reading: Reading): (es: seq<Event>)
    ensures |es| <= 1 && forall i :: 0 <= i < |es| ==> es[i].key == key
  {
    match reading
    case Num(v) =>
      if state == Normal && v > limit then [Event(key, Triggered, v)]
      else if state == Alerting && v < limit - Hysteresis(limit) then [Event(key, Resolved, v)]
      else []
    case _ => []
  }

  /** The state that events of one key leave behind. */
  function Leaves(state: State, es: seq<Event>): State {
    if es == [] then state else if es[|es| - 1].kind == Triggered then Alerting else Normal
  }

  function RunKey(key: Key, state: State, limit: real, readings: seq<Reading>): (es: seq<Event>)
    decreases |readings|
  {
    if readings == [] then []
    else
      var es := Fire(key, state, limit, readings[0]);
      es + RunKey(key, Leaves(state, es), limit, readings[1..])
  }

  function Numbers(readings: seq<Reading>): seq<real> {
    if readings == [] then []
    else (if readings[0].Num? then [readings[0].value] else []) + Numbers(readings[1..])
  }

  function Abs(x: real): real {
    if x < 0.0 then -x else x
  }

  function Variation(xs: seq<real>): (v: real)
    ensures v >= 0.0
  {
    if |xs| <= 1 then 0.0 else Abs(xs[1] - xs[0]) + Variation(xs[1..])
  }

  lemma SkipAnchor(anchor: real, xs: seq<real>)
    requires xs != []
    ensures Variation([anchor] + xs) == Abs(xs[0] - anchor) + Variation(xs)
    ensures |xs| > 1 ==> Variation([anchor] + xs[1..]) <= Variation([anchor] + xs)
  {
    assert ([anchor] + xs)[1..] == xs;
    assert |xs| > 1 ==> ([anchor] + xs[1..])[1..] == xs[1..];
  }

  lemma VariationOfTail(x: real, xs: seq<real>)
    ensures Variation(xs) <= Variation([x] + xs)
  {
    if xs != [] {
      SkipAnchor(x, xs);
    }
  }

  lemma NumbersStep(readings: seq<Reading>)
    requires readings != []
    ensures Variation(Numbers(readings[1..])) <= Variation(Numbers(readings))
    ensures readings[0].Num? ==> Numbers(readings) == [readings[0].value] + Numbers(readings[1..])
    ensures !readings[0].Num? ==> Numbers(readings) == Numbers(readings[1..])
  {
    if readings[0].Num? {
      VariationOfTail(readings[0].value, Numbers(readings[1..]));
    } else {
      assert Numbers(readings) == [] + Numbers(readings[1..]) == Numbers(readings[1..]);
    }
  }

  /** k times h, by repeated addition. */
  function Cost(k: nat, h: real): real {
    if k == 0 then 0.0 else h + Cost(k - 1, h)
  }

  lemma {:induction false} CostIsProduct(k: nat, h: real)
    ensures Cost(k, h) == k as real * h
  {
    if k == 0 {
    } else {
      CostIsProduct(k - 1, h);
    }
  }

  /** After an event at anchor every further event costs more than h of variation. */
  lemma {:induction false} FurtherEventsCost(key: Key, state: State, limit: real, readings: seq<Reading>, anchor: real)
    requires if state == Alerting then anchor > limit else anchor < limit - Hysteresis(limit)
    ensures var es, cost := RunKey(key, state, limit, readings), Variation([anchor] + Numbers(readings));
            if es == [] then 0.0 <= cost else Cost(|es|, Hysteresis(limit)) < cost
    decreases |readings|
  {
    if readings == [] {
    } else {
      var es, rest := Fire(key, state, limit, readings[0]), Numbers(readings[1..]);
      if readings[0].Num? {
        var v := readings[0].value;
        SkipAnchor(anchor, [v] + rest);
        assert ([v] + rest)[1..] == rest;
        FurtherEventsCost(key, Leaves(state, es), limit, readings[1..], if es == [] then anchor else v);
      } else {
        assert [] + rest == rest;
        FurtherEventsCost(key, state, limit, readings[1..], anchor);
      }
    }
  }

  /** Anti-flapping: k events of one key at a fixed limit need more than (k - 1) * h of total
      variation, from the second event on. */
  lemma {:induction false} FlapCost(key: Key, state: State, limit: real, readings: seq<Reading>)
    ensures var es, variation := RunKey(key, state, limit, readings), Variation(Numbers(readings));
            |es| >= 2 ==> Cost(|es| - 1, Hysteresis(limit)) < variation
    decreases |readings|
  {
    if readings == [] {
    } else {
      var es := Fire(key, state, limit, readings[0]);
      NumbersStep(readings);
      if es == [] {
        FlapCost(key, state, limit, readings[1..]);
        assert RunKey(key, state, limit, readings) == RunKey(key, state, limit, readings[1..]);
      } else {
        FurtherEventsCost(key, Leaves(state, es), limit, readings[1..], readings[0].value);
      }
    }
  }

  lemma DivideBound(k: real, v: real, h: real)
    requires h > 0.0 && k * h <= v
    ensures k <= v / h
  {
  }

  lemma CostBound(k: nat, v: real, h: real)
    requires h >= 1.0 && v >= 0.0 && (k >= 2 ==> Cost(k - 1, h) < v)
    ensures k >= 2 ==> (k - 1) as real * h < v
    ensures k as real <= 1.0 + v / h
  {
    if k >= 2 {
      CostIsProduct(k - 1, h);
      DivideBound((k - 1) as real, v, h);
    } else {
      DivideBound(0.0, v, h);
    }
  }

  /** So a key never has more than 1 + variation / h events, and fewer once it has two. */
  lemma FlapBound(key: Key, state: State, limit: real, readings: seq<Reading>)
    ensures var k, variation := |RunKey(key, state, limit, readings)|, Variation(Numbers(readings));
            (k >= 2 ==> (k - 1) as real * Hysteresis(limit) < variation) &&
            k as real <= 1.0 + variation / Hysteresis(limit)
  {
    var k, variation, h := |RunKey(key, state, limit, readings)|, Variation(Numbers(readings)), Hysteresis(limit);
    assert k >= 2 ==> Cost(k - 1, h) < variation by { FlapCost(key, state, limit, readings); }
    CostBound(k, variation, h);
  }

  // ---------------------------------------------------------------- one message, all users and parameters

  function StateOf(states: map<Key, State>, key: Key): State {
    if key in states then states[key] else Normal
  }

  function ReadingOf(telemetry: map<string, Reading>, param: string): Reading {
    if param in telemetry then telemetry[param] else Absent
  }

  function UserEvents(states: map<Key, State>, device: string, user: string, params: seq<string>,
                      limit: map<string, real>, telemetry: map<string, Reading>): seq<Event>
    requires forall i :: 0 <= i < |params| ==> params[i] in limit
  {
    if params == [] then []
    else
      var p := params[|params| - 1];
      var key := Key(user, device, p);
      UserEvents(states, device, user, params[..|params| - 1], limit, telemetry) +
      Fire(key, StateOf(states, key), limit[p], ReadingOf(telemetry, p))
  }

  /** The events of one message, in writing order; every key is judged on the states before it. */
  function BatchEvents(states: map<Key, State>, device: string, users: seq<string>,
                       record: Record, telemetry: map<string, Reading>): seq<Event>
  {
    if users == [] then []
    else
      BatchEvents(states, device, users[..|users| - 1], record, telemetry) +
      UserEvents(states, device, users[|users| - 1], record.params, record.limit, telemetry)
  }

  function Upsert(states: map<Key, State>, es: seq<Event>): map<Key, State> {
    if es == [] then states
    else
      var e := es[|es| - 1];
      Upsert(states, es[..|es| - 1])[e.key := if e.kind == Triggered then Alerting else Normal]
  }

  function NotificationOf(e: Event, limit: map<string, real>): Notification {
    if e.kind == Triggered && e.key.param in limit then Exceeded(e.key, e.value, limit[e.key.param])
    else BackToNormal(e.key, e.value)
  }

  function NotificationsOf(es: seq<Event>, limit: map<string, real>): (ns: seq<Notification>)
    ensures |ns| == |es|
  {
    seq(|es|, i requires 0 <= i < |es| => NotificationOf(es[i], limit))
  }

  function ByKey(key: Key): Event -> bool {
    (e: Event) => e.key == key
  }

  function Occurrences(users: seq<string>, user: string): nat {
    if users == [] then 0
    else Occurrences(users[..|users| - 1], user) + if users[|users| - 1] == user then 1 else 0
  }

  function Times(es: seq<Event>, n: nat): seq<Event> {
    if n == 0 then [] else Times(es, n - 1) + es
  }

  /** What the machine of one key does with the message. */
  function KeyEvents(states: map<Key, State>, device: string, key: Key,
                     record: Record, telemetry: map<string, Reading>): (es: seq<Event>)
    ensures |es| <= 1 && forall i :: 0 <= i < |es| ==> es[i].key == key
  {
    if key.device == device && key.param in record.limit
    then Fire(key, StateOf(states, key), record.limit[key.param], ReadingOf(telemetry, key.param))
    else []
  }

  lemma FilterFire(es: seq<Event>, fired: Key, key: Key)
    requires |es| <= 1 && forall i :: 0 <= i < |es| ==> es[i].key == fired
    ensures Filter(ByKey(key), es) == if fired == key then es else []
  {
    if es != [] {
      FilterOne(ByKey(key), es[0]);
      assert es == [es[0]];
    }
  }

  lemma {:induction false} UserProjects(states: map<Key, State>, device: string, user: string, params: seq<string>,
                                        limit: map<string, real>, telemetry: map<string, Reading>, key: Key)
    requires NoDup(params) && forall i :: 0 <= i < |params| ==> params[i] in limit
    ensures Filter(ByKey(key), UserEvents(states, device, user, params, limit, telemetry)) ==
            if key.user == user && key.device == device && key.param in params
            then Fire(key, StateOf(states, key), limit[key.param], ReadingOf(telemetry, key.param)) else []
  {
    if params == [] {
    } else {
      var most, p := params[..|params| - 1], params[|params| - 1];
      var fired := Key(user, device, p);
      var es := Fire(fired, StateOf(states, fired), limit[p], ReadingOf(telemetry, p));
      UserProjects(states, device, user, most, limit, telemetry, key);
      FilterConcat(ByKey(key), UserEvents(states, device, user, most, limit, telemetry), es);
      FilterFire(es, fired, key);
    }
  }

  lemma UserProjectsKey(states: map<Key, State>, device: string, user: string,
                        record: Record, telemetry: map<string, Reading>, key: Key)
    ensures Filter(ByKey(key), UserEvents(states, device, user, record.params, record.limit, telemetry)) ==
            if key.user == user then KeyEvents(states, device, key, record, telemetry) else []
  {
    UserProjects(states, device, user, record.params, record.limit, telemetry, key);
  }

  lemma ProjectStep(a: seq<Event>, b: seq<Event>, key: Key, es: seq<Event>, n: nat, again: bool)
    requires Filter(ByKey(key), a) == Times(es, n)
    requires Filter(ByKey(key), b) == if again then es else []
    ensures Filter(ByKey(key), a + b) == Times(es, if again then n + 1 else n)
  {
    FilterConcat(ByKey(key), a, b);
  }

  /** The events that a message writes for one key are those of its machine, once per occurrence
      of the user among the assignments. */
  lemma {:induction false} BatchProjects(states: map<Key, State>, device: string, users: seq<string>,
                                         record: Record, telemetry: map<string, Reading>, key: Key)
    ensures Filter(ByKey(key), BatchEvents(states, device, users, record, telemetry)) ==
            Times(KeyEvents(states, device, key, record, telemetry), Occurrences(users, key.user))
  {
    if users == [] {
    } else {
      var most, user := users[..|users| - 1], users[|users| - 1];
      var a := BatchEvents(states, device, most, record, telemetry);
      var b := UserEvents(states, device, user, record.params, record.limit, telemetry);
      BatchProjects(states, device, most, record, telemetry, key);
      UserProjectsKey(states, device, user, record, telemetry, key);
      ProjectStep(a, b, key, KeyEvents(states, device, key, record, telemetry),
                  Occurrences(most, key.user), key.user == user);
    }
  }

  lemma {:induction false} UpsertLeaves(states: map<Key, State>, es: seq<Event>, key: Key)
    ensures StateOf(Upsert(states, es), key) == Leaves(StateOf(states, key), Filter(ByKey(key), es))
  {
    if es == [] {
    } else {
      UpsertLeaves(states, es[..|es| - 1], key);
    }
  }

  lemma {:induction false} TimesLast(es: seq<Event>, n: nat)
    requires |es| <= 1
    ensures |Times(es, n)| == n * |es|
    ensures n > 0 && es != [] ==> Times(es, n)[|Times(es, n)| - 1] == es[0]
  {
    if n == 0 {
    } else {
      TimesLast(es, n - 1);
    }
  }

  lemma {:induction false} OccurrencesPositive(users: seq<string>, user: string)
    ensures Occurrences(users, user) > 0 <==> user in users
    ensures NoDup(users) ==> Occurrences(users, user) <= 1
  {
    if users == [] {
    } else {
      var most := users[..|users| - 1];
      OccurrencesPositive(most, user);
      assert users == most + [users[|users| - 1]];
    }
  }

  /** Batch evaluation refines the machines: every assigned user's key ends in the state of its
      own machine and every other key keeps its state. */
  lemma BatchRefines(states: map<Key, State>, device: string, users: seq<string>,
                     record: Record, telemetry: map<string, Reading>, key: Key)
    ensures var es := KeyEvents(states, device, key, record, telemetry);
            var after := Upsert(states, BatchEvents(states, device, users, record, telemetry));
            StateOf(after, key) == if key.user in users then Leaves(StateOf(states, key), es) else StateOf(states, key)
    ensures NoDup(users) ==>
              Filter(ByKey(key), BatchEvents(states, device, users, record, telemetry)) ==
              if key.user in users then KeyEvents(states, device, key, record, telemetry) else []
  {
    var es, n := KeyEvents(states, device, key, record, telemetry), Occurrences(users, key.user);
    BatchProjects(states, device, users, record, telemetry, key);
    UpsertLeaves(states, BatchEvents(states, device, users, record, telemetry), key);
    OccurrencesPositive(users, key.user);
    TimesLast(es, n);
    assert n == 1 ==> Times(es, 1) == Times(es, 0) + es == es;
  }

  lemma FireTwice(key: Key, state: State, limit: real, reading: Reading)
    ensures Fire(key, Leaves(state, Fire(key, state, limit, reading)), limit, reading) == []
  {
  }

  lemma {:induction false} SilentUser(states: map<Key, State>, device: string, user: string, params: seq<string>,
                                      limit: map<string, real>, telemetry: map<string, Reading>)
    requires forall i :: 0 <= i < |params| ==> params[i] in limit
    requires forall p :: p in params ==>
               Fire(Key(user, device, p), StateOf(states, Key(user, device, p)), limit[p], ReadingOf(telemetry, p)) == []
    ensures UserEvents(states, device, user, params, limit, telemetry) == []
  {
    if params == [] {
    } else {
      SilentUser(states, device, user, params[..|params| - 1], limit, telemetry);
    }
  }

  lemma {:induction false} SilentBatch(states: map<Key, State>, device: string, users: seq<string>,
                                       record: Record, telemetry: map<string, Reading>)
    requires forall u, p :: u in users && p in record.limit ==>
               KeyEvents(states, device, Key(u, device, p), record, telemetry) == []
    ensures BatchEvents(states, device, users, record, telemetry) == []
  {
    if users == [] {
    } else {
      var user := users[|users| - 1];
      SilentBatch(states, device, users[..|users| - 1], record, telemetry);
      forall p | p in record.params
        ensures Fire(Key(user, device, p), StateOf(states, Key(user, device, p)), record.limit[p],
                     ReadingOf(telemetry, p)) == []
      {
        assert KeyEvents(states, device, Key(user, device, p), record, telemetry) == [];
      }
      SilentUser(states, device, user, record.params, record.limit, telemetry);
    }
  }

  /** Evaluating the same message again writes nothing. */
  lemma SecondEvaluationSilent(states: map<Key, State>, device: string, users: seq<string>,
                               record: Record, telemetry: map<string, Reading>)
    ensures BatchEvents(Upsert(states, BatchEvents(states, device, users, record, telemetry)),
                        device, users, record, telemetry) == []
  {
    var after := Upsert(states, BatchEvents(states, device, users, record, telemetry));
    forall u, p | u in users && p in record.limit
      ensures KeyEvents(after, device, Key(u, device, p), record, telemetry) == []
    {
      var key := Key(u, device, p);
      BatchRefines(states, device, users, record, telemetry, key);
      FireTwice(key, StateOf(states, key), record.limit[p], ReadingOf(telemetry, p));
    }
    SilentBatch(after, device, users, record, telemetry);
  }

  // ---------------------------------------------------------------- the log over whole runs

  ghost predicate Alternates(es: seq<Event>) {
    forall i :: 0 <= i < |es| ==> es[i].kind == if i % 2 == 0 then Triggered else Resolved
  }

  /** One machine step keeps one key's log alternating and in agreement. */
  lemma StepAgrees(es: seq<Event>, key: Key, limit: real, reading: Reading)
    requires Alternates(es)
    ensures var fired := Fire(key, Leaves(Normal, es), limit, reading);
            Alternates(es + fired) && Leaves(Normal, es + fired) == Leaves(Leaves(Normal, es), fired)
  {
  }

  ghost predicate KeyAgrees(states: map<Key, State>, log: seq<Event>, key: Key) {
    var es := Filter(ByKey(key), log);
    Alternates(es) && StateOf(states, key) == Leaves(Normal, es)
  }

  /** Per key the log alternates, starting with a trigger, and the stored state is the last event. */
  ghost predicate LogAgrees(states: map<Key, State>, log: seq<Event>) {
    forall key :: KeyAgrees(states, log, key)
  }

  ghost predicate KeepsAgreement(device: string, users: seq<string>, states: map<Key, State>, log: seq<Event>,
                                 record: Record, telemetry: map<string, Reading>)
  {
    var es := BatchEvents(states, device, users, record, telemetry);
    LogAgrees(states, log) ==> LogAgrees(Upsert(states, es), log + es)
  }

  lemma KeyKeepsAgreement(device: string, users: seq<string>, states: map<Key, State>, log: seq<Event>,
                          record: Record, telemetry: map<string, Reading>, key: Key)
    requires NoDup(users) && KeyAgrees(states, log, key)
    ensures var es := BatchEvents(states, device, users, record, telemetry);
            KeyAgrees(Upsert(states, es), log + es, key)
  {
    var before, es := Filter(ByKey(key), log), BatchEvents(states, device, users, record, telemetry);
    FilterConcat(ByKey(key), log, es);
    BatchRefines(states, device, users, record, telemetry, key);
    if key.user in users && key.device == device && key.param in record.limit {
      StepAgrees(before, key, record.limit[key.param], ReadingOf(telemetry, key.param));
    } else {
      assert before + [] == before;
    }
  }

  lemma DistinctUsersKeepAgreement(device: string, users: seq<string>, states: map<Key, State>, log: seq<Event>,
                                   record: Record, telemetry: map<string, Reading>)
    requires NoDup(users)
    ensures KeepsAgreement(device, users, states, log, record, telemetry)
  {
    var es := BatchEvents(states, device, users, record, telemetry);
    if LogAgrees(states, log) {
      forall key ensures KeyAgrees(Upsert(states, es), log + es, key) {
        assert KeyAgrees(states, log, key);
        KeyKeepsAgreement(device, users, states, log, record, telemetry, key);
      }
    }
  }

  lemma {:induction false} RepeatedUserOccursTwice(users: seq<string>, i: nat, j: nat)
    requires i < j < |users| && users[i] == users[j]
    ensures Occurrences(users, users[i]) >= 2
  {
    var most := users[..|users| - 1];
    if j < |users| - 1 {
      RepeatedUserOccursTwice(most, i, j);
    } else {
      assert most[i] in most;
      OccurrencesPositive(most, users[i]);
    }
  }

  const CO2_LIMIT: Record := Limits(["co2"], map["co2" := 1000.0])

  const CO2_READING: map<string, Reading> := map["co2" := Num(1200.0)]

  lemma TwiceIsNotAlternating(e: Event, n: nat)
    requires n >= 2
    ensures !Alternates(Times([e], n))
  {
    TimesLast([e], n - 2);
    TimesLast([e], n - 1);
    var es := Times([e], n);
    assert es == (Times([e], n - 2) + [e]) + [e];
    assert es[n - 1] == es[n - 2] == e;
  }

  /** A user listed twice is alerted twice by the first reading over a limit. */
  lemma RepeatedUserBreaksAgreement(device: string, users: seq<string>, i: nat, j: nat)
    requires i < j < |users| && users[i] == users[j]
    ensures !KeepsAgreement(device, users, map[], [], CO2_LIMIT, CO2_READING)
  {
    var key := Key(users[i], device, "co2");
    var es := BatchEvents(map[], device, users, CO2_LIMIT, CO2_READING);
    RepeatedUserOccursTwice(users, i, j);
    BatchProjects(map[], device, users, CO2_LIMIT, CO2_READING, key);
    var e := Event(key, Triggered, 1200.0);
    assert KeyEvents(map[], device, key, CO2_LIMIT, CO2_READING) == [e];
    TwiceIsNotAlternating(e, Occurrences(users, users[i]));
    assert [] + es == es;
    assert !KeyAgrees(Upsert(map[], es), es, key);
    assert forall k :: KeyAgrees(map[], [], k);
  }

  /** A message keeps the log alternating and in agreement with the stored states, whatever the
      limits and readings, if and only if no user is assigned twice. */
  lemma AgreementIffDistinctUsers(device: string, users: seq<string>)
    ensures NoDup(users) <==>
            forall states, log, record, telemetry :: KeepsAgreement(device, users, states, log, record, telemetry)
  {
    if NoDup(users) {
      forall states, log, record, telemetry ensures KeepsAgreement(device, users, states, log, record, telemetry) {
        DistinctUsersKeepAgreement(device, users, states, log, record, telemetry);
      }
    } else {
      var i, j :| 0 <= i < j < |users| && users[i] == users[j];
      RepeatedUserBreaksAgreement(device, users, i, j);
    }
  }

  /** The log after a run of messages for one device under fixed limits. */
  function RunEvents(states: map<Key, State>, device: string, users: seq<string>,
                     record: Record, messages: seq<map<string, Reading>>): seq<Event>
    decreases |messages|
  {
    if messages == [] then []
    else
      var es := BatchEvents(states, device, users, record, messages[0]);
      es + RunEvents(Upsert(states, es), device, users, record, messages[1..])
  }

  function ReadingsOf(messages: seq<map<string, Reading>>, param: string): seq<Reading> {
    if messages == [] then [] else [ReadingOf(messages[0], param)] + ReadingsOf(messages[1..], param)
  }

  lemma AssignedKeyStep(states: map<Key, State>, device: string, users: seq<string>,
                        record: Record, telemetry: map<string, Reading>, key: Key)
    requires NoDup(users) && key.user in users && key.device == device && key.param in record.limit
    ensures var es := BatchEvents(states, device, users, record, telemetry);
            var fired := Fire(key, StateOf(states, key), record.limit[key.param], ReadingOf(telemetry, key.param));
            Filter(ByKey(key), es) == fired && StateOf(Upsert(states, es), key) == Leaves(StateOf(states, key), fired)
  {
    BatchRefines(states, device, users, record, telemetry, key);
  }

  /** Over a whole run the database log of a key is the run of its machine. */
  lemma {:induction false} RunRefines(states: map<Key, State>, device: string, users: seq<string>,
                                      record: Record, messages: seq<map<string, Reading>>, user: string, param: string)
    requires NoDup(users) && user in users && param in record.limit
    ensures var key := Key(user, device, param);
            Filter(ByKey(key), RunEvents(states, device, users, record, messages)) ==
            RunKey(key, StateOf(states, key), record.limit[param], ReadingsOf(messages, param))
    decreases |messages|
  {
    var key, limit, readings := Key(user, device, param), record.limit[param], ReadingsOf(messages, param);
    if messages == [] {
    } else {
      var es := BatchEvents(states, device, users, record, messages[0]);
      var after := Upsert(states, es);
      var rest := RunEvents(after, device, users, record, messages[1..]);
      RunRefines(after, device, users, record, messages[1..], user, param);
      AssignedKeyStep(states, device, users, record, messages[0], key);
      assert readings[1..] == ReadingsOf(messages[1..], param);
      RunStep(es, rest, key, StateOf(states, key), limit, readings);
    }
  }

  lemma RunStep(es: seq<Event>, rest: seq<Event>, key: Key, state: State, limit: real, readings: seq<Reading>)
    requires readings != []
    requires Filter(ByKey(key), es) == Fire(key, state, limit, readings[0])
    requires Filter(ByKey(key), rest) ==
             RunKey(key, Leaves(state, Fire(key, state, limit, readings[0])), limit, readings[1..])
    ensures Filter(ByKey(key), es + rest) == RunKey(key, state, limit, readings)
  {
    FilterConcat(ByKey(key), es, rest);
  }

  /** The anti-flapping bound holds of the rows in the event log. */
  lemma LoggedAlertsBound(states: map<Key, State>, device: string, users: seq<string>,
                          record: Record, messages: seq<map<string, Reading>>, user: string, param: string)
    requires NoDup(users) && user in users && param in record.limit
    ensures var logged := Filter(ByKey(Key(user, device, param)), RunEvents(states, device, users, record, messages));
            |logged| as real <=
            1.0 + Variation(Numbers(ReadingsOf(messages, param))) / Hysteresis(record.limit[param])
  {
    var key, limit := Key(user, device, param), record.limit[param];
    var readings := ReadingsOf(messages, param);
    RunRefines(states, device, users, record, messages, user, param);
    FlapBound(key, StateOf(states, key), limit, readings);
  }
}
