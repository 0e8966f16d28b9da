/** Overlapping alert evaluations: each reads limits, users and states, and then writes its events one by
    one, of each the row of the log first and the state later. Other messages may read and write in
    between. */
module AlertRaces {
  import opened Common
  import opened Alerts

  /** An evaluation past its reads: the states it judges by, and the events it has yet to write. Of the
      first one the log row may have been written, and the state not yet. */
  datatype Evaluation = Evaluation(seen: map<Key, State>, rest: seq<Event>, logged: bool)

  datatype Tables = Tables(states: map<Key, State>, log: seq<Event>, pending: seq<Evaluation>)

  function StateAfter(e: Event): State {
    if e.kind == Triggered then Alerting else Normal
  }

  /** The state that the log leaves a key in. */
  function LogState(log: seq<Event>, key: Key): State {
    Leaves(Normal, Filter(ByKey(key), log))
  }

  /** The evaluation has logged an event of the key, and not yet stored its state. */
  predicate Half(t: Tables, k: nat, key: Key) {
    k < |t.pending| && t.pending[k].logged && t.pending[k].rest != [] && t.pending[k].rest[0].key == key
  }

  ghost predicate KeySound(t: Tables, key: Key) {
    Alternates(Filter(ByKey(key), t.log)) &&
    (StateOf(t.states, key) == LogState(t.log, key) || exists k :: Half(t, k, key))
  }

  /** Every key's log alternates, and its stored state is the last event, or will be written yet. */
  ghost predicate Sound(t: Tables) {
    forall key :: KeySound(t, key)
  }

  /** Every event that has been logged has been stored. */
  ghost predicate Settled(t: Tables) {
    forall k, key :: !Half(t, k, key)
  }

  lemma SettledAgrees(t: Tables)
    requires Sound(t) && Settled(t)
    ensures LogAgrees(t.states, t.log)
  {
    forall key ensures KeyAgrees(t.states, t.log, key) {
      assert KeySound(t, key);
    }
  }

  // ---------------------------------------------------------------- runs

  datatype Step =
    | Begin(device: string, users: seq<string>, record: Record, telemetry: map<string, Reading>)
    | LogNext(k: nat)
    | StoreNext(k: nat)

  predicate Enabled(t: Tables, step: Step) {
    step.Begin? || (step.k < |t.pending| && t.pending[step.k].rest != [] && t.pending[step.k].logged == step.StoreNext?)
  }

  function StepTo(t: Tables, step: Step): Tables
    requires Enabled(t, step)
  {
    match step
    case Begin(device, users, record, telemetry) =>
      var es := BatchEvents(t.states, device, users, record, telemetry);
      t.(pending := t.pending + [Evaluation(t.states, es, false)])
    case LogNext(k) =>
      var p := t.pending[k];
      t.(log := t.log + [p.rest[0]], pending := t.pending[k := p.(logged := true)])
    case StoreNext(k) =>
      var p := t.pending[k];
      t.(states := t.states[p.rest[0].key := StateAfter(p.rest[0])],
         pending := t.pending[k := p.(rest := p.rest[1..], logged := false)])
  }

  ghost predicate Runs(t: Tables, steps: seq<Step>)
    decreases |steps|
  {
    steps == [] || (Enabled(t, steps[0]) && Runs(StepTo(t, steps[0]), steps[1..]))
  }

  ghost function RunTo(t: Tables, steps: seq<Step>): Tables
    requires Runs(t, steps)
    decreases |steps|
  {
    if steps == [] then t else RunTo(StepTo(t, steps[0]), steps[1..])
  }

  // ---------------------------------------------------------------- one event

  /** A trigger is judged on a normal state, a resolution on an alerting one. */
  predicate JudgedBy(states: map<Key, State>, e: Event) {
    e.kind == Triggered <==> StateOf(states, e.key) == Normal
  }

  lemma {:induction false} UserEventsJudged(states: map<Key, State>, device: string, user: string, params: seq<string>,
                                            limit: map<string, real>, telemetry: map<string, Reading>)
    requires forall i :: 0 <= i < |params| ==> params[i] in limit
    ensures forall e <- UserEvents(states, device, user, params, limit, telemetry) :: JudgedBy(states, e)
  {
    if params == [] {
    } else {
      UserEventsJudged(states, device, user, params[..|params| - 1], limit, telemetry);
    }
  }

  lemma {:induction false} BatchEventsJudged(states: map<Key, State>, device: string, users: seq<string>,
                                             record: Record, telemetry: map<string, Reading>)
    ensures forall e <- BatchEvents(states, device, users, record, telemetry) :: JudgedBy(states, e)
  {
    if users == [] {
    } else {
      BatchEventsJudged(states, device, users[..|users| - 1], record, telemetry);
      UserEventsJudged(states, device, users[|users| - 1], record.params, record.limit, telemetry);
    }
  }

  /** The events that are pending were judged by the states their evaluation has seen. */
  ghost predicate AllJudged(t: Tables) {
    forall k :: 0 <= k < |t.pending| ==> forall e <- t.pending[k].rest :: JudgedBy(t.pending[k].seen, e)
  }

  lemma StepKeepsJudged(t: Tables, step: Step)
    requires AllJudged(t) && Enabled(t, step)
    ensures AllJudged(StepTo(t, step))
  {
    if step.Begin? {
      BatchEventsJudged(t.states, step.device, step.users, step.record, step.telemetry);
    }
  }

  /** The step logs an event that was judged by another state than the key's log has been left in. */
  predicate Stale(t: Tables, step: Step) {
    step.LogNext? && step.k < |t.pending| && t.pending[step.k].rest != [] &&
    var p := t.pending[step.k];
    StateOf(p.seen, p.rest[0].key) != LogState(t.log, p.rest[0].key)
  }

  /** The step stores the state of an event when a later event of the key has been logged and stored. */
  ghost predicate OutOfOrder(t: Tables, step: Step) {
    step.StoreNext? && step.k < |t.pending| && t.pending[step.k].rest != [] &&
    var e := t.pending[step.k].rest[0];
    StateAfter(e) != LogState(t.log, e.key) && forall k :: k != step.k ==> !Half(t, k, e.key)
  }

  ghost predicate Broken(log: seq<Event>, key: Key) {
    !Alternates(Filter(ByKey(key), log))
  }

  lemma EventContinuesIff(es: seq<Event>, e: Event)
    requires Alternates(es)
    ensures Alternates(es + [e]) <==> (e.kind == Triggered <==> Leaves(Normal, es) == Normal)
  {
    assert (es + [e])[|es|] == e;
    assert es != [] ==> es[|es| - 1] == (es + [e])[|es| - 1];
  }

  lemma LogOnKey(t: Tables, k: nat, key: Key)
    requires Enabled(t, LogNext(k)) && JudgedBy(t.pending[k].seen, t.pending[k].rest[0]) && KeySound(t, key)
    ensures var stale := key == t.pending[k].rest[0].key && Stale(t, LogNext(k));
            (KeySound(StepTo(t, LogNext(k)), key) <==> !stale) && (stale ==> Broken(StepTo(t, LogNext(k)).log, key))
  {
    var t', e, before := StepTo(t, LogNext(k)), t.pending[k].rest[0], Filter(ByKey(key), t.log);
    FilterSnoc(ByKey(key), t.log, e);
    if e.key == key {
      EventContinuesIff(before, e);
      assert Half(t', k, key);
    } else {
      assert before + [] == before;
      if j :| Half(t, j, key) {
        assert Half(t', j, key);
      }
    }
  }

  lemma StoreOnKey(t: Tables, k: nat, key: Key)
    requires Enabled(t, StoreNext(k)) && KeySound(t, key)
    ensures KeySound(StepTo(t, StoreNext(k)), key) <==>
            !(key == t.pending[k].rest[0].key && OutOfOrder(t, StoreNext(k)))
  {
    var t', e := StepTo(t, StoreNext(k)), t.pending[k].rest[0];
    assert forall j :: Half(t', j, key) <==> j != k && Half(t, j, key);
    if e.key != key {
      assert (exists j :: Half(t, j, key)) ==> exists j :: Half(t', j, key);
    }
  }

  /** Logging an event keeps the tables sound if and only if the log still leaves its key in the state that
      was read; storing one, if and only if it is the key's last event or another one is stored later. */
  lemma StepKeepsSoundIff(t: Tables, step: Step)
    requires Sound(t) && AllJudged(t) && Enabled(t, step)
    ensures Sound(StepTo(t, step)) <==> !Stale(t, step) && !OutOfOrder(t, step)
    ensures Stale(t, step) ==> Broken(StepTo(t, step).log, t.pending[step.k].rest[0].key)
  {
    var t' := StepTo(t, step);
    if step.Begin? {
      forall key ensures KeySound(t', key) {
        assert KeySound(t, key);
        if k :| Half(t, k, key) {
          assert Half(t', k, key);
        }
      }
    } else {
      var own := t.pending[step.k].rest[0].key;
      assert t.pending[step.k].rest[0] in t.pending[step.k].rest;
      forall key
        ensures KeySound(t', key) <==> !(key == own && (Stale(t, step) || OutOfOrder(t, step)))
        ensures key == own && Stale(t, step) ==> Broken(t'.log, key)
      {
        assert KeySound(t, key);
        if step.LogNext? {
          LogOnKey(t, step.k, key);
        } else {
          StoreOnKey(t, step.k, key);
        }
      }
      assert Stale(t, step) || OutOfOrder(t, step) ==> !KeySound(t', own);
    }
  }

  // ---------------------------------------------------------------- whole runs

  ghost predicate AlwaysSound(t: Tables, steps: seq<Step>)
    requires Runs(t, steps)
    decreases |steps|
  {
    Sound(t) && (steps == [] || AlwaysSound(StepTo(t, steps[0]), steps[1..]))
  }

  /** No event of the run is stale when it is logged, and none out of order when it is stored. */
  ghost predicate InOrder(t: Tables, steps: seq<Step>)
    requires Runs(t, steps)
    decreases |steps|
  {
    steps == [] ||
    (!Stale(t, steps[0]) && !OutOfOrder(t, steps[0]) && InOrder(StepTo(t, steps[0]), steps[1..]))
  }

  /** Over every interleaving of evaluations, write by write: log and states agree throughout, but for
      states still to be stored, if and only if no event is stale when it is logged and none is out of
      order when it is stored. With nothing left to store, they agree. */
  lemma {:induction false} RunKeepsAgreementIff(t: Tables, steps: seq<Step>)
    requires Sound(t) && AllJudged(t) && Runs(t, steps)
    ensures AlwaysSound(t, steps) <==> InOrder(t, steps)
    ensures InOrder(t, steps) && Settled(RunTo(t, steps)) ==> LogAgrees(RunTo(t, steps).states, RunTo(t, steps).log)
    decreases |steps|
  {
    if steps == [] {
      if Settled(t) {
        SettledAgrees(t);
      }
    } else {
      var t' := StepTo(t, steps[0]);
      StepKeepsJudged(t, steps[0]);
      StepKeepsSoundIff(t, steps[0]);
      if Sound(t') {
        RunKeepsAgreementIff(t', steps[1..]);
      }
    }
  }

  ghost predicate LogSound(log: seq<Event>) {
    forall key :: !Broken(log, key)
  }

  ghost predicate NeverStale(t: Tables, steps: seq<Step>)
    requires Runs(t, steps)
    decreases |steps|
  {
    steps == [] || (!Stale(t, steps[0]) && NeverStale(StepTo(t, steps[0]), steps[1..]))
  }

  /** Rows are only appended, so a log that does not alternate never does again. */
  lemma {:induction false} BrokenForGood(t: Tables, steps: seq<Step>, key: Key)
    requires Runs(t, steps) && Broken(t.log, key)
    ensures Broken(RunTo(t, steps).log, key)
    decreases |steps|
  {
    if steps == [] {
    } else {
      var t' := StepTo(t, steps[0]);
      if steps[0].LogNext? {
        FilterSnoc(ByKey(key), t.log, t.pending[steps[0].k].rest[0]);
        var before, after := Filter(ByKey(key), t.log), Filter(ByKey(key), t'.log);
        assert forall i :: 0 <= i < |before| ==> after[i] == before[i];
      }
      BrokenForGood(t', steps[1..], key);
    }
  }

  lemma LogKeepsOrderIff(t: Tables, step: Step)
    requires LogSound(t.log) && AllJudged(t) && Enabled(t, step)
    ensures LogSound(StepTo(t, step).log) <==> !Stale(t, step)
    ensures Stale(t, step) ==> Broken(StepTo(t, step).log, t.pending[step.k].rest[0].key)
  {
    if step.LogNext? {
      var e := t.pending[step.k].rest[0];
      assert e in t.pending[step.k].rest;
      forall key ensures Broken(t.log + [e], key) <==> key == e.key && Stale(t, step) {
        assert !Broken(t.log, key);
        FilterSnoc(ByKey(key), t.log, e);
        EventContinuesIff(Filter(ByKey(key), t.log), e);
        assert Filter(ByKey(key), t.log) + [] == Filter(ByKey(key), t.log);
      }
      assert Broken(t.log + [e], e.key) <==> Stale(t, step);
    }
  }

  /** Whatever the order of storing: in the end triggers and resolutions of every key alternate in the log,
      if and only if no event of the run was stale when it was logged. */
  lemma {:induction false} RunAlternatesIff(t: Tables, steps: seq<Step>)
    requires LogSound(t.log) && AllJudged(t) && Runs(t, steps)
    ensures LogSound(RunTo(t, steps).log) <==> NeverStale(t, steps)
    decreases |steps|
  {
    if steps == [] {
    } else {
      var step, t' := steps[0], StepTo(t, steps[0]);
      StepKeepsJudged(t, step);
      LogKeepsOrderIff(t, step);
      if Stale(t, step) {
        BrokenForGood(t', steps[1..], t.pending[step.k].rest[0].key);
      } else {
        RunAlternatesIff(t', steps[1..]);
      }
    }
  }

  lemma OneMore(t: Tables, step: Step, rest: seq<Step>)
    requires Enabled(t, step) && Runs(StepTo(t, step), rest)
    ensures Runs(t, [step] + rest) && RunTo(t, [step] + rest) == RunTo(StepTo(t, step), rest)
    ensures NeverStale(t, [step] + rest) <==> !Stale(t, step) && NeverStale(StepTo(t, step), rest)
  {
    assert ([step] + rest)[1..] == rest;
  }

  // ---------------------------------------------------------------- an evaluation alone

  function WriteAll(k: nat, n: nat): seq<Step> {
    if n == 0 then [] else [LogNext(k)] + ([StoreNext(k)] + WriteAll(k, n - 1))
  }

  lemma {:induction false} UpsertFirst(states: map<Key, State>, e: Event, rest: seq<Event>)
    ensures Upsert(states, [e] + rest) == Upsert(states[e.key := StateAfter(e)], rest)
  {
    if rest == [] {
      assert [e] + rest == [e] && [e][..0] == [];
    } else {
      UpsertFirst(states, e, rest[..|rest| - 1]);
      assert ([e] + rest)[..|rest|] == [e] + rest[..|rest| - 1];
    }
  }

  lemma SetTwice<T>(s: seq<T>, k: nat, x: T, y: T)
    requires k < |s|
    ensures s[k := x][k := y] == s[k := y]
  {
  }

  lemma WriteFirst(t: Tables, k: nat, e: Event, rest: seq<Event>) returns (t': Tables)
    requires k < |t.pending| && !t.pending[k].logged && t.pending[k].rest == [e] + rest
    ensures t' == Tables(t.states[e.key := StateAfter(e)], t.log + [e], t.pending[k := t.pending[k].(rest := rest)])
    ensures Enabled(t, LogNext(k)) && Enabled(StepTo(t, LogNext(k)), StoreNext(k))
    ensures StepTo(StepTo(t, LogNext(k)), StoreNext(k)) == t'
  {
    var p := t.pending[k];
    t' := StepTo(StepTo(t, LogNext(k)), StoreNext(k));
    assert p.rest[1..] == rest;
    SetTwice(t.pending, k, p.(logged := true), p.(rest := rest));
  }

  /** With nothing in between, an evaluation writes its events as one batch. */
  lemma {:induction false} AloneIsBatch(t: Tables, k: nat)
    requires k < |t.pending| && !t.pending[k].logged
    ensures Runs(t, WriteAll(k, |t.pending[k].rest|))
    ensures RunTo(t, WriteAll(k, |t.pending[k].rest|)) ==
            Tables(Upsert(t.states, t.pending[k].rest), t.log + t.pending[k].rest,
                   t.pending[k := t.pending[k].(rest := [])])
    decreases |t.pending[k].rest|
  {
    var p := t.pending[k];
    if p.rest == [] {
      assert t.pending[k := p.(rest := [])] == t.pending && t.log + [] == t.log;
    } else {
      var e, rest := p.rest[0], p.rest[1..];
      assert [e] + rest == p.rest;
      var t' := WriteFirst(t, k, e, rest);
      AloneIsBatch(t', k);
      SetTwice(t.pending, k, p.(rest := rest), p.(rest := []));
      OneMore(StepTo(t, LogNext(k)), StoreNext(k), WriteAll(k, |rest|));
      OneMore(t, LogNext(k), [StoreNext(k)] + WriteAll(k, |rest|));
      UpsertFirst(t.states, e, rest);
      Assoc(t.log, [e], rest);
    }
  }

  // ---------------------------------------------------------------- two messages at a time

  function Alert(device: string, user: string): Event {
    Event(Key(user, device, "co2"), Triggered, 1200.0)
  }

  const LOW_READING: map<string, Reading> := map["co2" := Num(900.0)]

  function Relief(device: string, user: string): Event {
    Event(Key(user, device, "co2"), Resolved, 900.0)
  }

  lemma OneUser(states: map<Key, State>, device: string, user: string, telemetry: map<string, Reading>)
    ensures BatchEvents(states, device, [user], CO2_LIMIT, telemetry) ==
            Fire(Key(user, device, "co2"), StateOf(states, Key(user, device, "co2")), 1000.0, ReadingOf(telemetry, "co2"))
  {
    var users, none := [user], [];
    var es := Fire(Key(user, device, "co2"), StateOf(states, Key(user, device, "co2")), 1000.0, ReadingOf(telemetry, "co2"));
    assert users[..0] == none && ["co2"][..0] == [];
    assert UserEvents(states, device, user, CO2_LIMIT.params, CO2_LIMIT.limit, telemetry) == [] + es == es;
    assert BatchEvents(states, device, none, CO2_LIMIT, telemetry) == [];
    assert [] + es == es;
  }

  lemma LogOne(t: Tables, k: nat, seen: map<Key, State>, e: Event)
    requires k < |t.pending| && t.pending[k] == Evaluation(seen, [e], false)
    ensures StepTo(t, LogNext(k)) == Tables(t.states, t.log + [e], t.pending[k := Evaluation(seen, [e], true)])
  {
  }

  lemma StoreOne(t: Tables, k: nat, seen: map<Key, State>, e: Event, states: map<Key, State>)
    requires k < |t.pending| && t.pending[k] == Evaluation(seen, [e], true) && t.states[e.key := StateAfter(e)] == states
    ensures StepTo(t, StoreNext(k)) == Tables(states, t.log, t.pending[k := Evaluation(seen, [], false)])
  {
    assert [e][1..] == [];
  }

  /** The second message reads when the first one's row is in the log and its state is not stored yet. */
  function Overlapping(device: string, user: string): seq<Step> {
    var begin := Begin(device, [user], CO2_LIMIT, CO2_READING);
    [begin] + ([LogNext(0)] + ([begin] + ([StoreNext(0)] + ([LogNext(1)] + ([StoreNext(1)] + [])))))
  }

  lemma OverlappingWrites(device: string, user: string) returns (end: Tables)
    ensures var alert := Alert(device, user);
            var e0, e1 := Evaluation(map[], [alert], true), Evaluation(map[], [alert], false);
            var t, steps := Tables(map[], [alert], [e0, e1]), [StoreNext(0)] + ([LogNext(1)] + ([StoreNext(1)] + []));
            Runs(t, steps) && RunTo(t, steps) == end
    ensures end.log == [Alert(device, user), Alert(device, user)]
  {
    var alert := Alert(device, user);
    var e0, e1, done := Evaluation(map[], [alert], true), Evaluation(map[], [alert], false), Evaluation(map[], [], false);
    var alerting := map[alert.key := Alerting];
    var t3 := Tables(map[], [alert], [e0, e1]);
    var t4 := Tables(alerting, [alert], [done, e1]);
    var t5 := Tables(alerting, [alert, alert], [done, e0]);
    end := Tables(alerting, [alert, alert], [done, done]);
    StoreOne(t3, 0, map[], alert, alerting);
    LogOne(t4, 1, map[], alert);
    StoreOne(t5, 1, map[], alert, alerting);
    assert t3.pending[0 := done] == t4.pending && t4.pending[1 := e0] == t5.pending && t5.pending[1 := done] == end.pending;
    assert t4.log + [alert] == t5.log;
    OneMore(t5, StoreNext(1), []);
    OneMore(t4, LogNext(1), [StoreNext(1)] + []);
    OneMore(t3, StoreNext(0), [LogNext(1)] + ([StoreNext(1)] + []));
  }

  lemma ReadsBetween(device: string, user: string)
    ensures var alert := Alert(device, user);
            var begin := Begin(device, [user], CO2_LIMIT, CO2_READING);
            var e0, e1 := Evaluation(map[], [alert], true), Evaluation(map[], [alert], false);
            StepTo(Tables(map[], [], []), begin) == Tables(map[], [], [e1]) &&
            StepTo(Tables(map[], [], [e1]), LogNext(0)) == Tables(map[], [alert], [e0]) &&
            StepTo(Tables(map[], [alert], [e0]), begin) == Tables(map[], [alert], [e0, e1])
  {
    OneUser(map[], device, user, CO2_READING);
    LogOne(Tables(map[], [], [Evaluation(map[], [Alert(device, user)], false)]), 0, map[], Alert(device, user));
  }

  /** The two messages alert twice for one excess, and the log no longer alternates. */
  lemma OverlappingMessagesAlertTwice(device: string, user: string) returns (end: Tables)
    ensures Sound(Tables(map[], [], [])) && Runs(Tables(map[], [], []), Overlapping(device, user))
    ensures RunTo(Tables(map[], [], []), Overlapping(device, user)) == end
    ensures end.log == [Alert(device, user), Alert(device, user)] && !LogSound(end.log)
  {
    var alert := Alert(device, user);
    var begin := Begin(device, [user], CO2_LIMIT, CO2_READING);
    var e0, e1 := Evaluation(map[], [alert], true), Evaluation(map[], [alert], false);
    var t0, t1, t2 := Tables(map[], [], []), Tables(map[], [], [e1]), Tables(map[], [alert], [e0]);
    ReadsBetween(device, user);
    end := OverlappingWrites(device, user);
    var rest := [StoreNext(0)] + ([LogNext(1)] + ([StoreNext(1)] + []));
    OneMore(t2, begin, rest);
    OneMore(t1, LogNext(0), [begin] + rest);
    OneMore(t0, begin, [LogNext(0)] + ([begin] + rest));
    TwiceDisagrees(end.log, alert);
    assert forall key :: KeySound(t0, key);
  }

  lemma TwiceDisagrees(log: seq<Event>, e: Event)
    requires log == [e, e]
    ensures !LogSound(log)
  {
    FilterConcat(ByKey(e.key), [e], [e]);
    FilterOne(ByKey(e.key), e);
    assert log == [e] + [e];
    var own := Filter(ByKey(e.key), log);
    assert own[0] == e && own[1] == e;
    assert Broken(log, e.key);
  }

  // ---------------------------------------------------------------- three messages at a time

  /** Two low readings and a high one. The first resolution is pending while the second is written and the
      alert is logged; then it is logged and stored, and the alert is stored last. */
  function StoredLate(device: string, user: string): seq<Step> {
    var low, high := Begin(device, [user], CO2_LIMIT, LOW_READING), Begin(device, [user], CO2_LIMIT, CO2_READING);
    [low] + ([low] + ([LogNext(1)] + ([StoreNext(1)] + ([high] + LateStores()))))
  }

  function LateStores(): seq<Step> {
    [LogNext(2)] + ([LogNext(0)] + ([StoreNext(0)] + ([StoreNext(2)] + [])))
  }

  lemma LogStateSnoc(log: seq<Event>, e: Event)
    ensures LogState(log + [e], e.key) == StateAfter(e)
  {
    FilterSnoc(ByKey(e.key), log, e);
  }

  /** Alert and relief have been logged and stored; a relief judged before them and an alert are pending. */
  function BeforeLateStores(device: string, user: string): Tables {
    var alert, relief := Alert(device, user), Relief(device, user);
    var alerting, normal := map[alert.key := Alerting], map[alert.key := Normal];
    Tables(normal, [alert, relief],
           [Evaluation(alerting, [relief], false), Evaluation(alerting, [], false), Evaluation(normal, [alert], false)])
  }

  function AfterLateStores(device: string, user: string): Tables {
    var alert, relief := Alert(device, user), Relief(device, user);
    var alerting, normal := map[alert.key := Alerting], map[alert.key := Normal];
    var none := Evaluation(alerting, [], false);
    Tables(alerting, [alert, relief, alert, relief], [none, none, Evaluation(normal, [], false)])
  }

  lemma LateStoresRun(device: string, user: string)
    ensures var t := BeforeLateStores(device, user);
            Runs(t, LateStores()) && NeverStale(t, LateStores()) && RunTo(t, LateStores()) == AfterLateStores(device, user)
  {
    var t0, end := BeforeLateStores(device, user), AfterLateStores(device, user);
    var alert, relief, p := Alert(device, user), Relief(device, user), t0.pending;
    var alerting, normal := map[alert.key := Alerting], map[alert.key := Normal];
    var t1 := Tables(normal, [alert, relief, alert], p[2 := Evaluation(normal, [alert], true)]);
    var t2 := Tables(normal, end.log, t1.pending[0 := Evaluation(alerting, [relief], true)]);
    var t3 := Tables(normal, end.log, t2.pending[0 := Evaluation(alerting, [], false)]);
    assert t0.log == [alert] + [relief] && t0.log + [alert] == t1.log;
    LogStateSnoc([alert], relief);
    LogStateSnoc(t0.log, alert);
    LogOne(t0, 2, normal, alert);
    LogOne(t1, 0, alerting, relief);
    StoreOne(t2, 0, alerting, relief, normal);
    StoreOne(t3, 2, normal, alert, alerting);
    assert t3.pending[2 := Evaluation(normal, [], false)] == end.pending;
    OneMore(t3, StoreNext(2), []);
    OneMore(t2, StoreNext(0), [StoreNext(2)] + []);
    OneMore(t1, LogNext(0), [StoreNext(0)] + ([StoreNext(2)] + []));
    OneMore(t0, LogNext(2), [LogNext(0)] + ([StoreNext(0)] + ([StoreNext(2)] + [])));
  }

  lemma ReliefsRead(device: string, user: string)
    ensures var alert := Alert(device, user);
            var t := Tables(map[alert.key := Alerting], [alert], []);
            Runs(t, StoredLate(device, user)) && NeverStale(t, StoredLate(device, user)) &&
            RunTo(t, StoredLate(device, user)) == AfterLateStores(device, user)
  {
    var alert, relief := Alert(device, user), Relief(device, user);
    var alerting, normal := map[alert.key := Alerting], map[alert.key := Normal];
    var low, high := Begin(device, [user], CO2_LIMIT, LOW_READING), Begin(device, [user], CO2_LIMIT, CO2_READING);
    var p, done := Evaluation(alerting, [relief], false), Evaluation(alerting, [], false);
    var t0, t1, t2 := Tables(alerting, [alert], []), Tables(alerting, [alert], [p]), Tables(alerting, [alert], [p, p]);
    var t3 := Tables(alerting, [alert, relief], [p, p.(logged := true)]);
    var t4 := Tables(normal, [alert, relief], [p, done]);
    OneUser(alerting, device, user, LOW_READING);
    OneUser(normal, device, user, CO2_READING);
    LogStateSnoc([], alert);
    assert [] + [alert] == [alert];
    LogOne(t2, 1, alerting, relief);
    StoreOne(t3, 1, alerting, relief, normal);
    assert StepTo(t0, low) == t1 && StepTo(t1, low) == t2 && StepTo(t2, LogNext(1)) == t3;
    assert StepTo(t3, StoreNext(1)) == t4 && StepTo(t4, high) == BeforeLateStores(device, user);
    LateStoresRun(device, user);
    OneMore(t4, high, LateStores());
    OneMore(t3, StoreNext(1), [high] + LateStores());
    OneMore(t2, LogNext(1), [StoreNext(1)] + ([high] + LateStores()));
    OneMore(t1, low, [LogNext(1)] + ([StoreNext(1)] + ([high] + LateStores())));
    OneMore(t0, low, [low] + ([LogNext(1)] + ([StoreNext(1)] + ([high] + LateStores()))));
  }

  lemma OneAlertAgrees(e: Event)
    requires e.kind == Triggered
    ensures LogAgrees(map[e.key := Alerting], [e])
  {
    forall key ensures KeyAgrees(map[e.key := Alerting], [e], key) {
      FilterOne(ByKey(key), e);
    }
  }

  /** From one stored alert: the log goes on alternating and ends with a resolution, and with everything
      stored the key is alerting. */
  lemma StoredOutOfOrder(device: string, user: string) returns (end: Tables)
    ensures var key := Alert(device, user).key;
            var t := Tables(map[key := Alerting], [Alert(device, user)], []);
            LogAgrees(t.states, t.log) && Runs(t, StoredLate(device, user)) && RunTo(t, StoredLate(device, user)) == end &&
            StateOf(end.states, key) == Alerting && LogState(end.log, key) == Normal
    ensures LogSound(end.log) && Settled(end)
  {
    var alert, relief := Alert(device, user), Relief(device, user);
    var t := Tables(map[alert.key := Alerting], [alert], []);
    OneAlertAgrees(alert);
    assert LogSound(t.log) by {
      forall key ensures !Broken(t.log, key) {
        assert KeyAgrees(t.states, t.log, key);
      }
    }
    ReliefsRead(device, user);
    RunAlternatesIff(t, StoredLate(device, user));
    end := AfterLateStores(device, user);
    assert end.log == [alert, relief, alert] + [relief];
    LogStateSnoc([alert, relief, alert], relief);
  }
}
