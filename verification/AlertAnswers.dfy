/** What a message does to the alerts of a user, in numbers: which readings trigger and resolve, under which
    limits, and how much the readings must vary between alerts. */
module AlertAnswers {
  import opened Common
  import opened Alerts

  // ---------------------------------------------------------------- one message

  /** What the events of a key have to be, and which state is to be stored, for a stored state, a limit and
      a reading: a trigger above the limit, a resolution only when the reading is below the limit by more
      than one unit and by more than a twentieth. */
  ghost predicate RightAnswer(key: Key, stored: State, limit: real, reading: Reading, own: seq<Event>, after: State) {
    if stored == Normal && reading.Num? && reading.value > limit then
      own == [Event(key, Triggered, reading.value)] && after == Alerting
    else if stored == Alerting && reading.Num? && reading.value < limit - 1.0 && 20.0 * reading.value < 19.0 * limit then
      own == [Event(key, Resolved, reading.value)] && after == Normal
    else
      own == [] && after == stored
  }

  lemma FireIsRight(key: Key, stored: State, limit: real, reading: Reading)
    ensures var own := Fire(key, stored, limit, reading); RightAnswer(key, stored, limit, reading, own, Leaves(stored, own))
  {
  }

  /** Of one message, for a user listed once and a parameter with a limit. */
  lemma AnswersInNumbers(states: map<Key, State>, device: string, users: seq<string>, record: Record,
                         telemetry: map<string, Reading>, key: Key)
    requires NoDup(users) && key.user in users && key.device == device && key.param in record.limit
    ensures var es := BatchEvents(states, device, users, record, telemetry);
            RightAnswer(key, if key in states then states[key] else Normal, record.limit[key.param],
                        if key.param in telemetry then telemetry[key.param] else Absent,
                        Filter(ByKey(key), es),
                        if key in Upsert(states, es) then Upsert(states, es)[key] else Normal)
  {
    BatchRefines(states, device, users, record, telemetry, key);
    FireIsRight(key, StateOf(states, key), record.limit[key.param], ReadingOf(telemetry, key.param));
  }

  // ---------------------------------------------------------------- the anti-flapping bound

  /** k events take more than k - 1 units of variation, and more than k - 1 times a twentieth of the limit. */
  ghost predicate Takes(k: nat, limit: real, variation: real) {
    k >= 2 ==> (k - 1) as real < variation && (k - 1) as real * limit < 20.0 * variation
  }

  lemma LargerFactor(k: real, a: real, h: real)
    requires k >= 0.0 && a <= h
    ensures k * a <= k * h
  {
  }

  lemma InUnits(k: real, limit: real, h: real, variation: real)
    requires k >= 0.0 && h >= 1.0 && h >= limit * 0.05 && k * h < variation
    ensures k < variation && k * limit < 20.0 * variation
  {
    LargerFactor(k, 1.0, h);
    LargerFactor(k, limit * 0.05, h);
    assert 20.0 * (k * (limit * 0.05)) == k * limit;
  }

  lemma CostInUnits(k: nat, limit: real, h: real, variation: real)
    requires h >= 1.0 && h >= limit * 0.05 && Cost(k, h) < variation
    ensures Takes(k + 1, limit, variation)
  {
    CostIsProduct(k, h);
    InUnits(k as real, limit, h, variation);
  }

  lemma HysteresisAtLeast(limit: real)
    ensures Hysteresis(limit) >= 1.0 && Hysteresis(limit) >= limit * 0.05
  {
  }

  /** For any readings of one key at a fixed limit, from any state. */
  lemma FlapBoundInNumbers(key: Key, state: State, limit: real, readings: seq<Reading>)
    ensures Takes(|RunKey(key, state, limit, readings)|, limit, Variation(Numbers(readings)))
  {
    var k := |RunKey(key, state, limit, readings)|;
    FlapCost(key, state, limit, readings);
    HysteresisAtLeast(limit);
    if k >= 2 {
      CostInUnits(k - 1, limit, Hysteresis(limit), Variation(Numbers(readings)));
    }
  }

  /** And so for the rows in the event log. */
  lemma LoggedAlertsInNumbers(states: map<Key, State>, device: string, users: seq<string>,
                              record: Record, messages: seq<map<string, Reading>>, user: string, param: string)
    requires NoDup(users) && user in users && param in record.limit
    ensures var logged := Filter(ByKey(Key(user, device, param)), RunEvents(states, device, users, record, messages));
            Takes(|logged|, record.limit[param], Variation(Numbers(ReadingsOf(messages, param))))
  {
    var key, limit := Key(user, device, param), record.limit[param];
    RunRefines(states, device, users, record, messages, user, param);
    FlapBoundInNumbers(key, StateOf(states, key), limit, ReadingsOf(messages, param));
  }
}
