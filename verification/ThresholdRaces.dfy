/** Group and threshold operations that check first and write later, so that others come in between:
    when a device still never has both a group and its own threshold. */
module ThresholdRaces {
  import opened Common
  import opened Alerts
  import opened Devices

  /** The operations that check and then write in a second statement. */
  predicate ChecksFirst(op: Op) {
    op.DoAddToGroup? || op.DoSetGroupThreshold? || op.DoSetDeviceThreshold?
  }

  predicate Passes(r: Registry, op: Op) {
    match op
    case DoAddToGroup(user, group, d) => AddToGroupOutcome(r, user, group, d) == Ok
    case DoSetGroupThreshold(user, group, _) => SetGroupThresholdOutcome(r, user, group) == Ok
    case DoSetDeviceThreshold(d, _) => SetDeviceThresholdOutcome(r, d) == Ok
    case _ => false
  }

  /** The write, without the check. A group that is gone by now fails the foreign key. */
  function Write(r: Registry, op: Op): Registry {
    match op
    case DoAddToGroup(_, group, d) =>
      if d in r.devices && group in r.groups then r.(devices := r.devices[d := r.devices[d].(group := Some(group))]) else r
    case DoSetGroupThreshold(_, group, limits) =>
      if group in r.groups then r.(groupThresholds := r.groupThresholds[group := limits]) else r
    case DoSetDeviceThreshold(d, limits) =>
      if d in r.devices then r.(thresholds := r.thresholds[d := limits]) else r
    case _ => r
  }

  /** With nothing in between, check and write are the operation. */
  lemma CheckThenWrite(r: Registry, op: Op)
    requires ChecksFirst(op)
    ensures Apply(r, op) == if Passes(r, op) then Write(r, op) else r
  {
  }

  /** The registry and the operations past their checks. */
  datatype Checked = Checked(registry: Registry, pending: seq<Op>)

  datatype Step = Check(op: Op) | Commit(k: nat) | Serve(op: Op)

  predicate Enabled(s: Checked, step: Step) {
    match step
    case Check(op) => ChecksFirst(op)
    case Commit(k) => k < |s.pending|
    case Serve(_) => true
  }

  function StepTo(s: Checked, step: Step): Checked
    requires Enabled(s, step)
  {
    match step
    case Check(op) => if Passes(s.registry, op) then s.(pending := s.pending + [op]) else s
    case Commit(k) => Checked(Write(s.registry, s.pending[k]), s.pending[..k] + s.pending[k + 1..])
    case Serve(op) => s.(registry := Apply(s.registry, op))
  }

  ghost predicate Runs(s: Checked, steps: seq<Step>)
    decreases |steps|
  {
    steps == [] || (Enabled(s, steps[0]) && Runs(StepTo(s, steps[0]), steps[1..]))
  }

  ghost function RunTo(s: Checked, steps: seq<Step>): Checked
    requires Runs(s, steps)
    decreases |steps|
  {
    if steps == [] then s else RunTo(StepTo(s, steps[0]), steps[1..])
  }

  /** The write gives a group to a device that has got a threshold, or a threshold to one that has got a
      group. */
  predicate Collides(r: Registry, op: Op) {
    match op
    case DoAddToGroup(_, group, d) => d in r.devices && group in r.groups && d in r.thresholds
    case DoSetDeviceThreshold(d, _) => d in r.devices && r.devices[d].group.Some?
    case _ => false
  }

  lemma WriteKeepsMutexIff(r: Registry, op: Op)
    requires Mutex(r)
    ensures Mutex(Write(r, op)) <==> !Collides(r, op)
  {
    var r' := Write(r, op);
    if Collides(r, op) {
      var d := op.device;
      assert d in r'.devices && r'.devices[d].group.Some? && d in r'.thresholds;
    }
  }

  ghost predicate AlwaysMutex(s: Checked, steps: seq<Step>)
    requires Runs(s, steps)
    decreases |steps|
  {
    Mutex(s.registry) && (steps == [] || AlwaysMutex(StepTo(s, steps[0]), steps[1..]))
  }

  ghost predicate NeverCollides(s: Checked, steps: seq<Step>)
    requires Runs(s, steps)
    decreases |steps|
  {
    steps == [] ||
    ((steps[0].Commit? ==> !Collides(s.registry, s.pending[steps[0].k])) && NeverCollides(StepTo(s, steps[0]), steps[1..]))
  }

  /** Over every interleaving of checks and writes: no device ever has both a group and its own threshold,
      if and only if no write collides with what has come since its check. */
  lemma {:induction false} MutexIff(s: Checked, steps: seq<Step>)
    requires Mutex(s.registry) && Runs(s, steps)
    ensures AlwaysMutex(s, steps) <==> NeverCollides(s, steps)
    decreases |steps|
  {
    if steps == [] {
    } else {
      var s' := StepTo(s, steps[0]);
      match steps[0] {
        case Check(_) =>
        case Commit(k) => WriteKeepsMutexIff(s.registry, s.pending[k]);
        case Serve(op) => ApplyKeepsMutex(s.registry, op);
      }
      if Mutex(s'.registry) {
        MutexIff(s', steps[1..]);
      }
    }
  }

  /** A device of the user's, and a group. */
  function OneGroup(user: string, d: string, group: string): Registry {
    EMPTY.(users := map[user := true], devices := map[d := Device(d, None)],
           assignments := [Assignment(d, user, true)], groups := map[group := user])
  }

  /** Both checks before either write. */
  function BothChecked(user: string, d: string, group: string, limits: Record): seq<Step> {
    [Check(DoAddToGroup(user, group, d))] + ([Check(DoSetDeviceThreshold(d, limits))] +
    ([Commit(0)] + ([Commit(0)] + [])))
  }

  lemma OneMore(s: Checked, step: Step, rest: seq<Step>)
    requires Enabled(s, step) && Runs(StepTo(s, step), rest)
    ensures Runs(s, [step] + rest) && RunTo(s, [step] + rest) == RunTo(StepTo(s, step), rest)
  {
    assert ([step] + rest)[1..] == rest;
  }

  lemma BothPass(user: string, d: string, group: string, limits: Record)
    ensures var r, join, set' := OneGroup(user, d, group), DoAddToGroup(user, group, d), DoSetDeviceThreshold(d, limits);
            Passes(r, join) && Passes(r, set') &&
            var end := Write(Write(r, join), set');
            d in end.devices && end.devices[d].group == Some(group) && d in end.thresholds &&
            SetGroupThresholdOutcome(end, user, group) == BadRequest
  {
    assert OneGroup(user, d, group).assignments[0] == Assignment(d, user, true);
  }

  /** The device ends up with both, and from then on the group can get no threshold. */
  lemma BothWritten(user: string, d: string, group: string, limits: Record) returns (end: Registry)
    ensures Runs(Checked(OneGroup(user, d, group), []), BothChecked(user, d, group, limits))
    ensures end == RunTo(Checked(OneGroup(user, d, group), []), BothChecked(user, d, group, limits)).registry
    ensures d in end.devices && end.devices[d].group == Some(group) && d in end.thresholds
    ensures SetGroupThresholdOutcome(end, user, group) == BadRequest
  {
    BothPass(user, d, group, limits);
    end := BothRun(OneGroup(user, d, group), DoAddToGroup(user, group, d), DoSetDeviceThreshold(d, limits));
  }

  lemma BothRun(r: Registry, first: Op, second: Op) returns (end: Registry)
    requires ChecksFirst(first) && ChecksFirst(second) && Passes(r, first) && Passes(r, second)
    ensures end == Write(Write(r, first), second)
    ensures var steps := [Check(first)] + ([Check(second)] + ([Commit(0)] + ([Commit(0)] + [])));
            Runs(Checked(r, []), steps) && RunTo(Checked(r, []), steps) == Checked(end, [])
  {
    var s1, s2 := Checked(r, [first]), Checked(r, [first, second]);
    var s3 := Checked(Write(r, first), [second]);
    end := Write(Write(r, first), second);
    assert StepTo(Checked(r, []), Check(first)) == s1 && StepTo(s1, Check(second)) == s2;
    assert StepTo(s2, Commit(0)) == s3 && StepTo(s3, Commit(0)) == Checked(end, []);
    OneMore(s3, Commit(0), []);
    OneMore(s2, Commit(0), [Commit(0)] + []);
    OneMore(s1, Check(second), [Commit(0)] + ([Commit(0)] + []));
    OneMore(Checked(r, []), Check(first), [Check(second)] + ([Commit(0)] + ([Commit(0)] + [])));
  }
}
