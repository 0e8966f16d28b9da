/** Telemetry ingest and the offline sweep on the same device rows. An ingest reads the device's status,
    commits later and then reports a recovery; a sweep reads the dead devices in one query, updates in
    another and then reports one device after the other. Others may come in between. */
module Offline {
  import opened Common
  import opened Alerts

  datatype Status = ONLINE | WARNING | OFFLINE

  datatype DeviceRow = DeviceRow(status: Status, heartbeat: Option<int>, deleted: bool)

  datatype Kind = WentOnline | WentOffline

  datatype Entry = Entry(device: string, user: string, kind: Kind)

  /** A sweep past its read. */
  datatype Sweep = Sweep(cutoff: int, dead: seq<string>)

  /** watchers lists the assigned users of each device. */
  datatype Config = Config(timeout: nat, watchers: map<string, seq<string>>)

  /** A message past its read: the status it will judge a recovery by, and how long the log was then.
      A saved one has yet to report the recovery. */
  datatype Incoming = Incoming(device: string, dto: map<string, Reading>, seen: Status, since: nat, saved: bool)

  /** reports lists, for each sweep past its update, the devices it still has to report. */
  datatype Fleet = Fleet(
    devices: map<string, DeviceRow>,
    telemetry: set<(string, int)>,
    log: seq<Entry>,
    incoming: seq<Incoming>,
    pending: seq<Sweep>,
    reports: seq<seq<string>>,
    clock: int)

  // ---------------------------------------------------------------- ingest

  const METRICS: seq<string> := ["pm25", "pm10", "tvoc", "co2", "temperature", "humidity", "noise", "aqi"]

  /** Not a number becomes null, and so does zero, except for the temperature. */
  function Sanitize(r: Reading, allowZero: bool): Option<real> {
    match r
    case Num(v) => if v == 0.0 && !allowZero then None else Some(v)
    case _ => None
  }

  function NewStatus(dto: map<string, Reading>): Status {
    if forall m <- METRICS :: Sanitize(ReadingOf(dto, m), m == "temperature").Some? then ONLINE else WARNING
  }

  function UsersOf(c: Config, d: string): seq<string> {
    if d in c.watchers then c.watchers[d] else []
  }

  function EntriesFor(d: string, users: seq<string>, kind: Kind): (es: seq<Entry>)
    ensures |es| == |users|
    ensures forall i :: 0 <= i < |es| ==> es[i] == Entry(d, users[i], kind)
  {
    seq(|users|, i requires 0 <= i < |users| => Entry(d, users[i], kind))
  }

  /** A message goes on past its read if the device is known and not deleted. */
  predicate Known(f: Fleet, d: string) {
    d in f.devices && !f.devices[d].deleted
  }

  function BeginIngest(f: Fleet, d: string, dto: map<string, Reading>): Fleet {
    if !Known(f, d) then f
    else f.(incoming := f.incoming + [Incoming(d, dto, f.devices[d].status, |f.log|, false)])
  }

  /** Insert and heartbeat are one transaction; a second row at the same instant rolls it back. */
  predicate Accepts(f: Fleet, d: string, now: int) {
    d in f.devices && (d, now) !in f.telemetry
  }

  /** By the status that was read and the one that is written. */
  predicate Recovers(m: Incoming) {
    m.seen == OFFLINE && NewStatus(m.dto) == ONLINE
  }

  /** The transaction of a message. */
  function Ingest(f: Fleet, m: Incoming, now: int): Fleet {
    if !Accepts(f, m.device, now) then f.(clock := now)
    else
      var d := m.device;
      f.(devices := f.devices[d := f.devices[d].(status := NewStatus(m.dto), heartbeat := Some(now))],
         telemetry := f.telemetry + {(d, now)},
         clock := now)
  }

  /** One of the device's users, each of whom is assigned once. */
  ghost predicate Watches(c: Config, d: string, user: string) {
    user in UsersOf(c, d) && NoDup(UsersOf(c, d))
  }

  // ---------------------------------------------------------------- sweep

  predicate Dead(r: DeviceRow, cutoff: int) {
    !r.deleted && r.status != OFFLINE && r.heartbeat.Some? && r.heartbeat.value < cutoff
  }

  /** A listing of exactly the dead devices, each once, in any order. */
  ghost predicate ListsDead(f: Fleet, cutoff: int, dead: seq<string>) {
    NoDup(dead) && forall d :: d in dead <==> d in f.devices && Dead(f.devices[d], cutoff)
  }

  function MarkOffline(devices: map<string, DeviceRow>, cutoff: int): map<string, DeviceRow> {
    map d | d in devices :: if Dead(devices[d], cutoff) then devices[d].(status := OFFLINE) else devices[d]
  }

  function OfflineEntries(c: Config, dead: seq<string>): seq<Entry> {
    if dead == [] then []
    else EntriesFor(dead[0], UsersOf(c, dead[0]), WentOffline) + OfflineEntries(c, dead[1..])
  }

  /** The update counts what it marks; if that is anything, all devices of the read are to be reported. */
  function MarkSweep(f: Fleet, s: Sweep): Fleet {
    if s.dead == [] then f
    else
      f.(devices := MarkOffline(f.devices, s.cutoff),
         reports := f.reports + if exists d :: d in f.devices && Dead(f.devices[d], s.cutoff) then [s.dead] else [])
  }

  /** An update and its reports with nothing in between. */
  function WriteSweep(f: Fleet, c: Config, s: Sweep): Fleet {
    if s.dead == [] then f
    else
      f.(devices := MarkOffline(f.devices, s.cutoff),
         log := f.log + if exists d :: d in f.devices && Dead(f.devices[d], s.cutoff)
                        then OfflineEntries(c, s.dead) else [])
  }

  function SoftDelete(f: Fleet, d: string): Fleet {
    if d in f.devices then f.(devices := f.devices[d := f.devices[d].(deleted := true, status := OFFLINE)]) else f
  }

  // ---------------------------------------------------------------- runs

  datatype Step =
    | ReadStatus(device: string, dto: map<string, Reading>)
    | Save(k: nat, now: int)
    | ReportRecovery(k: nat)
    | ReadDead(now: int, dead: seq<string>)
    | Mark(k: nat)
    | ReportNext(k: nat)
    | DoDelete(device: string)

  /** The clock does not go back, and a read lists the dead devices of its instant. */
  ghost predicate Enabled(f: Fleet, c: Config, step: Step) {
    match step
    case ReadStatus(_, _) => true
    case Save(k, now) => k < |f.incoming| && !f.incoming[k].saved && f.clock <= now
    case ReportRecovery(k) => k < |f.incoming| && f.incoming[k].saved
    case ReadDead(now, dead) => f.clock <= now && ListsDead(f, now - c.timeout, dead)
    case Mark(k) => k < |f.pending|
    case ReportNext(k) => k < |f.reports| && f.reports[k] != []
    case DoDelete(_) => true
  }

  function Without<T>(s: seq<T>, k: nat): seq<T>
    requires k < |s|
  {
    s[..k] + s[k + 1..]
  }

  /** A message that has saved goes on only to report a recovery. */
  function SaveNext(f: Fleet, k: nat, now: int): Fleet
    requires k < |f.incoming|
  {
    var m := f.incoming[k];
    Ingest(f, m, now).(incoming := if Accepts(f, m.device, now) && Recovers(m)
                                   then f.incoming[k := m.(saved := true)] else Without(f.incoming, k))
  }

  function StepTo(f: Fleet, c: Config, step: Step): Fleet {
    match step
    case ReadStatus(d, dto) => BeginIngest(f, d, dto)
    case Save(k, now) => if k < |f.incoming| then SaveNext(f, k, now) else f
    case ReportRecovery(k) =>
      if k >= |f.incoming| then f
      else
        var d := f.incoming[k].device;
        f.(log := f.log + EntriesFor(d, UsersOf(c, d), WentOnline), incoming := Without(f.incoming, k))
    case ReadDead(now, dead) => f.(clock := now, pending := f.pending + [Sweep(now - c.timeout, dead)])
    case Mark(k) =>
      if k < |f.pending| then MarkSweep(f, f.pending[k]).(pending := Without(f.pending, k)) else f
    case ReportNext(k) =>
      if k >= |f.reports| || f.reports[k] == [] then f
      else
        var d := f.reports[k][0];
        f.(log := f.log + EntriesFor(d, UsersOf(c, d), WentOffline), reports := f.reports[k := f.reports[k][1..]])
    case DoDelete(d) => SoftDelete(f, d)
  }

  ghost predicate Runs(f: Fleet, c: Config, steps: seq<Step>)
    decreases |steps|
  {
    steps == [] || (Enabled(f, c, steps[0]) && Runs(StepTo(f, c, steps[0]), c, steps[1..]))
  }

  function RunTo(f: Fleet, c: Config, steps: seq<Step>): Fleet
    decreases |steps|
  {
    if steps == [] then f else RunTo(StepTo(f, c, steps[0]), c, steps[1..])
  }

  lemma OneMore(f: Fleet, c: Config, step: Step, rest: seq<Step>)
    ensures RunTo(f, c, [step] + rest) == RunTo(StepTo(f, c, step), c, rest)
    ensures Runs(f, c, [step] + rest) <==> Enabled(f, c, step) && Runs(StepTo(f, c, step), c, rest)
  {
    assert ([step] + rest)[1..] == rest;
  }

  // ---------------------------------------------------------------- pending sweeps

  /** What a pending sweep would mark now, it already has on its list; the rest of its list has been
      heard of, deleted or marked since. */
  ghost predicate PendingCovers(f: Fleet, s: Sweep) {
    forall d :: d in f.devices && Dead(f.devices[d], s.cutoff) ==> d in s.dead
  }

  ghost predicate SweepsSound(f: Fleet, c: Config) {
    forall k :: 0 <= k < |f.pending| ==>
      PendingCovers(f, f.pending[k]) && f.pending[k].cutoff + c.timeout <= f.clock
  }

  lemma StepKeepsPending(f: Fleet, c: Config, step: Step, s: Sweep)
    requires Enabled(f, c, step) && PendingCovers(f, s) && s.cutoff + c.timeout <= f.clock
    ensures PendingCovers(StepTo(f, c, step), s) && s.cutoff + c.timeout <= StepTo(f, c, step).clock
  {
  }

  lemma StepKeepsSweeps(f: Fleet, c: Config, step: Step)
    requires SweepsSound(f, c) && Enabled(f, c, step)
    ensures SweepsSound(StepTo(f, c, step), c)
  {
    var f' := StepTo(f, c, step);
    forall k | 0 <= k < |f'.pending|
      ensures PendingCovers(f', f'.pending[k]) && f'.pending[k].cutoff + c.timeout <= f'.clock
    {
      if step.Mark? {
        var k' := if k < step.k then k else k + 1;
        assert f'.pending[k] == f.pending[k'];
        StepKeepsPending(f, c, step, f.pending[k']);
      } else if k < |f.pending| {
        StepKeepsPending(f, c, step, f.pending[k]);
      }
    }
  }

  lemma {:induction false} RunKeepsSweeps(f: Fleet, c: Config, steps: seq<Step>)
    requires SweepsSound(f, c) && Runs(f, c, steps)
    ensures SweepsSound(RunTo(f, c, steps), c)
    decreases |steps|
  {
    if steps == [] {
    } else {
      StepKeepsSweeps(f, c, steps[0]);
      RunKeepsSweeps(StepTo(f, c, steps[0]), c, steps[1..]);
    }
  }

  /** After every run: a sweep's update changes a device only if the device has been silent for longer
      than the timeout, and then only its status, to OFFLINE. */
  lemma OnlySilentAreMarked(f: Fleet, c: Config, steps: seq<Step>, k: nat, d: string)
    requires f.pending == [] && Runs(f, c, steps) && Enabled(RunTo(f, c, steps), c, Mark(k))
    requires d in RunTo(f, c, steps).devices
    ensures var before, after := RunTo(f, c, steps), StepTo(RunTo(f, c, steps), c, Mark(k));
            d in after.devices &&
            (after.devices[d] != before.devices[d] ==>
               before.devices[d].heartbeat.Some? && after.clock - before.devices[d].heartbeat.value > c.timeout &&
               after.devices[d] == before.devices[d].(status := OFFLINE))
  {
    RunKeepsSweeps(f, c, steps);
  }

  // ---------------------------------------------------------------- entries of the log

  function About(d: string, user: string): Entry -> bool {
    (e: Entry) => e.device == d && e.user == user
  }

  function Told(log: seq<Entry>, d: string, user: string): seq<Entry> {
    Filter(About(d, user), log)
  }

  predicate LastOnline(es: seq<Entry>) {
    es != [] && es[|es| - 1].kind == WentOnline
  }

  ghost predicate NoTwoOnline(es: seq<Entry>) {
    forall i :: 0 <= i < |es| - 1 ==> !(es[i].kind == WentOnline && es[i + 1].kind == WentOnline)
  }

  lemma EntriesSnoc(d: string, users: seq<string>, last: string, kind: Kind)
    ensures EntriesFor(d, users + [last], kind) == EntriesFor(d, users, kind) + [Entry(d, last, kind)]
  {
  }

  lemma {:induction false} FilterEntries(d: string, users: seq<string>, kind: Kind, d': string, user: string)
    requires NoDup(users)
    ensures Filter(About(d', user), EntriesFor(d, users, kind)) ==
            if d == d' && user in users then [Entry(d, user, kind)] else []
  {
    if users == [] {
    } else {
      var most, last := users[..|users| - 1], users[|users| - 1];
      var before := EntriesFor(d, most, kind);
      assert users == most + [last] && (user in users <==> user in most || user == last);
      assert last !in most;
      FilterEntries(d, most, kind, d', user);
      EntriesSnoc(d, most, last, kind);
      FilterSnoc(About(d', user), before, Entry(d, last, kind));
      assert Filter(About(d', user), before) + [] == Filter(About(d', user), before);
    }
  }

  lemma {:induction false} FilterEntriesKind(es: seq<Entry>, kind: Kind, d: string, user: string)
    requires forall i :: 0 <= i < |es| ==> es[i].kind == kind
    ensures forall i :: 0 <= i < |Filter(About(d, user), es)| ==> Filter(About(d, user), es)[i].kind == kind
  {
    if es == [] {
    } else {
      FilterEntriesKind(es[..|es| - 1], kind, d, user);
    }
  }

  lemma {:induction false} OfflineEntriesKind(c: Config, dead: seq<string>)
    ensures forall i :: 0 <= i < |OfflineEntries(c, dead)| ==> OfflineEntries(c, dead)[i].kind == WentOffline
  {
    if dead == [] {
    } else {
      OfflineEntriesKind(c, dead[1..]);
    }
  }

  lemma {:induction false} OfflineEntriesReach(c: Config, dead: seq<string>, d: string, user: string)
    requires d in dead && Watches(c, d, user)
    ensures Filter(About(d, user), OfflineEntries(c, dead)) != []
  {
    var first, entries := dead[0], EntriesFor(dead[0], UsersOf(c, dead[0]), WentOffline);
    FilterConcat(About(d, user), entries, OfflineEntries(c, dead[1..]));
    if d == first {
      FilterEntries(first, UsersOf(c, first), WentOffline, d, user);
    } else {
      OfflineEntriesReach(c, dead[1..], d, user);
    }
  }

  lemma {:induction false} OfflineEntriesElsewhere(c: Config, dead: seq<string>, d: string)
    requires d !in dead
    ensures forall e <- OfflineEntries(c, dead) :: e.device != d
  {
    if dead == [] {
    } else {
      OfflineEntriesElsewhere(c, dead[1..], d);
    }
  }

  lemma ToldMore(log: seq<Entry>, more: seq<Entry>, d: string, user: string)
    ensures Told(log + more, d, user) == Told(log, d, user) + Told(more, d, user)
  {
    FilterConcat(About(d, user), log, more);
  }

  lemma OthersAreNotTold(d: string, users: seq<string>, kind: Kind, d': string, user: string)
    requires d != d'
    ensures Told(EntriesFor(d, users, kind), d', user) == []
  {
    FilterNone(About(d', user), EntriesFor(d, users, kind));
  }

  /** What a sweep that reports tells a user about a device. */
  lemma SweepTells(c: Config, dead: seq<string>, d: string, user: string)
    requires Watches(c, d, user)
    ensures var told := Told(OfflineEntries(c, dead), d, user);
            (told != [] <==> d in dead) && forall i :: 0 <= i < |told| ==> told[i].kind == WentOffline
  {
    OfflineEntriesKind(c, dead);
    FilterEntriesKind(OfflineEntries(c, dead), WentOffline, d, user);
    if d in dead {
      OfflineEntriesReach(c, dead, d, user);
    } else {
      OfflineEntriesElsewhere(c, dead, d);
      FilterNone(About(d, user), OfflineEntries(c, dead));
    }
  }

  // ---------------------------------------------------------------- the order of the entries

  /** Since the message read the device's status, another recovery has been reported to the user, and
      nothing after it. */
  predicate Overtaken(f: Fleet, m: Incoming, user: string)
    requires m.since <= |f.log|
  {
    LastOnline(Told(f.log[m.since..], m.device, user))
  }

  /** The message read a status OFFLINE that the user had not been told of, and has not been since. */
  predicate AheadOfReport(f: Fleet, m: Incoming, user: string)
    requires m.since <= |f.log|
  {
    Told(f.log[m.since..], m.device, user) == [] && LastOnline(Told(f.log[..m.since], m.device, user))
  }

  /** The step reports a recovery overtaken by another one, or ahead of the report it recovers from. */
  ghost predicate Repeats(f: Fleet, step: Step, d: string, user: string) {
    step.ReportRecovery? && step.k < |f.incoming| &&
    var m := f.incoming[step.k];
    m.device == d && m.since <= |f.log| && (Overtaken(f, m, user) || AheadOfReport(f, m, user))
  }

  ghost predicate ReadsPast(f: Fleet) {
    forall k :: 0 <= k < |f.incoming| ==> f.incoming[k].since <= |f.log|
  }

  lemma LastOfConcat(a: seq<Entry>, b: seq<Entry>)
    ensures LastOnline(a + b) <==> if b == [] then LastOnline(a) else LastOnline(b)
  {
    assert b == [] ==> a + b == a;
    assert b != [] ==> (a + b)[|a + b| - 1] == b[|b| - 1];
  }

  /** A recovery is reported after an ONLINE entry exactly in these two cases. */
  lemma RepeatsIff(f: Fleet, k: nat, d: string, user: string)
    requires ReadsPast(f) && k < |f.incoming| && f.incoming[k].device == d
    ensures Repeats(f, ReportRecovery(k), d, user) <==> LastOnline(Told(f.log, d, user))
  {
    var since := f.incoming[k].since;
    assert f.log == f.log[..since] + f.log[since..];
    ToldMore(f.log[..since], f.log[since..], d, user);
    LastOfConcat(Told(f.log[..since], d, user), Told(f.log[since..], d, user));
  }

  lemma AppendOnline(told: seq<Entry>, e: Entry)
    requires NoTwoOnline(told) && e.kind == WentOnline
    ensures NoTwoOnline(told + [e]) <==> !LastOnline(told)
  {
    if LastOnline(told) {
      var n := |told|;
      assert (told + [e])[n - 1] == told[n - 1] && (told + [e])[n - 1 + 1] == e;
    }
  }

  lemma AppendOffline(told: seq<Entry>, more: seq<Entry>)
    requires NoTwoOnline(told) && forall i :: 0 <= i < |more| ==> more[i].kind == WentOffline
    ensures NoTwoOnline(told + more)
  {
  }

  lemma LogGrows(f: Fleet, c: Config, step: Step)
    ensures f.log <= StepTo(f, c, step).log
  {
  }

  /** The device and the kind of a step's entries. */
  function Writes(f: Fleet, step: Step): Option<(string, Kind)> {
    match step
    case ReportRecovery(k) => if k < |f.incoming| then Some((f.incoming[k].device, WentOnline)) else None
    case ReportNext(k) => if k < |f.reports| && f.reports[k] != [] then Some((f.reports[k][0], WentOffline)) else None
    case _ => None
  }

  lemma StepTells(f: Fleet, c: Config, step: Step, d: string, user: string)
    requires Watches(c, d, user)
    ensures Told(StepTo(f, c, step).log, d, user) == Told(f.log, d, user) +
            if Writes(f, step).Some? && Writes(f, step).value.0 == d then [Entry(d, user, Writes(f, step).value.1)] else []
  {
    assert Told(f.log, d, user) + [] == Told(f.log, d, user);
    if Writes(f, step).Some? {
      var (d', kind) := Writes(f, step).value;
      ToldMore(f.log, EntriesFor(d', UsersOf(c, d'), kind), d, user);
      if d' == d {
        FilterEntries(d, UsersOf(c, d), kind, d, user);
      } else {
        OthersAreNotTold(d', UsersOf(c, d'), kind, d, user);
      }
    }
  }

  lemma StepKeepsOrderIff(f: Fleet, c: Config, step: Step, d: string, user: string)
    requires ReadsPast(f) && Watches(c, d, user) && NoTwoOnline(Told(f.log, d, user))
    ensures NoTwoOnline(Told(StepTo(f, c, step).log, d, user)) <==> !Repeats(f, step, d, user)
  {
    var told := Told(f.log, d, user);
    StepTells(f, c, step, d, user);
    if Writes(f, step).Some? && Writes(f, step).value.0 == d {
      if step.ReportRecovery? {
        RepeatsIff(f, step.k, d, user);
        AppendOnline(told, Entry(d, user, WentOnline));
      } else {
        AppendOffline(told, [Entry(d, user, WentOffline)]);
      }
    }
  }

  lemma StepKeepsReads(f: Fleet, c: Config, step: Step)
    requires ReadsPast(f)
    ensures ReadsPast(StepTo(f, c, step))
  {
    var f' := StepTo(f, c, step);
    LogGrows(f, c, step);
    forall k | 0 <= k < |f'.incoming| ensures f'.incoming[k].since <= |f'.log| {
      if !(step.ReadStatus? && k == |f.incoming|) {
        var k' := WasIncoming(f, c, step, k);
      }
    }
  }

  /** A message under way has been under way before the step, perhaps not yet saved. */
  lemma WasIncoming(f: Fleet, c: Config, step: Step, k: nat) returns (k': nat)
    requires k < |StepTo(f, c, step).incoming| && (step.ReadStatus? ==> k < |f.incoming|)
    ensures k' < |f.incoming|
    ensures var m, m' := f.incoming[k'], StepTo(f, c, step).incoming[k];
            m' == m || (step.Save? && step.k == k' && m' == m.(saved := true) &&
                        Accepts(f, m.device, step.now) && Recovers(m))
    ensures step.ReportRecovery? ==> k' != step.k
    ensures step.Save? && k' == step.k ==> StepTo(f, c, step).incoming[k].saved
    ensures |StepTo(f, c, step).incoming| == |f.incoming| ==> k' == k
    ensures |StepTo(f, c, step).incoming| < |f.incoming| ==>
              (step.Save? || step.ReportRecovery?) && k' == if k < step.k then k else k + 1
  {
    k' := if |StepTo(f, c, step).incoming| < |f.incoming| && k >= step.k then k + 1 else k;
  }

  /** No step of the run reports a recovery that has been reported. */
  ghost predicate NeverRepeats(f: Fleet, c: Config, steps: seq<Step>, d: string, user: string)
    decreases |steps|
  {
    steps == [] || (!Repeats(f, steps[0], d, user) && NeverRepeats(StepTo(f, c, steps[0]), c, steps[1..], d, user))
  }

  lemma {:induction false} TwoOnlineForGood(f: Fleet, c: Config, steps: seq<Step>, d: string, user: string)
    requires !NoTwoOnline(Told(f.log, d, user))
    ensures !NoTwoOnline(Told(RunTo(f, c, steps).log, d, user))
    decreases |steps|
  {
    if steps == [] {
    } else {
      var log' := StepTo(f, c, steps[0]).log;
      LogGrows(f, c, steps[0]);
      assert log' == f.log + log'[|f.log|..];
      ToldMore(f.log, log'[|f.log|..], d, user);
      var told, told' := Told(f.log, d, user), Told(log', d, user);
      var i :| 0 <= i < |told| - 1 && told[i].kind == WentOnline && told[i + 1].kind == WentOnline;
      assert told'[i] == told[i] && told'[i + 1] == told[i + 1];
      TwoOnlineForGood(StepTo(f, c, steps[0]), c, steps[1..], d, user);
    }
  }

  /** Over every interleaving of ingests, deletions and sweeps, overlapping ones included: between two
      ONLINE entries of a device for one of its users there is an OFFLINE entry, if and only if no
      message reports a recovery that another one has reported since it read the status, or that comes
      before the report of the status it read. */
  lemma {:induction false} OfflineBetweenOnlineIff(f: Fleet, c: Config, steps: seq<Step>, d: string, user: string)
    requires ReadsPast(f) && NoTwoOnline(Told(f.log, d, user)) && Watches(c, d, user)
    ensures NoTwoOnline(Told(RunTo(f, c, steps).log, d, user)) <==> NeverRepeats(f, c, steps, d, user)
    decreases |steps|
  {
    if steps == [] {
    } else {
      var step, f' := steps[0], StepTo(f, c, steps[0]);
      StepKeepsOrderIff(f, c, step, d, user);
      if Repeats(f, step, d, user) {
        TwoOnlineForGood(f', c, steps[1..], d, user);
      } else {
        StepKeepsReads(f, c, step);
        OfflineBetweenOnlineIff(f', c, steps[1..], d, user);
      }
    }
  }

  // ---------------------------------------------------------------- what an ONLINE entry says of the device

  /** Some sweep has still to report the device. */
  ghost predicate Owes(f: Fleet, d: string) {
    exists k :: 0 <= k < |f.reports| && d in f.reports[k]
  }

  predicate Alive(devices: map<string, DeviceRow>, d: string) {
    d in devices && (devices[d].status != OFFLINE || devices[d].deleted)
  }

  ghost predicate OwesRecovery(f: Fleet, d: string) {
    exists k :: 0 <= k < |f.incoming| && f.incoming[k].device == d && f.incoming[k].saved
  }

  /** A device last reported ONLINE is not offline, or is deleted, or will yet be reported. */
  ghost predicate OnlineHolds(f: Fleet, d: string, user: string) {
    (LastOnline(Told(f.log, d, user)) ==> Alive(f.devices, d) || Owes(f, d)) &&
    (OwesRecovery(f, d) ==> Alive(f.devices, d))
  }

  /** A sweep does not mark the device before its last recovery has been reported. */
  ghost predicate Timely(f: Fleet, step: Step, d: string) {
    step.Mark? && step.k < |f.pending| && d in f.devices && Dead(f.devices[d], f.pending[step.k].cutoff) ==>
      !OwesRecovery(f, d)
  }

  ghost predicate AllTimely(f: Fleet, c: Config, steps: seq<Step>, d: string)
    decreases |steps|
  {
    steps == [] || (Timely(f, steps[0], d) && AllTimely(StepTo(f, c, steps[0]), c, steps[1..], d))
  }

  lemma StaysOwed(f: Fleet, c: Config, step: Step, d: string)
    requires Owes(f, d) && !(Writes(f, step).Some? && Writes(f, step).value.0 == d)
    ensures Owes(StepTo(f, c, step), d)
  {
    var f' := StepTo(f, c, step);
    var k :| 0 <= k < |f.reports| && d in f.reports[k];
    assert d in f'.reports[k] by {
      if step.ReportNext? && step.k == k {
        assert f.reports[k] == [f.reports[k][0]] + f.reports[k][1..];
      }
    }
  }

  /** What turns a device OFFLINE that is not deleted is an update that will report it. */
  lemma StaysAlive(f: Fleet, c: Config, step: Step, d: string)
    requires SweepsSound(f, c) && Enabled(f, c, step) && Alive(f.devices, d)
    ensures Alive(StepTo(f, c, step).devices, d) || (Owes(StepTo(f, c, step), d) && (Timely(f, step, d) ==> !OwesRecovery(f, d)))
  {
    if step.Mark? && Dead(f.devices[d], f.pending[step.k].cutoff) {
      var f' := StepTo(f, c, step);
      assert d in f.pending[step.k].dead;
      assert d in f'.reports[|f.reports|];
    }
  }

  lemma RecoveryWasOwed(f: Fleet, c: Config, step: Step, d: string)
    requires Enabled(f, c, step) && OwesRecovery(StepTo(f, c, step), d) && !OwesRecovery(f, d)
    ensures step.Save? && Alive(StepTo(f, c, step).devices, d)
  {
    var f' := StepTo(f, c, step);
    var k :| 0 <= k < |f'.incoming| && f'.incoming[k].device == d && f'.incoming[k].saved;
    if step.ReadStatus? && k == |f.incoming| {
      assert false;
    } else {
      var k' := WasIncoming(f, c, step, k);
      assert f.incoming[k'].device == d && !f.incoming[k'].saved;
    }
  }

  lemma StepKeepsOnline(f: Fleet, c: Config, step: Step, d: string, user: string)
    requires SweepsSound(f, c) && Enabled(f, c, step) && Watches(c, d, user)
    requires OnlineHolds(f, d, user) && Timely(f, step, d)
    ensures OnlineHolds(StepTo(f, c, step), d, user)
  {
    var f' := StepTo(f, c, step);
    StepTells(f, c, step, d, user);
    if Alive(f.devices, d) {
      StaysAlive(f, c, step, d);
    }
    if LastOnline(Told(f'.log, d, user)) {
      if Writes(f, step).Some? && Writes(f, step).value.0 == d {
        assert step.ReportRecovery? && OwesRecovery(f, d);
      } else if Owes(f, d) {
        StaysOwed(f, c, step, d);
      }
    }
    if OwesRecovery(f', d) && !OwesRecovery(f, d) {
      RecoveryWasOwed(f, c, step, d);
    }
  }

  lemma {:induction false} RunKeepsOnline(f: Fleet, c: Config, steps: seq<Step>, d: string, user: string)
    requires SweepsSound(f, c) && Runs(f, c, steps) && Watches(c, d, user)
    requires OnlineHolds(f, d, user) && AllTimely(f, c, steps, d)
    ensures OnlineHolds(RunTo(f, c, steps), d, user)
    decreases |steps|
  {
    if steps == [] {
    } else {
      StepKeepsOnline(f, c, steps[0], d, user);
      StepKeepsSweeps(f, c, steps[0]);
      RunKeepsOnline(StepTo(f, c, steps[0]), c, steps[1..], d, user);
    }
  }

  /** What an ONLINE entry is worth, whatever overlaps: if every recovery is reported before a sweep marks
      the device again, a device that is OFFLINE though its user was last told ONLINE is one that a
      sweep past its update has yet to report. */
  lemma OnlineEntriesHold(f: Fleet, c: Config, steps: seq<Step>, d: string, user: string)
    requires f.log == [] && f.pending == [] && f.incoming == [] && Runs(f, c, steps) && AllTimely(f, c, steps, d)
    requires Watches(c, d, user) && LastOnline(Told(RunTo(f, c, steps).log, d, user))
    ensures Alive(RunTo(f, c, steps).devices, d) || Owes(RunTo(f, c, steps), d)
  {
    RunKeepsOnline(f, c, steps, d, user);
  }

  // ---------------------------------------------------------------- one message of a device at a time

  /** At most one message of the device is under way, and if it saw the device offline then the user was
      last told so. */
  ghost predicate AtMostOne(f: Fleet, d: string, user: string) {
    (forall j, k :: 0 <= j < k < |f.incoming| ==> !(f.incoming[j].device == d && f.incoming[k].device == d)) &&
    forall k :: 0 <= k < |f.incoming| && f.incoming[k].device == d ==>
      f.incoming[k].since <= |f.log| &&
      (f.incoming[k].seen == OFFLINE || f.incoming[k].saved ==> !LastOnline(Told(f.log, d, user)))
  }

  /** A message of the device is read when no other one is under way and no sweep has to report the
      device any more. */
  ghost predicate InTurn(f: Fleet, step: Step, d: string) {
    step.ReadStatus? && step.device == d ==>
      (forall k :: 0 <= k < |f.incoming| ==> f.incoming[k].device != d) && !Owes(f, d)
  }

  ghost predicate AllInTurn(f: Fleet, c: Config, steps: seq<Step>, d: string)
    decreases |steps|
  {
    steps == [] || (InTurn(f, steps[0], d) && AllInTurn(StepTo(f, c, steps[0]), c, steps[1..], d))
  }

  lemma InTurnStep(f: Fleet, c: Config, step: Step, d: string, user: string)
    requires OnlineHolds(f, d, user) && AtMostOne(f, d, user) && Enabled(f, c, step) && Watches(c, d, user)
    requires InTurn(f, step, d)
    ensures AtMostOne(StepTo(f, c, step), d, user)
  {
    var f' := StepTo(f, c, step);
    LogGrows(f, c, step);
    StepTells(f, c, step, d, user);
    forall k | 0 <= k < |f'.incoming| && f'.incoming[k].device == d
      ensures f'.incoming[k].since <= |f'.log|
      ensures f'.incoming[k].seen == OFFLINE || f'.incoming[k].saved ==> !LastOnline(Told(f'.log, d, user))
      ensures forall j :: 0 <= j < k ==> f'.incoming[j].device != d
    {
      if !(step.ReadStatus? && k == |f.incoming|) {
        var k' := WasIncoming(f, c, step, k);
        forall j | 0 <= j < k ensures f'.incoming[j].device != d {
          var j' := WasIncoming(f, c, step, j);
        }
      }
    }
  }

  lemma {:induction false} InTurnNeverRepeats(f: Fleet, c: Config, steps: seq<Step>, d: string, user: string)
    requires SweepsSound(f, c) && OnlineHolds(f, d, user) && ReadsPast(f) && AtMostOne(f, d, user)
    requires Runs(f, c, steps) && AllTimely(f, c, steps, d) && AllInTurn(f, c, steps, d) && Watches(c, d, user)
    ensures NeverRepeats(f, c, steps, d, user)
    decreases |steps|
  {
    if steps == [] {
    } else {
      var step := steps[0];
      if step.ReportRecovery? && f.incoming[step.k].device == d {
        RepeatsIff(f, step.k, d, user);
      }
      InTurnStep(f, c, step, d, user);
      StepKeepsOnline(f, c, step, d, user);
      StepKeepsSweeps(f, c, step);
      StepKeepsReads(f, c, step);
      InTurnNeverRepeats(StepTo(f, c, step), c, steps[1..], d, user);
    }
  }

  /** So the order is kept if a message of a device waits for the one before it and for the report of a
      sweep that has marked the device, and a sweep marks no device with a recovery to report. */
  lemma OfflineBetweenOnline(f: Fleet, c: Config, steps: seq<Step>, d: string, user: string)
    requires f.log == [] && f.pending == [] && f.incoming == [] && f.reports == [] && Runs(f, c, steps)
    requires AllTimely(f, c, steps, d) && AllInTurn(f, c, steps, d) && Watches(c, d, user)
    ensures NoTwoOnline(Told(RunTo(f, c, steps).log, d, user))
  {
    InTurnNeverRepeats(f, c, steps, d, user);
    OfflineBetweenOnlineIff(f, c, steps, d, user);
  }

  // ---------------------------------------------------------------- reports out of turn

  /** A payload with a value for every metric. */
  const COMPLETE: map<string, Reading> :=
    map["pm25" := Num(1.0), "pm10" := Num(1.0), "tvoc" := Num(1.0), "co2" := Num(1.0),
        "temperature" := Num(1.0), "humidity" := Num(1.0), "noise" := Num(1.0), "aqi" := Num(1.0)]

  lemma CompleteIsOnline()
    ensures NewStatus(COMPLETE) == ONLINE
  {
    forall m | m in METRICS ensures Sanitize(ReadingOf(COMPLETE, m), m == "temperature").Some? {
      assert m in COMPLETE;
    }
  }

  /** What a message of the device, first in line, does to the log of its user. */
  lemma SaveRecovers(f: Fleet, c: Config, k: nat, now: int)
    requires k < |f.incoming| && !f.incoming[k].saved && f.incoming[k].seen == OFFLINE && f.incoming[k].dto == COMPLETE
    requires f.clock <= now && Accepts(f, f.incoming[k].device, now)
    ensures var d := f.incoming[k].device;
            Enabled(f, c, Save(k, now)) && StepTo(f, c, Save(k, now)) ==
            f.(devices := f.devices[d := f.devices[d].(status := ONLINE, heartbeat := Some(now))],
               telemetry := f.telemetry + {(d, now)}, clock := now,
               incoming := f.incoming[k := f.incoming[k].(saved := true)])
  {
    CompleteIsOnline();
  }

  /** Both read the status before either saves. */
  function TwoMessages(d: string, now: int): seq<Step> {
    [ReadStatus(d, COMPLETE)] + ([ReadStatus(d, COMPLETE)] + ([Save(0, now)] + ([Save(1, now + 1)] + BothReport())))
  }

  function BothReport(): seq<Step> {
    [ReportRecovery(0)] + ([ReportRecovery(0)] + [])
  }

  lemma BothAreTold(f: Fleet, c: Config, d: string, user: string)
    requires |f.incoming| == 2 && f.incoming[0] == f.incoming[1] && f.incoming[0].device == d && f.incoming[0].saved
    requires Watches(c, d, user)
    ensures Runs(f, c, BothReport())
    ensures Told(RunTo(f, c, BothReport()).log, d, user) ==
            Told(f.log, d, user) + [Entry(d, user, WentOnline)] + [Entry(d, user, WentOnline)]
  {
    var f1 := StepTo(f, c, ReportRecovery(0));
    StepTells(f, c, ReportRecovery(0), d, user);
    StepTells(f1, c, ReportRecovery(0), d, user);
    OneMore(f1, c, ReportRecovery(0), []);
    OneMore(f, c, ReportRecovery(0), [ReportRecovery(0)] + []);
  }

  /** Whatever the fleet: two messages of an offline device that overlap both report its recovery. */
  lemma OverlappingRecoveries(f: Fleet, c: Config, d: string, now: int, user: string)
    requires Known(f, d) && f.devices[d].status == OFFLINE && f.incoming == [] && Watches(c, d, user)
    requires f.clock <= now && (d, now) !in f.telemetry && (d, now + 1) !in f.telemetry
    ensures Runs(f, c, TwoMessages(d, now))
    ensures Told(RunTo(f, c, TwoMessages(d, now)).log, d, user) ==
            Told(f.log, d, user) + [Entry(d, user, WentOnline)] + [Entry(d, user, WentOnline)]
    ensures !NoTwoOnline(Told(RunTo(f, c, TwoMessages(d, now)).log, d, user))
  {
    var m := Incoming(d, COMPLETE, OFFLINE, |f.log|, false);
    var f1, f2 := f.(incoming := [m]), f.(incoming := [m, m]);
    assert StepTo(f, c, ReadStatus(d, COMPLETE)) == f1 && StepTo(f1, c, ReadStatus(d, COMPLETE)) == f2;
    var f3 := StepTo(f2, c, Save(0, now));
    SaveRecovers(f2, c, 0, now);
    var f4 := StepTo(f3, c, Save(1, now + 1));
    SaveRecovers(f3, c, 1, now + 1);
    BothAreTold(f4, c, d, user);
    OneMore(f3, c, Save(1, now + 1), BothReport());
    OneMore(f2, c, Save(0, now), [Save(1, now + 1)] + BothReport());
    OneMore(f1, c, ReadStatus(d, COMPLETE), [Save(0, now)] + ([Save(1, now + 1)] + BothReport()));
    OneMore(f, c, ReadStatus(d, COMPLETE),
            [ReadStatus(d, COMPLETE)] + ([Save(0, now)] + ([Save(1, now + 1)] + BothReport())));
    TwiceAtTheEnd(Told(f.log, d, user), Entry(d, user, WentOnline));
  }

  /** The sweep marks the device, one message of it is handled, and then the sweep reports the device. */
  function RecoveryFirst(d: string, now: int, dead: seq<string>): seq<Step> {
    [ReadDead(now, dead)] + ([Mark(0)] + ([ReadStatus(d, COMPLETE)] + ([Save(0, now)] + LateReport())))
  }

  function LateReport(): seq<Step> {
    [ReportRecovery(0)] + ([ReportNext(0)] + [])
  }

  lemma LateReportTells(f: Fleet, c: Config, d: string, user: string)
    requires |f.incoming| == 1 && f.incoming[0].device == d && f.incoming[0].saved && Watches(c, d, user)
    requires |f.reports| == 1 && f.reports[0] != [] && f.reports[0][0] == d
    ensures Runs(f, c, LateReport()) && RunTo(f, c, LateReport()).devices == f.devices
    ensures Told(RunTo(f, c, LateReport()).log, d, user) ==
            Told(f.log, d, user) + [Entry(d, user, WentOnline)] + [Entry(d, user, WentOffline)]
  {
    var f1 := StepTo(f, c, ReportRecovery(0));
    StepTells(f, c, ReportRecovery(0), d, user);
    StepTells(f1, c, ReportNext(0), d, user);
    OneMore(f1, c, ReportNext(0), []);
    OneMore(f, c, ReportRecovery(0), [ReportNext(0)] + []);
  }

  /** Whatever the fleet: with one message and one sweep, a message handled between the sweep's update and
      its report tells ONLINE before OFFLINE is told. A user who was last told ONLINE is told ONLINE
      again, and then, with the device online, OFFLINE. */
  lemma RecoveryBeforeReport(f: Fleet, c: Config, d: string, now: int, dead: seq<string>, user: string)
    requires ListsDead(f, now - c.timeout, dead) && dead != [] && dead[0] == d && Watches(c, d, user)
    requires f.incoming == [] && f.pending == [] && f.reports == [] && f.clock <= now && (d, now) !in f.telemetry
    ensures Runs(f, c, RecoveryFirst(d, now, dead))
    ensures var end := RunTo(f, c, RecoveryFirst(d, now, dead));
            d in end.devices && end.devices[d].status == ONLINE &&
            Told(end.log, d, user) == Told(f.log, d, user) + [Entry(d, user, WentOnline)] + [Entry(d, user, WentOffline)] &&
            (LastOnline(Told(f.log, d, user)) ==> !NoTwoOnline(Told(end.log, d, user)))
  {
    assert d in dead && Dead(f.devices[d], now - c.timeout);
    var f1 := StepTo(f, c, ReadDead(now, dead));
    var f2 := StepTo(f1, c, Mark(0));
    assert f2.reports == [dead] && f2.incoming == [] && f2.log == f.log && f2.clock == now && Known(f2, d);
    var f3 := StepTo(f2, c, ReadStatus(d, COMPLETE));
    assert f3.incoming == [Incoming(d, COMPLETE, OFFLINE, |f.log|, false)];
    var f4 := StepTo(f3, c, Save(0, now));
    SaveRecovers(f3, c, 0, now);
    LateReportTells(f4, c, d, user);
    OneMore(f3, c, Save(0, now), LateReport());
    OneMore(f2, c, ReadStatus(d, COMPLETE), [Save(0, now)] + LateReport());
    OneMore(f1, c, Mark(0), [ReadStatus(d, COMPLETE)] + ([Save(0, now)] + LateReport()));
    OneMore(f, c, ReadDead(now, dead), [Mark(0)] + ([ReadStatus(d, COMPLETE)] + ([Save(0, now)] + LateReport())));
    OnlineAgain(Told(f.log, d, user), Entry(d, user, WentOnline), Entry(d, user, WentOffline));
  }

  lemma OnlineAgain(told: seq<Entry>, e: Entry, last: Entry)
    requires e.kind == WentOnline
    ensures LastOnline(told) ==> !NoTwoOnline(told + [e] + [last])
  {
    if LastOnline(told) {
      var n, all := |told|, told + [e] + [last];
      assert all[n - 1] == told[n - 1] && all[n - 1 + 1] == e;
    }
  }

  lemma TwiceAtTheEnd(told: seq<Entry>, e: Entry)
    requires e.kind == WentOnline
    ensures !NoTwoOnline(told + [e] + [e])
  {
    var n, all := |told|, told + [e] + [e];
    assert all[n] == e && all[n + 1] == e;
  }

  // ---------------------------------------------------------------- what a sweep marks and reports

  predicate Marks(f: Fleet, s: Sweep, d: string) {
    d in f.devices && Dead(f.devices[d], s.cutoff)
  }

  ghost predicate Reports(f: Fleet, c: Config, s: Sweep, d: string, user: string) {
    Told(WriteSweep(f, c, s).log, d, user) != Told(f.log, d, user)
  }

  lemma ReportsIff(f: Fleet, c: Config, s: Sweep, d: string, user: string)
    requires Watches(c, d, user)
    ensures Reports(f, c, s, d, user) <==> d in s.dead && exists k :: Marks(f, s, k)
  {
    var told, more := Told(f.log, d, user), Told(OfflineEntries(c, s.dead), d, user);
    assert f.log + [] == f.log;
    if s.dead != [] && exists k :: Marks(f, s, k) {
      var k :| Marks(f, s, k);
      assert k in f.devices && Dead(f.devices[k], s.cutoff);
      ToldMore(f.log, OfflineEntries(c, s.dead), d, user);
      SweepTells(c, s.dead, d, user);
      assert told + more == told <==> more == [];
    } else if s.dead != [] {
      assert forall k :: k in f.devices && Dead(f.devices[k], s.cutoff) ==> Marks(f, s, k);
    }
  }

  /** The second phase of a sweep reports exactly the devices it marks, if and only if it marks nothing
      or every watched device on its list is still dead. */
  lemma SweepReportsWhatItMarksIff(f: Fleet, c: Config, s: Sweep)
    requires PendingCovers(f, s)
    ensures (forall d, user :: Watches(c, d, user) ==> (Reports(f, c, s, d, user) <==> Marks(f, s, d))) <==>
            (forall d :: !Marks(f, s, d)) || forall d, user :: d in s.dead && Watches(c, d, user) ==> Marks(f, s, d)
  {
    forall d, user | Watches(c, d, user)
      ensures Reports(f, c, s, d, user) <==> d in s.dead && exists k :: Marks(f, s, k)
    {
      ReportsIff(f, c, s, d, user);
    }
  }

  /** So an undisturbed sweep does. */
  lemma WholeSweepReportsWhatItMarks(f: Fleet, c: Config, now: int, dead: seq<string>, d: string, user: string)
    requires ListsDead(f, now - c.timeout, dead) && Watches(c, d, user)
    ensures Reports(f, c, Sweep(now - c.timeout, dead), d, user) <==> Marks(f, Sweep(now - c.timeout, dead), d)
  {
    SweepReportsWhatItMarksIff(f, c, Sweep(now - c.timeout, dead));
  }

  function ReportAll(n: nat): seq<Step> {
    if n == 0 then [] else [ReportNext(0)] + ReportAll(n - 1)
  }

  lemma {:induction false} ReportsAlone(f: Fleet, c: Config)
    requires |f.reports| == 1
    ensures Runs(f, c, ReportAll(|f.reports[0]|))
    ensures RunTo(f, c, ReportAll(|f.reports[0]|)) ==
            f.(log := f.log + OfflineEntries(c, f.reports[0]), reports := [[]])
    decreases |f.reports[0]|
  {
    var dead := f.reports[0];
    if dead == [] {
      assert f.log + [] == f.log && f.reports == [[]];
    } else {
      var f' := StepTo(f, c, ReportNext(0));
      ReportsAlone(f', c);
      OneMore(f, c, ReportNext(0), ReportAll(|dead| - 1));
      Assoc(f.log, EntriesFor(dead[0], UsersOf(c, dead[0]), WentOffline), OfflineEntries(c, dead[1..]));
    }
  }

  /** An update and its reports, if there are any. */
  ghost function UpdateAndReport(f: Fleet, s: Sweep): seq<Step> {
    [Mark(0)] + ReportAll(if s.dead != [] && exists d :: Marks(f, s, d) then |s.dead| else 0)
  }

  /** The steps of a sweep's second phase, with nothing in between. */
  lemma SweepAlone(f: Fleet, c: Config, s: Sweep)
    requires f.pending == [s] && f.reports == []
    ensures Runs(f, c, UpdateAndReport(f, s))
    ensures var end := RunTo(f, c, UpdateAndReport(f, s));
            end.(reports := []) == WriteSweep(f, c, s).(pending := []) && forall r <- end.reports :: r == []
  {
    var f' := StepTo(f, c, Mark(0));
    assert (exists d :: Marks(f, s, d)) <==> exists d :: d in f.devices && Dead(f.devices[d], s.cutoff) by {
      if d :| d in f.devices && Dead(f.devices[d], s.cutoff) {
        assert Marks(f, s, d);
      }
    }
    if s.dead != [] && exists d :: Marks(f, s, d) {
      ReportsAlone(f', c);
      OneMore(f, c, Mark(0), ReportAll(|s.dead|));
    } else {
      assert f.log + [] == f.log && f.reports + [] == f.reports;
      OneMore(f, c, Mark(0), []);
    }
  }

  /** The sweep lists the dead devices, one of them is heard of, and the sweep goes on. */
  function RevivedMeanwhile(d: string, now: int, dead: seq<string>): seq<Step> {
    [ReadDead(now, dead)] + ([ReadStatus(d, COMPLETE)] + ([Save(0, now)] + ([Mark(0)] + ReportAll(|dead|))))
  }

  lemma RevivedSave(f: Fleet, c: Config, d: string, now: int)
    requires |f.incoming| == 1 && !f.incoming[0].saved && f.incoming[0].seen != OFFLINE
    requires f.incoming[0].device == d && f.incoming[0].dto == COMPLETE
    requires d in f.devices && (d, now) !in f.telemetry && |f.pending| == 1
    ensures var f' := StepTo(f, c, Save(0, now));
            f'.log == f.log && f'.pending == f.pending && f'.clock == now && f'.reports == f.reports &&
            f'.devices == f.devices[d := f.devices[d].(status := ONLINE, heartbeat := Some(now))]
  {
    CompleteIsOnline();
  }

  lemma ReportsAlive(f: Fleet, c: Config, s: Sweep, d: string, other: string, user: string)
    requires d in f.devices && f.devices[d].heartbeat.Some? && f.devices[d].heartbeat.value >= s.cutoff
    requires other in f.devices && Dead(f.devices[other], s.cutoff) && d in s.dead && Watches(c, d, user)
    ensures var told, told' := Told(f.log, d, user), Told(WriteSweep(f, c, s).log, d, user);
            WriteSweep(f, c, s).devices[d] == f.devices[d] && |told'| > |told| && told'[|told'| - 1].kind == WentOffline
  {
    ToldMore(f.log, OfflineEntries(c, s.dead), d, user);
    SweepTells(c, s.dead, d, user);
  }

  lemma SaveThenSweep(f: Fleet, c: Config, s: Sweep, other: string, now: int) returns (f': Fleet)
    requires |f.incoming| == 1 && !f.incoming[0].saved && f.incoming[0].seen != OFFLINE && f.incoming[0].dto == COMPLETE
    requires f.incoming[0].device in f.devices && (f.incoming[0].device, now) !in f.telemetry && f.clock <= now
    requires f.pending == [s] && f.reports == [] && s.dead != []
    requires other != f.incoming[0].device && other in f.devices && Dead(f.devices[other], s.cutoff)
    ensures var steps := [Save(0, now)] + ([Mark(0)] + ReportAll(|s.dead|));
            Runs(f, c, steps) && RunTo(f, c, steps).(reports := []) == WriteSweep(f', c, s).(pending := [])
    ensures var d := f.incoming[0].device;
            f'.log == f.log && f'.devices == f.devices[d := f.devices[d].(status := ONLINE, heartbeat := Some(now))]
  {
    f' := StepTo(f, c, Save(0, now));
    RevivedSave(f, c, f.incoming[0].device, now);
    assert Marks(f', s, other);
    SweepAlone(f', c, s);
    OneMore(f, c, Save(0, now), [Mark(0)] + ReportAll(|s.dead|));
  }

  lemma RevivedRun(f: Fleet, c: Config, d: string, other: string, now: int, dead: seq<string>) returns (f3: Fleet)
    requires ListsDead(f, now - c.timeout, dead) && d in dead && other in dead && other != d
    requires f.incoming == [] && f.pending == [] && f.reports == [] && f.clock <= now && (d, now) !in f.telemetry
    ensures Runs(f, c, RevivedMeanwhile(d, now, dead))
    ensures RunTo(f, c, RevivedMeanwhile(d, now, dead)).(reports := []) ==
            WriteSweep(f3, c, Sweep(now - c.timeout, dead)).(pending := [])
    ensures f3.log == f.log && d in f.devices
    ensures f3.devices == f.devices[d := f.devices[d].(status := ONLINE, heartbeat := Some(now))]
  {
    var s, m := Sweep(now - c.timeout, dead), Incoming(d, COMPLETE, f.devices[d].status, |f.log|, false);
    var f1, f2 := f.(clock := now, pending := [s]), f.(clock := now, pending := [s], incoming := [m]);
    assert StepTo(f, c, ReadDead(now, dead)) == f1 && StepTo(f1, c, ReadStatus(d, COMPLETE)) == f2;
    f3 := SaveThenSweep(f2, c, s, other, now);
    var rest := [Save(0, now)] + ([Mark(0)] + ReportAll(|dead|));
    OneMore(f1, c, ReadStatus(d, COMPLETE), rest);
    OneMore(f, c, ReadDead(now, dead), [ReadStatus(d, COMPLETE)] + rest);
  }

  /** Whatever the fleet: the device is online in the end, and its users have just been told that it is
      offline, if another device of the list is still dead. */
  lemma SweepReportsRevived(f: Fleet, c: Config, d: string, other: string, now: int, dead: seq<string>, user: string)
    requires ListsDead(f, now - c.timeout, dead) && d in dead && other in dead && other != d && Watches(c, d, user)
    requires f.incoming == [] && f.pending == [] && f.reports == [] && f.clock <= now && (d, now) !in f.telemetry
    ensures Runs(f, c, RevivedMeanwhile(d, now, dead))
    ensures var end := RunTo(f, c, RevivedMeanwhile(d, now, dead));
            d in end.devices && end.devices[d].status == ONLINE &&
            |Told(end.log, d, user)| > |Told(f.log, d, user)| &&
            Told(end.log, d, user)[|Told(end.log, d, user)| - 1].kind == WentOffline
  {
    var f3 := RevivedRun(f, c, d, other, now, dead);
    assert other in f3.devices && Dead(f3.devices[other], now - c.timeout);
    ReportsAlive(f3, c, Sweep(now - c.timeout, dead), d, other, user);
  }

  /** Two devices that have both been silent for a millisecond longer than the timeout of five minutes. */
  lemma SweepReportsRevivedAtInput(d: string, other: string, user: string)
    requires d != other
    ensures var rows := map[d := DeviceRow(ONLINE, Some(0), false), other := DeviceRow(ONLINE, Some(0), false)];
            var f, c := Fleet(rows, {}, [], [], [], [], 0), Config(300000, map[d := [user]]);
            var end := RunTo(f, c, RevivedMeanwhile(d, 300001, [d, other]));
            Runs(f, c, RevivedMeanwhile(d, 300001, [d, other])) &&
            d in end.devices && end.devices[d].status == ONLINE && Told(end.log, d, user) != []
  {
    var rows := map[d := DeviceRow(ONLINE, Some(0), false), other := DeviceRow(ONLINE, Some(0), false)];
    var f, c := Fleet(rows, {}, [], [], [], [], 0), Config(300000, map[d := [user]]);
    assert ListsDead(f, 1, [d, other]);
    SweepReportsRevived(f, c, d, other, 300001, [d, other], user);
  }

  // ---------------------------------------------------------------- detection in time

  /** Scheduler period: half the telemetry interval, at least five seconds (in milliseconds). */
  function Period(intervalSeconds: nat): (p: nat)
    ensures p % 1000 == 0 && if intervalSeconds < 12 then p == 5000 else p <= 500 * intervalSeconds < p + 1000
  {
    1000 * if intervalSeconds / 2 > 5 then intervalSeconds / 2 else 5
  }

  lemma SweepInstant(start: int, period: nat, deadline: int) returns (k: nat)
    requires period > 0 && start <= deadline
    ensures deadline < start + k * period <= deadline + period
  {
    k := (deadline - start) / period + 1;
    DivisionStep(deadline - start, period);
  }

  lemma DivisionStep(x: nat, period: nat)
    requires period > 0
    ensures x < (x / period + 1) * period <= x + period
  {
    assert x == x / period * period + x % period;
  }

  /** A device heard of last at h, or already marked. */
  ghost predicate SilentSince(f: Fleet, d: string, h: int) {
    d in f.devices && !f.devices[d].deleted && f.devices[d].heartbeat == Some(h)
  }

  predicate Disturbs(f: Fleet, step: Step, d: string) {
    match step
    case Save(k, _) => k < |f.incoming| && f.incoming[k].device == d
    case DoDelete(d') => d' == d
    case _ => false
  }

  /** Nothing is saved for the device, and it is not deleted. */
  ghost predicate Undisturbed(f: Fleet, c: Config, steps: seq<Step>, d: string)
    decreases |steps|
  {
    steps == [] || (!Disturbs(f, steps[0], d) && Undisturbed(StepTo(f, c, steps[0]), c, steps[1..], d))
  }

  /** Some step of the run is the update of a sweep with this cutoff. */
  ghost predicate Updates(f: Fleet, c: Config, steps: seq<Step>, cutoff: int)
    decreases |steps|
  {
    steps != [] &&
    ((steps[0].Mark? && steps[0].k < |f.pending| && f.pending[steps[0].k].cutoff == cutoff) ||
     Updates(StepTo(f, c, steps[0]), c, steps[1..], cutoff))
  }

  lemma {:induction false} SilentGoesOffline(f: Fleet, c: Config, steps: seq<Step>, d: string, h: int, cutoff: int)
    requires SilentSince(f, d, h) && Runs(f, c, steps) && Undisturbed(f, c, steps, d) && SweepsSound(f, c)
    requires f.devices[d].status == OFFLINE || (h < cutoff && Updates(f, c, steps, cutoff))
    ensures SilentSince(RunTo(f, c, steps), d, h) && RunTo(f, c, steps).devices[d].status == OFFLINE
    decreases |steps|
  {
    if steps == [] {
    } else {
      var f' := StepTo(f, c, steps[0]);
      assert SilentSince(f', d, h);
      StepKeepsSweeps(f, c, steps[0]);
      SilentGoesOffline(f', c, steps[1..], d, h, cutoff);
    }
  }

  /** Detection in time: if a sweep begins every period from start on, a device heard of last at h is
      OFFLINE once the sweeps that began by h + timeout + period have made their update, whatever comes
      between the read and the update of a sweep. */
  lemma DetectedInTime(f: Fleet, c: Config, steps: seq<Step>, d: string, h: int, start: int, intervalSeconds: nat)
    requires SilentSince(f, d, h) && Runs(f, c, steps) && Undisturbed(f, c, steps, d) && SweepsSound(f, c)
    requires start <= h + c.timeout
    requires forall k: nat :: start + k * Period(intervalSeconds) <= h + c.timeout + Period(intervalSeconds) ==>
               Updates(f, c, steps, start + k * Period(intervalSeconds) - c.timeout)
    ensures d in RunTo(f, c, steps).devices && RunTo(f, c, steps).devices[d].status == OFFLINE
  {
    var k := SweepInstant(start, Period(intervalSeconds), h + c.timeout);
    SilentGoesOffline(f, c, steps, d, h, start + k * Period(intervalSeconds) - c.timeout);
  }

  // ---------------------------------------------------------------- which messages bring a device online

  /** A number other than zero. */
  predicate Measured(dto: map<string, Reading>, metric: string) {
    metric in dto && dto[metric].Num? && dto[metric].value != 0.0
  }

  /** All eight metrics; a temperature may be zero. */
  predicate Complete(dto: map<string, Reading>) {
    Measured(dto, "pm25") && Measured(dto, "pm10") && Measured(dto, "tvoc") && Measured(dto, "co2") &&
    Measured(dto, "humidity") && Measured(dto, "noise") && Measured(dto, "aqi") &&
    "temperature" in dto && dto["temperature"].Num?
  }

  predicate Kept(dto: map<string, Reading>, m: string) {
    Sanitize(ReadingOf(dto, m), m == "temperature").Some?
  }

  lemma KeptIff(dto: map<string, Reading>, m: string)
    ensures Kept(dto, m) <==> if m == "temperature" then m in dto && dto[m].Num? else Measured(dto, m)
  {
  }

  lemma OnlineIffKept(dto: map<string, Reading>)
    ensures NewStatus(dto) == ONLINE <==>
            Kept(dto, METRICS[0]) && Kept(dto, METRICS[1]) && Kept(dto, METRICS[2]) && Kept(dto, METRICS[3]) &&
            Kept(dto, METRICS[4]) && Kept(dto, METRICS[5]) && Kept(dto, METRICS[6]) && Kept(dto, METRICS[7])
  {
    assert forall m :: m in METRICS ==> exists i :: 0 <= i < 8 && METRICS[i] == m;
    assert NewStatus(dto) == ONLINE <==> forall m <- METRICS :: Kept(dto, m);
  }

  lemma OnlineIffComplete(dto: map<string, Reading>)
    ensures NewStatus(dto) == if Complete(dto) then ONLINE else WARNING
  {
    OnlineIffKept(dto);
    KeptIff(dto, "pm25");
    KeptIff(dto, "pm10");
    KeptIff(dto, "tvoc");
    KeptIff(dto, "co2");
    KeptIff(dto, "temperature");
    KeptIff(dto, "humidity");
    KeptIff(dto, "noise");
    KeptIff(dto, "aqi");
  }

  /** After every run: what saving a message makes of its device, and whether a recovery is to be reported,
      by the readings and the status that was read. */
  lemma SavedIffComplete(f: Fleet, c: Config, k: nat, now: int)
    requires k < |f.incoming| && f.incoming[k].device in f.devices && (f.incoming[k].device, now) !in f.telemetry
    ensures var m, f' := f.incoming[k], StepTo(f, c, Save(k, now));
            f'.devices == f.devices[m.device := DeviceRow(if Complete(m.dto) then ONLINE else WARNING, Some(now),
                                                          f.devices[m.device].deleted)] &&
            f'.telemetry == f.telemetry + {(m.device, now)} && f'.log == f.log && f'.clock == now &&
            f'.incoming == if m.seen == OFFLINE && Complete(m.dto) then f.incoming[k := m.(saved := true)]
                           else f.incoming[..k] + f.incoming[k + 1..]
  {
    OnlineIffComplete(f.incoming[k].dto);
  }

  // ---------------------------------------------------------------- the services

  class FleetTables {
    var devices: map<string, DeviceRow>
    var telemetry: set<(string, int)>
    var log: seq<Entry>
    const timeout: nat
    const watchers: map<string, seq<string>>

    constructor (devices: map<string, DeviceRow>, timeout: nat, watchers: map<string, seq<string>>)
      ensures this.devices == devices && log == [] && telemetry == {}
      ensures this.timeout == timeout && this.watchers == watchers
    {
      this.devices, this.timeout, this.watchers := devices, timeout, watchers;
      telemetry, log := {}, [];
    }

    function F(incoming: seq<Incoming>, pending: seq<Sweep>, clock: int): Fleet
      reads this
    {
      Fleet(devices, telemetry, log, incoming, pending, [], clock)
    }

    /** One event log row per assigned user. */
    method Notify(d: string, kind: Kind)
      modifies this`log
      ensures log == old(log) + EntriesFor(d, UsersOf(Config(timeout, watchers), d), kind)
    {
      var users := if d in watchers then watchers[d] else [];
      ghost var all := EntriesFor(d, users, kind);
      assert log + all[..0] == log;
      for i := 0 to |users|
        invariant log == old(log) + all[..i]
      {
        log := log + [Entry(d, users[i], kind)];
      }
      assert all[..|users|] == all;
    }

    /** What handling a message begins with: messages without an ID and of unknown or deleted devices
        end here. since is the length of the log. */
    method ReadDevice(d: string, dto: map<string, Reading>, hasMessageId: bool) returns (m: Option<Incoming>)
      ensures m == if hasMessageId && Known(F([], [], 0), d) then Some(Incoming(d, dto, devices[d].status, |log|, false)) else None
    {
      if d !in devices || devices[d].deleted || !hasMessageId {
        return None;
      }
      m := Some(Incoming(d, dto, devices[d].status, |log|, false));
    }

    /** The transaction, and the entries of a recovery by the status that was read, with nothing in
        between. */
    method SaveTelemetry(m: Incoming, now: int)
      requires m.device in devices && !m.saved
      modifies this
      ensures var f := StepTo(old(F([m], [], now)), Config(timeout, watchers), Save(0, now));
              F([], [], now) == if f.incoming == [] then f else StepTo(f, Config(timeout, watchers), ReportRecovery(0))
    {
      var d, newStatus := m.device, NewStatus(m.dto);
      if (d, now) in telemetry {
        return;
      }
      telemetry := telemetry + {(d, now)};
      devices := devices[d := devices[d].(status := newStatus, heartbeat := Some(now))];
      if m.seen == OFFLINE && newStatus == ONLINE {
        Notify(d, WentOnline);
      }
    }

    /** A message handled with nothing in between. */
    method HandleTelemetry(d: string, dto: map<string, Reading>, hasMessageId: bool, now: int)
      modifies this
      ensures var c, f := Config(timeout, watchers), old(F([], [], now));
              var saved := StepTo(StepTo(f, c, ReadStatus(d, dto)), c, Save(0, now));
              F([], [], now) ==
              if !hasMessageId || !Known(f, d) then f
              else if saved.incoming == [] then saved
              else StepTo(saved, c, ReportRecovery(0))
      ensures if hasMessageId && d in old(devices) && !old(devices)[d].deleted && (d, now) !in old(telemetry) then
                devices == old(devices)[d := DeviceRow(if Complete(dto) then ONLINE else WARNING, Some(now), false)] &&
                telemetry == old(telemetry) + {(d, now)} &&
                log == old(log) + if old(devices)[d].status == OFFLINE && Complete(dto) && d in watchers
                                  then seq(|watchers[d]|, i requires 0 <= i < |watchers[d]| => Entry(d, watchers[d][i], WentOnline))
                                  else []
              else devices == old(devices) && telemetry == old(telemetry) && log == old(log)
    {
      OnlineIffComplete(dto);
      var m := ReadDevice(d, dto, hasMessageId);
      if m.Some? {
        SaveTelemetry(m.value, now);
      }
    }

    /** The first query of a sweep. */
    method ReadDeadDevices(now: int) returns (cutoff: int, dead: seq<string>)
      ensures cutoff == now - timeout && ListsDead(F([], [], now), cutoff, dead)
      ensures forall d :: d in dead <==>
                d in devices && !devices[d].deleted && devices[d].status != OFFLINE &&
                devices[d].heartbeat.Some? && now - devices[d].heartbeat.value > timeout
      ensures forall i, j :: 0 <= i < j < |dead| ==> dead[i] != dead[j]
    {
      cutoff := now - timeout;
      var todo := set d | d in devices && Dead(devices[d], cutoff);
      dead := [];
      while todo != {}
        invariant NoDup(dead) && forall d :: d in dead ==> d !in todo
        invariant forall d :: d in dead || d in todo <==> d in devices && Dead(devices[d], cutoff)
        decreases |todo|
      {
        var d :| d in todo;
        dead := dead + [d];
        todo := todo - {d};
      }
    }

    /** A sweep with nothing in between. */
    method CheckOfflineDevices(now: int)
      modifies this
      ensures exists s: Sweep ::
        s.cutoff == now - timeout && ListsDead(old(F([], [], now)), s.cutoff, s.dead) &&
        F([], [], now) == WriteSweep(old(F([], [], now)), Config(timeout, watchers), s)
    {
      var cutoff, dead := ReadDeadDevices(now);
      ghost var s := Sweep(cutoff, dead);
      MarkAndReportDead(cutoff, dead);
      assert F([], [], now) == WriteSweep(old(F([], [], now)), Config(timeout, watchers), s);
    }

    /** The second query of a sweep and its reports. */
    method MarkAndReportDead(cutoff: int, dead: seq<string>)
      modifies this
      ensures F([], [], 0) == WriteSweep(old(F([], [], 0)), Config(timeout, watchers), Sweep(cutoff, dead))
      ensures devices.Keys == old(devices.Keys) && telemetry == old(telemetry)
      ensures forall d :: d in devices ==>
                devices[d] == if dead != [] && !old(devices)[d].deleted && old(devices)[d].heartbeat.Some? &&
                                 old(devices)[d].heartbeat.value < cutoff
                              then old(devices)[d].(status := OFFLINE) else old(devices)[d]
    {
      if |dead| == 0 {
        return;
      }
      var marked := set d | d in devices && Dead(devices[d], cutoff);
      devices := MarkOffline(devices, cutoff);
      if |marked| > 0 {
        assert exists d :: d in old(devices) && Dead(old(devices)[d], cutoff) by {
          var d :| d in marked;
        }
        ghost var c := Config(timeout, watchers);
        assert dead[0..] == dead;
        for i := 0 to |dead|
          invariant log + OfflineEntries(c, dead[i..]) == old(log) + OfflineEntries(c, dead)
          invariant devices == MarkOffline(old(devices), cutoff) && telemetry == old(telemetry)
        {
          ghost var entries := EntriesFor(dead[i], UsersOf(c, dead[i]), WentOffline);
          assert dead[i..][1..] == dead[i + 1..];
          Assoc(log, entries, OfflineEntries(c, dead[i + 1..]));
          Notify(dead[i], WentOffline);
        }
        assert log + [] == log;
      } else {
        assert forall d :: d in old(devices) && Dead(old(devices)[d], cutoff) ==> d in marked;
      }
    }
  }
}
