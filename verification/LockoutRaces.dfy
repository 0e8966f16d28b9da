/** The failure lockout under concurrent attempts of one identifier. An attempt looks for the lockout
    key first and records its failure later, command by command; attempts interleave at every one. */
module LockoutRaces {
  import opened Common
  import opened Limiters

  /** At most inFlight attempts run at a time. */
  datatype Config = Config(maxAttempts: int, ttl: nat, inFlight: nat) {
    /** At least one failure is needed to lock. */
    function Cap(): (cap: nat)
      ensures cap >= 1
    {
      Max(1, maxAttempts)
    }
  }

  /** The two keys, the clock, and how many attempts in flight are past the check, owe the counter its
      expiry, owe the lockout key, or owe the deletion of the counter. */
  datatype Lockouts = Lockouts(guard: Guard, clock: int, passed: nat, owesExpiry: nat, owesLock: nat, owesDrop: nat) {
    function InFlight(): nat {
      passed + owesExpiry + owesLock + owesDrop
    }
  }

  /** EXISTS of the check; INCR, EXPIRE, SET and DEL of a recorded failure. GiveUp is an attempt that
      ends without recording one, as of a restricted account. */
  datatype Command =
    | Check(now: int)
    | Count(now: int)
    | SetExpiry(now: int)
    | Lock(now: int)
    | Drop(now: int)
    | GiveUp(now: int)

  predicate Enabled(s: Lockouts, c: Command) {
    match c
    case Check(_) => true
    case Count(_) => s.passed > 0
    case SetExpiry(_) => s.owesExpiry > 0
    case Lock(_) => s.owesLock > 0
    case Drop(_) => s.owesDrop > 0
    case GiveUp(_) => s.passed > 0
  }

  function StepTo(s: Lockouts, c: Command, cfg: Config): Lockouts
    requires Enabled(s, c)
  {
    var s := s.(clock := c.now);
    match c
    case Check(now) => if Live(s.guard.lockout, now) then s else s.(passed := s.passed + 1)
    case Count(now) =>
      var counted := IncrEntry(s.guard.failures, now);
      var s' := s.(guard := s.guard.(failures := Some(counted)), passed := s.passed - 1);
      if counted.value == 1 then s'.(owesExpiry := s.owesExpiry + 1)
      else if counted.value >= cfg.maxAttempts then s'.(owesLock := s.owesLock + 1)
      else s'
    case SetExpiry(now) =>
      s.(guard := s.guard.(failures := ExpireEntry(s.guard.failures, now, cfg.ttl)),
         owesExpiry := s.owesExpiry - 1,
         owesLock := if 1 >= cfg.maxAttempts then s.owesLock + 1 else s.owesLock)
    case Lock(now) =>
      s.(guard := s.guard.(lockout := Some(Entry(1, Some(now + cfg.ttl)))),
         owesLock := s.owesLock - 1, owesDrop := s.owesDrop + 1)
    case Drop(_) => s.(guard := s.guard.(failures := None), owesDrop := s.owesDrop - 1)
    case GiveUp(_) => s.(passed := s.passed - 1)
  }

  /** The clock does not go back, and there are never more attempts in flight than allowed. */
  ghost predicate Runs(s: Lockouts, commands: seq<Command>, cfg: Config)
    decreases |commands|
  {
    s.InFlight() <= cfg.inFlight &&
    (commands == [] ||
     (s.clock <= commands[0].now && Enabled(s, commands[0]) && Runs(StepTo(s, commands[0], cfg), commands[1..], cfg)))
  }

  ghost function RunTo(s: Lockouts, commands: seq<Command>, cfg: Config): Lockouts
    requires Runs(s, commands, cfg)
    decreases |commands|
  {
    if commands == [] then s else RunTo(StepTo(s, commands[0], cfg), commands[1..], cfg)
  }

  ghost predicate Reaches(s: Lockouts, commands: seq<Command>, s': Lockouts, cfg: Config) {
    Runs(s, commands, cfg) && RunTo(s, commands, cfg) == s'
  }

  /** All in the half-open interval. */
  ghost predicate Within(commands: seq<Command>, from: int, length: int) {
    forall c <- commands :: from <= c.now < from + length
  }

  /** The failures that the commands record. */
  function Failures(commands: seq<Command>): nat {
    if commands == [] then 0 else (if commands[0].Count? then 1 else 0) + Failures(commands[1..])
  }

  lemma {:induction false} FailuresConcat(a: seq<Command>, b: seq<Command>)
    ensures Failures(a + b) == Failures(a) + Failures(b)
    decreases |a|
  {
    if a == [] {
      assert a + b == b;
    } else {
      assert (a + b)[1..] == a[1..] + b;
      FailuresConcat(a[1..], b);
    }
  }

  lemma {:induction false} Split(s: Lockouts, a: seq<Command>, b: seq<Command>, cfg: Config)
    requires Runs(s, a + b, cfg)
    ensures Runs(s, a, cfg) && Runs(RunTo(s, a, cfg), b, cfg)
    decreases |a|
  {
    if a == [] {
      assert a + b == b;
    } else {
      assert (a + b)[1..] == a[1..] + b;
      Split(StepTo(s, a[0], cfg), a[1..], b, cfg);
    }
  }

  lemma {:induction false} Then(s: Lockouts, a: seq<Command>, s': Lockouts, b: seq<Command>, s'': Lockouts, cfg: Config)
    requires Reaches(s, a, s', cfg) && Reaches(s', b, s'', cfg)
    ensures Reaches(s, a + b, s'', cfg)
    decreases |a|
  {
    if a == [] {
      assert a + b == b;
    } else {
      assert (a + b)[1..] == a[1..] + b;
      Then(StepTo(s, a[0], cfg), a[1..], s', b, s'', cfg);
    }
  }

  // ---------------------------------------------------------------- what can still be recorded

  /** How many failures the counter still takes without locking, if no more than one new window of it
      can begin before end. */
  function Room(e: Option<Entry>, end: int, cfg: Config): int {
    var below := cfg.Cap() - 1;
    match e
    case None => below
    case Some(e) =>
      Max(0, below - e.value) + if e.expiresAt.Some? && e.expiresAt.value < end then below else 0
  }

  /** Attempts that will lock. */
  function Locking(s: Lockouts, cfg: Config): nat {
    s.owesLock + if cfg.maxAttempts <= 1 then s.owesExpiry else 0
  }

  /** An upper bound on the failures recorded before end: with the lockout key alive until then only
      attempts past the check can record; otherwise the counter's room, refilled by every deletion
      still owed, and one failure for each attempt that can still reach the limit. */
  function Potential(s: Lockouts, end: int, cfg: Config): int {
    if s.guard.lockout.Some? && s.guard.lockout.value.expiresAt.Some? && end <= s.guard.lockout.value.expiresAt.value
    then s.passed
    else
      Room(s.guard.failures, end, cfg) + cfg.inFlight - Locking(s, cfg) + s.owesDrop * (cfg.Cap() - 1)
  }

  ghost predicate Counted(s: Lockouts) {
    s.guard.failures.Some? ==> s.guard.failures.value.value >= 1
  }

  lemma DropRefills(n: nat, below: nat)
    requires n >= 1
    ensures (n - 1) * below + below == n * below
  {
  }

  /** A failure uses up one unit of the potential; no other command adds to it. */
  lemma StepPotential(s: Lockouts, c: Command, end: int, cfg: Config)
    requires cfg.ttl >= 1 && Counted(s) && Enabled(s, c) && end - cfg.ttl <= c.now < end
    requires s.InFlight() <= cfg.inFlight && StepTo(s, c, cfg).InFlight() <= cfg.inFlight
    ensures var s' := StepTo(s, c, cfg);
            Counted(s') && (if c.Count? then 1 else 0) + Potential(s', end, cfg) <= Potential(s, end, cfg)
  {
    if c.Drop? {
      DropRefills(s.owesDrop, cfg.Cap() - 1);
    }
  }

  lemma PotentialIsNatural(s: Lockouts, end: int, cfg: Config)
    requires s.InFlight() <= cfg.inFlight
    ensures Potential(s, end, cfg) >= 0
  {
    assert s.owesDrop * (cfg.Cap() - 1) >= 0;
  }

  lemma {:induction false} FailuresWithin(s: Lockouts, commands: seq<Command>, end: int, cfg: Config)
    requires cfg.ttl >= 1 && Counted(s) && Runs(s, commands, cfg)
    requires Within(commands, end - cfg.ttl, cfg.ttl)
    ensures Failures(commands) <= Potential(s, end, cfg)
    decreases |commands|
  {
    if commands == [] {
      PotentialIsNatural(s, end, cfg);
    } else {
      assert commands[0] in commands;
      StepPotential(s, commands[0], end, cfg);
      FailuresWithin(StepTo(s, commands[0], cfg), commands[1..], end, cfg);
    }
  }

  lemma {:induction false} RunKeepsCounted(s: Lockouts, commands: seq<Command>, cfg: Config)
    requires Counted(s) && Runs(s, commands, cfg)
    ensures Counted(RunTo(s, commands, cfg)) && RunTo(s, commands, cfg).InFlight() <= cfg.inFlight
    decreases |commands|
  {
    if commands == [] {
    } else {
      RunKeepsCounted(StepTo(s, commands[0], cfg), commands[1..], cfg);
    }
  }

  /** With at most cfg.inFlight attempts in flight, and r deletions of the counter owed when the
      interval begins. */
  function RecordBound(r: nat, cfg: Config): nat {
    Max(0, 2 * cfg.Cap() - 3) + cfg.inFlight + r * (cfg.Cap() - 1)
  }

  lemma PotentialBelow(s: Lockouts, end: int, cfg: Config)
    requires Counted(s) && s.InFlight() <= cfg.inFlight
    ensures Potential(s, end, cfg) <= RecordBound(s.owesDrop, cfg)
  {
    assert s.owesDrop * (cfg.Cap() - 1) >= 0;
  }

  function Start(clock: int): Lockouts {
    Idle(CLEAR, clock)
  }

  /** Lockout bound under concurrency: however the commands of concurrent attempts interleave, those
      of a half-open interval of the lockout length record no more failures than that. */
  lemma LockoutBoundInFlight(clock: int, before: seq<Command>, during: seq<Command>, from: int, cfg: Config)
    requires cfg.ttl >= 1 && Runs(Start(clock), before + during, cfg)
    requires Within(during, from, cfg.ttl)
    ensures Runs(Start(clock), before, cfg)
    ensures Failures(during) <= RecordBound(RunTo(Start(clock), before, cfg).owesDrop, cfg)
  {
    Split(Start(clock), before, during, cfg);
    RunKeepsCounted(Start(clock), before, cfg);
    var s := RunTo(Start(clock), before, cfg);
    FailuresWithin(s, during, from + cfg.ttl, cfg);
    PotentialBelow(s, from + cfg.ttl, cfg);
  }

  lemma OneCommand(s: Lockouts, c: Command, cfg: Config)
    requires s.clock <= c.now && Enabled(s, c)
    requires s.InFlight() <= cfg.inFlight && StepTo(s, c, cfg).InFlight() <= cfg.inFlight
    ensures Reaches(s, [c], StepTo(s, c, cfg), cfg)
  {
    assert [c][1..] == [];
  }

  // ---------------------------------------------------------------- an attempt served alone

  function Idle(g: Guard, clock: int): Lockouts {
    Lockouts(g, clock, 0, 0, 0, 0)
  }

  /** The commands of a failing attempt from the count on. */
  function RecordCommands(g: Guard, now: int, cfg: Config): seq<Command> {
    var counted := IncrEntry(g.failures, now).value;
    [Count(now)] + (if counted == 1 then [SetExpiry(now)] else []) +
    if counted >= cfg.maxAttempts then [Lock(now)] + [Drop(now)] else []
  }

  lemma LockAndDrop(g: Guard, now: int, cfg: Config)
    requires cfg.inFlight >= 1
    ensures Reaches(Lockouts(g, now, 0, 0, 1, 0), [Lock(now)] + [Drop(now)],
                    Idle(Guard(None, Some(Entry(1, Some(now + cfg.ttl)))), now), cfg)
  {
    var s := Lockouts(g, now, 0, 0, 1, 0);
    var s' := StepTo(s, Lock(now), cfg);
    OneCommand(s, Lock(now), cfg);
    OneCommand(s', Drop(now), cfg);
    Then(s, [Lock(now)], s', [Drop(now)], StepTo(s', Drop(now), cfg), cfg);
  }

  /** With nothing in between, the commands do what the guard's failure step does. */
  lemma AttemptAloneIsAfterFailure(g: Guard, now: int, cfg: Config)
    requires cfg.inFlight >= 1
    ensures Reaches(Lockouts(g, now, 1, 0, 0, 0), RecordCommands(g, now, cfg),
                    Idle(AfterFailure(g, now, cfg.maxAttempts, cfg.ttl), now), cfg)
  {
    var counted, s := IncrEntry(g.failures, now).value, Lockouts(g, now, 1, 0, 0, 0);
    var s1 := StepTo(s, Count(now), cfg);
    OneCommand(s, Count(now), cfg);
    var expiry := if counted == 1 then [SetExpiry(now)] else [];
    var s2 := if counted == 1 then StepTo(s1, SetExpiry(now), cfg) else s1;
    if counted == 1 {
      OneCommand(s1, SetExpiry(now), cfg);
    }
    assert Reaches(s1, expiry, s2, cfg);
    Then(s, [Count(now)], s1, expiry, s2, cfg);
    var rest := if counted >= cfg.maxAttempts then [Lock(now)] + [Drop(now)] else [];
    var end := Idle(AfterFailure(g, now, cfg.maxAttempts, cfg.ttl), now);
    if counted >= cfg.maxAttempts {
      LockAndDrop(s2.guard, now, cfg);
      assert s2 == Lockouts(s2.guard, now, 0, 0, 1, 0);
    }
    assert Reaches(s2, rest, end, cfg);
    Then(s, [Count(now)] + expiry, s2, rest, end, cfg);
  }

  /** An attempt that passes the check and gives up leaves both keys as they were. */
  lemma AttemptGivenUp(g: Guard, now: int, cfg: Config)
    requires cfg.inFlight >= 1 && !Live(g.lockout, now)
    ensures Reaches(Idle(g, now), [Check(now)] + [GiveUp(now)], Idle(g, now), cfg)
  {
    var s, s' := Idle(g, now), Lockouts(g, now, 1, 0, 0, 0);
    OneCommand(s, Check(now), cfg);
    OneCommand(s', GiveUp(now), cfg);
    Then(s, [Check(now)], s', [GiveUp(now)], s, cfg);
  }

  /** The bound in numbers. */
  lemma BoundInNumbers(r: nat, cfg: Config)
    ensures RecordBound(r, cfg) == if cfg.maxAttempts <= 1 then cfg.inFlight
                                   else 2 * cfg.maxAttempts - 3 + cfg.inFlight + r * (cfg.maxAttempts - 1)
  {
    if cfg.maxAttempts <= 1 {
      assert r * 0 == 0;
    }
  }

  // ---------------------------------------------------------------- a bound without the deletions owed

  /** No more deletions can be owed than attempts are in flight. */
  lemma LockoutBoundByInFlight(clock: int, before: seq<Command>, during: seq<Command>, from: int, cfg: Config)
    requires cfg.ttl >= 1 && Runs(Start(clock), before + during, cfg)
    requires Within(during, from, cfg.ttl)
    ensures Failures(during) <= Max(0, 2 * cfg.Cap() - 3) + cfg.inFlight * cfg.Cap()
  {
    LockoutBoundInFlight(clock, before, during, from, cfg);
    RunKeepsCounted(Start(clock), before, cfg);
    MoreIsMore(RunTo(Start(clock), before, cfg).owesDrop, cfg.inFlight, cfg.Cap() - 1);
  }

  lemma MoreIsMore(a: nat, b: nat, k: nat)
    requires a <= b
    ensures a * k <= b * k && b + b * k == b * (k + 1)
  {
  }

  // ---------------------------------------------------------------- the bound is attained

  /** The state with a live counter. */
  function Counting(s: Lockouts, n: int, expiry: int, clock: int, passed: nat, owesLock: nat): Lockouts {
    s.(guard := s.guard.(failures := Some(Entry(n, Some(expiry)))), clock := clock, passed := passed, owesLock := owesLock)
  }

  /** Nobody is locked out, and one more attempt may be in flight. */
  predicate Open(s: Lockouts, t: int, cfg: Config) {
    s.owesExpiry == 0 && s.owesDrop < cfg.inFlight && !Live(s.guard.lockout, t)
  }

  /** One attempt at a time, too few to lock. */
  function Serial(t: int, k: nat): seq<Command> {
    if k == 0 then [] else [Check(t)] + [Count(t)] + Serial(t, k - 1)
  }

  lemma {:induction false} SerialRun(s: Lockouts, n: nat, expiry: int, clock: int, t: int, k: nat, cfg: Config)
    requires Open(s, t, cfg) && n >= 1 && n + k < cfg.maxAttempts && clock <= t < expiry
    ensures Reaches(Counting(s, n, expiry, clock, 0, 0), Serial(t, k),
                    Counting(s, n + k, expiry, if k == 0 then clock else t, 0, 0), cfg)
    ensures Failures(Serial(t, k)) == k
    decreases k
  {
    if k == 0 {
    } else {
      var s0, s1 := Counting(s, n, expiry, clock, 0, 0), Counting(s, n, expiry, t, 1, 0);
      var s2, s3 := Counting(s, n + 1, expiry, t, 0, 0), Counting(s, n + k, expiry, t, 0, 0);
      OneCommand(s0, Check(t), cfg);
      OneCommand(s1, Count(t), cfg);
      Then(s0, [Check(t)], s1, [Count(t)], s2, cfg);
      SerialRun(s, n + 1, expiry, t, t, k - 1, cfg);
      Then(s0, [Check(t)] + [Count(t)], s2, Serial(t, k - 1), s3, cfg);
      FailuresConcat([Check(t)] + [Count(t)], Serial(t, k - 1));
      FailuresConcat([Check(t)], [Count(t)]);
    }
  }

  /** The attempt that creates the counter. */
  function Opening(t: int): seq<Command> {
    [Check(t)] + [Count(t)] + [SetExpiry(t)]
  }

  lemma OpeningRun(s: Lockouts, t: int, cfg: Config)
    requires Open(s, t, cfg) && cfg.maxAttempts >= 2 && cfg.ttl >= 1 && s.clock <= t
    requires s.passed == 0 && s.owesLock == 0 && !Live(s.guard.failures, t)
    ensures Reaches(s, Opening(t), Counting(s, 1, t + cfg.ttl, t, 0, 0), cfg)
    ensures Failures(Opening(t)) == 1
  {
    var s1 := StepTo(s, Check(t), cfg);
    OneCommand(s, Check(t), cfg);
    var s2 := StepTo(s1, Count(t), cfg);
    OneCommand(s1, Count(t), cfg);
    OneCommand(s2, SetExpiry(t), cfg);
    Then(s, [Check(t)], s1, [Count(t)], s2, cfg);
    Then(s, [Check(t)] + [Count(t)], s2, [SetExpiry(t)], Counting(s, 1, t + cfg.ttl, t, 0, 0), cfg);
    FailuresConcat([Check(t)] + [Count(t)], [SetExpiry(t)]);
    FailuresConcat([Check(t)], [Count(t)]);
  }

  /** All the failures of a window but the one that locks. */
  function Window(t: int, cfg: Config): seq<Command>
    requires cfg.maxAttempts >= 2
  {
    Opening(t) + Serial(t, cfg.maxAttempts - 2)
  }

  lemma WindowRun(s: Lockouts, t: int, cfg: Config)
    requires Open(s, t, cfg) && cfg.maxAttempts >= 2 && cfg.ttl >= 1 && s.clock <= t
    requires s.passed == 0 && s.owesLock == 0 && !Live(s.guard.failures, t)
    ensures Reaches(s, Window(t, cfg), Counting(s, cfg.maxAttempts - 1, t + cfg.ttl, t, 0, 0), cfg)
    ensures Failures(Window(t, cfg)) == cfg.maxAttempts - 1
  {
    var k := cfg.maxAttempts - 2;
    OpeningRun(s, t, cfg);
    SerialRun(s, 1, t + cfg.ttl, t, t, k, cfg);
    Then(s, Opening(t), Counting(s, 1, t + cfg.ttl, t, 0, 0), Serial(t, k), Counting(s, k + 1, t + cfg.ttl, t, 0, 0), cfg);
    FailuresConcat(Opening(t), Serial(t, k));
  }

  function Copies(c: Command, k: nat): seq<Command> {
    if k == 0 then [] else [c] + Copies(c, k - 1)
  }

  lemma {:induction false} ChecksRun(s: Lockouts, t: int, k: nat, cfg: Config)
    requires s.clock == t && s.InFlight() + k <= cfg.inFlight && !Live(s.guard.lockout, t)
    ensures Reaches(s, Copies(Check(t), k), s.(passed := s.passed + k), cfg)
    ensures Failures(Copies(Check(t), k)) == 0
    decreases k
  {
    if k == 0 {
    } else {
      var s' := s.(passed := s.passed + 1);
      OneCommand(s, Check(t), cfg);
      ChecksRun(s', t, k - 1, cfg);
      Then(s, [Check(t)], s', Copies(Check(t), k - 1), s.(passed := s.passed + k), cfg);
      FailuresConcat([Check(t)], Copies(Check(t), k - 1));
    }
  }

  lemma {:induction false} CountsRun(s: Lockouts, n: nat, expiry: int, t: int, k: nat, owesLock: nat, cfg: Config)
    requires n >= 1 && n + 1 >= cfg.maxAttempts && t < expiry
    requires s.owesExpiry == 0 && s.owesDrop + owesLock + k <= cfg.inFlight
    ensures Reaches(Counting(s, n, expiry, t, k, owesLock), Copies(Count(t), k),
                    Counting(s, n + k, expiry, t, 0, owesLock + k), cfg)
    ensures Failures(Copies(Count(t), k)) == k
    decreases k
  {
    if k == 0 {
    } else {
      var s0, s1 := Counting(s, n, expiry, t, k, owesLock), Counting(s, n + 1, expiry, t, k - 1, owesLock + 1);
      OneCommand(s0, Count(t), cfg);
      CountsRun(s, n + 1, expiry, t, k - 1, owesLock + 1, cfg);
      Then(s0, [Count(t)], s1, Copies(Count(t), k - 1), Counting(s, n + k, expiry, t, 0, owesLock + k), cfg);
      FailuresConcat([Count(t)], Copies(Count(t), k - 1));
    }
  }

  /** Several attempts pass the check before any of them counts. */
  function AllAtOnce(t: int, m: nat): seq<Command> {
    Copies(Check(t), m) + Copies(Count(t), m)
  }

  lemma AllAtOnceRun(s: Lockouts, n: nat, expiry: int, t: int, m: nat, cfg: Config)
    requires n >= 1 && n + 1 >= cfg.maxAttempts && t < expiry && !Live(s.guard.lockout, t)
    requires s.owesExpiry == 0 && s.owesDrop + m <= cfg.inFlight
    ensures Reaches(Counting(s, n, expiry, t, 0, 0), AllAtOnce(t, m), Counting(s, n + m, expiry, t, 0, m), cfg)
    ensures Failures(AllAtOnce(t, m)) == m
  {
    ChecksRun(Counting(s, n, expiry, t, 0, 0), t, m, cfg);
    CountsRun(s, n, expiry, t, m, 0, cfg);
    Then(Counting(s, n, expiry, t, 0, 0), Copies(Check(t), m), Counting(s, n, expiry, t, m, 0),
         Copies(Count(t), m), Counting(s, n + m, expiry, t, 0, m), cfg);
    FailuresConcat(Copies(Check(t), m), Copies(Count(t), m));
  }

  lemma {:induction false} LocksRun(s: Lockouts, t: int, k: nat, cfg: Config)
    requires s.clock == t && s.InFlight() <= cfg.inFlight && s.owesLock == k
    ensures Reaches(s, Copies(Lock(t), k),
                    s.(guard := if k == 0 then s.guard else s.guard.(lockout := Some(Entry(1, Some(t + cfg.ttl)))),
                       owesLock := 0, owesDrop := s.owesDrop + k), cfg)
    decreases k
  {
    if k == 0 {
    } else {
      var lockout := Some(Entry(1, Some(t + cfg.ttl)));
      var s' := s.(guard := s.guard.(lockout := lockout), owesLock := k - 1, owesDrop := s.owesDrop + 1);
      OneCommand(s, Lock(t), cfg);
      LocksRun(s', t, k - 1, cfg);
      Then(s, [Lock(t)], s', Copies(Lock(t), k - 1),
           s'.(owesLock := 0, owesDrop := s.owesDrop + k), cfg);
    }
  }

  /** Every deletion that is still owed lets a new window begin. */
  function Refills(t: int, r: nat, cfg: Config): seq<Command>
    requires cfg.maxAttempts >= 2
  {
    if r == 0 then [] else [Drop(t)] + Window(t, cfg) + Refills(t, r - 1, cfg)
  }

  lemma {:induction false} RefillsRun(s: Lockouts, t: int, r: nat, cfg: Config)
    requires Open(s, t, cfg) && cfg.maxAttempts >= 2 && cfg.ttl >= 1 && s.owesDrop == r
    ensures var n, expiry := cfg.maxAttempts - 1, t + cfg.ttl;
            Reaches(Counting(s, n, expiry, t, 0, 0), Refills(t, r, cfg),
                    Counting(s.(owesDrop := 0), n, expiry, t, 0, 0), cfg)
    ensures Failures(Refills(t, r, cfg)) == r * (cfg.maxAttempts - 1)
    decreases r
  {
    if r == 0 {
    } else {
      var n, expiry := cfg.maxAttempts - 1, t + cfg.ttl;
      var s0, s' := Counting(s, n, expiry, t, 0, 0), s.(owesDrop := r - 1);
      var s1, s2 := StepTo(s0, Drop(t), cfg), Counting(s', n, expiry, t, 0, 0);
      OneCommand(s0, Drop(t), cfg);
      WindowRun(s1, t, cfg);
      Then(s0, [Drop(t)], s1, Window(t, cfg), s2, cfg);
      RefillsRun(s', t, r - 1, cfg);
      Then(s0, [Drop(t)] + Window(t, cfg), s2, Refills(t, r - 1, cfg), Counting(s.(owesDrop := 0), n, expiry, t, 0, 0), cfg);
      FailuresConcat([Drop(t)] + Window(t, cfg), Refills(t, r - 1, cfg));
      FailuresConcat([Drop(t)], Window(t, cfg));
      DropRefills(r, n);
    }
  }

  /** r attempts lock at the same instant, and owe the deletion. */
  lemma LockedOut(t: int, r: nat, cfg: Config) returns (before: seq<Command>, s: Lockouts)
    requires cfg.maxAttempts >= 2 && r < cfg.inFlight && cfg.ttl >= 1
    ensures Reaches(Start(t), before, s, cfg)
    ensures s.owesDrop == r && s.owesExpiry == s.passed == s.owesLock == 0 && s.clock == t
    ensures !Live(s.guard.lockout, t + cfg.ttl) && !Live(s.guard.failures, t + cfg.ttl)
  {
    var n, s0 := cfg.maxAttempts - 1, Start(t);
    var s1, s2 := Counting(s0, n, t + cfg.ttl, t, 0, 0), Counting(s0, n + r, t + cfg.ttl, t, 0, r);
    WindowRun(s0, t, cfg);
    AllAtOnceRun(s0, n, t + cfg.ttl, t, r, cfg);
    Then(s0, Window(t, cfg), s1, AllAtOnce(t, r), s2, cfg);
    s := s2.(guard := if r == 0 then s2.guard else s2.guard.(lockout := Some(Entry(1, Some(t + cfg.ttl)))),
             owesLock := 0, owesDrop := r);
    LocksRun(s2, t, r, cfg);
    before := Window(t, cfg) + AllAtOnce(t, r) + Copies(Lock(t), r);
    Then(s0, Window(t, cfg) + AllAtOnce(t, r), s2, Copies(Lock(t), r), s, cfg);
  }

  /** When their lockout has ended, a new window begins. */
  lemma NewWindow(t: int, r: nat, cfg: Config) returns (before: seq<Command>, s: Lockouts)
    requires cfg.maxAttempts >= 2 && r < cfg.inFlight && cfg.ttl >= 1
    ensures Reaches(Start(t), before, Counting(s, 1, t + 2 * cfg.ttl, t + cfg.ttl, 0, 0), cfg)
    ensures s.owesDrop == r && Open(s, t + cfg.ttl, cfg)
  {
    var locked;
    locked, s := LockedOut(t, r, cfg);
    OpeningRun(s, t + cfg.ttl, cfg);
    before := locked + Opening(t + cfg.ttl);
    Then(Start(t), locked, s, Opening(t + cfg.ttl), Counting(s, 1, t + 2 * cfg.ttl, t + cfg.ttl, 0, 0), cfg);
  }

  /** Failures at the end of one window, all those of the next, those of one more window for every
      deletion owed, and at last as many as may be in flight. */
  function Worst(t: int, r: nat, cfg: Config): seq<Command>
    requires cfg.maxAttempts >= 2
  {
    Serial(t - 1, cfg.maxAttempts - 2) + Window(t, cfg) + Refills(t, r, cfg) + AllAtOnce(t, cfg.inFlight)
  }

  lemma WorstRun(s: Lockouts, t: int, clock: int, cfg: Config) returns (end: Lockouts)
    requires cfg.maxAttempts >= 2 && cfg.ttl >= 1 && clock <= t - 1 && Open(s, t - 1, cfg)
    ensures Reaches(Counting(s, 1, t, clock, 0, 0), Worst(t, s.owesDrop, cfg), end, cfg)
    ensures Failures(Worst(t, s.owesDrop, cfg)) == RecordBound(s.owesDrop, cfg)
  {
    var n, r, m := cfg.maxAttempts - 1, s.owesDrop, cfg.inFlight;
    var a, b, c, d := Serial(t - 1, n - 1), Window(t, cfg), Refills(t, r, cfg), AllAtOnce(t, m);
    var s0, s1 := Counting(s, 1, t, clock, 0, 0), Counting(s, n, t, if n == 1 then clock else t - 1, 0, 0);
    var s2, s3 := Counting(s, n, t + cfg.ttl, t, 0, 0), Counting(s.(owesDrop := 0), n, t + cfg.ttl, t, 0, 0);
    end := Counting(s.(owesDrop := 0), n + m, t + cfg.ttl, t, 0, m);
    SerialRun(s, 1, t, clock, t - 1, n - 1, cfg);
    WindowRun(s1, t, cfg);
    Then(s0, a, s1, b, s2, cfg);
    RefillsRun(s, t, r, cfg);
    Then(s0, a + b, s2, c, s3, cfg);
    AllAtOnceRun(s.(owesDrop := 0), n, t + cfg.ttl, t, m, cfg);
    Then(s0, a + b + c, s3, d, end, cfg);
    FailuresConcat(a + b + c, d);
    FailuresConcat(a + b, c);
    FailuresConcat(a, b);
  }

  lemma {:induction false} SerialInstants(t: int, k: nat)
    ensures forall c <- Serial(t, k) :: c.now == t
  {
    if k == 0 {
    } else {
      SerialInstants(t, k - 1);
    }
  }

  lemma {:induction false} CopiesInstants(c: Command, k: nat)
    ensures forall c' <- Copies(c, k) :: c' == c
  {
    if k == 0 {
    } else {
      CopiesInstants(c, k - 1);
    }
  }

  lemma {:induction false} RefillsInstants(t: int, r: nat, cfg: Config)
    requires cfg.maxAttempts >= 2
    ensures forall c <- Refills(t, r, cfg) :: c.now == t
  {
    if r == 0 {
    } else {
      SerialInstants(t, cfg.maxAttempts - 2);
      RefillsInstants(t, r - 1, cfg);
    }
  }

  lemma WorstInstants(t: int, r: nat, cfg: Config)
    requires cfg.maxAttempts >= 2 && cfg.ttl >= 2
    ensures Within(Worst(t, r, cfg), t - 1, cfg.ttl)
  {
    var k := cfg.maxAttempts - 2;
    SerialInstants(t - 1, k);
    SerialInstants(t, k);
    RefillsInstants(t, r, cfg);
    CopiesInstants(Check(t), cfg.inFlight);
    CopiesInstants(Count(t), cfg.inFlight);
    forall c | c in Worst(t, r, cfg) ensures t - 1 <= c.now < t - 1 + cfg.ttl {
      assert c in Serial(t - 1, k) || c in Opening(t) || c in Serial(t, k) || c in Refills(t, r, cfg) ||
             c in Copies(Check(t), cfg.inFlight) || c in Copies(Count(t), cfg.inFlight);
    }
  }

  lemma WorstFrom(s: Lockouts, t: int, clock: int, cfg: Config) returns (during: seq<Command>, end: Lockouts)
    requires cfg.maxAttempts >= 2 && cfg.ttl >= 2 && clock <= t - 1 && Open(s, t - 1, cfg)
    ensures Reaches(Counting(s, 1, t, clock, 0, 0), during, end, cfg)
    ensures Failures(during) == RecordBound(s.owesDrop, cfg) && Within(during, t - 1, cfg.ttl)
  {
    during := Worst(t, s.owesDrop, cfg);
    end := WorstRun(s, t, clock, cfg);
    WorstInstants(t, s.owesDrop, cfg);
  }

  /** For every configuration from two attempts on, and every number of deletions owed below the number
      of attempts in flight, some run reaches the bound within one interval; so with two or more
      attempts in flight the bound for attempts served one at a time is passed. */
  lemma BoundInFlightAttained(clock: int, r: nat, cfg: Config)
    returns (before: seq<Command>, during: seq<Command>, s: Lockouts, end: Lockouts)
    requires cfg.maxAttempts >= 2 && r < cfg.inFlight && cfg.ttl >= 2
    ensures Reaches(Start(clock), before, s, cfg) && s.owesDrop == r
    ensures Reaches(Start(clock), before + during, end, cfg)
    ensures Within(during, clock + 2 * cfg.ttl - 1, cfg.ttl)
    ensures Failures(during) == RecordBound(r, cfg)
    ensures cfg.inFlight >= 2 ==> Failures(during) > 2 * cfg.maxAttempts - 2
  {
    var t := clock + 2 * cfg.ttl;
    var s';
    before, s' := NewWindow(clock, r, cfg);
    s := Counting(s', 1, t, clock + cfg.ttl, 0, 0);
    during, end := WorstFrom(s', t, clock + cfg.ttl, cfg);
    Then(Start(clock), before, s, during, end, cfg);
    assert r * (cfg.maxAttempts - 1) >= 0;
  }
}
