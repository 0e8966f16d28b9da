/** OTP requests of one user and channel: a cooldown and an hourly counter. A request reads both keys
    before it writes them, so requests may overlap. */
module OtpLimits {
  import opened Common
  import opened SlidingWindow
  import opened Limiters

  const COOLDOWN_SECONDS := 60

  const OTP_LIMIT := 5

  const OTP_WINDOW_SECONDS := 3600

  /** The two keys of one user and channel. */
  datatype Otp = Otp(cooldown: Option<Entry>, count: Option<Entry>)

  predicate OtpAdmits(o: Otp, now: int) {
    !Live(o.cooldown, now) && !(Live(o.count, now) && o.count.value.value >= OTP_LIMIT)
  }

  /** The writes of an admitted request; the expiry is set only if the read found no count. */
  function OtpWrites(o: Otp, sawCount: bool, now: int): Otp {
    var counted := IncrEntry(o.count, now);
    Otp(Some(Entry(1, Some(now + COOLDOWN_SECONDS))),
        if sawCount then Some(counted) else ExpireEntry(Some(counted), now, OTP_WINDOW_SECONDS))
  }

  /** A request past its reads. */
  datatype Request = Request(read: int, sawCount: bool)

  /** admitted are the instants at which admitted requests wrote. */
  datatype Limiter = Limiter(otp: Otp, pending: seq<Request>, admitted: seq<int>, clock: int)

  datatype Step = Begin(now: int) | Finish(k: nat, now: int)

  predicate Enabled(s: Limiter, step: Step) {
    s.clock <= step.now && (step.Finish? ==> step.k < |s.pending|)
  }

  function StepTo(s: Limiter, step: Step): Limiter
    requires Enabled(s, step)
  {
    match step
    case Begin(now) =>
      if OtpAdmits(s.otp, now) then s.(pending := s.pending + [Request(now, Live(s.otp.count, now))], clock := now)
      else s.(clock := now)
    case Finish(k, now) =>
      Limiter(OtpWrites(s.otp, s.pending[k].sawCount, now), s.pending[..k] + s.pending[k + 1..],
              s.admitted + [now], now)
  }

  /** At most m requests are in flight at a time. */
  ghost predicate Runs(s: Limiter, steps: seq<Step>, m: nat)
    decreases |steps|
  {
    |s.pending| <= m && (steps == [] || (Enabled(s, steps[0]) && Runs(StepTo(s, steps[0]), steps[1..], m)))
  }

  ghost function RunTo(s: Limiter, steps: seq<Step>, m: nat): Limiter
    requires Runs(s, steps, m)
    decreases |steps|
  {
    if steps == [] then s else RunTo(StepTo(s, steps[0]), steps[1..], m)
  }

  function Start(clock: int): Limiter {
    Limiter(Otp(None, None), [], [], clock)
  }

  lemma {:induction false} Split(s: Limiter, a: seq<Step>, b: seq<Step>, m: nat)
    requires Runs(s, a + b, m)
    ensures Runs(s, a, m) && Runs(RunTo(s, a, m), b, m)
    ensures RunTo(s, a + b, m) == RunTo(RunTo(s, a, m), b, m)
    decreases |a|
  {
    if a == [] {
      assert a + b == b;
    } else {
      assert (a + b)[1..] == a[1..] + b;
      Split(StepTo(s, a[0]), a[1..], b, m);
    }
  }

  // ---------------------------------------------------------------- sixty seconds apart

  /** The cooldown stems from the last admission; a pending request began no later than that, or
      found no cooldown. */
  ghost predicate CooldownSound(s: Limiter) {
    var n := |s.admitted|;
    && Sorted(s.admitted)
    && (if n == 0 then s.otp.cooldown == None
        else s.otp.cooldown == Some(Entry(1, Some(s.admitted[n - 1] + COOLDOWN_SECONDS))) && s.admitted[n - 1] <= s.clock)
    && forall k :: 0 <= k < |s.pending| ==>
         s.pending[k].read <= s.clock &&
         (n > 0 && s.admitted[n - 1] < s.pending[k].read ==> !Live(s.otp.cooldown, s.pending[k].read))
  }

  lemma StepKeepsCooldownSound(s: Limiter, step: Step)
    requires CooldownSound(s) && Enabled(s, step)
    ensures CooldownSound(StepTo(s, step))
  {
  }

  /** The request writes while the cooldown of another one is alive. */
  predicate Hurries(s: Limiter, step: Step) {
    step.Finish? && Live(s.otp.cooldown, step.now)
  }

  lemma {:induction false} RunKeepsCooldownSound(s: Limiter, steps: seq<Step>, m: nat)
    requires CooldownSound(s) && Runs(s, steps, m)
    ensures CooldownSound(RunTo(s, steps, m))
    decreases |steps|
  {
    if steps == [] {
    } else {
      StepKeepsCooldownSound(s, steps[0]);
      RunKeepsCooldownSound(StepTo(s, steps[0]), steps[1..], m);
    }
  }

  /** In every run a request does so only if it overlaps that other one: it had begun by the time the other
      was admitted, less than a minute ago. */
  lemma HurryingOverlaps(clock: int, steps: seq<Step>, m: nat, step: Step)
    requires Runs(Start(clock), steps, m)
    requires var s := RunTo(Start(clock), steps, m); Enabled(s, step) && Hurries(s, step)
    ensures var s := RunTo(Start(clock), steps, m);
            s.admitted != [] && s.pending[step.k].read <= s.admitted[|s.admitted| - 1] &&
            step.now < s.admitted[|s.admitted| - 1] + COOLDOWN_SECONDS
  {
    RunKeepsCooldownSound(Start(clock), steps, m);
  }

  ghost predicate SpacedOut(s: Limiter) {
    Spaced(s.admitted, 1, COOLDOWN_SECONDS)
  }

  lemma StepKeepsSpacingIff(s: Limiter, step: Step)
    requires CooldownSound(s) && SpacedOut(s) && Enabled(s, step)
    ensures SpacedOut(StepTo(s, step)) <==> !Hurries(s, step)
  {
    if step.Finish? {
      var n, after := |s.admitted|, StepTo(s, step).admitted;
      assert forall i :: 0 <= i < n ==> after[i] == s.admitted[i];
      assert after[n] == step.now;
      if n > 0 {
        assert after[n - 1] + COOLDOWN_SECONDS <= after[n - 1 + 1] <==> !Hurries(s, step);
      }
    }
  }

  /** No request of the run hurries. */
  ghost predicate Unhurried(s: Limiter, steps: seq<Step>, m: nat)
    requires Runs(s, steps, m)
    decreases |steps|
  {
    steps == [] || (!Hurries(s, steps[0]) && Unhurried(StepTo(s, steps[0]), steps[1..], m))
  }

  lemma {:induction false} CrowdedForGood(s: Limiter, steps: seq<Step>, m: nat)
    requires Runs(s, steps, m) && !SpacedOut(s)
    ensures !SpacedOut(RunTo(s, steps, m))
    decreases |steps|
  {
    if steps == [] {
    } else {
      var i :| 0 <= i && i + 1 < |s.admitted| && s.admitted[i] + COOLDOWN_SECONDS > s.admitted[i + 1];
      var after := StepTo(s, steps[0]).admitted;
      assert after[i] == s.admitted[i] && after[i + 1] == s.admitted[i + 1];
      CrowdedForGood(StepTo(s, steps[0]), steps[1..], m);
    }
  }

  /** However requests overlap: the admissions are at least 60 seconds apart if and only if no request
      writes while the cooldown of another one is alive. */
  lemma {:induction false} SpacingIff(s: Limiter, steps: seq<Step>, m: nat)
    requires CooldownSound(s) && SpacedOut(s) && Runs(s, steps, m)
    ensures SpacedOut(RunTo(s, steps, m)) <==> Unhurried(s, steps, m)
    decreases |steps|
  {
    if steps == [] {
    } else {
      StepKeepsCooldownSound(s, steps[0]);
      StepKeepsSpacingIff(s, steps[0]);
      if Hurries(s, steps[0]) {
        CrowdedForGood(StepTo(s, steps[0]), steps[1..], m);
      } else {
        SpacingIff(StepTo(s, steps[0]), steps[1..], m);
      }
    }
  }

  // ---------------------------------------------------------------- the hourly limit

  /** The most that one counter window can admit: each request in flight may have read the last
      permitted count. */
  function WindowCap(m: nat): nat {
    OTP_LIMIT - 1 + m
  }

  /** The requests in flight fit into the window, unless it has ended. */
  ghost predicate CountSound(s: Limiter, m: nat) {
    s.otp.count.Some? ==>
      var e := s.otp.count.value;
      1 <= e.value <= WindowCap(m) &&
      (e.value + |s.pending| <= WindowCap(m) || (e.expiresAt.Some? && e.expiresAt.value <= s.clock))
  }

  /** How many more requests can be admitted before end, if no more than one new window can begin. */
  function Room(e: Option<Entry>, end: int, m: nat): int {
    match e
    case None => WindowCap(m)
    case Some(e) =>
      WindowCap(m) - e.value + if e.expiresAt.Some? && e.expiresAt.value < end then WindowCap(m) else 0
  }

  lemma StepRoom(s: Limiter, step: Step, end: int, m: nat)
    requires CountSound(s, m) && Enabled(s, step) && end - OTP_WINDOW_SECONDS <= step.now < end
    requires |s.pending| <= m && |StepTo(s, step).pending| <= m
    ensures var s' := StepTo(s, step);
            CountSound(s', m) &&
            |s'.admitted| - |s.admitted| + Room(s'.otp.count, end, m) <= Room(s.otp.count, end, m)
  {
  }

  lemma StepKeepsCountSound(s: Limiter, step: Step, m: nat)
    requires CountSound(s, m) && Enabled(s, step)
    requires |s.pending| <= m && |StepTo(s, step).pending| <= m
    ensures CountSound(StepTo(s, step), m)
  {
    StepRoom(s, step, step.now + 1, m);
  }

  lemma {:induction false} RunKeepsCountSound(s: Limiter, steps: seq<Step>, m: nat)
    requires CountSound(s, m) && Runs(s, steps, m)
    ensures CountSound(RunTo(s, steps, m), m) && |RunTo(s, steps, m).pending| <= m
    decreases |steps|
  {
    if steps == [] {
    } else {
      StepKeepsCountSound(s, steps[0], m);
      RunKeepsCountSound(StepTo(s, steps[0]), steps[1..], m);
    }
  }

  ghost predicate Within(steps: seq<Step>, from: int, length: int) {
    forall step <- steps :: from <= step.now < from + length
  }

  lemma {:induction false} AdmissionsWithin(s: Limiter, steps: seq<Step>, from: int, m: nat)
    requires CountSound(s, m) && Runs(s, steps, m) && Within(steps, from, OTP_WINDOW_SECONDS)
    ensures |RunTo(s, steps, m).admitted| - |s.admitted| <= Room(s.otp.count, from + OTP_WINDOW_SECONDS, m)
    decreases |steps|
  {
    if steps == [] {
    } else {
      assert steps[0] in steps;
      StepRoom(s, steps[0], from + OTP_WINDOW_SECONDS, m);
      AdmissionsWithin(StepTo(s, steps[0]), steps[1..], from, m);
    }
  }

  /** However at most m requests at a time overlap, and even if the counter expires between a read and
      an increment: no hour admits more than 2 * m + 7. */
  lemma HourlyBoundInFlight(clock: int, before: seq<Step>, during: seq<Step>, from: int, m: nat)
    requires Runs(Start(clock), before + during, m) && Within(during, from, OTP_WINDOW_SECONDS) && m >= 1
    ensures Runs(Start(clock), before, m) &&
            |RunTo(Start(clock), before + during, m).admitted| - |RunTo(Start(clock), before, m).admitted| <= 2 * m + 7
  {
    Split(Start(clock), before, during, m);
    RunKeepsCountSound(Start(clock), before, m);
    AdmissionsWithin(RunTo(Start(clock), before, m), during, from, m);
  }

  // ---------------------------------------------------------------- one at a time

  /** A request that is alone has seen the cooldown of every earlier admission. */
  ghost predicate Alone(s: Limiter) {
    |s.pending| <= 1 && forall k :: 0 <= k < |s.pending| ==>
      s.pending[k].read <= s.clock && !Live(s.otp.cooldown, s.pending[k].read)
  }

  lemma {:induction false} AloneIsUnhurried(s: Limiter, steps: seq<Step>)
    requires Alone(s) && Runs(s, steps, 1)
    ensures Unhurried(s, steps, 1)
    decreases |steps|
  {
    if steps == [] {
    } else {
      assert Alone(StepTo(s, steps[0])) && !Hurries(s, steps[0]);
      AloneIsUnhurried(StepTo(s, steps[0]), steps[1..]);
    }
  }

  /** With one request at a time, whatever passes between its reads and its writes: admissions are at
      least 60 seconds apart and at most nine in any hour. */
  lemma OtpBound(clock: int, before: seq<Step>, during: seq<Step>, from: int)
    requires Runs(Start(clock), before + during, 1) && Within(during, from, OTP_WINDOW_SECONDS)
    ensures SpacedOut(RunTo(Start(clock), before + during, 1))
    ensures Runs(Start(clock), before, 1)
    ensures |RunTo(Start(clock), before + during, 1).admitted| - |RunTo(Start(clock), before, 1).admitted| <= 9
  {
    AloneIsUnhurried(Start(clock), before + during);
    SpacingIff(Start(clock), before + during, 1);
    HourlyBoundInFlight(clock, before, during, from, 1);
  }

  // ---------------------------------------------------------------- overlapping requests

  function Begins(now: int, n: nat): seq<Step> {
    if n == 0 then [] else [Begin(now)] + Begins(now, n - 1)
  }

  function Finishes(now: int, n: nat): seq<Step> {
    if n == 0 then [] else [Finish(0, now)] + Finishes(now, n - 1)
  }

  lemma OneMore(s: Limiter, step: Step, rest: seq<Step>, m: nat)
    requires |s.pending| <= m && Enabled(s, step) && Runs(StepTo(s, step), rest, m)
    ensures Runs(s, [step] + rest, m) && RunTo(s, [step] + rest, m) == RunTo(StepTo(s, step), rest, m)
  {
    assert ([step] + rest)[1..] == rest;
  }

  lemma {:induction false} AllFinish(s: Limiter, now: int, n: nat, m: nat)
    requires |s.pending| == n <= m && s.clock <= now
    ensures Runs(s, Finishes(now, n), m)
    ensures |RunTo(s, Finishes(now, n), m).admitted| == |s.admitted| + n
    decreases n
  {
    if n == 0 {
    } else {
      AllFinish(StepTo(s, Finish(0, now)), now, n - 1, m);
      OneMore(s, Finish(0, now), Finishes(now, n - 1), m);
    }
  }

  lemma {:induction false} AllBegin(s: Limiter, now: int, n: nat, rest: seq<Step>, m: nat)
    requires OtpAdmits(s.otp, now) && s.clock <= now && |s.pending| + n == m && rest == Finishes(now, m)
    ensures Runs(s, Begins(now, n) + rest, m)
    ensures |RunTo(s, Begins(now, n) + rest, m).admitted| == |s.admitted| + m
    decreases n
  {
    if n == 0 {
      assert Begins(now, 0) + rest == rest;
      AllFinish(s, now, m, m);
    } else {
      AllBegin(StepTo(s, Begin(now)), now, n - 1, rest, m);
      assert Begins(now, n) + rest == [Begin(now)] + (Begins(now, n - 1) + rest);
      OneMore(s, Begin(now), Begins(now, n - 1) + rest, m);
    }
  }

  /** Requests that all read before any of them writes are all admitted, however many: two break the
      spacing, ten the hourly limit. */
  lemma ParallelRequestsAllAdmitted(now: int, n: nat)
    ensures Runs(Start(now), Begins(now, n) + Finishes(now, n), n)
    ensures |RunTo(Start(now), Begins(now, n) + Finishes(now, n), n).admitted| == n
  {
    AllBegin(Start(now), now, n, Finishes(now, n), n);
  }

  // ---------------------------------------------------------------- the expiry race

  /** An admitted request leaves the counter with an expiry exactly unless the counter it saw is no
      longer alive when it increments. */
  lemma OtpCounterKeepsExpiry(s: Limiter, k: nat, now: int)
    requires Enabled(s, Finish(k, now)) && (s.otp.count.Some? ==> s.otp.count.value.expiresAt.Some?)
    ensures StepTo(s, Finish(k, now)).otp.count.value.expiresAt.Some? <==>
            !(s.pending[k].sawCount && !Live(s.otp.count, now))
  {
  }

  /** The counter has lost its expiry, and nobody in flight will set one. */
  ghost predicate CountStuck(s: Limiter) {
    s.otp.count.Some? && s.otp.count.value.expiresAt.None? && forall k :: 0 <= k < |s.pending| ==> s.pending[k].sawCount
  }

  /** A counter without expiry admits only what is left of its window, ever. */
  lemma {:induction false} ExpiryRaceLocksOut(s: Limiter, steps: seq<Step>, m: nat)
    requires CountSound(s, m) && CountStuck(s) && Runs(s, steps, m)
    ensures |RunTo(s, steps, m).admitted| <= |s.admitted| + WindowCap(m) - s.otp.count.value.value
    decreases |steps|
  {
    if steps == [] {
    } else {
      StepRoom(s, steps[0], steps[0].now + 1, m);
      assert CountStuck(StepTo(s, steps[0]));
      ExpiryRaceLocksOut(StepTo(s, steps[0]), steps[1..], m);
    }
  }

  /** The first request creates the counter; the second reads it a second before it expires and
      increments it when it has. */
  function ExpiryRace(): seq<Step> {
    [Begin(0)] + ([Finish(0, 0)] + ([Begin(3599)] + ([Finish(0, 3600)] + [])))
  }

  /** The counter is back at one and has no expiry. */
  function AfterExpiryRace(): Limiter {
    Limiter(Otp(Some(Entry(1, Some(3660))), Some(Entry(1, None))), [], [0, 3600], 3600)
  }

  lemma ExpiryRaceRun()
    ensures Runs(Start(0), ExpiryRace(), 1) && RunTo(Start(0), ExpiryRace(), 1) == AfterExpiryRace()
  {
    var s1 := Limiter(Otp(None, None), [Request(0, false)], [], 0);
    var s2 := Limiter(Otp(Some(Entry(1, Some(60))), Some(Entry(1, Some(3600)))), [], [0], 0);
    var s3 := s2.(pending := [Request(3599, true)], clock := 3599);
    assert StepTo(Start(0), Begin(0)) == s1 && StepTo(s1, Finish(0, 0)) == s2;
    assert StepTo(s2, Begin(3599)) == s3 && StepTo(s3, Finish(0, 3600)) == AfterExpiryRace();
    OneMore(s3, Finish(0, 3600), [], 1);
    OneMore(s2, Begin(3599), [Finish(0, 3600)] + [], 1);
    OneMore(s1, Finish(0, 0), [Begin(3599)] + ([Finish(0, 3600)] + []), 1);
    OneMore(Start(0), Begin(0), [Finish(0, 0)] + ([Begin(3599)] + ([Finish(0, 3600)] + [])), 1);
  }

  /** So a user who asks again just as the hour ends gets at most four more codes, ever. */
  lemma ExpiryRaceAtInput(steps: seq<Step>)
    requires Runs(AfterExpiryRace(), steps, 1)
    ensures Runs(Start(0), ExpiryRace(), 1) && RunTo(Start(0), ExpiryRace(), 1) == AfterExpiryRace()
    ensures |RunTo(AfterExpiryRace(), steps, 1).admitted| <= |AfterExpiryRace().admitted| + 4
  {
    ExpiryRaceRun();
    ExpiryRaceLocksOut(AfterExpiryRace(), steps, 1);
  }

  // ---------------------------------------------------------------- the service

  class OtpLimiter {
    const redis: Redis

    constructor (redis: Redis)
      ensures this.redis == redis
    {
      this.redis := redis;
    }

    function OtpOf(channel: string, id: string): Otp
      reads redis
    {
      Otp(Get(redis.keys, Cooldown(channel, id)), Get(redis.keys, OtpCount(channel, id)))
    }

    /** The two reads. */
    method ReadLimits(channel: string, id: string, now: int) returns (admitted: bool, sawCount: bool)
      ensures admitted == OtpAdmits(OtpOf(channel, id), now)
      ensures admitted ==> sawCount == Live(OtpOf(channel, id).count, now)
    {
      sawCount := false;
      var inCooldown := redis.Exists(Cooldown(channel, id), now);
      if inCooldown {
        return false, false;
      }
      sawCount := redis.Exists(OtpCount(channel, id), now);
      if sawCount && redis.keys[OtpCount(channel, id)].value >= OTP_LIMIT {
        return false, sawCount;
      }
      admitted := true;
    }

    /** The writes that follow. */
    method WriteLimits(channel: string, id: string, sawCount: bool, now: int)
      modifies redis
      ensures OtpOf(channel, id) == OtpWrites(old(OtpOf(channel, id)), sawCount, now)
      ensures forall k :: k != Cooldown(channel, id) && k != OtpCount(channel, id) ==>
                Get(redis.keys, k) == Get(old(redis.keys), k)
    {
      redis.SetEx(Cooldown(channel, id), 1, now, COOLDOWN_SECONDS);
      var _ := redis.Incr(OtpCount(channel, id), now);
      if !sawCount {
        redis.Expire(OtpCount(channel, id), now, OTP_WINDOW_SECONDS);
      }
    }

    /** A request that is alone: a begin and, if admitted, a finish step of the run model. */
    method CheckRateLimit(channel: string, id: string, read: int, write: int) returns (admitted: bool)
      requires read <= write
      modifies redis
      ensures var s := StepTo(Limiter(old(OtpOf(channel, id)), [], [], read), Begin(read));
              admitted == (s.pending != []) &&
              OtpOf(channel, id) == if admitted then StepTo(s, Finish(0, write)).otp else s.otp
      ensures var cooldown, count := Get(old(redis.keys), Cooldown(channel, id)), Get(old(redis.keys), OtpCount(channel, id));
              admitted <==>
              !(cooldown.Some? && (cooldown.value.expiresAt.None? || read < cooldown.value.expiresAt.value)) &&
              !(count.Some? && (count.value.expiresAt.None? || read < count.value.expiresAt.value) && count.value.value >= 5)
      ensures !admitted ==> OtpOf(channel, id) == old(OtpOf(channel, id))
      ensures admitted ==> Get(redis.keys, Cooldown(channel, id)) == Some(Entry(1, Some(write + 60)))
      ensures var count := Get(old(redis.keys), OtpCount(channel, id));
              var seen := count.Some? && (count.value.expiresAt.None? || read < count.value.expiresAt.value);
              var kept := count.Some? && (count.value.expiresAt.None? || write < count.value.expiresAt.value);
              admitted ==>
                Get(redis.keys, OtpCount(channel, id)) ==
                Some(Entry(if kept then count.value.value + 1 else 1,
                           if !seen then Some(write + 3600) else if kept then count.value.expiresAt else None))
      ensures forall k :: k != Cooldown(channel, id) && k != OtpCount(channel, id) ==>
                Get(redis.keys, k) == Get(old(redis.keys), k)
    {
      var sawCount: bool;
      admitted, sawCount := ReadLimits(channel, id, read);
      if admitted {
        WriteLimits(channel, id, sawCount, write);
      }
    }
  }
}
