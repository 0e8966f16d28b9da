/** Failure lockout, for attempts served one at a time, and fixed-window rate limits, over Redis keys
    that expire. */
module Limiters {
  import opened Common
  import opened SlidingWindow

  // ---------------------------------------------------------------- Redis keys with expiry

  datatype Entry = Entry(value: int, expiresAt: Option<int>)

  predicate Live(e: Option<Entry>, now: int) {
    e.Some? && (e.value.expiresAt.Some? ==> now < e.value.expiresAt.value)
  }

  function IncrEntry(e: Option<Entry>, now: int): Entry {
    if Live(e, now) then Entry(e.value.value + 1, e.value.expiresAt) else Entry(1, None)
  }

  function ExpireEntry(e: Option<Entry>, now: int, ttl: int): Option<Entry> {
    if Live(e, now) then Some(Entry(e.value.value, Some(now + ttl))) else None
  }

  datatype Key =
    | Failures(id: string) | Lockout(id: string)
    | Window(prefix: string, id: string)
    | Cooldown(channel: string, id: string) | OtpCount(channel: string, id: string)

  function Get(keys: map<Key, Entry>, k: Key): Option<Entry> {
    if k in keys then Some(keys[k]) else None
  }

  function Put(keys: map<Key, Entry>, k: Key, e: Option<Entry>): (r: map<Key, Entry>)
    ensures Get(r, k) == e
    ensures forall k' :: k' != k ==> Get(r, k') == Get(keys, k')
  {
    if e.Some? then keys[k := e.value] else keys - {k}
  }

  /** The commands of the client library that the services use. */
  class Redis {
    var keys: map<Key, Entry>

    method Exists(k: Key, now: int) returns (b: bool)
      ensures b == Live(Get(keys, k), now)
    {
      b := k in keys && (keys[k].expiresAt.Some? ==> now < keys[k].expiresAt.value);
    }

    method Incr(k: Key, now: int) returns (n: int)
      modifies this
      ensures keys == Put(old(keys), k, Some(IncrEntry(Get(old(keys), k), now))) && n == keys[k].value
    {
      var live := Exists(k, now);
      if live {
        keys := keys[k := Entry(keys[k].value + 1, keys[k].expiresAt)];
      } else {
        keys := keys[k := Entry(1, None)];
      }
      n := keys[k].value;
    }

    method Expire(k: Key, now: int, ttl: int)
      modifies this
      ensures keys == Put(old(keys), k, ExpireEntry(Get(old(keys), k), now, ttl))
    {
      var live := Exists(k, now);
      if live {
        keys := keys[k := Entry(keys[k].value, Some(now + ttl))];
      } else {
        keys := keys - {k};
      }
    }

    method SetEx(k: Key, value: int, now: int, ttl: int)
      modifies this
      ensures keys == Put(old(keys), k, Some(Entry(value, Some(now + ttl))))
    {
      keys := keys[k := Entry(value, Some(now + ttl))];
    }

    method Del(k: Key)
      modifies this
      ensures keys == Put(old(keys), k, None)
    {
      keys := keys - {k};
    }
  }

  // ---------------------------------------------------------------- failures and lockout

  function Max(a: int, b: int): int {
    if a >= b then a else b
  }

  /** The two keys of one identifier. */
  datatype Guard = Guard(failures: Option<Entry>, lockout: Option<Entry>)

  const CLEAR: Guard := Guard(None, None)

  function AfterFailure(g: Guard, now: int, maxAttempts: int, ttl: int): Guard {
    var counted := IncrEntry(g.failures, now);
    if counted.value >= maxAttempts then Guard(None, Some(Entry(1, Some(now + ttl))))
    else Guard(if counted.value == 1 then ExpireEntry(Some(counted), now, ttl) else Some(counted), g.lockout)
  }

  /** The failures recorded among attempts that would all fail, at the given instants. */
  function Recorded(g: Guard, attempts: seq<int>, maxAttempts: int, ttl: int): seq<int>
    decreases |attempts|
  {
    if attempts == [] then []
    else if Live(g.lockout, attempts[0]) then Recorded(g, attempts[1..], maxAttempts, ttl)
    else [attempts[0]] + Recorded(AfterFailure(g, attempts[0], maxAttempts, ttl), attempts[1..], maxAttempts, ttl)
  }

  ghost predicate GuardFollows(g: Guard, recorded: seq<int>, maxAttempts: int, ttl: int) {
    var prev, cap := Max(1, maxAttempts - 1), Max(1, maxAttempts);
    match g.failures
    case Some(e) =>
      && 1 <= e.value < maxAttempts && e.value <= |recorded|
      && Open(recorded, |recorded| - e.value, prev, cap, ttl)
      && e.expiresAt == Some(recorded[|recorded| - e.value] + ttl)
    case None =>
      && Sorted(recorded) && Spaced(recorded, prev + cap - 1, ttl)
      && (recorded != [] ==>
            g.lockout.Some? && g.lockout.value.expiresAt == Some(recorded[|recorded| - 1] + ttl))
  }

  lemma AfterFailureFollows(g: Guard, recorded: seq<int>, now: int, maxAttempts: int, ttl: int)
    requires ttl >= 1 && GuardFollows(g, recorded, maxAttempts, ttl) && !Live(g.lockout, now)
    requires recorded != [] ==> recorded[|recorded| - 1] <= now
    ensures GuardFollows(AfterFailure(g, now, maxAttempts, ttl), recorded + [now], maxAttempts, ttl)
  {
    var prev, cap := Max(1, maxAttempts - 1), Max(1, maxAttempts);
    if g.failures.Some? {
      var j := |recorded| - g.failures.value.value;
      if Live(g.failures, now) {
        Extend(recorded, j, prev, cap, ttl, now);
        assert (recorded + [now])[j] == recorded[j];
      } else {
        Reopen(recorded, j, prev, cap, ttl, now);
      }
    } else {
      OpenAfterGap(recorded, prev, cap, ttl, now);
    }
  }

  lemma {:induction false} RecordedSpaced(g: Guard, before: seq<int>, attempts: seq<int>, maxAttempts: int, ttl: int)
    requires ttl >= 1 && Sorted(attempts) && GuardFollows(g, before, maxAttempts, ttl)
    requires before != [] && attempts != [] ==> before[|before| - 1] <= attempts[0]
    ensures var all := before + Recorded(g, attempts, maxAttempts, ttl);
            Sorted(all) && Spaced(all, Max(1, maxAttempts - 1) + Max(1, maxAttempts) - 1, ttl)
    decreases |attempts|
  {
    if attempts == [] {
      assert before + [] == before;
    } else {
      var t, rest := attempts[0], attempts[1..];
      if Live(g.lockout, t) {
        RecordedSpaced(g, before, rest, maxAttempts, ttl);
      } else {
        var g' := AfterFailure(g, t, maxAttempts, ttl);
        AfterFailureFollows(g, before, t, maxAttempts, ttl);
        RecordedSpaced(g', before + [t], rest, maxAttempts, ttl);
        Assoc(before, [t], Recorded(g', rest, maxAttempts, ttl));
      }
    }
  }

  /** Lockout bound: between two clearings of an identifier, no half-open interval of the lockout
      length holds more than 2 * maxAttempts - 2 recorded failures (one, if maxAttempts is 1). */
  lemma LockoutBound(attempts: seq<int>, maxAttempts: int, ttl: int, from: int)
    requires ttl >= 1 && Sorted(attempts)
    ensures CountIn(Recorded(CLEAR, attempts, maxAttempts, ttl), from, ttl) <= Max(1, 2 * maxAttempts - 2)
  {
    var recorded := Recorded(CLEAR, attempts, maxAttempts, ttl);
    RecordedSpaced(CLEAR, [], attempts, maxAttempts, ttl);
    assert [] + recorded == recorded;
    SpacedBound(recorded, Max(1, maxAttempts - 1) + Max(1, maxAttempts) - 1, ttl, from);
  }

  /** The failure that reaches the limit locks: nothing is recorded in the ttl that follows it. */
  lemma {:induction false} NothingRecordedWhileLocked(g: Guard, now: int, attempts: seq<int>, maxAttempts: int, ttl: int)
    requires IncrEntry(g.failures, now).value >= maxAttempts
    ensures forall t <- Recorded(AfterFailure(g, now, maxAttempts, ttl), attempts, maxAttempts, ttl) ::
              t in attempts && (Sorted(attempts) ==> now + ttl <= t)
    decreases |attempts|
  {
    var locked := AfterFailure(g, now, maxAttempts, ttl);
    if attempts == [] {
    } else {
      if Live(locked.lockout, attempts[0]) {
        NothingRecordedWhileLocked(g, now, attempts[1..], maxAttempts, ttl);
      } else {
        RecordedAmong(locked, attempts, maxAttempts, ttl);
      }
    }
  }

  lemma {:induction false} RecordedAmong(g: Guard, attempts: seq<int>, maxAttempts: int, ttl: int)
    ensures forall t <- Recorded(g, attempts, maxAttempts, ttl) :: t in attempts
    decreases |attempts|
  {
    if attempts == [] {
    } else {
      RecordedAmong(g, attempts[1..], maxAttempts, ttl);
      RecordedAmong(AfterFailure(g, attempts[0], maxAttempts, ttl), attempts[1..], maxAttempts, ttl);
    }
  }

  /** What a credential check finds out. */
  datatype Credentials = Wrong | Restricted | Right

  /** The authentication service's guards, over the Redis keys. */
  class AuthGuards {
    const redis: Redis
    const maxAttempts: int
    const lockoutTtl: int

    constructor (redis: Redis, maxAttempts: int, lockoutTtl: int)
      ensures this.redis == redis && this.maxAttempts == maxAttempts && this.lockoutTtl == lockoutTtl
    {
      this.redis, this.maxAttempts, this.lockoutTtl := redis, maxAttempts, lockoutTtl;
    }

    function GuardOf(id: string): Guard
      reads redis
    {
      Guard(Get(redis.keys, Failures(id)), Get(redis.keys, Lockout(id)))
    }

    /** Only the two keys of the identifier may differ. */
    twostate predicate OnlyGuard(id: string)
      reads redis
    {
      forall k :: k != Failures(id) && k != Lockout(id) ==> Get(redis.keys, k) == Get(old(redis.keys), k)
    }

    method CheckLockout(id: string, now: int) returns (locked: bool)
      ensures locked == Live(GuardOf(id).lockout, now)
      ensures var lockout := Get(redis.keys, Lockout(id));
              locked <==> lockout.Some? && (lockout.value.expiresAt.None? || now < lockout.value.expiresAt.value)
    {
      locked := redis.Exists(Lockout(id), now);
    }

    method RecordFailure(id: string, now: int) returns (locked: bool)
      modifies redis
      ensures GuardOf(id) == AfterFailure(old(GuardOf(id)), now, maxAttempts, lockoutTtl)
      ensures locked == (IncrEntry(old(GuardOf(id)).failures, now).value >= maxAttempts)
      ensures var failures := Get(old(redis.keys), Failures(id));
              var alive := failures.Some? && (failures.value.expiresAt.None? || now < failures.value.expiresAt.value);
              var n := if alive then failures.value.value + 1 else 1;
              locked == (n >= maxAttempts) &&
              (locked ==> GuardOf(id) == Guard(None, Some(Entry(1, Some(now + lockoutTtl))))) &&
              (!locked ==>
                 (GuardOf(id).lockout == old(GuardOf(id).lockout) &&
                  (n > 1 ==> GuardOf(id).failures == Some(Entry(n, if alive then failures.value.expiresAt else None))) &&
                  (n == 1 && !alive ==> GuardOf(id).failures == Some(Entry(1, Some(now + lockoutTtl))))))
      ensures OnlyGuard(id)
    {
      var failures := redis.Incr(Failures(id), now);
      if failures == 1 {
        redis.Expire(Failures(id), now, lockoutTtl);
      }
      locked := failures >= maxAttempts;
      if locked {
        redis.SetEx(Lockout(id), 1, now, lockoutTtl);
        redis.Del(Failures(id));
      }
    }

    method ClearFailures(id: string)
      modifies redis
      ensures GuardOf(id) == CLEAR && OnlyGuard(id)
    {
      redis.Del(Failures(id));
      redis.Del(Lockout(id));
    }

    /** A credential check as login, OTP verification and password reset make it: fail fast when
        locked, record a failure, clear on success; a restricted account is refused without either. */
    method Attempt(id: string, credentials: Credentials, now: int) returns (recorded: bool)
      modifies redis
      ensures recorded == (credentials == Wrong && !Live(old(GuardOf(id)).lockout, now))
      ensures recorded ==> GuardOf(id) == AfterFailure(old(GuardOf(id)), now, maxAttempts, lockoutTtl)
      ensures Live(old(GuardOf(id)).lockout, now) || credentials == Restricted ==> GuardOf(id) == old(GuardOf(id))
      ensures credentials == Right && !Live(old(GuardOf(id)).lockout, now) ==> GuardOf(id) == CLEAR
      ensures OnlyGuard(id)
    {
      var locked := CheckLockout(id, now);
      recorded := false;
      if !locked {
        match credentials
        case Right => ClearFailures(id);
        case Restricted =>
        case Wrong =>
          var _ := RecordFailure(id, now);
          recorded := true;
      }
    }

    /** INCR, then EXPIRE by the call that created the counter; the clock may move in between. */
    method CheckAccountRateLimit(prefix: string, id: string, limit: int, ttl: int, now: int, later: int)
      returns (admitted: bool)
      requires now <= later
      modifies redis
      ensures var w := FixedStep(Fixed(Get(old(redis.keys), Window(prefix, id)), 0), IncrAt(now), ttl);
              admitted == (w.entry.value.value <= limit) &&
              Get(redis.keys, Window(prefix, id)) ==
              if w.pending == 0 then w.entry else FixedStep(w, ExpireAt(later), ttl).entry
      ensures var window := Get(old(redis.keys), Window(prefix, id));
              var alive := window.Some? && (window.value.expiresAt.None? || now < window.value.expiresAt.value);
              var n := if alive then window.value.value + 1 else 1;
              admitted == (n <= limit) &&
              (!alive ==> Get(redis.keys, Window(prefix, id)) == Some(Entry(1, Some(later + ttl)))) &&
              (alive && n != 1 ==> Get(redis.keys, Window(prefix, id)) == Some(Entry(n, window.value.expiresAt)))
    {
      var current := redis.Incr(Window(prefix, id), now);
      if current == 1 {
        redis.Expire(Window(prefix, id), later, ttl);
      }
      admitted := current <= limit;
    }
  }

  // ---------------------------------------------------------------- fixed-window rate limit

  /** One command of one of any number of concurrent calls on the same counter. */
  datatype Command = IncrAt(now: int) | ExpireAt(now: int)

  /** The counter, and how many calls have created it and not yet set its expiry. */
  datatype Fixed = Fixed(entry: Option<Entry>, pending: nat)

  function FixedStep(w: Fixed, c: Command, ttl: int): Fixed {
    match c
    case IncrAt(now) =>
      var e := IncrEntry(w.entry, now);
      Fixed(Some(e), if e.value == 1 then w.pending + 1 else w.pending)
    case ExpireAt(now) =>
      Fixed(ExpireEntry(w.entry, now, ttl), if w.pending > 0 then w.pending - 1 else 0)
  }

  /** Every INCR that creates the counter owes one EXPIRE, and every EXPIRE pays one. */
  lemma ExpiryOwed(w: Fixed, now: int, ttl: int)
    ensures FixedStep(w, IncrAt(now), ttl).pending == if FixedStep(w, IncrAt(now), ttl).entry.value.value == 1 then w.pending + 1 else w.pending
    ensures w.pending > 0 ==> FixedStep(w, ExpireAt(now), ttl).pending + 1 == w.pending
  {
  }

  /** Calls interleave freely: the clock never goes back, and an EXPIRE needs a call that is owed one. */
  ghost predicate Interleaving(w: Fixed, since: int, commands: seq<Command>, ttl: int)
    decreases |commands|
  {
    commands == [] ||
    (since <= commands[0].now && (commands[0].ExpireAt? ==> w.pending > 0) &&
     Interleaving(FixedStep(w, commands[0], ttl), commands[0].now, commands[1..], ttl))
  }

  /** The instants at which the command admits its call: none or one. */
  function Admits(w: Fixed, c: Command, limit: int): seq<int> {
    if c.IncrAt? && IncrEntry(w.entry, c.now).value <= limit then [c.now] else []
  }

  function Admitted(w: Fixed, commands: seq<Command>, limit: int, ttl: int): seq<int>
    decreases |commands|
  {
    if commands == [] then []
    else Admits(w, commands[0], limit) + Admitted(FixedStep(w, commands[0], ttl), commands[1..], limit, ttl)
  }

  function Min(a: int, b: int): int {
    if a <= b then a else b
  }

  ghost predicate FixedFollows(w: Fixed, admitted: seq<int>, limit: int, ttl: int) {
    match w.entry
    case None => admitted == [] && w.pending == 0
    case Some(e) =>
      var m := Min(e.value, limit);
      && 1 <= m <= |admitted|
      && Open(admitted, |admitted| - m, limit, limit, ttl)
      && w.pending == (if e.expiresAt.None? then 1 else 0)
      && (e.expiresAt.Some? ==> admitted[|admitted| - m] + ttl <= e.expiresAt.value)
  }

  lemma StepFollows(w: Fixed, admitted: seq<int>, c: Command, limit: int, ttl: int)
    requires limit >= 1 && ttl >= 1 && FixedFollows(w, admitted, limit, ttl)
    requires admitted != [] ==> admitted[|admitted| - 1] <= c.now
    requires c.ExpireAt? ==> w.pending > 0
    ensures FixedFollows(FixedStep(w, c, ttl), admitted + Admits(w, c, limit), limit, ttl)
  {
    var now := c.now;
    assert admitted + [] == admitted;
    if c.IncrAt? {
      if w.entry.None? {
        OpenAfterGap(admitted, limit, limit, ttl, now);
      } else {
        var j := |admitted| - Min(w.entry.value.value, limit);
        if !Live(w.entry, now) {
          Reopen(admitted, j, limit, limit, ttl, now);
        } else if w.entry.value.value < limit {
          Extend(admitted, j, limit, limit, ttl, now);
          assert (admitted + [now])[j] == admitted[j];
        }
      }
    }
  }

  lemma {:induction false} AdmittedSpaced(w: Fixed, before: seq<int>, since: int, commands: seq<Command>, limit: int, ttl: int)
    requires limit >= 1 && ttl >= 1 && FixedFollows(w, before, limit, ttl)
    requires Interleaving(w, since, commands, ttl)
    requires before != [] ==> before[|before| - 1] <= since
    ensures var all := before + Admitted(w, commands, limit, ttl);
            Sorted(all) && Spaced(all, 2 * limit - 1, ttl)
    decreases |commands|
  {
    if commands == [] {
      assert before + [] == before;
    } else {
      var c := commands[0];
      var w', now := FixedStep(w, c, ttl), Admits(w, c, limit);
      StepFollows(w, before, c, limit, ttl);
      AdmittedSpaced(w', before + now, c.now, commands[1..], limit, ttl);
      Assoc(before, now, Admitted(w', commands[1..], limit, ttl));
    }
  }

  /** Fixed-window bound: however the commands of concurrent calls interleave, no half-open interval
      of length ttl sees more than 2 * limit - 1 admissions. */
  lemma FixedWindowBound(since: int, commands: seq<Command>, limit: int, ttl: int, from: int)
    requires limit >= 1 && ttl >= 1 && Interleaving(Fixed(None, 0), since, commands, ttl)
    ensures CountIn(Admitted(Fixed(None, 0), commands, limit, ttl), from, ttl) <= 2 * limit - 1
  {
    var admitted, b := Admitted(Fixed(None, 0), commands, limit, ttl), 2 * limit - 1;
    assert Sorted(admitted) && Spaced(admitted, b, ttl) by {
      AdmittedSpaced(Fixed(None, 0), [], since, commands, limit, ttl);
      assert [] + admitted == admitted;
    }
    SpacedBound(admitted, b, ttl, from);
  }

  /** Every INCR finds the counter alive, so all of them belong to its window. */
  ghost predicate SameWindow(w: Fixed, commands: seq<Command>, ttl: int)
    decreases |commands|
  {
    commands == [] ||
    ((commands[0].IncrAt? ==> Live(w.entry, commands[0].now)) && SameWindow(FixedStep(w, commands[0], ttl), commands[1..], ttl))
  }

  function Calls(commands: seq<Command>): nat {
    if commands == [] then 0 else (if commands[0].IncrAt? then 1 else 0) + Calls(commands[1..])
  }

  lemma {:induction false} RestOfWindow(w: Fixed, commands: seq<Command>, limit: int, ttl: int)
    requires w.entry.Some? && SameWindow(w, commands, ttl)
    ensures |Admitted(w, commands, limit, ttl)| == Min(Calls(commands), Max(0, limit - w.entry.value.value))
    decreases |commands|
  {
    if commands == [] {
    } else {
      var w' := FixedStep(w, commands[0], ttl);
      if w'.entry.Some? {
        RestOfWindow(w', commands[1..], limit, ttl);
      } else {
        NothingLeft(w', commands[1..], limit, ttl);
      }
    }
  }

  lemma {:induction false} NothingLeft(w: Fixed, commands: seq<Command>, limit: int, ttl: int)
    requires w.entry == None && SameWindow(w, commands, ttl)
    ensures Calls(commands) == 0 && Admitted(w, commands, limit, ttl) == []
    decreases |commands|
  {
    if commands == [] {
    } else {
      NothingLeft(FixedStep(w, commands[0], ttl), commands[1..], limit, ttl);
    }
  }

  /** One counter window, from the call that creates the counter on: exactly the first limit calls are
      admitted. */
  lemma WindowLimit(w: Fixed, now: int, commands: seq<Command>, limit: int, ttl: int)
    requires limit >= 1 && !Live(w.entry, now) && SameWindow(FixedStep(w, IncrAt(now), ttl), commands, ttl)
    ensures |Admitted(w, [IncrAt(now)] + commands, limit, ttl)| == Min(1 + Calls(commands), limit)
  {
    RestOfWindow(FixedStep(w, IncrAt(now), ttl), commands, limit, ttl);
    assert ([IncrAt(now)] + commands)[1..] == commands;
  }

  // ---------------------------------------------------------------- the lockout bound is attained

  function Copies(t: int, k: nat): (r: seq<int>)
    ensures |r| == k && forall i :: 0 <= i < k ==> r[i] == t
  {
    seq(k, i => t)
  }

  lemma {:induction false} CountCopies(times: seq<int>, t: int, k: nat, from: int, w: int)
    requires from <= t < from + w
    ensures CountIn(times + Copies(t, k), from, w) == CountIn(times, from, w) + k
  {
    var all := times + Copies(t, k);
    if k == 0 {
      assert all == times;
    } else {
      CountCopies(times, t, k - 1, from, w);
      assert all[..|all| - 1] == times + Copies(t, k - 1);
    }
  }

  /** k more failures at one instant, too few to lock. */
  lemma {:induction false} Burst(g: Guard, t: int, k: nat, rest: seq<int>, maxAttempts: int, ttl: int)
    requires !Live(g.lockout, t) && Live(g.failures, t) && g.failures.value.value >= 1
    requires g.failures.value.value + k < maxAttempts
    ensures var e := g.failures.value;
            Recorded(g, Copies(t, k) + rest, maxAttempts, ttl) ==
            Copies(t, k) + Recorded(Guard(Some(Entry(e.value + k, e.expiresAt)), g.lockout), rest, maxAttempts, ttl)
    decreases k
  {
    if k == 0 {
      assert Copies(t, 0) + rest == rest;
    } else {
      var more := Copies(t, k - 1) + rest;
      assert Copies(t, k) + rest == [t] + more && ([t] + more)[1..] == more;
      Burst(AfterFailure(g, t, maxAttempts, ttl), t, k - 1, rest, maxAttempts, ttl);
      assert Copies(t, k) == [t] + Copies(t, k - 1);
    }
  }

  /** One failure at 0, maxAttempts - 2 at the end of its window, maxAttempts in the next window. */
  function WorstCase(maxAttempts: int, ttl: int): seq<int>
    requires maxAttempts >= 3
  {
    [0] + (Copies(ttl - 1, maxAttempts - 2) + ([ttl] + (Copies(ttl, maxAttempts - 2) + [ttl])))
  }

  lemma WorstCaseIsRecorded(maxAttempts: int, ttl: int)
    requires maxAttempts >= 3 && ttl >= 2
    ensures Recorded(CLEAR, WorstCase(maxAttempts, ttl), maxAttempts, ttl) == WorstCase(maxAttempts, ttl)
  {
    var g1 := Guard(Some(Entry(1, Some(ttl))), None);
    var g2 := Guard(Some(Entry(maxAttempts - 1, Some(ttl))), None);
    var g3 := Guard(Some(Entry(1, Some(2 * ttl))), None);
    var g4 := Guard(Some(Entry(maxAttempts - 1, Some(2 * ttl))), None);
    var tail := Copies(ttl, maxAttempts - 2) + [ttl];
    var second := [ttl] + tail;
    var first := Copies(ttl - 1, maxAttempts - 2) + second;
    Burst(g1, ttl - 1, maxAttempts - 2, second, maxAttempts, ttl);
    Burst(g3, ttl, maxAttempts - 2, [ttl], maxAttempts, ttl);
    assert Recorded(g4, [ttl], maxAttempts, ttl) == [ttl];
    RecordedStep(g2, ttl, tail, maxAttempts, ttl);
    assert AfterFailure(g2, ttl, maxAttempts, ttl) == g3;
    RecordedStep(CLEAR, 0, first, maxAttempts, ttl);
    assert AfterFailure(CLEAR, 0, maxAttempts, ttl) == g1;
  }

  lemma RecordedStep(g: Guard, t: int, rest: seq<int>, maxAttempts: int, ttl: int)
    requires !Live(g.lockout, t)
    ensures Recorded(g, [t] + rest, maxAttempts, ttl) ==
            [t] + Recorded(AfterFailure(g, t, maxAttempts, ttl), rest, maxAttempts, ttl)
  {
    assert ([t] + rest)[1..] == rest;
  }

  lemma WorstCaseSorted(maxAttempts: int, ttl: int)
    requires maxAttempts >= 3 && ttl >= 2
    ensures WorstCase(maxAttempts, ttl) == ([0] + Copies(ttl - 1, maxAttempts - 2)) + Copies(ttl, maxAttempts)
    ensures Sorted(WorstCase(maxAttempts, ttl))
  {
  }

  /** For every configuration some run does reach 2 * maxAttempts - 2 failures in one interval. */
  lemma LockoutBoundAttained(maxAttempts: int, ttl: int)
    requires maxAttempts >= 3 && ttl >= 2
    ensures Sorted(WorstCase(maxAttempts, ttl))
    ensures CountIn(Recorded(CLEAR, WorstCase(maxAttempts, ttl), maxAttempts, ttl), ttl - 1, ttl) == 2 * maxAttempts - 2
  {
    WorstCaseIsRecorded(maxAttempts, ttl);
    WorstCaseSorted(maxAttempts, ttl);
    var before := [0] + Copies(ttl - 1, maxAttempts - 2);
    CountCopies(before, ttl, maxAttempts, ttl - 1, ttl);
    CountCopies([0], ttl - 1, maxAttempts - 2, ttl - 1, ttl);
    CountSkipsEarly([0], ttl - 1, ttl, 1);
  }
}
