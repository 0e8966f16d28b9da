/** The cache in front of a bucketed query. Nothing deletes its keys: rows are cached for a minute while
    samples keep arriving. */
module TelemetryCache {
  import opened Common
  import opened Telemetry
  import Cache

  const CACHE_SECONDS := 60

  datatype Question = Question(devices: set<nat>, start: int, end: int, interval: nat)

  type Asked = q: Question | q.interval > 0 witness Question({}, 0, 0, 1)

  function RowsOf(samples: seq<Sample>, q: Asked): seq<Group> {
    Query(samples, q.devices, q.start, q.end, q.interval)
  }

  /** A request looks the key up, and if it misses, queries the rows and stores them later. */
  datatype Step = Ask(now: int) | QueryRows(now: int) | StoreRows(k: nat, now: int) | Arrive(sample: Sample, now: int)

  function SamplesAfter(samples: seq<Sample>, steps: seq<Step>): seq<Sample> {
    if steps == [] then samples
    else
      var before := SamplesAfter(samples, steps[..|steps| - 1]);
      if steps[|steps| - 1].Arrive? then before + [steps[|steps| - 1].sample] else before
  }

  /** The step as the key sees it; samples are those before it. */
  function KeyStep(samples: seq<Sample>, q: Asked, step: Step): Cache.Step<seq<Group>> {
    match step
    case Ask(now) => Cache.Look(now)
    case QueryRows(now) => Cache.Take(now)
    case StoreRows(k, now) => Cache.Fill(k, now)
    case Arrive(sample, now) => Cache.Write(RowsOf(samples + [sample], q), false, now)
  }

  function KeySteps(samples: seq<Sample>, q: Asked, steps: seq<Step>): (r: seq<Cache.Step<seq<Group>>>)
    ensures |r| == |steps|
  {
    if steps == [] then []
    else
      var most := steps[..|steps| - 1];
      KeySteps(samples, q, most) + [KeyStep(SamplesAfter(samples, most), q, steps[|steps| - 1])]
  }

  function Start(samples: seq<Sample>, q: Asked, clock: int): Cache.Line<seq<Group>> {
    Cache.Start(RowsOf(samples, q), clock)
  }

  /** The key after the steps. */
  function LineAfter(samples: seq<Sample>, q: Asked, clock: int, steps: seq<Step>): Cache.Line<seq<Group>> {
    Cache.RunTo(Start(samples, q, clock), KeySteps(samples, q, steps), CACHE_SECONDS)
  }

  lemma {:induction false} ViewIsQuery(samples: seq<Sample>, q: Asked, clock: int, steps: seq<Step>)
    ensures LineAfter(samples, q, clock, steps).view == RowsOf(SamplesAfter(samples, steps), q)
  {
    if steps == [] {
    } else {
      var most := steps[..|steps| - 1];
      ViewIsQuery(samples, q, clock, most);
      assert KeySteps(samples, q, steps)[..|most|] == KeySteps(samples, q, most);
    }
  }

  lemma {:induction false} PrefixOfKeySteps(samples: seq<Sample>, q: Asked, steps: seq<Step>, i: nat)
    requires i <= |steps|
    ensures KeySteps(samples, q, steps)[..i] == KeySteps(samples, q, steps[..i])
    ensures i < |steps| ==> KeySteps(samples, q, steps)[i] == KeyStep(SamplesAfter(samples, steps[..i]), q, steps[i])
  {
    if i == |steps| {
      assert steps[..i] == steps;
    } else {
      var most := steps[..|steps| - 1];
      PrefixOfKeySteps(samples, q, most, i);
      assert most[..i] == steps[..i];
      assert KeySteps(samples, q, steps)[..i] == KeySteps(samples, q, most)[..i];
    }
  }

  lemma {:induction false} NothingDeletes(samples: seq<Sample>, q: Asked, clock: int, steps: seq<Step>)
    ensures LineAfter(samples, q, clock, steps).slot.deletes == 0
  {
    if steps == [] {
    } else {
      var most := steps[..|steps| - 1];
      NothingDeletes(samples, q, clock, most);
      assert KeySteps(samples, q, steps)[..|most|] == KeySteps(samples, q, most);
    }
  }

  /** Whatever overlaps: a hit serves the rows of the samples that were there when step i queried them, and
      step j stored just those, less than a minute ago. */
  lemma {:induction false} TelemetryHitWasQueried(samples: seq<Sample>, q: Asked, clock: int, steps: seq<Step>, now: int)
    returns (i: nat, j: nat)
    requires Cache.Hit(LineAfter(samples, q, clock, steps).slot, now)
    ensures i < j < |steps| && steps[i].QueryRows? && steps[j].StoreRows? && now < steps[j].now + 60
    ensures Cache.Served(LineAfter(samples, q, clock, steps), now) == RowsOf(SamplesAfter(samples, steps[..i]), q)
    ensures Cache.Storing(Start(samples, q, clock), KeySteps(samples, q, steps), CACHE_SECONDS, j) ==
            Some(Cache.Taken(RowsOf(SamplesAfter(samples, steps[..i]), q), steps[i].now))
  {
    i, j := Cache.HitWasTaken(RowsOf(samples, q), clock, KeySteps(samples, q, steps), CACHE_SECONDS, now);
    PrefixOfKeySteps(samples, q, steps, i);
    PrefixOfKeySteps(samples, q, steps, j);
    ViewIsQuery(samples, q, clock, steps[..i]);
  }

  /** So if every request stores its rows within d of querying them, rows served are less than 60 + d seconds
      old. */
  lemma {:induction false} TelemetryHitIsFresh(samples: seq<Sample>, q: Asked, clock: int, steps: seq<Step>, d: int, now: int)
    returns (i: nat)
    requires Cache.Hit(LineAfter(samples, q, clock, steps).slot, now)
    requires Cache.FillsWithin(Start(samples, q, clock), KeySteps(samples, q, steps), CACHE_SECONDS, d)
    ensures i < |steps| && steps[i].QueryRows? && now < steps[i].now + 60 + d
    ensures Cache.Served(LineAfter(samples, q, clock, steps), now) == RowsOf(SamplesAfter(samples, steps[..i]), q)
  {
    i := Cache.HitIsFresh(RowsOf(samples, q), clock, KeySteps(samples, q, steps), CACHE_SECONDS, d, now);
    PrefixOfKeySteps(samples, q, steps, i);
    ViewIsQuery(samples, q, clock, steps[..i]);
  }

  /** While rows are cached and current, an arriving sample makes them outdated if and only if it is asked
      for and brings a value or a row of its own. */
  lemma ArrivalOutdatesIff(samples: seq<Sample>, q: Asked, clock: int, steps: seq<Step>, s: Sample, now: int)
    requires var l := LineAfter(samples, q, clock, steps); Cache.Coherent(l) && l.clock <= now && Cache.Hit(l.slot, now)
    ensures !Cache.Coherent(LineAfter(samples, q, clock, steps + [Arrive(s, now)])) <==>
            InRange(q.devices, q.start, q.end)(s) &&
            (s.value.Some? ||
             Lookup(RowsOf(SamplesAfter(samples, steps), q), BucketOf(q.interval * 60000)(s.time), s.device) == None)
  {
    var l, all := LineAfter(samples, q, clock, steps), steps + [Arrive(s, now)];
    var step := KeyStep(SamplesAfter(samples, steps), q, Arrive(s, now));
    assert all[..|steps|] == steps;
    assert KeySteps(samples, q, all)[..|steps|] == KeySteps(samples, q, steps);
    assert LineAfter(samples, q, clock, all) == Cache.StepTo(l, step, CACHE_SECONDS);
    NothingDeletes(samples, q, clock, steps);
    Cache.StepKeepsCoherenceIff(l, step, CACHE_SECONDS);
    ViewIsQuery(samples, q, clock, steps);
    InsertChangesRowsIff(SamplesAfter(samples, steps), s, q.devices, q.start, q.end, q.interval);
  }
}
