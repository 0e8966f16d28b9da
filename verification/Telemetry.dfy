/** Chart telemetry: the choice of the bucket width, the bucketed query and the rounding of its cells. */
module Telemetry {
  import opened Common

  // ---------------------------------------------------------------- bucket width

  const BUCKETS: seq<int> := [1, 2, 3, 5, 10, 15, 30, 60, 120, 180, 240, 360, 720, 1440, 2880, 4320, 10080, 43200]

  function Distance(bucket: int, raw: real): real {
    if bucket as real >= raw then bucket as real - raw else raw - bucket as real
  }

  /** The smallest of the first n buckets at minimal distance. */
  ghost predicate NearestAmong(n: nat, bucket: int, raw: real)
    requires n <= |BUCKETS|
  {
    (exists i :: 0 <= i < n && BUCKETS[i] == bucket) &&
    forall i :: 0 <= i < n ==>
      Distance(bucket, raw) <= Distance(BUCKETS[i], raw) &&
      (Distance(bucket, raw) == Distance(BUCKETS[i], raw) ==> bucket <= BUCKETS[i])
  }

  ghost predicate Nearest(bucket: int, raw: real) {
    NearestAmong(|BUCKETS|, bucket, raw)
  }

  /** A hundredth of the range, in minutes; start and end are instants in milliseconds. */
  function RawInterval(start: int, end: int): (raw: real)
    ensures raw >= 0.0
  {
    (if end >= start then end - start else start - end) as real / 60000.0 / 100.0
  }

  /** How far a chart of 100 points of this many minutes is from a range in milliseconds. */
  function Off(bucket: int, range: int): int {
    if bucket * 6000000 >= range then bucket * 6000000 - range else range - bucket * 6000000
  }

  /** In milliseconds: one of the buckets, none of which makes a better chart of 100 points; of two equally
      good ones the smaller. */
  ghost predicate BestForHundred(bucket: int, range: int) {
    bucket in BUCKETS && forall b <- BUCKETS :: Off(bucket, range) < Off(b, range) || (Off(bucket, range) == Off(b, range) && bucket <= b)
  }

  lemma OffIsDistance(bucket: int, start: int, end: int)
    ensures var range := if start <= end then end - start else start - end;
            Off(bucket, range) as real == Distance(bucket, RawInterval(start, end)) * 6000000.0
  {
  }

  lemma NearestIsBest(bucket: int, start: int, end: int)
    requires Nearest(bucket, RawInterval(start, end))
    ensures BestForHundred(bucket, if start <= end then end - start else start - end)
  {
    var range := if start <= end then end - start else start - end;
    OffIsDistance(bucket, start, end);
    forall b | b in BUCKETS
      ensures Off(bucket, range) < Off(b, range) || (Off(bucket, range) == Off(b, range) && bucket <= b)
    {
      var i :| 0 <= i < |BUCKETS| && BUCKETS[i] == b;
      OffIsDistance(b, start, end);
      assert Distance(bucket, RawInterval(start, end)) <= Distance(BUCKETS[i], RawInterval(start, end));
    }
  }

  method AutoInterval(start: int, end: int) returns (interval: int)
    ensures Nearest(interval, RawInterval(start, end))
    ensures BestForHundred(interval, if start <= end then end - start else start - end)
  {
    var diffMs := if end >= start then end - start else start - end;
    var diffMinutes := diffMs as real / 60000.0;
    ghost var raw := RawInterval(start, end);
    if diffMinutes <= 15.0 {
      SmallRange(raw);
      NearestIsBest(1, start, end);
      return 1;
    }
    var rawInterval := diffMinutes / 100.0;
    var snapped := BUCKETS[0];
    var minDiff := Distance(BUCKETS[0], rawInterval);
    for i := 1 to |BUCKETS|
      invariant NearestAmong(i, snapped, raw) && minDiff == Distance(snapped, raw)
    {
      var diff := Distance(BUCKETS[i], rawInterval);
      Ascending(i);
      if diff < minDiff {
        minDiff := diff;
        snapped := BUCKETS[i];
      }
    }
    interval := snapped;
    NearestIsBest(interval, start, end);
  }

  lemma Ascending(i: nat)
    requires 0 < i < |BUCKETS|
    ensures forall j :: 0 <= j < i ==> BUCKETS[j] < BUCKETS[i]
    ensures BUCKETS[i] > BUCKETS[0] == 1
  {
  }

  lemma SmallRange(raw: real)
    requires 0.0 <= raw <= 0.15
    ensures Nearest(1, raw)
  {
    assert BUCKETS[0] == 1;
    forall i | 0 <= i < |BUCKETS| ensures 1 <= BUCKETS[i] {
    }
  }

  /** A wider range never gets a smaller bucket, and equal ranges get the same one. */
  lemma IntervalMonotone(b: int, raw: real, b': int, raw': real)
    requires Nearest(b, raw) && Nearest(b', raw') && raw <= raw'
    ensures b <= b'
  {
    var i :| 0 <= i < |BUCKETS| && BUCKETS[i] == b;
    var j :| 0 <= j < |BUCKETS| && BUCKETS[j] == b';
    assert Distance(b, raw) <= Distance(BUCKETS[j], raw) && Distance(b', raw') <= Distance(BUCKETS[i], raw');
  }

  /** Between the midpoints to the neighbouring buckets. */
  lemma NearestMidpoints(i: nat, raw: real)
    requires i < |BUCKETS| && Nearest(BUCKETS[i], raw)
    ensures i > 0 ==> (BUCKETS[i - 1] + BUCKETS[i]) as real < 2.0 * raw
    ensures i < |BUCKETS| - 1 ==> 2.0 * raw <= (BUCKETS[i] + BUCKETS[i + 1]) as real
  {
    if i > 0 {
      Ascending(i);
      assert Distance(BUCKETS[i], raw) <= Distance(BUCKETS[i - 1], raw);
    }
    if i < |BUCKETS| - 1 {
      Ascending(i + 1);
      assert Distance(BUCKETS[i], raw) <= Distance(BUCKETS[i + 1], raw);
    }
  }

  /** 75 to 150 points per chart, as raw is a hundredth of the range. */
  predicate GoodRatio(bucket: int, raw: real) {
    0.75 * bucket as real <= raw <= 1.5 * bucket as real
  }

  /** From 75 minutes to 450 days, 525 to 1050 days, or 2250 to 4500 days. */
  predicate GoodRange(raw: real) {
    0.75 <= raw <= 6480.0 || 7560.0 <= raw <= 15120.0 || 32400.0 <= raw <= 64800.0
  }

  /** The number of points is between 75 and 150 exactly for those ranges. */
  lemma IntervalRatio(bucket: int, raw: real)
    requires raw >= 0.0 && Nearest(bucket, raw)
    ensures GoodRatio(bucket, raw) <==> GoodRange(raw)
  {
    var i :| 0 <= i < |BUCKETS| && BUCKETS[i] == bucket;
    NearestMidpoints(i, raw);
    if i < 15 {
      RatioOfInnerBucket(i, raw);
    }
  }

  lemma RatioOfInnerBucket(i: nat, raw: real)
    requires i < 15 && raw >= 0.0
    requires i > 0 ==> (BUCKETS[i - 1] + BUCKETS[i]) as real < 2.0 * raw
    requires 2.0 * raw <= (BUCKETS[i] + BUCKETS[i + 1]) as real
    ensures GoodRatio(BUCKETS[i], raw) <==> GoodRange(raw)
  {
  }

  // ---------------------------------------------------------------- bucketed query

  /** One stored measurement of one parameter; devices are numbered in the order of their IDs. */
  datatype Sample = Sample(device: nat, time: int, value: Option<real>)

  /** One result row: AVG is sum / count, or null if count is zero. */
  datatype Group = Group(bucket: int, device: nat, sum: real, count: nat, peak: Option<real>)

  /** The start of the bucket of an instant: floor(time / width) * width. */
  function BucketOf(width: int): int -> int
    requires width > 0
  {
    time => time / width * width
  }

  function MaxOf(a: Option<real>, b: Option<real>): Option<real> {
    if a.None? then b else if b.None? then a else if a.value >= b.value then a else b
  }

  function Amount(v: Option<real>): real {
    if v.Some? then v.value else 0.0
  }

  function One(v: Option<real>): nat {
    if v.Some? then 1 else 0
  }

  predicate Before(b: int, d: nat, g: Group) {
    b < g.bucket || (b == g.bucket && d < g.device)
  }

  function Merge(g: Group, v: Option<real>): Group {
    g.(sum := g.sum + Amount(v), count := g.count + One(v), peak := MaxOf(g.peak, v))
  }

  /** Adds one sample to the ordered groups. */
  function Insert(groups: seq<Group>, b: int, d: nat, v: Option<real>): seq<Group> {
    if groups == [] || Before(b, d, groups[0]) then [Group(b, d, Amount(v), One(v), v)] + groups
    else if groups[0].bucket == b && groups[0].device == d then [Merge(groups[0], v)] + groups[1..]
    else [groups[0]] + Insert(groups[1..], b, d, v)
  }

  /** GROUP BY bucket, device with AVG and MAX, ORDER BY bucket, device. */
  function Aggregate(samples: seq<Sample>, f: int -> int): seq<Group>
  {
    if samples == [] then []
    else
      var s := samples[|samples| - 1];
      Insert(Aggregate(samples[..|samples| - 1], f), f(s.time), s.device, s.value)
  }

  function InRange(devices: set<nat>, start: int, end: int): Sample -> bool {
    (s: Sample) => s.device in devices && start <= s.time <= end
  }

  function Query(samples: seq<Sample>, devices: set<nat>, start: int, end: int, intervalMinutes: int): seq<Group>
    requires intervalMinutes > 0
  {
    Aggregate(Filter(InRange(devices, start, end), samples), BucketOf(intervalMinutes * 60000))
  }

  ghost predicate Ordered(groups: seq<Group>) {
    forall i, j :: 0 <= i < j < |groups| ==> Before(groups[i].bucket, groups[i].device, groups[j])
  }

  ghost predicate AllAfter(groups: seq<Group>, b: int, d: nat) {
    forall i :: 0 <= i < |groups| ==> Before(b, d, groups[i])
  }

  lemma {:induction false} InsertAfter(groups: seq<Group>, b: int, d: nat, v: Option<real>, b0: int, d0: nat)
    requires AllAfter(groups, b0, d0) && (b0 < b || (b0 == b && d0 < d))
    ensures AllAfter(Insert(groups, b, d, v), b0, d0)
  {
    if groups == [] {
    } else {
      InsertAfter(groups[1..], b, d, v, b0, d0);
    }
  }

  lemma OrderedCons(g: Group, groups: seq<Group>)
    requires Ordered(groups) && AllAfter(groups, g.bucket, g.device)
    ensures Ordered([g] + groups)
  {
  }

  lemma {:induction false} InsertOrdered(groups: seq<Group>, b: int, d: nat, v: Option<real>)
    requires Ordered(groups)
    ensures Ordered(Insert(groups, b, d, v))
  {
    if groups == [] {
    } else {
      var g, rest := groups[0], groups[1..];
      assert AllAfter(rest, g.bucket, g.device);
      if Before(b, d, g) {
        forall i | 0 <= i < |groups| ensures Before(b, d, groups[i]) {
          assert i > 0 ==> Before(g.bucket, g.device, groups[i]);
        }
        OrderedCons(Group(b, d, Amount(v), One(v), v), groups);
      } else if g.bucket == b && g.device == d {
        OrderedCons(Merge(g, v), rest);
      } else {
        InsertOrdered(rest, b, d, v);
        InsertAfter(rest, b, d, v, g.bucket, g.device);
        OrderedCons(g, Insert(rest, b, d, v));
      }
    }
  }

  /** The rows are strictly increasing in (bucket, device); so per device the buckets are. */
  lemma {:induction false} AggregateOrdered(samples: seq<Sample>, f: int -> int)
    ensures Ordered(Aggregate(samples, f))
  {
    if samples == [] {
    } else {
      var s := samples[|samples| - 1];
      AggregateOrdered(samples[..|samples| - 1], f);
      InsertOrdered(Aggregate(samples[..|samples| - 1], f), f(s.time), s.device, s.value);
    }
  }

  // What the samples of one bucket and device amount to, computed without any grouping.

  function InBucket(b: int, d: nat, f: int -> int): Sample -> bool {
    (s: Sample) => f(s.time) == b && s.device == d
  }

  function Collect(b: int, d: nat, samples: seq<Sample>): (r: Group)
    ensures r.bucket == b && r.device == d
  {
    if samples == [] then Group(b, d, 0.0, 0, None)
    else Merge(Collect(b, d, samples[..|samples| - 1]), samples[|samples| - 1].value)
  }

  /** The row of a key, if there is one. */
  function Lookup(groups: seq<Group>, b: int, d: nat): Option<Group> {
    if groups == [] then None
    else if groups[0].bucket == b && groups[0].device == d then Some(groups[0])
    else Lookup(groups[1..], b, d)
  }

  lemma {:induction false} LookupAbsent(groups: seq<Group>, b: int, d: nat)
    requires forall i :: 0 <= i < |groups| ==> groups[i].bucket != b || groups[i].device != d
    ensures Lookup(groups, b, d) == None
  {
    if groups == [] {
    } else {
      LookupAbsent(groups[1..], b, d);
    }
  }

  lemma {:induction false} LookupInsert(groups: seq<Group>, b: int, d: nat, v: Option<real>, b': int, d': nat)
    requires Ordered(groups)
    ensures Lookup(Insert(groups, b, d, v), b', d') ==
            if b' == b && d' == d
            then Some(Merge(if Lookup(groups, b, d).Some? then Lookup(groups, b, d).value else Group(b, d, 0.0, 0, None), v))
            else Lookup(groups, b', d')
  {
    if groups == [] || Before(b, d, groups[0]) {
      assert ([Group(b, d, Amount(v), One(v), v)] + groups)[1..] == groups;
      forall i | 0 <= i < |groups| ensures groups[i].bucket != b || groups[i].device != d {
        assert i > 0 ==> Before(groups[0].bucket, groups[0].device, groups[i]);
      }
      LookupAbsent(groups, b, d);
    } else if groups[0].bucket == b && groups[0].device == d {
      assert ([Merge(groups[0], v)] + groups[1..])[1..] == groups[1..];
    } else {
      LookupInsert(groups[1..], b, d, v, b', d');
      var tail := Insert(groups[1..], b, d, v);
      assert ([groups[0]] + tail)[1..] == tail;
    }
  }

  /** What the samples of one bucket and device amount to, if there are any. */
  function OwnRow(samples: seq<Sample>, f: int -> int, b: int, d: nat): Option<Group> {
    var own := Filter(InBucket(b, d, f), samples);
    if own == [] then None else Some(Collect(b, d, own))
  }

  /** Grouping partitions the samples: a bucket and device have a row exactly when they have a
      sample, and the row is what exactly those samples amount to. */
  lemma {:induction false} AggregatePartitions(samples: seq<Sample>, f: int -> int, b: int, d: nat)
    ensures Lookup(Aggregate(samples, f), b, d) == OwnRow(samples, f, b, d)
  {
    if samples == [] {
    } else {
      var most, s := samples[..|samples| - 1], samples[|samples| - 1];
      AggregatePartitions(most, f, b, d);
      AggregateOrdered(most, f);
      LookupInsert(Aggregate(most, f), f(s.time), s.device, s.value, b, d);
      FilterSnoc(InBucket(b, d, f), most, s);
      assert samples == most + [s];
      if InBucket(b, d, f)(s) {
        CollectSnoc(b, d, Filter(InBucket(b, d, f), most), s);
      } else {
        assert Filter(InBucket(b, d, f), most) + [] == Filter(InBucket(b, d, f), most);
      }
    }
  }

  lemma {:induction false} OrderedUnique(a: seq<Group>, b: seq<Group>)
    requires Ordered(a) && Ordered(b) && forall k, d :: Lookup(a, k, d) == Lookup(b, k, d)
    ensures a == b
  {
    if a == [] || b == [] {
      assert a != [] ==> Lookup(a, a[0].bucket, a[0].device) == Lookup(b, a[0].bucket, a[0].device);
      assert b != [] ==> Lookup(a, b[0].bucket, b[0].device) == Lookup(b, b[0].bucket, b[0].device);
    } else {
      FirstIsLookedUp(a, b);
      FirstIsLookedUp(b, a);
      forall k, d ensures Lookup(a[1..], k, d) == Lookup(b[1..], k, d) {
        assert Lookup(a, k, d) == Lookup(b, k, d);
        RestOfLookup(a, k, d);
        RestOfLookup(b, k, d);
      }
      OrderedUnique(a[1..], b[1..]);
      assert a == [a[0]] + a[1..] && b == [b[0]] + b[1..];
    }
  }

  lemma FirstIsLookedUp(a: seq<Group>, b: seq<Group>)
    requires a != [] && b != [] && Ordered(b)
    requires Lookup(b, a[0].bucket, a[0].device) == Lookup(a, a[0].bucket, a[0].device)
    ensures a[0] == b[0] || Before(b[0].bucket, b[0].device, a[0])
  {
    if Before(a[0].bucket, a[0].device, b[0]) {
      forall i | 0 <= i < |b| ensures b[i].bucket != a[0].bucket || b[i].device != a[0].device {
        assert i > 0 ==> Before(b[0].bucket, b[0].device, b[i]);
      }
      LookupAbsent(b, a[0].bucket, a[0].device);
    }
  }

  lemma RestOfLookup(groups: seq<Group>, b: int, d: nat)
    requires groups != [] && Ordered(groups)
    ensures Lookup(groups[1..], b, d) ==
            if groups[0].bucket == b && groups[0].device == d then None else Lookup(groups, b, d)
  {
    if groups[0].bucket == b && groups[0].device == d {
      LookupAbsent(groups[1..], b, d);
    }
  }

  /** Any table that is ordered as the query demands, and has a row exactly for the buckets and devices
      with a sample, made of exactly those, is the one computed here. */
  lemma RowsAreUnique(samples: seq<Sample>, f: int -> int, rows: seq<Group>)
    requires Ordered(rows)
    requires forall b, d :: Lookup(rows, b, d) == OwnRow(samples, f, b, d)
    ensures rows == Aggregate(samples, f)
  {
    AggregateOrdered(samples, f);
    forall b, d ensures Lookup(rows, b, d) == Lookup(Aggregate(samples, f), b, d) {
      AggregatePartitions(samples, f, b, d);
      assert Lookup(rows, b, d) == OwnRow(samples, f, b, d);
    }
    OrderedUnique(rows, Aggregate(samples, f));
  }

  /** A query has a row for a bucket and device exactly when some stored sample of a requested device
      lies in the range and in the bucket. */
  lemma QueryRowIff(samples: seq<Sample>, devices: set<nat>, start: int, end: int, intervalMinutes: int, b: int, d: nat)
    requires intervalMinutes > 0
    ensures Lookup(Query(samples, devices, start, end, intervalMinutes), b, d).Some? <==>
            exists i :: 0 <= i < |samples| && samples[i].device == d && d in devices &&
                        start <= samples[i].time <= end && BucketOf(intervalMinutes * 60000)(samples[i].time) == b
  {
    var f := BucketOf(intervalMinutes * 60000);
    var inRange := Filter(InRange(devices, start, end), samples);
    var own := Filter(InBucket(b, d, f), inRange);
    AggregatePartitions(inRange, f, b, d);
    if own != [] {
      FilterSound(InBucket(b, d, f), inRange, 0);
      var k :| 0 <= k < |inRange| && inRange[k] == own[0];
      FilterSound(InRange(devices, start, end), samples, k);
    }
    forall i | 0 <= i < |samples| && InRange(devices, start, end)(samples[i]) && InBucket(b, d, f)(samples[i])
      ensures own != []
    {
      FilterKeeps(InRange(devices, start, end), samples, i);
      var k :| 0 <= k < |inRange| && inRange[k] == samples[i];
      FilterKeeps(InBucket(b, d, f), inRange, k);
    }
  }

  /** One more sample changes the rows of a query exactly if it is asked for, and its row is new or the
      sample has a value. */
  lemma InsertChangesRowsIff(samples: seq<Sample>, s: Sample, devices: set<nat>, start: int, end: int, intervalMinutes: int)
    requires intervalMinutes > 0
    ensures var bucket := BucketOf(intervalMinutes * 60000)(s.time);
            Query(samples + [s], devices, start, end, intervalMinutes) != Query(samples, devices, start, end, intervalMinutes) <==>
            InRange(devices, start, end)(s) &&
            (s.value.Some? || Lookup(Query(samples, devices, start, end, intervalMinutes), bucket, s.device) == None)
  {
    var f, inRange := BucketOf(intervalMinutes * 60000), Filter(InRange(devices, start, end), samples);
    FilterSnoc(InRange(devices, start, end), samples, s);
    if InRange(devices, start, end)(s) {
      var rows, b := Aggregate(inRange, f), f(s.time);
      assert (inRange + [s])[..|inRange|] == inRange;
      assert Aggregate(inRange + [s], f) == Insert(rows, b, s.device, s.value);
      AggregateOrdered(inRange, f);
      LookupInsert(rows, b, s.device, s.value, b, s.device);
      if s.value.None? && Lookup(rows, b, s.device).Some? {
        NullLeavesRows(rows, b, s.device);
      } else {
        assert Lookup(Insert(rows, b, s.device, s.value), b, s.device) != Lookup(rows, b, s.device);
      }
    } else {
      assert inRange + [] == inRange;
    }
  }

  lemma NullLeavesRows(rows: seq<Group>, b: int, d: nat)
    requires Ordered(rows) && Lookup(rows, b, d).Some?
    ensures Insert(rows, b, d, None) == rows
  {
    InsertOrdered(rows, b, d, None);
    LookupIsKeyed(rows, b, d);
    forall b', d' ensures Lookup(Insert(rows, b, d, None), b', d') == Lookup(rows, b', d') {
      LookupInsert(rows, b, d, None, b', d');
    }
    OrderedUnique(Insert(rows, b, d, None), rows);
  }

  lemma {:induction false} LookupIsKeyed(rows: seq<Group>, b: int, d: nat)
    requires Lookup(rows, b, d).Some?
    ensures Lookup(rows, b, d).value.bucket == b && Lookup(rows, b, d).value.device == d
  {
    if rows[0].bucket == b && rows[0].device == d {
    } else {
      LookupIsKeyed(rows[1..], b, d);
    }
  }

  lemma CollectSnoc(b: int, d: nat, samples: seq<Sample>, s: Sample)
    ensures Collect(b, d, samples + [s]) == Merge(Collect(b, d, samples), s.value)
  {
    assert (samples + [s])[..|samples|] == samples;
  }

  // Re-aggregation of result rows into wider buckets.

  /** What the rows that fall into a wider bucket amount to together. */
  function Regroup(groups: seq<Group>, f: int -> int, b: int, d: nat): (r: Group)
    ensures r.bucket == b && r.device == d
  {
    if groups == [] then Group(b, d, 0.0, 0, None)
    else
      var r, g := Regroup(groups[1..], f, b, d), groups[0];
      if f(g.bucket) == b && g.device == d
      then Group(b, d, g.sum + r.sum, g.count + r.count, MaxOf(g.peak, r.peak)) else r
  }

  lemma RegroupCons(g: Group, groups: seq<Group>, f: int -> int, b: int, d: nat)
    ensures var r := Regroup(groups, f, b, d);
            Regroup([g] + groups, f, b, d) ==
            if f(g.bucket) == b && g.device == d
            then Group(b, d, g.sum + r.sum, g.count + r.count, MaxOf(g.peak, r.peak)) else r
  {
    assert ([g] + groups)[1..] == groups;
  }

  lemma {:induction false} RegroupInsert(groups: seq<Group>, b: int, d: nat, v: Option<real>, f: int -> int, b': int, d': nat)
    ensures Regroup(Insert(groups, b, d, v), f, b', d') ==
            if f(b) == b' && d == d' then Merge(Regroup(groups, f, b', d'), v) else Regroup(groups, f, b', d')
  {
    if groups == [] || Before(b, d, groups[0]) {
      RegroupCons(Group(b, d, Amount(v), One(v), v), groups, f, b', d');
    } else if groups[0].bucket == b && groups[0].device == d {
      RegroupCons(Merge(groups[0], v), groups[1..], f, b', d');
    } else {
      RegroupInsert(groups[1..], b, d, v, f, b', d');
      RegroupCons(groups[0], Insert(groups[1..], b, d, v), f, b', d');
    }
  }

  /** A coarser bucket function, one that cannot tell an instant from its fine bucket. */
  ghost predicate Coarsens(coarse: int -> int, fine: int -> int) {
    forall time :: coarse(fine(time)) == coarse(time)
  }

  /** Coarsening: sums, counts and peaks of the wider buckets are the sums, counts and maximum over
      the fine rows that fall into them. */
  lemma {:induction false} CoarsenRows(samples: seq<Sample>, fine: int -> int, coarse: int -> int, b: int, d: nat)
    requires Coarsens(coarse, fine)
    ensures Regroup(Aggregate(samples, fine), coarse, b, d) == Collect(b, d, Filter(InBucket(b, d, coarse), samples))
  {
    if samples == [] {
    } else {
      var most, s := samples[..|samples| - 1], samples[|samples| - 1];
      CoarsenRows(most, fine, coarse, b, d);
      RegroupInsert(Aggregate(most, fine), fine(s.time), s.device, s.value, coarse, b, d);
      FilterSnoc(InBucket(b, d, coarse), most, s);
      assert samples == most + [s];
      if InBucket(b, d, coarse)(s) {
        CollectSnoc(b, d, Filter(InBucket(b, d, coarse), most), s);
      } else {
        assert Filter(InBucket(b, d, coarse), most) + [] == Filter(InBucket(b, d, coarse), most);
      }
    }
  }

  lemma MulOrder(a: int, b: int, w: int)
    requires w > 0 && a <= b
    ensures a * w <= b * w
  {
  }

  lemma MulAssoc(a: int, b: int, c: int)
    ensures a * (b * c) == (a * c) * b
  {
  }

  lemma DivBounds(x: int, w: int)
    requires w > 0
    ensures x / w * w <= x < x / w * w + w
  {
  }

  lemma FloorUnique(x: int, w: int, q: int)
    requires w > 0 && q * w <= x < q * w + w
    ensures x / w == q
  {
    DivBounds(x, w);
    if x / w < q {
      MulOrder(x / w + 1, q, w);
      assert false;
    } else if q < x / w {
      MulOrder(q + 1, x / w, w);
      assert false;
    }
  }

  lemma WidenOnce(time: int, width: int, k: int)
    requires width > 0 && k > 0
    ensures width * k > 0 && (time / width * width) / (width * k) == time / (width * k)
  {
    var wide := width * k;
    var q, fine := time / wide, time / width;
    DivBounds(time, wide);
    DivBounds(time, width);
    MulAssoc(q, width, k);
    MulAssoc(q + 1, width, k);
    if fine < q * k {
      MulOrder(fine + 1, q * k, width);
      assert false;
    }
    MulOrder(q * k, fine, width);
    FloorUnique(fine * width, wide, q);
  }

  /** Multiples of a width are such coarser buckets. */
  lemma MultiplesCoarsen(width: int, k: int)
    requires width > 0 && k > 0
    ensures width * k > 0 && Coarsens(BucketOf(width * k), BucketOf(width))
  {
    WidenOnce(0, width, k);
    forall time ensures BucketOf(width * k)(BucketOf(width)(time)) == BucketOf(width * k)(time) {
      WidenOnce(time, width, k);
    }
  }

  /** So every row of a k times wider query is the fine rows in it, summed, counted and with the
      maximum of their peaks. */
  lemma CoarseRowFromFineRows(samples: seq<Sample>, width: int, k: int, b: int, d: nat)
    requires width > 0 && k > 0 && width * k > 0
    requires Lookup(Aggregate(samples, BucketOf(width * k)), b, d).Some?
    ensures Lookup(Aggregate(samples, BucketOf(width * k)), b, d).value ==
            Regroup(Aggregate(samples, BucketOf(width)), BucketOf(width * k), b, d)
  {
    MultiplesCoarsen(width, k);
    AggregatePartitions(samples, BucketOf(width * k), b, d);
    CoarsenRows(samples, BucketOf(width), BucketOf(width * k), b, d);
  }

  function TotalSum(groups: seq<Group>): real {
    if groups == [] then 0.0 else groups[0].sum + TotalSum(groups[1..])
  }

  function TotalCount(groups: seq<Group>): nat {
    if groups == [] then 0 else groups[0].count + TotalCount(groups[1..])
  }

  lemma {:induction false} InsertTotals(groups: seq<Group>, b: int, d: nat, v: Option<real>)
    ensures TotalSum(Insert(groups, b, d, v)) == TotalSum(groups) + Amount(v)
    ensures TotalCount(Insert(groups, b, d, v)) == TotalCount(groups) + One(v)
  {
    if groups == [] || Before(b, d, groups[0]) {
      assert ([Group(b, d, Amount(v), One(v), v)] + groups)[1..] == groups;
    } else if groups[0].bucket == b && groups[0].device == d {
      assert ([Merge(groups[0], v)] + groups[1..])[1..] == groups[1..];
    } else {
      InsertTotals(groups[1..], b, d, v);
      var tail := Insert(groups[1..], b, d, v);
      assert ([groups[0]] + tail)[1..] == tail;
    }
  }

  /** Sums and counts of the non-null values are conserved. */
  lemma {:induction false} AggregateConserves(samples: seq<Sample>, f: int -> int)
    ensures TotalSum(Aggregate(samples, f)) == Collect(0, 0, samples).sum
    ensures TotalCount(Aggregate(samples, f)) == Collect(0, 0, samples).count
  {
    if samples == [] {
    } else {
      var s := samples[|samples| - 1];
      AggregateConserves(samples[..|samples| - 1], f);
      InsertTotals(Aggregate(samples[..|samples| - 1], f), f(s.time), s.device, s.value);
    }
  }

  // ---------------------------------------------------------------- the one-minute query

  /** date_trunc to the minute. */
  function ToMinute(time: int): int {
    time - time % 60000
  }

  /** Intervals of a minute have a query of their own, which truncates instead of dividing. */
  function MinuteQuery(samples: seq<Sample>, devices: set<nat>, start: int, end: int): seq<Group> {
    Aggregate(Filter(InRange(devices, start, end), samples), ToMinute)
  }

  lemma {:induction false} AggregateSame(samples: seq<Sample>, f: int -> int, g: int -> int)
    requires forall t :: f(t) == g(t)
    ensures Aggregate(samples, f) == Aggregate(samples, g)
  {
    if samples == [] {
    } else {
      AggregateSame(samples[..|samples| - 1], f, g);
    }
  }

  /** It returns the rows of the general query. */
  lemma MinuteQueryIsGeneral(samples: seq<Sample>, devices: set<nat>, start: int, end: int)
    ensures MinuteQuery(samples, devices, start, end) == Query(samples, devices, start, end, 1)
  {
    AggregateSame(Filter(InRange(devices, start, end), samples), ToMinute, BucketOf(60000));
  }

  // ---------------------------------------------------------------- rounding

  /** Math.round: to the nearest integer, halves up. */
  function Round(x: real): int {
    (x + 0.5).Floor
  }

  /** Temperature keeps one decimal; cells are shown in tenths here. */
  function CellTenths(temperature: bool, x: real): int {
    if temperature then Round(x * 10.0) else 10 * Round(x)
  }

  /** A cell is the nearest value to show, halves up: whole units, and tenths for temperatures. */
  lemma CellIsNearest(x: real)
    ensures var c := CellTenths(false, x); c % 10 == 0 && x - 0.5 < c as real / 10.0 <= x + 0.5
    ensures var c := CellTenths(true, x); x - 0.05 < c as real / 10.0 <= x + 0.05
  {
    var whole, tenth := Round(x), Round(x * 10.0);
    assert x - 0.5 < whole as real <= x + 0.5 && x * 10.0 - 0.5 < tenth as real <= x * 10.0 + 0.5;
    assert (10 * whole) as real == 10.0 * whole as real;
  }

  lemma RoundMonotone(temperature: bool, x: real, y: real)
    requires x <= y
    ensures CellTenths(temperature, x) <= CellTenths(temperature, y)
  {
  }

  lemma MergeBelow(sum: real, n: nat, peak: real, v: real, top: real)
    requires sum <= n as real * peak && peak <= top && v <= top
    ensures sum + v <= (n + 1) as real * top
  {
    assert n as real * peak <= n as real * top;
    assert (n + 1) as real * top == n as real * top + top;
  }

  ghost predicate SumWithinPeak(g: Group) {
    (g.count > 0 <==> g.peak.Some?) && (g.count == 0 ==> g.sum == 0.0) &&
    (g.count > 0 ==> g.sum <= g.count as real * g.peak.value)
  }

  lemma MergeWithinPeak(g: Group, v: Option<real>)
    requires SumWithinPeak(g)
    ensures SumWithinPeak(Merge(g, v))
  {
    if v.Some? {
      if g.count > 0 {
        MergeBelow(g.sum, g.count, g.peak.value, v.value, MaxOf(g.peak, v).value);
      } else {
        assert Merge(g, v) == g.(sum := 0.0 + v.value, count := 1, peak := v);
      }
    }
  }

  lemma {:induction false} CollectWithinPeak(b: int, d: nat, samples: seq<Sample>)
    ensures SumWithinPeak(Collect(b, d, samples))
  {
    if samples == [] {
    } else {
      CollectWithinPeak(b, d, samples[..|samples| - 1]);
      MergeWithinPeak(Collect(b, d, samples[..|samples| - 1]), samples[|samples| - 1].value);
    }
  }

  lemma AverageBelow(sum: real, n: nat, peak: real)
    requires n > 0 && sum <= n as real * peak
    ensures sum / n as real <= peak
  {
  }

  /** The average cell of a row, rounded as it is shown. */
  function AverageCell(g: Group, temperature: bool): int
    requires g.count > 0
  {
    CellTenths(temperature, g.sum / g.count as real)
  }

  lemma AverageCellBelow(g: Group, temperature: bool)
    requires SumWithinPeak(g) && g.count > 0
    ensures AverageCell(g, temperature) <= CellTenths(temperature, g.peak.value)
  {
    AverageBelow(g.sum, g.count, g.peak.value);
    RoundMonotone(temperature, g.sum / g.count as real, g.peak.value);
  }

  /** In every row with a value the rounded peak is at least the rounded average. */
  lemma RoundedPeakAtLeastAverage(samples: seq<Sample>, f: int -> int, b: int, d: nat, temperature: bool, g: Group)
    requires Lookup(Aggregate(samples, f), b, d) == Some(g) && g.count > 0
    ensures g.peak.Some? && AverageCell(g, temperature) <= CellTenths(temperature, g.peak.value)
  {
    var own := Filter(InBucket(b, d, f), samples);
    assert g == Collect(b, d, own) by {
      AggregatePartitions(samples, f, b, d);
    }
    CollectWithinPeak(b, d, own);
    AverageCellBelow(g, temperature);
  }
}
