/** The rows of a bucketed query against the stored samples, in numbers: whose samples, of which instants, and
    what their sum, count and maximum are. */
module TelemetryRows {
  import opened Common
  import opened Telemetry

  /** The sample counts for the row of device d that begins at b, minutes wide. */
  predicate Counts(s: Sample, devices: set<nat>, start: int, end: int, minutes: int, b: int, d: nat) {
    s.device == d && d in devices && start <= s.time && s.time <= end && b <= s.time && s.time < b + minutes * 60000
  }

  function Counting(devices: set<nat>, start: int, end: int, minutes: int, b: int, d: nat): Sample -> bool {
    (s: Sample) => Counts(s, devices, start, end, minutes, b, d)
  }

  function SumOf(samples: seq<Sample>, p: Sample -> bool): real {
    if samples == [] then 0.0
    else
      var last := samples[|samples| - 1];
      SumOf(samples[..|samples| - 1], p) + if p(last) && last.value.Some? then last.value.value else 0.0
  }

  function CountOf(samples: seq<Sample>, p: Sample -> bool): nat {
    if samples == [] then 0
    else
      var last := samples[|samples| - 1];
      CountOf(samples[..|samples| - 1], p) + if p(last) && last.value.Some? then 1 else 0
  }

  /** The maximum is that of some sample, and no sample is above it; without values there is none. */
  ghost predicate PeakOf(samples: seq<Sample>, p: Sample -> bool, peak: Option<real>) {
    (forall s <- samples :: p(s) && s.value.Some? ==> peak.Some? && s.value.value <= peak.value) &&
    (peak.Some? ==> exists s <- samples :: p(s) && s.value == peak)
  }

  lemma {:induction false} CollectInNumbers(samples: seq<Sample>, p: Sample -> bool, b: int, d: nat)
    ensures var g := Collect(b, d, Filter(p, samples));
            g.sum == SumOf(samples, p) && g.count == CountOf(samples, p) && PeakOf(samples, p, g.peak)
  {
    if samples == [] {
    } else {
      var most, last := samples[..|samples| - 1], samples[|samples| - 1];
      CollectInNumbers(most, p, b, d);
      assert samples == most + [last];
      if p(last) {
        CollectSnoc(b, d, Filter(p, most), last);
        PeakMore(most, p, Collect(b, d, Filter(p, most)).peak, last);
      } else {
        assert Filter(p, most) + [] == Filter(p, most);
        PeakSame(most, p, Collect(b, d, Filter(p, most)).peak, last);
      }
    }
  }

  lemma PeakMore(samples: seq<Sample>, p: Sample -> bool, peak: Option<real>, s: Sample)
    requires PeakOf(samples, p, peak) && p(s)
    ensures PeakOf(samples + [s], p, MaxOf(peak, s.value))
  {
    assert s in samples + [s];
    if x :| x in samples && p(x) && x.value == peak {
      assert x in samples + [s];
    }
  }

  lemma PeakSame(samples: seq<Sample>, p: Sample -> bool, peak: Option<real>, s: Sample)
    requires PeakOf(samples, p, peak) && !p(s)
    ensures PeakOf(samples + [s], p, peak)
  {
    if x :| x in samples && p(x) && x.value == peak {
      assert x in samples + [s];
    }
  }

  lemma {:induction false} FilterBoth(samples: seq<Sample>, p: Sample -> bool, q: Sample -> bool, both: Sample -> bool)
    requires forall s :: both(s) <==> p(s) && q(s)
    ensures Filter(q, Filter(p, samples)) == Filter(both, samples)
  {
    if samples == [] {
    } else {
      var most, last := samples[..|samples| - 1], samples[|samples| - 1];
      FilterBoth(most, p, q, both);
      FilterSnoc(q, Filter(p, most), last);
      assert Filter(p, most) + [] == Filter(p, most) && Filter(both, most) + [] == Filter(both, most);
    }
  }

  /** A bucket that begins at a multiple of its width holds the instants from its beginning on. */
  lemma BucketHolds(time: int, width: int, b: int)
    requires width > 0
    ensures BucketOf(width)(time) == b <==> b % width == 0 && b <= time && time < b + width
  {
    assert time == time / width * width + time % width;
    if b % width == 0 && b <= time && time < b + width {
      assert b == b / width * width;
      FloorUnique(time, width, b / width);
    }
    if BucketOf(width)(time) == b {
      MultipleOf(time / width, width);
    }
  }

  lemma MultipleOf(q: int, width: int)
    requires width > 0
    ensures (q * width) % width == 0
  {
    assert q * width == q * width + 0;
    FloorUnique(q * width, width, q);
  }

  /** Every row of a query belongs to a requested device and begins at a multiple of the width; it is made of
      the samples that count for it, at least one, by their sum, the number of their values and their
      maximum. */
  lemma RowInNumbers(samples: seq<Sample>, devices: set<nat>, start: int, end: int, minutes: int, b: int, d: nat)
    requires minutes > 0
    ensures var row := Lookup(Query(samples, devices, start, end, minutes), b, d);
            var p := Counting(devices, start, end, minutes, b, d);
            (row.Some? <==> b % (minutes * 60000) == 0 && exists s <- samples :: p(s)) &&
            (row.Some? ==>
               (row.value.bucket == b && row.value.device == d && row.value.sum == SumOf(samples, p) &&
                row.value.count == CountOf(samples, p) && PeakOf(samples, p, row.value.peak)))
  {
    var width := minutes * 60000;
    var inRange, p := InRange(devices, start, end), Counting(devices, start, end, minutes, b, d);
    AggregatePartitions(Filter(inRange, samples), BucketOf(width), b, d);
    if b % width == 0 {
      forall s ensures p(s) <==> inRange(s) && InBucket(b, d, BucketOf(width))(s) {
        BucketHolds(s.time, width, b);
      }
      FilterBoth(samples, inRange, InBucket(b, d, BucketOf(width)), p);
      CollectInNumbers(samples, p, b, d);
      SomeKept(samples, p);
    } else {
      forall s | s in Filter(inRange, samples) ensures !InBucket(b, d, BucketOf(width))(s) {
        BucketHolds(s.time, width, b);
      }
      FilterNone(InBucket(b, d, BucketOf(width)), Filter(inRange, samples));
    }
  }

  lemma SomeKept(samples: seq<Sample>, p: Sample -> bool)
    ensures Filter(p, samples) != [] <==> exists s <- samples :: p(s)
  {
    if s :| s in samples && p(s) {
      var i :| 0 <= i < |samples| && samples[i] == s;
      FilterKeeps(p, samples, i);
    }
    if Filter(p, samples) != [] {
      FilterSound(p, samples, 0);
    }
  }

  /** The cells of a row: the average and the maximum, each to the nearest value shown. */
  lemma CellsInNumbers(g: Group)
    requires g.count > 0 && g.peak.Some?
    ensures var average := g.sum / g.count as real;
            average - 0.5 < AverageCell(g, false) as real / 10.0 <= average + 0.5 && AverageCell(g, false) % 10 == 0 &&
            average - 0.05 < AverageCell(g, true) as real / 10.0 <= average + 0.05
  {
    CellIsNearest(g.sum / g.count as real);
  }
}
