/** From counter windows to sliding intervals: if every B + 1 consecutive instants span at least w,
    no half-open interval of length w holds more than B of them. */
module SlidingWindow {
  import opened Common

  ghost predicate Spaced(times: seq<int>, b: nat, w: int) {
    forall i :: 0 <= i && i + b < |times| ==> times[i] + w <= times[i + b]
  }

  /** How many of the instants fall into [from, from + w). */
  function CountIn(times: seq<int>, from: int, w: int): nat {
    if times == [] then 0
    else
      CountIn(times[..|times| - 1], from, w) + if from <= times[|times| - 1] < from + w then 1 else 0
  }

  lemma {:induction false} CountSkipsEarly(times: seq<int>, from: int, w: int, m: nat)
    requires m <= |times| && forall i :: 0 <= i < m ==> times[i] < from
    ensures CountIn(times, from, w) <= |times| - m
  {
    if m < |times| {
      CountSkipsEarly(times[..|times| - 1], from, w, m);
    } else if times != [] {
      CountSkipsEarly(times[..|times| - 1], from, w, m - 1);
    }
  }

  lemma {:induction false} SpacedBound(times: seq<int>, b: nat, w: int, from: int)
    requires b >= 1 && Sorted(times) && Spaced(times, b, w)
    ensures CountIn(times, from, w) <= b
  {
    if times == [] {
    } else {
      var most, last := times[..|times| - 1], |times| - 1;
      SpacedBound(most, b, w, from);
      if from <= times[last] < from + w {
        var m := if |times| >= b then |times| - b else 0;
        forall i | 0 <= i < m ensures times[i] < from {
          assert times[i] + w <= times[i + b] <= times[last];
        }
        CountSkipsEarly(most, from, w, m);
      }
    }
  }

  /** The window in progress starts at times[j] and holds at most cap instants; fewer than prev of
      the earlier instants are less than w older than its start. */
  ghost predicate Open(times: seq<int>, j: int, prev: nat, cap: nat, w: int) {
    && prev >= 1 && cap >= 1
    && Sorted(times) && Spaced(times, prev + cap - 1, w)
    && 0 <= j < |times| && |times| - j <= cap
    && (j >= prev ==> times[j - prev] + w <= times[j])
  }

  lemma Extend(times: seq<int>, j: int, prev: nat, cap: nat, w: int, t: int)
    requires Open(times, j, prev, cap, w) && |times| - j < cap && times[|times| - 1] <= t
    ensures Open(times + [t], j, prev, cap, w)
  {
    var after, b := times + [t], prev + cap - 1;
    forall i | 0 <= i && i + b < |after| ensures after[i] + w <= after[i + b] {
      if i + b == |times| {
        assert times[i] <= times[j - prev];
      }
    }
  }

  lemma Reopen(times: seq<int>, j: int, prev: nat, cap: nat, w: int, t: int)
    requires Open(times, j, prev, cap, w) && |times| - j <= prev
    requires times[|times| - 1] <= t && times[j] + w <= t
    ensures Open(times + [t], |times|, prev, cap, w)
  {
    var after, b := times + [t], prev + cap - 1;
    forall i | 0 <= i && i + b < |after| ensures after[i] + w <= after[i + b] {
      if i + b == |times| {
        assert times[i] <= times[j];
      }
    }
    assert |times| >= prev ==> times[|times| - prev] <= times[j];
  }

  lemma OpenAfterGap(times: seq<int>, prev: nat, cap: nat, w: int, t: int)
    requires prev >= 1 && cap >= 1
    requires Sorted(times) && Spaced(times, prev + cap - 1, w)
    requires times != [] ==> times[|times| - 1] + w <= t
    requires w >= 0
    ensures Open(times + [t], |times|, prev, cap, w)
  {
  }
}
