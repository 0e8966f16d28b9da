/** The two Redis caches: where a cached value comes from, when it is the current one, and why two
    bucketed telemetry queries never share a key by accident. */
module Cache {
  import opened Common
  import CsvFormat
  import AlertsService

  // ---------------------------------------------------------------- one key of a read-through cache

  datatype Cached<V> = Cached(value: V, expiresAt: int)

  /** What a request has read, and when. */
  datatype Taken<V> = Taken(value: V, at: int)

  /** One key: its entry, how many requests have missed and not yet read, what others have read and are
      about to store, and the deletions that writers still owe the key. */
  datatype Slot<V> = Slot(cached: Option<Cached<V>>, misses: nat, fills: seq<Taken<V>>, deletes: nat)

  function EmptySlot<V>(): Slot<V> {
    Slot(None, 0, [], 0)
  }

  /** view is what the database says now. */
  datatype Line<V> = Line(view: V, slot: Slot<V>, clock: int)

  /** A request looks the key up; after a miss it takes the view from the database, and stores it later.
      A write changes the view and may owe a deletion. */
  datatype Step<V> =
    | Look(now: int)
    | Take(now: int)
    | Fill(k: nat, now: int)
    | Write(view: V, owesDelete: bool, now: int)
    | Delete(now: int)

  predicate Hit<V>(slot: Slot<V>, now: int) {
    slot.cached.Some? && now < slot.cached.value.expiresAt
  }

  /** What a read returns. */
  function Served<V>(l: Line<V>, now: int): V {
    if Hit(l.slot, now) then l.slot.cached.value.value else l.view
  }

  predicate Enabled<V>(l: Line<V>, step: Step<V>) {
    l.clock <= step.now && (step.Take? ==> l.slot.misses > 0) && (step.Fill? ==> step.k < |l.slot.fills|) &&
    (step.Delete? ==> l.slot.deletes > 0)
  }

  function StoreFill<V>(slot: Slot<V>, k: nat, now: int, ttl: int): Slot<V> {
    if k < |slot.fills|
    then slot.(cached := Some(Cached(slot.fills[k].value, now + ttl)), fills := slot.fills[..k] + slot.fills[k + 1..])
    else slot
  }

  function DropEntry<V>(slot: Slot<V>): Slot<V> {
    slot.(cached := None, deletes := if slot.deletes > 0 then slot.deletes - 1 else 0)
  }

  function OweDelete<V>(slot: Slot<V>, owes: bool): Slot<V> {
    if owes then slot.(deletes := slot.deletes + 1) else slot
  }

  function LookUp<V>(slot: Slot<V>, now: int): Slot<V> {
    if Hit(slot, now) then slot else slot.(misses := slot.misses + 1)
  }

  function TakeView<V>(slot: Slot<V>, view: V, now: int): Slot<V> {
    if slot.misses > 0 then slot.(misses := slot.misses - 1, fills := slot.fills + [Taken(view, now)]) else slot
  }

  function StepTo<V>(l: Line<V>, step: Step<V>, ttl: int): Line<V> {
    match step
    case Look(now) => Line(l.view, LookUp(l.slot, now), now)
    case Take(now) => Line(l.view, TakeView(l.slot, l.view, now), now)
    case Fill(k, now) => Line(l.view, StoreFill(l.slot, k, now, ttl), now)
    case Write(view, owes, now) => Line(view, OweDelete(l.slot, owes), now)
    case Delete(now) => Line(l.view, DropEntry(l.slot), now)
  }

  function RunTo<V>(l: Line<V>, steps: seq<Step<V>>, ttl: int): Line<V> {
    if steps == [] then l else StepTo(RunTo(l, steps[..|steps| - 1], ttl), steps[|steps| - 1], ttl)
  }

  // ---------------------------------------------------------------- when a hit is current

  /** A hit is current, unless a deletion is owed. */
  predicate Coherent<V(==)>(l: Line<V>) {
    Hit(l.slot, l.clock) && l.slot.deletes == 0 ==> l.slot.cached.value.value == l.view
  }

  /** No view is stored after it has changed, and none changes under a live entry, unless a deletion of
      the key is owed. */
  predicate Harmless<V(==)>(l: Line<V>, step: Step<V>) {
    match step
    case Fill(k, _) => k < |l.slot.fills| && l.slot.deletes == 0 ==> l.slot.fills[k].value == l.view
    case Write(view, owes, now) => Hit(l.slot, now) && l.slot.deletes == 0 && !owes ==> view == l.view
    case _ => true
  }

  lemma StepKeepsCoherenceIff<V>(l: Line<V>, step: Step<V>, ttl: int)
    requires ttl >= 1 && Coherent(l) && Enabled(l, step)
    ensures Coherent(StepTo(l, step, ttl)) <==> Harmless(l, step)
  {
  }

  // ---------------------------------------------------------------- where an entry comes from

  /** Step i took this. */
  ghost predicate TakenAt<V>(l: Line<V>, steps: seq<Step<V>>, ttl: int, i: nat, v: Taken<V>) {
    i < |steps| && steps[i].Take? && v == Taken(RunTo(l, steps[..i], ttl).view, steps[i].now)
  }

  ghost predicate TakenBy<V>(l: Line<V>, steps: seq<Step<V>>, ttl: int, v: Taken<V>) {
    exists i: nat :: TakenAt(l, steps, ttl, i, v)
  }

  /** What step j stores, if anything. */
  function Storing<V>(l: Line<V>, steps: seq<Step<V>>, ttl: int, j: nat): Option<Taken<V>> {
    if j < |steps| && steps[j].Fill? && steps[j].k < |RunTo(l, steps[..j], ttl).slot.fills|
    then Some(RunTo(l, steps[..j], ttl).slot.fills[steps[j].k]) else None
  }

  ghost predicate StoredAt<V>(l: Line<V>, steps: seq<Step<V>>, ttl: int, j: nat, c: Cached<V>) {
    Storing(l, steps, ttl, j).Some? &&
    c == Cached(Storing(l, steps, ttl, j).value.value, steps[j].now + ttl) &&
    TakenBy(l, steps[..j], ttl, Storing(l, steps, ttl, j).value)
  }

  ghost predicate StoredBy<V>(l: Line<V>, steps: seq<Step<V>>, ttl: int, c: Cached<V>) {
    exists j: nat :: StoredAt(l, steps, ttl, j, c)
  }

  ghost predicate Explained<V>(l: Line<V>, steps: seq<Step<V>>, ttl: int) {
    var slot := RunTo(l, steps, ttl).slot;
    (forall k :: 0 <= k < |slot.fills| ==> TakenBy(l, steps, ttl, slot.fills[k])) &&
    (slot.cached.Some? ==> StoredBy(l, steps, ttl, slot.cached.value))
  }

  lemma TakenStays<V>(l: Line<V>, most: seq<Step<V>>, step: Step<V>, ttl: int, v: Taken<V>)
    requires TakenBy(l, most, ttl, v)
    ensures TakenBy(l, most + [step], ttl, v)
  {
    var i: nat :| TakenAt(l, most, ttl, i, v);
    assert (most + [step])[..i] == most[..i];
    assert TakenAt(l, most + [step], ttl, i, v);
  }

  lemma StoredStays<V>(l: Line<V>, most: seq<Step<V>>, step: Step<V>, ttl: int, c: Cached<V>)
    requires StoredBy(l, most, ttl, c)
    ensures StoredBy(l, most + [step], ttl, c)
  {
    var j: nat :| StoredAt(l, most, ttl, j, c);
    assert (most + [step])[..j] == most[..j];
    assert StoredAt(l, most + [step], ttl, j, c);
  }

  lemma StepExplained<V>(l: Line<V>, most: seq<Step<V>>, step: Step<V>, ttl: int)
    requires Explained(l, most, ttl)
    ensures Explained(l, most + [step], ttl)
  {
    var before, steps := RunTo(l, most, ttl), most + [step];
    assert steps[..|most|] == most;
    var after := RunTo(l, steps, ttl);
    assert after == StepTo(before, step, ttl);
    forall k | 0 <= k < |after.slot.fills| ensures TakenBy(l, steps, ttl, after.slot.fills[k]) {
      if step.Take? && k == |before.slot.fills| {
        assert TakenAt(l, steps, ttl, |most|, after.slot.fills[k]);
      } else {
        var k' := if step.Fill? && step.k < |before.slot.fills| && k >= step.k then k + 1 else k;
        assert after.slot.fills[k] == before.slot.fills[k'];
        TakenStays(l, most, step, ttl, before.slot.fills[k']);
      }
    }
    if step.Fill? && step.k < |before.slot.fills| {
      assert StoredAt(l, steps, ttl, |most|, after.slot.cached.value);
    } else if after.slot.cached.Some? {
      StoredStays(l, most, step, ttl, after.slot.cached.value);
    }
  }

  lemma {:induction false} RunExplained<V>(l: Line<V>, steps: seq<Step<V>>, ttl: int)
    requires l.slot.cached == None && l.slot.fills == []
    ensures Explained(l, steps, ttl)
  {
    if steps == [] {
    } else {
      var most, step := steps[..|steps| - 1], steps[|steps| - 1];
      RunExplained(l, most, ttl);
      StepExplained(l, most, step, ttl);
      assert steps == most + [step];
    }
  }

  function Start<V>(view: V, clock: int): Line<V> {
    Line(view, EmptySlot(), clock)
  }

  /** Whatever overlaps: a hit serves the view that step i took, and step j stored just that, less than ttl
      ago. */
  lemma HitWasTaken<V>(view: V, clock: int, steps: seq<Step<V>>, ttl: int, now: int) returns (i: nat, j: nat)
    requires Hit(RunTo(Start(view, clock), steps, ttl).slot, now)
    ensures i < j < |steps| && steps[i].Take? && steps[j].Fill? && now < steps[j].now + ttl
    ensures var l := Start(view, clock);
            Served(RunTo(l, steps, ttl), now) == RunTo(l, steps[..i], ttl).view &&
            Storing(l, steps, ttl, j) == Some(Taken(RunTo(l, steps[..i], ttl).view, steps[i].now))
  {
    var l := Start(view, clock);
    RunExplained(l, steps, ttl);
    var c := RunTo(l, steps, ttl).slot.cached.value;
    j :| StoredAt(l, steps, ttl, j, c);
    i :| TakenAt(l, steps[..j], ttl, i, Storing(l, steps, ttl, j).value);
    assert steps[..j][..i] == steps[..i] && steps[i] == steps[..j][i];
  }

  /** Every request stores within d of taking the view. */
  ghost predicate FillsWithin<V>(l: Line<V>, steps: seq<Step<V>>, ttl: int, d: int) {
    forall j: nat :: Storing(l, steps, ttl, j).Some? ==> steps[j].now <= Storing(l, steps, ttl, j).value.at + d
  }

  /** Then what a hit serves was the view less than ttl + d ago; less than ttl ago if requests are served
      at an instant. */
  lemma HitIsFresh<V>(view: V, clock: int, steps: seq<Step<V>>, ttl: int, d: int, now: int) returns (i: nat)
    requires Hit(RunTo(Start(view, clock), steps, ttl).slot, now) && FillsWithin(Start(view, clock), steps, ttl, d)
    ensures i < |steps| && steps[i].Take? && now < steps[i].now + ttl + d
    ensures Served(RunTo(Start(view, clock), steps, ttl), now) == RunTo(Start(view, clock), steps[..i], ttl).view
  {
    var j: nat;
    i, j := HitWasTaken(view, clock, steps, ttl, now);
  }

  /** The commands on one cache; the keys of a cache have one lifetime. */
  class ReadThrough<V> {
    var lines: map<string, Cached<V>>
    const ttl: int

    constructor (ttl: int)
      ensures lines == map[] && this.ttl == ttl
    {
      lines := map[];
      this.ttl := ttl;
    }

    function SlotOf(key: string): Slot<V>
      reads this
    {
      Slot(if key in lines then Some(lines[key]) else None, 0, [], 0)
    }

    method Lookup(key: string, now: int) returns (found: Option<V>)
      ensures found == if Hit(SlotOf(key), now) then Some(SlotOf(key).cached.value.value) else None
    {
      if key in lines && now < lines[key].expiresAt {
        return Some(lines[key].value);
      }
      found := None;
    }

    method Store(key: string, value: V, now: int)
      modifies this`lines
      ensures lines == old(lines)[key := Cached(value, now + ttl)]
    {
      lines := lines[key := Cached(value, now + ttl)];
    }

    method Remove(key: string)
      modifies this`lines
      ensures lines == old(lines) - {key}
    {
      lines := lines - {key};
    }
  }

  // ---------------------------------------------------------------- keys of bucketed telemetry

  /** A query after sorting and parameter filtering; both lists are non-empty by then. */
  datatype Query = Query(devices: seq<string>, params: seq<string>, start: int, end: int, interval: int)

  function Digit(n: int): char
    requires 0 <= n < 10
  {
    "0123456789"[n]
  }

  function Natural(n: nat): (s: string)
    ensures s != "" && forall i :: 0 <= i < |s| ==> '0' <= s[i] <= '9'
  {
    (if n < 10 then "" else Natural(n / 10)) + [Digit(n % 10)]
  }

  function Decimal(n: int): string {
    if n < 0 then "-" + Natural(-n) else Natural(n)
  }

  /** a:b */
  function Colon(a: string, b: string): string {
    AlertsService.JoinKey(a, b)
  }

  function CacheKey(q: Query): string {
    "telemetry:bucketed:" +
    Colon(CsvFormat.Join(q.devices, ','),
          Colon(CsvFormat.Join(q.params, ','), Colon(Decimal(q.start), Colon(Decimal(q.end), Decimal(q.interval)))))
  }

  lemma DigitInjective(m: int, n: int)
    requires 0 <= m < 10 && 0 <= n < 10 && Digit(m) == Digit(n)
    ensures m == n
  {
  }

  function Higher(n: nat): string {
    if n < 10 then "" else Natural(n / 10)
  }

  lemma NaturalSplits(n: nat)
    ensures Natural(n)[|Natural(n)| - 1] == Digit(n % 10)
    ensures Natural(n)[..|Natural(n)| - 1] == Higher(n)
  {
    assert Natural(n) == Higher(n) + [Digit(n % 10)];
  }

  lemma {:induction false} NaturalInjective(m: nat, n: nat)
    requires Natural(m) == Natural(n)
    ensures m == n
  {
    NaturalSplits(m);
    NaturalSplits(n);
    DigitInjective(m % 10, n % 10);
    assert Higher(m) == Higher(n);
    if m >= 10 && n >= 10 {
      NaturalInjective(m / 10, n / 10);
    }
  }

  lemma DecimalSign(n: int)
    ensures Decimal(n)[0] == '-' <==> n < 0
    ensures n < 0 ==> Natural(-n) == Decimal(n)[1..]
  {
  }

  function ValueOf(digits: string): int {
    if digits == "" then 0
    else ValueOf(digits[..|digits| - 1]) * 10 + (digits[|digits| - 1] as int - '0' as int)
  }

  /** The digits are those of the number. */
  lemma {:induction false} NaturalReads(n: nat)
    ensures ValueOf(Natural(n)) == n
  {
    NaturalSplits(n);
    assert Digit(n % 10) as int - '0' as int == n % 10;
    if n >= 10 {
      NaturalReads(n / 10);
    }
  }

  lemma DecimalInjective(m: int, n: int)
    requires Decimal(m) == Decimal(n)
    ensures m == n
  {
    DecimalSign(m);
    DecimalSign(n);
    assert m < 0 <==> n < 0;
    var a, b := if m < 0 then -m else m, if n < 0 then -n else n;
    assert Natural(a) == Natural(b);
    NaturalInjective(a, b);
  }

  lemma DecimalHasNoColon(n: int)
    ensures ':' !in Decimal(n)
  {
  }

  /** UUIDs and parameter names hold no comma, quote, line feed or colon. */
  ghost predicate Clean(parts: seq<string>) {
    parts != [] && forall i :: 0 <= i < |parts| ==> CsvFormat.Plain(parts[i]) && ':' !in parts[i]
  }

  lemma {:induction false} JoinHasNoColon(parts: seq<string>)
    requires Clean(parts)
    ensures ':' !in CsvFormat.Join(parts, ',')
  {
    if |parts| <= 1 {
    } else {
      JoinHasNoColon(parts[1..]);
    }
  }

  /** A joined list can be read back as a record, so it determines the list. */
  lemma JoinInjective(a: seq<string>, b: seq<string>)
    requires Clean(a) && Clean(b) && CsvFormat.Join(a, ',') == CsvFormat.Join(b, ',')
    ensures a == b
  {
    JoinIsRecord(a);
    JoinIsRecord(b);
  }

  lemma JoinIsRecord(a: seq<string>)
    requires Clean(a)
    ensures CsvFormat.ReadRecord(CsvFormat.Join(a, ',')) == CsvFormat.Good(a, "")
  {
    forall i | 0 <= i < |a| ensures CsvFormat.Escape(a[i]) == a[i] {
      CsvFormat.EscapeLonger(a[i]);
    }
    assert CsvFormat.EscapeAll(a) == a;
    CsvFormat.RecordRoundTrip(a, "");
    assert CsvFormat.WriteRecord(a) + "" == CsvFormat.Join(a, ',');
  }

  lemma ColonInjective(a: string, b: string, a': string, b': string)
    requires ':' !in a && ':' !in a' && Colon(a, b) == Colon(a', b')
    ensures a == a' && b == b'
  {
    AlertsService.JoinKeyInjective(a, b, a', b');
  }

  /** Equal cache keys mean equal queries. */
  lemma EqualKeysEqualQueries(p: Query, q: Query)
    requires Clean(p.devices) && Clean(p.params) && Clean(q.devices) && Clean(q.params)
    requires CacheKey(p) == CacheKey(q)
    ensures p == q
  {
    var head := "telemetry:bucketed:";
    var p5, q5 := Decimal(p.interval), Decimal(q.interval);
    var p4, q4 := Colon(Decimal(p.end), p5), Colon(Decimal(q.end), q5);
    var p3, q3 := Colon(Decimal(p.start), p4), Colon(Decimal(q.start), q4);
    var p2, q2 := Colon(CsvFormat.Join(p.params, ','), p3), Colon(CsvFormat.Join(q.params, ','), q3);
    var p1, q1 := Colon(CsvFormat.Join(p.devices, ','), p2), Colon(CsvFormat.Join(q.devices, ','), q2);
    assert p1 == q1 by {
      assert p1 == CacheKey(p)[|head|..] && q1 == CacheKey(q)[|head|..];
    }
    SameLists(p.devices, q.devices, p2, q2);
    SameLists(p.params, q.params, p3, q3);
    SameNumbers(p.start, q.start, p4, q4);
    SameNumbers(p.end, q.end, p5, q5);
    DecimalInjective(p.interval, q.interval);
  }

  lemma SameLists(a: seq<string>, b: seq<string>, x: string, y: string)
    requires Clean(a) && Clean(b) && Colon(CsvFormat.Join(a, ','), x) == Colon(CsvFormat.Join(b, ','), y)
    ensures a == b && x == y
  {
    JoinHasNoColon(a);
    JoinHasNoColon(b);
    ColonInjective(CsvFormat.Join(a, ','), x, CsvFormat.Join(b, ','), y);
    JoinInjective(a, b);
  }

  lemma SameNumbers(m: int, n: int, x: string, y: string)
    requires Colon(Decimal(m), x) == Colon(Decimal(n), y)
    ensures m == n && x == y
  {
    DecimalHasNoColon(m);
    DecimalHasNoColon(n);
    ColonInjective(Decimal(m), x, Decimal(n), y);
    DecimalInjective(m, n);
  }
}
