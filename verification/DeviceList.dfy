/** The cached device lists over the registry: what a list shows, which operations change it, which of
    them delete its key, and when a cached list is the current one. */
module DeviceList {
  import opened Common
  import opened Alerts
  import opened AlertsService
  import opened Devices
  import Cache

  /** Device lists are cached for five minutes. */
  const LIST_SECONDS := 300

  /** One listed device; named tells whether the user's metadata row for it was found. */
  datatype Item = Item(device: string, display: string, named: bool, thresholds: Option<Record>)

  function ActiveFor(user: string): Assignment -> bool {
    (a: Assignment) => a.user == user && a.active
  }

  function ItemOf(r: Registry, user: string, d: string): Item {
    var display := if d in r.devices then r.devices[d].display else "";
    Item(d, display, display in r.meta && r.meta[display] == user,
         if d in r.thresholds then Some(r.thresholds[d]) else None)
  }

  function Items(r: Registry, user: string, active: seq<Assignment>): (items: seq<Item>)
    ensures |items| == |active|
  {
    seq(|active|, i requires 0 <= i < |active| => ItemOf(r, user, active[i].device))
  }

  /** The list as an uncached request builds it. */
  function View(r: Registry, user: string): seq<Item> {
    Items(r, user, Filter(ActiveFor(user), r.assignments))
  }

  // ---------------------------------------------------------------- which operations change a list

  predicate HoldsAny(r: Registry, user: string) {
    exists i :: 0 <= i < |r.assignments| && ActiveFor(user)(r.assignments[i])
  }

  /** The operation takes a device from the user or changes the thresholds of one. */
  predicate Changes(r: Registry, op: Op, user: string) {
    match op
    case DoUnclaim(u, d) => u == user && d in r.devices && Owns(r.assignments, d, user)
    case DoUnclaimRows(u, d) => u == user && d in r.devices && Owns(r.assignments, d, user)
    case DoForceUnassign(d) => Owns(r.assignments, d, user)
    case DoDeleteUser(u) => u == user && u in r.users && !r.users[u] && HoldsAny(r, user)
    case DoSetDeviceThreshold(d, limits) =>
      SetDeviceThresholdOutcome(r, d) == Ok && Owns(r.assignments, d, user) &&
      !(d in r.thresholds && r.thresholds[d] == limits)
    case DoRemoveDeviceThreshold(d) => d in r.thresholds && Owns(r.assignments, d, user)
    case _ => false
  }

  /** The services delete a key only after a claim and after a change of a device threshold, and then the
      caller's. */
  predicate DeletesKey(r: Registry, op: Op) {
    match op
    case DoSetDeviceThreshold(d, _) => SetDeviceThresholdOutcome(r, d) == Ok
    case DoRemoveDeviceThreshold(d) => d in r.thresholds
    case _ => false
  }

  /** The operation, called by actor, changes the user's list and leaves its key. */
  predicate Outdates(r: Registry, op: Op, actor: string, user: string) {
    match op
    case DoUnclaim(u, d) => u == user && d in r.devices && Owns(r.assignments, d, user)
    case DoUnclaimRows(u, d) => u == user && d in r.devices && Owns(r.assignments, d, user)
    case DoForceUnassign(d) => Owns(r.assignments, d, user)
    case DoDeleteUser(u) => u == user && u in r.users && !r.users[u] && HoldsAny(r, user)
    case DoSetDeviceThreshold(_, _) => actor != user && Changes(r, op, user)
    case DoRemoveDeviceThreshold(_) => actor != user && Changes(r, op, user)
    case _ => false
  }

  ghost predicate SameItems(r: Registry, r': Registry, user: string) {
    forall i :: 0 <= i < |r.assignments| && ActiveFor(user)(r.assignments[i]) ==>
      ItemOf(r', user, r.assignments[i].device) == ItemOf(r, user, r.assignments[i].device)
  }

  lemma SameView(r: Registry, r': Registry, user: string)
    requires Filter(ActiveFor(user), r'.assignments) == Filter(ActiveFor(user), r.assignments)
    requires SameItems(r, r', user)
    ensures View(r', user) == View(r, user)
  {
    var active := Filter(ActiveFor(user), r.assignments);
    forall i | 0 <= i < |active| ensures ItemOf(r', user, active[i].device) == ItemOf(r, user, active[i].device) {
      FilterSound(ActiveFor(user), r.assignments, i);
      var k :| 0 <= k < |r.assignments| && r.assignments[k] == active[i];
    }
  }

  /** A listed device has an item. */
  lemma Listed(r: Registry, user: string, d: string) returns (i: nat)
    requires Owns(r.assignments, d, user)
    ensures i < |View(r, user)| && View(r, user)[i] == ItemOf(r, user, d)
  {
    var k :| 0 <= k < |r.assignments| && r.assignments[k] == Assignment(d, user, true);
    FilterKeeps(ActiveFor(user), r.assignments, k);
    i :| 0 <= i < |Filter(ActiveFor(user), r.assignments)| && Filter(ActiveFor(user), r.assignments)[i] == r.assignments[k];
  }

  /** And an item is that of a listed device. */
  lemma ItemsAreListed(r: Registry, user: string, i: nat)
    requires i < |View(r, user)|
    ensures Owns(r.assignments, View(r, user)[i].device, user)
    ensures View(r, user)[i] == ItemOf(r, user, View(r, user)[i].device)
  {
    FilterSound(ActiveFor(user), r.assignments, i);
    var a := Filter(ActiveFor(user), r.assignments)[i];
    assert a == Assignment(a.device, user, true);
  }

  lemma TakenAway(r: Registry, r': Registry, user: string, d: string)
    requires Owns(r.assignments, d, user) && !Owns(r'.assignments, d, user)
    ensures View(r', user) != View(r, user)
  {
    var i := Listed(r, user, d);
    if View(r', user) == View(r, user) {
      ItemsAreListed(r', user, i);
    }
  }

  /** Who closes the rows of a device leaves the others alone. */
  lemma {:induction false} CloseLeavesOthers(assignments: seq<Assignment>, d: string, who: Option<string>, user: string)
    requires who == Some(user) || who.None? ==> !Owns(assignments, d, user)
    ensures Filter(ActiveFor(user), CloseWhere(assignments, d, who)) == Filter(ActiveFor(user), assignments)
  {
    if assignments == [] {
    } else {
      var most, last := assignments[..|assignments| - 1], assignments[|assignments| - 1];
      assert !Owns(assignments, d, user) ==> !Owns(most, d, user) && last != Assignment(d, user, true) by {
        if Owns(most, d, user) {
          var i :| 0 <= i < |most| && most[i] == Assignment(d, user, true);
          assert assignments[i] == most[i];
        }
        assert assignments[|assignments| - 1] == last;
      }
      CloseLeavesOthers(most, d, who, user);
      assert CloseWhere(assignments, d, who)[..|most|] == CloseWhere(most, d, who);
    }
  }

  lemma ClosedIsNotOwned(r: Registry, d: string, who: Option<string>, user: string)
    requires who == Some(user) || who.None?
    ensures !Owns(CloseWhere(r.assignments, d, who), d, user)
  {
  }

  lemma UnclaimChangesIff(r: Registry, u: string, d: string, user: string)
    requires ClaimsSound(r)
    ensures View(UnclaimRows(r, u, d), user) != View(r, user) <==> Changes(r, DoUnclaimRows(u, d), user)
  {
    var r' := UnclaimRows(r, u, d);
    if Changes(r, DoUnclaimRows(u, d), user) {
      ClosedIsNotOwned(r, d, Some(u), user);
      TakenAway(r, r', user, d);
    } else if d in r.devices {
      CloseLeavesOthers(r.assignments, d, Some(u), user);
      forall i | 0 <= i < |r.assignments| && ActiveFor(user)(r.assignments[i])
        ensures ItemOf(r', user, r.assignments[i].device) == ItemOf(r, user, r.assignments[i].device)
      {
        assert Described(r, r.assignments[i]);
        assert r.assignments[i].device == d ==> r.assignments[i] == Assignment(d, user, true);
      }
      SameView(r, r', user);
    }
  }

  lemma ForceUnassignChangesIff(r: Registry, d: string, user: string)
    ensures View(ForceUnassign(r, d), user) != View(r, user) <==> Changes(r, DoForceUnassign(d), user)
  {
    var r' := ForceUnassign(r, d);
    if Owns(r.assignments, d, user) {
      ClosedIsNotOwned(r, d, None, user);
      TakenAway(r, r', user, d);
    } else {
      CloseLeavesOthers(r.assignments, d, None, user);
      SameView(r, r', user);
    }
  }

  lemma DeleteUserChangesIff(r: Registry, u: string, user: string)
    requires ClaimsSound(r)
    ensures View(DeleteUser(r, u), user) != View(r, user) <==> Changes(r, DoDeleteUser(u), user)
  {
    var r' := DeleteUser(r, u);
    if r' != r && u == user {
      FilterOutside(ActiveFor(user), NotOf(user), r.assignments);
      if HoldsAny(r, user) {
        var i :| 0 <= i < |r.assignments| && ActiveFor(user)(r.assignments[i]);
        FilterKeeps(ActiveFor(user), r.assignments, i);
      } else {
        FilterNone(ActiveFor(user), r.assignments);
      }
    } else if r' != r {
      FilterWithin(ActiveFor(user), NotOf(u), r.assignments);
      forall i | 0 <= i < |r.assignments| && ActiveFor(user)(r.assignments[i])
        ensures ItemOf(r', user, r.assignments[i].device) == ItemOf(r, user, r.assignments[i].device)
      {
        assert Described(r, r.assignments[i]);
      }
      SameView(r, r', user);
    }
  }

  lemma ThresholdsChangeIff(r: Registry, r': Registry, d: string, user: string)
    requires r' == r.(thresholds := r'.thresholds)
    requires forall k :: k != d ==> (k in r'.thresholds <==> k in r.thresholds) &&
                                    (k in r.thresholds ==> r'.thresholds[k] == r.thresholds[k])
    ensures View(r', user) != View(r, user) <==>
            Owns(r.assignments, d, user) && ItemOf(r', user, d).thresholds != ItemOf(r, user, d).thresholds
  {
    if Owns(r.assignments, d, user) && ItemOf(r', user, d).thresholds != ItemOf(r, user, d).thresholds {
      var k :| 0 <= k < |r.assignments| && r.assignments[k] == Assignment(d, user, true);
      var i := Listed(r, user, d);
      if View(r', user) == View(r, user) {
        ItemsAreListed(r', user, i);
      }
    } else {
      SameView(r, r', user);
    }
  }

  lemma SetThresholdChangesIff(r: Registry, d: string, limits: Record, user: string)
    ensures View(SetDeviceThreshold(r, d, limits), user) != View(r, user) <==> Changes(r, DoSetDeviceThreshold(d, limits), user)
  {
    ThresholdsChangeIff(r, SetDeviceThreshold(r, d, limits), d, user);
  }

  lemma RemoveThresholdChangesIff(r: Registry, d: string, user: string)
    ensures View(Apply(r, DoRemoveDeviceThreshold(d)), user) != View(r, user) <==> Changes(r, DoRemoveDeviceThreshold(d), user)
  {
    ThresholdsChangeIff(r, Apply(r, DoRemoveDeviceThreshold(d)), d, user);
  }

  lemma OthersKeepItems(r: Registry, op: Op, user: string)
    requires ClaimsSound(r) && LeavesClaims(op) && Apply(r, op).thresholds == r.thresholds
    ensures View(Apply(r, op), user) == View(r, user)
  {
    OthersLeaveClaims(r, op);
    forall i | 0 <= i < |r.assignments| && ActiveFor(user)(r.assignments[i])
      ensures ItemOf(Apply(r, op), user, r.assignments[i].device) == ItemOf(r, user, r.assignments[i].device)
    {
      assert Described(r, r.assignments[i]);
    }
    SameView(r, Apply(r, op), user);
  }

  /** An operation changes a list if and only if it takes one of its devices away or gives one other
      thresholds. */
  lemma ChangesIff(r: Registry, op: Op, user: string)
    requires ClaimsSound(r)
    ensures View(Apply(r, op), user) != View(r, user) <==> Changes(r, op, user)
  {
    match op
    case DoUnclaim(u, d) => UnclaimChangesIff(r, u, d, user);
    case DoUnclaimRows(u, d) => UnclaimChangesIff(r, u, d, user);
    case DoForceUnassign(d) => ForceUnassignChangesIff(r, d, user);
    case DoDeleteUser(u) => DeleteUserChangesIff(r, u, user);
    case DoSetDeviceThreshold(d, limits) => SetThresholdChangesIff(r, d, limits, user);
    case DoRemoveDeviceThreshold(d) => RemoveThresholdChangesIff(r, d, user);
    case _ => OthersKeepItems(r, op, user);
  }

  /** It does so without deleting the key exactly in the cases of Outdates. */
  lemma OutdatesIff(r: Registry, op: Op, actor: string, user: string)
    requires ClaimsSound(r)
    ensures View(Apply(r, op), user) != View(r, user) && !(actor == user && DeletesKey(r, op)) <==>
            Outdates(r, op, actor, user)
  {
    ChangesIff(r, op, user);
  }

  /** A claim changes the claimer's list only, and that is the key it deletes. */
  lemma ClaimChangesClaimerOnly(r: Registry, c: Claim, user: string)
    requires ClaimsSound(r) && user != c.user
    ensures View(EndClaim(r, c), user) == View(r, user)
  {
    var r' := EndClaim(r, c);
    if r' != r {
      FilterSnoc(ActiveFor(user), r.assignments, Assignment(c.device, c.user, true));
      var active := Filter(ActiveFor(user), r.assignments);
      assert active + [] == active;
      forall i | 0 <= i < |r.assignments| && ActiveFor(user)(r.assignments[i])
        ensures ItemOf(r', user, r.assignments[i].device) == ItemOf(r, user, r.assignments[i].device)
      {
        assert Described(r, r.assignments[i]);
      }
      SameView(r, r', user);
    }
  }

  // ---------------------------------------------------------------- runs over the registry and all keys

  /** The registry with its pending claims, and the key of every user. */
  datatype Lists = Lists(system: System, slots: map<string, Cache.Slot<seq<Item>>>, clock: int)

  datatype ListStep =
    | LookUp(user: string, now: int)
    | TakeList(user: string, now: int)
    | FillList(user: string, k: nat, now: int)
    | DeleteKey(user: string, now: int)
    | StartClaim(user: string, device: string, now: int)
    | EndOfClaim(k: nat, now: int)
    | Operate(op: Op, actor: string, now: int)

  function SlotOf(s: Lists, user: string): Cache.Slot<seq<Item>> {
    if user in s.slots then s.slots[user] else Cache.EmptySlot()
  }

  function RegistryOf(s: Lists): Registry {
    s.system.registry
  }

  /** The key of one user, with what the registry says now. */
  function LineOf(s: Lists, user: string): Cache.Line<seq<Item>> {
    Cache.Line(View(RegistryOf(s), user), SlotOf(s, user), s.clock)
  }

  predicate ListEnabled(s: Lists, step: ListStep) {
    s.clock <= step.now &&
    match step
    case TakeList(user, _) => SlotOf(s, user).misses > 0
    case FillList(user, k, _) => k < |SlotOf(s, user).fills|
    case DeleteKey(user, _) => SlotOf(s, user).deletes > 0
    case EndOfClaim(k, _) => k < |s.system.pending|
    case _ => true
  }

  function ClaimWins(s: Lists, k: nat): bool {
    k < |s.system.pending| && ClaimOutcome(RegistryOf(s), s.system.pending[k]) == Ok
  }

  function ListStepTo(s: Lists, step: ListStep): Lists {
    var s := s.(clock := step.now);
    match step
    case LookUp(user, now) => s.(slots := s.slots[user := Cache.LookUp(SlotOf(s, user), now)])
    case TakeList(user, now) =>
      s.(slots := s.slots[user := Cache.TakeView(SlotOf(s, user), View(RegistryOf(s), user), now)])
    case FillList(user, k, now) => s.(slots := s.slots[user := Cache.StoreFill(SlotOf(s, user), k, now, LIST_SECONDS)])
    case DeleteKey(user, _) => s.(slots := s.slots[user := Cache.DropEntry(SlotOf(s, user))])
    case StartClaim(user, d, _) => s.(system := StepTo(s.system, BeginClaim(user, d)))
    case EndOfClaim(k, _) =>
      if k >= |s.system.pending| then s
      else
        var user := s.system.pending[k].user;
        s.(system := StepTo(s.system, FinishClaim(k)),
           slots := s.slots[user := Cache.OweDelete(SlotOf(s, user), ClaimWins(s, k))])
    case Operate(op, actor, _) =>
      s.(system := StepTo(s.system, Serve(op)),
         slots := s.slots[actor := Cache.OweDelete(SlotOf(s, actor), DeletesKey(RegistryOf(s), op))])
  }

  function ListRun(s: Lists, steps: seq<ListStep>): Lists {
    if steps == [] then s else ListStepTo(ListRun(s, steps[..|steps| - 1]), steps[|steps| - 1])
  }

  /** The step as the key of one user sees it. */
  function KeyStep(s: Lists, step: ListStep, user: string): Cache.Step<seq<Item>> {
    var after := View(RegistryOf(ListStepTo(s, step)), user);
    match step
    case LookUp(u, now) => if u == user then Cache.Look(now) else Cache.Write(after, false, now)
    case TakeList(u, now) => if u == user then Cache.Take(now) else Cache.Write(after, false, now)
    case FillList(u, k, now) => if u == user then Cache.Fill(k, now) else Cache.Write(after, false, now)
    case DeleteKey(u, now) => if u == user then Cache.Delete(now) else Cache.Write(after, false, now)
    case StartClaim(_, _, now) => Cache.Write(after, false, now)
    case EndOfClaim(k, now) =>
      Cache.Write(after, k < |s.system.pending| && s.system.pending[k].user == user && ClaimWins(s, k), now)
    case Operate(op, actor, now) => Cache.Write(after, actor == user && DeletesKey(RegistryOf(s), op), now)
  }

  /** Every key is a line of its own over the user's view of the registry. */
  lemma KeyStepFits(s: Lists, step: ListStep, user: string)
    ensures LineOf(ListStepTo(s, step), user) == Cache.StepTo(LineOf(s, user), KeyStep(s, step, user), LIST_SECONDS)
    ensures ListEnabled(s, step) ==> Cache.Enabled(LineOf(s, user), KeyStep(s, step, user))
  {
  }

  // ---------------------------------------------------------------- where a cached list comes from

  function KeySteps(s: Lists, steps: seq<ListStep>, user: string): (r: seq<Cache.Step<seq<Item>>>)
    ensures |r| == |steps|
  {
    if steps == [] then []
    else
      var most := steps[..|steps| - 1];
      KeySteps(s, most, user) + [KeyStep(ListRun(s, most), steps[|steps| - 1], user)]
  }

  lemma {:induction false} RunFits(s: Lists, steps: seq<ListStep>, user: string)
    ensures LineOf(ListRun(s, steps), user) == Cache.RunTo(LineOf(s, user), KeySteps(s, steps, user), LIST_SECONDS)
  {
    if steps == [] {
    } else {
      var most := steps[..|steps| - 1];
      RunFits(s, most, user);
      KeyStepFits(ListRun(s, most), steps[|steps| - 1], user);
      assert KeySteps(s, steps, user)[..|most|] == KeySteps(s, most, user);
    }
  }

  lemma {:induction false} PrefixOfKeySteps(s: Lists, steps: seq<ListStep>, user: string, i: nat)
    requires i <= |steps|
    ensures KeySteps(s, steps, user)[..i] == KeySteps(s, steps[..i], user)
    ensures i < |steps| ==> KeySteps(s, steps, user)[i] == KeyStep(ListRun(s, steps[..i]), steps[i], user)
  {
    if i == |steps| {
      assert steps[..i] == steps;
    } else {
      var most, last := steps[..|steps| - 1], steps[|steps| - 1];
      var before, x := KeySteps(s, most, user), KeyStep(ListRun(s, most), last, user);
      PrefixOfKeySteps(s, most, user, i);
      assert most[..i] == steps[..i] && (i < |most| ==> most[i] == steps[i]);
      FrontOf(before, x, i);
    }
  }

  lemma FrontOf<T>(before: seq<T>, x: T, i: nat)
    requires i <= |before|
    ensures (before + [x])[..i] == before[..i]
    ensures (before + [x])[i] == if i < |before| then before[i] else x
  {
  }

  function Start(system: System, clock: int): Lists {
    Lists(system, map[], clock)
  }

  /** Whatever overlaps: a list served from the cache is the one that step i read from the tables for the
      user, and step j stored just that, less than 300 seconds ago. */
  lemma ListWasTaken(system: System, clock: int, steps: seq<ListStep>, user: string, now: int) returns (i: nat, j: nat)
    requires Cache.Hit(SlotOf(ListRun(Start(system, clock), steps), user), now)
    ensures i < j < |steps| && steps[i].TakeList? && steps[j].FillList? && steps[i].user == steps[j].user == user
    ensures now < steps[j].now + 300
    ensures var s := Start(system, clock);
            var list := View(RegistryOf(ListRun(s, steps[..i])), user);
            Cache.Served(LineOf(ListRun(s, steps), user), now) == list &&
            Cache.Storing(LineOf(s, user), KeySteps(s, steps, user), LIST_SECONDS, j) == Some(Cache.Taken(list, steps[i].now))
  {
    var s := Start(system, clock);
    RunFits(s, steps, user);
    i, j := Cache.HitWasTaken(View(system.registry, user), clock, KeySteps(s, steps, user), LIST_SECONDS, now);
    PrefixOfKeySteps(s, steps, user, i);
    PrefixOfKeySteps(s, steps, user, j);
    RunFits(s, steps[..i], user);
  }

  /** So if every request stores its list within d of reading it, a list served is the user's list at an
      instant less than 300 + d seconds ago. */
  lemma ListIsFresh(system: System, clock: int, steps: seq<ListStep>, user: string, d: int, now: int) returns (i: nat)
    requires Cache.Hit(SlotOf(ListRun(Start(system, clock), steps), user), now)
    requires Cache.FillsWithin(LineOf(Start(system, clock), user), KeySteps(Start(system, clock), steps, user), LIST_SECONDS, d)
    ensures i < |steps| && steps[i].TakeList? && steps[i].user == user && now < steps[i].now + 300 + d
    ensures Cache.Served(LineOf(ListRun(Start(system, clock), steps), user), now) ==
            View(RegistryOf(ListRun(Start(system, clock), steps[..i])), user)
  {
    var s := Start(system, clock);
    RunFits(s, steps, user);
    i := Cache.HitIsFresh(View(system.registry, user), clock, KeySteps(s, steps, user), LIST_SECONDS, d, now);
    PrefixOfKeySteps(s, steps, user, i);
    RunFits(s, steps[..i], user);
  }

  // ---------------------------------------------------------------- when a cached list is current

  /** A hit is current, unless a deletion of the key is owed. */
  predicate Current(s: Lists, user: string) {
    Cache.Coherent(LineOf(s, user))
  }

  /** No list is stored after it has changed, and no operation outdates a live list, unless a deletion of
      the key is owed. */
  predicate Harmless(s: Lists, step: ListStep, user: string) {
    match step
    case FillList(u, k, _) =>
      u == user && k < |SlotOf(s, user).fills| && SlotOf(s, user).deletes == 0 ==>
        SlotOf(s, user).fills[k].value == View(RegistryOf(s), user)
    case Operate(op, actor, now) =>
      Cache.Hit(SlotOf(s, user), now) && SlotOf(s, user).deletes == 0 ==> !Outdates(RegistryOf(s), op, actor, user)
    case _ => true
  }

  lemma HarmlessFits(s: Lists, step: ListStep, user: string)
    requires ClaimsSound(RegistryOf(s)) && ListEnabled(s, step)
    ensures Harmless(s, step, user) <==> Cache.Harmless(LineOf(s, user), KeyStep(s, step, user))
  {
    match step
    case Operate(op, actor, _) => OutdatesIff(RegistryOf(s), op, actor, user);
    case EndOfClaim(k, _) =>
      if s.system.pending[k].user != user {
        ClaimChangesClaimerOnly(RegistryOf(s), s.system.pending[k], user);
      }
    case _ =>
  }

  lemma StepKeepsListsSound(s: Lists, step: ListStep)
    requires ClaimsSound(RegistryOf(s))
    ensures ClaimsSound(RegistryOf(ListStepTo(s, step)))
  {
    match step
    case EndOfClaim(k, _) =>
      if k < |s.system.pending| {
        EndClaimKeepsSound(RegistryOf(s), s.system.pending[k]);
      }
    case Operate(op, _, _) => ApplyKeepsClaims(RegistryOf(s), op);
    case _ =>
  }

  /** A step keeps a user's cached list current if and only if it is harmless. */
  lemma StepKeepsCurrentIff(s: Lists, step: ListStep, user: string)
    requires ClaimsSound(RegistryOf(s)) && ListEnabled(s, step) && Current(s, user)
    ensures Current(ListStepTo(s, step), user) <==> Harmless(s, step, user)
  {
    KeyStepFits(s, step, user);
    HarmlessFits(s, step, user);
    Cache.StepKeepsCoherenceIff(LineOf(s, user), KeyStep(s, step, user), LIST_SECONDS);
  }

  ghost predicate ListRuns(s: Lists, steps: seq<ListStep>) {
    steps == [] ||
    (ListRuns(s, steps[..|steps| - 1]) && ListEnabled(ListRun(s, steps[..|steps| - 1]), steps[|steps| - 1]))
  }

  ghost predicate AlwaysCurrent(s: Lists, steps: seq<ListStep>, user: string) {
    Current(ListRun(s, steps), user) && (steps == [] || AlwaysCurrent(s, steps[..|steps| - 1], user))
  }

  ghost predicate AllHarmless(s: Lists, steps: seq<ListStep>, user: string) {
    steps == [] ||
    (AllHarmless(s, steps[..|steps| - 1], user) && Harmless(ListRun(s, steps[..|steps| - 1]), steps[|steps| - 1], user))
  }

  lemma {:induction false} RunKeepsListsSound(s: Lists, steps: seq<ListStep>)
    requires ClaimsSound(RegistryOf(s))
    ensures ClaimsSound(RegistryOf(ListRun(s, steps)))
  {
    if steps == [] {
    } else {
      RunKeepsListsSound(s, steps[..|steps| - 1]);
      StepKeepsListsSound(ListRun(s, steps[..|steps| - 1]), steps[|steps| - 1]);
    }
  }

  /** Over every interleaving of requests for lists, claims and operations: a cached list is the current
      one throughout, if and only if no step outdates it. */
  lemma {:induction false} ListsStayCurrentIff(s: Lists, steps: seq<ListStep>, user: string)
    requires ClaimsSound(RegistryOf(s)) && Current(s, user) && ListRuns(s, steps)
    ensures AlwaysCurrent(s, steps, user) <==> AllHarmless(s, steps, user)
  {
    if steps == [] {
    } else {
      var most := steps[..|steps| - 1];
      ListsStayCurrentIff(s, most, user);
      if AlwaysCurrent(s, most, user) {
        RunKeepsListsSound(s, most);
        AlwaysEndsCurrent(s, most, user);
        StepKeepsCurrentIff(ListRun(s, most), steps[|steps| - 1], user);
      }
    }
  }

  lemma AlwaysEndsCurrent(s: Lists, steps: seq<ListStep>, user: string)
    requires AlwaysCurrent(s, steps, user)
    ensures Current(ListRun(s, steps), user)
  {
  }

  // ---------------------------------------------------------------- a claim that overlaps a request

  ghost predicate Reaches(s: Lists, steps: seq<ListStep>, end: Lists) {
    ListRuns(s, steps) && ListRun(s, steps) == end
  }

  lemma Onward(s: Lists, steps: seq<ListStep>, t: Lists, step: ListStep, t': Lists)
    requires Reaches(s, steps, t) && ListEnabled(t, step) && t' == ListStepTo(t, step)
    ensures Reaches(s, steps + [step], t')
  {
    var all := steps + [step];
    assert all[..|all| - 1] == steps && all[|all| - 1] == step;
    assert ListRun(s, all) == ListStepTo(ListRun(s, steps), step);
    assert ListRuns(s, all) <==> ListRuns(s, steps) && ListEnabled(ListRun(s, steps), step);
  }

  /** A user and a device that nobody holds. */
  function Unclaimed(user: string, d: string): Registry {
    EMPTY.(users := map[user := false], devices := map[d := Device(d, None)])
  }

  lemma ClaimOfUnclaimed(user: string, d: string)
    ensures var r, c := Unclaimed(user, d), Claim(user, d, false);
            StepTo(System(r, []), BeginClaim(user, d)) == System(r, [c]) &&
            StepTo(System(r, [c]), FinishClaim(0)) == System(EndClaim(r, c), []) &&
            ClaimOutcome(r, c) == Ok && View(r, user) == [] && View(EndClaim(r, c), user) != []
  {
    var r, c := Unclaimed(user, d), Claim(user, d, false);
    var r' := EndClaim(r, c);
    assert StepTo(System(r, []), BeginClaim(user, d)).pending == [c];
    assert [c][..0] + [c][1..] == [];
    assert r'.assignments[0] == Assignment(d, user, true);
    var i := Listed(r', user, d);
  }

  /** A claim is under way; a request misses and reads the list. */
  function MissFirst(user: string, d: string): seq<ListStep> {
    [] + [StartClaim(user, d, 0)] + [LookUp(user, 0)] + [TakeList(user, 0)]
  }

  /** The claim commits and deletes the key, and the request stores what it has read. */
  function ClaimMeanwhile(user: string, d: string): seq<ListStep> {
    MissFirst(user, d) + [EndOfClaim(0, 1)] + [DeleteKey(user, 1)] + [FillList(user, 0, 2)]
  }

  /** The list of before the claim is about to be stored. */
  function AboutToStore(user: string, d: string): Lists {
    Lists(System(Unclaimed(user, d), [Claim(user, d, false)]), map[user := Cache.Slot(None, 0, [Cache.Taken([], 0)], 0)], 0)
  }

  lemma MissedFirst(user: string, d: string)
    ensures Reaches(Start(System(Unclaimed(user, d), []), 0), MissFirst(user, d), AboutToStore(user, d))
  {
    var r, c := Unclaimed(user, d), Claim(user, d, false);
    ClaimOfUnclaimed(user, d);
    var s0, s1 := Start(System(r, []), 0), Lists(System(r, [c]), map[], 0);
    var s2 := s1.(slots := map[user := Cache.Slot(None, 1, [], 0)]);
    assert Reaches(s0, [], s0);
    Onward(s0, [], s0, StartClaim(user, d, 0), s1);
    Onward(s0, [] + [StartClaim(user, d, 0)], s1, LookUp(user, 0), s2);
    assert Cache.TakeView(SlotOf(s2, user), View(r, user), 0).fills == [Cache.Taken([], 0)];
    Onward(s0, [] + [StartClaim(user, d, 0)] + [LookUp(user, 0)], s2, TakeList(user, 0), AboutToStore(user, d));
  }

  /** The empty list of before the claim is cached until 302, although the claim has deleted the key. */
  lemma OverlappedFillIsOutdated(user: string, d: string) returns (end: Lists)
    ensures Reaches(Start(System(Unclaimed(user, d), []), 0), ClaimMeanwhile(user, d), end)
    ensures SlotOf(end, user).cached == Some(Cache.Cached([], 302)) && SlotOf(end, user).deletes == 0
    ensures View(RegistryOf(end), user) != []
  {
    MissedFirst(user, d);
    end := StoredLast(Start(System(Unclaimed(user, d), []), 0), MissFirst(user, d), user, d);
  }

  /** The states on the way: claimed with a deletion owed, deleted, stored. */
  function Claimed(user: string, d: string, deletes: nat): Lists {
    Lists(System(EndClaim(Unclaimed(user, d), Claim(user, d, false)), []),
          map[user := Cache.Slot(None, 0, [Cache.Taken([], 0)], deletes)], 1)
  }

  function Stored(user: string, d: string): Lists {
    Claimed(user, d, 0).(slots := map[user := Cache.Slot(Some(Cache.Cached([], 302)), 0, [], 0)], clock := 2)
  }

  lemma LastSteps(user: string, d: string)
    ensures ListEnabled(AboutToStore(user, d), EndOfClaim(0, 1)) && ListEnabled(Claimed(user, d, 1), DeleteKey(user, 1))
    ensures ListEnabled(Claimed(user, d, 0), FillList(user, 0, 2))
    ensures ListStepTo(AboutToStore(user, d), EndOfClaim(0, 1)) == Claimed(user, d, 1)
    ensures ListStepTo(Claimed(user, d, 1), DeleteKey(user, 1)) == Claimed(user, d, 0)
    ensures ListStepTo(Claimed(user, d, 0), FillList(user, 0, 2)) == Stored(user, d)
  {
    ClaimOfUnclaimed(user, d);
    assert ClaimWins(AboutToStore(user, d), 0);
    var slot := SlotOf(Claimed(user, d, 0), user);
    assert slot.fills[..0] + slot.fills[1..] == [];
  }

  lemma StoredLast(s0: Lists, steps: seq<ListStep>, user: string, d: string) returns (end: Lists)
    requires Reaches(s0, steps, AboutToStore(user, d))
    ensures Reaches(s0, steps + [EndOfClaim(0, 1)] + [DeleteKey(user, 1)] + [FillList(user, 0, 2)], end)
    ensures end == Stored(user, d) && View(RegistryOf(end), user) != []
  {
    LastSteps(user, d);
    ClaimOfUnclaimed(user, d);
    end := Stored(user, d);
    Onward(s0, steps, AboutToStore(user, d), EndOfClaim(0, 1), Claimed(user, d, 1));
    Onward(s0, steps + [EndOfClaim(0, 1)], Claimed(user, d, 1), DeleteKey(user, 1), Claimed(user, d, 0));
    Onward(s0, steps + [EndOfClaim(0, 1)] + [DeleteKey(user, 1)], Claimed(user, d, 0), FillList(user, 0, 2), end);
  }

  // ---------------------------------------------------------------- the service

  class DeviceListService {
    const tables: DeviceTables
    const cache: Cache.ReadThrough<seq<Item>>

    constructor (tables: DeviceTables, cache: Cache.ReadThrough<seq<Item>>)
      ensures this.tables == tables && this.cache == cache
    {
      this.tables, this.cache := tables, cache;
    }

    /** From the cache, or from the tables and, later, into the cache; nothing comes in between. */
    method GetMyDevices(user: string, now: int, later: int) returns (list: seq<Item>)
      modifies cache`lines
      ensures list == Cache.Served(Cache.Line(View(tables.R(), user), old(cache.SlotOf(user)), now), now)
      ensures cache.lines == if Cache.Hit(old(cache.SlotOf(user)), now) then old(cache.lines)
                             else old(cache.lines)[user := Cache.Cached(list, later + cache.ttl)]
    {
      var found := cache.Lookup(user, now);
      if found.Some? {
        return found.value;
      }
      list := View(tables.R(), user);
      cache.Store(user, list, later);
    }

    /** A claim that succeeds deletes the claimer's key, and no other changes. */
    method ClaimDevice(user: string, display: string) returns (outcome: Outcome)
      modifies tables, cache`lines
      ensures !old(Registered(tables.R(), display)) ==> outcome == NotFound && tables.R() == old(tables.R())
      ensures old(Registered(tables.R(), display)) ==>
                exists d :: ClaimedAs(old(tables.R()), tables.R(), user, display, d, outcome)
      ensures cache.lines == if outcome == Ok then old(cache.lines) - {user} else old(cache.lines)
    {
      ghost var before := tables.R();
      outcome := tables.ClaimDevice(user, display);
      ghost var after := tables.R();
      assert Registered(before, display) ==> exists d :: ClaimedAs(before, after, user, display, d, outcome);
      if outcome == Ok {
        cache.Remove(user);
      }
      assert tables.R() == after;
    }

    /** The caller need not hold the device; the caller's key is the one that is deleted. */
    method SetDeviceThreshold(actor: string, display: string, limits: Record) returns (outcome: Outcome)
      modifies tables, cache`lines
      ensures !old(Registered(tables.R(), display)) ==> outcome == NotFound && tables.R() == old(tables.R())
      ensures old(Registered(tables.R(), display)) ==>
                exists d :: d in old(tables.R()).devices && old(tables.R()).devices[d].display == display &&
                            outcome == SetDeviceThresholdOutcome(old(tables.R()), d) &&
                            tables.R() == Apply(old(tables.R()), DoSetDeviceThreshold(d, limits)) &&
                            (outcome == Ok <==> DeletesKey(old(tables.R()), DoSetDeviceThreshold(d, limits)))
      ensures cache.lines == if outcome == Ok then old(cache.lines) - {actor} else old(cache.lines)
    {
      var found := tables.FindDevice(display);
      if found.None? {
        return NotFound;
      }
      outcome := tables.StoreDeviceThreshold(found.value, limits);
      ghost var after := tables.R();
      if outcome == Ok {
        cache.Remove(actor);
      }
      assert tables.R() == after;
      assert old(tables.R()).devices[found.value].display == display;
    }

    /** Deleting a threshold that is not there fails, and then no key is deleted. */
    method RemoveDeviceThreshold(actor: string, display: string) returns (outcome: Outcome)
      modifies tables, cache`lines
      ensures !old(Registered(tables.R(), display)) ==> outcome == NotFound && tables.R() == old(tables.R())
      ensures old(Registered(tables.R(), display)) ==>
                exists d :: d in old(tables.R()).devices && old(tables.R()).devices[d].display == display &&
                            tables.R() == Apply(old(tables.R()), DoRemoveDeviceThreshold(d)) &&
                            (outcome == Ok <==> DeletesKey(old(tables.R()), DoRemoveDeviceThreshold(d)))
      ensures cache.lines == if outcome == Ok then old(cache.lines) - {actor} else old(cache.lines)
    {
      var found := tables.FindDevice(display);
      if found.None? {
        return NotFound;
      }
      outcome := tables.DropDeviceThreshold(found.value);
      ghost var after := tables.R();
      if outcome == Ok {
        cache.Remove(actor);
      }
      assert tables.R() == after;
      assert old(tables.R()).devices[found.value].display == display;
    }
  }
}
