/** Devices, their assignments and metadata, and the two places where thresholds live. Claims are
    transactions that read, then insert under a partial unique index; an unclaim checks first and writes
    in a transaction of its own; the rest is served at once. */
module Devices {
  import opened Common
  import opened Alerts
  import opened AlertsService

  /** A device record under its internal ID. */
  datatype Device = Device(display: string, group: Option<string>)

  /** users maps a user to "profile complete"; meta is keyed by display ID, which is unique there. */
  datatype Registry = Registry(
    users: map<string, bool>,
    devices: map<string, Device>,
    assignments: seq<Assignment>,
    meta: map<string, string>,
    thresholds: map<string, Record>,
    groups: map<string, string>,
    groupThresholds: map<string, Record>)

  datatype Outcome = Ok | NotFound | Conflict | Forbidden | BadRequest | NoSuchUser

  // ---------------------------------------------------------------- lookups

  predicate Registered(r: Registry, display: string) {
    exists d :: d in r.devices && r.devices[d].display == display
  }

  /** Display IDs are unique. */
  ghost predicate UniqueDisplays(r: Registry) {
    forall d, d' :: d in r.devices && d' in r.devices && d != d' ==> r.devices[d].display != r.devices[d'].display
  }

  predicate HasActive(assignments: seq<Assignment>, d: string) {
    exists i :: 0 <= i < |assignments| && assignments[i].device == d && assignments[i].active
  }

  predicate Owns(assignments: seq<Assignment>, d: string, user: string) {
    exists i :: 0 <= i < |assignments| && assignments[i] == Assignment(d, user, true)
  }

  // ---------------------------------------------------------------- claim, unclaim, unassign, delete user

  /** A claim past its reads. */
  datatype Claim = Claim(user: string, device: string, sawActive: bool)

  /** The assignment's unique index comes before its foreign key, and the metadata row last. */
  function ClaimOutcome(r: Registry, c: Claim): Outcome {
    if c.device !in r.devices then NotFound
    else if c.sawActive || HasActive(r.assignments, c.device) then Conflict
    else if c.user !in r.users then NoSuchUser
    else if r.devices[c.device].display in r.meta then Conflict
    else Ok
  }

  function EndClaim(r: Registry, c: Claim): Registry {
    if ClaimOutcome(r, c) != Ok then r
    else r.(assignments := r.assignments + [Assignment(c.device, c.user, true)],
            meta := r.meta[r.devices[c.device].display := c.user])
  }

  function CloseWhere(assignments: seq<Assignment>, d: string, user: Option<string>): (a: seq<Assignment>)
    ensures |a| == |assignments|
    ensures forall i :: 0 <= i < |a| ==>
              a[i] == if assignments[i].device == d && (user.Some? ==> assignments[i].user == user.value)
                      then assignments[i].(active := false) else assignments[i]
  {
    seq(|assignments|, i requires 0 <= i < |assignments| =>
      if assignments[i].device == d && (user.Some? ==> assignments[i].user == user.value)
      then assignments[i].(active := false) else assignments[i])
  }

  /** The transaction of an unclaim, whatever has become of the ownership that was checked. */
  function UnclaimRows(r: Registry, user: string, d: string): Registry {
    if d !in r.devices then r
    else
      var display := r.devices[d].display;
      r.(assignments := CloseWhere(r.assignments, d, Some(user)),
         meta := if display in r.meta && r.meta[display] == user then r.meta - {display} else r.meta)
  }

  function Unclaim(r: Registry, user: string, d: string): Registry {
    if Owns(r.assignments, d, user) then UnclaimRows(r, user, d) else r
  }

  /** The metadata row stays behind. */
  function ForceUnassign(r: Registry, d: string): Registry {
    r.(assignments := CloseWhere(r.assignments, d, None))
  }

  function NotOf(user: string): Assignment -> bool {
    (a: Assignment) => a.user != user
  }

  function LeaveGroups(devices: map<string, Device>, gone: set<string>): map<string, Device> {
    map d | d in devices ::
      if devices[d].group.Some? && devices[d].group.value in gone then devices[d].(group := None) else devices[d]
  }

  function DeleteUser(r: Registry, user: string): Registry {
    if user !in r.users || r.users[user] then r
    else
      var gone := set g | g in r.groups && r.groups[g] == user;
      r.(users := r.users - {user},
         devices := LeaveGroups(r.devices, gone),
         assignments := Filter(NotOf(user), r.assignments),
         meta := map k | k in r.meta && r.meta[k] != user :: r.meta[k],
         groups := r.groups - gone,
         groupThresholds := r.groupThresholds - gone)
  }

  // ---------------------------------------------------------------- groups and thresholds

  function AddToGroupOutcome(r: Registry, user: string, group: string, d: string): Outcome {
    if group !in r.groups || r.groups[group] != user then Forbidden
    else if d !in r.devices then NotFound
    else if !Owns(r.assignments, d, user) then Forbidden
    else if r.devices[d].group.Some? then BadRequest
    else if d in r.thresholds then BadRequest
    else Ok
  }

  function AddToGroup(r: Registry, user: string, group: string, d: string): Registry {
    if AddToGroupOutcome(r, user, group, d) != Ok then r
    else r.(devices := r.devices[d := r.devices[d].(group := Some(group))])
  }

  function RemoveFromGroup(r: Registry, user: string, group: string, d: string): Registry {
    if d !in r.devices || r.devices[d].group != Some(group) || group !in r.groups || r.groups[group] != user then r
    else r.(devices := r.devices[d := r.devices[d].(group := None)])
  }

  function SetGroupThresholdOutcome(r: Registry, user: string, group: string): Outcome {
    if group !in r.groups || r.groups[group] != user then Forbidden
    else if exists d :: d in r.thresholds && d in r.devices && r.devices[d].group == Some(group) then BadRequest
    else Ok
  }

  function SetGroupThreshold(r: Registry, user: string, group: string, limits: Record): Registry {
    if SetGroupThresholdOutcome(r, user, group) != Ok then r
    else r.(groupThresholds := r.groupThresholds[group := limits])
  }

  function DeleteGroup(r: Registry, user: string, group: string): Registry {
    if group !in r.groups || r.groups[group] != user then r
    else r.(groupThresholds := r.groupThresholds - {group},
            devices := LeaveGroups(r.devices, {group}),
            groups := r.groups - {group})
  }

  function SetDeviceThresholdOutcome(r: Registry, d: string): Outcome {
    if d !in r.devices then NotFound else if r.devices[d].group.Some? then Conflict else Ok
  }

  function SetDeviceThreshold(r: Registry, d: string, limits: Record): Registry {
    if SetDeviceThresholdOutcome(r, d) != Ok then r else r.(thresholds := r.thresholds[d := limits])
  }

  // ---------------------------------------------------------------- runs

  datatype Op =
    | DoUnclaim(user: string, device: string)
    | DoUnclaimRows(user: string, device: string)
    | DoForceUnassign(device: string)
    | DoDeleteUser(user: string)
    | DoCreateGroup(user: string, group: string)
    | DoDeleteGroup(user: string, group: string)
    | DoAddToGroup(user: string, group: string, device: string)
    | DoRemoveFromGroup(user: string, group: string, device: string)
    | DoSetGroupThreshold(user: string, group: string, limits: Record)
    | DoRemoveGroupThreshold(user: string, group: string)
    | DoSetDeviceThreshold(device: string, limits: Record)
    | DoRemoveDeviceThreshold(device: string)
    | DoCreateDevice(device: string, display: string)
    | DoCreateUser(user: string)

  function Apply(r: Registry, op: Op): Registry {
    match op
    case DoUnclaim(user, d) => Unclaim(r, user, d)
    case DoUnclaimRows(user, d) => UnclaimRows(r, user, d)
    case DoForceUnassign(d) => ForceUnassign(r, d)
    case DoDeleteUser(user) => DeleteUser(r, user)
    case DoCreateGroup(user, group) => if group in r.groups then r else r.(groups := r.groups[group := user])
    case DoDeleteGroup(user, group) => DeleteGroup(r, user, group)
    case DoAddToGroup(user, group, d) => AddToGroup(r, user, group, d)
    case DoRemoveFromGroup(user, group, d) => RemoveFromGroup(r, user, group, d)
    case DoSetGroupThreshold(user, group, limits) => SetGroupThreshold(r, user, group, limits)
    case DoRemoveGroupThreshold(user, group) =>
      if group in r.groups && r.groups[group] == user then r.(groupThresholds := r.groupThresholds - {group}) else r
    case DoSetDeviceThreshold(d, limits) => SetDeviceThreshold(r, d, limits)
    case DoRemoveDeviceThreshold(d) => r.(thresholds := r.thresholds - {d})
    case DoCreateDevice(d, display) =>
      if d in r.devices || Registered(r, display) then r else r.(devices := r.devices[d := Device(display, None)])
    case DoCreateUser(user) => if user in r.users then r else r.(users := r.users[user := false])
  }

  /** The registry and the claims that have read but not yet inserted. */
  datatype System = System(registry: Registry, pending: seq<Claim>)

  datatype Step = BeginClaim(user: string, device: string) | FinishClaim(k: nat) | Serve(op: Op)

  predicate Enabled(s: System, step: Step) {
    step.FinishClaim? ==> step.k < |s.pending|
  }

  function StepTo(s: System, step: Step): System
    requires Enabled(s, step)
  {
    match step
    case BeginClaim(user, d) =>
      s.(pending := s.pending + [Claim(user, d, HasActive(s.registry.assignments, d))])
    case FinishClaim(k) =>
      System(EndClaim(s.registry, s.pending[k]), s.pending[..k] + s.pending[k + 1..])
    case Serve(op) => s.(registry := Apply(s.registry, op))
  }

  ghost predicate Runs(s: System, steps: seq<Step>)
    decreases |steps|
  {
    steps == [] || (Enabled(s, steps[0]) && Runs(StepTo(s, steps[0]), steps[1..]))
  }

  ghost function RunTo(s: System, steps: seq<Step>): System
    requires Runs(s, steps)
    decreases |steps|
  {
    if steps == [] then s else RunTo(StepTo(s, steps[0]), steps[1..])
  }

  const EMPTY: Registry := Registry(map[], map[], [], map[], map[], map[], map[])

  // ---------------------------------------------------------------- claims

  ghost predicate AtMostOneActive(assignments: seq<Assignment>) {
    forall i, j :: 0 <= i < j < |assignments| && assignments[i].active && assignments[j].active ==>
      assignments[i].device != assignments[j].device
  }

  /** An active assignment belongs to a device whose metadata row names the same user. */
  ghost predicate Described(r: Registry, a: Assignment) {
    a.active ==> a.device in r.devices && r.devices[a.device].display in r.meta &&
                 r.meta[r.devices[a.device].display] == a.user
  }

  ghost predicate ClaimsSound(r: Registry) {
    && UniqueDisplays(r)
    && AtMostOneActive(r.assignments)
    && forall i :: 0 <= i < |r.assignments| ==> Described(r, r.assignments[i])
  }

  lemma {:induction false} FilterKeepsSound(r: Registry, s: seq<Assignment>, user: string)
    requires AtMostOneActive(s) && forall i :: 0 <= i < |s| ==> Described(r, s[i])
    ensures var kept := Filter(NotOf(user), s);
            AtMostOneActive(kept) && forall i :: 0 <= i < |kept| ==> kept[i].user != user && Described(r, kept[i])
  {
    if s == [] {
    } else {
      var most, last := s[..|s| - 1], s[|s| - 1];
      FilterKeepsSound(r, most, user);
      var kept := Filter(NotOf(user), most);
      forall i | 0 <= i < |kept| && kept[i].active && last.active ensures kept[i].device != last.device {
        FilterSound(NotOf(user), most, i);
      }
    }
  }

  lemma EndClaimKeepsSound(r: Registry, c: Claim)
    requires ClaimsSound(r)
    ensures ClaimsSound(EndClaim(r, c))
  {
    if ClaimOutcome(r, c) == Ok {
      var r', n := EndClaim(r, c), |r.assignments|;
      forall i | 0 <= i < |r'.assignments| ensures Described(r', r'.assignments[i]) {
        if i < n {
          assert Described(r, r.assignments[i]);
        }
      }
    }
  }

  lemma DeleteUserKeepsSound(r: Registry, user: string)
    requires ClaimsSound(r)
    ensures ClaimsSound(DeleteUser(r, user))
  {
    var r' := DeleteUser(r, user);
    if r' != r {
      FilterKeepsSound(r, r.assignments, user);
      forall i | 0 <= i < |r'.assignments| ensures Described(r', r'.assignments[i]) {
        assert Described(r, r'.assignments[i]);
      }
    }
  }

  lemma CloseKeepsSound(r: Registry, r': Registry, d: string, user: Option<string>)
    requires ClaimsSound(r) && r'.devices == r.devices
    requires r'.assignments == CloseWhere(r.assignments, d, user)
    requires r'.meta == r.meta ||
             (d in r.devices && user.Some? && r'.meta == r.meta - {r.devices[d].display} &&
              r.devices[d].display in r.meta && r.meta[r.devices[d].display] == user.value)
    ensures ClaimsSound(r')
  {
    forall i | 0 <= i < |r'.assignments| ensures Described(r', r'.assignments[i]) {
      assert Described(r, r.assignments[i]);
    }
  }

  /** The operations of groups, thresholds, devices and user creation. */
  predicate LeavesClaims(op: Op) {
    !op.DoUnclaim? && !op.DoUnclaimRows? && !op.DoForceUnassign? && !op.DoDeleteUser?
  }

  ghost predicate SameDisplays(r: Registry, r': Registry) {
    forall d :: d in r.devices ==> d in r'.devices && r'.devices[d].display == r.devices[d].display
  }

  lemma LeaveGroupsKeepsDisplays(r: Registry, gone: set<string>)
    ensures LeaveGroups(r.devices, gone).Keys == r.devices.Keys
    ensures forall d :: d in r.devices ==> LeaveGroups(r.devices, gone)[d].display == r.devices[d].display
  {
  }

  lemma OthersKeepDisplays(r: Registry, op: Op)
    requires LeavesClaims(op)
    ensures SameDisplays(r, Apply(r, op))
    ensures !op.DoCreateDevice? ==> Apply(r, op).devices.Keys == r.devices.Keys
  {
    if op.DoDeleteGroup? {
      LeaveGroupsKeepsDisplays(r, {op.group});
    }
  }

  lemma OthersLeaveClaims(r: Registry, op: Op)
    requires LeavesClaims(op)
    ensures Apply(r, op).assignments == r.assignments && Apply(r, op).meta == r.meta
    ensures SameDisplays(r, Apply(r, op))
    ensures !op.DoCreateDevice? ==> Apply(r, op).devices.Keys == r.devices.Keys
  {
    OthersKeepDisplays(r, op);
  }

  lemma OthersKeepUnique(r: Registry, op: Op)
    requires LeavesClaims(op) && UniqueDisplays(r)
    ensures UniqueDisplays(Apply(r, op))
  {
    OthersLeaveClaims(r, op);
    if op.DoCreateDevice? {
      assert forall d :: d in r.devices && !Registered(r, op.display) ==> r.devices[d].display != op.display;
    } else {
      var r' := Apply(r, op);
      forall d, d' | d in r'.devices && d' in r'.devices && d != d'
        ensures r'.devices[d].display != r'.devices[d'].display
      {
        assert d in r.devices && d' in r.devices;
      }
    }
  }

  lemma ApplyKeepsClaims(r: Registry, op: Op)
    requires ClaimsSound(r)
    ensures ClaimsSound(Apply(r, op))
  {
    var r' := Apply(r, op);
    if LeavesClaims(op) {
      OthersLeaveClaims(r, op);
      OthersKeepUnique(r, op);
      forall i | 0 <= i < |r'.assignments| ensures Described(r', r'.assignments[i]) {
        assert Described(r, r.assignments[i]);
      }
    } else if op.DoDeleteUser? {
      DeleteUserKeepsSound(r, op.user);
    } else if r' != r {
      CloseKeepsSound(r, r', op.device, if op.DoForceUnassign? then None else Some(op.user));
    }
  }

  lemma StepKeepsClaims(s: System, step: Step)
    requires ClaimsSound(s.registry) && Enabled(s, step)
    ensures ClaimsSound(StepTo(s, step).registry)
  {
    match step
    case BeginClaim(_, _) =>
    case FinishClaim(k) => EndClaimKeepsSound(s.registry, s.pending[k]);
    case Serve(op) => ApplyKeepsClaims(s.registry, op);
  }

  /** Claim protocol, over every interleaving: a device has at most one active assignment, and each
      active assignment has the metadata row of the same user. */
  lemma {:induction false} RunKeepsClaims(s: System, steps: seq<Step>)
    requires ClaimsSound(s.registry) && Runs(s, steps)
    ensures ClaimsSound(RunTo(s, steps).registry)
    decreases |steps|
  {
    if steps == [] {
    } else {
      StepKeepsClaims(s, steps[0]);
      RunKeepsClaims(StepTo(s, steps[0]), steps[1..]);
    }
  }

  lemma {:induction false} AtMostOneListed(assignments: seq<Assignment>, d: string)
    requires AtMostOneActive(assignments)
    ensures |Filter(ActiveOn(d), assignments)| <= 1
  {
    if assignments == [] {
    } else {
      var most, last := assignments[..|assignments| - 1], assignments[|assignments| - 1];
      AtMostOneListed(most, d);
      if last.device == d && last.active {
        FilterNone(ActiveOn(d), most);
      }
    }
  }

  /** So the alert loop sees each user of a device once, which is what keeps its log in agreement. */
  lemma AlertLoopSeesDistinctUsers(s: System, steps: seq<Step>, d: string)
    requires ClaimsSound(s.registry) && Runs(s, steps)
    ensures NoDup(UsersOf(Filter(ActiveOn(d), RunTo(s, steps).registry.assignments)))
  {
    RunKeepsClaims(s, steps);
    AtMostOneListed(RunTo(s, steps).registry.assignments, d);
  }

  // ---------------------------------------------------------------- who wins a device

  function One(b: bool): nat {
    if b then 1 else 0
  }

  /** The step is a claim of the device that succeeds. */
  predicate Wins(s: System, step: Step, d: string)
    requires Enabled(s, step)
  {
    step.FinishClaim? && s.pending[step.k].device == d && ClaimOutcome(s.registry, s.pending[step.k]) == Ok
  }

  /** The step ends the last active assignment of the device. */
  predicate Releases(s: System, step: Step, d: string)
    requires Enabled(s, step)
  {
    HasActive(s.registry.assignments, d) && !HasActive(StepTo(s, step).registry.assignments, d)
  }

  lemma ClaimActivates(r: Registry, c: Claim, d: string)
    ensures HasActive(EndClaim(r, c).assignments, d) <==>
            HasActive(r.assignments, d) || (c.device == d && ClaimOutcome(r, c) == Ok)
  {
    var a, a' := r.assignments, EndClaim(r, c).assignments;
    if HasActive(a, d) {
      var i :| 0 <= i < |a| && a[i].device == d && a[i].active;
      assert a'[i] == a[i];
    }
    if ClaimOutcome(r, c) == Ok {
      assert a'[|a|] == Assignment(c.device, c.user, true);
    }
  }

  lemma OpNeverActivates(r: Registry, op: Op, d: string)
    ensures HasActive(Apply(r, op).assignments, d) ==> HasActive(r.assignments, d)
  {
    if LeavesClaims(op) {
      OthersLeaveClaims(r, op);
    } else if op.DoDeleteUser? && HasActive(Apply(r, op).assignments, d) && Apply(r, op) != r {
      var kept := Filter(NotOf(op.user), r.assignments);
      var i :| 0 <= i < |kept| && kept[i].device == d && kept[i].active;
      FilterSound(NotOf(op.user), r.assignments, i);
      var k :| 0 <= k < |r.assignments| && r.assignments[k] == kept[i];
    }
  }

  ghost function WinsOf(s: System, steps: seq<Step>, d: string): nat
    requires Runs(s, steps)
    decreases |steps|
  {
    if steps == [] then 0 else One(Wins(s, steps[0], d)) + WinsOf(StepTo(s, steps[0]), steps[1..], d)
  }

  ghost function ReleasesOf(s: System, steps: seq<Step>, d: string): nat
    requires Runs(s, steps)
    decreases |steps|
  {
    if steps == [] then 0 else One(Releases(s, steps[0], d)) + ReleasesOf(StepTo(s, steps[0]), steps[1..], d)
  }

  /** Over every interleaving: successful claims of a device and releases of it alternate, so of any
      number of overlapping claims of a free device at most one succeeds until it is released. */
  lemma {:induction false} ClaimsAlternate(s: System, steps: seq<Step>, d: string)
    requires Runs(s, steps)
    ensures One(HasActive(s.registry.assignments, d)) + WinsOf(s, steps, d) ==
            One(HasActive(RunTo(s, steps).registry.assignments, d)) + ReleasesOf(s, steps, d)
    decreases |steps|
  {
    if steps == [] {
    } else {
      match steps[0] {
        case BeginClaim(_, _) =>
        case FinishClaim(k) => ClaimActivates(s.registry, s.pending[k], d);
        case Serve(op) => OpNeverActivates(s.registry, op, d);
      }
      ClaimsAlternate(StepTo(s, steps[0]), steps[1..], d);
    }
  }

  /** Nobody holds the device, and yet nobody can claim it. */
  ghost predicate Stranded(r: Registry, d: string) {
    d in r.devices && r.devices[d].display in r.meta && !HasActive(r.assignments, d)
  }

  lemma ForceUnassignStrands(r: Registry, d: string)
    requires ClaimsSound(r) && HasActive(r.assignments, d)
    ensures Stranded(ForceUnassign(r, d), d)
  {
    var i :| 0 <= i < |r.assignments| && r.assignments[i].device == d && r.assignments[i].active;
    assert Described(r, r.assignments[i]);
  }

  /** The operation removes the left-over metadata row: it deletes the user named there, or is that user's
      unclaim which was checked when the user still held the device. */
  predicate Frees(r: Registry, op: Op, d: string)
    requires d in r.devices && r.devices[d].display in r.meta
  {
    var owner := r.meta[r.devices[d].display];
    (op == DoDeleteUser(owner) && owner in r.users && !r.users[owner]) || op == DoUnclaimRows(owner, d)
  }

  lemma ClaimKeepsStranded(r: Registry, c: Claim, d: string)
    requires Stranded(r, d) && UniqueDisplays(r)
    ensures Stranded(EndClaim(r, c), d)
  {
    var r' := EndClaim(r, c);
    if r' != r {
      assert c.device != d;
      assert r'.assignments[..|r.assignments|] == r.assignments;
    }
  }

  lemma DeleteFreesIff(r: Registry, user: string, d: string)
    requires Stranded(r, d)
    ensures Stranded(DeleteUser(r, user), d) <==> !Frees(r, DoDeleteUser(user), d)
  {
    OpNeverActivates(r, DoDeleteUser(user), d);
    LeaveGroupsKeepsDisplays(r, set g | g in r.groups && r.groups[g] == user);
  }

  lemma UnclaimFreesIff(r: Registry, user: string, d: string, of: string)
    requires Stranded(r, d) && UniqueDisplays(r)
    ensures Stranded(UnclaimRows(r, user, of), d) <==> !Frees(r, DoUnclaimRows(user, of), d)
    ensures Stranded(Unclaim(r, user, of), d)
  {
    OpNeverActivates(r, DoUnclaimRows(user, of), d);
    if Owns(r.assignments, of, user) {
      assert of != d;
    }
  }

  lemma OpKeepsStrandedIff(r: Registry, op: Op, d: string)
    requires Stranded(r, d) && UniqueDisplays(r)
    ensures Stranded(Apply(r, op), d) <==> !Frees(r, op, d)
  {
    match op
    case DoUnclaim(user, of) => UnclaimFreesIff(r, user, d, of);
    case DoUnclaimRows(user, of) => UnclaimFreesIff(r, user, d, of);
    case DoForceUnassign(of) => OpNeverActivates(r, op, d);
    case DoDeleteUser(user) => DeleteFreesIff(r, user, d);
    case _ => OthersLeaveClaims(r, op);
  }

  lemma StepKeepsStrandedIff(s: System, step: Step, d: string)
    requires Stranded(s.registry, d) && UniqueDisplays(s.registry) && Enabled(s, step)
    ensures Stranded(StepTo(s, step).registry, d) <==> !(step.Serve? && Frees(s.registry, step.op, d))
  {
    match step
    case BeginClaim(_, _) =>
    case FinishClaim(k) => ClaimKeepsStranded(s.registry, s.pending[k], d);
    case Serve(op) => OpKeepsStrandedIff(s.registry, op, d);
  }

  /** No step of the run frees the device. */
  ghost predicate NeverFreed(s: System, steps: seq<Step>, d: string)
    requires Runs(s, steps)
    decreases |steps|
  {
    steps == [] ||
    (d in s.registry.devices && s.registry.devices[d].display in s.registry.meta &&
     !(steps[0].Serve? && Frees(s.registry, steps[0].op, d)) && NeverFreed(StepTo(s, steps[0]), steps[1..], d))
  }

  ghost predicate AlwaysStranded(s: System, steps: seq<Step>, d: string)
    requires Runs(s, steps)
    decreases |steps|
  {
    Stranded(s.registry, d) && (steps == [] || AlwaysStranded(StepTo(s, steps[0]), steps[1..], d))
  }

  /** A stranded device stays so, and every claim of it is refused, until the user named in the left-over
      metadata row is deleted or an unclaim by that user commits late. */
  lemma {:induction false} StrandedForGood(s: System, steps: seq<Step>, d: string, c: Claim)
    requires ClaimsSound(s.registry) && Stranded(s.registry, d) && Runs(s, steps)
    ensures AlwaysStranded(s, steps, d) <==> NeverFreed(s, steps, d)
    ensures NeverFreed(s, steps, d) && c.device == d ==> ClaimOutcome(RunTo(s, steps).registry, c) != Ok
    decreases |steps|
  {
    if steps == [] {
    } else {
      var s' := StepTo(s, steps[0]);
      StepKeepsStrandedIff(s, steps[0], d);
      StepKeepsClaims(s, steps[0]);
      if Stranded(s'.registry, d) {
        StrandedForGood(s', steps[1..], d, c);
      }
    }
  }

  // ---------------------------------------------------------------- threshold mutex

  /** No device has a group and its own threshold; groups and their thresholds exist. */
  ghost predicate Mutex(r: Registry) {
    && (forall d :: d in r.devices && r.devices[d].group.Some? ==> d !in r.thresholds && r.devices[d].group.value in r.groups)
    && (forall d :: d in r.thresholds ==> d in r.devices)
    && r.groupThresholds.Keys <= r.groups.Keys
  }

  lemma ApplyKeepsMutex(r: Registry, op: Op)
    requires Mutex(r)
    ensures Mutex(Apply(r, op))
  {
  }

  lemma {:induction false} RunKeepsMutex(s: System, steps: seq<Step>)
    requires Mutex(s.registry) && Runs(s, steps)
    ensures Mutex(RunTo(s, steps).registry)
    decreases |steps|
  {
    if steps == [] {
    } else {
      if steps[0].Serve? {
        ApplyKeepsMutex(s.registry, steps[0].op);
      }
      RunKeepsMutex(StepTo(s, steps[0]), steps[1..]);
    }
  }

  /** Threshold mutex: from the empty registry on, the conflict check of a group threshold never
      fires, and at most one of the two specific lookup levels applies to a device. */
  lemma ThresholdMutex(steps: seq<Step>, user: string, group: string, d: string)
    requires Runs(System(EMPTY, []), steps)
    ensures var r := RunTo(System(EMPTY, []), steps).registry;
            SetGroupThresholdOutcome(r, user, group) != BadRequest &&
            !(d in r.thresholds && d in r.devices && r.devices[d].group.Some?)
  {
    RunKeepsMutex(System(EMPTY, []), steps);
  }

  // ---------------------------------------------------------------- the services

  ghost predicate ClaimedAs(r: Registry, r': Registry, user: string, display: string, d: string, outcome: Outcome) {
    var c := Claim(user, d, HasActive(r.assignments, d));
    d in r.devices && r.devices[d].display == display && outcome == ClaimOutcome(r, c) && r' == EndClaim(r, c)
  }

  class DeviceTables {
    var users: map<string, bool>
    var devices: map<string, Device>
    var assignments: seq<Assignment>
    var meta: map<string, string>
    var thresholds: map<string, Record>
    var groups: map<string, string>
    var groupThresholds: map<string, Record>

    function R(): Registry
      reads this
    {
      Registry(users, devices, assignments, meta, thresholds, groups, groupThresholds)
    }

    method FindDevice(display: string) returns (d: Option<string>)
      ensures d.Some? ==> d.value in devices && devices[d.value].display == display
      ensures d.None? ==> forall id :: id in devices ==> devices[id].display != display
    {
      if id :| id in devices && devices[id].display == display {
        d := Some(id);
      } else {
        d := None;
      }
    }

    /** The reads of the claim transaction. */
    method ReadClaim(user: string, d: string) returns (c: Claim)
      ensures c == Claim(user, d, HasActive(assignments, d))
    {
      var existing := false;
      for i := 0 to |assignments|
        invariant existing <==> exists j :: 0 <= j < i && assignments[j].device == d && assignments[j].active
      {
        if assignments[i].device == d && assignments[i].active {
          existing := true;
        }
      }
      c := Claim(user, d, existing);
    }

    /** The inserts: the assignment under the partial unique index, then the metadata row under its
        unique display ID; a violation undoes the first insert and becomes a conflict. */
    method WriteClaim(c: Claim) returns (outcome: Outcome)
      modifies this
      ensures outcome == ClaimOutcome(old(R()), c) && R() == EndClaim(old(R()), c)
      ensures outcome == if c.device !in devices then NotFound
                         else if c.sawActive ||
                                 exists a <- old(assignments) :: a.device == c.device && a.active then Conflict
                         else if c.user !in users then NoSuchUser
                         else if devices[c.device].display in old(meta) then Conflict
                         else Ok
      ensures old(ClaimsSound(R())) ==> ClaimsSound(R())
    {
      if ClaimsSound(R()) {
        EndClaimKeepsSound(R(), c);
      }
      if c.device !in devices {
        return NotFound;
      }
      if c.sawActive || HasActive(assignments, c.device) {
        return Conflict;
      }
      if c.user !in users {
        return NoSuchUser;
      }
      var assignments0 := assignments;
      assignments := assignments + [Assignment(c.device, c.user, true)];
      var display := devices[c.device].display;
      if display in meta {
        assignments := assignments0;
        return Conflict;
      }
      meta := meta[display := c.user];
      outcome := Ok;
    }

    /** Served at once: not found, or the outcome of the claim for the device of that display ID. */
    method ClaimDevice(user: string, display: string) returns (outcome: Outcome)
      modifies this
      ensures !old(Registered(R(), display)) ==> outcome == NotFound && R() == old(R())
      ensures old(Registered(R(), display)) ==> exists d :: ClaimedAs(old(R()), R(), user, display, d, outcome)
    {
      var found := FindDevice(display);
      if found.None? {
        return NotFound;
      }
      var c := ReadClaim(user, found.value);
      outcome := WriteClaim(c);
      assert ClaimedAs(old(R()), R(), user, display, found.value, outcome);
    }

    /** The transaction of an unclaim. */
    method WriteUnclaim(user: string, d: string)
      requires d in devices
      modifies this
      ensures R() == Apply(old(R()), DoUnclaimRows(user, d))
      ensures !Owns(assignments, d, user) && !(devices[d].display in meta && meta[devices[d].display] == user)
    {
      assignments := CloseWhere(assignments, d, Some(user));
      var display := devices[d].display;
      if display in meta && meta[display] == user {
        meta := meta - {display};
      }
    }

    /** The ownership check and the transaction, with nothing in between. */
    method UnclaimDevice(user: string, d: string) returns (outcome: Outcome)
      modifies this
      ensures outcome == if d !in old(devices) then NotFound else if Owns(old(assignments), d, user) then Ok else Forbidden
      ensures outcome == Ok ==> R() == Apply(old(R()), DoUnclaim(user, d))
      ensures outcome != Ok ==> R() == old(R())
      ensures outcome == Ok ==> !Owns(assignments, d, user) && !(devices[d].display in meta && meta[devices[d].display] == user)
      ensures old(ClaimsSound(R())) ==> ClaimsSound(R())
    {
      if ClaimsSound(R()) {
        ApplyKeepsClaims(R(), DoUnclaim(user, d));
      }
      if d !in devices {
        return NotFound;
      }
      if !Owns(assignments, d, user) {
        return Forbidden;
      }
      WriteUnclaim(user, d);
      outcome := Ok;
    }

    /** Nobody holds the device afterwards, and nobody can claim it if somebody did. */
    method ForceUnassignDevice(d: string)
      modifies this`assignments
      ensures R() == Apply(old(R()), DoForceUnassign(d))
      ensures !HasActive(assignments, d)
      ensures old(ClaimsSound(R()) && HasActive(assignments, d)) ==> Stranded(R(), d)
    {
      if ClaimsSound(R()) && HasActive(assignments, d) {
        ForceUnassignStrands(R(), d);
      }
      assignments := CloseWhere(assignments, d, None);
    }

    method RemoveUser(user: string) returns (outcome: Outcome)
      modifies this
      ensures R() == Apply(old(R()), DoDeleteUser(user))
      ensures outcome == if user !in old(users) then NotFound else if old(users)[user] then BadRequest else Ok
    {
      if user !in users {
        return NotFound;
      }
      if users[user] {
        return BadRequest;
      }
      var userGroups := set g | g in groups && groups[g] == user;
      devices := LeaveGroups(devices, userGroups);
      groups := groups - userGroups;
      groupThresholds := groupThresholds - userGroups;
      meta := map k | k in meta && meta[k] != user :: meta[k];
      assignments := Filter(NotOf(user), assignments);
      users := users - {user};
      outcome := Ok;
    }

    method AddDeviceToGroup(user: string, group: string, d: string) returns (outcome: Outcome)
      modifies this`devices
      ensures outcome == AddToGroupOutcome(old(R()), user, group, d)
      ensures outcome == if group !in groups || groups[group] != user then Forbidden
                         else if d !in old(devices) then NotFound
                         else if forall i :: 0 <= i < |assignments| ==> assignments[i] != Assignment(d, user, true) then Forbidden
                         else if old(devices)[d].group != None || d in thresholds then BadRequest
                         else Ok
      ensures devices == if outcome == Ok then old(devices)[d := Device(old(devices)[d].display, Some(group))] else old(devices)
      ensures R() == Apply(old(R()), DoAddToGroup(user, group, d))
    {
      if group !in groups || groups[group] != user {
        return Forbidden;
      }
      if d !in devices {
        return NotFound;
      }
      if !Owns(assignments, d, user) {
        return Forbidden;
      }
      if devices[d].group.Some? || d in thresholds {
        return BadRequest;
      }
      devices := devices[d := devices[d].(group := Some(group))];
      outcome := Ok;
    }

    method StoreGroupThreshold(user: string, group: string, limits: Record) returns (outcome: Outcome)
      modifies this`groupThresholds
      ensures outcome == SetGroupThresholdOutcome(old(R()), user, group)
      ensures outcome == if group !in groups || groups[group] != user then Forbidden
                         else if exists d :: d in devices && devices[d].group == Some(group) && d in thresholds then BadRequest
                         else Ok
      ensures groupThresholds == if outcome == Ok then old(groupThresholds)[group := limits] else old(groupThresholds)
      ensures R() == Apply(old(R()), DoSetGroupThreshold(user, group, limits))
    {
      if group !in groups || groups[group] != user {
        return Forbidden;
      }
      if exists d :: d in thresholds && d in devices && devices[d].group == Some(group) {
        return BadRequest;
      }
      groupThresholds := groupThresholds[group := limits];
      outcome := Ok;
    }

    method RemoveGroup(user: string, group: string) returns (outcome: Outcome)
      modifies this
      ensures R() == Apply(old(R()), DoDeleteGroup(user, group))
      ensures outcome == Ok <==> group in old(groups) && old(groups)[group] == user
    {
      if group !in groups || groups[group] != user {
        return NotFound;
      }
      groupThresholds := groupThresholds - {group};
      devices := LeaveGroups(devices, {group});
      groups := groups - {group};
      outcome := Ok;
    }

    method StoreDeviceThreshold(d: string, limits: Record) returns (outcome: Outcome)
      modifies this`thresholds
      ensures outcome == SetDeviceThresholdOutcome(old(R()), d)
      ensures outcome == if d !in devices then NotFound else if devices[d].group != None then Conflict else Ok
      ensures thresholds == if outcome == Ok then old(thresholds)[d := limits] else old(thresholds)
      ensures R() == Apply(old(R()), DoSetDeviceThreshold(d, limits))
    {
      if d !in devices {
        return NotFound;
      }
      if devices[d].group.Some? {
        return Conflict;
      }
      thresholds := thresholds[d := limits];
      outcome := Ok;
    }

    method DropDeviceThreshold(d: string) returns (outcome: Outcome)
      modifies this`thresholds
      ensures outcome == if d in old(thresholds) then Ok else NotFound
      ensures R() == Apply(old(R()), DoRemoveDeviceThreshold(d))
    {
      if d !in thresholds {
        return NotFound;
      }
      thresholds := thresholds - {d};
      outcome := Ok;
    }
  }
}
