/** Who can change what: for every table of the registry, exactly which operations, by whom and under which
    conditions, put something into it, change it or take it away. */
module DeviceRights {
  import opened Common
  import opened Alerts
  import opened AlertsService
  import opened Devices
  import opened DeviceList

  // ---------------------------------------------------------------- the groups of devices

  /** The owner of the group adds a device that he holds, which has no group and no threshold of its own. */
  predicate Joins(r: Registry, op: Op, d: string, g: string) {
    op.DoAddToGroup? && op.device == d && op.group == g && g in r.groups && r.groups[g] == op.user &&
    (exists i :: 0 <= i < |r.assignments| && r.assignments[i] == Assignment(d, op.user, true)) &&
    d in r.devices && r.devices[d].group == None && d !in r.thresholds
  }

  /** A user whose profile is not complete is deleted. */
  predicate Deletes(r: Registry, op: Op, user: string) {
    op == DoDeleteUser(user) && user in r.users && !r.users[user]
  }

  /** The group goes, with its owner or by its owner. */
  predicate EndsGroup(r: Registry, op: Op, g: string) {
    g in r.groups && (op == DoDeleteGroup(r.groups[g], g) || Deletes(r, op, r.groups[g]))
  }

  /** Which operations can touch which table at all. */
  lemma DevicesUntouched(r: Registry, op: Op)
    requires !op.DoAddToGroup? && !op.DoRemoveFromGroup? && !op.DoDeleteGroup? && !op.DoDeleteUser? && !op.DoCreateDevice?
    ensures Apply(r, op).devices == r.devices
  {
  }

  lemma GroupsUntouched(r: Registry, op: Op)
    requires !op.DoCreateGroup? && !op.DoDeleteGroup? && !op.DoDeleteUser?
    ensures Apply(r, op).groups == r.groups
    ensures !op.DoSetGroupThreshold? && !op.DoRemoveGroupThreshold? ==> Apply(r, op).groupThresholds == r.groupThresholds
  {
  }

  lemma ThresholdsUntouched(r: Registry, op: Op)
    requires !op.DoSetDeviceThreshold? && !op.DoRemoveDeviceThreshold?
    ensures Apply(r, op).thresholds == r.thresholds
  {
  }

  lemma ClaimsUntouched(r: Registry, op: Op)
    requires !op.DoUnclaim? && !op.DoUnclaimRows? && !op.DoForceUnassign? && !op.DoDeleteUser?
    ensures Apply(r, op).assignments == r.assignments && Apply(r, op).meta == r.meta
  {
  }

  lemma UsersUntouched(r: Registry, op: Op)
    requires !op.DoCreateUser? && !op.DoDeleteUser?
    ensures Apply(r, op).users == r.users
  {
  }

  lemma JoinGroupOf(r: Registry, user: string, group: string, of: string, d: string, g: string)
    requires d in r.devices
    ensures var r' := AddToGroup(r, user, group, of);
            d in r'.devices && r'.devices[d].display == r.devices[d].display &&
            (r'.devices[d].group == Some(g) <==>
             Joins(r, DoAddToGroup(user, group, of), d, g) || r.devices[d].group == Some(g))
  {
  }

  lemma LeaveGroupOf(r: Registry, gone: set<string>, d: string, g: string)
    requires d in r.devices
    ensures var devices := LeaveGroups(r.devices, gone);
            d in devices && devices[d].display == r.devices[d].display &&
            (devices[d].group == Some(g) <==> r.devices[d].group == Some(g) && g !in gone)
  {
  }

  lemma GroupOfIffEnded(r: Registry, op: Op, d: string, g: string)
    requires op.DoDeleteGroup? || op.DoDeleteUser?
    requires d in r.devices
    ensures d in Apply(r, op).devices && Apply(r, op).devices[d].display == r.devices[d].display
    ensures Apply(r, op).devices[d].group == Some(g) <==>
            Joins(r, op, d, g) ||
            (r.devices[d].group == Some(g) && !EndsGroup(r, op, g) &&
             !(g in r.groups && op == DoRemoveFromGroup(r.groups[g], g, d)))
  {
    if op.DoDeleteGroup? {
      LeaveGroupOf(r, {op.group}, d, g);
    } else {
      var gone := set k | k in r.groups && r.groups[k] == op.user;
      LeaveGroupOf(r, gone, d, g);
    }
  }

  lemma GroupOfIffElse(r: Registry, op: Op, d: string, g: string)
    requires !(op.DoDeleteGroup? || op.DoDeleteUser?)
    requires d in r.devices
    ensures d in Apply(r, op).devices && Apply(r, op).devices[d].display == r.devices[d].display
    ensures Apply(r, op).devices[d].group == Some(g) <==>
            Joins(r, op, d, g) ||
            (r.devices[d].group == Some(g) && !EndsGroup(r, op, g) &&
             !(g in r.groups && op == DoRemoveFromGroup(r.groups[g], g, d)))
  {
    match op
    case DoAddToGroup(user, group, of) => JoinGroupOf(r, user, group, of, d, g);
    case DoRemoveFromGroup(_, _, _) =>
    case DoCreateDevice(_, _) =>
    case _ => DevicesUntouched(r, op);
  }

  /** An operation makes g the group of a device if the device joins it, or was in it and neither is taken
      out by the group's owner nor loses the group. */
  lemma GroupOfIff(r: Registry, op: Op, d: string, g: string)
    requires d in r.devices
    ensures d in Apply(r, op).devices && Apply(r, op).devices[d].display == r.devices[d].display
    ensures Apply(r, op).devices[d].group == Some(g) <==>
            Joins(r, op, d, g) ||
            (r.devices[d].group == Some(g) && !EndsGroup(r, op, g) &&
             !(g in r.groups && op == DoRemoveFromGroup(r.groups[g], g, d)))
  {
    if op.DoDeleteGroup? || op.DoDeleteUser? {
      GroupOfIffEnded(r, op, d, g);
    } else {
      GroupOfIffElse(r, op, d, g);
    }
  }

  lemma GroupIff(r: Registry, op: Op, g: string)
    ensures g in Apply(r, op).groups <==> (op.DoCreateGroup? && op.group == g) || (g in r.groups && !EndsGroup(r, op, g))
    ensures g in Apply(r, op).groups ==>
              Apply(r, op).groups[g] == if g in r.groups then r.groups[g] else op.user
  {
    match op
    case DoCreateGroup(_, _) =>
    case DoDeleteGroup(_, _) =>
    case DoDeleteUser(_) =>
    case _ => GroupsUntouched(r, op);
  }

  // ---------------------------------------------------------------- thresholds

  /** A device gets a threshold, from anybody, while it has no group. */
  lemma ThresholdIff(r: Registry, op: Op, d: string)
    ensures var sets := op.DoSetDeviceThreshold? && op.device == d && d in r.devices && r.devices[d].group == None;
            (d in Apply(r, op).thresholds <==> sets || (d in r.thresholds && op != DoRemoveDeviceThreshold(d))) &&
            (d in Apply(r, op).thresholds ==> Apply(r, op).thresholds[d] == if sets then op.limits else r.thresholds[d])
  {
    match op
    case DoSetDeviceThreshold(_, _) =>
    case DoRemoveDeviceThreshold(_) =>
    case _ => ThresholdsUntouched(r, op);
  }

  /** The owner of a group gives it a threshold while none of its devices has one. */
  predicate SetsGroupThreshold(r: Registry, op: Op, g: string) {
    op.DoSetGroupThreshold? && op.group == g && g in r.groups && r.groups[g] == op.user &&
    forall d :: d in r.thresholds && d in r.devices ==> r.devices[d].group != Some(g)
  }

  lemma SetThresholdOf(r: Registry, user: string, group: string, limits: Record, g: string)
    ensures var after, sets := SetGroupThreshold(r, user, group, limits).groupThresholds,
                               SetsGroupThreshold(r, DoSetGroupThreshold(user, group, limits), g);
            (g in after <==> sets || g in r.groupThresholds) &&
            (g in after ==> after[g] == if sets then limits else r.groupThresholds[g])
  {
  }

  lemma GroupThresholdIffEnded(r: Registry, op: Op, g: string)
    requires op.DoDeleteGroup? || op.DoDeleteUser?
    requires r.groupThresholds.Keys <= r.groups.Keys
    ensures g in Apply(r, op).groupThresholds <==>
            SetsGroupThreshold(r, op, g) ||
            (g in r.groupThresholds && !EndsGroup(r, op, g) && op != DoRemoveGroupThreshold(r.groups[g], g))
    ensures g in Apply(r, op).groupThresholds ==>
              Apply(r, op).groupThresholds[g] == if SetsGroupThreshold(r, op, g) then op.limits else r.groupThresholds[g]
  {
  }

  lemma GroupThresholdIffElse(r: Registry, op: Op, g: string)
    requires !(op.DoDeleteGroup? || op.DoDeleteUser?)
    requires r.groupThresholds.Keys <= r.groups.Keys
    ensures g in Apply(r, op).groupThresholds <==>
            SetsGroupThreshold(r, op, g) ||
            (g in r.groupThresholds && !EndsGroup(r, op, g) && op != DoRemoveGroupThreshold(r.groups[g], g))
    ensures g in Apply(r, op).groupThresholds ==>
              Apply(r, op).groupThresholds[g] == if SetsGroupThreshold(r, op, g) then op.limits else r.groupThresholds[g]
  {
    match op
    case DoSetGroupThreshold(user, group, limits) => SetThresholdOf(r, user, group, limits, g);
    case DoRemoveGroupThreshold(_, _) =>
    case DoCreateGroup(_, _) =>
    case _ => GroupsUntouched(r, op);
  }

  lemma GroupThresholdIff(r: Registry, op: Op, g: string)
    requires r.groupThresholds.Keys <= r.groups.Keys
    ensures g in Apply(r, op).groupThresholds <==>
            SetsGroupThreshold(r, op, g) ||
            (g in r.groupThresholds && !EndsGroup(r, op, g) && op != DoRemoveGroupThreshold(r.groups[g], g))
    ensures g in Apply(r, op).groupThresholds ==>
              Apply(r, op).groupThresholds[g] == if SetsGroupThreshold(r, op, g) then op.limits else r.groupThresholds[g]
  {
    if op.DoDeleteGroup? || op.DoDeleteUser? {
      GroupThresholdIffEnded(r, op, g);
    } else {
      GroupThresholdIffElse(r, op, g);
    }
  }

  // ---------------------------------------------------------------- devices and users

  lemma DeviceIff(r: Registry, op: Op, d: string)
    ensures d in Apply(r, op).devices <==>
            d in r.devices ||
            (op.DoCreateDevice? && op.device == d && forall k :: k in r.devices ==> r.devices[k].display != op.display)
    ensures d in Apply(r, op).devices && d !in r.devices ==> Apply(r, op).devices[d] == Device(op.display, None)
  {
    match op
    case DoCreateDevice(_, display) => assert Registered(r, display) <==> exists k :: k in r.devices && r.devices[k].display == display;
    case DoAddToGroup(_, _, _) =>
    case DoRemoveFromGroup(_, _, _) =>
    case DoDeleteGroup(_, _) =>
    case DoDeleteUser(_) =>
    case _ => DevicesUntouched(r, op);
  }

  lemma UserIff(r: Registry, op: Op, user: string)
    ensures user in Apply(r, op).users <==> op == DoCreateUser(user) || (user in r.users && !Deletes(r, op, user))
    ensures user in Apply(r, op).users ==> Apply(r, op).users[user] == (user in r.users && r.users[user])
  {
    match op
    case DoCreateUser(_) =>
    case DoDeleteUser(_) =>
    case _ => UsersUntouched(r, op);
  }

  // ---------------------------------------------------------------- assignments and metadata

  /** The operation closes the assignment: a forced unassignment of its device, or an unclaim by its user,
      who has to hold the device when this is checked at once. */
  predicate Closes(r: Registry, op: Op, a: Assignment) {
    op == DoForceUnassign(a.device) || (op == DoUnclaimRows(a.user, a.device) && a.device in r.devices) ||
    (op == DoUnclaim(a.user, a.device) && a.device in r.devices &&
     exists i :: 0 <= i < |r.assignments| && r.assignments[i] == Assignment(a.device, a.user, true))
  }

  /** Unless a user is deleted, assignments stay in their places and are closed at most. */
  lemma AssignmentsAfter(r: Registry, op: Op)
    requires !op.DoDeleteUser?
    ensures var after := Apply(r, op).assignments;
            |after| == |r.assignments| && forall i :: 0 <= i < |after| ==>
              after[i] == if Closes(r, op, r.assignments[i]) then r.assignments[i].(active := false) else r.assignments[i]
  {
    match op
    case DoUnclaim(_, _) =>
    case DoUnclaimRows(_, _) =>
    case DoForceUnassign(_) =>
    case _ => ClaimsUntouched(r, op);
  }

  lemma {:induction false} KeptAssignments(assignments: seq<Assignment>, user: string)
    ensures forall a :: multiset(Filter(NotOf(user), assignments))[a] ==
                        if a.user == user then 0 else multiset(assignments)[a]
  {
    if assignments == [] {
    } else {
      var most := assignments[..|assignments| - 1];
      KeptAssignments(most, user);
      assert assignments == most + [assignments[|assignments| - 1]];
    }
  }

  /** The deletion of a user takes that user's assignments and no others. */
  lemma AssignmentsAfterDeletion(r: Registry, user: string, a: Assignment)
    ensures multiset(Apply(r, DoDeleteUser(user)).assignments)[a] ==
            if Deletes(r, DoDeleteUser(user), user) && a.user == user then 0 else multiset(r.assignments)[a]
  {
    KeptAssignments(r.assignments, user);
  }

  /** A metadata row goes with the unclaim of its device by its user, or with its user; nothing changes one. */
  lemma MetaIff(r: Registry, op: Op, display: string)
    requires UniqueDisplays(r)
    ensures var after := Apply(r, op).meta;
            (display in after <==>
             display in r.meta && !Deletes(r, op, r.meta[display]) &&
             forall d :: d in r.devices && r.devices[d].display == display ==>
               op != DoUnclaimRows(r.meta[display], d) &&
               !(op == DoUnclaim(r.meta[display], d) &&
                 exists i :: 0 <= i < |r.assignments| && r.assignments[i] == Assignment(d, r.meta[display], true))) &&
            (display in after ==> after[display] == r.meta[display])
  {
    match op
    case DoUnclaim(_, _) =>
    case DoUnclaimRows(_, _) =>
    case DoForceUnassign(_) =>
    case DoDeleteUser(_) =>
    case _ => ClaimsUntouched(r, op);
  }

  /** A claim adds one active assignment and one metadata row, if nobody holds the device, its display ID has
      no metadata row, and claimer and device exist; otherwise it adds nothing. */
  lemma ClaimAdds(r: Registry, c: Claim)
    ensures var free := c.device in r.devices && c.user in r.users && !c.sawActive &&
                        (forall i :: 0 <= i < |r.assignments| ==> !(r.assignments[i].device == c.device && r.assignments[i].active)) &&
                        r.devices[c.device].display !in r.meta;
            EndClaim(r, c) ==
            if !free then r
            else r.(assignments := r.assignments + [Assignment(c.device, c.user, true)],
                    meta := r.meta[r.devices[c.device].display := c.user])
  {
  }

  // ---------------------------------------------------------------- what a list shows

  /** In every registry that claims keep, a user's list has an item for each device the user holds, once, with
      its display ID, its threshold and the user's own metadata row, and nothing else. */
  lemma ListShows(r: Registry, user: string)
    requires ClaimsSound(r)
    ensures forall i :: 0 <= i < |View(r, user)| ==>
              var item := View(r, user)[i];
              item.device in r.devices && item.display == r.devices[item.device].display && item.named &&
              item.display in r.meta && r.meta[item.display] == user &&
              (if item.device in r.thresholds then item.thresholds == Some(r.thresholds[item.device])
               else item.thresholds == None)
    ensures forall d :: (exists a <- r.assignments :: a == Assignment(d, user, true)) <==>
                        exists item <- View(r, user) :: item.device == d
    ensures forall i, j :: 0 <= i < j < |View(r, user)| ==> View(r, user)[i].device != View(r, user)[j].device
  {
    forall i | 0 <= i < |View(r, user)|
      ensures var item := View(r, user)[i];
              item == ItemOf(r, user, item.device) && Described(r, Assignment(item.device, user, true))
    {
      ItemsAreListed(r, user, i);
      assert Owns(r.assignments, View(r, user)[i].device, user);
      var k :| 0 <= k < |r.assignments| && r.assignments[k] == Assignment(View(r, user)[i].device, user, true);
      assert Described(r, r.assignments[k]);
    }
    forall d
      ensures (exists a <- r.assignments :: a == Assignment(d, user, true)) <==> exists item <- View(r, user) :: item.device == d
    {
      if a :| a in r.assignments && a == Assignment(d, user, true) {
        var i := Listed(r, user, d);
        assert View(r, user)[i] in View(r, user);
      }
      if item :| item in View(r, user) && item.device == d {
        var i :| 0 <= i < |View(r, user)| && View(r, user)[i] == item;
        ItemsAreListed(r, user, i);
        assert Assignment(d, user, true) in r.assignments;
      }
    }
    HeldOnce(r.assignments, user);
    var held := Filter(ActiveFor(user), r.assignments);
    assert Once(held) && forall i :: 0 <= i < |held| ==> View(r, user)[i].device == held[i].device;
  }

  ghost predicate Once(held: seq<Assignment>) {
    forall i, j :: 0 <= i < j < |held| ==> held[i].device != held[j].device
  }

  lemma OnceMore(held: seq<Assignment>, last: Assignment)
    requires Once(held) && forall a <- held :: a.device != last.device
    ensures Once(held + [last])
  {
  }

  lemma {:induction false} HeldOnce(assignments: seq<Assignment>, user: string)
    requires AtMostOneActive(assignments)
    ensures Once(Filter(ActiveFor(user), assignments))
  {
    if assignments == [] {
    } else {
      var most, last := assignments[..|assignments| - 1], assignments[|assignments| - 1];
      HeldOnce(most, user);
      var held := Filter(ActiveFor(user), most);
      if ActiveFor(user)(last) {
        forall a | a in held ensures a.device != last.device {
          var i :| 0 <= i < |held| && held[i] == a;
          FilterSound(ActiveFor(user), most, i);
          var k :| 0 <= k < |most| && most[k] == a;
          assert assignments[k] == a && assignments[|assignments| - 1] == last;
        }
        OnceMore(held, last);
      }
    }
  }
}
