/** Overlapping refreshes: a refresh reads its token, revokes it and issues the next one in three steps,
    and other refreshes, logouts, password changes and restrictions may come in between. */
module SessionRaces {
  import opened Common
  import opened Sessions

  /** A refresh whose token was good when it was read; since is how long the log was then. */
  datatype Refreshing = Refreshing(token: nat, row: TokenRow, since: nat, revoked: bool)

  /** gone are the users who have been deleted, for whom no token can be stored. */
  datatype System = System(state: State, pending: seq<Refreshing>, gone: set<string>)

  datatype Step = Read(token: nat, now: int) | RevokeOld(k: nat) | IssueNew(k: nat, now: int) | Serve(op: Op)

  predicate Enabled(s: System, step: Step) {
    match step
    case Read(_, _) => true
    case RevokeOld(k) => k < |s.pending| && !s.pending[k].revoked
    case IssueNew(k, _) => k < |s.pending| && s.pending[k].revoked
    case Serve(op) => !op.DoRefresh?
  }

  function Without(pending: seq<Refreshing>, k: nat): seq<Refreshing>
    requires k < |pending|
  {
    pending[..k] + pending[k + 1..]
  }

  function Begin(s: System, t: nat, now: int): System {
    match AnswerTo(s.state, t, now)
    case Fresh(_, _) => s.(pending := s.pending + [Refreshing(t, s.state.tokens[t], |s.state.log|, false)])
    case HasExpired => s.(state := s.state.(tokens := s.state.tokens - {t}))
    case _ => s
  }

  /** The revocation of a token that is no longer there fails, and with it the request. */
  function Revoke(s: System, k: nat): System
    requires k < |s.pending|
  {
    var t := s.pending[k].token;
    if t !in s.state.tokens then s.(pending := Without(s.pending, k))
    else s.(state := s.state.(tokens := s.state.tokens[t := s.state.tokens[t].(revoked := true)]),
            pending := s.pending[k := s.pending[k].(revoked := true)])
  }

  /** The issue for a user who has been deleted fails. */
  function Issue(s: System, k: nat, now: int, lifetime: nat): System
    requires k < |s.pending|
  {
    var p := s.pending[k];
    if p.row.user in s.gone then s.(pending := Without(s.pending, k))
    else s.(state := Generate(s.state, p.row.user, p.row.persistent, now, lifetime)
                     .(log := s.state.log + [Rotated(p.token, s.state.next)]),
            pending := Without(s.pending, k))
  }

  function StepTo(s: System, step: Step, lifetime: nat): System
    requires Enabled(s, step)
  {
    match step
    case Read(t, now) => Begin(s, t, now)
    case RevokeOld(k) => Revoke(s, k)
    case IssueNew(k, now) => Issue(s, k, now, lifetime)
    case Serve(op) =>
      s.(state := Apply(s.state, op, lifetime), gone := if op.DoDeleteUser? then s.gone + {op.user} else s.gone)
  }

  ghost predicate Runs(s: System, steps: seq<Step>, lifetime: nat)
    decreases |steps|
  {
    steps == [] || (Enabled(s, steps[0]) && Runs(StepTo(s, steps[0], lifetime), steps[1..], lifetime))
  }

  ghost function RunTo(s: System, steps: seq<Step>, lifetime: nat): System
    requires Runs(s, steps, lifetime)
    decreases |steps|
  {
    if steps == [] then s else RunTo(StepTo(s, steps[0], lifetime), steps[1..], lifetime)
  }

  const START: System := System(EMPTY, [], {})

  // ---------------------------------------------------------------- what holds in every run

  /** The log gives the token to the user of its row, and up to the given length nothing has cut the
      user's sessions. */
  ghost predicate DescendsUpTo(log: seq<Event>, t: nat, row: TokenRow, upTo: nat) {
    var root := Root(log, t);
    root.Some? && root.value < upTo <= |log| && log[root.value].Issued? &&
    log[root.value].user == row.user && log[root.value].persistent == row.persistent &&
    forall j :: root.value < j < upTo ==> !Cuts(log[j], row.user)
  }

  /** The event makes no token of that number. */
  predicate MakesOther(e: Event, t: nat) {
    (e.Issued? ==> e.token != t) && (e.Rotated? ==> e.to != t)
  }

  lemma DescendsStays(log: seq<Event>, e: Event, t: nat, row: TokenRow, upTo: nat)
    requires DescendsUpTo(log, t, row, upTo) && MakesOther(e, t)
    ensures DescendsUpTo(log + [e], t, row, upTo)
  {
    assert (log + [e])[..|log|] == log;
    assert forall j :: 0 <= j < upTo ==> (log + [e])[j] == log[j];
  }

  function Exchanges(log: seq<Event>, t: nat): nat {
    |Filter(RotationsOf(t), log)|
  }

  /** A row is numbered below next; a token that has been exchanged is revoked or gone. */
  ghost predicate RowOk(s: State, t: nat) {
    (t in s.tokens ==> t < s.next) &&
    (t >= s.next || (t in s.tokens && !s.tokens[t].revoked) ==> Exchanges(s.log, t) == 0)
  }

  /** When a refresh read its token, that had not been exchanged. */
  ghost predicate RefreshOk(s: State, p: Refreshing) {
    p.token < s.next && p.since <= |s.log| && Exchanges(s.log[..p.since], p.token) == 0 &&
    (p.revoked ==> p.token in s.tokens ==> s.tokens[p.token].revoked)
  }

  /** And its lineage was good. */
  ghost predicate RefreshDescends(s: State, p: Refreshing) {
    p.token < s.next && DescendsUpTo(s.log, p.token, p.row, p.since)
  }

  ghost predicate RowsOk(s: State) {
    forall t :: RowOk(s, t)
  }

  ghost predicate Ok(s: System) {
    RowsOk(s.state) && forall k :: 0 <= k < |s.pending| ==> RefreshOk(s.state, s.pending[k])
  }

  /** Every token that could be used descends from an issuance since its user's last cut. */
  ghost predicate LineageOk(s: State) {
    forall t :: t in s.tokens && !s.tokens[t].revoked ==> Descends(s, t)
  }

  ghost predicate PendingDescends(s: System) {
    forall k :: 0 <= k < |s.pending| ==> RefreshDescends(s.state, s.pending[k])
  }

  ghost predicate OnceEach(s: State) {
    forall t :: Exchanges(s.log, t) <= 1
  }

  /** The log grows by at most one event, tokens lose rows, are revoked, or one of a new number is added. */
  ghost predicate Evolves(s: State, s': State, more: seq<Event>) {
    && |more| <= 1 && s'.log == s.log + more && s.next <= s'.next
    && (more != [] && more[0].Issued? ==> more[0].token == s.next < s'.next)
    && (more != [] && more[0].Rotated? ==> more[0].to == s.next < s'.next)
    && forall t :: t in s'.tokens ==>
         (t in s.tokens && (s'.tokens[t] == s.tokens[t] || s'.tokens[t].revoked)) || (t == s.next < s'.next && more != [])
  }

  lemma ExchangesStep(log: seq<Event>, e: Event, t: nat)
    ensures Exchanges(log + [e], t) == Exchanges(log, t) + if e.Rotated? && e.from == t then 1 else 0
  {
    FilterSnoc(RotationsOf(t), log, e);
  }

  lemma RefreshStays(s: State, s': State, more: seq<Event>, p: Refreshing)
    requires Evolves(s, s', more) && RefreshOk(s, p)
    ensures RefreshOk(s', p)
  {
    assert s'.log[..p.since] == s.log[..p.since];
  }

  lemma DescentStays(s: State, s': State, more: seq<Event>, p: Refreshing)
    requires Evolves(s, s', more) && RefreshDescends(s, p)
    ensures RefreshDescends(s', p)
  {
    if more == [] {
      assert s'.log == s.log;
    } else {
      assert more == [more[0]];
      DescendsStays(s.log, more[0], p.token, p.row, p.since);
    }
  }

  lemma RowStays(s: State, s': State, more: seq<Event>, t: nat)
    requires Evolves(s, s', more) && RowOk(s, t) && RowOk(s, s.next)
    requires more != [] && more[0].Rotated? ==>
               more[0].from < s.next && (more[0].from in s'.tokens ==> s'.tokens[more[0].from].revoked)
    ensures RowOk(s', t)
  {
    if more == [] {
      assert s'.log == s.log;
    } else {
      assert more == [more[0]];
      ExchangesStep(s.log, more[0], t);
    }
  }

  lemma IssueEvolves(s: State, user: string, persistent: bool, now: int, lifetime: nat, e: Event)
    requires e == Issued(s.next, user, persistent) || (e.Rotated? && e.to == s.next)
    ensures Evolves(s, Generate(s, user, persistent, now, lifetime).(log := s.log + [e]), [e])
  {
  }

  // ---------------------------------------------------------------- one step

  /** Since the refresh read its token, the user's sessions have been cut. */
  predicate CutSince(s: State, p: Refreshing)
    requires p.since <= |s.log|
  {
    exists j :: p.since <= j < |s.log| && Cuts(s.log[j], p.row.user)
  }

  /** Since the refresh read its token, another one has exchanged it. */
  predicate ExchangedSince(s: State, p: Refreshing)
    requires p.since <= |s.log|
  {
    Exchanges(s.log[p.since..], p.token) > 0
  }

  /** A new token has a good lineage if and only if the sessions have not been cut since the read. */
  lemma IssuedDescendsIff(s: State, p: Refreshing, now: int, lifetime: nat)
    requires RefreshDescends(s, p)
    ensures var s' := Generate(s, p.row.user, p.row.persistent, now, lifetime).(log := s.log + [Rotated(p.token, s.next)]);
            Descends(s', s.next) <==> !CutSince(s, p)
  {
    var s' := Generate(s, p.row.user, p.row.persistent, now, lifetime).(log := s.log + [Rotated(p.token, s.next)]);
    assert s'.log[..|s.log|] == s.log;
    assert Root(s'.log, s.next) == Root(s.log, p.token);
    var root := Root(s.log, p.token).value;
    assert forall j :: 0 <= j < |s.log| ==> s'.log[j] == s.log[j];
    if CutSince(s, p) {
      var j :| p.since <= j < |s.log| && Cuts(s.log[j], p.row.user);
      assert root < j < |s'.log| && Cuts(s'.log[j], p.row.user);
    }
  }

  lemma IssueKeepsLineageIff(s: State, p: Refreshing, now: int, lifetime: nat)
    requires RowsOk(s) && LineageOk(s) && RefreshDescends(s, p)
    ensures var s' := Generate(s, p.row.user, p.row.persistent, now, lifetime).(log := s.log + [Rotated(p.token, s.next)]);
            LineageOk(s') <==> !CutSince(s, p)
  {
    var s' := Generate(s, p.row.user, p.row.persistent, now, lifetime).(log := s.log + [Rotated(p.token, s.next)]);
    IssuedDescendsIff(s, p, now, lifetime);
    forall t | t in s'.tokens && !s'.tokens[t].revoked && t != s.next ensures Descends(s', t) {
      assert RowOk(s, t);
      DescendsOneMore(s, s', t, Rotated(p.token, s.next));
    }
    assert s.next in s'.tokens && !s'.tokens[s.next].revoked;
  }

  lemma IssueKeepsOnceIff(s: State, p: Refreshing, s': State)
    requires OnceEach(s) && RefreshOk(s, p) && s'.log == s.log + [Rotated(p.token, s.next)]
    ensures OnceEach(s') <==> !ExchangedSince(s, p)
  {
    assert s.log == s.log[..p.since] + s.log[p.since..];
    FilterConcat(RotationsOf(p.token), s.log[..p.since], s.log[p.since..]);
    forall t ensures Exchanges(s'.log, t) <= 1 <==> t != p.token || !ExchangedSince(s, p) {
      ExchangesStep(s.log, Rotated(p.token, s.next), t);
      assert Exchanges(s.log, t) <= 1;
    }
    assert Exchanges(s'.log, p.token) <= 1 <==> !ExchangedSince(s, p);
  }

  /** The step issues a token by a refresh that has been overtaken by a cut. */
  predicate RevivesSession(s: System, step: Step) {
    step.IssueNew? && step.k < |s.pending| && s.pending[step.k].row.user !in s.gone &&
    s.pending[step.k].since <= |s.state.log| && CutSince(s.state, s.pending[step.k])
  }

  /** The step issues a second token for one that has been exchanged. */
  predicate ExchangesAgain(s: System, step: Step) {
    step.IssueNew? && step.k < |s.pending| && s.pending[step.k].row.user !in s.gone &&
    s.pending[step.k].since <= |s.state.log| && ExchangedSince(s.state, s.pending[step.k])
  }

  lemma ServeEvolves(s: State, op: Op, lifetime: nat) returns (mid: State, first: seq<Event>, second: seq<Event>)
    requires !op.DoRefresh?
    ensures Evolves(s, mid, first) && Evolves(mid, Apply(s, op, lifetime), second)
    ensures first != [] ==> !first[0].Rotated?
    ensures second != [] ==> !second[0].Rotated?
  {
    mid, first, second := s, [], [];
    assert s.log + [] == s.log;
    match op
    case DoIssue(user, persistent, now) =>
      second := [Issued(s.next, user, persistent)];
      IssueEvolves(s, user, persistent, now, lifetime, second[0]);
    case DoChangePassword(user) => second := [PasswordSet(user, Changed)];
    case DoCompleteProfile(user, setsPassword, persistent, now) =>
      mid := SetWithProfile(s, user, setsPassword);
      first := if setsPassword then [PasswordSet(user, WithProfile)] else [];
      second := [Issued(s.next, user, persistent)];
      IssueEvolves(mid, user, persistent, now, lifetime, second[0]);
    case DoRestrict(user) => second := [WasRestricted(user)];
    case _ =>
  }

  lemma EvolvingKeepsOk(s: State, s': State, more: seq<Event>, pending: seq<Refreshing>)
    requires Evolves(s, s', more) && RowsOk(s) && forall k :: 0 <= k < |pending| ==> RefreshOk(s, pending[k])
    requires more != [] && more[0].Rotated? ==>
               more[0].from < s.next && (more[0].from in s'.tokens ==> s'.tokens[more[0].from].revoked)
    ensures RowsOk(s') && forall k :: 0 <= k < |pending| ==> RefreshOk(s', pending[k])
  {
    forall t ensures RowOk(s', t) {
      assert RowOk(s, t) && RowOk(s, s.next);
      RowStays(s, s', more, t);
    }
    forall k | 0 <= k < |pending| ensures RefreshOk(s', pending[k]) {
      RefreshStays(s, s', more, pending[k]);
    }
  }

  lemma StepKeepsOk(s: System, step: Step, lifetime: nat)
    requires Ok(s) && Enabled(s, step)
    ensures Ok(StepTo(s, step, lifetime))
  {
    var s' := StepTo(s, step, lifetime);
    assert s.state.log + [] == s.state.log;
    match step
    case Read(t, now) =>
      EvolvingKeepsOk(s.state, s'.state, [], s.pending);
      if AnswerTo(s.state, t, now).Fresh? {
        assert RowOk(s.state, t);
        assert s.state.log[..|s.state.log|] == s.state.log;
      }
    case RevokeOld(k) =>
      assert RefreshOk(s.state, s.pending[k]);
      EvolvingKeepsOk(s.state, s'.state, [], s.pending);
    case IssueNew(k, now) =>
      var p := s.pending[k];
      assert RefreshOk(s.state, p);
      if p.row.user !in s.gone {
        var e := Rotated(p.token, s.state.next);
        IssueEvolves(s.state, p.row.user, p.row.persistent, now, lifetime, e);
        EvolvingKeepsOk(s.state, s'.state, [e], s.pending);
      }
    case Serve(op) =>
      var mid, first, second := ServeEvolves(s.state, op, lifetime);
      EvolvingKeepsOk(s.state, mid, first, s.pending);
      EvolvingKeepsOk(mid, s'.state, second, s.pending);
  }

  // ---------------------------------------------------------------- exchanged at most once

  /** How a step extends the log: only an issue of a refresh exchanges a token. */
  lemma StepExchanges(s: System, step: Step, lifetime: nat, t: nat)
    requires Enabled(s, step)
    ensures Exchanges(StepTo(s, step, lifetime).state.log, t) == Exchanges(s.state.log, t) +
            if step.IssueNew? && s.pending[step.k].token == t && s.pending[step.k].row.user !in s.gone then 1 else 0
  {
    match step
    case Read(_, _) =>
    case RevokeOld(_) =>
    case IssueNew(k, _) => ExchangesStep(s.state.log, Rotated(s.pending[k].token, s.state.next), t);
    case Serve(op) =>
      var mid, first, second := ServeEvolves(s.state, op, lifetime);
      MoreExchanges(s.state.log, first, t);
      MoreExchanges(mid.log, second, t);
  }

  lemma MoreExchanges(log: seq<Event>, more: seq<Event>, t: nat)
    requires |more| <= 1 && (more != [] ==> !more[0].Rotated?)
    ensures Exchanges(log + more, t) == Exchanges(log, t)
  {
    if more == [] {
      assert log + more == log;
    } else {
      assert more == [more[0]];
      ExchangesStep(log, more[0], t);
    }
  }

  lemma StepKeepsOnceIff(s: System, step: Step, lifetime: nat)
    requires Ok(s) && OnceEach(s.state) && Enabled(s, step)
    ensures OnceEach(StepTo(s, step, lifetime).state) <==> !ExchangesAgain(s, step)
  {
    if step.IssueNew? && s.pending[step.k].row.user !in s.gone {
      assert RefreshOk(s.state, s.pending[step.k]);
      IssueKeepsOnceIff(s.state, s.pending[step.k], StepTo(s, step, lifetime).state);
    } else {
      forall t ensures Exchanges(StepTo(s, step, lifetime).state.log, t) <= 1 {
        StepExchanges(s, step, lifetime, t);
        assert Exchanges(s.state.log, t) <= 1;
      }
    }
  }

  ghost predicate NeverExchangesAgain(s: System, steps: seq<Step>, lifetime: nat)
    requires Runs(s, steps, lifetime)
    decreases |steps|
  {
    steps == [] || (!ExchangesAgain(s, steps[0]) && NeverExchangesAgain(StepTo(s, steps[0], lifetime), steps[1..], lifetime))
  }

  lemma {:induction false} TwiceForGood(s: System, steps: seq<Step>, lifetime: nat, t: nat)
    requires Runs(s, steps, lifetime) && Exchanges(s.state.log, t) > 1
    ensures Exchanges(RunTo(s, steps, lifetime).state.log, t) > 1
    decreases |steps|
  {
    if steps == [] {
    } else {
      StepExchanges(s, steps[0], lifetime, t);
      TwiceForGood(StepTo(s, steps[0], lifetime), steps[1..], lifetime, t);
    }
  }

  /** Over every interleaving: in the end each token has been exchanged at most once, if and only if no
      refresh has issued a token after another one exchanged what it had read. */
  lemma {:induction false} ExchangedOnceIff(s: System, steps: seq<Step>, lifetime: nat)
    requires Ok(s) && OnceEach(s.state) && Runs(s, steps, lifetime)
    ensures OnceEach(RunTo(s, steps, lifetime).state) <==> NeverExchangesAgain(s, steps, lifetime)
    decreases |steps|
  {
    if steps == [] {
    } else {
      var s' := StepTo(s, steps[0], lifetime);
      StepKeepsOk(s, steps[0], lifetime);
      StepKeepsOnceIff(s, steps[0], lifetime);
      if ExchangesAgain(s, steps[0]) {
        var t :| Exchanges(s'.state.log, t) > 1;
        TwiceForGood(s', steps[1..], lifetime, t);
      } else {
        ExchangedOnceIff(s', steps[1..], lifetime);
      }
    }
  }

  // ---------------------------------------------------------------- lineage

  lemma EvolvingKeepsLineage(s: State, s': State, more: seq<Event>, pending: seq<Refreshing>)
    requires Evolves(s, s', more) && RowsOk(s) && LineageOk(s)
    requires forall k :: 0 <= k < |pending| ==> RefreshDescends(s, pending[k])
    requires more != [] ==>
               forall t :: t in s.tokens && t in s'.tokens && !s'.tokens[t].revoked ==> !Cuts(more[0], s'.tokens[t].user)
    requires s.next in s'.tokens && !s'.tokens[s.next].revoked ==> Descends(s', s.next)
    ensures LineageOk(s') && forall k :: 0 <= k < |pending| ==> RefreshDescends(s', pending[k])
  {
    forall t | t in s'.tokens && !s'.tokens[t].revoked && t != s.next ensures Descends(s', t) {
      assert RowOk(s, t);
      if more == [] {
        assert s'.log == s.log;
      } else {
        assert more == [more[0]];
        DescendsOneMore(s, s', t, more[0]);
      }
    }
    forall k | 0 <= k < |pending| ensures RefreshDescends(s', pending[k]) {
      DescentStays(s, s', more, pending[k]);
    }
  }

  lemma PlainIssueKeepsLineage(s: State, user: string, persistent: bool, now: int, lifetime: nat, pending: seq<Refreshing>)
    requires RowsOk(s) && LineageOk(s) && forall k :: 0 <= k < |pending| ==> RefreshDescends(s, pending[k])
    ensures var s' := Sessions.Issue(s, user, persistent, now, lifetime);
            LineageOk(s') && forall k :: 0 <= k < |pending| ==> RefreshDescends(s', pending[k])
  {
    var s', e := Sessions.Issue(s, user, persistent, now, lifetime), Issued(s.next, user, persistent);
    IssueEvolves(s, user, persistent, now, lifetime, e);
    IssuedDescends(s, user, persistent, now, lifetime);
    EvolvingKeepsLineage(s, s', [e], pending);
  }

  /** Everything but a refresh keeps the lineage, cuts included. */
  lemma ServeKeepsLineage(s: State, op: Op, lifetime: nat, pending: seq<Refreshing>)
    requires !op.DoRefresh? && RowsOk(s) && LineageOk(s)
    requires forall k :: 0 <= k < |pending| ==> RefreshOk(s, pending[k]) && RefreshDescends(s, pending[k])
    ensures LineageOk(Apply(s, op, lifetime))
    ensures forall k :: 0 <= k < |pending| ==> RefreshDescends(Apply(s, op, lifetime), pending[k])
  {
    var s' := Apply(s, op, lifetime);
    assert s.log + [] == s.log && RowOk(s, s.next);
    match op
    case DoIssue(user, persistent, now) => PlainIssueKeepsLineage(s, user, persistent, now, lifetime, pending);
    case DoChangePassword(user) => EvolvingKeepsLineage(s, s', [PasswordSet(user, Changed)], pending);
    case DoCompleteProfile(user, setsPassword, persistent, now) =>
      var mid, first := SetWithProfile(s, user, setsPassword), if setsPassword then [PasswordSet(user, WithProfile)] else [];
      EvolvingKeepsLineage(s, mid, first, pending);
      EvolvingKeepsOk(s, mid, first, pending);
      PlainIssueKeepsLineage(mid, user, persistent, now, lifetime, pending);
    case DoRestrict(user) => EvolvingKeepsLineage(s, s', [WasRestricted(user)], pending);
    case _ => EvolvingKeepsLineage(s, s', [], pending);
  }

  ghost predicate Good(s: System) {
    Ok(s) && LineageOk(s.state) && PendingDescends(s)
  }

  lemma StepKeepsLineageIff(s: System, step: Step, lifetime: nat)
    requires Good(s) && Enabled(s, step)
    ensures LineageOk(StepTo(s, step, lifetime).state) <==> !RevivesSession(s, step)
    ensures !RevivesSession(s, step) ==> Good(StepTo(s, step, lifetime))
  {
    var s' := StepTo(s, step, lifetime);
    StepKeepsOk(s, step, lifetime);
    assert s.state.log + [] == s.state.log && RowOk(s.state, s.state.next);
    match step
    case Read(t, now) =>
      EvolvingKeepsLineage(s.state, s'.state, [], s.pending);
      if AnswerTo(s.state, t, now).Fresh? {
        ReadDescends(s.state, t);
      }
    case RevokeOld(k) =>
      assert RefreshDescends(s.state, s.pending[k]);
      EvolvingKeepsLineage(s.state, s'.state, [], s.pending);
    case IssueNew(k, now) =>
      var p := s.pending[k];
      assert RefreshOk(s.state, p) && RefreshDescends(s.state, p);
      if p.row.user !in s.gone {
        IssueKeepsLineageIff(s.state, p, now, lifetime);
        var e := Rotated(p.token, s.state.next);
        IssueEvolves(s.state, p.row.user, p.row.persistent, now, lifetime, e);
        forall j | 0 <= j < |s.pending| ensures RefreshDescends(s'.state, s.pending[j]) {
          DescentStays(s.state, s'.state, [e], s.pending[j]);
        }
      }
    case Serve(op) => ServeKeepsLineage(s.state, op, lifetime, s.pending);
  }

  lemma ReadDescends(s: State, t: nat)
    requires RowsOk(s) && LineageOk(s) && t in s.tokens && !s.tokens[t].revoked
    ensures RefreshDescends(s, Refreshing(t, s.tokens[t], |s.log|, false))
  {
    assert RowOk(s, t) && Descends(s, t);
  }

  ghost predicate AlwaysLineage(s: System, steps: seq<Step>, lifetime: nat)
    requires Runs(s, steps, lifetime)
    decreases |steps|
  {
    LineageOk(s.state) && (steps == [] || AlwaysLineage(StepTo(s, steps[0], lifetime), steps[1..], lifetime))
  }

  ghost predicate NeverRevives(s: System, steps: seq<Step>, lifetime: nat)
    requires Runs(s, steps, lifetime)
    decreases |steps|
  {
    steps == [] || (!RevivesSession(s, steps[0]) && NeverRevives(StepTo(s, steps[0], lifetime), steps[1..], lifetime))
  }

  /** Over every interleaving: every token that could be used descends from an issuance since its user's
      last password change, reset or restriction, if and only if no refresh has issued a token after such
      a cut came between its read and its issue. */
  lemma {:induction false} LineageIff(s: System, steps: seq<Step>, lifetime: nat)
    requires Good(s) && Runs(s, steps, lifetime)
    ensures AlwaysLineage(s, steps, lifetime) <==> NeverRevives(s, steps, lifetime)
    decreases |steps|
  {
    if steps == [] {
    } else {
      StepKeepsLineageIff(s, steps[0], lifetime);
      if !RevivesSession(s, steps[0]) {
        LineageIff(StepTo(s, steps[0], lifetime), steps[1..], lifetime);
      } else {
        assert !AlwaysLineage(StepTo(s, steps[0], lifetime), steps[1..], lifetime);
      }
    }
  }

  lemma StartIsGood()
    ensures Good(START) && OnceEach(START.state)
  {
    assert forall t :: RowOk(START.state, t);
  }

  // ---------------------------------------------------------------- the two races

  lemma OneMore(s: System, step: Step, rest: seq<Step>, lifetime: nat)
    requires Enabled(s, step) && Runs(StepTo(s, step, lifetime), rest, lifetime)
    ensures Runs(s, [step] + rest, lifetime)
    ensures RunTo(s, [step] + rest, lifetime) == RunTo(StepTo(s, step, lifetime), rest, lifetime)
  {
    assert ([step] + rest)[1..] == rest;
  }

  /** One live token. */
  function LoggedIn(user: string, lifetime: nat): State {
    State(map[0 := TokenRow(user, lifetime, false, true)], {}, 1, [Issued(0, user, true)])
  }

  /** A refresh reads, the password is changed, and the refresh goes on. */
  function RefreshAcrossChange(user: string): seq<Step> {
    [Read(0, 0)] + ([Serve(DoChangePassword(user))] + ([RevokeOld(0)] + ([IssueNew(0, 0)] + [])))
  }

  /** Across the change: the row is revoked twice, purged, and followed by a new one. */
  lemma AcrossChange(user: string, lifetime: nat) returns (end: System)
    ensures Runs(System(LoggedIn(user, lifetime), [], {}), RefreshAcrossChange(user), lifetime)
    ensures end == RunTo(System(LoggedIn(user, lifetime), [], {}), RefreshAcrossChange(user), lifetime)
    ensures end == System(State(map[1 := TokenRow(user, lifetime, false, true)], {}, 2,
                                [Issued(0, user, true), PasswordSet(user, Changed), Rotated(0, 1)]), [], {})
  {
    var row := TokenRow(user, lifetime, false, true);
    var issued, cut, rotated := Issued(0, user, true), PasswordSet(user, Changed), Rotated(0, 1);
    var s0 := System(LoggedIn(user, lifetime), [], {});
    var s1 := s0.(pending := [Refreshing(0, row, 1, false)]);
    var s2 := System(State(map[0 := row.(revoked := true)], {}, 1, [issued, cut]), [Refreshing(0, row, 1, false)], {});
    var s3 := s2.(pending := [Refreshing(0, row, 1, true)]);
    end := System(State(map[1 := row], {}, 2, [issued, cut, rotated]), [], {});
    assert StepTo(s0, Read(0, 0), lifetime) == s1;
    assert StepTo(s1, Serve(DoChangePassword(user)), lifetime) == s2;
    assert StepTo(s2, RevokeOld(0), lifetime) == s3;
    assert DeleteStaleOf(s3.state.tokens, user, 0) == map[];
    assert StepTo(s3, IssueNew(0, 0), lifetime) == end;
    OneMore(s3, IssueNew(0, 0), [], lifetime);
    OneMore(s2, RevokeOld(0), [IssueNew(0, 0)] + [], lifetime);
    OneMore(s1, Serve(DoChangePassword(user)), [RevokeOld(0)] + ([IssueNew(0, 0)] + []), lifetime);
    OneMore(s0, Read(0, 0), [Serve(DoChangePassword(user))] + ([RevokeOld(0)] + ([IssueNew(0, 0)] + [])), lifetime);
  }

  /** The session survives the password change under a new token. */
  lemma RefreshSurvivesChange(user: string, lifetime: nat) returns (end: System)
    ensures Runs(System(LoggedIn(user, lifetime), [], {}), RefreshAcrossChange(user), lifetime)
    ensures end == RunTo(System(LoggedIn(user, lifetime), [], {}), RefreshAcrossChange(user), lifetime)
    ensures AnswerTo(end.state, 1, 0).Fresh? && 1 in end.state.tokens && !Descends(end.state, 1)
  {
    end := AcrossChange(user, lifetime);
    assert end.state.log[1] == PasswordSet(user, Changed) && Cuts(end.state.log[1], user);
    RevivedRoot(Issued(0, user, true), PasswordSet(user, Changed));
  }

  lemma RevivedRoot(issued: Event, cut: Event)
    requires issued.Issued? && issued.token == 0 && !cut.Issued? && !cut.Rotated?
    ensures Root([issued, cut, Rotated(0, 1)], 1) == Some(0)
  {
    assert [issued, cut, Rotated(0, 1)][..2] == [issued, cut] && [issued, cut][..1] == [issued];
    assert Root([issued, cut, Rotated(0, 1)], 1) == Root([issued, cut], 0) == Root([issued], 0);
  }

  /** Two refreshes of one token, step by step side by side. */
  function RefreshTwice(): seq<Step> {
    [Read(0, 0)] + ([Read(0, 0)] + ([RevokeOld(0)] + ([RevokeOld(1)] + ([IssueNew(0, 0)] + ([IssueNew(0, 0)] + [])))))
  }

  /** Both succeed, and two sessions go on from one token. */
  lemma TokenExchangedTwice(user: string, lifetime: nat) returns (end: System)
    ensures Runs(System(LoggedIn(user, lifetime), [], {}), RefreshTwice(), lifetime)
    ensures end == RunTo(System(LoggedIn(user, lifetime), [], {}), RefreshTwice(), lifetime)
    ensures AnswerTo(end.state, 1, 0).Fresh? && AnswerTo(end.state, 2, 0).Fresh? && Exchanges(end.state.log, 0) == 2
  {
    var row, revoked := TokenRow(user, lifetime, false, true), TokenRow(user, lifetime, true, true);
    var p, q := Refreshing(0, row, 1, false), Refreshing(0, row, 1, true);
    var s0 := System(LoggedIn(user, lifetime), [], {});
    var s1, s2 := s0.(pending := [p]), s0.(pending := [p, p]);
    var s3 := System(LoggedIn(user, lifetime).(tokens := map[0 := revoked]), [q, p], {});
    var s4 := s3.(pending := [q, q]);
    assert StepTo(s0, Read(0, 0), lifetime) == s1 && StepTo(s1, Read(0, 0), lifetime) == s2;
    assert StepTo(s2, RevokeOld(0), lifetime) == s3 && StepTo(s3, RevokeOld(1), lifetime) == s4;
    end := BothIssue(s4, user, lifetime);
    OneMore(s3, RevokeOld(1), [IssueNew(0, 0)] + ([IssueNew(0, 0)] + []), lifetime);
    OneMore(s2, RevokeOld(0), [RevokeOld(1)] + ([IssueNew(0, 0)] + ([IssueNew(0, 0)] + [])), lifetime);
    OneMore(s1, Read(0, 0), [RevokeOld(0)] + ([RevokeOld(1)] + ([IssueNew(0, 0)] + ([IssueNew(0, 0)] + []))), lifetime);
    OneMore(s0, Read(0, 0),
            [Read(0, 0)] + ([RevokeOld(0)] + ([RevokeOld(1)] + ([IssueNew(0, 0)] + ([IssueNew(0, 0)] + [])))), lifetime);
  }

  lemma BothIssue(s: System, user: string, lifetime: nat) returns (end: System)
    requires var q := Refreshing(0, TokenRow(user, lifetime, false, true), 1, true);
             s == System(State(map[0 := TokenRow(user, lifetime, true, true)], {}, 1, [Issued(0, user, true)]), [q, q], {})
    ensures Runs(s, [IssueNew(0, 0)] + ([IssueNew(0, 0)] + []), lifetime)
    ensures end == RunTo(s, [IssueNew(0, 0)] + ([IssueNew(0, 0)] + []), lifetime)
    ensures AnswerTo(end.state, 1, 0).Fresh? && AnswerTo(end.state, 2, 0).Fresh? && Exchanges(end.state.log, 0) == 2
  {
    var row, q := TokenRow(user, lifetime, false, true), s.pending[0];
    var s' := System(State(map[1 := row], {}, 2, s.state.log + [Rotated(0, 1)]), [q], {});
    end := System(State(map[1 := row, 2 := row], {}, 3, s'.state.log + [Rotated(0, 2)]), [], {});
    assert DeleteStaleOf(s.state.tokens, user, 0) == map[] && Without(s.pending, 0) == [q];
    assert StepTo(s, IssueNew(0, 0), lifetime) == s';
    assert DeleteStaleOf(s'.state.tokens, user, 0) == map[1 := row];
    assert StepTo(s', IssueNew(0, 0), lifetime) == end;
    OneMore(s', IssueNew(0, 0), [], lifetime);
    OneMore(s, IssueNew(0, 0), [IssueNew(0, 0)] + [], lifetime);
    FilterOne(RotationsOf(0), Issued(0, user, true));
    ExchangesStep(s.state.log, Rotated(0, 1), 0);
    ExchangesStep(s'.state.log, Rotated(0, 2), 0);
  }
}
