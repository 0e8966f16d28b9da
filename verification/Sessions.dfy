/** Refresh tokens: issue, rotation, logout, password writes and restriction, with a log of what
    happened, and the lineage of every token that can still be used. */
module Sessions {
  import opened Common

  datatype TokenRow = TokenRow(user: string, expiresAt: int, revoked: bool, persistent: bool)

  datatype Event =
    | Issued(token: nat, user: string, persistent: bool)
    | Rotated(from: nat, to: nat)
    | PasswordSet(user: string, way: PasswordWay)
    | WasRestricted(user: string)

  /** A password is written by a change or a reset, or along with the profile. */
  datatype PasswordWay = Changed | WithProfile

  /** Password change, password reset and restriction end all sessions of the user; a password that is
      set with the profile does not. */
  predicate Cuts(e: Event, user: string) {
    e == PasswordSet(user, Changed) || e == WasRestricted(user)
  }

  /** Token values are random; here they are numbers that are never used twice. */
  datatype State = State(tokens: map<nat, TokenRow>, restricted: set<string>, next: nat, log: seq<Event>)

  datatype Answer = Invalid | HasBeenRevoked | HasExpired | AccountRestricted | Fresh(token: nat, persistent: bool)

  // ---------------------------------------------------------------- operations

  predicate Stale(r: TokenRow, now: int) {
    r.expiresAt < now || r.revoked
  }

  function DeleteStaleOf(tokens: map<nat, TokenRow>, user: string, now: int): map<nat, TokenRow> {
    map t | t in tokens && !(tokens[t].user == user && Stale(tokens[t], now)) :: tokens[t]
  }

  function DeleteAllOf(tokens: map<nat, TokenRow>, user: string): map<nat, TokenRow> {
    map t | t in tokens && tokens[t].user != user :: tokens[t]
  }

  function DeleteExpired(tokens: map<nat, TokenRow>, now: int): map<nat, TokenRow> {
    map t | t in tokens && !(tokens[t].expiresAt < now) :: tokens[t]
  }

  function RevokeAllOf(tokens: map<nat, TokenRow>, user: string): map<nat, TokenRow> {
    map t | t in tokens :: if tokens[t].user == user then tokens[t].(revoked := true) else tokens[t]
  }

  /** generateTokens: purge the user's stale tokens, then store the new one. */
  function Generate(s: State, user: string, persistent: bool, now: int, lifetime: nat): State {
    s.(tokens := DeleteStaleOf(s.tokens, user, now)[s.next := TokenRow(user, now + lifetime, false, persistent)],
       next := s.next + 1)
  }

  function Issue(s: State, user: string, persistent: bool, now: int, lifetime: nat): State {
    Generate(s, user, persistent, now, lifetime).(log := s.log + [Issued(s.next, user, persistent)])
  }

  function AnswerTo(s: State, t: nat, now: int): Answer {
    if t !in s.tokens then Invalid
    else if s.tokens[t].revoked then HasBeenRevoked
    else if s.tokens[t].expiresAt < now then HasExpired
    else if s.tokens[t].user in s.restricted then AccountRestricted
    else Fresh(s.next, s.tokens[t].persistent)
  }

  function Refresh(s: State, t: nat, now: int, lifetime: nat): State {
    match AnswerTo(s, t, now)
    case HasExpired => s.(tokens := s.tokens - {t})
    case Fresh(_, _) =>
      var row := s.tokens[t];
      Generate(s.(tokens := s.tokens[t := row.(revoked := true)]), row.user, row.persistent, now, lifetime)
      .(log := s.log + [Rotated(t, s.next)])
    case _ => s
  }

  function Logout(s: State, t: nat): State {
    if t in s.tokens then s.(tokens := s.tokens[t := s.tokens[t].(revoked := true)]) else s
  }

  /** Profile completion writes the password, if one is sent, and touches no token. */
  function SetWithProfile(s: State, user: string, setsPassword: bool): State {
    if setsPassword then s.(log := s.log + [PasswordSet(user, WithProfile)]) else s
  }

  datatype Op =
    | DoIssue(user: string, persistent: bool, now: int)
    | DoRefresh(token: nat, now: int)
    | DoLogout(token: nat)
    | DoChangePassword(user: string)
    | DoCompleteProfile(user: string, setsPassword: bool, persistent: bool, now: int)
    | DoRestrict(user: string)
    | DoUnrestrict(user: string)
    | DoCleanup(now: int)
    | DoDeleteUser(user: string)

  function Apply(s: State, op: Op, lifetime: nat): State {
    match op
    case DoIssue(user, persistent, now) => Issue(s, user, persistent, now, lifetime)
    case DoRefresh(t, now) => Refresh(s, t, now, lifetime)
    case DoLogout(t) => Logout(s, t)
    case DoChangePassword(user) => s.(tokens := RevokeAllOf(s.tokens, user), log := s.log + [PasswordSet(user, Changed)])
    case DoCompleteProfile(user, setsPassword, persistent, now) =>
      Issue(SetWithProfile(s, user, setsPassword), user, persistent, now, lifetime)
    case DoRestrict(user) =>
      s.(tokens := DeleteAllOf(s.tokens, user), restricted := s.restricted + {user}, log := s.log + [WasRestricted(user)])
    case DoUnrestrict(user) => s.(restricted := s.restricted - {user})
    case DoCleanup(now) => s.(tokens := DeleteExpired(s.tokens, now))
    case DoDeleteUser(user) => s.(tokens := DeleteAllOf(s.tokens, user))
  }

  function Run(s: State, ops: seq<Op>, lifetime: nat): State
    decreases |ops|
  {
    if ops == [] then s else Run(Apply(s, ops[0], lifetime), ops[1..], lifetime)
  }

  const EMPTY: State := State(map[], {}, 0, [])

  // ---------------------------------------------------------------- a refresh conserves the sessions

  function LiveTokens(s: State, now: int): set<nat> {
    set t | t in s.tokens && !Stale(s.tokens[t], now)
  }

  /** The old token makes way for the new one; every other live token, of this user or another, is
      untouched, and user and persistence flag carry over. A refused refresh changes no live token. */
  lemma RefreshConserves(s: State, t: nat, now: int, lifetime: nat)
    requires s.next !in s.tokens
    ensures var s', answer := Refresh(s, t, now, lifetime), AnswerTo(s, t, now);
            if answer.Fresh? then
              && LiveTokens(s', now) == LiveTokens(s, now) - {t} + {answer.token}
              && |LiveTokens(s', now)| == |LiveTokens(s, now)|
              && t !in s'.tokens && t in LiveTokens(s, now)
              && s'.tokens[answer.token] == TokenRow(s.tokens[t].user, now + lifetime, false, s.tokens[t].persistent)
              && (forall k :: k in LiveTokens(s, now) && k != t ==> s'.tokens[k] == s.tokens[k])
            else LiveTokens(s', now) == LiveTokens(s, now)
  {
    var s', answer := Refresh(s, t, now, lifetime), AnswerTo(s, t, now);
    if answer.Fresh? {
      assert LiveTokens(s', now) == LiveTokens(s, now) - {t} + {answer.token};
      assert t in LiveTokens(s, now) && answer.token !in LiveTokens(s, now);
    }
  }

  // ---------------------------------------------------------------- lineage

  /** The log index of the issuance from which the token descends by rotations. */
  function Root(log: seq<Event>, t: nat): Option<nat>
    decreases |log|
  {
    if log == [] then None
    else
      var earlier := log[..|log| - 1];
      match log[|log| - 1]
      case Issued(token, _, _) => if token == t then Some(|log| - 1) else Root(earlier, t)
      case Rotated(from, to) => Root(earlier, if to == t then from else t)
      case _ => Root(earlier, t)
  }

  /** The token descends from one issuance, to the same user and with the same persistence flag, and
      the user's sessions have not been cut since. */
  ghost predicate Descends(s: State, t: nat)
    requires t in s.tokens
  {
    var root := Root(s.log, t);
    root.Some? && root.value < |s.log| && s.log[root.value].Issued? &&
    s.log[root.value].user == s.tokens[t].user && s.log[root.value].persistent == s.tokens[t].persistent &&
    forall j :: root.value < j < |s.log| ==> !Cuts(s.log[j], s.tokens[t].user)
  }

  function RotationsOf(t: nat): Event -> bool {
    (e: Event) => e.Rotated? && e.from == t
  }

  /** A token that is neither revoked nor deleted descends from an issuance and was never rotated. */
  ghost predicate TokenSound(s: State, t: nat) {
    (t in s.tokens ==> t < s.next) &&
    (t in s.tokens && !s.tokens[t].revoked ==> Descends(s, t)) &&
    |Filter(RotationsOf(t), s.log)| <= (if t >= s.next || (t in s.tokens && !s.tokens[t].revoked) then 0 else 1)
  }

  ghost predicate Sound(s: State) {
    forall t :: TokenSound(s, t)
  }

  /** A log entry that does not touch the token leaves its lineage alone. */
  lemma DescendsOneMore(s: State, s': State, t: nat, e: Event)
    requires t in s.tokens && Descends(s, t) && t in s'.tokens
    requires s'.log == s.log + [e] && s'.tokens[t] == s.tokens[t]
    requires !Cuts(e, s.tokens[t].user) && (e.Issued? ==> e.token != t) && (e.Rotated? ==> e.to != t)
    ensures Descends(s', t)
  {
    assert s'.log[..|s.log|] == s.log;
  }

  lemma IssuedDescends(s: State, user: string, persistent: bool, now: int, lifetime: nat)
    ensures Descends(Issue(s, user, persistent, now, lifetime), s.next)
  {
  }

  lemma RotatedDescends(s: State, t: nat, now: int, lifetime: nat)
    requires AnswerTo(s, t, now).Fresh? && Descends(s, t)
    ensures Descends(Refresh(s, t, now, lifetime), s.next)
  {
    var s' := Refresh(s, t, now, lifetime);
    assert s'.log[..|s.log|] == s.log;
    assert Root(s'.log, s.next) == Root(s.log, t);
  }

  lemma IssueKeepsSound(s: State, user: string, persistent: bool, now: int, lifetime: nat)
    requires Sound(s)
    ensures Sound(Issue(s, user, persistent, now, lifetime))
  {
    var s' := Issue(s, user, persistent, now, lifetime);
    forall t ensures TokenSound(s', t) {
      assert TokenSound(s, t);
      FilterSnoc(RotationsOf(t), s.log, s'.log[|s.log|]);
      if t == s.next {
        IssuedDescends(s, user, persistent, now, lifetime);
      } else if t in s'.tokens && !s'.tokens[t].revoked {
        DescendsOneMore(s, s', t, s'.log[|s.log|]);
      }
    }
  }

  lemma RefreshKeepsTokenSound(s: State, t: nat, now: int, lifetime: nat, k: nat)
    requires TokenSound(s, t) && TokenSound(s, k) && TokenSound(s, s.next) && AnswerTo(s, t, now).Fresh?
    ensures TokenSound(Refresh(s, t, now, lifetime), k)
  {
    var s' := Refresh(s, t, now, lifetime);
    var e := Rotated(t, s.next);
    assert s'.log == s.log + [e];
    FilterSnoc(RotationsOf(k), s.log, e);
    if k == s.next {
      RotatedDescends(s, t, now, lifetime);
    } else if k in s'.tokens && !s'.tokens[k].revoked {
      assert k != t && s'.tokens[k] == s.tokens[k];
      DescendsOneMore(s, s', k, e);
    }
  }

  lemma RefreshKeepsSound(s: State, t: nat, now: int, lifetime: nat)
    requires Sound(s) && AnswerTo(s, t, now).Fresh?
    ensures Sound(Refresh(s, t, now, lifetime))
  {
    forall k ensures TokenSound(Refresh(s, t, now, lifetime), k) {
      assert TokenSound(s, k) && TokenSound(s, t) && TokenSound(s, s.next);
      RefreshKeepsTokenSound(s, t, now, lifetime, k);
    }
  }

  lemma CutKeepsSound(s: State, s': State, user: string, e: Event)
    requires Sound(s) && s'.log == s.log + [e] && s'.next == s.next
    requires e == PasswordSet(user, Changed) || e == WasRestricted(user)
    requires forall t :: t in s'.tokens ==>
               t in s.tokens &&
               if s.tokens[t].user == user then s'.tokens[t].revoked else s'.tokens[t] == s.tokens[t]
    ensures Sound(s')
  {
    forall t ensures TokenSound(s', t) {
      assert TokenSound(s, t);
      FilterSnoc(RotationsOf(t), s.log, e);
      if t in s'.tokens && !s'.tokens[t].revoked {
        DescendsOneMore(s, s', t, e);
      }
    }
  }

  lemma SetWithProfileKeepsSound(s: State, user: string, setsPassword: bool)
    requires Sound(s)
    ensures Sound(SetWithProfile(s, user, setsPassword))
  {
    if setsPassword {
      var s', e := SetWithProfile(s, user, true), PasswordSet(user, WithProfile);
      forall t ensures TokenSound(s', t) {
        assert TokenSound(s, t);
        FilterSnoc(RotationsOf(t), s.log, e);
        if t in s'.tokens && !s'.tokens[t].revoked {
          DescendsOneMore(s, s', t, e);
        }
      }
    }
  }

  /** Deleting or revoking rows without a log entry. */
  lemma DropKeepsSound(s: State, s': State)
    requires Sound(s) && s'.log == s.log && s'.next == s.next
    requires forall t :: t in s'.tokens ==>
               t in s.tokens && (s'.tokens[t] == s.tokens[t] || s'.tokens[t].revoked)
    ensures Sound(s')
  {
    forall t ensures TokenSound(s', t) {
      assert TokenSound(s, t);
    }
  }

  lemma ApplyKeepsSound(s: State, op: Op, lifetime: nat)
    requires Sound(s)
    ensures Sound(Apply(s, op, lifetime))
  {
    var s' := Apply(s, op, lifetime);
    match op
    case DoIssue(user, persistent, now) => IssueKeepsSound(s, user, persistent, now, lifetime);
    case DoRefresh(t, now) =>
      if AnswerTo(s, t, now).Fresh? {
        RefreshKeepsSound(s, t, now, lifetime);
      } else {
        DropKeepsSound(s, s');
      }
    case DoChangePassword(user) => CutKeepsSound(s, s', user, PasswordSet(user, Changed));
    case DoCompleteProfile(user, setsPassword, persistent, now) =>
      SetWithProfileKeepsSound(s, user, setsPassword);
      IssueKeepsSound(SetWithProfile(s, user, setsPassword), user, persistent, now, lifetime);
    case DoRestrict(user) => CutKeepsSound(s, s', user, WasRestricted(user));
    case _ => DropKeepsSound(s, s');
  }

  lemma {:induction false} RunKeepsSound(s: State, ops: seq<Op>, lifetime: nat)
    requires Sound(s)
    ensures Sound(Run(s, ops, lifetime))
    decreases |ops|
  {
    if ops == [] {
    } else {
      ApplyKeepsSound(s, ops[0], lifetime);
      RunKeepsSound(Apply(s, ops[0], lifetime), ops[1..], lifetime);
    }
  }

  lemma EmptyIsSound()
    ensures Sound(EMPTY)
  {
    forall k ensures TokenSound(EMPTY, k) {
    }
  }

  /** Session lineage, with calls served one at a time: in every reachable state each token has been
      exchanged at most once, and a token that a refresh would accept descends from one issuance to its
      user, with its persistence flag, made after the user's last password change, reset or restriction. */
  lemma SessionLineage(ops: seq<Op>, lifetime: nat, t: nat, now: int)
    ensures var s := Run(EMPTY, ops, lifetime);
            |Filter(RotationsOf(t), s.log)| <= 1 &&
            (AnswerTo(s, t, now).Fresh? ==> Descends(s, t))
  {
    EmptyIsSound();
    RunKeepsSound(EMPTY, ops, lifetime);
    assert TokenSound(Run(EMPTY, ops, lifetime), t);
  }

  // ---------------------------------------------------------------- which password writes end sessions

  /** A password of the user has been written after the issuance from which the token descends. */
  ghost predicate OutlivesPassword(s: State, t: nat)
    requires t in s.tokens && Root(s.log, t).Some?
  {
    exists j :: Root(s.log, t).value < j < |s.log| && s.log[j].PasswordSet? && s.log[j].user == s.tokens[t].user
  }

  /** A token that a refresh would accept can be older than the user's current password, if and only if
      that was set with the profile: every password write since its issuance was. */
  lemma OutlivedPasswordsCameWithProfile(ops: seq<Op>, lifetime: nat, t: nat, now: int)
    requires AnswerTo(Run(EMPTY, ops, lifetime), t, now).Fresh?
    ensures var s := Run(EMPTY, ops, lifetime);
            Root(s.log, t).Some? && Root(s.log, t).value < |s.log| &&
            (OutlivesPassword(s, t) <==>
             exists j :: Root(s.log, t).value < j < |s.log| && s.log[j] == PasswordSet(s.tokens[t].user, WithProfile))
  {
    var s := Run(EMPTY, ops, lifetime);
    SessionLineage(ops, lifetime, t, now);
    var root, user := Root(s.log, t).value, s.tokens[t].user;
    if OutlivesPassword(s, t) {
      var j :| root < j < |s.log| && s.log[j].PasswordSet? && s.log[j].user == user;
      assert !Cuts(s.log[j], user) && s.log[j] == PasswordSet(user, s.log[j].way);
      assert s.log[j].way == Changed || s.log[j].way == WithProfile;
    }
  }

  predicate WritesPassword(op: Op, user: string) {
    op == DoChangePassword(user) || (op.DoCompleteProfile? && op.user == user && op.setsPassword)
  }

  /** No token that the user had before is accepted after the operation. */
  ghost predicate EndsSessions(s: State, op: Op, user: string, now: int, lifetime: nat) {
    forall t :: t in s.tokens && s.tokens[t].user == user ==> !AnswerTo(Apply(s, op, lifetime), t, now).Fresh?
  }

  /** A password write ends the user's sessions if and only if it is a change or reset, or there was none
      to end. */
  lemma PasswordWriteEndsSessionsIff(s: State, op: Op, user: string, now: int, lifetime: nat)
    requires Sound(s) && WritesPassword(op, user) && (op.DoCompleteProfile? ==> op.now == now)
    ensures EndsSessions(s, op, user, now, lifetime) <==>
            op.DoChangePassword? || forall t :: t in s.tokens && s.tokens[t].user == user ==> !AnswerTo(s, t, now).Fresh?
  {
    if op.DoCompleteProfile? {
      forall t | t in s.tokens && s.tokens[t].user == user
        ensures AnswerTo(Apply(s, op, lifetime), t, now).Fresh? <==> AnswerTo(s, t, now).Fresh?
      {
        assert TokenSound(s, t);
      }
    }
  }

  /** A session that began before the profile was completed with a new password can still be refreshed. */
  lemma SessionOutlivesPassword(user: string, lifetime: nat)
    ensures var s := Run(EMPTY, [DoIssue(user, true, 0), DoCompleteProfile(user, true, true, 0)], lifetime);
            AnswerTo(s, 0, 0).Fresh? && s.log == [Issued(0, user, true), PasswordSet(user, WithProfile), Issued(1, user, true)]
  {
    var issue, complete := DoIssue(user, true, 0), DoCompleteProfile(user, true, true, 0);
    assert [issue, complete][1..] == [complete] && [complete][1..] == [];
    var s1 := Apply(EMPTY, issue, lifetime);
    assert Run(EMPTY, [issue, complete], lifetime) == Run(s1, [complete], lifetime) == Apply(s1, complete, lifetime);
  }

  // ---------------------------------------------------------------- the service

  class TokenTable {
    var tokens: map<nat, TokenRow>
    var restricted: set<string>
    var next: nat
    ghost var log: seq<Event>
    const lifetime: nat

    constructor (lifetime: nat)
      ensures S() == EMPTY && this.lifetime == lifetime
    {
      tokens, restricted, next, log := map[], {}, 0, [];
      this.lifetime := lifetime;
    }

    ghost function S(): State
      reads this
    {
      State(tokens, restricted, next, log)
    }

    /** The private part of every login and of a refresh. */
    method GenerateTokens(user: string, persistent: bool, now: int) returns (token: nat)
      modifies this`tokens, this`next
      ensures token == old(next) && S() == Generate(old(S()), user, persistent, now, lifetime)
    {
      token := next;
      next := next + 1;
      tokens := DeleteStaleOf(tokens, user, now);
      tokens := tokens[token := TokenRow(user, now + lifetime, false, persistent)];
    }

    method Login(user: string, persistent: bool, now: int) returns (token: nat)
      modifies this
      ensures S() == Apply(old(S()), DoIssue(user, persistent, now), lifetime)
      ensures old(Sound(S())) ==> Sound(S())
    {
      if Sound(S()) {
        ApplyKeepsSound(S(), DoIssue(user, persistent, now), lifetime);
      }
      token := GenerateTokens(user, persistent, now);
      log := log + [Issued(token, user, persistent)];
    }

    method RefreshTokens(t: nat, now: int) returns (answer: Answer)
      modifies this
      ensures answer == AnswerTo(old(S()), t, now)
      ensures S() == Apply(old(S()), DoRefresh(t, now), lifetime)
      ensures answer.Fresh? ==>
                (t in old(tokens) && t !in tokens - {answer.token} && answer.token in tokens &&
                 tokens[answer.token] == TokenRow(old(tokens)[t].user, now + lifetime, false, old(tokens)[t].persistent))
      ensures old(Sound(S())) ==> Sound(S())
    {
      if Sound(S()) {
        ApplyKeepsSound(S(), DoRefresh(t, now), lifetime);
      }
      if t !in tokens {
        return Invalid;
      }
      var stored := tokens[t];
      if stored.revoked {
        return HasBeenRevoked;
      }
      if stored.expiresAt < now {
        tokens := tokens - {t};
        return HasExpired;
      }
      if stored.user in restricted {
        return AccountRestricted;
      }
      tokens := tokens[t := stored.(revoked := true)];
      var fresh' := GenerateTokens(stored.user, stored.persistent, now);
      log := log + [Rotated(t, fresh')];
      answer := Fresh(fresh', stored.persistent);
    }

    method Logout(t: nat)
      modifies this`tokens
      ensures S() == Apply(old(S()), DoLogout(t), lifetime)
      ensures tokens.Keys == old(tokens.Keys) && (t in tokens ==> tokens[t] == old(tokens)[t].(revoked := true))
      ensures forall k :: k in tokens && k != t ==> tokens[k] == old(tokens)[k]
    {
      if t in tokens {
        tokens := tokens[t := tokens[t].(revoked := true)];
      }
    }

    /** The session part of a password change or reset. */
    method ChangePassword(user: string)
      modifies this`tokens, this`log
      ensures S() == Apply(old(S()), DoChangePassword(user), lifetime)
      ensures tokens.Keys == old(tokens.Keys)
      ensures forall k :: k in tokens ==>
                tokens[k] == if old(tokens)[k].user == user then old(tokens)[k].(revoked := true) else old(tokens)[k]
    {
      tokens := RevokeAllOf(tokens, user);
      log := log + [PasswordSet(user, Changed)];
    }

    /** The session part of profile completion. */
    method CompleteProfile(user: string, setsPassword: bool, persistent: bool, now: int) returns (token: nat)
      modifies this
      ensures S() == Apply(old(S()), DoCompleteProfile(user, setsPassword, persistent, now), lifetime)
      ensures old(Sound(S())) ==> Sound(S())
    {
      if Sound(S()) {
        ApplyKeepsSound(S(), DoCompleteProfile(user, setsPassword, persistent, now), lifetime);
      }
      if setsPassword {
        log := log + [PasswordSet(user, WithProfile)];
      }
      token := GenerateTokens(user, persistent, now);
      log := log + [Issued(token, user, persistent)];
    }

    /** No token of the user is left, and those of the others are as before. */
    method RestrictUser(user: string)
      modifies this
      ensures S() == Apply(old(S()), DoRestrict(user), lifetime)
      ensures forall t :: t in tokens <==> t in old(tokens) && old(tokens)[t].user != user
      ensures forall t :: t in tokens ==> tokens[t] == old(tokens)[t]
      ensures old(Sound(S())) ==> Sound(S())
    {
      if Sound(S()) {
        ApplyKeepsSound(S(), DoRestrict(user), lifetime);
      }
      restricted := restricted + {user};
      tokens := DeleteAllOf(tokens, user);
      log := log + [WasRestricted(user)];
    }

    method CleanupExpiredTokens(now: int) returns (deleted: nat)
      modifies this`tokens
      ensures S() == Apply(old(S()), DoCleanup(now), lifetime)
      ensures deleted == |set t | t in old(tokens) && old(tokens)[t].expiresAt < now|
      ensures forall k :: k in tokens <==> k in old(tokens) && now <= old(tokens)[k].expiresAt
      ensures forall k :: k in tokens ==> tokens[k] == old(tokens)[k]
    {
      deleted := |set t | t in tokens && tokens[t].expiresAt < now|;
      tokens := DeleteExpired(tokens, now);
    }
  }
}
