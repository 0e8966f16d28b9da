/** The life of a refresh token: which operations end it, and that nothing brings it back. */
module SessionLife {
  import opened Common
  import opened Sessions

  /** The token is stored and has not been revoked. */
  predicate Usable(s: State, t: nat) {
    t in s.tokens && !s.tokens[t].revoked
  }

  /** The operation ends a usable token: its logout or its exchange, whatever ends all sessions of its user,
      and, of the operations that purge, those after its expiry. */
  predicate Ends(s: State, op: Op, t: nat)
    requires t in s.tokens
  {
    var user, expiry := s.tokens[t].user, s.tokens[t].expiresAt;
    match op
    case DoLogout(k) => k == t
    case DoChangePassword(u) => u == user
    case DoRestrict(u) => u == user
    case DoUnrestrict(_) => false
    case DoDeleteUser(u) => u == user
    case DoCleanup(now) => expiry < now
    case DoIssue(u, _, now) => u == user && expiry < now
    case DoCompleteProfile(u, _, _, now) => u == user && expiry < now
    case DoRefresh(k, now) =>
      if k == t then expiry < now || user !in s.restricted
      else
        k in s.tokens && !s.tokens[k].revoked && now <= s.tokens[k].expiresAt && s.tokens[k].user !in s.restricted &&
        s.tokens[k].user == user && expiry < now
  }

  /** An operation leaves a usable token usable, with the same row, if and only if it does not end it. */
  lemma UsableIff(s: State, op: Op, t: nat, lifetime: nat)
    requires Usable(s, t) && t < s.next
    ensures Usable(Apply(s, op, lifetime), t) <==> !Ends(s, op, t)
    ensures !Ends(s, op, t) ==> Apply(s, op, lifetime).tokens[t] == s.tokens[t]
    ensures t < Apply(s, op, lifetime).next
  {
  }

  lemma StaysUnusable(s: State, op: Op, t: nat, lifetime: nat)
    requires !Usable(s, t) && t < s.next
    ensures !Usable(Apply(s, op, lifetime), t) && t < Apply(s, op, lifetime).next
  {
  }

  /** No operation of the run ends the token. */
  predicate NeverEnded(s: State, ops: seq<Op>, t: nat, lifetime: nat)
    decreases |ops|
  {
    ops == [] || (t in s.tokens && !Ends(s, ops[0], t) && NeverEnded(Apply(s, ops[0], lifetime), ops[1..], t, lifetime))
  }

  lemma {:induction false} EndedForGood(s: State, ops: seq<Op>, t: nat, lifetime: nat)
    requires !Usable(s, t) && t < s.next
    ensures !Usable(Run(s, ops, lifetime), t)
    decreases |ops|
  {
    if ops == [] {
    } else {
      StaysUnusable(s, ops[0], t, lifetime);
      EndedForGood(Apply(s, ops[0], lifetime), ops[1..], t, lifetime);
    }
  }

  lemma {:induction false} UsableAfterIff(s: State, ops: seq<Op>, t: nat, lifetime: nat)
    requires Usable(s, t) && t < s.next
    ensures Usable(Run(s, ops, lifetime), t) <==> NeverEnded(s, ops, t, lifetime)
    ensures Usable(Run(s, ops, lifetime), t) ==> Run(s, ops, lifetime).tokens[t] == s.tokens[t]
    decreases |ops|
  {
    if ops == [] {
    } else {
      var s' := Apply(s, ops[0], lifetime);
      UsableIff(s, ops[0], t, lifetime);
      if Ends(s, ops[0], t) {
        EndedForGood(s', ops[1..], t, lifetime);
      } else {
        UsableAfterIff(s', ops[1..], t, lifetime);
      }
    }
  }

  /** What a login or a completed profile stores, and for how long it is good. */
  lemma IssuedIsAccepted(s: State, op: Op, lifetime: nat, later: int)
    requires op.DoIssue? || op.DoCompleteProfile?
    ensures var s' := Apply(s, op, lifetime);
            s'.next == s.next + 1 && s.next in s'.tokens &&
            s'.tokens[s.next] == TokenRow(op.user, op.now + lifetime, false, op.persistent) &&
            (AnswerTo(s', s.next, later).Fresh? <==> later <= op.now + lifetime && op.user !in s.restricted)
  {
  }

  /** From its issue on, over every run of calls served one at a time, a token is accepted if and only if
      nothing has ended it, it has not expired and its user is not restricted. */
  lemma AcceptedIff(s: State, op: Op, ops: seq<Op>, lifetime: nat, later: int)
    requires op.DoIssue? || op.DoCompleteProfile?
    ensures var s' := Apply(s, op, lifetime);
            AnswerTo(Run(s', ops, lifetime), s.next, later).Fresh? <==>
            NeverEnded(s', ops, s.next, lifetime) && later <= op.now + lifetime &&
            op.user !in Run(s', ops, lifetime).restricted
  {
    IssuedIsAccepted(s, op, lifetime, later);
    UsableAfterIff(Apply(s, op, lifetime), ops, s.next, lifetime);
  }

  /** A token that an operation has ended is never accepted again, by any refresh at any instant. */
  lemma EndedIsRefused(s: State, op: Op, ops: seq<Op>, t: nat, lifetime: nat, later: int)
    requires t < s.next && (Usable(s, t) ==> Ends(s, op, t))
    ensures !AnswerTo(Run(Apply(s, op, lifetime), ops, lifetime), t, later).Fresh?
  {
    if Usable(s, t) {
      UsableIff(s, op, t, lifetime);
    } else {
      StaysUnusable(s, op, t, lifetime);
    }
    EndedForGood(Apply(s, op, lifetime), ops, t, lifetime);
  }

  /** After its logout a token is never accepted again; the other tokens are as before. */
  lemma LogoutEndsSession(s: State, t: nat, ops: seq<Op>, lifetime: nat, later: int)
    requires t < s.next
    ensures !AnswerTo(Run(Apply(s, DoLogout(t), lifetime), ops, lifetime), t, later).Fresh?
    ensures var s' := Apply(s, DoLogout(t), lifetime);
            s'.tokens.Keys == s.tokens.Keys && (forall k :: k in s.tokens && k != t ==> s'.tokens[k] == s.tokens[k]) &&
            s' == s.(tokens := s'.tokens)
  {
    EndedIsRefused(s, DoLogout(t), ops, t, lifetime, later);
  }

  /** Restriction and its lifting are all that decides who is restricted. */
  lemma RestrictedIff(s: State, op: Op, user: string, lifetime: nat)
    ensures user in Apply(s, op, lifetime).restricted <==>
            op == DoRestrict(user) || (user in s.restricted && op != DoUnrestrict(user))
  {
  }

  // ---------------------------------------------------------------- what a refresh answers

  /** Why a token is refused, in the order of the checks. */
  lemma RefusedBecause(s: State, t: nat, now: int)
    ensures AnswerTo(s, t, now) == Invalid <==> t !in s.tokens
    ensures t in s.tokens ==>
              var row := s.tokens[t];
              (AnswerTo(s, t, now) == HasBeenRevoked <==> row.revoked) &&
              (AnswerTo(s, t, now) == HasExpired <==> !row.revoked && row.expiresAt < now) &&
              (AnswerTo(s, t, now) == AccountRestricted <==> !row.revoked && now <= row.expiresAt && row.user in s.restricted)
  {
  }

  /** A refused refresh deletes the token if it has expired, and changes nothing else. */
  lemma RefusedChangesNothing(s: State, t: nat, now: int, lifetime: nat)
    requires !AnswerTo(s, t, now).Fresh?
    ensures var s' := Apply(s, DoRefresh(t, now), lifetime);
            s' == s.(tokens := s'.tokens) &&
            (forall k :: k in s'.tokens <==> k in s.tokens && !(k == t && !s.tokens[t].revoked && s.tokens[t].expiresAt < now)) &&
            forall k :: k in s'.tokens ==> s'.tokens[k] == s.tokens[k]
  {
  }

  /** Rows that a purge may take are stale ones of the same user; rows of others stay as they are. */
  lemma PurgeTakesStale(s: State, op: Op, lifetime: nat, k: nat)
    requires op.DoIssue? || op.DoCompleteProfile?
    requires k in s.tokens && k != s.next
    ensures var s' := Apply(s, op, lifetime);
            (k !in s'.tokens <==> s.tokens[k].user == op.user && (s.tokens[k].revoked || s.tokens[k].expiresAt < op.now)) &&
            (k in s'.tokens ==> s'.tokens[k] == s.tokens[k])
  {
  }
}
