/** What one step can do to the token table, and what follows for whole runs:
    revocations are final, and a family once ended never comes back. */
module SessionHistory {
  import opened RefreshTokens
  import opened Users
  import opened Sessions
  import opened SessionProofs

  // ---------------------------------------------------------------------
  // The three effects of a step
  // ---------------------------------------------------------------------

  ghost predicate Opened(m: Tokens, m': Tokens, hash: Digest) {
    && hash !in m
    && m'.Keys == m.Keys + {hash}
    && (forall h :: h in m ==> m'[h] == m[h])
    && (forall h :: h in m ==> m[h].family != m'[hash].family)
  }

  ghost predicate Effect(m: Tokens, m': Tokens) {
    || OnlyRevokes(m, m')
    || (exists hash :: Opened(m, m', hash))
    || (exists prior, hash, t :: Rotated(m, m', prior, hash, t))
  }

  lemma IssueNewEffect(s: Store, options: Options, userId: Id, now: Instant)
    requires Inv(s)
    ensures Effect(s.tokens, Issue(s, options, userId, now, NewFamily).0.tokens)
  {
    var m' := Issue(s, options, userId, now, NewFamily).0.tokens;
    assert Opened(s.tokens, m', Digest(s.next + 3));
  }

  lemma IssueRotatedEffect(s: Store, options: Options, hash: Digest, now: Instant)
    requires Inv(s) && hash in s.tokens && !s.tokens[hash].Revoked()
    ensures var t := s.tokens[hash];
            Effect(s.tokens, Issue(s, options, t.userId, now, Rotate(t.family, t.id)).0.tokens)
  {
    hide Inv, Issue, RevokeId, OnlyRevokes, Opened, Rotated;
    var t := s.tokens[hash];
    var added := Digest(s.next + 2);
    var token := Token(s.next + 1, t.userId, t.family, now + options.Ttl(), None, None);
    SupplyIsFresh(s, added);
    RevokeIdRotates(s.tokens, hash, added, token, now);
    IssueRotated(s, options, t.userId, now, t.family, t.id);
  }

  lemma NothingChanged(m: Tokens)
    ensures Effect(m, m)
  {
    assert OnlyRevokes(m, m);
  }

  lemma LoginEffect(s: Store, options: Options, email: string, password: string, now: Instant, fault: bool)
    requires Inv(s)
    ensures Effect(s.tokens, Login(s, options, email, password, now, fault).0.tokens)
  {
    hide Inv, Issue, Touched, Effect;
    NothingChanged(s.tokens);
    var user := UserByEmail(s.users, email);
    if user.Some? {
      TouchedKeepsInv(s, user.value.id, now);
      IssueNewEffect(Touched(s, user.value.id, now), options, user.value.id, now);
    }
  }

  lemma RefreshEffect(s: Store, options: Options, secret: nat, now: Instant, fault: bool)
    requires Inv(s)
    ensures Effect(s.tokens, Refresh(s, options, secret, now, fault).0.tokens)
  {
    hide Inv, Issue, Effect;
    NothingChanged(s.tokens);
    var hash := Digest(secret);
    if hash in s.tokens {
      RevokeFamilyOnlyRevokes(s.tokens, s.tokens[hash].family, now);
      RevokingIsEffect(s.tokens, RevokeFamilyOf(s.tokens, s.tokens[hash].family, now));
      if !s.tokens[hash].Revoked() { IssueRotatedEffect(s, options, hash, now); }
    }
  }

  lemma RevokingIsEffect(m: Tokens, m': Tokens)
    requires OnlyRevokes(m, m')
    ensures Effect(m, m')
  {
  }

  lemma StartSessionEffect(s: Store, options: Options, user: User, now: Instant, fault: bool)
    requires Inv(s)
    ensures Effect(s.tokens, StartSession(s, options, user, now, fault).0.tokens)
  {
    hide Inv, Issue, Touched, Effect;
    NothingChanged(s.tokens);
    TouchedKeepsInv(s, user.id, now);
    IssueNewEffect(Touched(s, user.id, now), options, user.id, now);
  }

  lemma {:induction false} LogoutEffect(s: Store, secret: nat, now: Instant)
    requires Inv(s)
    ensures Effect(s.tokens, Logout(s, secret, now).tokens)
  {
    hide Effect;
    NothingChanged(s.tokens);
    var hash := Digest(secret);
    if hash in s.tokens {
      RevokeIdOnlyRevokes(s.tokens, s.tokens[hash].id, now);
      RevokingIsEffect(s.tokens, RevokeId(s.tokens, s.tokens[hash].id, None, now));
    }
  }

  lemma EndUserEffect(m: Tokens, id: Id, now: Instant)
    ensures Effect(m, RevokeUserOf(m, id, now)) && Effect(m, m)
  {
    NothingChanged(m);
    RevokeUserOnlyRevokes(m, id, now);
  }

  lemma StepEffect(s: Store, options: Options, e: Event)
    requires Inv(s)
    ensures Effect(s.tokens, Step(s, options, e).tokens)
  {
    hide Inv, Effect, RevokeUserOf, Login, Refresh, StartSession, Logout;
    NothingChanged(s.tokens);
    if Allowed(s, e) {
      match e
      case LoginEvent(email, password, now, fault) => LoginEffect(s, options, email, password, now, fault);
      case RefreshEvent(secret, now, fault) => RefreshEffect(s, options, secret, now, fault);
      case StartSessionEvent(user, now, fault) => StartSessionEffect(s, options, user, now, fault);
      case LogoutEvent(secret, now) => LogoutEffect(s, secret, now);
      case ChangePasswordEvent(id, _, _, now, _) => EndUserEffect(s.tokens, id, now);
      case CreateUserEvent(_, _, _, _, _) =>
      case UpdateProfileEvent(_, _, _) =>
      case SetActiveEvent(id, _, now) => EndUserEffect(s.tokens, id, now);
      case DeleteUserEvent(cleaned, now) => if cleaned.Some? { EndUserEffect(s.tokens, cleaned.value, now); }
    }
  }

  // ---------------------------------------------------------------------
  // Final revocations, dead families
  // ---------------------------------------------------------------------

  /** No token disappears or changes identity, and a revoked one never changes at all. */
  ghost predicate HistoryKept(m: Tokens, m': Tokens) {
    forall h :: h in m ==>
      && h in m'
      && m'[h].(revokedAt := m[h].revokedAt, replacedBy := m[h].replacedBy) == m[h]
      && (m[h].Revoked() ==> m'[h] == m[h])
  }

  /** The family has tokens, and all of them are revoked. */
  ghost predicate Dead(m: Tokens, family: Id) {
    && (exists h :: h in m && m[h].family == family)
    && (forall h :: h in m && m[h].family == family ==> m[h].Revoked())
  }

  lemma EffectKeepsHistory(m: Tokens, m': Tokens)
    requires Effect(m, m')
    ensures HistoryKept(m, m')
  {
  }

  lemma {:induction false} EffectKeepsDead(m: Tokens, m': Tokens, family: Id)
    requires Effect(m, m') && Dead(m, family)
    ensures Dead(m', family)
  {
    EffectKeepsHistory(m, m');
    var h :| h in m && m[h].family == family;
    assert h in m' && m'[h].family == family;
    forall g | g in m' && m'[g].family == family
      ensures m'[g].Revoked()
    {
      if g in m {
        assert m'[g] == m[g];
      } else {
        StrayTokenIsLive(m, m', g);
      }
    }
  }

  /** A token that was not there before joins a family with a live token, or a new one. */
  lemma StrayTokenIsLive(m: Tokens, m': Tokens, g: Digest)
    requires Effect(m, m') && g in m' && g !in m
    ensures (forall h :: h in m ==> m[h].family != m'[g].family)
         || (exists h :: h in m && m[h].family == m'[g].family && !m[h].Revoked())
  {
  }

  lemma {:induction false} RunKeepsHistory(s: Store, options: Options, events: seq<Event>)
    requires Inv(s)
    ensures HistoryKept(s.tokens, RunFrom(s, options, events).tokens)
  {
    hide Inv, Step, Effect;
    if events != [] {
      var front := RunFrom(s, options, events[..|events| - 1]);
      RunKeepsHistory(s, options, events[..|events| - 1]);
      RunKeepsInv(s, options, events[..|events| - 1]);
      StepEffect(front, options, events[|events| - 1]);
      EffectKeepsHistory(front.tokens, RunFrom(s, options, events).tokens);
    }
  }

  lemma {:induction false} RunKeepsDead(s: Store, options: Options, events: seq<Event>, family: Id)
    requires Inv(s) && Dead(s.tokens, family)
    ensures Dead(RunFrom(s, options, events).tokens, family)
  {
    hide Inv, Step, Effect, Dead;
    if events != [] {
      var front := RunFrom(s, options, events[..|events| - 1]);
      RunKeepsDead(s, options, events[..|events| - 1], family);
      RunKeepsInv(s, options, events[..|events| - 1]);
      StepEffect(front, options, events[|events| - 1]);
      EffectKeepsDead(front.tokens, RunFrom(s, options, events).tokens, family);
    }
  }

  /** However a run goes on, stored tokens stay, and once a token is revoked its
      revocation time and replacement never change. */
  lemma RevocationIsFinal(options: Options, events: seq<Event>, more: seq<Event>)
    ensures var s := RunFrom(EMPTY, options, events);
            HistoryKept(s.tokens, RunFrom(s, options, more).tokens)
  {
    assert Inv(EMPTY);
    RunKeepsInv(EMPTY, options, events);
    RunKeepsHistory(RunFrom(EMPTY, options, events), options, more);
  }

  /** However a run goes on, a family with no unrevoked token never gets one again. */
  lemma DeadFamiliesStayDead(options: Options, events: seq<Event>, more: seq<Event>, family: Id)
    requires Dead(RunFrom(EMPTY, options, events).tokens, family)
    ensures Dead(RunFrom(RunFrom(EMPTY, options, events), options, more).tokens, family)
  {
    assert Inv(EMPTY);
    RunKeepsInv(EMPTY, options, events);
    RunKeepsDead(RunFrom(EMPTY, options, events), options, more, family);
  }

  // ---------------------------------------------------------------------
  // What ends a family, and what a session is good for
  // ---------------------------------------------------------------------

  /** Presenting a revoked secret ends its whole family and is refused. */
  lemma ReuseEndsFamily(s: Store, options: Options, secret: nat, now: Instant, fault: bool)
    requires Digest(secret) in s.tokens && s.tokens[Digest(secret)].Revoked()
    ensures var (s', r) := Refresh(s, options, secret, now, fault);
            r == Err(InvalidRefreshToken) && Dead(s'.tokens, s.tokens[Digest(secret)].family)
  {
    var (s', r) := Refresh(s, options, secret, now, fault);
    assert Digest(secret) in s'.tokens;
  }

  /** Logging out with a stored secret that is still active ends its family exactly
      if no other token of the family is active. */
  lemma LogoutEndsFamilyIff(s: Store, secret: nat, now: Instant)
    requires UniqueTokenIds(s.tokens) && Digest(secret) in s.tokens && !s.tokens[Digest(secret)].Revoked()
    ensures var t := s.tokens[Digest(secret)];
            Dead(Logout(s, secret, now).tokens, t.family)
            <==> forall h :: h in s.tokens && s.tokens[h].family == t.family && !s.tokens[h].Revoked() ==> h == Digest(secret)
  {
    var hash := Digest(secret);
    var t, m' := s.tokens[hash], Logout(s, secret, now).tokens;
    assert hash in m' && m'[hash].family == t.family && m'[hash].Revoked();
    assert forall h :: h in s.tokens && h != hash ==> h in m' && m'[h] == s.tokens[h];
    hide Logout;
  }

  /** Which holds in every store that atomic use cases can reach. */
  lemma LogoutEndsFamily(s: Store, secret: nat, now: Instant)
    requires Inv(s) && Digest(secret) in s.tokens && !s.tokens[Digest(secret)].Revoked()
    ensures Dead(Logout(s, secret, now).tokens, s.tokens[Digest(secret)].family)
  {
    LogoutEndsFamilyIff(s, secret, now);
    hide Dead;
  }

  /** A password change, a deactivation and a deletion end every family of the user. */
  lemma EndingUserEndsFamilies(s: Store, id: Id, current: string, replacement: string, now: Instant, h: Digest)
    requires Inv(s) && h in s.tokens && s.tokens[h].userId == id
    ensures ChangePassword(s, id, current, replacement, now, false).1.Ok?
        ==> Dead(ChangePassword(s, id, current, replacement, now, false).0.tokens, s.tokens[h].family)
    ensures id in s.users ==> Dead(SetActive(s, id, false, now).0.tokens, s.tokens[h].family)
    ensures Dead(DeleteUser(s, Some(id), now).0.tokens, s.tokens[h].family)
  {
    var m := RevokeUserOf(s.tokens, id, now);
    assert h in m && m[h].family == s.tokens[h].family;
    assert Dead(m, s.tokens[h].family);
  }

  /** An unrevoked, unexpired secret is accepted, for its user and family. */
  lemma ActiveSecretAccepted(s: Store, options: Options, secret: nat, now: Instant)
    requires Inv(s) && Digest(secret) in s.tokens
    requires !s.tokens[Digest(secret)].Revoked() && !s.tokens[Digest(secret)].Expired(now)
    ensures var t := s.tokens[Digest(secret)];
            var (s', r) := Refresh(s, options, secret, now, false);
            && r.Ok? && r.value.userId == t.userId && r.value.family == t.family && r.value.secret != secret
            && Inv(s')
            && Digest(secret) in s'.tokens && s'.tokens[Digest(secret)].Revoked()
            && Digest(r.value.secret) in s'.tokens && !s'.tokens[Digest(r.value.secret)].Revoked()
            && s'.tokens[Digest(r.value.secret)].expiresAt == now + options.Ttl()
  {
    RefreshKeepsInv(s, options, secret, now, false);
    var (s', r) := Refresh(s, options, secret, now, false);
    IssueRotated(s, options, s.tokens[Digest(secret)].userId, now, s.tokens[Digest(secret)].family, s.tokens[Digest(secret)].id);
    assert Digest(secret) in s'.tokens && s'.tokens[Digest(secret)].Revoked();
  }

  /** A revoked secret is refused, and stays so however a run goes on. */
  lemma RevokedSecretRefused(s: Store, options: Options, secret: nat, more: seq<Event>, now: Instant, fault: bool)
    requires Inv(s) && Digest(secret) in s.tokens && s.tokens[Digest(secret)].Revoked()
    ensures Refresh(RunFrom(s, options, more), options, secret, now, fault).1 == Err(InvalidRefreshToken)
  {
    RunKeepsHistory(s, options, more);
    hide Inv, RunFrom;
  }

  /** What Issue is called for: a new family, or the rotation of an active token. */
  ghost predicate MayIssue(s: Store, userId: Id, rotation: Rotation) {
    && userId in s.users && s.users[userId].active
    && (rotation.Rotate? ==> exists h :: h in s.tokens && !s.tokens[h].Revoked() && s.tokens[h].userId == userId
                                          && s.tokens[h].family == rotation.family && s.tokens[h].id == rotation.superseded)
  }

  lemma IssuedTokenStored(s: Store, options: Options, userId: Id, now: Instant, rotation: Rotation)
    requires Inv(s) && MayIssue(s, userId, rotation)
    ensures var (s', first) := Issue(s, options, userId, now, rotation);
            && Inv(s') && Digest(first.secret) in s'.tokens
            && s'.tokens[Digest(first.secret)]
               == Token(first.refreshId, userId, first.family, now + options.Ttl(), None, None)
  {
    if rotation.Rotate? {
      var h :| h in s.tokens && !s.tokens[h].Revoked() && s.tokens[h].userId == userId
               && s.tokens[h].family == rotation.family && s.tokens[h].id == rotation.superseded;
      IssueRotatedKeepsInv(s, options, h, now);
      IssueRotated(s, options, userId, now, rotation.family, rotation.superseded);
      NewestIsStored(s, Token(s.next + 1, userId, rotation.family, now + options.Ttl(), None, None), rotation.superseded, now, h);
    } else {
      IssueNewKeepsInv(s, options, userId, now);
    }
    hide Inv, RevokeId;
  }

  lemma NewestIsStored(s: Store, t: Token, superseded: Id, now: Instant, h: Digest)
    requires Inv(s) && t.id == s.next + 1 && h in s.tokens && s.tokens[h].id == superseded
    ensures var m' := RevokeId(s.tokens[Digest(s.next + 2) := t], superseded, Some(t.id), now);
            Digest(s.next + 2) in m' && m'[Digest(s.next + 2)] == t
  {
  }

  /** The secret of an issued session, of a new family or a rotated one: whatever
      has happened in between, until it expires it is accepted exactly if its token
      is still active, for the same user and family; and once it has been accepted
      it is refused for ever. */
  lemma IssuedSessionRefreshesOnce(s: Store, options: Options, userId: Id, now: Instant, rotation: Rotation,
                                   between: seq<Event>, later: Instant, more: seq<Event>, afterwards: Instant, fault: bool)
    requires Inv(s) && MayIssue(s, userId, rotation) && later < now + options.Ttl()
    ensures var (s1, first) := Issue(s, options, userId, now, rotation);
            var s2 := RunFrom(s1, options, between);
            var (s3, second) := Refresh(s2, options, first.secret, later, false);
            && Digest(first.secret) in s2.tokens
            && (second.Ok? <==> !s2.tokens[Digest(first.secret)].Revoked())
            && (second.Ok? ==>
                  && second.value.userId == userId && second.value.family == first.family
                  && second.value.secret != first.secret
                  && Refresh(RunFrom(s3, options, more), options, first.secret, afterwards, fault).1 == Err(InvalidRefreshToken))
  {
    IssuedTokenStored(s, options, userId, now, rotation);
    var (s1, first) := Issue(s, options, userId, now, rotation);
    var s2 := RunFrom(s1, options, between);
    RunKeepsInv(s1, options, between);
    RunKeepsHistory(s1, options, between);
    hide Inv, RunFrom, Issue;
    var hash := Digest(first.secret);
    assert hash in s2.tokens && s2.tokens[hash].expiresAt == now + options.Ttl();
    if s2.tokens[hash].Revoked() {
      assert Refresh(s2, options, first.secret, later, false).1 == Err(InvalidRefreshToken);
    } else {
      ActiveSecretAccepted(s2, options, first.secret, later);
      RevokedSecretRefused(Refresh(s2, options, first.secret, later, false).0, options, first.secret, more, afterwards, fault);
    }
  }

  // ---------------------------------------------------------------------
  // Where the guarantees end
  // ---------------------------------------------------------------------

  /** Rotation is not safe when split. A refresh that has looked a token up while
      it was active, and issues only now, keeps the claim of one unrevoked token
      per family exactly if the token is still active or the family is dead; and a
      dead family comes back to life. */
  lemma LateRotationKeepsClaimIff(s: Store, options: Options, hash: Digest, now: Instant)
    requires Inv(s) && hash in s.tokens
    ensures var t := s.tokens[hash];
            OneActivePerFamily(Issue(s, options, t.userId, now, Rotate(t.family, t.id)).0.tokens)
            <==> !t.Revoked() || Dead(s.tokens, t.family)
    ensures var t := s.tokens[hash];
            !Dead(Issue(s, options, t.userId, now, Rotate(t.family, t.id)).0.tokens, t.family)
  {
    var t := s.tokens[hash];
    var m' := Issue(s, options, t.userId, now, Rotate(t.family, t.id)).0.tokens;
    var added := Digest(s.next + 2);
    LateRotationEffect(s, options, hash, now);
    hide Issue;
    if t.Revoked() && OneActivePerFamily(m') {
      forall h | h in s.tokens && s.tokens[h].family == t.family
        ensures s.tokens[h].Revoked()
      {
        assert h in m' && (m'[h].Revoked() || h == added);
      }
    }
  }

  lemma LateRotationEffect(s: Store, options: Options, hash: Digest, now: Instant)
    requires Inv(s) && hash in s.tokens
    ensures var t := s.tokens[hash];
            var m' := Issue(s, options, t.userId, now, Rotate(t.family, t.id)).0.tokens;
            var added := Digest(s.next + 2);
            && added !in s.tokens && m'.Keys == s.tokens.Keys + {added}
            && m'[added].family == t.family && !m'[added].Revoked()
            && forall h :: h in s.tokens ==>
                 m'[h].family == s.tokens[h].family && (m'[h].Revoked() <==> s.tokens[h].Revoked() || h == hash)
  {
    IssueRotated(s, options, s.tokens[hash].userId, now, s.tokens[hash].family, s.tokens[hash].id);
    hide Issue;
  }

  /** So two requests that both looked the token up before either revoked it leave
      two unrevoked tokens in one family. */
  lemma SplitRefreshForksFamily(s: Store, options: Options, hash: Digest, now: Instant)
    requires Inv(s) && hash in s.tokens && !s.tokens[hash].Revoked()
    ensures var t := s.tokens[hash];
            var (s1, first) := Issue(s, options, t.userId, now, Rotate(t.family, t.id));
            var (s2, second) := Issue(s1, options, t.userId, now, Rotate(t.family, t.id));
            !OneActivePerFamily(s2.tokens)
  {
    var t := s.tokens[hash];
    var (s1, first) := Issue(s, options, t.userId, now, Rotate(t.family, t.id));
    IssueRotatedKeepsInv(s, options, hash, now);
    assert hash in s1.tokens && s1.tokens[hash].(revokedAt := None, replacedBy := None) == t.(replacedBy := None);
    var a := Digest(first.secret);
    assert a in s1.tokens && s1.tokens[a].family == t.family && !s1.tokens[a].Revoked();
    LateRotationKeepsClaimIff(s1, options, hash, now);
  }

  /** There a logout with either secret leaves the other token of the family active. */
  lemma LogoutLeavesFork(s: Store, options: Options, hash: Digest, now: Instant, later: Instant)
    requires Inv(s) && hash in s.tokens && !s.tokens[hash].Revoked()
    ensures var t := s.tokens[hash];
            var (s1, first) := Issue(s, options, t.userId, now, Rotate(t.family, t.id));
            var (s2, second) := Issue(s1, options, t.userId, now, Rotate(t.family, t.id));
            !Dead(Logout(s2, second.secret, later).tokens, t.family) && !Dead(Logout(s2, first.secret, later).tokens, t.family)
  {
    var t := s.tokens[hash];
    IssueRotatedKeepsInv(s, options, hash, now);
    LateRotationEffect(s, options, hash, now);
    var (s1, first) := Issue(s, options, t.userId, now, Rotate(t.family, t.id));
    assert hash in s1.tokens && s1.tokens[hash].family == t.family && s1.tokens[hash].id == t.id
           && s1.tokens[hash].userId == t.userId by { IssueRotated(s, options, t.userId, now, t.family, t.id); }
    LateRotationEffect(s1, options, hash, now);
    var (s2, second) := Issue(s1, options, t.userId, now, Rotate(t.family, t.id));
    var a, b := Digest(first.secret), Digest(second.secret);
    assert a == Digest(s.next + 2) && b == Digest(s1.next + 2) && a != b;
    TwoActiveOneLeft(s2, first.secret, second.secret, later);
    TwoActiveOneLeft(s2, second.secret, first.secret, later);
  }

  lemma TwoActiveOneLeft(s: Store, secret: nat, other: nat, now: Instant)
    requires Digest(secret) in s.tokens && Digest(other) in s.tokens
    requires s.tokens[Digest(secret)].family == s.tokens[Digest(other)].family
    requires s.tokens[Digest(secret)].id != s.tokens[Digest(other)].id && !s.tokens[Digest(other)].Revoked()
    ensures !Dead(Logout(s, secret, now).tokens, s.tokens[Digest(other)].family)
  {
    var m' := Logout(s, secret, now).tokens;
    assert Digest(other) in m' && m'[Digest(other)] == s.tokens[Digest(other)];
  }

  /** Starting a session with the given record keeps every unrevoked token with a
      stored, active user exactly if the record is inactive or the stored one is
      active: a record that has gone stale by deactivation or deletion orphans a token. */
  lemma StartSessionKeepsOwnersIff(s: Store, options: Options, user: User, now: Instant)
    requires Inv(s)
    ensures ActiveOwners(StartSession(s, options, user, now, false).0)
       <==> !user.active || (user.id in s.users && s.users[user.id].active)
  {
    if user.active {
      var touched := Touched(s, user.id, now);
      TouchedKeepsInv(s, user.id, now);
      var (s', session) := Issue(touched, options, user.id, now, NewFamily);
      var added := Digest(session.secret);
      assert s'.tokens == s.tokens[added := s'.tokens[added]] && !s'.tokens[added].Revoked();
      assert s'.tokens[added].userId == user.id;
      assert added !in s.tokens;
    }
  }
}
