/** What refresh-token rotation with reuse detection guarantees over every run. */
module SessionProofs {
  import opened RefreshTokens
  import opened Users
  import opened Text
  import opened Sessions

  // ---------------------------------------------------------------------
  // Revoking keeps the invariants
  // ---------------------------------------------------------------------

  /** The table after some active tokens have been revoked and nothing else changed. */
  ghost predicate OnlyRevokes(m: Tokens, m': Tokens) {
    && m'.Keys == m.Keys
    && (forall h :: h in m ==> m'[h].(revokedAt := m[h].revokedAt) == m[h])
    && (forall h :: h in m && m[h].Revoked() ==> m'[h] == m[h])
  }

  lemma {:induction false} RevokingKeepsLinks(m: Tokens, m': Tokens, t: Token)
    requires OnlyRevokes(m, m') && ChainLink(m, t)
    ensures ChainLink(m', t)
  {
    if t.replacedBy.Some? {
      var g :| g in m && m[g].id == t.replacedBy.value && Succeeds(m, t, m[g]);
      assert g in m' && m'[g].id == t.replacedBy.value && Succeeds(m', t, m'[g]);
    }
  }

  lemma {:induction false} LinkIgnoresRevocation(m: Tokens, t: Token, u: Token)
    requires ChainLink(m, t) && u.(revokedAt := t.revokedAt) == t
    ensures ChainLink(m, u)
  {
    if t.replacedBy.Some? {
      var g :| g in m && m[g].id == t.replacedBy.value && Succeeds(m, t, m[g]);
      assert Succeeds(m, u, m[g]);
    }
  }

  lemma {:induction false} RevokingKeepsTokens(m: Tokens, m': Tokens)
    requires OnlyRevokes(m, m') && TokensInv(m) && UniqueTokenIds(m)
    ensures TokensInv(m') && UniqueTokenIds(m')
  {
    forall h | h in m'
      ensures ChainLink(m', m'[h])
    {
      RevokingKeepsLinks(m, m', m[h]);
      LinkIgnoresRevocation(m', m[h], m'[h]);
    }
  }

  lemma RevokingKeepsInv(s: Store, s': Store)
    requires Inv(s) && OnlyRevokes(s.tokens, s'.tokens)
    requires s'.users == s.users && s'.next >= s.next
    ensures Inv(s')
  {
    RevokingKeepsTokens(s.tokens, s'.tokens);
  }

  lemma RevokeUserOnlyRevokes(m: Tokens, userId: Id, now: Instant)
    ensures OnlyRevokes(m, RevokeUserOf(m, userId, now))
  {
  }

  lemma RevokeFamilyOnlyRevokes(m: Tokens, family: Id, now: Instant)
    ensures OnlyRevokes(m, RevokeFamilyOf(m, family, now))
  {
  }

  lemma RevokeIdOnlyRevokes(m: Tokens, id: Id, now: Instant)
    requires ActiveNotReplaced(m)
    ensures OnlyRevokes(m, RevokeId(m, id, None, now))
  {
  }

  // ---------------------------------------------------------------------
  // Issuing keeps the invariants
  // ---------------------------------------------------------------------

  lemma NewFamilyKeepsUniqueness(m: Tokens, hash: Digest, t: Token)
    requires TokensInv(m) && UniqueTokenIds(m) && hash !in m
    requires t.replacedBy.None? && forall h :: h in m ==> m[h].id < t.id && m[h].family != t.family
    ensures var m' := m[hash := t];
            UniqueTokenIds(m') && OneActivePerFamily(m') && OneUserPerFamily(m') && ActiveNotReplaced(m')
  {
    hide SingleChain;
  }

  /** A token opening a new family, with an id above all others, keeps every link. */
  lemma NewFamilyKeepsTokens(m: Tokens, hash: Digest, t: Token)
    requires TokensInv(m) && UniqueTokenIds(m) && hash !in m
    requires t.replacedBy.None? && forall h :: h in m ==> m[h].id < t.id && m[h].family != t.family
    ensures TokensInv(m[hash := t]) && UniqueTokenIds(m[hash := t])
  {
    var m' := m[hash := t];
    assert Extends(m, m', hash);
    assert LastOfFamily(m', t);
    NewFamilyKeepsUniqueness(m, hash, t);
    hide LastOfFamily, Succeeds, OneActivePerFamily, OneUserPerFamily, ActiveNotReplaced, UniqueTokenIds;
    forall h | h in m'
      ensures ChainLink(m', m'[h])
    {
      if h != hash { LinkSurvives(m, m', hash, m[h]); }
    }
  }

  /** Rotation: `t` joins the family of the active token under `prior`, which is
      revoked and names `t` as its replacement. */
  ghost predicate Rotated(m: Tokens, m': Tokens, prior: Digest, hash: Digest, t: Token) {
    && prior in m && !m[prior].Revoked() && hash !in m
    && m'.Keys == m.Keys + {hash}
    && (forall h :: h in m && h != prior ==> m'[h] == m[h])
    && (exists now :: m'[prior] == Stamp(m[prior], now, Some(t.id)))
    && m'[hash] == t
    && t.replacedBy.None? && !t.Revoked() && t.family == m[prior].family && t.userId == m[prior].userId
    && (forall h :: h in m ==> m[h].id < t.id)
  }

  lemma RevokeIdRotates(m: Tokens, prior: Digest, hash: Digest, t: Token, now: Instant)
    requires UniqueTokenIds(m) && hash !in m && prior in m && !m[prior].Revoked()
    requires t.replacedBy.None? && !t.Revoked() && t.family == m[prior].family && t.userId == m[prior].userId
    requires forall h :: h in m ==> m[h].id < t.id
    ensures Rotated(m, RevokeId(m[hash := t], m[prior].id, Some(t.id), now), prior, hash, t)
  {
    var m' := RevokeId(m[hash := t], m[prior].id, Some(t.id), now);
    assert m'[prior] == Stamp(m[prior], now, Some(t.id));
  }

  lemma RotationKeepsUniqueness(m: Tokens, m': Tokens, prior: Digest, hash: Digest, t: Token)
    requires TokensInv(m) && UniqueTokenIds(m) && Rotated(m, m', prior, hash, t)
    ensures UniqueTokenIds(m') && OneActivePerFamily(m') && OneUserPerFamily(m') && ActiveNotReplaced(m')
  {
    hide *;
    RotationKeepsIds(m, m', prior, hash, t);
    RotationKeepsOneActive(m, m', prior, hash, t);
    RotationKeepsOneUser(m, m', prior, hash, t);
    RotationKeepsActive(m, m', prior, hash, t);
  }

  lemma RotationKeepsIds(m: Tokens, m': Tokens, prior: Digest, hash: Digest, t: Token)
    requires UniqueTokenIds(m) && Rotated(m, m', prior, hash, t)
    ensures UniqueTokenIds(m')
  {
    assert forall h :: h in m ==> h in m' && m'[h].id == m[h].id;
  }

  lemma RotationKeepsOneUser(m: Tokens, m': Tokens, prior: Digest, hash: Digest, t: Token)
    requires TokensInv(m) && Rotated(m, m', prior, hash, t)
    ensures OneUserPerFamily(m')
  {
    hide SingleChain, OneActivePerFamily, ActiveNotReplaced;
    assert forall h :: h in m ==> h in m' && m'[h].family == m[h].family && m'[h].userId == m[h].userId;
  }

  lemma RotationKeepsActive(m: Tokens, m': Tokens, prior: Digest, hash: Digest, t: Token)
    requires TokensInv(m) && Rotated(m, m', prior, hash, t)
    ensures ActiveNotReplaced(m')
  {
    hide SingleChain, OneActivePerFamily, OneUserPerFamily;
  }

  lemma RotationKeepsOneActive(m: Tokens, m': Tokens, prior: Digest, hash: Digest, t: Token)
    requires TokensInv(m) && Rotated(m, m', prior, hash, t)
    ensures OneActivePerFamily(m')
  {
    hide SingleChain, OneUserPerFamily, ActiveNotReplaced;
  }

  /** One token more, issued last; the others keep their id and family. */
  ghost predicate Extends(m: Tokens, m': Tokens, hash: Digest) {
    && m'.Keys == m.Keys + {hash}
    && (forall h :: h in m ==> m'[h].id == m[h].id && m'[h].family == m[h].family)
    && (forall h :: h in m ==> m[h].id < m'[hash].id)
  }

  lemma {:induction false} LinkSurvives(m: Tokens, m': Tokens, hash: Digest, t: Token)
    requires Extends(m, m', hash) && ChainLink(m, t)
    requires t.replacedBy.None? ==> m'[hash].family != t.family
    ensures ChainLink(m', t)
  {
    if t.replacedBy.Some? {
      var g :| g in m && m[g].id == t.replacedBy.value && Succeeds(m, t, m[g]);
      assert g in m' && m'[g].id == t.replacedBy.value && Succeeds(m', t, m'[g]);
    } else {
      assert LastOfFamily(m', t);
    }
  }

  /** Two tokens cannot both be the last of one family. */
  lemma OneLastPerFamily(m: Tokens, g: Digest, h: Digest)
    requires UniqueTokenIds(m) && g in m && h in m && g != h
    requires LastOfFamily(m, m[g]) && LastOfFamily(m, m[h])
    ensures m[g].family != m[h].family
  {
  }

  lemma {:induction false} RotationKeepsLink(m: Tokens, m': Tokens, prior: Digest, hash: Digest, t: Token, h: Digest)
    requires SingleChain(m) && ActiveNotReplaced(m) && UniqueTokenIds(m)
    requires Rotated(m, m', prior, hash, t) && h in m && h != prior
    ensures ChainLink(m', m'[h])
  {
    assert ChainLink(m, m[h]) && ChainLink(m, m[prior]);
    assert Extends(m, m', hash) && m'[hash].family == m[prior].family && m'[h] == m[h];
    assert LastOfFamily(m, m[prior]);
    hide ChainLink, SingleChain, Rotated;
    if m[h].replacedBy.None? {
      NoReplacementIsLast(m, m[h]);
      OneLastPerFamily(m, h, prior);
    }
    LinkSurvives(m, m', hash, m[h]);
  }

  lemma NoReplacementIsLast(m: Tokens, t: Token)
    requires ChainLink(m, t) && t.replacedBy.None?
    ensures LastOfFamily(m, t)
  {
  }

  lemma RotationKeepsTokens(m: Tokens, m': Tokens, prior: Digest, hash: Digest, t: Token)
    requires TokensInv(m) && UniqueTokenIds(m) && Rotated(m, m', prior, hash, t)
    ensures TokensInv(m') && UniqueTokenIds(m')
  {
    RotationKeepsUniqueness(m, m', prior, hash, t);
    RotationLinks(m, m', prior, hash, t);
    hide *;
    forall h | h in m'
      ensures ChainLink(m', m'[h])
    {
      if h != prior && h != hash { RotationKeepsLink(m, m', prior, hash, t, h); }
    }
  }

  /** The superseded token is linked to the new one, and the new one is last. */
  lemma RotationLinks(m: Tokens, m': Tokens, prior: Digest, hash: Digest, t: Token)
    requires TokensInv(m) && UniqueTokenIds(m) && Rotated(m, m', prior, hash, t)
    ensures m'.Keys == m.Keys + {hash} && prior in m && ChainLink(m', m'[prior]) && ChainLink(m', m'[hash])
  {
    assert ChainLink(m, m[prior]);
    assert hash in m' && Succeeds(m', m'[prior], m'[hash]);
    assert LastOfFamily(m', t);
  }

  lemma TouchedKeepsInv(s: Store, id: Id, now: Instant)
    requires Inv(s)
    ensures Inv(Touched(s, id, now))
    ensures Touched(s, id, now).tokens == s.tokens && Touched(s, id, now).next == s.next
    ensures Touched(s, id, now).users.Keys == s.users.Keys
    ensures forall i :: i in s.users ==> Touched(s, id, now).users[i].active == s.users[i].active
  {
  }

  lemma IssueNewKeepsInv(s: Store, options: Options, userId: Id, now: Instant)
    requires Inv(s) && userId in s.users && s.users[userId].active
    ensures Inv(Issue(s, options, userId, now, NewFamily).0)
  {
    var s' := Issue(s, options, userId, now, NewFamily).0;
    var hash := Digest(s.next + 3);
    assert hash !in s.tokens;
    NewFamilyKeepsTokens(s.tokens, hash, s'.tokens[hash]);
  }

  lemma IssueRotatedKeepsInv(s: Store, options: Options, hash: Digest, now: Instant)
    requires Inv(s) && hash in s.tokens && !s.tokens[hash].Revoked()
    requires s.tokens[hash].userId in s.users && s.users[s.tokens[hash].userId].active
    ensures Inv(Issue(s, options, s.tokens[hash].userId, now, Rotate(s.tokens[hash].family, s.tokens[hash].id)).0)
  {
    hide Inv, RevokeId, Rotated, Issue;
    var t := s.tokens[hash];
    var added := Digest(s.next + 2);
    var token := Token(s.next + 1, t.userId, t.family, now + options.Ttl(), None, None);
    var s' := Store(s.users, RevokeId(s.tokens[added := token], t.id, Some(token.id), now), s.next + 3);
    SupplyIsFresh(s, added);
    RevokeIdRotates(s.tokens, hash, added, token, now);
    RotationKeepsInv(s, s', hash, added, token);
    IssueRotated(s, options, t.userId, now, t.family, t.id);
  }

  lemma SupplyIsFresh(s: Store, hash: Digest)
    requires Inv(s) && hash.secret >= s.next
    ensures hash !in s.tokens && UniqueTokenIds(s.tokens)
    ensures forall h :: h in s.tokens ==> s.tokens[h].id < s.next
  {
  }

  lemma IssueRotated(s: Store, options: Options, userId: Id, now: Instant, family: Id, superseded: Id)
    ensures Issue(s, options, userId, now, Rotate(family, superseded)).0
         == Store(s.users,
                  RevokeId(s.tokens[Digest(s.next + 2) := Token(s.next + 1, userId, family, now + options.Ttl(), None, None)],
                           superseded, Some(s.next + 1), now),
                  s.next + 3)
  {
    hide RevokeId;
  }

  lemma RotationKeepsInv(s: Store, s': Store, prior: Digest, hash: Digest, t: Token)
    requires Inv(s) && Rotated(s.tokens, s'.tokens, prior, hash, t)
    requires s'.users == s.users && s'.next >= s.next
    requires hash.secret < s'.next && t.id < s'.next
    requires t.userId in s.users && s.users[t.userId].active
    ensures Inv(s')
  {
    hide TokensInv;
    RotationKeepsTokens(s.tokens, s'.tokens, prior, hash, t);
  }

  // ---------------------------------------------------------------------
  // Every step, hence every run, keeps the invariants
  // ---------------------------------------------------------------------

  lemma LoginKeepsInv(s: Store, options: Options, email: string, password: string, now: Instant, fault: bool)
    requires Inv(s)
    ensures Inv(Login(s, options, email, password, now, fault).0)
  {
    hide Inv, Issue, Touched;
    var user := UserByEmail(s.users, email);
    if user.Some? && user.value.active && user.value.passwordHash == Bcrypt(password) {
      FoundByEmailIsStored(s, email);
      TouchedKeepsInv(s, user.value.id, now);
      IssueNewKeepsInv(Touched(s, user.value.id, now), options, user.value.id, now);
    }
  }

  lemma FoundByEmailIsStored(s: Store, email: string)
    requires Inv(s) && UserByEmail(s.users, email).Some?
    ensures var user := UserByEmail(s.users, email).value;
            user.id in s.users && s.users[user.id] == user
  {
  }

  lemma RefreshKeepsInv(s: Store, options: Options, secret: nat, now: Instant, fault: bool)
    requires Inv(s)
    ensures Inv(Refresh(s, options, secret, now, fault).0)
  {
    hide Inv, Issue;
    var hash := Digest(secret);
    if hash in s.tokens {
      var token := s.tokens[hash];
      if token.Revoked() {
        RevokeFamilyOnlyRevokes(s.tokens, token.family, now);
        RevokingKeepsInv(s, Refresh(s, options, secret, now, fault).0);
      } else if !token.Expired(now) && token.userId in s.users && s.users[token.userId].active {
        IssueRotatedKeepsInv(s, options, hash, now);
      }
    }
  }

  lemma StartSessionKeepsInv(s: Store, options: Options, user: User, now: Instant, fault: bool)
    requires Inv(s) && user.id in s.users && s.users[user.id] == user
    ensures Inv(StartSession(s, options, user, now, fault).0)
  {
    hide Inv, Issue, Touched;
    if user.active {
      TouchedKeepsInv(s, user.id, now);
      IssueNewKeepsInv(Touched(s, user.id, now), options, user.id, now);
    }
  }

  lemma LogoutKeepsInv(s: Store, secret: nat, now: Instant)
    requires Inv(s)
    ensures Inv(Logout(s, secret, now))
  {
    var hash := Digest(secret);
    if hash in s.tokens && !s.tokens[hash].Revoked() {
      RevokeIdOnlyRevokes(s.tokens, s.tokens[hash].id, now);
      hide Inv;
      RevokingKeepsInv(s, Logout(s, secret, now));
    }
  }

  /** Once a user's tokens are revoked, the user's record may change or go. */
  lemma EndUserKeepsInv(s: Store, s': Store, userId: Id, now: Instant)
    requires Inv(s) && s'.tokens == RevokeUserOf(s.tokens, userId, now) && s'.next == s.next
    requires UsersInv(s')
    requires forall id :: id in s.users && id != userId ==> id in s'.users && s'.users[id] == s.users[id]
    ensures Inv(s')
  {
    RevokeUserOnlyRevokes(s.tokens, userId, now);
    RevokingKeepsTokens(s.tokens, s'.tokens);
  }

  lemma ChangePasswordKeepsInv(s: Store, id: Id, current: string, replacement: string, now: Instant, fault: bool)
    requires Inv(s)
    ensures Inv(ChangePassword(s, id, current, replacement, now, fault).0)
  {
    var s' := ChangePassword(s, id, current, replacement, now, fault).0;
    if s' != s { EndUserKeepsInv(s, s', id, now); }
  }

  lemma SetActiveKeepsInv(s: Store, id: Id, active: bool, now: Instant)
    requires Inv(s)
    ensures Inv(SetActive(s, id, active, now).0)
  {
    var s' := SetActive(s, id, active, now).0;
    if id in s.users && !active { EndUserKeepsInv(s, s', id, now); }
  }

  lemma DeleteUserKeepsInv(s: Store, cleaned: Option<Id>, now: Instant)
    requires Inv(s)
    ensures Inv(DeleteUser(s, cleaned, now).0)
  {
    if cleaned.Some? { EndUserKeepsInv(s, DeleteUser(s, cleaned, now).0, cleaned.value, now); }
  }

  lemma CreateUserKeepsInv(s: Store, email: string, password: string, mustChange: bool, acceptable: bool, fault: bool)
    requires Inv(s)
    ensures Inv(CreateUser(s, email, password, mustChange, acceptable, fault).0)
  {
    var address := Normalize(Normalize(email));
    if !EmailTaken(s.users, address, None) {
      AddedUserKeepsUsers(s, User(s.next, address, Bcrypt(password), true, mustChange, None));
    }
    hide UsersInv, TokensInv, EmailTaken, Normalize;
  }

  lemma AddedUserKeepsUsers(s: Store, user: User)
    requires UsersInv(s) && user.id == s.next && !EmailTaken(s.users, user.email, None)
    ensures UsersInv(s.(users := s.users[user.id := user], next := s.next + 1))
  {
    NormalizedFolds(user.email);
  }

  lemma NormalizedFolds(s: string)
    ensures EqualFold(s, s)
  {
  }

  lemma UpdateProfileKeepsInv(s: Store, id: Id, email: string, acceptable: bool)
    requires Inv(s)
    ensures Inv(UpdateProfile(s, id, email, acceptable).0)
  {
  }

  lemma StepKeepsInv(s: Store, options: Options, e: Event)
    requires Inv(s)
    ensures Inv(Step(s, options, e))
  {
    hide Inv, Login, Refresh, StartSession, Logout, ChangePassword, CreateUser, UpdateProfile, SetActive, DeleteUser;
    if Allowed(s, e) {
      match e
      case LoginEvent(email, password, now, fault) => LoginKeepsInv(s, options, email, password, now, fault);
      case RefreshEvent(secret, now, fault) => RefreshKeepsInv(s, options, secret, now, fault);
      case StartSessionEvent(user, now, fault) => StartSessionKeepsInv(s, options, user, now, fault);
      case LogoutEvent(secret, now) => LogoutKeepsInv(s, secret, now);
      case ChangePasswordEvent(id, current, replacement, now, fault) =>
        ChangePasswordKeepsInv(s, id, current, replacement, now, fault);
      case CreateUserEvent(email, password, mustChange, acceptable, fault) =>
        CreateUserKeepsInv(s, email, password, mustChange, acceptable, fault);
      case UpdateProfileEvent(id, email, acceptable) => UpdateProfileKeepsInv(s, id, email, acceptable);
      case SetActiveEvent(id, active, now) => SetActiveKeepsInv(s, id, active, now);
      case DeleteUserEvent(cleaned, now) => DeleteUserKeepsInv(s, cleaned, now);
    }
  }

  lemma {:induction false} RunKeepsInv(s: Store, options: Options, events: seq<Event>)
    requires Inv(s)
    ensures Inv(RunFrom(s, options, events))
  {
    hide Inv, Step;
    if events != [] {
      RunKeepsInv(s, options, events[..|events| - 1]);
      StepKeepsInv(RunFrom(s, options, events[..|events| - 1]), options, events[|events| - 1]);
    }
  }

  /** Over every run from an empty store: at most one unrevoked token and one user
      per family, replacement links that form one chain per family in issue
      order, and an active stored owner behind every unrevoked token. */
  lemma EveryRunIsSafe(options: Options, events: seq<Event>)
    ensures var s := RunFrom(EMPTY, options, events);
            && OneActivePerFamily(s.tokens) && OneUserPerFamily(s.tokens)
            && SingleChain(s.tokens) && ActiveOwners(s)
            && UniqueEmails(s.users) && UniqueTokenIds(s.tokens)
  {
    assert Inv(EMPTY);
    RunKeepsInv(EMPTY, options, events);
  }
}
