/** Who is let in: which secrets a refresh accepts and which passwords a login
    accepts, in terms of what is stored and of what has happened since. */
module SessionAccounts {
  import opened RefreshTokens
  import opened Users
  import opened Text
  import opened Sessions
  import opened SessionProofs
  import opened SessionHistory

  // ---------------------------------------------------------------------
  // Refresh
  // ---------------------------------------------------------------------

  /** A refresh is accepted exactly for a stored, unrevoked token that expires after
      now and whose owner is stored and active; a refusal is always the same error,
      and changes nothing unless the token was revoked. */
  lemma RefreshAcceptedIff(s: Store, options: Options, secret: nat, now: Instant)
    ensures var (s', r) := Refresh(s, options, secret, now, false);
            && (r.Ok? <==>
                  && Digest(secret) in s.tokens
                  && s.tokens[Digest(secret)].revokedAt == None
                  && now < s.tokens[Digest(secret)].expiresAt
                  && s.tokens[Digest(secret)].userId in s.users
                  && s.users[s.tokens[Digest(secret)].userId].active)
            && (!r.Ok? ==> r == Err(InvalidRefreshToken) && s'.users == s.users && s'.next == s.next)
            && (!r.Ok? && (Digest(secret) in s.tokens ==> s.tokens[Digest(secret)].revokedAt == None) ==> s' == s)
  {
    hide RevokeId, RevokeFamilyOf;
  }

  /** A fault refuses more, and nothing else. */
  lemma FaultRefuses(s: Store, options: Options, secret: nat, now: Instant)
    ensures !Refresh(s, options, secret, now, true).1.Ok?
  {
  }

  /** Whatever has happened in between, the secret of a session issued at `now` is
      refused by every refresh from its time to live on. */
  lemma ExpiredSessionRefused(s: Store, options: Options, userId: Id, now: Instant, rotation: Rotation,
                              between: seq<Event>, later: Instant, fault: bool)
    requires Inv(s) && MayIssue(s, userId, rotation)
    requires later >= now + (if options.refreshTtl <= 0 then 604_800_000_000_000 else options.refreshTtl)
    ensures var (s1, first) := Issue(s, options, userId, now, rotation);
            Refresh(RunFrom(s1, options, between), options, first.secret, later, fault).1 == Err(InvalidRefreshToken)
  {
    IssuedTokenStored(s, options, userId, now, rotation);
    var (s1, first) := Issue(s, options, userId, now, rotation);
    var s2 := RunFrom(s1, options, between);
    RunKeepsHistory(s1, options, between);
    var hash := Digest(first.secret);
    hide Inv, RunFrom, Issue;
    assert hash in s2.tokens && s2.tokens[hash].expiresAt == now + options.Ttl();
    RefreshAcceptedIff(s2, options, first.secret, later);
  }

  // ---------------------------------------------------------------------
  // Which tokens an operation revokes
  // ---------------------------------------------------------------------

  /** Exactly the active tokens in `selected` have been revoked, at `now`, and no
      other token has changed in any way. */
  ghost predicate RevokedExactly(m: Tokens, m': Tokens, selected: iset<Digest>, now: Instant) {
    && m'.Keys == m.Keys
    && forall h :: h in m ==>
         if h in selected && m[h].revokedAt == None
         then m'[h].revokedAt == Some(now) && m'[h].(revokedAt := None) == m[h]
         else m'[h] == m[h]
  }

  /** Presenting a revoked secret revokes the active tokens of its family. */
  lemma ReuseScope(s: Store, options: Options, secret: nat, now: Instant)
    requires Digest(secret) in s.tokens && s.tokens[Digest(secret)].revokedAt != None
    ensures var family := s.tokens[Digest(secret)].family;
            RevokedExactly(s.tokens, Refresh(s, options, secret, now, false).0.tokens,
                           (iset h | h in s.tokens && s.tokens[h].family == family), now)
  {
    FamilyScope(s.tokens, s.tokens[Digest(secret)].family, now);
    hide RevokedExactly, RevokeFamilyOf;
  }

  /** A password change, a deactivation and a deletion revoke what the user holds;
      an activation revokes nothing. */
  lemma AccountScope(s: Store, id: Id, current: string, replacement: string, now: Instant)
    ensures var mine := iset h | h in s.tokens && s.tokens[h].userId == id;
            && (ChangePassword(s, id, current, replacement, now, false).1.Ok? ==>
                  RevokedExactly(s.tokens, ChangePassword(s, id, current, replacement, now, false).0.tokens, mine, now))
            && (id in s.users ==> RevokedExactly(s.tokens, SetActive(s, id, false, now).0.tokens, mine, now))
            && SetActive(s, id, true, now).0.tokens == s.tokens
            && RevokedExactly(s.tokens, DeleteUser(s, Some(id), now).0.tokens, mine, now)
            && DeleteUser(s, Some(id), now).0.users == s.users - {id}
            && DeleteUser(s, None, now) == (s, Err(NoSuchUser))
  {
    UserScope(s.tokens, id, now);
    hide RevokedExactly, RevokeUserOf;
  }

  lemma FamilyScope(m: Tokens, family: Id, now: Instant)
    ensures RevokedExactly(m, RevokeFamilyOf(m, family, now), (iset h | h in m && m[h].family == family), now)
  {
  }

  lemma UserScope(m: Tokens, id: Id, now: Instant)
    ensures RevokedExactly(m, RevokeUserOf(m, id, now), (iset h | h in m && m[h].userId == id), now)
  {
  }

  /** A logout revokes the presented token, if it is active. */
  lemma LogoutScope(s: Store, secret: nat, now: Instant)
    requires Inv(s) && Digest(secret) in s.tokens
    ensures RevokedExactly(s.tokens, Logout(s, secret, now).tokens, iset{Digest(secret)}, now)
  {
    hide SingleChain, OneUserPerFamily, OneActivePerFamily, ActiveOwners;
  }

  // ---------------------------------------------------------------------
  // Login
  // ---------------------------------------------------------------------

  /** Logging in with this address and password succeeds. */
  ghost predicate Accepts(s: Store, options: Options, email: string, password: string) {
    Login(s, options, email, password, 0, false).1.Ok?
  }

  /** The account that answers to an address. */
  ghost predicate Answers(s: Store, id: Id, email: string) {
    id in s.users && EqualFold(s.users[id].email, Normalize(email))
  }

  /** A login is accepted exactly if an active user answers to the address and the
      password is the one on record; the session is then that user's. */
  lemma LoginAcceptedIff(s: Store, options: Options, email: string, password: string, now: Instant)
    requires Inv(s)
    ensures var (s', r) := Login(s, options, email, password, now, false);
            && (r.Ok? <==> exists id :: Answers(s, id, email) && s.users[id].active && s.users[id].passwordHash == Bcrypt(password))
            && (!r.Ok? ==> r == Err(InvalidCredentials) && s' == s)
            && (r.Ok? ==> Answers(s, r.value.userId, email)
                          && s'.users == s.users[r.value.userId := s.users[r.value.userId].(lastLoginAt := Some(now))])
  {
    OneAnswers(s, email);
    hide Inv, Issue, EqualFold, Normalize;
  }

  /** The lookup by address finds the account that answers, if any. */
  lemma OneAnswers(s: Store, email: string)
    requires Inv(s)
    ensures forall id :: Answers(s, id, email) ==> UserByEmail(s.users, email) == Some(s.users[id])
    ensures UserByEmail(s.users, email).Some? ==>
      Answers(s, UserByEmail(s.users, email).value.id, email)
      && s.users[UserByEmail(s.users, email).value.id] == UserByEmail(s.users, email).value
  {
    hide TokensInv, IdsInv, ActiveOwners, Normalize;
    forall id | Answers(s, id, email)
      ensures UserByEmail(s.users, email) == Some(s.users[id])
    {
      assert EmailTaken(s.users, Normalize(email), None);
    }
  }

  /** The password an account's address accepts is the one on record, while it is active. */
  lemma AcceptedPassword(s: Store, options: Options, id: Id, email: string, password: string)
    requires Inv(s) && Answers(s, id, email)
    ensures Accepts(s, options, email, password) <==> s.users[id].active && s.users[id].passwordHash == Bcrypt(password)
  {
    LoginAcceptedIff(s, options, email, password, 0);
    OneAnswers(s, email);
    hide Inv, Login, EqualFold, Normalize, UserByEmail;
    forall other | Answers(s, other, email)
      ensures s.users[other] == s.users[id]
    {
    }
  }

  /** A session is started exactly for a record that says active, for its user. */
  lemma StartSessionAcceptedIff(s: Store, options: Options, user: User, now: Instant)
    ensures var (s', r) := StartSession(s, options, user, now, false);
            && (r.Ok? <==> user.active)
            && (!r.Ok? ==> r == Err(InvalidCredentials) && s' == s)
            && (r.Ok? ==> r.value.userId == user.id && s'.users.Keys == s.users.Keys)
            && (r.Ok? && user.id in s.users ==> s'.users == s.users[user.id := s.users[user.id].(lastLoginAt := Some(now))])
  {
  }

  // ---------------------------------------------------------------------
  // Account operations
  // ---------------------------------------------------------------------

  lemma TakenIsAnswered(s: Store, email: string, except: Option<Id>)
    ensures EmailTaken(s.users, Normalize(email), except) <==> exists id: Id :: Answers(s, id, email) && Some(id) != except
  {
    var address := Normalize(email);
    hide EqualFold, Normalize;
    if EmailTaken(s.users, address, except) {
      var id :| id in s.users && Some(id) != except && EqualFold(s.users[id].email, address);
      assert Answers(s, id, email) && Some(id) != except;
    }
    if id :| Answers(s, id, email) && Some(id) != except {
      assert id in s.users && Some(id) != except && EqualFold(s.users[id].email, address);
    }
  }

  /** A user is created exactly from an acceptable request with a password of at
      least eight characters and an address nobody answers to. */
  lemma CreateAcceptedIff(s: Store, options: Options, email: string, password: string, mustChange: bool, acceptable: bool, fault: bool)
    requires Inv(s)
    ensures var (s', r) := CreateUser(s, email, password, mustChange, acceptable, fault);
            && (r.Ok? <==> acceptable && |password| >= 8 && !fault && forall id :: !Answers(s, id, Normalize(email)))
            && (!r.Ok? ==> s'.users == s.users)
            && (r.Ok? ==>
                  && r.value.id !in s.users && s'.users == s.users[r.value.id := s'.users[r.value.id]]
                  && Answers(s', r.value.id, Normalize(email))
                  && s'.users[r.value.id].active && s'.users[r.value.id].passwordHash == Bcrypt(password)
                  && s'.users[r.value.id].mustChangePassword == mustChange)
            && s'.tokens == s.tokens
  {
    var address := Normalize(Normalize(email));
    NormalizedFolds(address);
    TakenIsAnswered(s, Normalize(email), None);
    hide TokensInv, IdsInv, ActiveOwners, Normalize, EqualFold, EmailTaken;
  }

  /** A password is changed exactly for a stored user who gives the one on record and
      a new one of at least eight characters. */
  lemma ChangePasswordAcceptedIff(s: Store, id: Id, current: string, replacement: string, now: Instant, fault: bool)
    ensures var (s', r) := ChangePassword(s, id, current, replacement, now, fault);
            && (r.Ok? <==> |replacement| >= 8 && !fault && id in s.users && s.users[id].passwordHash == Bcrypt(current))
            && (!r.Ok? ==> s' == s)
            && (r.Ok? ==> s'.users == s.users[id := s.users[id].(passwordHash := Bcrypt(replacement), mustChangePassword := false)])
  {
    hide RevokeUserOf;
  }

  /** A profile moves to a new address exactly if nobody else answers to it. */
  lemma UpdateProfileAcceptedIff(s: Store, id: Id, email: string, acceptable: bool)
    requires Inv(s)
    ensures var (s', r) := UpdateProfile(s, id, email, acceptable);
            && (r.Ok? <==> acceptable && id in s.users && forall other :: Answers(s, other, Normalize(email)) ==> other == id)
            && (!r.Ok? ==> s' == s)
            && (r.Ok? ==> Answers(s', id, Normalize(email)) && s'.users[id].(email := s.users[id].email) == s.users[id]
                          && s'.users == s.users[id := s'.users[id]])
  {
    var address := Normalize(Normalize(email));
    NormalizedFolds(address);
    TakenIsAnswered(s, Normalize(email), Some(id));
    hide Inv, Normalize, EqualFold, EmailTaken;
  }

  // ---------------------------------------------------------------------
  // What an address accepts, over runs
  // ---------------------------------------------------------------------

  /** The event is an operation on this account that can change who gets in. */
  predicate Concerns(e: Event, id: Id) {
    match e
    case ChangePasswordEvent(other, _, _, _, _) => other == id
    case UpdateProfileEvent(other, _, _) => other == id
    case SetActiveEvent(other, _, _) => other == id
    case DeleteUserEvent(cleaned, _) => cleaned == Some(id)
    case _ => false
  }

  /** The same user with the same address, password and flag. */
  ghost predicate SameCredentials(s: Store, s': Store, id: Id) {
    && (id in s.users <==> id in s'.users)
    && (id in s.users ==>
          && s'.users[id].email == s.users[id].email && s'.users[id].passwordHash == s.users[id].passwordHash
          && s'.users[id].active == s.users[id].active)
  }

  lemma LoginKeepsCredentials(s: Store, options: Options, email: string, password: string, now: Instant, fault: bool, id: Id)
    ensures SameCredentials(s, Login(s, options, email, password, now, fault).0, id)
  {
    hide Issue, UserByEmail;
    IssueKeepsUsers(options);
  }

  lemma IssueKeepsUsers(options: Options)
    ensures forall s, userId, now, rotation :: Issue(s, options, userId, now, rotation).0.users == s.users
  {
  }

  lemma StepKeepsCredentials(s: Store, options: Options, e: Event, id: Id)
    requires Inv(s) && !Concerns(e, id) && id in s.users
    ensures SameCredentials(s, Step(s, options, e), id)
  {
    hide Inv, Login, Refresh, Issue, RevokeUserOf, CreateUser, UpdateProfile, Logout;
    IssueKeepsUsers(options);
    match e
    case LoginEvent(email, password, now, fault) => LoginKeepsCredentials(s, options, email, password, now, fault, id);
    case LogoutEvent(secret, now) => LogoutKeepsUsers(s, secret, now);
    case RefreshEvent(secret, now, fault) => RefreshKeepsUsers(s, options, secret, now, fault);
    case CreateUserEvent(email, password, mustChange, acceptable, fault) =>
      CreateKeepsOthers(s, email, password, mustChange, acceptable, fault, id);
    case UpdateProfileEvent(other, email, acceptable) => UpdateKeepsOthers(s, other, email, acceptable, id);
    case _ =>
  }

  lemma RefreshKeepsUsers(s: Store, options: Options, secret: nat, now: Instant, fault: bool)
    ensures Refresh(s, options, secret, now, fault).0.users == s.users
  {
    hide RevokeId, RevokeFamilyOf;
  }

  lemma CreateKeepsOthers(s: Store, email: string, password: string, mustChange: bool, acceptable: bool, fault: bool, id: Id)
    requires Inv(s) && id in s.users
    ensures var s' := CreateUser(s, email, password, mustChange, acceptable, fault).0; id in s'.users && s'.users[id] == s.users[id]
  {
    hide EmailTaken, Normalize;
  }

  lemma UpdateKeepsOthers(s: Store, other: Id, email: string, acceptable: bool, id: Id)
    requires id in s.users && other != id
    ensures var s' := UpdateProfile(s, other, email, acceptable).0; id in s'.users && s'.users[id] == s.users[id]
  {
    hide EmailTaken, Normalize;
  }

  lemma LogoutKeepsUsers(s: Store, secret: nat, now: Instant)
    ensures Logout(s, secret, now).users == s.users
  {
  }

  lemma {:induction false} RunKeepsCredentials(s: Store, options: Options, events: seq<Event>, id: Id)
    requires Inv(s) && id in s.users && forall e :: e in events ==> !Concerns(e, id)
    ensures SameCredentials(s, RunFrom(s, options, events), id)
  {
    hide Inv, Step, Concerns;
    if events != [] {
      var front, e := events[..|events| - 1], events[|events| - 1];
      assert e in events && forall x :: x in front ==> x in events;
      RunKeepsCredentials(s, options, front, id);
      RunKeepsInv(s, options, front);
      StepKeepsCredentials(RunFrom(s, options, front), options, e, id);
    }
  }

  /** As long as nobody operates on an account, whatever else happens, its address
      goes on accepting the password on record and no other. */
  lemma PasswordHolds(s: Store, options: Options, events: seq<Event>, id: Id, email: string, password: string)
    requires Inv(s) && Answers(s, id, email) && forall e :: e in events ==> !Concerns(e, id)
    ensures Accepts(RunFrom(s, options, events), options, email, password)
       <==> s.users[id].active && s.users[id].passwordHash == Bcrypt(password)
  {
    RunKeepsCredentials(s, options, events, id);
    RunKeepsInv(s, options, events);
    hide Inv, RunFrom, Login, EqualFold, Normalize;
    AcceptedPassword(RunFrom(s, options, events), options, id, email, password);
  }

  /** After a creation the address accepts the given password and no other. */
  lemma AfterCreation(s: Store, options: Options, email: string, password: string, mustChange: bool,
                      events: seq<Event>, tried: string)
    requires Inv(s) && CreateUser(s, email, password, mustChange, true, false).1.Ok?
    requires var id := CreateUser(s, email, password, mustChange, true, false).1.value.id;
             forall e :: e in events ==> !Concerns(e, id)
    ensures var s' := CreateUser(s, email, password, mustChange, true, false).0;
            Accepts(RunFrom(s', options, events), options, Normalize(email), tried) <==> tried == password
  {
    CreateAcceptedIff(s, options, email, password, mustChange, true, false);
    CreateUserKeepsInv(s, email, password, mustChange, true, false);
    var (s', r) := CreateUser(s, email, password, mustChange, true, false);
    hide Inv, CreateUser, RunFrom, Login;
    PasswordHolds(s', options, events, r.value.id, Normalize(email), tried);
  }

  /** After a password change the new one is accepted, while the user is active, and
      no other, the old one included. */
  lemma AfterPasswordChange(s: Store, options: Options, id: Id, email: string, current: string, replacement: string, now: Instant,
                            events: seq<Event>, tried: string)
    requires Inv(s) && Answers(s, id, email) && ChangePassword(s, id, current, replacement, now, false).1.Ok?
    requires forall e :: e in events ==> !Concerns(e, id)
    ensures var s' := ChangePassword(s, id, current, replacement, now, false).0;
            Accepts(RunFrom(s', options, events), options, email, tried) <==> s.users[id].active && tried == replacement
  {
    ChangePasswordAcceptedIff(s, id, current, replacement, now, false);
    ChangePasswordKeepsInv(s, id, current, replacement, now, false);
    hide Inv, ChangePassword, RunFrom, Login, EqualFold, Normalize;
    PasswordHolds(ChangePassword(s, id, current, replacement, now, false).0, options, events, id, email, tried);
  }

  /** A deactivated user is let in with no password; one reactivated with the old one. */
  lemma AfterSetActive(s: Store, options: Options, id: Id, email: string, active: bool, now: Instant,
                       events: seq<Event>, tried: string)
    requires Inv(s) && Answers(s, id, email) && forall e :: e in events ==> !Concerns(e, id)
    ensures var s' := SetActive(s, id, active, now).0;
            Accepts(RunFrom(s', options, events), options, email, tried)
            <==> active && s.users[id].passwordHash == Bcrypt(tried)
  {
    SetActiveKeepsInv(s, id, active, now);
    SetActiveSets(s, id, active, now);
    hide Inv, SetActive, RunFrom, Login, EqualFold, Normalize;
    PasswordHolds(SetActive(s, id, active, now).0, options, events, id, email, tried);
  }

  lemma SetActiveSets(s: Store, id: Id, active: bool, now: Instant)
    ensures var (s', r) := SetActive(s, id, active, now);
            && (r.Ok? <==> id in s.users)
            && s'.users == (if id in s.users then s.users[id := s.users[id].(active := active)] else s.users)
  {
    hide RevokeUserOf;
  }

  /** After a deletion the address is free: no password is accepted. */
  lemma AfterDeletion(s: Store, options: Options, id: Id, email: string, now: Instant, tried: string)
    requires Inv(s) && Answers(s, id, email)
    ensures !Accepts(DeleteUser(s, Some(id), now).0, options, email, tried)
  {
    DeleteUserKeepsInv(s, Some(id), now);
    OnlyOneAnswers(s, id, email);
    var s' := DeleteUser(s, Some(id), now).0;
    assert forall other :: !Answers(s', other, email);
    hide Inv, DeleteUser, Login;
    LoginAcceptedIff(s', options, email, tried, 0);
  }

  lemma OnlyOneAnswers(s: Store, id: Id, email: string)
    requires Inv(s) && Answers(s, id, email)
    ensures forall other :: Answers(s, other, email) ==> other == id
  {
    hide TokensInv, IdsInv, ActiveOwners, Normalize;
  }
}
