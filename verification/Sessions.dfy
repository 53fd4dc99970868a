/** Sessions: login, refresh with rotation and reuse detection, logout, and the
    account operations that end sessions. Each use-case call is one step on a
    store of users and refresh tokens; a run is any sequence of steps. Fresh
    identifiers and secrets come from one supply that never repeats. */
module Sessions {
  import opened RefreshTokens
  import opened Users
  import opened Text

  const DEFAULT_REFRESH_TTL: Instant := 7 * 24 * 3600 * 1_000_000_000

  datatype Store = Store(users: Accounts, tokens: Tokens, next: nat)

  datatype Session = Session(userId: Id, refreshId: Id, secret: nat, family: Id, expiresAt: Instant)

  datatype AuthError = InvalidCredentials | InvalidRefreshToken | InvalidUser | NoSuchUser | EmailExists | Internal

  datatype Result<+T> = Ok(value: T) | Err(error: AuthError)

  datatype Options = Options(refreshTtl: Instant) {
    function Ttl(): Instant {
      if refreshTtl <= 0 then DEFAULT_REFRESH_TTL else refreshTtl
    }
  }

  datatype Rotation = NewFamily | Rotate(family: Id, superseded: Id)

  // ---------------------------------------------------------------------
  // The use cases, as functions of the store
  // ---------------------------------------------------------------------

  /** Draws the access-token id, the refresh id, a family id if needed and the
      secret, stores the new token, then revokes the one it replaces. */
  function Issue(s: Store, options: Options, userId: Id, now: Instant, rotation: Rotation): (Store, Session) {
    var refreshId := s.next + 1;
    var family := if rotation.Rotate? then rotation.family else s.next + 2;
    var secret := if rotation.Rotate? then s.next + 2 else s.next + 3;
    var token := Token(refreshId, userId, family, now + options.Ttl(), None, None);
    var created := s.tokens[Digest(secret) := token];
    var tokens := if rotation.Rotate? then RevokeId(created, rotation.superseded, Some(refreshId), now) else created;
    (Store(s.users, tokens, secret + 1), Session(userId, refreshId, secret, family, now + options.Ttl()))
  }

  function IssueUnless(fault: bool, s: Store, options: Options, userId: Id, now: Instant, rotation: Rotation): (Store, Result<Session>) {
    if fault then (s, Err(Internal))
    else
      var (s', session) := Issue(s, options, userId, now, rotation);
      (s', Ok(session))
  }

  function Touched(s: Store, id: Id, now: Instant): Store {
    if id in s.users then s.(users := s.users[id := s.users[id].(lastLoginAt := Some(now))]) else s
  }

  ghost function Login(s: Store, options: Options, email: string, password: string, now: Instant, fault: bool): (Store, Result<Session>) {
    var user := UserByEmail(s.users, email);
    if user.None? || !user.value.active || user.value.passwordHash != Bcrypt(password)
    then (s, Err(InvalidCredentials))
    else IssueUnless(fault, Touched(s, user.value.id, now), options, user.value.id, now, NewFamily)
  }

  function Refresh(s: Store, options: Options, secret: nat, now: Instant, fault: bool): (Store, Result<Session>) {
    var hash := Digest(secret);
    if hash !in s.tokens then (s, Err(InvalidRefreshToken))
    else
      var token := s.tokens[hash];
      if token.Revoked() then (s.(tokens := RevokeFamilyOf(s.tokens, token.family, now)), Err(InvalidRefreshToken))
      else if token.Expired(now) || token.userId !in s.users || !s.users[token.userId].active
      then (s, Err(InvalidRefreshToken))
      else IssueUnless(fault, s, options, token.userId, now, Rotate(token.family, token.id))
  }

  function StartSession(s: Store, options: Options, user: User, now: Instant, fault: bool): (Store, Result<Session>) {
    if !user.active then (s, Err(InvalidCredentials))
    else IssueUnless(fault, Touched(s, user.id, now), options, user.id, now, NewFamily)
  }

  function Logout(s: Store, secret: nat, now: Instant): Store {
    var hash := Digest(secret);
    if hash !in s.tokens || s.tokens[hash].Revoked() then s
    else s.(tokens := RevokeId(s.tokens, s.tokens[hash].id, None, now))
  }

  function ChangePassword(s: Store, userId: Id, current: string, replacement: string, now: Instant, fault: bool): (Store, Result<()>) {
    if |replacement| < MIN_PASSWORD_LENGTH then (s, Err(InvalidUser))
    else if userId !in s.users then (s, Err(NoSuchUser))
    else if s.users[userId].passwordHash != Bcrypt(current) then (s, Err(InvalidCredentials))
    else if fault then (s, Err(Internal))
    else
      var user := s.users[userId].(passwordHash := Bcrypt(replacement), mustChangePassword := false);
      (s.(users := s.users[userId := user], tokens := RevokeUserOf(s.tokens, userId, now)), Ok(()))
  }

  /** `acceptable`: the address parses and the role is known. */
  ghost function CreateUser(s: Store, email: string, password: string, mustChange: bool, acceptable: bool, fault: bool): (Store, Result<User>) {
    if !acceptable || |password| < MIN_PASSWORD_LENGTH then (s, Err(InvalidUser))
    else if fault then (s, Err(Internal))
    else
      var address := Normalize(Normalize(email));
      var user := User(s.next, address, Bcrypt(password), true, mustChange, None);
      if EmailTaken(s.users, address, None) then (s.(next := s.next + 1), Err(EmailExists))
      else (s.(users := s.users[s.next := user], next := s.next + 1), Ok(user.(email := Normalize(email))))
  }

  ghost function UpdateProfile(s: Store, userId: Id, email: string, acceptable: bool): (Store, Result<User>) {
    if !acceptable then (s, Err(InvalidUser))
    else if userId !in s.users then (s, Err(NoSuchUser))
    else
      var address := Normalize(Normalize(email));
      if EmailTaken(s.users, address, Some(userId)) then (s, Err(EmailExists))
      else
        var user := s.users[userId].(email := address);
        (s.(users := s.users[userId := user]), Ok(user))
  }

  function SetActive(s: Store, userId: Id, active: bool, now: Instant): (Store, Result<User>) {
    if userId !in s.users then (s, Err(NoSuchUser))
    else
      var user := s.users[userId].(active := active);
      (s.(users := s.users[userId := user],
          tokens := if active then s.tokens else RevokeUserOf(s.tokens, userId, now)), Ok(user))
  }

  /** What is left of the id after trimming, if anything, is deleted. */
  function DeleteUser(s: Store, cleaned: Option<Id>, now: Instant): (Store, Result<()>) {
    match cleaned
    case None => (s, Err(NoSuchUser))
    case Some(userId) => (s.(tokens := RevokeUserOf(s.tokens, userId, now), users := s.users - {userId}), Ok(()))
  }

  // ---------------------------------------------------------------------
  // Runs
  // ---------------------------------------------------------------------

  datatype Event =
    | LoginEvent(email: string, password: string, now: Instant, fault: bool)
    | RefreshEvent(secret: nat, now: Instant, fault: bool)
    | StartSessionEvent(user: User, now: Instant, fault: bool)
    | LogoutEvent(secret: nat, now: Instant)
    | ChangePasswordEvent(userId: Id, current: string, replacement: string, now: Instant, fault: bool)
    | CreateUserEvent(email: string, password: string, mustChange: bool, acceptable: bool, fault: bool)
    | UpdateProfileEvent(userId: Id, email: string, acceptable: bool)
    | SetActiveEvent(userId: Id, active: bool, now: Instant)
    | DeleteUserEvent(cleaned: Option<Id>, now: Instant)

  /** Setup starts a session with the record it has just stored; a caller with
      any other record is not one of these runs. */
  predicate Allowed(s: Store, e: Event) {
    e.StartSessionEvent? ==> e.user.id in s.users && s.users[e.user.id] == e.user
  }

  ghost function Step(s: Store, options: Options, e: Event): Store {
    if !Allowed(s, e) then s
    else match e
      case LoginEvent(email, password, now, fault) => Login(s, options, email, password, now, fault).0
      case RefreshEvent(secret, now, fault) => Refresh(s, options, secret, now, fault).0
      case StartSessionEvent(user, now, fault) => StartSession(s, options, user, now, fault).0
      case LogoutEvent(secret, now) => Logout(s, secret, now)
      case ChangePasswordEvent(id, current, replacement, now, fault) => ChangePassword(s, id, current, replacement, now, fault).0
      case CreateUserEvent(email, password, mustChange, acceptable, fault) =>
        CreateUser(s, email, password, mustChange, acceptable, fault).0
      case UpdateProfileEvent(id, email, acceptable) => UpdateProfile(s, id, email, acceptable).0
      case SetActiveEvent(id, active, now) => SetActive(s, id, active, now).0
      case DeleteUserEvent(cleaned, now) => DeleteUser(s, cleaned, now).0
  }

  const EMPTY := Store(map[], map[], 0)

  ghost function RunFrom(s: Store, options: Options, events: seq<Event>): Store {
    if events == [] then s
    else Step(RunFrom(s, options, events[..|events| - 1]), options, events[|events| - 1])
  }

  // ---------------------------------------------------------------------
  // What every reachable store satisfies
  // ---------------------------------------------------------------------

  ghost predicate UsersInv(s: Store) {
    && UniqueEmails(s.users)
    && (forall id :: id in s.users ==> s.users[id].id == id && id < s.next)
  }

  ghost predicate IdsInv(s: Store) {
    && UniqueTokenIds(s.tokens)
    && (forall h :: h in s.tokens ==>
          h.secret < s.next && s.tokens[h].id < s.next && s.tokens[h].userId < s.next && s.tokens[h].family < s.next)
  }

  /** At most one unrevoked token per family. */
  ghost predicate OneActivePerFamily(m: Tokens) {
    forall g, h :: g in m && h in m && m[g].family == m[h].family && !m[g].Revoked() && !m[h].Revoked() ==> g == h
  }

  ghost predicate OneUserPerFamily(m: Tokens) {
    forall g, h :: g in m && h in m && m[g].family == m[h].family ==> m[g].userId == m[h].userId
  }

  ghost predicate ActiveNotReplaced(m: Tokens) {
    forall h :: h in m && !m[h].Revoked() ==> m[h].replacedBy.None?
  }

  /** `next` is the token issued right after `t` in the family of `t`. */
  ghost predicate Succeeds(m: Tokens, t: Token, next: Token) {
    && next.family == t.family
    && t.id < next.id
    && (forall g :: g in m && m[g].family == t.family && t.id < m[g].id ==> next.id <= m[g].id)
  }

  ghost predicate LastOfFamily(m: Tokens, t: Token) {
    forall g :: g in m && m[g].family == t.family ==> m[g].id <= t.id
  }

  /** The replacement links of a family run through all its tokens in the order
      they were issued: each token names its immediate successor, the last none. */
  ghost predicate SingleChain(m: Tokens) {
    forall h :: h in m ==> ChainLink(m, m[h])
  }

  ghost predicate ChainLink(m: Tokens, t: Token) {
    match t.replacedBy
    case None => LastOfFamily(m, t)
    case Some(r) => exists g :: g in m && m[g].id == r && Succeeds(m, t, m[g])
  }

  /** Every unrevoked token belongs to a stored, active user. */
  ghost predicate ActiveOwners(s: Store) {
    forall h :: h in s.tokens && !s.tokens[h].Revoked()
      ==> s.tokens[h].userId in s.users && s.users[s.tokens[h].userId].active
  }

  ghost predicate TokensInv(m: Tokens) {
    OneActivePerFamily(m) && OneUserPerFamily(m) && ActiveNotReplaced(m) && SingleChain(m)
  }

  ghost predicate Inv(s: Store) {
    UsersInv(s) && IdsInv(s) && TokensInv(s.tokens) && ActiveOwners(s)
  }
}
