/** The session and account use cases as they run, on repositories they update in
    place. Every method is tied to the function of the store that the proofs are
    about. Failures of the id generator, the signer and the random source before
    anything is stored are an input, `fault`. */
module AuthService {
  import opened RefreshTokens
  import opened Users
  import opened Text
  import opened Sessions
  import opened SessionProofs

  /** The supply of identifiers and secrets. */
  class FreshSource {
    var next: nat

    constructor ()
      ensures next == 0
    {
      next := 0;
    }

    method Draw() returns (value: nat)
      modifies this
      ensures value == old(next) && next == old(next) + 1
    {
      value := next;
      next := next + 1;
    }
  }

  class Auth {
    const users: UserRepository
    const refresh: RefreshTokenRepository
    const ids: FreshSource
    const options: Options

    constructor (users: UserRepository, refresh: RefreshTokenRepository, ids: FreshSource, options: Options)
      ensures this.users == users && this.refresh == refresh && this.ids == ids && this.options == options
    {
      this.users := users;
      this.refresh := refresh;
      this.ids := ids;
      this.options := options;
    }

    ghost function Snapshot(): Store
      reads users, refresh, ids
    {
      Store(users.users, refresh.tokens, ids.next)
    }

    method IssueSession(userId: Id, now: Instant, rotation: Rotation, fault: bool) returns (r: Result<Session>)
      requires Inv(Snapshot())
      modifies refresh, ids
      ensures (Snapshot(), r) == IssueUnless(fault, old(Snapshot()), options, userId, now, rotation)
    {
      hide Inv, RevokeId;
      if fault {
        return Err(Internal);
      }
      var accessId := ids.Draw();
      var refreshId := ids.Draw();
      var family: Id;
      if rotation.Rotate? {
        family := rotation.family;
      } else {
        family := ids.Draw();
      }
      var secret := ids.Draw();
      var expiry := now + options.Ttl();
      CreatedIdsUnique(old(Snapshot()), Digest(secret), Token(refreshId, userId, family, expiry, None, None));
      refresh.Create(Digest(secret), Token(refreshId, userId, family, expiry, None, None));
      if rotation.Rotate? {
        refresh.Revoke(rotation.superseded, Some(refreshId), now);
      }
      r := Ok(Session(userId, refreshId, secret, family, expiry));
    }

    method Login(email: string, password: string, now: Instant, fault: bool) returns (r: Result<Session>)
      requires Inv(Snapshot())
      modifies users, refresh, ids
      ensures (Snapshot(), r) == Sessions.Login(old(Snapshot()), options, email, password, now, fault)
    {
      InvGivesUniqueEmails(Snapshot());
      hide Inv, IssueUnless;
      var user := users.FindByEmail(email);
      if user.None? {
        return Err(InvalidCredentials);
      }
      if !user.value.active {
        return Err(InvalidCredentials);
      }
      if user.value.passwordHash != Bcrypt(password) {
        return Err(InvalidCredentials);
      }
      TouchedKeepsInv(Snapshot(), user.value.id, now);
      var err := users.TouchLastLogin(user.value.id, now);
      r := IssueSession(user.value.id, now, NewFamily, fault);
    }

    method Refresh(secret: nat, now: Instant, fault: bool) returns (r: Result<Session>)
      requires Inv(Snapshot())
      modifies refresh, ids
      ensures (Snapshot(), r) == Sessions.Refresh(old(Snapshot()), options, secret, now, fault)
    {
      hide Inv, IssueUnless;
      var token := refresh.FindByHash(Digest(secret));
      if token.None? {
        return Err(InvalidRefreshToken);
      }
      if token.value.Revoked() {
        refresh.RevokeFamily(token.value.family, now);
        return Err(InvalidRefreshToken);
      }
      if token.value.Expired(now) {
        return Err(InvalidRefreshToken);
      }
      var user := users.FindByID(token.value.userId);
      if user.None? || !user.value.active {
        return Err(InvalidRefreshToken);
      }
      r := IssueSession(token.value.userId, now, Rotate(token.value.family, token.value.id), fault);
    }

    method StartSessionForUser(user: User, now: Instant, fault: bool) returns (r: Result<Session>)
      requires Inv(Snapshot())
      modifies users, refresh, ids
      ensures (Snapshot(), r) == Sessions.StartSession(old(Snapshot()), options, user, now, fault)
    {
      hide Inv, IssueUnless;
      if !user.active {
        return Err(InvalidCredentials);
      }
      TouchedKeepsInv(Snapshot(), user.id, now);
      var err := users.TouchLastLogin(user.id, now);
      r := IssueSession(user.id, now, NewFamily, fault);
    }

    method Logout(secret: nat, now: Instant)
      requires Inv(Snapshot())
      modifies refresh
      ensures Snapshot() == Sessions.Logout(old(Snapshot()), secret, now)
    {
      var token := refresh.FindByHash(Digest(secret));
      if token.None? {
        return;
      }
      if token.value.Revoked() {
        return;
      }
      refresh.Revoke(token.value.id, None, now);
    }

    method ChangePassword(userId: Id, current: string, replacement: string, now: Instant, fault: bool) returns (r: Result<()>)
      modifies users, refresh
      ensures (Snapshot(), r) == Sessions.ChangePassword(old(Snapshot()), userId, current, replacement, now, fault)
    {
      if |replacement| < MIN_PASSWORD_LENGTH {
        return Err(InvalidUser);
      }
      var user := users.FindByID(userId);
      if user.None? {
        return Err(NoSuchUser);
      }
      if user.value.passwordHash != Bcrypt(current) {
        return Err(InvalidCredentials);
      }
      if fault {
        return Err(Internal);
      }
      var err := users.UpdatePassword(userId, Bcrypt(replacement));
      refresh.RevokeAllForUser(userId, now);
      r := Ok(());
    }

    method UpdateProfile(userId: Id, email: string, acceptable: bool) returns (r: Result<User>)
      modifies users
      ensures (Snapshot(), r) == Sessions.UpdateProfile(old(Snapshot()), userId, email, acceptable)
    {
      if !acceptable {
        return Err(InvalidUser);
      }
      var user := users.FindByID(userId);
      if user.None? {
        return Err(NoSuchUser);
      }
      var err := users.UpdateProfile(userId, Normalize(email));
      if err.UserAlreadyExists? {
        return Err(EmailExists);
      }
      user := users.FindByID(userId);
      r := Ok(user.value);
    }
  }

  /** Administration of accounts, on the same repositories. */
  class UserAdmin {
    const auth: Auth

    constructor (auth: Auth)
      ensures this.auth == auth
    {
      this.auth := auth;
    }

    method CreateWithOptions(email: string, password: string, mustChange: bool, acceptable: bool, fault: bool) returns (r: Result<User>)
      modifies auth.users, auth.ids
      ensures (auth.Snapshot(), r) == Sessions.CreateUser(old(auth.Snapshot()), email, password, mustChange, acceptable, fault)
    {
      if !acceptable || |password| < MIN_PASSWORD_LENGTH {
        return Err(InvalidUser);
      }
      if fault {
        return Err(Internal);
      }
      var id := auth.ids.Draw();
      var user := User(id, Normalize(email), Bcrypt(password), true, mustChange, None);
      var err := auth.users.Create(user);
      if err.UserAlreadyExists? {
        return Err(EmailExists);
      }
      r := Ok(user);
    }

    method SetActive(id: Id, active: bool, now: Instant) returns (r: Result<User>)
      modifies auth.users, auth.refresh
      ensures (auth.Snapshot(), r) == Sessions.SetActive(old(auth.Snapshot()), id, active, now)
    {
      var err := auth.users.SetActive(id, active);
      if err.UserNotFound? {
        return Err(NoSuchUser);
      }
      if !active {
        auth.refresh.RevokeAllForUser(id, now);
      }
      var user := auth.users.FindByID(id);
      r := Ok(user.value);
    }

    method Delete(cleaned: Option<Id>, now: Instant) returns (r: Result<()>)
      modifies auth.users, auth.refresh
      ensures (auth.Snapshot(), r) == Sessions.DeleteUser(old(auth.Snapshot()), cleaned, now)
    {
      if cleaned.None? {
        return Err(NoSuchUser);
      }
      auth.refresh.RevokeAllForUser(cleaned.value, now);
      auth.users.Delete(cleaned.value);
      r := Ok(());
    }
  }

  lemma CreatedIdsUnique(s: Store, hash: Digest, token: Token)
    requires Inv(s) && token.id >= s.next
    ensures UniqueTokenIds(s.tokens[hash := token])
  {
  }

  lemma InvGivesUniqueEmails(s: Store)
    requires Inv(s)
    ensures UniqueEmails(s.users)
  {
  }
}
