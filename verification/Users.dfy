/** User accounts and their in-memory table. */
module Users {
  import opened RefreshTokens
  import opened Text

  const MIN_PASSWORD_LENGTH := 8

  /** The hash of a password: verification is equality. */
  datatype PasswordHash = Bcrypt(password: string)

  datatype User = User(
    id: Id,
    email: string,
    passwordHash: PasswordHash,
    active: bool,
    mustChangePassword: bool,
    lastLoginAt: Option<Instant>)

  type Accounts = map<Id, User>

  datatype UserError = NoError | UserNotFound | UserAlreadyExists

  /** Some stored user other than `except` has this e-mail, up to case. */
  ghost predicate EmailTaken(m: Accounts, email: string, except: Option<Id>) {
    exists id :: id in m && Some(id) != except && EqualFold(m[id].email, email)
  }

  ghost predicate UniqueEmails(m: Accounts) {
    forall a, b :: a in m && b in m && EqualFold(m[a].email, m[b].email) ==> a == b
  }

  /** The user stored under an e-mail address. */
  ghost function UserByEmail(m: Accounts, email: string): Option<User> {
    if EmailTaken(m, Normalize(email), None) then
      var id :| id in m && EqualFold(m[id].email, Normalize(email));
      Some(m[id])
    else None
  }

  class UserRepository {
    var users: Accounts

    constructor ()
      ensures users == map[]
    {
      users := map[];
    }

    method EmailInUse(email: string, except: Option<Id>) returns (taken: bool)
      ensures taken <==> EmailTaken(users, email, except)
    {
      var pending := users.Keys;
      while pending != {}
        invariant pending <= users.Keys
        invariant forall id :: id in users.Keys - pending ==> Some(id) == except || !EqualFold(users[id].email, email)
        decreases pending
      {
        var id :| id in pending;
        pending := pending - {id};
        if Some(id) == except {
          continue;
        }
        if EqualFold(users[id].email, email) {
          return true;
        }
      }
      return false;
    }

    method Create(user: User) returns (err: UserError)
      modifies this
      ensures var email := Normalize(user.email);
              if EmailTaken(old(users), email, None)
              then err == UserAlreadyExists && users == old(users)
              else err == NoError && users == old(users)[user.id := user.(email := email)]
    {
      var email := Normalize(user.email);
      var taken := EmailInUse(email, None);
      if taken {
        return UserAlreadyExists;
      }
      users := users[user.id := user.(email := email)];
      err := NoError;
    }

    method FindByID(id: Id) returns (found: Option<User>)
      ensures found == if id in users then Some(users[id]) else None
    {
      found := if id in users then Some(users[id]) else None;
    }

    /** E-mails being unique, it does not matter in which order the map is read. */
    method FindByEmail(email: string) returns (found: Option<User>)
      requires UniqueEmails(users)
      ensures found == UserByEmail(users, email)
    {
      var normalized := Normalize(email);
      var pending := users.Keys;
      while pending != {}
        invariant pending <= users.Keys
        invariant forall id :: id in users.Keys - pending ==> !EqualFold(users[id].email, normalized)
        decreases pending
      {
        var id :| id in pending;
        pending := pending - {id};
        if EqualFold(users[id].email, normalized) {
          assert EmailTaken(users, normalized, None);
          return Some(users[id]);
        }
      }
      return None;
    }

    method UpdateProfile(id: Id, email: string) returns (err: UserError)
      modifies this
      ensures if id !in old(users) then err == UserNotFound && users == old(users)
              else if EmailTaken(old(users), Normalize(email), Some(id)) then err == UserAlreadyExists && users == old(users)
              else err == NoError && users == old(users)[id := old(users)[id].(email := Normalize(email))]
    {
      if id !in users {
        return UserNotFound;
      }
      var normalized := Normalize(email);
      var taken := EmailInUse(normalized, Some(id));
      if taken {
        return UserAlreadyExists;
      }
      users := users[id := users[id].(email := normalized)];
      err := NoError;
    }

    method UpdatePassword(id: Id, hash: PasswordHash) returns (err: UserError)
      modifies this
      ensures if id !in old(users) then err == UserNotFound && users == old(users)
              else err == NoError
                   && users == old(users)[id := old(users)[id].(passwordHash := hash, mustChangePassword := false)]
    {
      if id !in users {
        return UserNotFound;
      }
      users := users[id := users[id].(passwordHash := hash, mustChangePassword := false)];
      err := NoError;
    }

    method SetActive(id: Id, active: bool) returns (err: UserError)
      modifies this
      ensures if id !in old(users) then err == UserNotFound && users == old(users)
              else err == NoError && users == old(users)[id := old(users)[id].(active := active)]
    {
      if id !in users {
        return UserNotFound;
      }
      users := users[id := users[id].(active := active)];
      err := NoError;
    }

    method TouchLastLogin(id: Id, when: Instant) returns (err: UserError)
      modifies this
      ensures if id !in old(users) then err == UserNotFound && users == old(users)
              else err == NoError && users == old(users)[id := old(users)[id].(lastLoginAt := Some(when))]
    {
      if id !in users {
        return UserNotFound;
      }
      users := users[id := users[id].(lastLoginAt := Some(when))];
      err := NoError;
    }

    method Delete(id: Id)
      modifies this
      ensures users == old(users) - {id}
    {
      users := users - {id};
    }
  }
}
