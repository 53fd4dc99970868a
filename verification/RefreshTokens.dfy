/** Refresh tokens and the in-memory table they are stored in, keyed by hash. */
module RefreshTokens {

  type Id = nat
  type Instant = int

  datatype Option<+T> = None | Some(value: T)

  /** The digest of a secret. A free constructor: no two secrets collide. */
  datatype Digest = Digest(secret: nat)

  datatype Token = Token(
    id: Id,
    userId: Id,
    family: Id,
    expiresAt: Instant,
    revokedAt: Option<Instant>,
    replacedBy: Option<Id>)
  {
    predicate Revoked() {
      revokedAt.Some?
    }

    predicate Expired(now: Instant) {
      expiresAt <= now
    }
  }

  type Tokens = map<Digest, Token>

  // ---------------------------------------------------------------------
  // What each operation does to the table
  // ---------------------------------------------------------------------

  function Stamp(t: Token, when: Instant, replacedBy: Option<Id>): Token {
    t.(revokedAt := Some(when), replacedBy := replacedBy)
  }

  /** Revoke the active token with this id. */
  function RevokeId(m: Tokens, id: Id, replacedBy: Option<Id>, when: Instant): Tokens {
    map h | h in m :: if m[h].id == id && !m[h].Revoked() then Stamp(m[h], when, replacedBy) else m[h]
  }

  /** Revoke the active tokens of a family; what replaced them is left alone. */
  function RevokeFamilyOf(m: Tokens, family: Id, when: Instant): Tokens {
    map h | h in m :: if m[h].family == family && !m[h].Revoked() then Stamp(m[h], when, m[h].replacedBy) else m[h]
  }

  function RevokeUserOf(m: Tokens, userId: Id, when: Instant): Tokens {
    map h | h in m :: if m[h].userId == userId && !m[h].Revoked() then Stamp(m[h], when, m[h].replacedBy) else m[h]
  }

  ghost predicate UniqueTokenIds(m: Tokens) {
    forall g, h :: g in m && h in m && m[g].id == m[h].id ==> g == h
  }

  class RefreshTokenRepository {
    var tokens: Tokens

    constructor ()
      ensures tokens == map[]
    {
      tokens := map[];
    }

    method Create(hash: Digest, token: Token)
      modifies this
      ensures tokens == old(tokens)[hash := token]
    {
      tokens := tokens[hash := token];
    }

    method FindByHash(hash: Digest) returns (found: Option<Token>)
      ensures found == if hash in tokens then Some(tokens[hash]) else None
    {
      found := if hash in tokens then Some(tokens[hash]) else None;
    }

    /** Stops at the first active token with the id, in whatever order the map
        is read; ids being unique, the order does not matter. */
    method Revoke(id: Id, replacedBy: Option<Id>, when: Instant)
      requires UniqueTokenIds(tokens)
      modifies this
      ensures tokens == RevokeId(old(tokens), id, replacedBy, when)
    {
      var pending := tokens.Keys;
      while pending != {}
        invariant pending <= tokens.Keys && tokens == old(tokens)
        invariant forall h :: h in tokens.Keys - pending ==> tokens[h].id != id || tokens[h].Revoked()
        decreases pending
      {
        var hash :| hash in pending;
        pending := pending - {hash};
        var token := tokens[hash];
        if token.id != id || token.Revoked() {
          continue;
        }
        token := token.(revokedAt := Some(when));
        token := token.(replacedBy := replacedBy);
        tokens := tokens[hash := token];
        assert tokens == RevokeId(old(tokens), id, replacedBy, when);
        return;
      }
    }

    method RevokeFamily(family: Id, when: Instant)
      modifies this
      ensures tokens == RevokeFamilyOf(old(tokens), family, when)
    {
      var pending := tokens.Keys;
      while pending != {}
        invariant pending <= old(tokens).Keys && tokens.Keys == old(tokens).Keys
        invariant forall h :: h in pending ==> tokens[h] == old(tokens)[h]
        invariant forall h :: h in tokens.Keys - pending ==> tokens[h] == RevokeFamilyOf(old(tokens), family, when)[h]
        decreases pending
      {
        var hash :| hash in pending;
        pending := pending - {hash};
        var token := tokens[hash];
        if token.family != family || token.Revoked() {
          continue;
        }
        token := token.(revokedAt := Some(when));
        tokens := tokens[hash := token];
      }
    }

    method RevokeAllForUser(userId: Id, when: Instant)
      modifies this
      ensures tokens == RevokeUserOf(old(tokens), userId, when)
    {
      var pending := tokens.Keys;
      while pending != {}
        invariant pending <= old(tokens).Keys && tokens.Keys == old(tokens).Keys
        invariant forall h :: h in pending ==> tokens[h] == old(tokens)[h]
        invariant forall h :: h in tokens.Keys - pending ==> tokens[h] == RevokeUserOf(old(tokens), userId, when)[h]
        decreases pending
      {
        var hash :| hash in pending;
        pending := pending - {hash};
        var token := tokens[hash];
        if token.userId != userId || token.Revoked() {
          continue;
        }
        token := token.(revokedAt := Some(when));
        tokens := tokens[hash := token];
      }
    }
  }
}
