/**
  The password hasher and the access token, the two foreign collaborators of
  the handlers, reduced to what the handlers rely on.
 */
module Security {

  import opened Models

  /**
    The pair `generate_password_hash` / `check_password_hash`, left
    uninterpreted: any pair of functions may stand here.
   */
  datatype Hasher = Hasher(hash: Password -> Digest, check: (Digest, Password) -> bool)

  /** The one property assumed of the hasher: a digest verifies against the password it came from. */
  ghost predicate Sound(h: Hasher)
  {
    forall p :: h.check(h.hash(p), p)
  }

  /** Every token is issued with `expires_delta` of one hour. */
  const TOKEN_LIFETIME: int := 3600

  /** A signed access token: its identity claim and its absolute expiry. */
  datatype AccessToken = AccessToken(identity: UserId, expiresAt: int)

  /** `create_access_token(identity=id, expires_delta=timedelta(hours=1))` at time `now`. */
  function IssueToken(id: UserId, now: int): AccessToken
  {
    AccessToken(id, now + TOKEN_LIFETIME)
  }
}
