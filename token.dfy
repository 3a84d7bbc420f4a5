/** The persisted records: long-lived credentials and a cached access token
    with its absolute expiry instant. */
module TokenCache {

  /** `Token`: the credentials read from the configuration file. */
  datatype Token = Token(clientId: string, clientSecret: string, spDc: string)

  /** An instant on the UTC time line, as a count of a fixed unit since the
      epoch (`DateTime<Utc>`); negative counts lie before the epoch. */
  type Instant = int

  /** `Cache`: an access token and the instant it stops being valid. */
  datatype Cache = Cache(accessToken: string, expiresAt: Instant)

  /** `Cache::is_expired`, with the current instant given. The comparison
      is strict: a cache is still good up to and including its expiry
      instant. */
  predicate IsExpired(c: Cache, now: Instant): (expired: bool)
    ensures !expired <==> now <= c.expiresAt
  {
    c.expiresAt < now
  }

  /** The comparison is strict: at its own expiry instant a cache is not yet
      expired, and one unit later it is. */
  lemma ExpiryBoundary(c: Cache)
    ensures !IsExpired(c, c.expiresAt)
    ensures IsExpired(c, c.expiresAt + 1)
  {
  }

  /** Expiry is monotone in time: once expired, expired at every later
      instant, and not expired at `now`, not expired at any earlier
      instant. */
  lemma ExpiryMonotone(c: Cache, now: Instant, later: Instant)
    requires now <= later
    ensures IsExpired(c, now) ==> IsExpired(c, later)
    ensures !IsExpired(c, later) ==> !IsExpired(c, now)
  {
  }

  /** Only the expiry instant matters: two caches with the same expiry
      instant agree on expiry at every instant, whatever their tokens. */
  lemma ExpiryIgnoresToken(c1: Cache, c2: Cache, now: Instant)
    requires c1.expiresAt == c2.expiresAt
    ensures IsExpired(c1, now) == IsExpired(c2, now)
  {
  }
}
