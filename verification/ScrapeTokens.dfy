/** Freshness of the bound scrape token: when it is minted again and when to look next. */
module ScrapeTokens {
  import opened Options
  import opened Instants

  const DEFAULT_TTL: int := HOUR
  const MIN_REQUEUE: int := MINUTE
  const ROTATION_INTERVAL: int := 15 * MINUTE

  /** A resource version; the API server never hands out an empty one. */
  type Version = v: nat | v > 0 witness 1

  /** A bearer token with the expiry the API server signed into it. */
  datatype Token = Token(id: string, expiry: int)

  /**
   The scrape token Secret. `token` is None when the data key is empty;
   `expiresAt` is the expiry annotation; `adopted` says that the object already
   carries the owner metadata an apply writes, so that applying it again
   changes nothing.
   */
  datatype TokenSecret = TokenSecret(token: Option<Token>, expiresAt: Stamp, adopted: bool, rv: Version)

  predicate NeedsRefresh(secret: Option<TokenSecret>, now: int, ttl: int) {
    if secret.None? || secret.value.token.None? then true
    else
      match secret.value.expiresAt
      case At(expiry) =>
        var remaining := Since(expiry, now);
        remaining <= 0 || remaining <= Half(ttl)
      case _ => true
  }

  function RequeueAfter(secret: TokenSecret, now: int, ttl: int): int {
    match secret.expiresAt
    case At(expiry) =>
      var wait := Since(expiry - Half(ttl), now);
      if wait < MIN_REQUEUE then MIN_REQUEUE else wait
    case _ => MIN_REQUEUE
  }

  /** The refresh instant lies further away than a 64-bit duration can say. */
  predicate BeyondDuration(secret: TokenSecret, now: int, ttl: int) {
    secret.expiresAt.At? && secret.expiresAt.instant - Half(ttl) - now > MAX_DURATION
  }

  /**
   Waking when the requeue delay has passed finds the token due for refresh,
   unless it holds a token whose refresh instant is out of a duration's range.
   */
  lemma RefreshDueAtWake(secret: TokenSecret, now: int, ttl: int)
    requires 0 < ttl <= MAX_DURATION
    ensures NeedsRefresh(Some(secret), now + RequeueAfter(secret, now, ttl), ttl)
            <==> secret.token.None? || !BeyondDuration(secret, now, ttl)
  {
    if secret.expiresAt.At? && BeyondDuration(secret, now, ttl) {
      var left := secret.expiresAt.instant - (now + MAX_DURATION);
      assert RequeueAfter(secret, now, ttl) == MAX_DURATION && left > Half(ttl);
    }
  }

  /** An expiry 300 years ahead: the token is looked at again after 292 years and not due then. */
  lemma RefreshNotDueAtWake(token: Token)
    ensures var secret := TokenSecret(Some(token), At(300 * 365 * 24 * HOUR), true, 1);
            && RequeueAfter(secret, 0, DEFAULT_TTL) == MAX_DURATION
            && !NeedsRefresh(Some(secret), MAX_DURATION, DEFAULT_TTL)
  {
    RefreshDueAtWake(TokenSecret(Some(token), At(300 * 365 * 24 * HOUR), true, 1), 0, DEFAULT_TTL);
  }

  /** The refresh instant is exact: at most half of the lifetime left, never earlier. */
  lemma RefreshNotEarly(secret: TokenSecret, now: int, ttl: int)
    requires 0 < ttl <= MAX_DURATION
    requires secret.token.Some? && secret.expiresAt.At?
    ensures NeedsRefresh(Some(secret), now, ttl) <==> now >= secret.expiresAt.instant - Half(ttl)
  {
    if now < secret.expiresAt.instant - Half(ttl) {
      assert Since(secret.expiresAt.instant, now) > Half(ttl);
    }
  }

  /**
   The delay of a fresh token reaches its refresh instant or the one-minute
   floor, so more than 29 minutes of an hour's token are left at the wake-up.
   */
  lemma FreshTokenOutlivesDelay(secret: TokenSecret, now: int)
    requires !NeedsRefresh(Some(secret), now, DEFAULT_TTL)
    ensures secret.expiresAt.At?
    ensures secret.expiresAt.instant - (now + RequeueAfter(secret, now, DEFAULT_TTL)) > 29 * MINUTE
    ensures secret.expiresAt.instant - now > 30 * MINUTE
  {
    assert Half(DEFAULT_TTL) == 30 * MINUTE;
  }

  /** The stored expiry never exceeds the true one and falls short of it by less than a second. */
  lemma StoredExpiryIsFloor(expiry: int)
    ensures Format(expiry).At?
    ensures Format(expiry).instant <= expiry < Format(expiry).instant + SECOND
    ensures Format(expiry).instant % SECOND == 0
  {
    var q := expiry / SECOND;
    assert expiry - expiry % SECOND == q * SECOND;
  }
}
