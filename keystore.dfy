/**
 * The key cache of the handler and the key selection that `ParseWithClaims`
 * calls back into (`selectKey`): look up the `kid` of the token header
 * (section 4.1.4 of RFC 7515) and, on a miss, reload every configured source
 * unless the last reload was at most one minute ago.
 */
module KeyStore {
  import opened Wrappers
  import opened Jwt
  import opened Jwks

  /** `1 * time.Minute`, in nanoseconds like every time value of the model. */
  const OneMinute: int := 60_000_000_000

  /**
   * The mutable state of the handler: the key map and the time of the last
   * reload. `None` is Go's zero `time.Time`, which is always more than a
   * minute in the past.
   */
  datatype KeyCache = KeyCache(keys: map<string, RsaKey>, lastKeyReload: Option<int>)

  datatype KeyError = MissingKid | KidNotString(value: Json) | NoKeyFor(kid: string)

  /** A selection result together with the cache after the selection. */
  datatype Selection = Selection(result: Result<RsaKey, KeyError>, cache: KeyCache)

  /** `time.Since(h.lastKeyReload) > 1*time.Minute`. */
  predicate ReloadDue(c: KeyCache, now: int) {
    c.lastKeyReload.None? || now - c.lastKeyReload.value > OneMinute
  }

  /**
   * `selectKey`. `loadKeys` never fails, so after a reload the time stamp is
   * always set; both clock readings of the source are the one `now`.
   */
  function Select(c: KeyCache, srcs: seq<Source>, header: Claims, fetch: Fetch, now: int): (r: Selection)
    ensures r.result.Success? ==>
      && "kid" in header && header["kid"].JString? && header["kid"].s in r.cache.keys
      && r.result.value == r.cache.keys[header["kid"].s]
    ensures r.cache != c ==> ReloadDue(c, now) && r.cache.lastKeyReload == Some(now)
  {
    if "kid" !in header then Selection(Failure(MissingKid), c)
    else match header["kid"]
      case JString(kid) =>
        if kid in c.keys then Selection(Success(c.keys[kid]), c)
        else if ReloadDue(c, now) then
          var keys := LoadAll(c.keys, srcs, fetch);
          Selection(if kid in keys then Success(keys[kid]) else Failure(NoKeyFor(kid)), KeyCache(keys, Some(now)))
        else Selection(Failure(NoKeyFor(kid)), c)
      case other => Selection(Failure(KidNotString(other)), c)
  }

  /** A missing or non-string `kid` is an error and leaves the cache as it was. */
  lemma SelectRejectsBadKid(c: KeyCache, srcs: seq<Source>, header: Claims, fetch: Fetch, now: int)
    requires "kid" !in header || !header["kid"].JString?
    ensures Select(c, srcs, header, fetch, now).cache == c
    ensures Select(c, srcs, header, fetch, now).result
         == if "kid" !in header then Failure(MissingKid) else Failure(KidNotString(header["kid"]))
  {
  }

  /** A cache hit returns the stored key, with no reload and no new time stamp. */
  lemma SelectHit(c: KeyCache, srcs: seq<Source>, header: Claims, fetch: Fetch, now: int, kid: string)
    requires "kid" in header && header["kid"] == JString(kid) && kid in c.keys
    ensures Select(c, srcs, header, fetch, now) == Selection(Success(c.keys[kid]), c)
  {
  }

  /**
   * A miss more than a minute after the last reload reloads every source
   * exactly once, stamps the reload with `now` and retries the lookup once.
   */
  lemma SelectMissReloads(c: KeyCache, srcs: seq<Source>, header: Claims, fetch: Fetch, now: int, kid: string)
    requires "kid" in header && header["kid"] == JString(kid) && kid !in c.keys
    requires ReloadDue(c, now)
    ensures var s := Select(c, srcs, header, fetch, now);
      && s.cache == KeyCache(LoadAll(c.keys, srcs, fetch), Some(now))
      && (s.result.Success? <==> kid in s.cache.keys)
      && (s.result.Success? ==> s.result.value == s.cache.keys[kid])
      && (s.result.Failure? ==> s.result.error == NoKeyFor(kid))
  {
  }

  /** A miss within a minute of the last reload fails without a reload. */
  lemma SelectMissRateLimited(c: KeyCache, srcs: seq<Source>, header: Claims, fetch: Fetch, now: int, kid: string)
    requires "kid" in header && header["kid"] == JString(kid) && kid !in c.keys
    requires !ReloadDue(c, now)
    ensures Select(c, srcs, header, fetch, now) == Selection(Failure(NoKeyFor(kid)), c)
  {
  }

  /**
   * Whatever happens, no key is evicted, the time stamp either stays or
   * becomes `now`, and a returned key is the one the cache now holds for the
   * token's identifier.
   */
  lemma SelectInvariants(c: KeyCache, srcs: seq<Source>, header: Claims, fetch: Fetch, now: int)
    ensures var s := Select(c, srcs, header, fetch, now);
      && c.keys.Keys <= s.cache.keys.Keys
      && (s.cache.lastKeyReload == c.lastKeyReload || s.cache.lastKeyReload == Some(now))
      && (s.result.Success? ==>
            "kid" in header && header["kid"].JString? && header["kid"].s in s.cache.keys
            && s.result.value == s.cache.keys[header["kid"].s])
  {
    if "kid" in header && header["kid"].JString? && header["kid"].s !in c.keys && ReloadDue(c, now) {
      LoadAllGrows(c.keys, srcs, fetch);
    }
  }

  /**
   * Rate limiting: once a selection has reloaded the keys, no selection in
   * the following minute changes the cache, whatever token it is for.
   */
  lemma NoSecondReloadWithinMinute(
    c: KeyCache, srcs: seq<Source>, h1: Claims, h2: Claims, fetch1: Fetch, fetch2: Fetch, t1: int, t2: int)
    requires Select(c, srcs, h1, fetch1, t1).cache.lastKeyReload != c.lastKeyReload
    requires t2 - t1 <= OneMinute
    ensures var c1 := Select(c, srcs, h1, fetch1, t1).cache;
      Select(c1, srcs, h2, fetch2, t2).cache == c1
  {
  }
}
