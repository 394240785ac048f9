/**
 * The authentication handler: a request whose path is public goes straight
 * to the next handler; any other request must carry an `Authorization`
 * header with a `Bearer` token (section 2.1 of RFC 6750) that the token
 * library accepts with a key of the handler's key cache, whose `typ`, `iat`
 * and `exp` claims are in order and that satisfies the access-control list.
 * The first check that fails answers 401 and the next handler is not called.
 */
module Authentication {
  import opened Wrappers
  import opened Ascii
  import opened Jwt
  import opened BearerHeader
  import opened Jwks
  import opened KeyStore
  import opened Reasons
  import ClaimChecks
  import opened ErrorReply
  import Config

  /** What the library reads from the text of a token before it asks for a key. */
  datatype Parsed = Parsed(header: Claims, claims: Claims)

  /**
   * The token library. `parse` splits and decodes a token, failing with the
   * library's own error. `validate` is what the library does once it has a
   * key: its clock-based checks of `exp`, `iat` and `nbf` and the RSA check of
   * the signature, giving the flags it raises (none for a valid token).
   */
  datatype JwtLibrary = JwtLibrary(
    parse: string -> Result<Parsed, LibraryError>,
    validate: (string, Parsed, RsaKey) -> set<ValidationFlag>)

  /**
   * The oracles a request is served with: the regular-expression engine, the
   * token library and the fetching of key sets should a reload happen.
   */
  datatype Services = Services(matches: ClaimChecks.Matcher, jwt: JwtLibrary, fetch: Fetch)

  /** The parts of an HTTP request the handler reads. */
  datatype Request = Request(path: string, authorization: string)

  /**
   * What the handler does with a request: call the next handler, with the
   * token in the context when one was checked, or send a 401 reply.
   */
  datatype Response = CallNext(token: Option<Token>) | SendError(reply: Reply)

  /** A result together with the key cache after computing it. */
  datatype Checked = Checked(result: Result<Token, Reason>, cache: KeyCache)
  datatype Served = Served(response: Response, cache: KeyCache)

  // ---------------------------------------------------------------------------
  // The specification of a request.

  /** Some public pattern matches the path. */
  predicate IsPublic(publicPaths: seq<string>, path: string, matches: ClaimChecks.Matcher)
    ensures IsPublic(publicPaths, path, matches) <==> exists i :: 0 <= i < |publicPaths| && matches(publicPaths[i], path)
  {
    if publicPaths == [] then false
    else
      assert forall i :: 1 <= i < |publicPaths| ==> publicPaths[1..][i - 1] == publicPaths[i];
      matches(publicPaths[0], path) || IsPublic(publicPaths[1..], path, matches)
  }

  /**
   * The header checks of `ServeHTTP`: present, split by the fixed pattern,
   * scheme `Bearer` in any case; the result is the token text.
   */
  function HeaderStage(authorization: string): (r: Result<string, Reason>)
    ensures authorization == "" ==> r == Failure(MissingAuthorization)
    ensures authorization != "" && Split(authorization).None? ==> r == Failure(MalformedAuthorization(authorization))
    ensures Split(authorization).Some? && !EqualFold(Split(authorization).value.scheme, "Bearer")
            ==> r == Failure(UnsupportedAuthType(Split(authorization).value.scheme))
    ensures r.Success? ==>
      && Split(authorization).Some?
      && EqualFold(Split(authorization).value.scheme, "Bearer")
      && r.value == Split(authorization).value.credential
  {
    if authorization == "" then Failure(MissingAuthorization)
    else match Split(authorization)
      case None => Failure(MalformedAuthorization(authorization))
      case Some(cr) =>
        if !EqualFold(cr.scheme, "Bearer") then Failure(UnsupportedAuthType(cr.scheme))
        else Success(cr.credential)
  }

  /**
   * `checkToken` around `ParseWithClaims` with `selectKey` as the key
   * function. A key that cannot be selected makes the library fail with the
   * `Unverifiable` flag; the library's failures are mapped to reasons by
   * priority.
   */
  function TokenStage(c: KeyCache, srcs: seq<Source>, svc: Services, bearer: string, now: int): (r: Checked)
    ensures svc.jwt.parse(bearer).Failure? ==> r.cache == c && r.result.Failure?
    ensures svc.jwt.parse(bearer).Success? ==>
      r.cache == Select(c, srcs, svc.jwt.parse(bearer).value.header, svc.fetch, now).cache
    ensures r.result.Success? ==>
      && svc.jwt.parse(bearer).Success?
      && var p := svc.jwt.parse(bearer).value;
      && r.result.value == Token(bearer, p.header, p.claims)
      && "kid" in p.header && p.header["kid"].JString? && p.header["kid"].s in r.cache.keys
      && svc.jwt.validate(bearer, p, r.cache.keys[p.header["kid"].s]) == {}
    ensures r.result.Failure? ==> IsTokenReason(r.result.error)
    ensures svc.jwt.parse(bearer).Failure? ==>
      r.result == Failure(TokenFailureReason(svc.jwt.parse(bearer).error))
    ensures svc.jwt.parse(bearer).Success? ==>
      var p := svc.jwt.parse(bearer).value;
      var s := Select(c, srcs, p.header, svc.fetch, now);
      && (s.result.Failure? ==> r.result == Failure(TokenUnverifiable))
      && (s.result.Success? && svc.jwt.validate(bearer, p, s.result.value) != {} ==>
            r.result == Failure(TokenFailureReason(ValidationError(svc.jwt.validate(bearer, p, s.result.value)))))
  {
    match svc.jwt.parse(bearer)
    case Failure(e) => Checked(Failure(TokenFailureReason(e)), c)
    case Success(p) =>
      var s := Select(c, srcs, p.header, svc.fetch, now);
      match s.result
      case Failure(_) => Checked(Failure(TokenFailureReason(ValidationError({Unverifiable}))), s.cache)
      case Success(key) =>
        var flags := svc.jwt.validate(bearer, p, key);
        if flags == {} then Checked(Success(Token(bearer, p.header, p.claims)), s.cache)
        else Checked(Failure(TokenFailureReason(ValidationError(flags))), s.cache)
  }

  /** `ServeHTTP`: the stages in order, the first failure answered with its reason. */
  function Serve(c: KeyCache, settings: Config.Settings, req: Request, svc: Services, now: int): (r: Served)
    ensures IsPublic(settings.publicPaths, req.path, svc.matches) ==> r == Served(CallNext(None), c)
    ensures r.response.CallNext? ==> (r.response.token.Some? <==> !IsPublic(settings.publicPaths, req.path, svc.matches))
    ensures r.response.SendError? ==> r.response.reply == ErrorFor(req.path, r.response.reply.body.reason)
    ensures r.cache == c || (
      && !IsPublic(settings.publicPaths, req.path, svc.matches)
      && HeaderStage(req.authorization).Success?
      && r.cache == TokenStage(c, SourcesOf(settings.keysFiles, settings.keysURLs), svc,
                               HeaderStage(req.authorization).value, now).cache)
  {
    if IsPublic(settings.publicPaths, req.path, svc.matches) then Served(CallNext(None), c)
    else match HeaderStage(req.authorization)
      case Failure(r) => Served(SendError(ErrorFor(req.path, r)), c)
      case Success(bearer) =>
        var t := TokenStage(c, SourcesOf(settings.keysFiles, settings.keysURLs), svc, bearer, now);
        match t.result
        case Failure(r) => Served(SendError(ErrorFor(req.path, r)), t.cache)
        case Success(token) =>
          match ClaimChecks.CheckClaims(token.claims)
          case Fail(r) => Served(SendError(ErrorFor(req.path, r)), t.cache)
          case Pass =>
            match ClaimChecks.CheckACL(settings.aclItems, token.claims, svc.matches)
            case Fail(r) => Served(SendError(ErrorFor(req.path, r)), t.cache)
            case Pass => Served(CallNext(Some(token)), t.cache)
  }

  // ---------------------------------------------------------------------------
  // The handler object.

  class Handler {
    /** What `Build` configured; never changed afterwards. */
    const settings: Config.Settings
    /** The key cache (`sync.Map` in the source) and the time of the last reload. */
    var keys: map<string, RsaKey>
    var lastKeyReload: Option<int>

    /** A handler starts with no keys and the zero reload time. */
    constructor (settings: Config.Settings)
      ensures this.settings == settings
      ensures keys == map[] && lastKeyReload == None
    {
      this.settings := settings;
      keys := map[];
      lastKeyReload := None;
    }

    function Cache(): KeyCache
      reads this
    {
      KeyCache(keys, lastKeyReload)
    }

    /** The key sources in the order `loadKeys` reads them. */
    function Sources(): seq<Source> {
      SourcesOf(settings.keysFiles, settings.keysURLs)
    }

    /**
     * `readKeys` over one decoded document: check each record field by
     * field, parse it, and store it under its identifier.
     */
    method ReadKeys(recs: seq<KeyData>)
      modifies this
      ensures keys == Ingest(old(keys), recs)
      ensures lastKeyReload == old(lastKeyReload)
    {
      var i := 0;
      while i < |recs|
        invariant 0 <= i <= |recs|
        invariant keys == Ingest(old(keys), recs[..i])
        invariant lastKeyReload == old(lastKeyReload)
      {
        var d := recs[i];
        assert recs[..i + 1][..i] == recs[..i];
        // The fifth test is the one meant for `n`; it tests `e` again.
        var rejected := d.kid == "" || d.kty == "" || d.alg == "" || d.e == "" || d.e == "";
        if !rejected {
          var key := ParseKey(d);
          if key.Success? {
            keys := keys[d.kid := key.value];
          }
        }
        i := i + 1;
      }
      assert recs[..i] == recs;
    }

    /**
     * `loadKeys`: every key file, then every key URL; a source that cannot
     * be read is skipped. It never fails.
     */
    method LoadKeys(fetch: Fetch)
      modifies this
      ensures keys == LoadAll(old(keys), Sources(), fetch)
      ensures lastKeyReload == old(lastKeyReload)
    {
      LoadKeysFiles(fetch);
      LoadKeysURLs(fetch);
      SourcesOfSplit(settings.keysFiles, settings.keysURLs);
      LoadAllAppend(old(keys), SourcesOf(settings.keysFiles, []), SourcesOf([], settings.keysURLs), fetch);
    }

    /** The first loop of `loadKeys`: every key file, in order. */
    method LoadKeysFiles(fetch: Fetch)
      modifies this
      ensures keys == LoadAll(old(keys), SourcesOf(settings.keysFiles, []), fetch)
      ensures lastKeyReload == old(lastKeyReload)
    {
      var files := settings.keysFiles;
      ghost var srcs := SourcesOf(files, []);
      var i := 0;
      while i < |files|
        invariant 0 <= i <= |files|
        invariant keys == LoadAll(old(keys), srcs[..i], fetch)
        invariant lastKeyReload == old(lastKeyReload)
      {
        LoadAllStep(old(keys), srcs, i, fetch);
        LoadKeysFrom(KeysFile(files[i]), fetch);
        i := i + 1;
      }
      assert srcs[..i] == srcs;
    }

    /** The second loop of `loadKeys`: every key URL, in order. */
    method LoadKeysURLs(fetch: Fetch)
      modifies this
      ensures keys == LoadAll(old(keys), SourcesOf([], settings.keysURLs), fetch)
      ensures lastKeyReload == old(lastKeyReload)
    {
      var urls := settings.keysURLs;
      ghost var srcs := SourcesOf([], urls);
      var j := 0;
      while j < |urls|
        invariant 0 <= j <= |urls|
        invariant keys == LoadAll(old(keys), srcs[..j], fetch)
        invariant lastKeyReload == old(lastKeyReload)
      {
        LoadAllStep(old(keys), srcs, j, fetch);
        LoadKeysFrom(KeysURL(urls[j]), fetch);
        j := j + 1;
      }
      assert srcs[..j] == srcs;
    }

    /**
     * `loadKeysFile` and `loadKeysURL`: read the document of one source;
     * when that fails nothing is stored.
     */
    method LoadKeysFrom(src: Source, fetch: Fetch)
      modifies this
      ensures keys == LoadSource(old(keys), fetch(src))
      ensures lastKeyReload == old(lastKeyReload)
    {
      var doc := fetch(src);
      if doc.Some? {
        ReadKeys(doc.value);
      }
    }

    /**
     * `selectKey`: the key for the token's `kid`, reloading every source on
     * a miss unless the last reload was at most a minute before `now`.
     */
    method SelectKey(header: Claims, fetch: Fetch, now: int) returns (result: Result<RsaKey, KeyError>)
      modifies this
      ensures Selection(result, Cache()) == Select(old(Cache()), Sources(), header, fetch, now)
    {
      if "kid" !in header {
        return Failure(MissingKid);
      }
      var value := header["kid"];
      if !value.JString? {
        return Failure(KidNotString(value));
      }
      var kid := value.s;
      var found := kid in keys;
      if !found && (lastKeyReload.None? || now - lastKeyReload.value > OneMinute) {
        LoadKeys(fetch);
        lastKeyReload := Some(now);
        found := kid in keys;
      }
      if !found {
        return Failure(NoKeyFor(kid));
      }
      return Success(keys[kid]);
    }

    /** `checkToken`: the library with `SelectKey` as its key function. */
    method CheckToken(bearer: string, svc: Services, now: int) returns (result: Result<Token, Reason>)
      modifies this
      ensures Checked(result, Cache()) == TokenStage(old(Cache()), Sources(), svc, bearer, now)
    {
      var parsed := svc.jwt.parse(bearer);
      if parsed.Failure? {
        return Failure(TokenFailureReason(parsed.error));
      }
      var p := parsed.value;
      var key := SelectKey(p.header, svc.fetch, now);
      if key.Failure? {
        return Failure(TokenFailureReason(ValidationError({Unverifiable})));
      }
      var flags := svc.jwt.validate(bearer, p, key.value);
      if flags != {} {
        return Failure(TokenFailureReason(ValidationError(flags)));
      }
      return Success(Token(bearer, p.header, p.claims));
    }

    /** `ServeHTTP`. */
    method ServeHTTP(req: Request, svc: Services, now: int) returns (response: Response)
      modifies this
      ensures Served(response, Cache()) == Serve(old(Cache()), settings, req, svc, now)
    {
      var i := 0;
      while i < |settings.publicPaths|
        invariant 0 <= i <= |settings.publicPaths|
        invariant forall j :: 0 <= j < i ==> !svc.matches(settings.publicPaths[j], req.path)
      {
        if svc.matches(settings.publicPaths[i], req.path) {
          return CallNext(None);
        }
        i := i + 1;
      }
      var header := HeaderStage(req.authorization);
      if header.Failure? {
        return SendError(ErrorFor(req.path, header.error));
      }
      var token := CheckToken(header.value, svc, now);
      if token.Failure? {
        return SendError(ErrorFor(req.path, token.error));
      }
      var claims := ClaimChecks.CheckClaims(token.value.claims);
      if claims.Fail? {
        return SendError(ErrorFor(req.path, claims.error));
      }
      var acl := ClaimChecks.CheckACL(settings.aclItems, token.value.claims, svc.matches);
      if acl.Fail? {
        return SendError(ErrorFor(req.path, acl.error));
      }
      return CallNext(Some(token.value));
    }
  }

  /**
   * `HandlerBuilder.Build`: the checks of `Config.Validate`, then a handler
   * with those settings and an empty key cache. The error can come together
   * with a handler.
   */
  method Build(b: Config.Builder, env: Config.Env) returns (handler: Handler?, err: Option<Config.BuildError>)
    ensures (handler != null) == Config.BuildSpec(b, env).settings.Some?
    ensures err == Config.BuildSpec(b, env).err
    ensures handler != null ==>
      && fresh(handler)
      && handler.settings == Config.BuildSpec(b, env).settings.value
      && handler.Cache() == KeyCache(map[], None)
  {
    var settings;
    settings, err := Config.Validate(b, env);
    if settings.None? {
      return null, err;
    }
    handler := new Handler(settings.value);
  }

  // ---------------------------------------------------------------------------
  // Properties of a request.

  /**
   * The header stage accepts exactly the headers that match the fixed
   * pattern with a scheme equal to `Bearer` in any case, and the token is
   * what follows the longest whitespace run after the scheme.
   */
  lemma HeaderStageAcceptsIff(h: string)
    ensures HeaderStage(h).Success? <==>
      exists i, j :: MatchesAt(h, i, j) && EqualFold(h[..i], "Bearer")
    ensures HeaderStage(h).Success? ==>
      var t := HeaderStage(h).value;
      && (exists i :: MatchesAt(h, i, |h| - |t|) && EqualFold(h[..i], "Bearer"))
      && (t == [] || !IsSpace(t[0]))
  {
    SplitSucceedsIffMatch(h);
    if exists i, j :: MatchesAt(h, i, j) && EqualFold(h[..i], "Bearer") {
      var i, j :| MatchesAt(h, i, j) && EqualFold(h[..i], "Bearer");
      SplitFindsEveryMatch(h, i, j);
    }
    if HeaderStage(h).Success? {
      var cr := Split(h).value;
      assert MatchesAt(h, |cr.scheme|, |h| - |cr.credential|);
      assert h[..|cr.scheme|] == cr.scheme;
    }
  }

  /**
   * A public path is handed to the next handler whatever the header says,
   * without a token and without touching the key cache.
   */
  lemma ServePublicBypass(c: KeyCache, settings: Config.Settings, path: string, h: string, svc: Services, now: int)
    requires IsPublic(settings.publicPaths, path, svc.matches)
    ensures Serve(c, settings, Request(path, h), svc, now) == Served(CallNext(None), c)
  {
  }

  /**
   * A header that fails its checks is answered with the header's reason,
   * before the token library or the key cache is involved.
   */
  lemma ServeHeaderFailure(c: KeyCache, settings: Config.Settings, req: Request, svc: Services, now: int)
    requires !IsPublic(settings.publicPaths, req.path, svc.matches)
    requires HeaderStage(req.authorization).Failure?
    ensures var s := Serve(c, settings, req, svc, now);
      && s.cache == c
      && s.response == SendError(ErrorFor(req.path, HeaderStage(req.authorization).error))
      && s.response.reply.body.reason in
           {MissingAuthorization, MalformedAuthorization(req.authorization),
            UnsupportedAuthType(if Split(req.authorization).Some? then Split(req.authorization).value.scheme else "")}
  {
  }

  /**
   * The next handler is called iff the path is public or every stage
   * passes. When it is called with a token, that token is the one in the
   * header, it was validated by the library with the key the cache now holds
   * for its `kid`, its required claims are in order and the ACL admits it.
   */
  lemma ServeForwards(c: KeyCache, settings: Config.Settings, req: Request, svc: Services, now: int)
    ensures var s := Serve(c, settings, req, svc, now);
      var srcs := SourcesOf(settings.keysFiles, settings.keysURLs);
      s.response.CallNext? <==>
        || IsPublic(settings.publicPaths, req.path, svc.matches)
        || (&& HeaderStage(req.authorization).Success?
            && var t := TokenStage(c, srcs, svc, HeaderStage(req.authorization).value, now);
            && t.result.Success?
            && ClaimChecks.CheckClaims(t.result.value.claims).Pass?
            && ClaimChecks.CheckACL(settings.aclItems, t.result.value.claims, svc.matches).Pass?)
    ensures var s := Serve(c, settings, req, svc, now);
      s.response.CallNext? && s.response.token.Some? ==>
        var t := s.response.token.value;
        && !IsPublic(settings.publicPaths, req.path, svc.matches)
        && HeaderStage(req.authorization) == Success(t.raw)
        && "kid" in t.header && t.header["kid"].JString? && t.header["kid"].s in s.cache.keys
        && svc.jwt.validate(t.raw, Parsed(t.header, t.claims), s.cache.keys[t.header["kid"].s]) == {}
        && ClaimChecks.TypAcceptable(t.claims)
        && ClaimChecks.TimeAcceptable(t.claims, "iat")
        && ClaimChecks.TimeAcceptable(t.claims, "exp")
        && (|settings.aclItems| == 0
            || exists claim :: ClaimChecks.EntryMatches(settings.aclItems, t.claims, svc.matches, claim))
    ensures var s := Serve(c, settings, req, svc, now);
      s.response.CallNext? ==> (s.response.token.Some? <==> !IsPublic(settings.publicPaths, req.path, svc.matches))
    ensures var s := Serve(c, settings, req, svc, now);
      var srcs := SourcesOf(settings.keysFiles, settings.keysURLs);
      s.response.CallNext? && !IsPublic(settings.publicPaths, req.path, svc.matches) ==>
        && HeaderStage(req.authorization).Success?
        && var t := TokenStage(c, srcs, svc, HeaderStage(req.authorization).value, now);
        && t.result.Success?
        && s.response.token == Some(t.result.value)
        && s.cache == t.cache
  {
  }

  /**
   * Serving a request never evicts a key, and the reload time either stays
   * as it was or becomes `now`.
   */
  lemma ServeNeverEvicts(c: KeyCache, settings: Config.Settings, req: Request, svc: Services, now: int)
    ensures var s := Serve(c, settings, req, svc, now);
      && c.keys.Keys <= s.cache.keys.Keys
      && (s.cache.lastKeyReload == c.lastKeyReload || s.cache.lastKeyReload == Some(now))
  {
    if !IsPublic(settings.publicPaths, req.path, svc.matches) && HeaderStage(req.authorization).Success? {
      var p := svc.jwt.parse(HeaderStage(req.authorization).value);
      if p.Success? {
        SelectInvariants(c, SourcesOf(settings.keysFiles, settings.keysURLs), p.value.header, svc.fetch, now);
      }
    }
  }

  /** Within a minute of the last reload, serving a request leaves the cache alone. */
  lemma ServeQuiet(c: KeyCache, settings: Config.Settings, req: Request, svc: Services, now: int)
    requires !ReloadDue(c, now)
    ensures Serve(c, settings, req, svc, now).cache == c
  {
  }

  /**
   * Rate limiting across requests: once a request has reloaded the keys,
   * every request served within the following minute leaves the cache as
   * that request left it, whatever its token and whatever the sources hold.
   */
  lemma ServeRateLimited(
    c: KeyCache, settings: Config.Settings, r1: Request, r2: Request, svc1: Services, svc2: Services, t1: int, t2: int)
    requires Serve(c, settings, r1, svc1, t1).cache.lastKeyReload != c.lastKeyReload
    requires t2 - t1 <= OneMinute
    ensures var c1 := Serve(c, settings, r1, svc1, t1).cache;
      Serve(c1, settings, r2, svc2, t2).cache == c1
  {
    ServeNeverEvicts(c, settings, r1, svc1, t1);
    var c1 := Serve(c, settings, r1, svc1, t1).cache;
    assert c1.lastKeyReload == Some(t1);
    ServeQuiet(c1, settings, r2, svc2, t2);
  }

  /**
   * A request that passes every other stage but matches no ACL entry of a
   * non-empty list is answered "Access denied".
   */
  lemma ServeAccessDenied(c: KeyCache, settings: Config.Settings, req: Request, svc: Services, now: int)
    requires !IsPublic(settings.publicPaths, req.path, svc.matches)
    requires HeaderStage(req.authorization).Success?
    requires var t := TokenStage(c, SourcesOf(settings.keysFiles, settings.keysURLs), svc,
                                 HeaderStage(req.authorization).value, now);
      && t.result.Success?
      && ClaimChecks.CheckClaims(t.result.value.claims).Pass?
      && |settings.aclItems| > 0
      && forall claim :: !ClaimChecks.EntryMatches(settings.aclItems, t.result.value.claims, svc.matches, claim)
    ensures Serve(c, settings, req, svc, now).response.SendError?
    ensures Serve(c, settings, req, svc, now).response.reply == ErrorFor(req.path, AccessDenied)
  {
  }

  /**
   * A token the library cannot get a key for is answered "Bearer token can't
   * be verified", whatever else is wrong with it.
   */
  lemma ServeUnknownKey(c: KeyCache, settings: Config.Settings, req: Request, svc: Services, now: int)
    requires !IsPublic(settings.publicPaths, req.path, svc.matches)
    requires HeaderStage(req.authorization).Success?
    requires svc.jwt.parse(HeaderStage(req.authorization).value).Success?
    requires Select(c, SourcesOf(settings.keysFiles, settings.keysURLs),
                    svc.jwt.parse(HeaderStage(req.authorization).value).value.header, svc.fetch, now).result.Failure?
    ensures Serve(c, settings, req, svc, now).response == SendError(ErrorFor(req.path, TokenUnverifiable))
  {
  }

  /**
   * A token the token stage refuses is answered with the stage's own
   * reason: the library's, mapped by priority, or "can't be verified" when
   * no key could be selected.
   */
  lemma ServeTokenFailure(c: KeyCache, settings: Config.Settings, req: Request, svc: Services, now: int)
    requires !IsPublic(settings.publicPaths, req.path, svc.matches)
    requires HeaderStage(req.authorization).Success?
    requires TokenStage(c, SourcesOf(settings.keysFiles, settings.keysURLs), svc,
                        HeaderStage(req.authorization).value, now).result.Failure?
    ensures var t := TokenStage(c, SourcesOf(settings.keysFiles, settings.keysURLs), svc,
                                HeaderStage(req.authorization).value, now);
      Serve(c, settings, req, svc, now) == Served(SendError(ErrorFor(req.path, t.result.error)), t.cache)
  {
  }

  /**
   * A token the library accepts but whose `typ`, `iat` or `exp` claim is
   * wrong is answered with the reason of the first failing claim check.
   */
  lemma ServeClaimsFailure(c: KeyCache, settings: Config.Settings, req: Request, svc: Services, now: int)
    requires !IsPublic(settings.publicPaths, req.path, svc.matches)
    requires HeaderStage(req.authorization).Success?
    requires var t := TokenStage(c, SourcesOf(settings.keysFiles, settings.keysURLs), svc,
                                 HeaderStage(req.authorization).value, now);
      t.result.Success? && ClaimChecks.CheckClaims(t.result.value.claims).Fail?
    ensures var t := TokenStage(c, SourcesOf(settings.keysFiles, settings.keysURLs), svc,
                                HeaderStage(req.authorization).value, now);
      Serve(c, settings, req, svc, now)
        == Served(SendError(ErrorFor(req.path, ClaimChecks.CheckClaims(t.result.value.claims).error)), t.cache)
  {
  }

  /**
   * The expiration example: a token the library finds expired, with none of
   * the flags tested before expiry set, is answered with "Bearer token is
   * expired".
   */
  lemma ServeExpired(c: KeyCache, settings: Config.Settings, req: Request, svc: Services, now: int)
    requires !IsPublic(settings.publicPaths, req.path, svc.matches)
    requires HeaderStage(req.authorization).Success?
    requires svc.jwt.parse(HeaderStage(req.authorization).value).Success?
    requires var p := svc.jwt.parse(HeaderStage(req.authorization).value).value;
      var s := Select(c, SourcesOf(settings.keysFiles, settings.keysURLs), p.header, svc.fetch, now);
      && s.result.Success?
      && var flags := svc.jwt.validate(HeaderStage(req.authorization).value, p, s.result.value);
      && Expired in flags && Malformed !in flags && Unverifiable !in flags && SignatureInvalid !in flags
    ensures Serve(c, settings, req, svc, now).response == SendError(ErrorFor(req.path, TokenExpired))
  {
  }
}
