# Bearer-token authentication middleware, modelled in Dafny

This project models the authentication handler of the OCM Go SDK
(`authentication/handler.go`). The handler is HTTP middleware. A request
whose path matches one of the configured public patterns goes straight to
the next handler. Every other request must pass these stages, in order:

1. It carries an `Authorization` header.
2. The header has the form `<scheme> <token>` (the `Bearer` scheme of
   section 2.1 of RFC 6750).
3. The scheme is `Bearer`, compared case-insensitively.
4. The token library accepts the token with an RSA key from the handler's key cache.
5. The token's `typ`, `iat` and `exp` claims are present and of the right shape.
6. The claims satisfy the access-control list (ACL).

The first failing stage answers 401. The reply body is derived from the
request path, and the `WWW-Authenticate: Bearer realm="..."` header follows
section 3 of RFC 6750.

Keys come from JSON web key sets (JWK sets) read from files and URLs. They
are cached by key identifier (`kid`). A miss reloads every source, but at
most once a minute. The `n` and `e` members are Base64urlUInt values
(section 6.3.1 of RFC 7518) in the unpadded URL-safe alphabet of section 5
of RFC 4648.

Modules, one per file:

- `Wrappers`: `Option`, `Result`, `Outcome`.
- `Ascii`: the character classes of the header pattern, ASCII case folding, `strings.EqualFold`, `ToUpper` and `ReplaceAll` on one character.
- `Jwt`: JSON values, claim maps, tokens, and the library's validation flags.
- `BearerHeader`: the fixed pattern `^([a-zA-Z0-9]+)\s+(.*)$` under RE2 semantics.
- `Base64Url`, `BigEndian`: `base64.RawURLEncoding.DecodeString`, `big.Int.SetBytes` and `Int64`.
- `Jwks`: `parseKey`, the record checks of `readKeys`, and the fold of a reload over all documents.
- `KeyStore`: `selectKey` as a function over a cache value, with its cache properties.
- `Reasons`: the 401 reasons, their texts, and the flag-priority mapping of `checkToken`.
- `ClaimChecks`: `checkClaims` and its helpers, and `checkACL`.
- `ErrorReply`: the path, link, code and realm logic of `sendError`.
- `Config`: the builder's setters, `Build`'s validation loops (as methods), their specification `BuildSpec`, and `loadACLFile`.
- `Authentication`: the `Handler` class and the specification of serving a request.
  - The class keeps the key map and the reload time as mutable fields.
  - Its methods are `ReadKeys`, `LoadKeys`, `SelectKey`, `CheckToken` and `ServeHTTP`.
  - Each method is proved equal to the specification function of its stage (`Ingest`, `LoadAll`, `Select`, `TokenStage`, `Serve`).

The outside world is passed in as function values:

- `os.Stat`;
- `url.Parse` (the scheme, or a parse error);
- `regexp.Compile` and regular-expression matching;
- reading and YAML decoding of an ACL file;
- reading, fetching and JSON decoding of a key set (`Fetch`);
- the token library (`JwtLibrary`): decoding, then signature and clock checks once a key is known;
- the clock, as an integer `now` in nanoseconds.

Two behaviours of the code are reproduced as written, because the model
follows the code:

- **Empty `n` is accepted.** The check meant for an empty `n`
  (handler.go:530) tests `e` a second time. A record with an empty `n`
  is accepted, and its modulus is 0 (`Jwks.EmptyModulusAccepted`).
- **A non-HTTPS key URL does not reject the handler.** The URL loop of
  `Build` sets `err` for a non-HTTPS URL but does not return
  (handler.go:203-208).
  - Each later `url.Parse`, each successful `regexp.Compile` and each
    `loadACLFile` overwrites `err`.
  - So only the scheme of the last URL can surface, and only when no public
    path and no ACL file is configured.
  - Even then the error comes with a handler
    (`Config.BuildHttpsErrorLingers`, `Authentication.Build`).

## Model

| member | source | states |
|---|---|---|
| Ascii.EqualFold | authentication/handler.go:333 | true exactly when both texts have the same length and agree character by character after ASCII lower-casing |
| Ascii.UpperCase | authentication/handler.go:791 | each character is upper-cased in place, and the length is kept |
| Ascii.ReplaceChar | authentication/handler.go:791 | every occurrence of the one character is replaced, and every other character is kept |
| BearerHeader.Split | authentication/handler.go:322-332 | a result is a match of the pattern: an alphanumeric scheme, then whitespace, then a newline-free credential that does not start with whitespace; header = scheme + whitespace + credential |
| BearerHeader.SplitFindsEveryMatch | authentication/handler.go:809 | whenever the header matches with the scheme ending at i, the split succeeds with exactly that scheme, and the credential follows the longest whitespace run |
| BearerHeader.SplitSucceedsIffMatch | authentication/handler.go:809 | the split succeeds iff the whole header matches `^([a-zA-Z0-9]+)\s+(.*)$` |
| Base64Url.Decode | authentication/handler.go:565-572 | succeeds iff every character other than CR/LF is in the URL-safe alphabet and the length is not 1 mod 4; the byte count is 6/8 of the character count |
| Base64Url.DecodeEncode | authentication/handler.go:565-572 | decoding the unpadded encoding of any byte string gives it back |
| BigEndian.Value | authentication/handler.go:576 | the big-endian value of n bytes is below 256^n |
| BigEndian.ValueOfToBytes | authentication/handler.go:576 | the minimal big-endian encoding of a natural number has that value |
| BigEndian.LeadingZeroIgnored | authentication/handler.go:576 | leading zero bytes do not change the value |
| BigEndian.ToInt64 | authentication/handler.go:577 | the result is in the int64 range, congruent to the input mod 2^64, and equal to it when the input is below 2^63 |
| BigEndian.ToInt64UpperHalf | authentication/handler.go:577 | a value with bit 63 set and below 2^64 reads as that value minus 2^64 |
| Jwks.ParseKey | authentication/handler.go:557-581 | succeeds iff kty is exactly "RSA" and both n and e decode; any other kty gives the unsupported-type error, a bad n the invalid-modulus error and then a bad e the invalid-exponent error; for every accepted record N is the big-endian value of the decoded n and E the `Int64` of the decoded e |
| Jwks.CheckRecord | authentication/handler.go:502-547 | a record is accepted iff kid, kty, alg and e are non-empty, kty is "RSA" and both numbers decode (n is never tested for emptiness); the key is the one ParseKey gives |
| Jwks.SourcesOf | authentication/handler.go:422-441 | every key file comes first, in order, then every key URL |
| Jwks.Store | authentication/handler.go:548 | an accepted record maps its kid to the parsed key and leaves every other entry; a rejected record leaves the map unchanged |
| Jwks.IngestSupplied | authentication/handler.go:494-550 | every identifier after reading a document was there before or is the kid of an accepted record of it |
| Jwks.LoadAllSupplied | authentication/handler.go:422-441 | every identifier after a reload was cached before or is supplied by one of the sources |
| Jwks.SourcesOfSplit | authentication/handler.go:422-441 | the sources are the key files followed by the key URLs |
| Jwks.IngestAppend | authentication/handler.go:494-550 | reading a + b records is reading a, then b |
| Jwks.IngestSkipsRejected | authentication/handler.go:494-550 | a rejected record leaves the result exactly as if it were absent |
| Jwks.IngestKeepsOthers | authentication/handler.go:494-550 | an identifier that no accepted record carries keeps its previous entry (or stays absent) |
| Jwks.IngestLastWins | authentication/handler.go:548 | an accepted record is stored under its kid, and the last accepted record for a kid is the one kept |
| Jwks.IngestGrows | authentication/handler.go:548 | reading a document never removes a key |
| Jwks.LoadAllStep | authentication/handler.go:422-441 | loading k+1 sources is loading k sources and then the next one |
| Jwks.LoadAllAppend | authentication/handler.go:422-441 | loading a + b sources is loading a, then b |
| Jwks.LoadAllSkipsFailedSource | authentication/handler.go:424-439 | a source that cannot be read or decoded is skipped; the sources around it are unaffected |
| Jwks.LoadAllGrows | authentication/handler.go:422-441 | a reload never evicts a key |
| Jwks.ParseKeyRecoversEncodedKey | authentication/handler.go:565-578 | a key whose n and e are written as shortest big-endian base64url is read back exactly (for E below 2^63) |
| Jwks.ParseKeyTruncatesExponent | authentication/handler.go:565-578 | an exponent with bit 63 set and below 2^64, written as shortest big-endian base64url, is read back negative, as e - 2^64 |
| Jwks.ParseKeyOfEncoded | authentication/handler.go:565-578 | a record whose n and e are written as shortest big-endian base64url parses to N = n and E = the `Int64` of e |
| Jwks.DecodeAQAB | authentication/handler.go:565-577 | "AQAB" decodes to the bytes 1, 0, 1, whose value is 65537 |
| Jwks.EmptyModulusAccepted | authentication/handler.go:530-536 | a record with an empty n and otherwise valid fields is accepted, with modulus 0 |
| Jwks.SingleRecordDocument | authentication/handler.go:494-550 | a document with one RSA record for "k1", modulus n encoded and exponent "AQAB", leaves the key (n, 65537) under "k1" whatever was stored before |
| KeyStore.Select | authentication/handler.go:371-404 | a returned key is the one the cache holds for the token's string kid; the cache changes only when a reload was due, and then carries the time now |
| KeyStore.SelectRejectsBadKid | authentication/handler.go:373-385 | a missing kid, or one that is not a string, is an error and leaves the cache unchanged |
| KeyStore.SelectHit | authentication/handler.go:388-389 | a cache hit returns the stored key, with no reload and an unchanged reload time |
| KeyStore.SelectMissReloads | authentication/handler.go:389-397 | a miss more than a minute after the last reload runs exactly one reload, sets the time to now and retries once; the result is the key now cached, or no-key-for-kid |
| KeyStore.SelectMissRateLimited | authentication/handler.go:389-402 | a miss within a minute does not reload, fails with no-key-for-kid and leaves the cache unchanged |
| KeyStore.SelectInvariants | authentication/handler.go:371-404 | no key is evicted; the reload time stays or becomes now; a returned key is the one cached under the token's kid |
| KeyStore.NoSecondReloadWithinMinute | authentication/handler.go:389-396 | after one selection reloads, no selection in the next minute changes the cache |
| Reasons.TokenFailureReason | authentication/handler.go:599-643 | always one of the seven token reasons; a non-validation error or the Malformed flag gives "is malformed"; the generic "isn't valid" only when none of the six tested flags is set |
| Reasons.TokenFailureFirstFlagWins | authentication/handler.go:599-636 | the reason is that of the highest-priority flag set (Malformed, Unverifiable, SignatureInvalid, Expired, IssuedAt, NotValidYet), whatever lower flags are also set |
| Reasons.TokenFailureFallbacks | authentication/handler.go:630-642 | with none of the six flags the reason is "Bearer token isn't valid"; an error that is not a validation error gives "Bearer token is malformed" |
| Reasons.Text | authentication/handler.go:316-768 | every reason has a non-empty message, and a reason about a header, a scheme, a token type or a claim quotes it in single quotes |
| ClaimChecks.CheckClaim | authentication/handler.go:723-735 | succeeds iff the claim is present, with its value; otherwise the missing-claim reason names it |
| ClaimChecks.CheckStringClaim | authentication/handler.go:703-719 | succeeds iff the claim is present and a string; an absent claim gives the missing-claim reason and a present non-string the incorrect-text-value reason |
| ClaimChecks.CheckTimeClaim | authentication/handler.go:681-698 | succeeds iff the claim is present and a number; an absent claim gives the missing-claim reason and a present non-number the incorrect-time-value reason |
| ClaimChecks.CheckClaims | authentication/handler.go:653-676 | passes iff typ is a string equal to "Bearer" in any case, and iat and exp are numbers; the first failure in the order typ, iat, exp is the one reported, with its reason |
| ClaimChecks.CheckACL | authentication/handler.go:740-768 | passes iff the ACL is empty or some entry's claim is present, is a string and matches the entry's pattern; a denial is "Access denied" |
| ClaimChecks.ScanAcl | authentication/handler.go:748-761 | the early-exit loop finds a match iff some visited entry matches |
| ClaimChecks.CheckACLIndependentOfOrder | authentication/handler.go:748-761 | any visiting order covering the ACL's keys gives the same verdict as CheckACL |
| ErrorReply.SplitOn | authentication/handler.go:777 | there is always at least one segment |
| ErrorReply.SplitOnJoin | authentication/handler.go:777 | joining the segments gives the path back; no segment contains "/"; there is one more segment than slashes |
| ErrorReply.Realm | authentication/handler.go:778-794 | the realm is empty iff the path has fewer than three slashes; otherwise it is segment 2, a slash and segment 3, neither of which contains a slash |
| ErrorReply.ErrorFor | authentication/handler.go:772-805 | the ID is always "401" and the reason is kept; link and code exist iff the path has at least three slashes (four segments) and are then built from segments 1-3; the header is `Bearer realm="<realm>"` |
| ErrorReply.ErrorForServicePath | authentication/handler.go:781-794 | for /prefix/service/version[/...], the link is /prefix/service/version/errors/401, the code is the service with `_` turned into `-` and upper-cased plus "-401", and the realm is service/version |
| ErrorReply.SplitOnServicePath | authentication/handler.go:777-784 | such a path splits into "", prefix, service and version before the rest |
| Config.NewBuilder | authentication/handler.go:75-77 | a new builder has no logger, no next handler and no sources or patterns |
| Config.WithLogger | authentication/handler.go:81-84 | the logger is set to the given one, so a nil logger clears it; nothing else changes |
| Config.WithNext | authentication/handler.go:158-161 | the next handler is set to the given one, so a nil handler clears it; nothing else changes |
| Config.Public | authentication/handler.go:89-92 | every pattern is appended, the empty one included; nothing else changes |
| Config.KeysFile | authentication/handler.go:99-104 | an empty value is ignored and any other one appended; nothing else changes |
| Config.KeysURL | authentication/handler.go:111-116 | an empty value is ignored and any other one appended; nothing else changes |
| Config.ACLFile | authentication/handler.go:149-154 | an empty value is ignored and any other one appended; nothing else changes |
| Config.MergeAcl | authentication/handler.go:290-295 | a claim is in the merged ACL iff it was before or some record names it |
| Config.MergeAclLastWins | authentication/handler.go:290-295 | the last record for a claim decides its pattern |
| Config.MergeAclKeepsOthers | authentication/handler.go:290-295 | a claim no record names keeps its pattern |
| Config.MergeAclAppend | authentication/handler.go:290-295 | merging a + b records is merging a, then b |
| Config.LoadACLFile | authentication/handler.go:275-298 | succeeds iff the file can be read and every pattern compiles; then every record of the file is merged in, in order; otherwise the error is an unreadable file or the first bad pattern |
| Config.MergeAclFilesFlat | authentication/handler.go:244-250 | merging the files one by one is merging all their records in file order |
| Config.MergeAclFiles | authentication/handler.go:244-250 | merging the ACL files never drops a claim already present |
| Config.CheckKeysFiles | authentication/handler.go:182-193 | fails iff some key file is not a regular file, and then reports the first such file, missing or not regular |
| Config.CheckKeysURLs | authentication/handler.go:196-209 | stops at the first URL that does not parse; otherwise err is the scheme test of the LAST URL only |
| Config.CompilePublicPaths | authentication/handler.go:222-229 | stops at the first pattern that does not compile; otherwise err is reset when there is at least one pattern |
| Config.LoadAclFiles | authentication/handler.go:244-250 | stops at the first ACL file that does not load; otherwise the ACL is all files merged in order, and err is reset when there is at least one file |
| Config.Validate | authentication/handler.go:164-266 | the returned settings and error are exactly BuildSpec: the checks in source order, the first failure returned without settings |
| Config.BuildSpec | authentication/handler.go:164-266 | no handler always comes with an error; a handler needs a logger, a next handler and a key source, keeps the configured public paths, key files and key URLs, and the only error it can come with is a non-HTTPS URL |
| Config.BuildSucceedsIff | authentication/handler.go:164-266 | a handler is built iff there is a logger and a next handler, at least one key source, every key file is regular, every URL parses, every public pattern compiles and every ACL file loads; without a handler there is always an error |
| Config.BuildHttpsErrorLingers | authentication/handler.go:196-250 | a built handler comes with an error iff there are no public paths and no ACL files and the last key URL is not HTTPS; the error then names that URL |
| Config.BuildReportsFirstBadFile | authentication/handler.go:182-193 | the first key file that is missing or not regular is the error, with no handler |
| Config.BuildAclLastWins | authentication/handler.go:244-250 | in a built handler, the pattern of a claim is that of the last record naming it, across all ACL files in order |
| Config.BuildClearedLogger | authentication/handler.go:166-169 | a builder whose logger was cleared with nil is refused with "logger is mandatory" |
| Config.BuildClearedNext | authentication/handler.go:170-173 | with a logger, a builder whose next handler was cleared with nil is refused with "next handler is mandatory" |
| Config.BuildMinimal | authentication/handler.go:75-266 | a logger, a next handler and one regular key file build a handler with exactly that file and no error; an empty key file adds nothing |
| Config.BuildPublicClearsError | authentication/handler.go:222-229 | adding a public pattern that compiles to a builder that builds keeps it building, appends the pattern and clears the lingering HTTPS error |
| Config.BuildAclFlat | authentication/handler.go:244-250 | the ACL of a built handler is one merge of all the records of all ACL files, in file order |
| Config.BuildAclClaims | authentication/handler.go:244-250 | a claim is in the built ACL iff some ACL record names it |
| Authentication.IsPublic | authentication/handler.go:305-311 | the path is public iff some configured pattern matches it |
| Authentication.TokenStage | authentication/handler.go:585-649 | a library failure leaves the cache; otherwise the cache is the one key selection leaves; an accepted token is the parsed one, validated with the key now cached for its kid; a refusal is always a token reason; a parse failure gives the reason its error maps to, a failed key selection gives "can't be verified", and non-empty validation flags give the reason those flags map to |
| Authentication.Serve | authentication/handler.go:301-368 | a public path goes to next without a token; next gets a token iff the path is not public; an error reply is built from the path and its reason; the cache changes only through the token stage of a non-public request with a good header (the reply for a failed token or claims stage is pinned by ServeTokenFailure and ServeClaimsFailure) |
| Authentication.ServeTokenFailure | authentication/handler.go:342-347 | for a non-public request with a good header, a refused token is answered with the error reply for the path and that exact token reason, and the cache is the one the token stage leaves |
| Authentication.ServeClaimsFailure | authentication/handler.go:349-354 | when the token is accepted but its typ, iat or exp is refused, the reply is the error for the path and the reason the claims check gives, and the cache is the one the token stage leaves |
| Authentication.ServeExpired | authentication/handler.go:599-621 | a token whose validation flags include expired but not malformed, unverifiable or bad signature is answered "Bearer token is expired" |
| Authentication.HeaderStage | authentication/handler.go:313-340 | an empty header gives the missing-header reason; a header that does not split gives "is malformed"; a scheme other than Bearer gives "isn't supported"; otherwise the token is the split's credential |
| Authentication.HeaderStageAcceptsIff | authentication/handler.go:313-340 | the header is accepted iff it matches the pattern with a scheme equal to Bearer in any case; the token is what follows the longest whitespace run |
| Authentication.Handler.constructor | authentication/handler.go:252-263 | a new handler keeps the settings and starts with no keys and the zero reload time |
| Authentication.Handler.ReadKeys | authentication/handler.go:494-550 | the new key map is Ingest of the old one over the records; the reload time is unchanged |
| Authentication.Handler.LoadKeys | authentication/handler.go:422-441 | the new key map is LoadAll of the old one over every file and then every URL; it never fails |
| Authentication.Handler.LoadKeysFiles | authentication/handler.go:423-430 | the new key map is LoadAll of the old one over the key files, in order; the reload time is unchanged |
| Authentication.Handler.LoadKeysURLs | authentication/handler.go:432-439 | the new key map is LoadAll of the old one over the key URLs, in order; the reload time is unchanged |
| Authentication.Handler.LoadKeysFrom | authentication/handler.go:445-476 | a source whose document cannot be had leaves the keys unchanged; otherwise its records are ingested |
| Authentication.Handler.SelectKey | authentication/handler.go:371-404 | the result and the new cache are exactly KeyStore.Select on the old cache |
| Authentication.Handler.CheckToken | authentication/handler.go:585-649 | the result and the new cache are exactly TokenStage on the old cache |
| Authentication.Handler.ServeHTTP | authentication/handler.go:301-368 | the response and the new cache are exactly Serve on the old cache |
| Authentication.Build | authentication/handler.go:164-266 | a handler exists iff BuildSpec has settings; the error is BuildSpec's, even alongside a handler; a new handler has those settings and an empty cache |
| Authentication.ServePublicBypass | authentication/handler.go:305-311 | a public path calls next without a token and leaves the cache unchanged, whatever the header |
| Authentication.ServeHeaderFailure | authentication/handler.go:313-340 | a failing header is answered with its reason, and the cache is unchanged |
| Authentication.ServeForwards | authentication/handler.go:342-368 | next is called iff the path is public or every stage passes; it gets a token iff the path is not public, and that token is the one the token stage accepted: the header's token, validated with the key cached for its kid, with acceptable typ, iat and exp, and admitted by the ACL |
| Authentication.ServeNeverEvicts | authentication/handler.go:371-404 | serving never evicts a key; the reload time stays or becomes now |
| Authentication.ServeQuiet | authentication/handler.go:388-396 | within a minute of the last reload, serving leaves the cache unchanged |
| Authentication.ServeRateLimited | authentication/handler.go:388-396 | once a request reloads the keys, every request in the following minute leaves the cache as it was left |
| Authentication.ServeAccessDenied | authentication/handler.go:762-768 | a request passing every other stage but matching no entry of a non-empty ACL is answered "Access denied" |
| Authentication.ServeUnknownKey | authentication/handler.go:592-596 | a token whose key cannot be selected is answered "Bearer token can't be verified" |

## Left out

- Logging, `SendPanic` and the HTTP writers: the model returns the reply (body and `WWW-Authenticate` value) instead of writing it. The fallthrough after a failed `builder.Build` (handler.go:797-801) is not modelled.
- `ContextWithToken` is not part of this model; forwarding the token is `CallNext(Some(token))`.
- The HTTP client and TLS settings (`KeysCAs`, `KeysInsecure`, handler.go:212-219) and the fetching and reading of key sets are the `Fetch` oracle.
- Where key sets come from: a source whose reading or JSON decoding fails yields no records.
- JSON and YAML decoding: records arrive decoded, and an absent JSON field is the empty string.
- The general regular-expression engine: the compile test and matching are oracles. Only the fixed header pattern is modelled.
- jwt-go parsing, RSA signature checks and the clock-based `exp`/`iat`/`nbf` checks are the `JwtLibrary` oracle.
  - Once a key is known, the library's outcome is the set of flags it raises.
  - A key-function error becomes a validation error with only the `Unverifiable` flag.
- Authentication.Handler.SelectKey: the two clock readings (`time.Since` and `time.Now`) are one `now`, because the time spent reloading is not modelled.
- ClaimChecks.CheckTimeClaim: the float-to-`time.Unix` conversion is not modelled, because its result is discarded; only "is a number" matters.
- Reasons.Text: the `%v` rendering of JSON values is a parameter, because Go's number and map formatting is not modelled.
- The text of `Build`'s errors: each error is its kind plus the file, URL or pattern it names.
  - The wrapped `os.Stat` and `url.Parse` errors are not modelled.
  - Neither is the `<nil>` printed inside the HTTPS message.
- Config.LoadACLFile: on a pattern that does not compile, the source stores a nil entry for that claim before returning. The model's returned map is meaningful only on success, because `Build` discards the map on failure.
- Concurrency: `sync.Map` and the unsynchronised reads and writes of `lastKeyReload` are a sequential map and field.
- Unicode case folding: `EqualFold` and `ToUpper` are ASCII. The compared words and the URL schemes are ASCII.
- Machine integers: modulus and exponent are unbounded before the explicit `Int64` truncation. Times are unbounded integers of nanoseconds.
- The generated builder files under accountsmgmt/ and clustersmgmt/ are not part of this model. They only store and copy values.
