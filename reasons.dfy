/**
 * The reasons the handler gives in its 401 responses, the mapping of the
 * token library's failures onto them (`checkToken`), and their text.
 */
module Reasons {
  import opened Jwt

  datatype Reason =
    | MissingAuthorization
    | MalformedAuthorization(header: string)
    | UnsupportedAuthType(scheme: string)
    | TokenMalformed
    | TokenUnverifiable
    | TokenSignatureInvalid
    | TokenExpired
    | TokenIssuedInFuture
    | TokenNotValidYet
    | TokenInvalid
    | UnsupportedTokenType(typ: string)
    | MissingClaim(name: string)
    | IncorrectTextValue(name: string, value: Json)
    | IncorrectTimeValue(name: string, value: Json)
    | AccessDenied

  /** The flags `checkToken` tests, in the order it tests them. */
  const Priority: seq<ValidationFlag> :=
    [Malformed, Unverifiable, SignatureInvalid, Expired, IssuedAt, NotValidYet]

  /** The reason given when `f` is the first flag of `Priority` that is set. */
  function FlagReason(f: ValidationFlag): Reason {
    match f
    case Malformed => TokenMalformed
    case Unverifiable => TokenUnverifiable
    case SignatureInvalid => TokenSignatureInvalid
    case Expired => TokenExpired
    case IssuedAt => TokenIssuedInFuture
    case NotValidYet => TokenNotValidYet
    case OtherFlag => TokenInvalid
  }

  /** The reasons that describe a token the library refused. */
  predicate IsTokenReason(r: Reason) {
    r in {TokenMalformed, TokenUnverifiable, TokenSignatureInvalid, TokenExpired,
          TokenIssuedInFuture, TokenNotValidYet, TokenInvalid}
  }

  /**
   * The `switch` of `checkToken` on the error of `ParseWithClaims`: always
   * one of the token reasons, and a malformed token whenever the error is
   * not a validation error or carries the `Malformed` flag.
   */
  function TokenFailureReason(e: LibraryError): (r: Reason)
    ensures IsTokenReason(r)
    ensures e.OtherError? || Malformed in e.flags ==> r == TokenMalformed
    ensures r == TokenInvalid ==> e.ValidationError? && forall j :: 0 <= j < |Priority| ==> Priority[j] !in e.flags
  {
    match e
    case OtherError => TokenMalformed
    case ValidationError(flags) =>
      if Malformed in flags then TokenMalformed
      else if Unverifiable in flags then TokenUnverifiable
      else if SignatureInvalid in flags then TokenSignatureInvalid
      else if Expired in flags then TokenExpired
      else if IssuedAt in flags then TokenIssuedInFuture
      else if NotValidYet in flags then TokenNotValidYet
      else TokenInvalid
  }

  /**
   * Strict priority: the reason is that of the first flag of `Priority` that
   * is set, whatever flags of lower priority are set beside it.
   */
  lemma TokenFailureFirstFlagWins(flags: set<ValidationFlag>, i: nat)
    requires i < |Priority| && Priority[i] in flags
    requires forall j :: 0 <= j < i ==> Priority[j] !in flags
    ensures TokenFailureReason(ValidationError(flags)) == FlagReason(Priority[i])
  {
    if i > 0 { assert Priority[0] !in flags; }
    if i > 1 { assert Priority[1] !in flags; }
    if i > 2 { assert Priority[2] !in flags; }
    if i > 3 { assert Priority[3] !in flags; }
    if i > 4 { assert Priority[4] !in flags; }
  }

  /**
   * With none of the tested flags set the reason is the generic one, and any
   * error that is not a validation error reads as a malformed token.
   */
  lemma TokenFailureFallbacks(flags: set<ValidationFlag>)
    requires forall j :: 0 <= j < |Priority| ==> Priority[j] !in flags
    ensures TokenFailureReason(ValidationError(flags)) == TokenInvalid
    ensures TokenFailureReason(OtherError) == TokenMalformed
  {
    assert Priority[0] !in flags && Priority[1] !in flags && Priority[2] !in flags;
    assert Priority[3] !in flags && Priority[4] !in flags && Priority[5] !in flags;
  }

  /** A value quoted the way the messages quote it. */
  function Quote(v: string): string {
    "'" + v + "'"
  }

  /** The `n` characters of `t` from position `k`. */
  function Window(t: string, k: nat, n: nat): string
    requires k + n <= |t|
  {
    t[k..k + n]
  }

  /** `w` occurs in `t`. */
  predicate Contains(t: string, w: string) {
    exists k: nat :: k + |w| <= |t| && Window(t, k, |w|) == w
  }

  lemma Infix(a: string, w: string, b: string)
    ensures Contains(a + w + b, w)
  {
    assert Window(a + w + b, |a|, |w|) == w;
  }

  /**
   * The text of a reason, as the handler formats it: never empty, and a
   * reason about a header, a scheme, a token type or a claim quotes it.
   * `render` is the `%v` formatting of a JSON value by Go's `fmt`, which is
   * not modelled.
   */
  function Text(r: Reason, render: Json -> string): (t: string)
    ensures |t| > 0
    ensures r.MalformedAuthorization? ==> Contains(t, Quote(r.header))
    ensures r.UnsupportedAuthType? ==> Contains(t, Quote(r.scheme))
    ensures r.UnsupportedTokenType? ==> Contains(t, Quote(r.typ))
    ensures r.MissingClaim? || r.IncorrectTextValue? || r.IncorrectTimeValue? ==> Contains(t, Quote(r.name))
  {
    match r
    case MissingAuthorization => "Request doesn't contain the 'Authorization' header"
    case MalformedAuthorization(h) =>
      Infix("Authorization header ", Quote(h), " is malformed");
      "Authorization header " + Quote(h) + " is malformed"
    case UnsupportedAuthType(s) =>
      Infix("Authentication type ", Quote(s), " isn't supported");
      "Authentication type " + Quote(s) + " isn't supported"
    case TokenMalformed => "Bearer token is malformed"
    case TokenUnverifiable => "Bearer token can't be verified"
    case TokenSignatureInvalid => "Signature of bearer token isn't valid"
    case TokenExpired => "Bearer token is expired"
    case TokenIssuedInFuture => "Bearer token was issued in the future"
    case TokenNotValidYet => "Bearer token isn't valid yet"
    case TokenInvalid => "Bearer token isn't valid"
    case UnsupportedTokenType(t) =>
      Infix("Bearer token type ", Quote(t), " isn't supported");
      "Bearer token type " + Quote(t) + " isn't supported"
    case MissingClaim(n) =>
      var msg := "Bearer token doesn't contain required claim " + Quote(n);
      Infix("Bearer token doesn't contain required claim ", Quote(n), "");
      assert msg + "" == msg;
      msg
    case IncorrectTextValue(n, v) =>
      Infix("Bearer token claim ", Quote(n), " contains incorrect text value " + Quote(render(v)));
      "Bearer token claim " + Quote(n) + (" contains incorrect text value " + Quote(render(v)))
    case IncorrectTimeValue(n, v) =>
      Infix("Bearer token claim ", Quote(n), " contains incorrect time value " + Quote(render(v)));
      "Bearer token claim " + Quote(n) + (" contains incorrect time value " + Quote(render(v)))
    case AccessDenied => "Access denied"
  }
}
