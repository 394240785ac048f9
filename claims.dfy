/**
 * The checks the handler adds on top of the token library: the required
 * claims `typ`, `iat` and `exp` (`checkClaims` and its helpers) and the
 * access control list (`checkACL`).
 */
module ClaimChecks {
  import opened Wrappers
  import opened Ascii
  import opened Jwt
  import opened Reasons

  /** `checkClaim`: the claim must be present. */
  function CheckClaim(claims: Claims, name: string): (r: Result<Json, Reason>)
    ensures r.Success? <==> name in claims
    ensures r.Success? ==> r.value == claims[name]
    ensures r.Failure? ==> r.error == MissingClaim(name)
  {
    if name in claims then Success(claims[name]) else Failure(MissingClaim(name))
  }

  /** `checkStringClaim`: present and a JSON string. */
  function CheckStringClaim(claims: Claims, name: string): (r: Result<string, Reason>)
    ensures r.Success? <==> name in claims && claims[name].JString?
    ensures r.Success? ==> r.value == claims[name].s
    ensures name !in claims ==> r == Failure(MissingClaim(name))
    ensures name in claims && !claims[name].JString? ==> r == Failure(IncorrectTextValue(name, claims[name]))
  {
    match CheckClaim(claims, name)
    case Failure(reason) => Failure(reason)
    case Success(JString(s)) => Success(s)
    case Success(other) => Failure(IncorrectTextValue(name, other))
  }

  /**
   * `checkTimeClaim`: present and a JSON number. The conversion of the
   * number to a `time.Time` is discarded by the caller and is not modelled.
   */
  function CheckTimeClaim(claims: Claims, name: string): (r: Result<real, Reason>)
    ensures r.Success? <==> name in claims && claims[name].JNumber?
    ensures name !in claims ==> r == Failure(MissingClaim(name))
    ensures name in claims && !claims[name].JNumber? ==> r == Failure(IncorrectTimeValue(name, claims[name]))
  {
    match CheckClaim(claims, name)
    case Failure(reason) => Failure(reason)
    case Success(JNumber(n)) => Success(n)
    case Success(other) => Failure(IncorrectTimeValue(name, other))
  }

  /** What `checkClaims` accepts of one required claim. */
  predicate TypAcceptable(claims: Claims) {
    "typ" in claims && claims["typ"].JString? && EqualFold(claims["typ"].s, "Bearer")
  }

  predicate TimeAcceptable(claims: Claims, name: string) {
    name in claims && claims[name].JNumber?
  }

  /**
   * `checkClaims`: `typ`, then `iat`, then `exp`; the first failure is the
   * one reported.
   */
  function CheckClaims(claims: Claims): (r: Outcome<Reason>)
    ensures r.Pass? <==> TypAcceptable(claims) && TimeAcceptable(claims, "iat") && TimeAcceptable(claims, "exp")
    ensures "typ" !in claims ==> r == Fail(MissingClaim("typ"))
    ensures "typ" in claims && !claims["typ"].JString? ==> r == Fail(IncorrectTextValue("typ", claims["typ"]))
    ensures "typ" in claims && claims["typ"].JString? && !EqualFold(claims["typ"].s, "Bearer")
            ==> r == Fail(UnsupportedTokenType(claims["typ"].s))
    ensures TypAcceptable(claims) && "iat" !in claims ==> r == Fail(MissingClaim("iat"))
    ensures TypAcceptable(claims) && "iat" in claims && !claims["iat"].JNumber?
            ==> r == Fail(IncorrectTimeValue("iat", claims["iat"]))
    ensures TypAcceptable(claims) && TimeAcceptable(claims, "iat") && "exp" !in claims
            ==> r == Fail(MissingClaim("exp"))
    ensures TypAcceptable(claims) && TimeAcceptable(claims, "iat") && "exp" in claims && !claims["exp"].JNumber?
            ==> r == Fail(IncorrectTimeValue("exp", claims["exp"]))
  {
    match CheckStringClaim(claims, "typ")
    case Failure(reason) => Fail(reason)
    case Success(value) =>
      if !EqualFold(value, "Bearer") then Fail(UnsupportedTokenType(value))
      else match CheckTimeClaim(claims, "iat")
        case Failure(reason) => Fail(reason)
        case Success(_) =>
          match CheckTimeClaim(claims, "exp")
          case Failure(reason) => Fail(reason)
          case Success(_) => Pass
  }

  /**
   * The regular-expression engine: whether the compiled pattern matches the
   * text. Patterns are kept as their source text.
   */
  type Matcher = (string, string) -> bool

  /** The ACL entry for `claim` is satisfied by the claims. */
  predicate EntryMatches(acl: map<string, string>, claims: Claims, matches: Matcher, claim: string) {
    claim in acl && claim in claims && claims[claim].JString? && matches(acl[claim], claims[claim].s)
  }

  /**
   * `checkACL`: an empty list allows everything; otherwise some entry must
   * name a claim that is present, is a string and matches the entry's
   * pattern; a denial always reads "Access denied".
   */
  function CheckACL(acl: map<string, string>, claims: Claims, matches: Matcher): (r: Outcome<Reason>)
    ensures r.Pass? <==> |acl| == 0 || exists claim :: EntryMatches(acl, claims, matches, claim)
    ensures r.Fail? ==> r.error == AccessDenied
  {
    if |acl| == 0 then Pass
    else if exists claim | claim in acl :: EntryMatches(acl, claims, matches, claim) then Pass
    else Fail(AccessDenied)
  }

  /**
   * The `for claim, pattern := range h.aclItems` loop, visiting the entries
   * in the order `order` and stopping at the first entry that matches: it
   * finds a match iff some visited entry matches.
   */
  function ScanAcl(order: seq<string>, acl: map<string, string>, claims: Claims, matches: Matcher): (found: bool)
    ensures found <==> exists k :: 0 <= k < |order| && EntryMatches(acl, claims, matches, order[k])
  {
    if order == [] then false
    else
      assert forall k :: 1 <= k < |order| ==> order[1..][k - 1] == order[k];
      if EntryMatches(acl, claims, matches, order[0]) then true
      else ScanAcl(order[1..], acl, claims, matches)
  }

  /**
   * Map iteration order does not matter: scanning the entries in any order
   * that visits every key of the list gives the outcome of `CheckACL`.
   */
  lemma CheckACLIndependentOfOrder(order: seq<string>, acl: map<string, string>, claims: Claims, matches: Matcher)
    requires forall k :: k in order <==> k in acl
    ensures CheckACL(acl, claims, matches).Pass? <==> (|acl| == 0 || ScanAcl(order, acl, claims, matches))
  {
    if exists claim :: EntryMatches(acl, claims, matches, claim) {
      var claim :| EntryMatches(acl, claims, matches, claim);
      assert claim in order;
      var k :| 0 <= k < |order| && order[k] == claim;
    }
  }
}
