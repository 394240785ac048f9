/**
 * The values the token library hands to the handler: JSON values as the Go
 * JSON decoder produces them into `interface{}`, claim sets and token headers
 * as string-keyed maps of such values, parsed tokens, and the library's
 * validation failures.
 */
module Jwt {

  /**
   * A decoded JSON value. Numbers are `float64` in Go; only the fact that a
   * value is a number matters here, so the payload is a real.
   */
  datatype Json =
    | JNull
    | JBool(b: bool)
    | JNumber(n: real)
    | JString(s: string)
    | JArray(items: seq<Json>)
    | JObject(fields: map<string, Json>)

  /** `jwt.MapClaims`, and equally the token's JOSE header. */
  type Claims = map<string, Json>

  /** A token the library parsed and verified. */
  datatype Token = Token(raw: string, header: Claims, claims: Claims)

  /**
   * The bits of `jwt.ValidationError.Errors` the handler tests; every other
   * bit the library may set is `OtherFlag`.
   */
  datatype ValidationFlag =
    | Malformed
    | Unverifiable
    | SignatureInvalid
    | Expired
    | IssuedAt
    | NotValidYet
    | OtherFlag

  /** The error returned by `ParseWithClaims`. */
  datatype LibraryError =
    | ValidationError(flags: set<ValidationFlag>)
    | OtherError
}
