/**
 * The claim set of a session token as createJWTToken builds it (utils.go).
 * Signing with the configured key is not modelled: a token here is its
 * claim map.
 */
module Jwt {
  import opened Db

  datatype ClaimValue = Str(s: string) | Num(n: int) | List(items: seq<string>)

  type Claims = map<string, ClaimValue>

  const Issuer := "userme"

  /**
   * The claims createJWTToken(email, expirationMinutes, typ, scopes) signs
   * at time now: a token names its subject, type and scopes exactly as
   * asked, is issued by "userme", becomes valid at once and lives
   * expirationMinutes minutes.
   */
  function CreateJwtClaims(email: string, expirationMinutes: int, typ: string, scopes: string,
                           now: Time, jti: string): (c: Claims)
    ensures c.Keys == {"iss", "sub", "exp", "iat", "nbf", "jti", "scope", "typ"}
    ensures c["iss"] == Str("userme") && c["sub"] == Str(email) && c["typ"] == Str(typ)
    ensures c["scope"] == Str(scopes) && c["jti"] == Str(jti)
    ensures c["iat"] == c["nbf"] == Num(now)
    ensures c["exp"].Num? && Lifetime(c) == 60 * expirationMinutes
  {
    map[
      "iss" := Str(Issuer),
      "sub" := Str(email),
      "exp" := Num(now + 60 * expirationMinutes),
      "iat" := Num(now),
      "nbf" := Num(now),
      "jti" := Str(jti),
      "scope" := Str(scopes),
      "typ" := Str(typ)]
  }

  /** The seconds between issue and expiry. */
  function Lifetime(c: Claims): int
    requires "exp" in c && "iat" in c && c["exp"].Num? && c["iat"].Num?
  {
    c["exp"].n - c["iat"].n
  }
}
