/**
 * The service configuration (the `opt` struct filled from command-line
 * flags at start-up and never changed afterwards), with the flag defaults.
 * The email and password patterns are regular expressions in the service;
 * here they are predicates supplied with the configuration.
 */
module Options {

  datatype Options = Options(
    passwordRetriesMax: int,
    passwordRetriesTimeSeconds: int,
    accessTokenDefaultExpirationMinutes: int,
    refreshTokenDefaultExpirationMinutes: int,
    accessTokenDefaultScope: string,
    accountActivationMethod: string,
    emailPattern: string -> bool,
    passwordValidationPattern: string -> bool,
    facebookClientID: string,
    facebookClientSecret: string,
    googleClientID: string,
    googleClientSecret: string)

  const DefaultPasswordRetriesMax := 5
  const DefaultPasswordRetriesTimeSeconds := 5
  const DefaultAccessTokenExpirationMinutes := 480
  const DefaultRefreshTokenExpirationMinutes := 40320
  const DefaultAccessTokenScope := "basic"
  const DefaultActivationMethod := "direct"

  /** "^.{6,30}$": six to thirty characters, none of them a newline. */
  predicate DefaultPasswordPattern(p: string)
  {
    6 <= |p| <= 30 && '\n' !in p
  }

  /** The configuration the flags give when only the social credentials and the email pattern are set. */
  function Defaults(emailPattern: string -> bool, fbId: string, fbSecret: string, gId: string, gSecret: string): Options
  {
    Options(
      DefaultPasswordRetriesMax, DefaultPasswordRetriesTimeSeconds,
      DefaultAccessTokenExpirationMinutes, DefaultRefreshTokenExpirationMinutes,
      DefaultAccessTokenScope, DefaultActivationMethod,
      emailPattern, DefaultPasswordPattern, fbId, fbSecret, gId, gSecret)
  }
}
