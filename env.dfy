/**
 * What the outside world answers while one request is handled: the clock,
 * errors reported by the store, bcrypt, the Facebook and Google endpoints,
 * token signing and the random token id. The handlers are modelled as
 * functions of these answers; nothing here is decided by the service.
 */
module Env {
  import opened Wrappers
  import opened Text
  import opened Db

  /** Which store statements (and the token signer) report an error. */
  datatype Faults = Faults(
    lookup: bool,           // the lookup of the activated (or enabled) account
    provisionLookup: bool,  // the lookup that decides whether a social account must be created
    countWrite: bool,       // UpdateColumn("wrong_password_count", ...)
    dateWrite: bool,        // UpdateColumn("wrong_password_date", ...)
    reset: bool,            // resetWrongPasswordCounters
    create: bool,           // db.Create
    delete: bool,           // db.Unscoped().Delete
    signing: bool)          // minting the token pair or the activation token

  const NoFaults := Faults(false, false, false, false, false, false, false, false)

  /** bcrypt: CompareHashAndPassword succeeds, and GenerateFromPassword's hash (None on error). */
  datatype Bcrypt = Bcrypt(matches: (string, string) -> bool, generate: string -> Option<string>)

  /** Facebook's answer to the long-lived token exchange (fb_exchange_token). */
  datatype Exchange =
    | ExchangeUnreachable          // http.Get failed
    | ExchangeRejected             // status other than 200
    | ExchangeUnparsable           // body is not a JSON object
    | ExchangeBody(fields: map<string, string>)

  /** Facebook's answer to /me?fields=email,name; the email is kept as raw bytes. */
  datatype Profile =
    | ProfileUnreachable
    | ProfileRejected
    | ProfileUnparsable
    | ProfileBody(email: Option<seq<byte>>, name: Option<string>)

  /** requestURLWithJsonResponse: an error, or the fields of the JSON answer. */
  datatype JsonReply = RequestFailed | JsonBody(fields: map<string, string>)

  datatype World = World(
    now: Time,
    faults: Faults,
    bcrypt: Bcrypt,
    fbExchange: Exchange,
    fbProfile: Profile,
    googleCode: JsonReply,      // authorization code -> refresh token
    googleAccess: JsonReply,    // refresh token -> access token
    googleUserinfo: JsonReply,  // access token -> profile
    jti: string)
}
