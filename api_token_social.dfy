/**
 * Social login (api-token-social.go): Facebook and Google logins trade
 * the client's token for a long-lived provider token, resolve the
 * provider's identity, create an activated account for a new email, and
 * issue the service's tokens with the provider token embedded.
 */
module SocialApi {
  import opened Wrappers
  import opened Text
  import opened Db
  import opened Jwt
  import opened Options
  import opened Env
  import opened TokenApi

  /** The email and name a provider vouches for. */
  datatype Identity = Identity(email: string, name: string)

  /** processCreateActivatedUserIfNeeded: whether to go on, and the table afterwards. */
  datatype Provision = Provision(ok: bool, users: Users)

  // -----------------------------------------------------------------------
  // Identity resolution
  // -----------------------------------------------------------------------

  /**
   * processFacebookToken: the profile must name an email and a name; the
   * email's bytes are read as Latin-1 (toUtf8).
   */
  function FacebookIdentity(p: Profile): Result<Identity, Reply>
  {
    match p
    case ProfileUnreachable => Err(Fail(500))
    case ProfileRejected => Err(Fail(400))
    case ProfileUnparsable => Err(Fail(500))
    case ProfileBody(email, name) =>
      if email.None? then Err(Fail(400))
      else if name.None? then Err(Fail(400))
      else Ok(Identity(Latin1Decode(email.value), name.value))
  }

  /** processFacebookToken, running the toUtf8 loop on the profile's email. */
  method ProcessFacebookToken(p: Profile) returns (r: Result<Identity, Reply>)
    ensures r == FacebookIdentity(p)
  {
    match p {
      case ProfileUnreachable => r := Err(Fail(500));
      case ProfileRejected => r := Err(Fail(400));
      case ProfileUnparsable => r := Err(Fail(500));
      case ProfileBody(email, name) =>
        if email.None? {
          return Err(Fail(400));
        }
        var temail := ToUtf8(email.value);
        if name.None? {
          return Err(Fail(400));
        }
        r := Ok(Identity(temail, name.value));
    }
  }

  /**
   * processGoogleRefreshAccessToken: trade the refresh token for an access
   * token, then read the profile. A failed request answers 400; a missing
   * field ends the request without any response.
   */
  function GoogleIdentity(access: JsonReply, userinfo: JsonReply): Result<Identity, Reply>
  {
    if access.RequestFailed? then Err(Fail(400))
    else if "access_token" !in access.fields then Err(Silent)
    else if userinfo.RequestFailed? then Err(Fail(400))
    else if "email" !in userinfo.fields then Err(Silent)
    else if "name" !in userinfo.fields then Err(Silent)
    else Ok(Identity(userinfo.fields["email"], userinfo.fields["name"]))
  }

  /**
   * Facebook's profile must carry both an email and a name (else 400), and
   * the identity's email has one character per byte of the raw email,
   * character i being byte i.
   */
  lemma FacebookIdentityChecks(p: Profile)
    ensures p.ProfileBody? && (p.email.None? || p.name.None?) ==> FacebookIdentity(p) == Err(Fail(400))
    ensures FacebookIdentity(p).Ok? <==> p.ProfileBody? && p.email.Some? && p.name.Some?
    ensures FacebookIdentity(p).Ok? ==>
      var id := FacebookIdentity(p).value;
      && id.name == p.name.value
      && |id.email| == |p.email.value|
      && (forall i :: 0 <= i < |id.email| ==> id.email[i] as int == p.email.value[i] as int)
  {
  }

  /**
   * Google's identity resolves exactly when the token request answers with
   * an access token and the profile request with an email and a name, and
   * it is then exactly that email and name.
   */
  lemma GoogleIdentityChecks(access: JsonReply, userinfo: JsonReply)
    ensures GoogleIdentity(access, userinfo).Ok? <==>
      && access.JsonBody? && "access_token" in access.fields
      && userinfo.JsonBody? && "email" in userinfo.fields && "name" in userinfo.fields
    ensures GoogleIdentity(access, userinfo).Ok? ==>
      GoogleIdentity(access, userinfo).value == Identity(userinfo.fields["email"], userinfo.fields["name"])
    ensures access.JsonBody? && "access_token" !in access.fields ==> GoogleIdentity(access, userinfo) == Err(Silent)
  {
  }

  // -----------------------------------------------------------------------
  // Provisioning (processCreateActivatedUserIfNeeded)
  // -----------------------------------------------------------------------

  /** The account created for a new social identity: enabled, activated now, no password. */
  function NewSocialAccount(id: Identity, now: Time): Account
  {
    Account(id.name, id.email, "", None, Some(now), 0, None, true, None, now)
  }

  /**
   * Create the account only when the lookup reports no row at all for the
   * email; any other answer of the lookup, a store error included, counts
   * as an existing account.
   */
  function CreateActivatedUserIfNeeded(users: Users, id: Identity, now: Time, faults: Faults): Provision
  {
    if First(users, id.email, AnyRow, faults.provisionLookup).NotFound? then
      match Insert(users, NewSocialAccount(id, now))
      case Some(after) => if faults.create then Provision(false, users) else Provision(true, after)
      case None => Provision(false, users)
    else Provision(true, users)
  }

  method ProcessCreateActivatedUserIfNeeded(db: Store, id: Identity, now: Time, faults: Faults) returns (ok: bool)
    requires db.Valid()
    modifies db
    ensures db.Valid()
    ensures Provision(ok, db.users) == CreateActivatedUserIfNeeded(old(db.users), id, now, faults)
  {
    ok := true;
    if First(db.users, id.email, AnyRow, faults.provisionLookup).NotFound? {
      var u := Account(id.name, id.email, "", None, Some(now), 0, None, true, None, now);
      ok := db.Create(u, faults.create);
    }
  }

  /**
   * A new email gets exactly one new row: enabled, activated now, named as
   * the provider says, with clear counters; a failed insert reports false
   * and writes nothing. An email that has any row, activated or not, is
   * left alone and provisioning goes on.
   */
  lemma ProvisionInsertsOnlyIfAbsent(users: Users, id: Identity, now: Time, faults: Faults)
    requires Keyed(users)
    ensures var p := CreateActivatedUserIfNeeded(users, id, now, faults);
      && Keyed(p.users)
      && (id.email in users || faults.provisionLookup ==> p == Provision(true, users))
      && (id.email !in users && !faults.provisionLookup && faults.create ==> p == Provision(false, users))
      && (id.email !in users && !faults.provisionLookup && !faults.create ==>
            && p.ok
            && p.users.Keys == users.Keys + {id.email}
            && (forall e :: e in users ==> p.users[e] == users[e])
            && var a := p.users[id.email];
               a.name == id.name && a.email == id.email && a.enabled && a.activationDate == Some(now)
               && a.creationDate == now && a.wrongPasswordCount == 0 && a.wrongPasswordDate.None?)
  {
  }

  // -----------------------------------------------------------------------
  // The two logins
  // -----------------------------------------------------------------------

  /**
   * After the identity is known: provision, require an activated account,
   * issue. The issuance is AsWritten for the source's handlers; Corrected
   * is the Google fix of the findings.
   */
  function ProvisionAndIssue(issuance: Issuance, users: Users, id: Identity, authType: string, providerToken: string,
                             opts: Options, w: World): Outcome
  {
    var p := CreateActivatedUserIfNeeded(users, id, w.now, w.faults);
    if !p.ok then Outcome(Fail(500), p.users)
    else match ActivatedAccount(id.email, p.users, w.faults.lookup)
      case Err(r) => Outcome(r, p.users)
      case Ok(u) => Outcome(ValidateAndIssue(issuance, u, opts, authType, providerToken, w.now, w.faults.signing), p.users)
  }

  method FinishSocialLogin(issuance: Issuance, db: Store, id: Identity, authType: string, providerToken: string,
                           opts: Options, w: World) returns (reply: Reply)
    requires db.Valid()
    modifies db
    ensures db.Valid()
    ensures Outcome(reply, db.users) == ProvisionAndIssue(issuance, old(db.users), id, authType, providerToken, opts, w)
  {
    var ok := ProcessCreateActivatedUserIfNeeded(db, id, w.now, w.faults);
    if !ok {
      return Fail(500);
    }
    var found := ActivatedAccount(id.email, db.users, w.faults.lookup);
    if found.Err? {
      return found.error;
    }
    reply := ValidateAndIssue(issuance, found.value, opts, authType, providerToken, w.now, w.faults.signing);
  }

  /**
   * processFacebookLogin. The short-lived token only goes into the exchange
   * request, whose answer is part of the world.
   */
  function FacebookLogin(users: Users, shortLivedToken: string, opts: Options, w: World): Outcome
  {
    if opts.facebookClientID == "" || opts.facebookClientSecret == "" then Outcome(Fail(400), users)
    else match w.fbExchange
      case ExchangeUnreachable => Outcome(Fail(500), users)
      case ExchangeRejected => Outcome(Fail(400), users)
      case ExchangeUnparsable => Outcome(Fail(500), users)
      case ExchangeBody(fields) =>
        if "access_token" !in fields then Outcome(Fail(500), users)
        else match FacebookIdentity(w.fbProfile)
          case Err(r) => Outcome(r, users)
          case Ok(id) => ProvisionAndIssue(AsWritten, users, id, "facebook", fields["access_token"], opts, w)
  }

  method ProcessFacebookLogin(db: Store, shortLivedToken: string, opts: Options, w: World) returns (reply: Reply)
    requires db.Valid()
    modifies db
    ensures db.Valid()
    ensures Outcome(reply, db.users) == FacebookLogin(old(db.users), shortLivedToken, opts, w)
  {
    if opts.facebookClientID == "" || opts.facebookClientSecret == "" {
      return Fail(400);
    }
    match w.fbExchange {
      case ExchangeUnreachable => reply := Fail(500);
      case ExchangeRejected => reply := Fail(400);
      case ExchangeUnparsable => reply := Fail(500);
      case ExchangeBody(fields) =>
        if "access_token" !in fields {
          return Fail(500);
        }
        var facebookRefreshToken := fields["access_token"];
        var identity := ProcessFacebookToken(w.fbProfile);
        if identity.Err? {
          return identity.error;
        }
        reply := FinishSocialLogin(AsWritten, db, identity.value, "facebook", facebookRefreshToken, opts, w);
    }
  }

  /**
   * processGoogleLogin: the authorization code is traded for a refresh
   * token first. The source's handler is GoogleLogin(AsWritten, ...).
   */
  function GoogleLogin(issuance: Issuance, users: Users, authCode: string, opts: Options, w: World): Outcome
  {
    if opts.googleClientID == "" || opts.googleClientSecret == "" then Outcome(Fail(400), users)
    else match w.googleCode
      case RequestFailed => Outcome(Fail(400), users)
      case JsonBody(fields) =>
        if "refresh_token" !in fields then Outcome(Fail(500), users)
        else match GoogleIdentity(w.googleAccess, w.googleUserinfo)
          case Err(r) => Outcome(r, users)
          case Ok(id) => ProvisionAndIssue(issuance, users, id, "google", fields["refresh_token"], opts, w)
  }

  method ProcessGoogleLogin(issuance: Issuance, db: Store, authCode: string, opts: Options, w: World) returns (reply: Reply)
    requires db.Valid()
    modifies db
    ensures db.Valid()
    ensures Outcome(reply, db.users) == GoogleLogin(issuance, old(db.users), authCode, opts, w)
  {
    if opts.googleClientID == "" || opts.googleClientSecret == "" {
      return Fail(400);
    }
    match w.googleCode {
      case RequestFailed => reply := Fail(400);
      case JsonBody(fields) =>
        if "refresh_token" !in fields {
          return Fail(500);
        }
        var googleRefreshToken := fields["refresh_token"];
        var identity := GoogleIdentity(w.googleAccess, w.googleUserinfo);
        if identity.Err? {
          return identity.error;
        }
        reply := FinishSocialLogin(issuance, db, identity.value, "google", googleRefreshToken, opts, w);
    }
  }

  // -----------------------------------------------------------------------
  // Properties
  // -----------------------------------------------------------------------

  /** Without both client id and secret a provider's login answers 400 whatever the provider would say. */
  lemma DisabledProviderRefused(issuance: Issuance, users: Users, token: string, opts: Options, w: World)
    ensures opts.facebookClientID == "" || opts.facebookClientSecret == "" ==>
      FacebookLogin(users, token, opts, w) == Outcome(Fail(400), users)
    ensures opts.googleClientID == "" || opts.googleClientSecret == "" ==>
      GoogleLogin(issuance, users, token, opts, w) == Outcome(Fail(400), users)
  {
  }

  /**
   * The only change a Facebook login can make to the table is the one row
   * provisioned for the identity it resolved, and only for an email that
   * had no row; every failure before identity resolution leaves the table alone.
   */
  lemma FacebookLoginOnlyProvisions(users: Users, token: string, opts: Options, w: World)
    requires Keyed(users)
    ensures var r := FacebookLogin(users, token, opts, w);
      && Keyed(r.users)
      && (r.users != users ==>
            && FacebookIdentity(w.fbProfile).Ok?
            && var id := FacebookIdentity(w.fbProfile).value;
               id.email !in users && r.users == users[id.email := NewSocialAccount(id, w.now)])
  {
    if FacebookIdentity(w.fbProfile).Ok? {
      ProvisionInsertsOnlyIfAbsent(users, FacebookIdentity(w.fbProfile).value, w.now, w.faults);
    }
  }

  /** The same for a Google login. */
  lemma GoogleLoginOnlyProvisions(issuance: Issuance, users: Users, code: string, opts: Options, w: World)
    requires Keyed(users)
    ensures var r := GoogleLogin(issuance, users, code, opts, w);
      && Keyed(r.users)
      && (r.users != users ==>
            && GoogleIdentity(w.googleAccess, w.googleUserinfo).Ok?
            && var id := GoogleIdentity(w.googleAccess, w.googleUserinfo).value;
               id.email !in users && r.users == users[id.email := NewSocialAccount(id, w.now)])
  {
    if GoogleIdentity(w.googleAccess, w.googleUserinfo).Ok? {
      ProvisionInsertsOnlyIfAbsent(users, GoogleIdentity(w.googleAccess, w.googleUserinfo).value, w.now, w.faults);
    }
  }

  /**
   * A social login does not activate a pending local registration: the
   * account keeps its missing activation date and the login answers 450.
   */
  lemma PendingAccountStaysPending(users: Users, token: string, opts: Options, w: World)
    requires Keyed(users)
    requires opts.facebookClientID != "" && opts.facebookClientSecret != ""
    requires w.fbExchange.ExchangeBody? && "access_token" in w.fbExchange.fields
    requires FacebookIdentity(w.fbProfile).Ok?
    requires var e := FacebookIdentity(w.fbProfile).value.email; e in users && users[e].activationDate.None?
    requires !w.faults.lookup
    ensures FacebookLogin(users, token, opts, w) == Outcome(Fail(450), users)
  {
  }

  /**
   * A successful Facebook login names the provider's account and embeds
   * the long-lived token from the exchange; the short-lived token the
   * client sent plays no part.
   */
  lemma FacebookEmbedsLongLivedToken(users: Users, token: string, other: string, opts: Options, w: World)
    requires Keyed(users)
    ensures FacebookLogin(users, other, opts, w) == FacebookLogin(users, token, opts, w)
    ensures FacebookLogin(users, token, opts, w).reply.Tokens? ==>
      var g := FacebookLogin(users, token, opts, w).reply.grant;
      && w.fbExchange.ExchangeBody? && "access_token" in w.fbExchange.fields
      && FacebookIdentity(w.fbProfile).Ok? && g.email == FacebookIdentity(w.fbProfile).value.email
      && g.authType == "facebook"
      && g.refreshClaims == map["facebookToken" := Str(w.fbExchange.fields["access_token"])]
  {
    if FacebookIdentity(w.fbProfile).Ok? {
      ProvisionInsertsOnlyIfAbsent(users, FacebookIdentity(w.fbProfile).value, w.now, w.faults);
    }
  }

  /**
   * A successful Google login names the provider's account. As written it
   * embeds nothing in the refresh token; the corrected issuance embeds the
   * refresh token from the code exchange.
   */
  lemma GoogleEmbedsRefreshToken(issuance: Issuance, users: Users, code: string, opts: Options, w: World)
    requires Keyed(users)
    ensures GoogleLogin(issuance, users, code, opts, w).reply.Tokens? ==>
      var g := GoogleLogin(issuance, users, code, opts, w).reply.grant;
      && w.googleCode.JsonBody? && "refresh_token" in w.googleCode.fields
      && GoogleIdentity(w.googleAccess, w.googleUserinfo).Ok?
      && g.email == GoogleIdentity(w.googleAccess, w.googleUserinfo).value.email
      && g.authType == "google"
      && g.refreshClaims == (if issuance == Corrected
                             then map["googleToken" := Str(w.googleCode.fields["refresh_token"])]
                             else map[])
  {
    if GoogleIdentity(w.googleAccess, w.googleUserinfo).Ok? {
      ProvisionInsertsOnlyIfAbsent(users, GoogleIdentity(w.googleAccess, w.googleUserinfo).value, w.now, w.faults);
    }
  }

  /**
   * Log in with Facebook, then refresh: as long as Facebook still resolves
   * the embedded token to the same profile, the refresh gives the same grant.
   */
  lemma FacebookLoginThenRefresh(users: Users, token: string, opts: Options, w: World,
                                 jti: string, later: World)
    requires Keyed(users)
    requires FacebookLogin(users, token, opts, w).reply.Tokens?
    requires later.fbProfile == w.fbProfile && !later.faults.lookup && !later.faults.signing
    ensures var r := FacebookLogin(users, token, opts, w);
      TokenRefresh(AsWritten, r.users, Some(RefreshTokenClaims(r.reply.grant, opts, w.now, jti)), opts, later) == r.reply
  {
    var r := FacebookLogin(users, token, opts, w);
    var id := FacebookIdentity(w.fbProfile).value;
    FacebookLoginOnlyProvisions(users, token, opts, w);
    ProvisionInsertsOnlyIfAbsent(users, id, w.now, w.faults);
    var u := r.users[id.email];
    RefreshRoundTrip(AsWritten, r.users, u, opts, "facebook", w.fbExchange.fields["access_token"], w.now, jti, later);
  }

  /**
   * Log in with Google, then refresh: with the corrected issuance the
   * refresh gives the same grant; as written it is refused with 450.
   */
  lemma GoogleLoginThenRefresh(issuance: Issuance, users: Users, code: string, opts: Options, w: World,
                               jti: string, later: World)
    requires Keyed(users)
    requires GoogleLogin(issuance, users, code, opts, w).reply.Tokens?
    requires !later.faults.lookup && !later.faults.signing
    ensures var r := GoogleLogin(issuance, users, code, opts, w);
      TokenRefresh(issuance, r.users, Some(RefreshTokenClaims(r.reply.grant, opts, w.now, jti)), opts, later)
        == (if issuance == Corrected then r.reply else Fail(450))
  {
    var r := GoogleLogin(issuance, users, code, opts, w);
    var id := GoogleIdentity(w.googleAccess, w.googleUserinfo).value;
    GoogleLoginOnlyProvisions(issuance, users, code, opts, w);
    ProvisionInsertsOnlyIfAbsent(users, id, w.now, w.faults);
    var u := r.users[id.email];
    if issuance == Corrected {
      RefreshRoundTrip(Corrected, r.users, u, opts, "google", w.googleCode.fields["refresh_token"], w.now, jti, later);
    } else {
      GoogleRefreshRejectedAsWritten(r.users, u, opts, w.googleCode.fields["refresh_token"], w.now, jti, later);
    }
  }
}
