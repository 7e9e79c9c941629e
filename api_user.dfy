/**
 * PUT /user/:email (createUser in api-user.go): register an account for
 * the email in the path. The inputs are validated in order, an activated
 * account blocks the email, a pending one is replaced, and the new
 * account is either activated at once ("direct") or waits for an
 * activation token.
 */
module UserApi {
  import opened Wrappers
  import opened Text
  import opened Db
  import opened Jwt
  import opened Options
  import opened Env
  import opened TokenApi

  /** The reply, the table afterwards, and the claims of the activation token sent by mail, if any. */
  datatype Registration = Registration(reply: Reply, users: Users, activationToken: Option<Claims>)

  /** The name rule ^.{4,}$: at least four characters, none of them a newline. */
  predicate ValidName(name: string)
  {
    |name| >= 4 && '\n' !in name
  }

  /** The first validation that fails, in the order the handler checks them. */
  function ValidationFailure(m: map<string, string>, opts: Options): Option<Reply>
  {
    if "email" !in m || !opts.emailPattern(m["email"]) then Some(Fail(450))
    else if "name" !in m || !ValidName(m["name"]) then Some(Fail(450))
    else if "password" !in m || !opts.passwordValidationPattern(m["password"]) then Some(Fail(460))
    else None
  }

  /** The row written for a registration: enabled, hashed password dated now, activated now only for "direct". */
  function NewLocalAccount(email: string, name: string, hash: string, now: Time, opts: Options): Account
  {
    Account(name, email, hash, Some(now),
            if opts.accountActivationMethod == "direct" then Some(now) else None,
            0, None, true, None, now)
  }

  /** The activation token's claims: five minutes, type "activate-user". */
  function ActivationClaims(email: string, now: Time, jti: string): Claims
  {
    CreateJwtClaims(email, 5, "activate-user", "", now, jti)
  }

  /** createUser on the path's email and the request body (None when it does not parse). */
  function CreateUser(users: Users, pathEmail: string, body: Option<map<string, string>>, opts: Options, w: World): Registration
  {
    var email := ToLower(pathEmail);
    if body.None? then Registration(Fail(400), users, None)
    else
      var m := body.value["email" := email];
      var invalid := ValidationFailure(m, opts);
      if invalid.Some? then Registration(invalid.value, users, None)
      else
        var existing := First(users, email, AnyRow, false);
        if existing.Found? && existing.account.activationDate.Some? then Registration(Fail(455), users, None)
        else if existing.Found? && w.faults.delete then Registration(Fail(500), users, None)
        else
          var cleared := if existing.Found? then Remove(users, email) else users;
          match w.bcrypt.generate(m["password"])
          case None => Registration(Fail(500), cleared, None)
          case Some(hash) =>
            if w.faults.create then Registration(Fail(500), cleared, None)
            else
              var after := cleared[email := NewLocalAccount(email, m["name"], hash, w.now, opts)];
              if opts.accountActivationMethod == "direct" then Registration(Created, after, None)
              else if w.faults.signing then Registration(Fail(500), after, None)
              else Registration(Silent, after, Some(ActivationClaims(email, w.now, w.jti)))
  }

  method ProcessCreateUser(db: Store, pathEmail: string, body: Option<map<string, string>>, opts: Options, w: World)
    returns (reply: Reply, activationToken: Option<Claims>)
    requires db.Valid()
    modifies db
    ensures db.Valid()
    ensures Registration(reply, db.users, activationToken) == CreateUser(old(db.users), pathEmail, body, opts, w)
  {
    var email := ToLower(pathEmail);
    activationToken := None;
    if body.None? {
      return Fail(400), None;
    }
    var m := body.value["email" := email];
    if !opts.emailPattern(m["email"]) {
      return Fail(450), None;
    }
    if "name" !in m || !ValidName(m["name"]) {
      return Fail(450), None;
    }
    if "password" !in m || !opts.passwordValidationPattern(m["password"]) {
      return Fail(460), None;
    }
    var existing := First(db.users, email, AnyRow, false);
    if existing.Found? {
      if existing.account.activationDate.Some? {
        return Fail(455), None;
      }
      var deleted := db.Delete(email, w.faults.delete);
      if !deleted {
        return Fail(500), None;
      }
    }
    var phash := w.bcrypt.generate(m["password"]);
    if phash.None? {
      return Fail(500), None;
    }
    var u0 := Account(m["name"], email, phash.value, Some(w.now), None, 0, None, true, None, w.now);
    if opts.accountActivationMethod == "direct" {
      u0 := u0.(activationDate := Some(w.now));
    }
    var created := db.Create(u0, w.faults.create);
    if !created {
      return Fail(500), None;
    }
    if opts.accountActivationMethod == "direct" {
      return Created, None;
    }
    if w.faults.signing {
      return Fail(500), None;
    }
    reply, activationToken := Silent, Some(ActivationClaims(email, w.now, w.jti));
  }

  /**
   * The inputs are checked in order (email 450, name 450, password 460)
   * and the first failure decides; a failed validation writes nothing. The
   * email comes from the path, lower-cased, whatever the body says.
   */
  lemma ValidationOrder(users: Users, path: string, m: map<string, string>, opts: Options, w: World, bodyEmail: string)
    ensures CreateUser(users, path, None, opts, w) == Registration(Fail(400), users, None)
    ensures CreateUser(users, path, Some(m["email" := bodyEmail]), opts, w) == CreateUser(users, path, Some(m), opts, w)
    ensures !opts.emailPattern(ToLower(path)) ==> CreateUser(users, path, Some(m), opts, w) == Registration(Fail(450), users, None)
    ensures opts.emailPattern(ToLower(path)) && ("name" !in m || !ValidName(m["name"]))
      ==> CreateUser(users, path, Some(m), opts, w) == Registration(Fail(450), users, None)
    ensures opts.emailPattern(ToLower(path)) && "name" in m && ValidName(m["name"])
      && ("password" !in m || !opts.passwordValidationPattern(m["password"]))
      ==> CreateUser(users, path, Some(m), opts, w) == Registration(Fail(460), users, None)
  {
    assert m["email" := bodyEmail]["email" := ToLower(path)] == m["email" := ToLower(path)];
  }

  /** All validations pass for this request. */
  predicate Acceptable(path: string, m: map<string, string>, opts: Options)
  {
    ValidationFailure(m["email" := ToLower(path)], opts).None?
  }

  /** An email with an activated account is refused with 455 and nothing changes. */
  lemma DuplicateRefused(users: Users, path: string, m: map<string, string>, opts: Options, w: World)
    requires Acceptable(path, m, opts)
    requires ToLower(path) in users && users[ToLower(path)].activationDate.Some?
    ensures CreateUser(users, path, Some(m), opts, w) == Registration(Fail(455), users, None)
  {
  }

  /**
   * A successful registration writes exactly one row, under the
   * lower-cased path email, and leaves every other row alone: a pending
   * row for that email is replaced. The row is enabled, named as the body
   * says, holds the generated hash dated now and clear counters, and is
   * activated now exactly for the "direct" method. "direct" answers 201;
   * otherwise a five-minute "activate-user" token for the email is minted.
   */
  lemma RegistrationOutcome(users: Users, path: string, m: map<string, string>, opts: Options, w: World)
    requires Keyed(users)
    requires CreateUser(users, path, Some(m), opts, w).reply in {Created, Silent}
    ensures var r := CreateUser(users, path, Some(m), opts, w);
      var email := ToLower(path);
      var a := r.users[email];
      && Keyed(r.users)
      && ToLower(email) == email
      && r.users.Keys == users.Keys + {email}
      && (forall e :: e in users && e != email ==> r.users[e] == users[e])
      && a.email == email && a.name == m["name"] && a.enabled
      && w.bcrypt.generate(m["password"]) == Some(a.passwordHash)
      && a.passwordDate == Some(w.now) && a.creationDate == w.now
      && a.wrongPasswordCount == 0 && a.wrongPasswordDate.None? && a.passwordValidUntil.None?
      && (a.activationDate.Some? <==> opts.accountActivationMethod == "direct")
      && (a.activationDate.Some? ==> a.activationDate == Some(w.now))
      && (opts.accountActivationMethod == "direct" ==> r.reply == Created && r.activationToken.None?)
      && (opts.accountActivationMethod != "direct" ==>
            && r.reply == Silent && r.activationToken.Some?
            && r.activationToken.value["sub"] == Str(email)
            && r.activationToken.value["typ"] == Str("activate-user")
            && Lifetime(r.activationToken.value) == 300)
  {
    ToLowerIdempotent(path);
    var email := ToLower(path);
    var m' := m["email" := email];
    assert m'["password"] == m["password"] && m'["name"] == m["name"];
  }

  /**
   * Until the account is activated, its tokens are told apart by type: the
   * activation token of a registration that waits for activation is
   * answered by the info endpoint with its claims unchanged, while an
   * access or refresh token for the same email is refused with 460.
   */
  lemma PendingAccountTokenTypes(users: Users, path: string, m: map<string, string>, opts: Options, w: World,
                                 minutes: int, scopes: string, at: Time, jti: string)
    requires Keyed(users)
    requires CreateUser(users, path, Some(m), opts, w).reply == Silent
    ensures var r := CreateUser(users, path, Some(m), opts, w);
      && r.activationToken.Some?
      && TokenInfo(r.users, r.activationToken, false) == Info(r.activationToken.value)
      && TokenInfo(r.users, Some(CreateJwtClaims(ToLower(path), minutes, "access", scopes, at, jti)), false) == Fail(460)
      && TokenInfo(r.users, Some(CreateJwtClaims(ToLower(path), minutes, "refresh", scopes, at, jti)), false) == Fail(460)
  {
    RegistrationOutcome(users, path, m, opts, w);
  }

  /**
   * After a pending row was deleted, a hashing or insert failure answers
   * 500 and the deletion stays.
   */
  lemma FailureAfterDeletionKeepsIt(users: Users, path: string, m: map<string, string>, opts: Options, w: World)
    requires Acceptable(path, m, opts)
    requires ToLower(path) in users && users[ToLower(path)].activationDate.None?
    requires !w.faults.delete
    requires w.bcrypt.generate(m["password"]).None? || w.faults.create
    ensures CreateUser(users, path, Some(m), opts, w) == Registration(Fail(500), users - {ToLower(path)}, None)
  {
    var m' := m["email" := ToLower(path)];
    assert m'["password"] == m["password"];
  }

  /**
   * Register with the "direct" method, then log in with the same password:
   * the login issues tokens for the new account, given that bcrypt accepts
   * the password against the hash it generated.
   */
  lemma RegisterThenLogin(users: Users, path: string, m: map<string, string>, opts: Options, w: World, later: World)
    requires Keyed(users)
    requires CreateUser(users, path, Some(m), opts, w).reply == Created
    requires "password" in m && w.bcrypt.generate(m["password"]).Some?
    requires later.bcrypt.matches(w.bcrypt.generate(m["password"]).value, m["password"])
    requires !later.faults.lookup && !later.faults.reset && !later.faults.signing
    ensures var r := CreateUser(users, path, Some(m), opts, w);
      var login := LocalPasswordLogin(r.users, map["email" := ToLower(path), "password" := m["password"]], opts, later);
      && login.reply.Tokens?
      && login.reply.grant.email == ToLower(path)
      && login.reply.grant.authType == "password"
      && login.users == r.users
  {
    RegistrationOutcome(users, path, m, opts, w);
    var r := CreateUser(users, path, Some(m), opts, w);
    var body := map["email" := ToLower(path), "password" := m["password"]];
    assert ReachesComparison(r.users, body, opts, later);
    RightPasswordResets(r.users, body, opts, later);
    assert r.users[ToLower(path) := r.users[ToLower(path)].(wrongPasswordCount := 0, wrongPasswordDate := None)] == r.users;
  }
}
