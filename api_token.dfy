/**
 * The token endpoints of the identity service (api-token.go): local
 * password login with lockout and exponential back-off, the gating and
 * issuance step shared by every login path, token refresh and token
 * introspection.
 *
 * Handlers that write to the store are methods over a Db.Store whose
 * postcondition ties the reply and the new table to a function of the old
 * table; the properties are lemmas about those functions.
 */
module TokenApi {
  import opened Wrappers
  import opened Text
  import opened Db
  import opened Jwt
  import opened Options
  import opened Env

  /** The arguments of createAccessAndRefreshToken: who, how they logged in, and the custom claims. */
  datatype TokenGrant = TokenGrant(
    name: string,
    email: string,
    authType: string,
    accessClaims: Claims,
    refreshClaims: Claims)

  /** What a handler writes back. */
  datatype Reply =
    | Fail(status: int)          // an error status with a message
    | Tokens(grant: TokenGrant)  // 200 with the access and refresh tokens
    | Info(claims: Claims)       // 200 with the claims of the presented token
    | Created                    // 201: account created and activated
    | Silent                     // the handler returns without writing any response

  /** A handler's reply and the users table it leaves behind. */
  datatype Outcome = Outcome(reply: Reply, users: Users)

  // -----------------------------------------------------------------------
  // Account lookup (processUserActivated)
  // -----------------------------------------------------------------------

  /** The account with this email whose activation date is set. */
  function ActivatedAccount(email: string, users: Users, fails: bool): Result<Account, Reply>
  {
    match First(users, email, ActivatedOnly, fails)
    case Found(u) => Ok(u)
    case NotFound => Err(Fail(450))
    case Failed => Err(Fail(500))
  }

  /** processUserActivated: the body must name an email, and that email an activated account. */
  function UserActivated(body: map<string, string>, users: Users, fails: bool): Result<Account, Reply>
  {
    if "email" !in body then Err(Fail(400)) else ActivatedAccount(body["email"], users, fails)
  }

  // -----------------------------------------------------------------------
  // Gating and issuance (validateUserAndOutputTokensToResponse)
  // -----------------------------------------------------------------------

  /** Access tokens carry the default scope, split at commas. */
  function AccessClaims(opts: Options): Claims
  {
    map["scope" := List(Split(opts.accessTokenDefaultScope, ','))]
  }

  /**
   * Which issuance runs. AsWritten is validateUserAndOutputTokensToResponse
   * as the source has it: only a Facebook login embeds its social token in
   * the refresh claims. Corrected also embeds a Google login's refresh
   * token, which the refresh endpoint requires (see the Google refresh finding).
   */
  datatype Issuance = AsWritten | Corrected

  /** The custom refresh claims handed to the token signer. */
  function RefreshCustomClaims(issuance: Issuance, authType: string, socialToken: string): Claims
  {
    if authType == "facebook" then map["facebookToken" := Str(socialToken)]
    else if authType == "google" && issuance == Corrected then map["googleToken" := Str(socialToken)]
    else map[]
  }

  predicate PasswordExpired(u: Account, now: Time)
  {
    u.passwordValidUntil.Some? && u.passwordValidUntil.value < now
  }

  /** The gates of issuance and the grant passed to the token signer. */
  function Issue(u: Account, opts: Options, authType: string, refreshClaims: Claims, now: Time, signingFails: bool): Reply
  {
    if !u.enabled then Fail(460)
    else if authType == "password" && PasswordExpired(u, now) then Fail(455)
    else if signingFails then Fail(500)
    else Tokens(TokenGrant(u.name, u.email, authType, AccessClaims(opts), refreshClaims))
  }

  /**
   * validateUserAndOutputTokensToResponse: the reply is a token pair for
   * this account or one of the statuses 460, 455, 500; as written, only a
   * Facebook grant carries refresh claims.
   */
  function ValidateAndIssue(issuance: Issuance, u: Account, opts: Options, authType: string, socialToken: string,
                            now: Time, signingFails: bool): (r: Reply)
    ensures r.Tokens? || (r.Fail? && r.status in {455, 460, 500})
    ensures r.Tokens? ==> r.grant.name == u.name && r.grant.email == u.email && r.grant.authType == authType
    ensures r.Tokens? ==> r.grant.refreshClaims.Keys <= {"facebookToken", "googleToken"}
    ensures issuance == AsWritten && authType != "facebook" && r.Tokens? ==> r.grant.refreshClaims == map[]
  {
    Issue(u, opts, authType, RefreshCustomClaims(issuance, authType, socialToken), now, signingFails)
  }

  /**
   * A disabled account gets 460 whatever else holds; an expired password
   * stops only password logins (455); otherwise the grant names the
   * account and carries the default scope split at commas. As written,
   * only a Facebook grant embeds its social token; the corrected issuance
   * also embeds a Google grant's token, and differs from the source in
   * nothing else.
   */
  lemma IssuanceGates(issuance: Issuance, u: Account, opts: Options, authType: string, socialToken: string,
                      now: Time, signingFails: bool)
    ensures var r := ValidateAndIssue(issuance, u, opts, authType, socialToken, now, signingFails);
      && (!u.enabled ==> r == Fail(460))
      && (u.enabled && authType == "password" && PasswordExpired(u, now) ==> r == Fail(455))
      && (authType != "password" ==> r != Fail(455))
      && (r.Tokens? <==> u.enabled && !(authType == "password" && PasswordExpired(u, now)) && !signingFails)
      && (r.Tokens? ==>
            && r.grant.name == u.name && r.grant.email == u.email && r.grant.authType == authType
            && r.grant.accessClaims == map["scope" := List(Split(opts.accessTokenDefaultScope, ','))]
            && (authType == "facebook" ==> r.grant.refreshClaims == map["facebookToken" := Str(socialToken)])
            && (authType == "google" && issuance == AsWritten ==> r.grant.refreshClaims == map[])
            && (authType == "google" && issuance == Corrected ==> r.grant.refreshClaims == map["googleToken" := Str(socialToken)])
            && (authType != "facebook" && authType != "google" ==> r.grant.refreshClaims == map[]))
    ensures authType != "google" ==>
      ValidateAndIssue(AsWritten, u, opts, authType, socialToken, now, signingFails)
      == ValidateAndIssue(Corrected, u, opts, authType, socialToken, now, signingFails)
  {
  }

  /** Joining the scope claim's items with commas gives back the configured default scope. */
  lemma {:induction false} ScopeClaimRoundTrip(opts: Options)
    ensures AccessClaims(opts)["scope"].List?
    ensures Join(AccessClaims(opts)["scope"].items, ',') == opts.accessTokenDefaultScope
    ensures forall i :: 0 <= i < |AccessClaims(opts)["scope"].items| ==> ',' !in AccessClaims(opts)["scope"].items[i]
  {
    SplitThenJoin(opts.accessTokenDefaultScope, ',');
    SplitPiecesAreSeparatorFree(opts.accessTokenDefaultScope, ',');
  }

  // -----------------------------------------------------------------------
  // Local password login (processLocalPasswordLogin)
  // -----------------------------------------------------------------------

  function Pow2(k: nat): (r: nat)
    ensures r >= 1
  {
    if k == 0 then 1 else 2 * Pow2(k - 1)
  }

  /** The back-off after `count` failures: base * 2^count seconds. */
  function Backoff(opts: Options, count: uint8): int
  {
    opts.passwordRetriesTimeSeconds * Pow2(count as nat)
  }

  /** The counter column is a uint8: adding one wraps at 256. */
  function Inc(c: uint8): uint8
  {
    ((c as int + 1) % 256) as uint8
  }

  predicate LockedOut(u: Account, opts: Options)
  {
    u.wrongPasswordDate.Some? && u.wrongPasswordCount as int >= opts.passwordRetriesMax
  }

  predicate InBackoff(u: Account, opts: Options, now: Time)
  {
    u.wrongPasswordDate.Some? && now < u.wrongPasswordDate.value + Backoff(opts, u.wrongPasswordCount)
  }

  /** The two column writes after a wrong password; each one may fail on its own. */
  function RecordFailure(users: Users, email: string, count: uint8, faults: Faults, now: Time): Users
  {
    var afterCount := if faults.countWrite then users else SetCount(users, email, Inc(count));
    if faults.dateWrite then afterCount else SetDate(afterCount, email, now)
  }

  /** One password login attempt: its reply and the table afterwards. */
  function LocalPasswordLogin(users: Users, body: map<string, string>, opts: Options, w: World): Outcome
  {
    match UserActivated(body, users, w.faults.lookup)
    case Err(reply) => Outcome(reply, users)
    case Ok(u) =>
      if "password" !in body then Outcome(Fail(400), users)
      else if LockedOut(u, opts) then Outcome(Fail(465), users)
      else if InBackoff(u, opts, w.now) then Outcome(Fail(450), users)
      else if !w.bcrypt.matches(u.passwordHash, body["password"]) then
        Outcome(Fail(450), RecordFailure(users, u.email, u.wrongPasswordCount, w.faults, w.now))
      else if w.faults.reset then Outcome(Fail(500), users)
      else Outcome(ValidateAndIssue(AsWritten, u, opts, "password", "", w.now, w.faults.signing), ResetCounters(users, u.email))
  }

  /** processLocalPasswordLogin, statement by statement against the store. */
  method ProcessLocalPasswordLogin(db: Store, body: map<string, string>, opts: Options, w: World)
    returns (reply: Reply)
    requires db.Valid()
    modifies db
    ensures db.Valid()
    ensures Outcome(reply, db.users) == LocalPasswordLogin(old(db.users), body, opts, w)
  {
    var found := UserActivated(body, db.users, w.faults.lookup);
    if found.Err? {
      return found.error;
    }
    var u := found.value;
    if "password" !in body {
      return Fail(400);
    }
    if u.wrongPasswordDate.Some? {
      if u.wrongPasswordCount as int >= opts.passwordRetriesMax {
        return Fail(465);
      }
      var delaySeconds := opts.passwordRetriesTimeSeconds * Pow2(u.wrongPasswordCount as nat);
      if w.now < u.wrongPasswordDate.value + delaySeconds {
        return Fail(450);
      }
    }
    if !w.bcrypt.matches(u.passwordHash, body["password"]) {
      var countOk := db.UpdateWrongPasswordCount(u.email, Inc(u.wrongPasswordCount), w.faults.countWrite);
      var dateOk := db.UpdateWrongPasswordDate(u.email, w.now, w.faults.dateWrite);
      return Fail(450);
    }
    var resetOk := db.ResetWrongPasswordCounters(u.email, w.faults.reset);
    if !resetOk {
      return Fail(500);
    }
    reply := ValidateAndIssue(AsWritten, u, opts, "password", "", w.now, w.faults.signing);
  }

  /** The gates before the password is compared have all been passed. */
  predicate ReachesComparison(users: Users, body: map<string, string>, opts: Options, w: World)
  {
    && "email" in body && "password" in body
    && First(users, body["email"], ActivatedOnly, w.faults.lookup).Found?
    && var u := users[body["email"]];
       !LockedOut(u, opts) && !InBackoff(u, opts, w.now)
  }

  /**
   * A body without an email gets 400; an email without an activated
   * account gets 450, the code of a wrong password; neither touches the table.
   */
  lemma UnknownAccountLooksLikeWrongPassword(users: Users, body: map<string, string>, opts: Options, w: World)
    ensures "email" !in body ==> LocalPasswordLogin(users, body, opts, w) == Outcome(Fail(400), users)
    ensures "email" in body && !w.faults.lookup && First(users, body["email"], ActivatedOnly, false).NotFound?
      ==> LocalPasswordLogin(users, body, opts, w) == Outcome(Fail(450), users)
    ensures "email" in body && w.faults.lookup ==> LocalPasswordLogin(users, body, opts, w) == Outcome(Fail(500), users)
  {
  }

  /** A locked account gets 465 even for the right password, and nothing is written. */
  lemma LockoutGate(users: Users, body: map<string, string>, opts: Options, w: World)
    requires "email" in body && "password" in body
    requires First(users, body["email"], ActivatedOnly, w.faults.lookup).Found?
    requires LockedOut(users[body["email"]], opts)
    ensures LocalPasswordLogin(users, body, opts, w) == Outcome(Fail(465), users)
  {
  }

  /**
   * Inside the back-off window the attempt gets 450 and nothing is written,
   * and the password is not consulted: any other bcrypt answers the same.
   */
  lemma BackoffGate(users: Users, body: map<string, string>, opts: Options, w: World, other: Bcrypt)
    requires "email" in body && "password" in body
    requires First(users, body["email"], ActivatedOnly, w.faults.lookup).Found?
    requires !LockedOut(users[body["email"]], opts) && InBackoff(users[body["email"]], opts, w.now)
    ensures LocalPasswordLogin(users, body, opts, w) == Outcome(Fail(450), users)
    ensures LocalPasswordLogin(users, body, opts, w.(bcrypt := other)) == LocalPasswordLogin(users, body, opts, w)
  {
  }

  /**
   * The window after a failure is base * 2^count seconds long: one second
   * before its end the attempt is refused, at its end it goes on to the
   * password comparison.
   */
  lemma BackoffWindowEdges(users: Users, body: map<string, string>, opts: Options, w: World, d: Time)
    requires "email" in body && "password" in body
    requires First(users, body["email"], ActivatedOnly, w.faults.lookup).Found?
    requires var u := users[body["email"]]; u.wrongPasswordDate == Some(d) && !LockedOut(u, opts)
    ensures var delay := opts.passwordRetriesTimeSeconds * Pow2(users[body["email"]].wrongPasswordCount as nat);
      && LocalPasswordLogin(users, body, opts, w.(now := d + delay - 1)) == Outcome(Fail(450), users)
      && ReachesComparison(users, body, opts, w.(now := d + delay))
  {
  }

  /** Each further failure doubles the back-off. */
  lemma BackoffDoubles(opts: Options, c: uint8)
    requires c < 255
    ensures Backoff(opts, c + 1) == 2 * Backoff(opts, c)
  {
  }

  /**
   * A wrong password past the gates gets 450, adds one (modulo 256) to the
   * counter and stamps the date with now; a write that fails is simply
   * missing, and no other field or row changes.
   */
  lemma WrongPasswordRecorded(users: Users, body: map<string, string>, opts: Options, w: World)
    requires ReachesComparison(users, body, opts, w)
    requires !w.bcrypt.matches(users[body["email"]].passwordHash, body["password"])
    requires Keyed(users)
    ensures var e := body["email"];
      var u := users[e];
      var r := LocalPasswordLogin(users, body, opts, w);
      && r.reply == Fail(450)
      && r.users.Keys == users.Keys
      && (forall e' :: e' in users && e' != e ==> r.users[e'] == users[e'])
      && r.users[e] == u.(wrongPasswordCount := if w.faults.countWrite then u.wrongPasswordCount else Inc(u.wrongPasswordCount),
                          wrongPasswordDate := if w.faults.dateWrite then u.wrongPasswordDate else Some(w.now))
  {
  }

  /**
   * The right password past the gates clears both counters before issuing;
   * a failed reset gets 500 and writes nothing.
   */
  lemma RightPasswordResets(users: Users, body: map<string, string>, opts: Options, w: World)
    requires ReachesComparison(users, body, opts, w)
    requires w.bcrypt.matches(users[body["email"]].passwordHash, body["password"])
    requires Keyed(users)
    ensures var e := body["email"];
      var u := users[e];
      var r := LocalPasswordLogin(users, body, opts, w);
      && (w.faults.reset ==> r == Outcome(Fail(500), users))
      && (!w.faults.reset ==>
            && r.reply == ValidateAndIssue(AsWritten, u, opts, "password", "", w.now, w.faults.signing)
            && r.users == users[e := u.(wrongPasswordCount := 0, wrongPasswordDate := None)])
  {
  }

  /** A login attempt keeps every row under its own email. */
  lemma LoginKeepsKeyed(users: Users, body: map<string, string>, opts: Options, w: World)
    requires Keyed(users)
    ensures Keyed(LocalPasswordLogin(users, body, opts, w).users)
  {
  }

  /** The counter and its date go together: the date is set exactly when the count is positive. */
  ghost predicate CountersConsistent(users: Users)
  {
    forall e :: e in users ==> (users[e].wrongPasswordDate.Some? <==> users[e].wrongPasswordCount > 0)
  }

  /** No counter is above the configured maximum. */
  ghost predicate CountersWithin(users: Users, opts: Options)
  {
    forall e :: e in users ==> users[e].wrongPasswordCount as int <= opts.passwordRetriesMax
  }

  /**
   * When the counter writes succeed and the maximum fits the uint8 column,
   * an attempt keeps the counter and its date together and never pushes a
   * counter past the maximum.
   */
  lemma CounterInvariants(users: Users, body: map<string, string>, opts: Options, w: World)
    requires Keyed(users) && CountersConsistent(users) && CountersWithin(users, opts)
    requires 1 <= opts.passwordRetriesMax <= 255
    requires !w.faults.countWrite && !w.faults.dateWrite
    ensures CountersConsistent(LocalPasswordLogin(users, body, opts, w).users)
    ensures CountersWithin(LocalPasswordLogin(users, body, opts, w).users, opts)
  {
    var r := LocalPasswordLogin(users, body, opts, w);
    if ReachesComparison(users, body, opts, w) {
      var e := body["email"];
      var u := users[e];
      assert u.wrongPasswordDate.None? ==> u.wrongPasswordCount == 0;
      assert u.wrongPasswordCount as int < opts.passwordRetriesMax;
      if !w.bcrypt.matches(u.passwordHash, body["password"]) {
        WrongPasswordRecorded(users, body, opts, w);
        assert r.users[e].wrongPasswordCount as int == u.wrongPasswordCount as int + 1;
      } else {
        RightPasswordResets(users, body, opts, w);
      }
    }
  }

  // -----------------------------------------------------------------------
  // Sequences of attempts
  // -----------------------------------------------------------------------

  datatype Attempt = Attempt(body: map<string, string>, w: World)

  /** The table after a sequence of login attempts, one after the other. */
  function Replay(users: Users, opts: Options, attempts: seq<Attempt>): Users
    decreases |attempts|
  {
    if attempts == [] then users
    else
      var last := attempts[|attempts| - 1];
      LocalPasswordLogin(Replay(users, opts, attempts[..|attempts| - 1]), last.body, opts, last.w).users
  }

  lemma {:induction false} ReplayKeepsKeyed(users: Users, opts: Options, attempts: seq<Attempt>)
    requires Keyed(users)
    ensures Keyed(Replay(users, opts, attempts))
    decreases |attempts|
  {
    if attempts != [] {
      var last := attempts[|attempts| - 1];
      ReplayKeepsKeyed(users, opts, attempts[..|attempts| - 1]);
      LoginKeepsKeyed(Replay(users, opts, attempts[..|attempts| - 1]), last.body, opts, last.w);
    }
  }

  /**
   * Lockout lasts: once an account is locked, no sequence of login attempts
   * (for it or for anyone else, right or wrong, with any store errors)
   * changes its row, so every later attempt on it gets 465 again.
   */
  lemma {:induction false} LockoutIsSticky(users: Users, opts: Options, attempts: seq<Attempt>, email: string)
    requires Keyed(users) && email in users && LockedOut(users[email], opts)
    ensures var after := Replay(users, opts, attempts);
      email in after && after[email] == users[email]
    decreases |attempts|
  {
    if attempts != [] {
      var before := attempts[..|attempts| - 1];
      var last := attempts[|attempts| - 1];
      LockoutIsSticky(users, opts, before, email);
      ReplayKeepsKeyed(users, opts, before);
      var mid := Replay(users, opts, before);
      var r := LocalPasswordLogin(mid, last.body, opts, last.w);
      if ReachesComparison(mid, last.body, opts, last.w) {
        assert last.body["email"] != email;
        if last.w.bcrypt.matches(mid[last.body["email"]].passwordHash, last.body["password"]) {
          RightPasswordResets(mid, last.body, opts, last.w);
        } else {
          WrongPasswordRecorded(mid, last.body, opts, last.w);
        }
      }
    }
  }

  /** The same wrong attempt made at each of the given times. */
  function AttemptsAt(body: map<string, string>, w: World, times: seq<Time>): (a: seq<Attempt>)
    ensures |a| == |times|
    ensures forall i :: 0 <= i < |times| ==> a[i] == Attempt(body, w.(now := times[i]))
  {
    seq(|times|, i requires 0 <= i < |times| => Attempt(body, w.(now := times[i])))
  }

  /**
   * One more wrong attempt outside the back-off window, below the maximum,
   * adds one to the counter and stamps the date.
   */
  lemma OneMoreFailure(users: Users, opts: Options, body: map<string, string>, w: World, u: Account, k: nat)
    requires Keyed(users) && "email" in body && "password" in body
    requires body["email"] in users && u.activationDate.Some?
    requires k < opts.passwordRetriesMax <= 255
    requires users[body["email"]] == u.(wrongPasswordCount := k as uint8,
                                       wrongPasswordDate := users[body["email"]].wrongPasswordDate)
    requires k == 0 <==> users[body["email"]].wrongPasswordDate.None?
    requires users[body["email"]].wrongPasswordDate.Some? ==>
      w.now >= users[body["email"]].wrongPasswordDate.value + Backoff(opts, k as uint8)
    requires !w.bcrypt.matches(u.passwordHash, body["password"])
    requires w.faults == NoFaults
    ensures var after := LocalPasswordLogin(users, body, opts, w).users;
      && Keyed(after) && body["email"] in after
      && after[body["email"]] == u.(wrongPasswordCount := (k + 1) as uint8, wrongPasswordDate := Some(w.now))
  {
    assert ReachesComparison(users, body, opts, w);
    WrongPasswordRecorded(users, body, opts, w);
    LoginKeepsKeyed(users, body, opts, w);
  }

  /**
   * Wrong passwords add up: from a clear counter, k wrong attempts, each
   * made once the previous back-off has run out, leave the counter at k and
   * the date at the last attempt (k at most the maximum, which fits the
   * uint8 column).
   */
  lemma {:induction false} FailuresAccumulate(users: Users, opts: Options, body: map<string, string>, w: World, times: seq<Time>)
    requires Keyed(users) && "email" in body && "password" in body
    requires body["email"] in users
    requires var u := users[body["email"]];
      u.activationDate.Some? && u.wrongPasswordCount == 0 && u.wrongPasswordDate.None?
    requires !w.bcrypt.matches(users[body["email"]].passwordHash, body["password"])
    requires w.faults == NoFaults
    requires |times| <= opts.passwordRetriesMax <= 255
    requires forall i :: 0 < i < |times| ==> times[i] >= times[i - 1] + Backoff(opts, i as uint8)
    ensures var after := Replay(users, opts, AttemptsAt(body, w, times));
      var u := users[body["email"]];
      && Keyed(after) && body["email"] in after
      && after[body["email"]] == u.(wrongPasswordCount := |times| as uint8,
                                    wrongPasswordDate := if times == [] then None else Some(times[|times| - 1]))
    decreases |times|
  {
    var attempts := AttemptsAt(body, w, times);
    if times != [] {
      var k := |times| - 1;
      var before := times[..k];
      assert attempts[..k] == AttemptsAt(body, w, before);
      FailuresAccumulate(users, opts, body, w, before);
      var mid := Replay(users, opts, attempts[..k]);
      var wk := w.(now := times[k]);
      assert attempts[k] == Attempt(body, wk);
      assert Replay(users, opts, attempts) == LocalPasswordLogin(mid, body, opts, wk).users;
      OneMoreFailure(mid, opts, body, wk, users[body["email"]], k);
    }
  }

  /**
   * With the default maximum of five, five wrong passwords made outside the
   * back-off windows lock the account: a sixth attempt gets 465 even with
   * the right password.
   */
  lemma FiveFailuresLockOut(users: Users, opts: Options, body: map<string, string>, w: World, times: seq<Time>, sixth: World)
    requires opts.passwordRetriesMax == DefaultPasswordRetriesMax
    requires Keyed(users) && "email" in body && "password" in body
    requires body["email"] in users
    requires var u := users[body["email"]];
      u.activationDate.Some? && u.wrongPasswordCount == 0 && u.wrongPasswordDate.None?
    requires !w.bcrypt.matches(users[body["email"]].passwordHash, body["password"])
    requires w.faults == NoFaults && !sixth.faults.lookup
    requires |times| == 5
    requires forall i :: 0 < i < |times| ==> times[i] >= times[i - 1] + Backoff(opts, i as uint8)
    ensures var after := Replay(users, opts, AttemptsAt(body, w, times));
      LocalPasswordLogin(after, body, opts, sixth) == Outcome(Fail(465), after)
  {
    FailuresAccumulate(users, opts, body, w, times);
  }

  /**
   * With the flag defaults (five retries, a five-second base), five wrong
   * passwords each waiting out its back-off of 5 * 2^i seconds lock the
   * account: the next login answers 465.
   */
  lemma DefaultsLockOutAfterFive(emailPattern: string -> bool, fbId: string, fbSecret: string, gId: string, gSecret: string,
                                 users: Users, body: map<string, string>, w: World, times: seq<Time>, sixth: World)
    requires Keyed(users) && "email" in body && "password" in body
    requires body["email"] in users
    requires var u := users[body["email"]];
      u.activationDate.Some? && u.wrongPasswordCount == 0 && u.wrongPasswordDate.None?
    requires !w.bcrypt.matches(users[body["email"]].passwordHash, body["password"])
    requires w.faults == NoFaults && !sixth.faults.lookup
    requires |times| == 5
    requires forall i :: 0 < i < |times| ==> times[i] >= times[i - 1] + 5 * Pow2(i)
    ensures var opts := Defaults(emailPattern, fbId, fbSecret, gId, gSecret);
      var after := Replay(users, opts, AttemptsAt(body, w, times));
      LocalPasswordLogin(after, body, opts, sixth) == Outcome(Fail(465), after)
  {
    FiveFailuresLockOut(users, Defaults(emailPattern, fbId, fbSecret, gId, gSecret), body, w, times, sixth);
  }

  // -----------------------------------------------------------------------
  // Token refresh (tokenRefresh)
  // -----------------------------------------------------------------------

  /**
   * processFacebookToken (api-token.go revision): a failed call answers 500
   * or 400; any profile resolves to its email read byte by byte as
   * Latin-1, an absent email reading as "".
   */
  function FacebookProfileEmail(p: Profile): (r: Result<string, Reply>)
    ensures r.Ok? <==> p.ProfileBody?
    ensures r.Err? ==> r.error in {Fail(400), Fail(500)}
    ensures p.ProfileBody? && p.email.None? ==> r == Ok("")
    ensures p.ProfileBody? && p.email.Some? ==>
      && |r.value| == |p.email.value|
      && forall i :: 0 <= i < |r.value| ==> r.value[i] as int == p.email.value[i] as int
  {
    match p
    case ProfileUnreachable => Err(Fail(500))
    case ProfileRejected => Err(Fail(400))
    case ProfileUnparsable => Err(Fail(500))
    case ProfileBody(email, _) => Ok(Latin1Decode(if email.Some? then email.value else []))
  }

  /**
   * The refresh endpoint on the claims of a verified refresh token (None
   * when verification failed). A claim of the wrong JSON type makes the Go
   * type assertion panic, which gin's recovery answers with 500. New tokens
   * are only ever issued for the subject's activated, enabled account, with
   * the auth type the token names, and a social login's refresh needs its
   * social token among the claims.
   */
  function TokenRefresh(issuance: Issuance, users: Users, claims: Option<Claims>, opts: Options, w: World): (r: Reply)
    ensures r.Tokens? || (r.Fail? && r.status in {400, 404, 450, 455, 460, 500})
    ensures r.Tokens? ==>
      && claims.Some? && "sub" in claims.value && claims.value["sub"].Str?
      && var e := claims.value["sub"].s;
         && e in users && users[e].activationDate.Some? && users[e].enabled
         && r.grant.email == users[e].email
         && "authType" in claims.value && claims.value["authType"] == Str(r.grant.authType)
         && (r.grant.authType == "facebook" ==> "facebookToken" in claims.value)
         && (r.grant.authType == "google" ==> "googleToken" in claims.value)
  {
    if claims.None? then Fail(450)
    else
      var c := claims.value;
      if "sub" !in c then Fail(450)
      else if !c["sub"].Str? then Fail(500)
      else if "authType" !in c then Fail(450)
      else if !c["authType"].Str? then Fail(500)
      else
        var email := c["sub"].s;
        var authType := c["authType"].s;
        match First(users, email, ActivatedOnly, w.faults.lookup)
        case NotFound => Fail(404)
        case Failed => Fail(500)
        case Found(u) =>
          if authType == "facebook" then
            if "facebookToken" !in c then Fail(450)
            else if !c["facebookToken"].Str? then Fail(500)
            else match FacebookProfileEmail(w.fbProfile)
              case Err(r) => r
              case Ok(temail) =>
                if email != temail then Fail(450)
                else ValidateAndIssue(issuance, u, opts, authType, c["facebookToken"].s, w.now, w.faults.signing)
          else if authType == "google" then
            if "googleToken" !in c then Fail(450)
            else if !c["googleToken"].Str? then Fail(500)
            else ValidateAndIssue(issuance, u, opts, authType, c["googleToken"].s, w.now, w.faults.signing)
          else ValidateAndIssue(issuance, u, opts, authType, "", w.now, w.faults.signing)
  }

  /**
   * Refresh refuses (450) a token without subject or auth type, answers 404
   * when the subject has no activated account, and for a Facebook login
   * refuses a token without its Facebook token or whose Facebook profile
   * resolves to another email.
   */
  lemma RefreshChecks(issuance: Issuance, users: Users, c: Claims, opts: Options, w: World)
    ensures "sub" !in c ==> TokenRefresh(issuance, users, Some(c), opts, w) == Fail(450)
    ensures "sub" in c && c["sub"].Str? && "authType" !in c ==> TokenRefresh(issuance, users, Some(c), opts, w) == Fail(450)
    ensures "sub" in c && c["sub"].Str? && "authType" in c && c["authType"].Str? && !w.faults.lookup
            && First(users, c["sub"].s, ActivatedOnly, false).NotFound?
            ==> TokenRefresh(issuance, users, Some(c), opts, w) == Fail(404)
    ensures "sub" in c && c["sub"].Str? && "authType" in c && c["authType"] == Str("facebook")
            && First(users, c["sub"].s, ActivatedOnly, w.faults.lookup).Found?
            ==> && ("facebookToken" !in c ==> TokenRefresh(issuance, users, Some(c), opts, w) == Fail(450))
                && (w.fbProfile.ProfileBody? && w.fbProfile.email.Some? && Latin1Decode(w.fbProfile.email.value) != c["sub"].s
                    && "facebookToken" in c && c["facebookToken"].Str?
                    ==> TokenRefresh(issuance, users, Some(c), opts, w) == Fail(450))
  {
  }

  /**
   * The claims of the refresh token minted for a grant. The signer
   * (createAccessAndRefreshToken) is not part of this model; it is taken to
   * sign createJWTToken's claims for type "refresh", the auth type, and the
   * custom refresh claims.
   */
  function RefreshTokenClaims(g: TokenGrant, opts: Options, now: Time, jti: string): Claims
  {
    CreateJwtClaims(g.email, opts.refreshTokenDefaultExpirationMinutes, "refresh", "", now, jti)
      + map["authType" := Str(g.authType)]
      + g.refreshClaims
  }

  /**
   * Issue then refresh: presenting the refresh token of a grant gives the
   * same grant back, as long as the account is still activated and enabled,
   * a password login's password has not expired meanwhile, and for Facebook
   * the embedded token still resolves to the same email. This holds for
   * the source as written for password and Facebook logins; for Google it
   * needs the corrected issuance.
   */
  lemma RefreshRoundTrip(issuance: Issuance, users: Users, u: Account, opts: Options, authType: string,
                         socialToken: string, issuedAt: Time, jti: string, w: World)
    requires Keyed(users) && u.email in users && users[u.email] == u && u.activationDate.Some?
    requires authType in {"password", "facebook", "google"}
    requires authType == "google" ==> issuance == Corrected
    requires ValidateAndIssue(issuance, u, opts, authType, socialToken, issuedAt, false).Tokens?
    requires !w.faults.lookup && !w.faults.signing
    requires authType == "password" ==> !PasswordExpired(u, w.now)
    requires authType == "facebook" ==>
      w.fbProfile.ProfileBody? && w.fbProfile.email.Some? && Latin1Decode(w.fbProfile.email.value) == u.email
    ensures var g := ValidateAndIssue(issuance, u, opts, authType, socialToken, issuedAt, false).grant;
      TokenRefresh(issuance, users, Some(RefreshTokenClaims(g, opts, issuedAt, jti)), opts, w) == Tokens(g)
  {
    var g := ValidateAndIssue(issuance, u, opts, authType, socialToken, issuedAt, false).grant;
    var c := RefreshTokenClaims(g, opts, issuedAt, jti);
    assert c["sub"] == Str(u.email);
    assert c["authType"] == Str(authType);
  }

  /**
   * As written, a Google login's refresh token carries no Google token, so
   * the refresh endpoint refuses every one of them with 450.
   */
  lemma GoogleRefreshRejectedAsWritten(users: Users, u: Account, opts: Options, socialToken: string,
                                       issuedAt: Time, jti: string, w: World)
    requires u.email in users && users[u.email] == u && u.activationDate.Some?
    requires !w.faults.lookup
    requires ValidateAndIssue(AsWritten, u, opts, "google", socialToken, issuedAt, false).Tokens?
    ensures var g := ValidateAndIssue(AsWritten, u, opts, "google", socialToken, issuedAt, false).grant;
      TokenRefresh(AsWritten, users, Some(RefreshTokenClaims(g, opts, issuedAt, jti)), opts, w) == Fail(450)
  {
    var g := ValidateAndIssue(AsWritten, u, opts, "google", socialToken, issuedAt, false).grant;
    var c := RefreshTokenClaims(g, opts, issuedAt, jti);
    assert c["sub"] == Str(u.email);
    assert c["authType"] == Str("google");
    assert "googleToken" !in c;
  }

  // -----------------------------------------------------------------------
  // Token introspection (tokenInfo)
  // -----------------------------------------------------------------------

  /**
   * The info endpoint on the claims of a verified token (None when
   * verification failed). The account is looked up by subject among the
   * enabled ones; a store error is noticed only after the type checks,
   * which then see an account without activation date. The claims are
   * answered only unchanged and only for a subject with an enabled account.
   */
  function TokenInfo(users: Users, claims: Option<Claims>, lookupFails: bool): (r: Reply)
    ensures r.Info? || (r.Fail? && r.status in {450, 455, 460, 500})
    ensures r.Info? ==> claims == Some(r.claims)
    ensures r.Info? ==> "sub" in r.claims && r.claims["sub"].Str?
                        && r.claims["sub"].s in users && users[r.claims["sub"].s].enabled
  {
    if claims.None? then Fail(450)
    else
      var c := claims.value;
      if "sub" !in c then Fail(450)
      else
        var found :=
          if c["sub"].Str? then First(users, c["sub"].s, EnabledOnly, lookupFails)
          else if lookupFails then Failed else NotFound;
        if found.NotFound? then Fail(455)
        else if "typ" !in c then Fail(450)
        else if (c["typ"] == Str("access") || c["typ"] == Str("refresh"))
                && (found.Failed? || found.account.activationDate.None?) then Fail(460)
        else if found.Failed? then Fail(500)
        else Info(c)
  }

  /**
   * Info answers 200 exactly when the token names an enabled account, has a
   * type, and (for access and refresh tokens) the account is activated; the
   * claims come back unchanged. No enabled account gives 455, an
   * unactivated one 460 for access and refresh tokens.
   */
  lemma TokenInfoChecks(users: Users, c: Claims, lookupFails: bool)
    ensures TokenInfo(users, Some(c), lookupFails).Info? <==>
      && !lookupFails && "sub" in c && c["sub"].Str? && "typ" in c
      && c["sub"].s in users && users[c["sub"].s].enabled
      && ((c["typ"] == Str("access") || c["typ"] == Str("refresh")) ==> users[c["sub"].s].activationDate.Some?)
    ensures TokenInfo(users, Some(c), lookupFails).Info? ==> TokenInfo(users, Some(c), lookupFails).claims == c
    ensures "sub" in c && c["sub"].Str? && !lookupFails && (c["sub"].s !in users || !users[c["sub"].s].enabled)
      ==> TokenInfo(users, Some(c), lookupFails) == Fail(455)
    ensures "sub" in c && c["sub"].Str? && !lookupFails && c["sub"].s in users && users[c["sub"].s].enabled
      && users[c["sub"].s].activationDate.None? && "typ" in c && c["typ"] in {Str("access"), Str("refresh")}
      ==> TokenInfo(users, Some(c), lookupFails) == Fail(460)
  {
  }
}
