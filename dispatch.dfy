/**
 * POST /token (tokenCreate in api-token.go): the body chooses the login
 * path. A Facebook token wins over a Google code, and both over the
 * password path.
 */
module TokenEndpoint {
  import opened Wrappers
  import opened Db
  import opened Options
  import opened Env
  import opened TokenApi
  import opened SocialApi

  /** The handler on a request body; None when it is not a JSON object of strings. */
  function TokenCreate(users: Users, body: Option<map<string, string>>, opts: Options, w: World): Outcome
  {
    if body.None? then Outcome(Fail(400), users)
    else if "facebookToken" in body.value then FacebookLogin(users, body.value["facebookToken"], opts, w)
    else if "googleToken" in body.value then GoogleLogin(AsWritten, users, body.value["googleToken"], opts, w)
    else LocalPasswordLogin(users, body.value, opts, w)
  }

  method ProcessTokenCreate(db: Store, body: Option<map<string, string>>, opts: Options, w: World)
    returns (reply: Reply)
    requires db.Valid()
    modifies db
    ensures db.Valid()
    ensures Outcome(reply, db.users) == TokenCreate(old(db.users), body, opts, w)
  {
    if body.None? {
      return Fail(400);
    }
    var m := body.value;
    if "facebookToken" in m {
      reply := ProcessFacebookLogin(db, m["facebookToken"], opts, w);
      return;
    }
    if "googleToken" in m {
      reply := ProcessGoogleLogin(AsWritten, db, m["googleToken"], opts, w);
      return;
    }
    reply := ProcessLocalPasswordLogin(db, m, opts, w);
  }

  /**
   * A body with a Facebook or Google token never reaches the password path:
   * the reply does not depend on the password, and no existing row
   * changes (so neither do its wrong-password counters).
   */
  lemma SocialBodiesSkipPasswordPath(users: Users, m: map<string, string>, opts: Options, w: World, otherPassword: string)
    requires Keyed(users)
    requires "facebookToken" in m || "googleToken" in m
    ensures TokenCreate(users, Some(m["password" := otherPassword]), opts, w) == TokenCreate(users, Some(m), opts, w)
    ensures var r := TokenCreate(users, Some(m), opts, w);
      forall e :: e in users ==> e in r.users && r.users[e] == users[e]
  {
    var m' := m["password" := otherPassword];
    if "facebookToken" in m {
      assert m'["facebookToken"] == m["facebookToken"];
      FacebookLoginOnlyProvisions(users, m["facebookToken"], opts, w);
    } else {
      assert "facebookToken" !in m' && m'["googleToken"] == m["googleToken"];
      GoogleLoginOnlyProvisions(AsWritten, users, m["googleToken"], opts, w);
    }
  }

  /**
   * An unparsable body gets 400 and changes nothing; a Facebook token is
   * taken even when a Google token and a password come with it; a Google
   * token is taken over a password.
   */
  lemma DispatchPrecedence(users: Users, m: map<string, string>, opts: Options, w: World, g: string, p: string)
    requires "facebookToken" in m
    ensures TokenCreate(users, None, opts, w) == Outcome(Fail(400), users)
    ensures TokenCreate(users, Some(m["googleToken" := g]["password" := p]), opts, w)
         == FacebookLogin(users, m["facebookToken"], opts, w)
    ensures TokenCreate(users, Some((m - {"facebookToken"})["googleToken" := g]["password" := p]), opts, w)
         == GoogleLogin(AsWritten, users, g, opts, w)
  {
    var both := m["googleToken" := g]["password" := p];
    assert "facebookToken" in both && both["facebookToken"] == m["facebookToken"];
    var google := (m - {"facebookToken"})["googleToken" := g]["password" := p];
    assert "facebookToken" !in google && google["googleToken"] == g;
  }
}
