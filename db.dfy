/**
 * The credential store: the users table as a map from the primary key
 * (the email column) to the account row, the lookups the handlers issue
 * ("email = ? AND ..."), and the column writes they perform.
 *
 * The row is the union of the fields the handlers read and write across
 * the revisions of the service (db.go keeps "Active" where the token
 * handlers read "Enabled"; both are the enabled flag here).
 */
module Db {
  import opened Wrappers

  /** Seconds on the service's clock. */
  type Time = int

  /** The width of the wrong-password counter column (uint8 in db.go). */
  newtype uint8 = x: int | 0 <= x < 256

  datatype Account = Account(
    name: string,
    email: string,
    passwordHash: string,
    passwordDate: Option<Time>,
    activationDate: Option<Time>,
    wrongPasswordCount: uint8,
    wrongPasswordDate: Option<Time>,
    enabled: bool,
    passwordValidUntil: Option<Time>,
    creationDate: Time)

  type Users = map<string, Account>

  /** Every row sits under its own email: one account per email. */
  ghost predicate Keyed(users: Users)
  {
    forall e :: e in users ==> users[e].email == e
  }

  /** The extra condition of a lookup's WHERE clause. */
  datatype Filter = AnyRow | ActivatedOnly | EnabledOnly

  predicate Selects(f: Filter, a: Account)
  {
    match f
    case AnyRow => true
    case ActivatedOnly => a.activationDate.Some?
    case EnabledOnly => a.enabled
  }

  /** What db.First reports: a row, RecordNotFound, or another store error. */
  datatype Lookup = Found(account: Account) | NotFound | Failed

  /** db.First(&u, "email = ? AND <filter>", email); a store error wins over everything. */
  function First(users: Users, email: string, f: Filter, fails: bool): (r: Lookup)
    ensures r.Found? <==> !fails && email in users && Selects(f, users[email])
    ensures r.Found? ==> r.account == users[email]
    ensures r.Failed? <==> fails
  {
    if fails then Failed
    else if email in users && Selects(f, users[email]) then Found(users[email])
    else NotFound
  }

  /** A single-row column write; a row that is absent is left absent (0 rows affected). */
  function UpdateRow(users: Users, email: string, f: Account -> Account): (r: Users)
    ensures r.Keys == users.Keys
    ensures forall e :: e in users && e != email ==> r[e] == users[e]
    ensures email in users ==> r[email] == f(users[email])
  {
    if email in users then users[email := f(users[email])] else users
  }

  /** UpdateColumn("wrong_password_count", count) */
  function SetCount(users: Users, email: string, count: uint8): Users
  {
    UpdateRow(users, email, (a: Account) => a.(wrongPasswordCount := count))
  }

  /** UpdateColumn("wrong_password_date", t) */
  function SetDate(users: Users, email: string, t: Time): Users
  {
    UpdateRow(users, email, (a: Account) => a.(wrongPasswordDate := Some(t)))
  }

  /** resetWrongPasswordCounters: count back to zero, date back to null. */
  function ResetCounters(users: Users, email: string): Users
  {
    UpdateRow(users, email, (a: Account) => a.(wrongPasswordCount := 0, wrongPasswordDate := None))
  }

  /** db.Create: the insert fails on a primary-key clash. */
  function Insert(users: Users, a: Account): (r: Option<Users>)
    ensures r.Some? <==> a.email !in users
    ensures r.Some? ==> r.value == users[a.email := a]
  {
    if a.email in users then None else Some(users[a.email := a])
  }

  /** db.Unscoped().Delete: the row is removed for good. */
  function Remove(users: Users, email: string): (r: Users)
    ensures r.Keys == users.Keys - {email}
    ensures forall e :: e in r ==> r[e] == users[e]
  {
    users - {email}
  }

  /** The column writes keep every row under its own email. */
  lemma WritesKeepKeyed(users: Users, email: string, count: uint8, t: Time, a: Account)
    requires Keyed(users)
    ensures Keyed(SetCount(users, email, count))
    ensures Keyed(SetDate(users, email, t))
    ensures Keyed(ResetCounters(users, email))
    ensures Keyed(Remove(users, email))
    ensures Insert(users, a).Some? ==> Keyed(Insert(users, a).value)
  {
  }

  /**
   * The users table. Each method is one statement against the store; a
   * `fails` argument says that the store reported an error for it, in
   * which case nothing was written.
   */
  class Store {
    var users: Users

    ghost predicate Valid()
      reads this
    {
      Keyed(users)
    }

    constructor (initial: Users)
      requires Keyed(initial)
      ensures Valid() && users == initial
    {
      users := initial;
    }

    method UpdateWrongPasswordCount(email: string, count: uint8, fails: bool) returns (ok: bool)
      requires Valid()
      modifies this
      ensures Valid()
      ensures ok == !fails
      ensures users == if fails then old(users) else SetCount(old(users), email, count)
    {
      ok := !fails;
      if ok {
        users := SetCount(users, email, count);
      }
    }

    method UpdateWrongPasswordDate(email: string, t: Time, fails: bool) returns (ok: bool)
      requires Valid()
      modifies this
      ensures Valid()
      ensures ok == !fails
      ensures users == if fails then old(users) else SetDate(old(users), email, t)
    {
      ok := !fails;
      if ok {
        users := SetDate(users, email, t);
      }
    }

    method ResetWrongPasswordCounters(email: string, fails: bool) returns (ok: bool)
      requires Valid()
      modifies this
      ensures Valid()
      ensures ok == !fails
      ensures users == if fails then old(users) else ResetCounters(old(users), email)
    {
      ok := !fails;
      if ok {
        users := ResetCounters(users, email);
      }
    }

    method Create(a: Account, fails: bool) returns (ok: bool)
      requires Valid()
      modifies this
      ensures Valid()
      ensures ok == (!fails && Insert(old(users), a).Some?)
      ensures users == if ok then Insert(old(users), a).value else old(users)
    {
      var inserted := Insert(users, a);
      ok := !fails && inserted.Some?;
      if ok {
        users := inserted.value;
      }
    }

    method Delete(email: string, fails: bool) returns (ok: bool)
      requires Valid()
      modifies this
      ensures Valid()
      ensures ok == !fails
      ensures users == if fails then old(users) else Remove(old(users), email)
    {
      ok := !fails;
      if ok {
        users := Remove(users, email);
      }
    }
  }
}
