// Admin signup (src/app/api/admin/auth/signup/route.ts): an approved email
// that has no account yet gets one, and the new admin is logged in.

module AdminSignup {
  import opened Common
  import Admin = AdminManagement

  /** The iron-session cookie: the logged-in user, if any. */
  class Session {
    var user: Option<Admin.SessionUser>

    constructor (user: Option<Admin.SessionUser>)
      ensures this.user == user
    {
      this.user := user;
    }
  }

  /** `!email || !password`. */
  predicate MissingCredentials(email: Option<string>, password: Option<string>)
  {
    email.None? || email.value == "" || password.None? || password.value == ""
  }

  /** `POST` for a database that does not fail: the status and the tables
      afterwards. `newId` is the id the insert draws and `passwordHash` the
      bcrypt digest of the password. */
  function SignupSpec(t: Admin.Tables, email: Option<string>, password: Option<string>, newId: nat,
                      passwordHash: string): (int, Admin.Tables)
  {
    if MissingCredentials(email, password) then (400, t)
    else
      var e := ToLower(email.value);
      if e !in t.approved then (403, t)
      else if e in t.users then (409, t)
      else (201, t.(users := t.users[e := Admin.AdminUser(newId, passwordHash)]))
  }

  /** Only an approved email without an account gets one; it is stored
      lower-cased, with the digest, and nothing else changes. */
  lemma {:induction false} SignupEffect(t: Admin.Tables, email: string, password: string, newId: nat, passwordHash: string)
    requires email != "" && password != ""
    ensures var (status, after) := SignupSpec(t, Some(email), Some(password), newId, passwordHash);
      var e := ToLower(email);
      (status == 403 <==> e !in t.approved)
      && (status == 409 <==> e in t.approved && e in t.users)
      && (status == 201 <==> e in t.approved && e !in t.users)
      && (status == 201 ==>
            after.users == t.users[e := Admin.AdminUser(newId, passwordHash)]
            && after.approved == t.approved && after.log == t.log)
      && (status != 201 ==> after == t)
  {
  }

  /** A second signup for the same address, in any letter case, is refused
      with 409: there is at most one account per email. */
  lemma {:induction false} SignupOnce(t: Admin.Tables, email: string, again: string, password: string, password2: string,
                                      id1: nat, id2: nat, hash1: string, hash2: string)
    requires email != "" && password != "" && again != "" && password2 != ""
    requires ToLower(again) == ToLower(email)
    requires SignupSpec(t, Some(email), Some(password), id1, hash1).0 == 201
    ensures var after := SignupSpec(t, Some(email), Some(password), id1, hash1).1;
      SignupSpec(after, Some(again), Some(password2), id2, hash2) == (409, after)
  {
  }

  /** The statements that can fail. */
  datatype SignupStep = Begin | SelectApproved | SelectUser | Hash | Insert | SaveSession | Commit

  /** `POST /api/admin/auth/signup` as written: the session is saved
      before the transaction commits, so a failing COMMIT answers 500 and
      rolls the account back but leaves the browser logged in as it. */
  method Signup(db: Admin.AdminTables, session: Session, email: Option<string>, password: Option<string>,
                passwordHash: string, failAt: Option<SignupStep>) returns (status: int)
    modifies db, session
    ensures status == 500 ==> db.State() == old(db.State())
    ensures status != 500 ==>
      (status, db.State()) == SignupSpec(old(db.State()), email, password, old(db.nextUserId), passwordHash)
    ensures status == 201 ==> session.user == Some(Admin.SessionUser(old(db.nextUserId), ToLower(email.value)))
    ensures status != 201 && failAt != Some(Commit) ==> session.user == old(session.user)
    ensures failAt.None? ==> status != 500
    ensures !MissingCredentials(email, password) && failAt.Some? && failAt.value in {Begin, SelectApproved}
            ==> status == 500
    ensures (!MissingCredentials(email, password) && ToLower(email.value) in old(db.approved)
             && failAt == Some(SelectUser))
            ==> status == 500
    ensures (!MissingCredentials(email, password) && ToLower(email.value) in old(db.approved)
             && ToLower(email.value) !in old(db.users) && failAt == Some(Hash))
            ==> status == 500
    ensures (SignupSpec(old(db.State()), email, password, old(db.nextUserId), passwordHash).0 == 201
             && failAt.Some?)
            ==> status == 500
    ensures failAt == Some(Commit) && SignupSpec(old(db.State()), email, password, old(db.nextUserId), passwordHash).0 == 201
            ==> status == 500 && session.user == Some(Admin.SessionUser(old(db.nextUserId), ToLower(email.value)))
                && ToLower(email.value) !in db.users
  {
    if email.None? || email.value == "" || password.None? || password.value == "" {
      return 400;
    }
    var lowerCaseEmail := ToLower(email.value);
    if failAt == Some(Begin) || failAt == Some(SelectApproved) {
      return 500;
    }
    if lowerCaseEmail !in db.approved {
      return 403;
    }
    if failAt == Some(SelectUser) {
      return 500;
    }
    if lowerCaseEmail in db.users {
      return 409;
    }
    if failAt == Some(Hash) {
      return 500;
    }
    var id := db.nextUserId;
    db.nextUserId := db.nextUserId + 1;
    if failAt == Some(Insert) {
      return 500;
    }
    var users := db.users[lowerCaseEmail := Admin.AdminUser(id, passwordHash)];
    if failAt == Some(SaveSession) {
      return 500;
    }
    session.user := Some(Admin.SessionUser(id, lowerCaseEmail));
    if failAt.Some? {
      // COMMIT is the only step left
      assert failAt.value.Commit? by {
        assert failAt.value.Begin? || failAt.value.SelectApproved? || failAt.value.SelectUser?
               || failAt.value.Hash? || failAt.value.Insert? || failAt.value.SaveSession?
               || failAt.value.Commit?;
      }
      return 500;
    }
    db.users := users;
    status := 201;
  }

  /** A concrete run of the handler as written: an approved address signs
      up and COMMIT fails. The answer is 500 and no account exists, yet the
      session names the rolled-back account. */
  method StaleSessionAfterFailedCommit() returns (status: int, sessionUser: Option<Admin.SessionUser>,
                                                  accountExists: bool)
    ensures status == 500 && sessionUser == Some(Admin.SessionUser(7, "a@b")) && !accountExists
  {
    var db := new Admin.AdminTables(Admin.Tables(map["a@b" := None], map[], []), 7);
    var session := new Session(None);
    assert ToLower("a@b") == "a@b";
    status := Signup(db, session, Some("a@b"), Some("pw"), "digest", Some(Commit));
    sessionUser := session.user;
    accountExists := "a@b" in db.users;
  }

  /** The same handler with the session saved only after COMMIT: a
      logged-in session always names an account that exists. */
  method SignupCommitFirst(db: Admin.AdminTables, session: Session, email: Option<string>, password: Option<string>,
                           passwordHash: string, failAt: Option<SignupStep>) returns (status: int)
    modifies db, session
    ensures status == 500 ==> session.user == old(session.user)
    ensures status == 500 && db.State() != old(db.State()) ==> failAt == Some(SaveSession)
    ensures status != 500 ==>
      (status, db.State()) == SignupSpec(old(db.State()), email, password, old(db.nextUserId), passwordHash)
    ensures session.user != old(session.user) ==>
      session.user.Some? && session.user.value.email in db.users
      && db.users[session.user.value.email].id == session.user.value.id
    ensures failAt.None? ==> status != 500
    ensures !MissingCredentials(email, password) && failAt.Some? && failAt.value in {Begin, SelectApproved}
            ==> status == 500
    ensures (SignupSpec(old(db.State()), email, password, old(db.nextUserId), passwordHash).0 == 201
             && failAt.Some?)
            ==> status == 500
  {
    if email.None? || email.value == "" || password.None? || password.value == "" {
      return 400;
    }
    var lowerCaseEmail := ToLower(email.value);
    if failAt == Some(Begin) || failAt == Some(SelectApproved) {
      return 500;
    }
    if lowerCaseEmail !in db.approved {
      return 403;
    }
    if failAt == Some(SelectUser) {
      return 500;
    }
    if lowerCaseEmail in db.users {
      return 409;
    }
    if failAt == Some(Hash) {
      return 500;
    }
    var id := db.nextUserId;
    db.nextUserId := db.nextUserId + 1;
    if failAt == Some(Insert) || failAt == Some(Commit) {
      return 500;
    }
    db.users := db.users[lowerCaseEmail := Admin.AdminUser(id, passwordHash)];
    if failAt.Some? {
      // saving the session is the only step left
      assert failAt.value.SaveSession? by {
        assert failAt.value.Begin? || failAt.value.SelectApproved? || failAt.value.SelectUser?
               || failAt.value.Hash? || failAt.value.Insert? || failAt.value.Commit?
               || failAt.value.SaveSession?;
      }
      return 500;
    }
    session.user := Some(Admin.SessionUser(id, lowerCaseEmail));
    status := 201;
  }
}
