// The admin management endpoint (src/app/api/admin/management/route.ts):
// approving a new admin email and revoking an admin, over the tables
// `approved_emails`, `admin_users` and `admin_activity_log`.

module AdminManagement {
  import opened Common

  /** `session.user`: who is logged in. */
  datatype SessionUser = SessionUser(id: nat, email: string)

  datatype AdminUser = AdminUser(id: nat, passwordHash: string)

  /** `ADD_ADMIN` and `REVOKE_ADMIN`. */
  datatype Action = AddAdminAction | RevokeAdminAction

  /** A row of `admin_activity_log`. */
  datatype LogEntry = LogEntry(actor: nat, action: Action, target: string)

  /** The three tables. Emails are unique in both `approved_emails` (mapped
      to their `added_by`, NULL for an admin added from the command line)
      and `admin_users`. */
  datatype Tables = Tables(approved: map<string, Option<nat>>, users: map<string, AdminUser>, log: seq<LogEntry>)

  /** `email.toLowerCase().trim()`. */
  function Sanitize(email: string): string
  {
    Trim(ToLower(email))
  }

  /** `!email || typeof email !== 'string'`: a missing, non-string or
      empty value (`None` stands for the first two). */
  predicate Invalid(email: Option<string>)
  {
    email.None? || email.value == ""
  }

  // ---------------------------------------------------------------------
  // Specifications of the two handlers (for a database that does not fail)

  /** `POST`: the status and the tables afterwards. */
  function AddAdminSpec(t: Tables, actor: Option<SessionUser>, email: Option<string>): (int, Tables)
  {
    if actor.None? then (403, t)
    else if Invalid(email) then (400, t)
    else
      var e := Sanitize(email.value);
      if e in t.approved then (409, t)
      else (200, t.(approved := t.approved[e := Some(actor.value.id)],
                    log := t.log + [LogEntry(actor.value.id, AddAdminAction, e)]))
  }

  /** `DELETE`: the status and the tables afterwards. The email is used as
      sent, without case folding or trimming. */
  function RevokeAdminSpec(t: Tables, actor: Option<SessionUser>, email: Option<string>): (int, Tables)
  {
    if actor.None? then (403, t)
    else if Invalid(email) then (400, t)
    else
      var e := email.value;
      if actor.value.email == e then (403, t)
      else if e !in t.approved then (404, t)
      else if t.approved[e] == Some(actor.value.id) then (403, t)
      else (200, t.(approved := t.approved - {e}, users := t.users - {e},
                    log := t.log + [LogEntry(actor.value.id, RevokeAdminAction, e)]))
  }

  /** Without a session both handlers refuse with 403 and change nothing. */
  lemma {:induction false} NoSessionForbidden(t: Tables, email: Option<string>)
    ensures AddAdminSpec(t, None, email) == (403, t)
    ensures RevokeAdminSpec(t, None, email) == (403, t)
  {
  }

  /** Every answer but 200 leaves the tables as they were. */
  lemma {:induction false} RefusalsChangeNothing(t: Tables, actor: Option<SessionUser>, email: Option<string>)
    ensures AddAdminSpec(t, actor, email).0 != 200 ==> AddAdminSpec(t, actor, email).1 == t
    ensures RevokeAdminSpec(t, actor, email).0 != 200 ==> RevokeAdminSpec(t, actor, email).1 == t
  {
  }

  /** A successful approval adds the sanitised email, invited by the
      actor, and one ADD_ADMIN entry; an email whose sanitised form is
      already approved gets 409. */
  lemma {:induction false} AddAdminEffect(t: Tables, actor: SessionUser, email: string)
    requires email != ""
    ensures var (status, after) := AddAdminSpec(t, Some(actor), Some(email));
      var e := Sanitize(email);
      (status == 409 <==> e in t.approved)
      && (status == 200 <==> e !in t.approved)
      && (status == 200 ==>
            after.approved.Keys == t.approved.Keys + {e} && after.approved[e] == Some(actor.id)
            && (forall k :: k in t.approved ==> after.approved[k] == t.approved[k])
            && after.users == t.users
            && after.log == t.log + [LogEntry(actor.id, AddAdminAction, e)])
  {
  }

  /** Approving the same address twice, in any letter case or with
      surrounding spaces, fails the second time with 409. */
  lemma {:induction false} AddAdminTwice(t: Tables, actor: SessionUser, actor2: SessionUser, email: string, again: string)
    requires email != "" && again != "" && Sanitize(again) == Sanitize(email)
    requires AddAdminSpec(t, Some(actor), Some(email)).0 == 200
    ensures var after := AddAdminSpec(t, Some(actor), Some(email)).1;
      AddAdminSpec(after, Some(actor2), Some(again)) == (409, after)
  {
  }

  /** The revocation rules: one's own email and an admin one invited are
      403, an unknown email is 404; otherwise the email leaves both
      `approved_emails` and `admin_users` and one REVOKE_ADMIN entry is
      logged. */
  lemma {:induction false} RevokeAdminEffect(t: Tables, actor: SessionUser, email: string)
    requires email != ""
    ensures var (status, after) := RevokeAdminSpec(t, Some(actor), Some(email));
      (actor.email == email ==> status == 403)
      && (actor.email != email && email !in t.approved ==> status == 404)
      && (actor.email != email && email in t.approved && t.approved[email] == Some(actor.id) ==> status == 403)
      && (status == 200 <==>
            actor.email != email && email in t.approved && t.approved[email] != Some(actor.id))
      && (status == 200 ==>
            email !in after.approved && email !in after.users
            && after.approved == t.approved - {email} && after.users == t.users - {email}
            && after.log == t.log + [LogEntry(actor.id, RevokeAdminAction, email)])
  {
  }

  /** Whoever approves an email cannot revoke it afterwards, while any
      other admin can. */
  lemma {:induction false} InviterCannotRevoke(t: Tables, inviter: SessionUser, other: SessionUser, email: string)
    requires email != "" && email == Sanitize(email)
    requires inviter.id != other.id && other.email != email && inviter.email != email
    requires AddAdminSpec(t, Some(inviter), Some(email)).0 == 200
    ensures var after := AddAdminSpec(t, Some(inviter), Some(email)).1;
      RevokeAdminSpec(after, Some(inviter), Some(email)).0 == 403
      && RevokeAdminSpec(after, Some(other), Some(email)).0 == 200
  {
  }

  // ---------------------------------------------------------------------
  // The handlers

  /** The statements that can fail; a failure rolls back and answers
      500. */
  datatype Step = Begin | SelectApproved | InsertApproved | DeleteUser | DeleteApproved | InsertLog | Commit

  class AdminTables {
    var approved: map<string, Option<nat>>
    var users: map<string, AdminUser>
    var log: seq<LogEntry>
    /** The next value of the `admin_users.id` sequence. */
    var nextUserId: nat

    function State(): Tables
      reads this
    {
      Tables(approved, users, log)
    }

    constructor (initial: Tables, nextUserId: nat)
      ensures State() == initial && this.nextUserId == nextUserId
    {
      approved := initial.approved;
      users := initial.users;
      log := initial.log;
      this.nextUserId := nextUserId;
    }

    /** `POST`: approve an email. */
    method AddAdmin(actor: Option<SessionUser>, email: Option<string>, failAt: Option<Step>) returns (status: int)
      modifies this
      ensures status == 500 ==> State() == old(State())
      ensures status != 500 ==> (status, State()) == AddAdminSpec(old(State()), actor, email)
      ensures failAt.None? ==> status != 500
      ensures actor.Some? && !Invalid(email) && failAt.Some? && failAt.value in {Begin, SelectApproved}
              ==> status == 500
      ensures (AddAdminSpec(old(State()), actor, email).0 == 200
               && failAt.Some? && failAt.value !in {DeleteUser, DeleteApproved})
              ==> status == 500
      ensures nextUserId == old(nextUserId)
    {
      ghost var t := State();
      if actor.None? {
        return 403;
      }
      if email.None? || email.value == "" {
        return 400;
      }
      var sanitizedEmail := Sanitize(email.value);
      if failAt == Some(Begin) || failAt == Some(SelectApproved) {
        return 500;
      }
      if sanitizedEmail in approved {
        return 409;
      }
      if failAt.Some? && failAt.value !in {DeleteUser, DeleteApproved} {
        // one of the two INSERTs or COMMIT
        return 500;
      }
      approved := approved[sanitizedEmail := Some(actor.value.id)];
      log := log + [LogEntry(actor.value.id, AddAdminAction, sanitizedEmail)];
      status := 200;
      assert State() == t.(approved := t.approved[sanitizedEmail := Some(actor.value.id)],
                           log := t.log + [LogEntry(actor.value.id, AddAdminAction, sanitizedEmail)]);
    }

    /** `DELETE`: revoke an admin. */
    method RevokeAdmin(actor: Option<SessionUser>, emailToRevoke: Option<string>, failAt: Option<Step>)
      returns (status: int)
      modifies this
      ensures status == 500 ==> State() == old(State())
      ensures status != 500 ==> (status, State()) == RevokeAdminSpec(old(State()), actor, emailToRevoke)
      ensures failAt.None? ==> status != 500
      ensures (actor.Some? && !Invalid(emailToRevoke) && actor.value.email != emailToRevoke.value
               && failAt.Some? && failAt.value in {Begin, SelectApproved})
              ==> status == 500
      ensures (RevokeAdminSpec(old(State()), actor, emailToRevoke).0 == 200
               && failAt.Some? && failAt.value != InsertApproved)
              ==> status == 500
      ensures nextUserId == old(nextUserId)
    {
      if actor.None? {
        return 403;
      }
      if emailToRevoke.None? || emailToRevoke.value == "" {
        return 400;
      }
      var e := emailToRevoke.value;
      if actor.value.email == e {
        return 403;
      }
      if failAt == Some(Begin) || failAt == Some(SelectApproved) {
        return 500;
      }
      if e !in approved {
        return 404;
      }
      var addedById := approved[e];
      if addedById == Some(actor.value.id) {
        return 403;
      }
      if failAt.Some? && failAt.value != InsertApproved {
        // one of the two DELETEs, the log INSERT or COMMIT
        return 500;
      }
      users := users - {e};
      approved := approved - {e};
      log := log + [LogEntry(actor.value.id, RevokeAdminAction, e)];
      status := 200;
    }
  }
}
