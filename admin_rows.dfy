// The admin list's per-row rules (src/components/admin/admin-management.tsx):
// whether the revoke button is enabled, its title, the "Invited By" text,
// and the guard on the add form. Unlike the server, which forbids revoking
// an admin one invited, the page disables revoking one's own inviter.

module AdminRows {
  import opened Common

  /** An element of the fetched `admins` list. */
  datatype AdminRow = AdminRow(email: string, addedByEmail: Option<string>)

  /** JavaScript truthiness of a nullable string. */
  predicate Truthy(s: Option<string>)
  {
    s.Some? && s.value != ""
  }

  /** `admins.find(a => a.email === currentUserEmail)`: the first row with
      that email. */
  function Find(admins: seq<AdminRow>, email: string): (r: Option<AdminRow>)
    ensures r.Some? ==> r.value in admins && r.value.email == email
    ensures r.None? <==> forall a :: a in admins ==> a.email != email
    ensures r.Some? ==>
      exists k :: 0 <= k < |admins| && admins[k] == r.value && forall j :: 0 <= j < k ==> admins[j].email != email
  {
    if admins == [] then None
    else if admins[0].email == email then Some(admins[0])
    else Find(admins[1..], email)
  }

  /** `...?.added_by_email`: the current user's inviter, if the current
      user is listed and was invited by someone still listed by email. */
  function MyInviter(admins: seq<AdminRow>, currentUserEmail: string): Option<string>
  {
    match Find(admins, currentUserEmail)
    case Some(me) => me.addedByEmail
    case None => None
  }

  datatype RevokeButton = RevokeButton(canRevoke: bool, title: string)

  const SelfTitle: string := "You cannot revoke yourself."
  const InitialTitle: string := "The initial admin cannot be revoked."
  const InviterTitle: string := "You cannot revoke your inviter."
  const RevokeTitle: string := "Revoke access"

  /** `canRevoke` and `disabledTitle` for one row. */
  function RowButton(admin: AdminRow, admins: seq<AdminRow>, currentUserEmail: string,
                     initialAdminEmail: Option<string>): RevokeButton
  {
    var isTargetInitialAdmin := initialAdminEmail == Some(admin.email);
    var myInviter := MyInviter(admins, currentUserEmail);
    if admin.email == currentUserEmail then RevokeButton(false, SelfTitle)
    else if isTargetInitialAdmin then RevokeButton(false, InitialTitle)
    else if myInviter == Some(admin.email) then RevokeButton(false, InviterTitle)
    else RevokeButton(true, RevokeTitle)
  }

  /** A row is revocable exactly when it is neither the current user, nor
      the initial admin, nor the current user's inviter; the title names
      the first of those reasons that applies. */
  lemma {:induction false} RowButtonRules(admin: AdminRow, admins: seq<AdminRow>, currentUserEmail: string,
                                          initialAdminEmail: Option<string>)
    ensures var b := RowButton(admin, admins, currentUserEmail, initialAdminEmail);
      var inviter := exists me :: me in admins && me.email == currentUserEmail
                                && Find(admins, currentUserEmail) == Some(me) && me.addedByEmail == Some(admin.email);
      (b.canRevoke <==> admin.email != currentUserEmail && initialAdminEmail != Some(admin.email) && !inviter)
      && (b.canRevoke <==> b.title == RevokeTitle)
      && (b.title == SelfTitle <==> admin.email == currentUserEmail)
      && (b.title == InitialTitle <==> admin.email != currentUserEmail && initialAdminEmail == Some(admin.email))
      && (b.title == InviterTitle <==> admin.email != currentUserEmail && initialAdminEmail != Some(admin.email) && inviter)
  {
    var f := Find(admins, currentUserEmail);
    if f.Some? {
      assert f.value in admins && f.value.email == currentUserEmail;
    }
  }

  /** The current user's inviter cannot be revoked from this page: their
      row's button is disabled, whatever the list's order. */
  lemma {:induction false} InviterRowDisabled(admins: seq<AdminRow>, me: AdminRow, inviter: AdminRow,
                                              initialAdminEmail: Option<string>)
    requires me in admins && inviter in admins
    requires forall a :: a in admins && a.email == me.email ==> a == me
    requires me.addedByEmail == Some(inviter.email)
    ensures !RowButton(inviter, admins, me.email, initialAdminEmail).canRevoke
  {
    var f := Find(admins, me.email);
    assert f.Some?;
    assert f.value == me;
  }

  /** `invitedByText`. */
  function InvitedByText(admin: AdminRow, initialAdminEmail: Option<string>): (r: string)
    ensures Truthy(admin.addedByEmail) ==> r == admin.addedByEmail.value
    ensures !Truthy(admin.addedByEmail) && initialAdminEmail == Some(admin.email) ==> r == "Initial Admin"
    ensures !Truthy(admin.addedByEmail) && initialAdminEmail != Some(admin.email) ==> r == "Inviter Revoked"
  {
    if Truthy(admin.addedByEmail) then admin.addedByEmail.value
    else if initialAdminEmail == Some(admin.email) then "Initial Admin"
    else "Inviter Revoked"
  }

  /** `handleAddAdmin`: the JSON body it posts, or nothing for an empty
      field. */
  function AddAdminBody(newAdminEmail: string): (r: Option<string>)
    ensures r.None? <==> newAdminEmail == ""
    ensures r.Some? ==> r.value == newAdminEmail
  {
    if newAdminEmail == "" then None else Some(newAdminEmail)
  }
}
