/** The users table: one row per user, the email cell, the highlighted
    row and the OWNER edit lock. */
module UserList {
  import opened Wrappers
  import opened Seqs
  import opened Users

  /** The edit button is disabled for a user holding the OWNER role. */
  function EditLocked(user: User): (b: bool)
    ensures b <==> exists l :: l in user.userRoles && l.role.value == OwnerRole
  {
    HoldsOwner(user.userRoles)
  }

  function HoldsOwner(links: seq<UserRole>): (b: bool)
    ensures b <==> exists l :: l in links && l.role.value == OwnerRole
  {
    if |links| == 0 then false
    else
      assert forall l :: l in links <==> l == links[0] || l in links[1..];
      links[0].role.value == OwnerRole || HoldsOwner(links[1..])
  }

  /** `user.email || '-'`. */
  function EmailCell(email: Option<string>): (s: string)
    ensures s != ""
    ensures email.Some? && email.value != "" ==> s == email.value
    ensures email.None? || email.value == "" ==> s == "-"
  {
    match email
    case Some(e) => if e != "" then e else "-"
    case None => "-"
  }

  /** What one table row shows and reports. */
  datatype UserRow = UserRow(
    reportsId: string,
    userName: string,
    emailCell: string,
    highlighted: bool,
    editDisabled: bool)

  function Row(user: User, selectedUser: string): UserRow {
    UserRow(user.id, user.userName, EmailCell(user.email), selectedUser == user.id, EditLocked(user))
  }

  /** `users.map(...)`: one row per user, in input order. */
  function UserRows(users: seq<User>, selectedUser: string): (rows: seq<UserRow>)
    ensures |rows| == |users|
    ensures forall i :: 0 <= i < |users| ==>
              && rows[i].reportsId == users[i].id
              && rows[i].userName == users[i].userName
              && rows[i].emailCell == EmailCell(users[i].email)
              && (rows[i].highlighted <==> users[i].id == selectedUser)
              && (rows[i].editDisabled <==> exists l :: l in users[i].userRoles && l.role.value == OwnerRole)
  {
    seq(|users|, i requires 0 <= i < |users| => Row(users[i], selectedUser))
  }

  /** Some row is highlighted exactly when the details card has a user to show. */
  lemma HighlightMatchesDetails(users: seq<User>, selectedUser: string, roleIds: seq<int>)
    ensures (exists i :: 0 <= i < |users| && UserRows(users, selectedUser)[i].highlighted)
            <==> HandleRoleUpdate(users, selectedUser, roleIds).Some?
  {
    var rows := UserRows(users, selectedUser);
    if HandleRoleUpdate(users, selectedUser, roleIds).Some? {
      var i :| 0 <= i < |users| && users[i].id == selectedUser;
      assert rows[i].highlighted;
    }
  }

  /** With unique user ids at most one row is highlighted. */
  lemma AtMostOneHighlighted(users: seq<User>, selectedUser: string)
    requires forall i, j :: 0 <= i < j < |users| ==> users[i].id != users[j].id
    ensures forall i, j :: 0 <= i < j < |users| && UserRows(users, selectedUser)[i].highlighted
              ==> !UserRows(users, selectedUser)[j].highlighted
  {
  }
}
