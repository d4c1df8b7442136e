/** The shop users page: which role links a role update creates and deletes,
    which roles may be offered for assignment, the create-user payload and
    the rules of the create-user form. */
module Users {
  import opened Wrappers
  import opened Seqs
  import opened Text
  import opened Pagination

  /** A role as the backend lists it (`OWNER`, `ADMIN`, `WAITER`, ...). */
  datatype Role = Role(id: int, value: string)

  /** A link between a user and a role; `id` identifies the link itself. */
  datatype UserRole = UserRole(id: string, roleId: int, role: Role)

  /** A shop user. An absent `userRoles` list is modelled as the empty one:
      every use in the source treats the two alike. */
  datatype User = User(
    id: string,
    userName: string,
    email: Option<string>,
    contactNo: string,
    firstName: string,
    lastName: string,
    userRoles: seq<UserRole>)

  datatype RoleLinkCreate = RoleLinkCreate(roleId: int, userId: string)

  /** Body of the role update request: links to add and link ids to remove. */
  datatype ChangeUserRoles = ChangeUserRoles(create: seq<RoleLinkCreate>, delete: seq<string>)

  const OwnerRole := "OWNER"
  const AdminRole := "ADMIN"

  function ExistingRoleIds(links: seq<UserRole>): set<int> {
    set l | l in links :: l.roleId
  }

  /** Ids of the links are unique, as primary keys of the backend are. */
  predicate LinkIdsUnique(links: seq<UserRole>) {
    forall i, j :: 0 <= i < j < |links| ==> links[i].id != links[j].id
  }

  /** A create entry for every selected role id the user has no link for. */
  function RolesToInsert(links: seq<UserRole>, roleIds: seq<int>, userId: string): (r: seq<RoleLinkCreate>)
    ensures forall c :: c in r <==>
              c.userId == userId && c.roleId in roleIds && c.roleId !in ExistingRoleIds(links)
    ensures |r| <= |roleIds|
  {
    if |roleIds| == 0 then []
    else
      var rest := RolesToInsert(links, roleIds[1..], userId);
      assert forall x :: x in roleIds <==> x == roleIds[0] || x in roleIds[1..];
      if roleIds[0] in ExistingRoleIds(links) then rest
      else [RoleLinkCreate(roleIds[0], userId)] + rest
  }

  /** The id of every existing link whose role is no longer selected. */
  function RolesToDelete(links: seq<UserRole>, roleIds: seq<int>): (r: seq<string>)
    ensures forall d :: d in r <==> exists l :: l in links && l.id == d && l.roleId !in roleIds
    ensures |r| <= |links|
  {
    if |links| == 0 then []
    else
      var rest := RolesToDelete(links[1..], roleIds);
      assert forall l :: l in links <==> l == links[0] || l in links[1..];
      if links[0].roleId !in roleIds then [links[0].id] + rest else rest
  }

  /** The request `handleuserRoleUpdate` sends for `user` and the selection `roleIds`. */
  function RoleDiff(user: User, roleIds: seq<int>): (r: ChangeUserRoles)
    ensures forall c :: c in r.create <==>
              c.userId == user.id && c.roleId in roleIds && c.roleId !in ExistingRoleIds(user.userRoles)
    ensures forall d :: d in r.delete <==>
              exists l :: l in user.userRoles && l.id == d && l.roleId !in roleIds
  {
    ChangeUserRoles(RolesToInsert(user.userRoles, roleIds, user.id), RolesToDelete(user.userRoles, roleIds))
  }

  /** The role ids a user holds once the backend has applied `change`. */
  function ApplyRoleChanges(links: seq<UserRole>, change: ChangeUserRoles): set<int> {
    (set l | l in links && l.id !in change.delete :: l.roleId) + (set c | c in change.create :: c.roleId)
  }

  /** Applying the diff leaves the user with exactly the selected roles. */
  lemma ApplyingDiffYieldsSelection(user: User, roleIds: seq<int>)
    requires LinkIdsUnique(user.userRoles)
    ensures ApplyRoleChanges(user.userRoles, RoleDiff(user, roleIds)) == set r | r in roleIds
  {
    var links := user.userRoles;
    var change := RoleDiff(user, roleIds);
    var result := ApplyRoleChanges(links, change);
    forall r | r in roleIds ensures r in result {
      if r in ExistingRoleIds(links) {
        var l :| l in links && l.roleId == r;
        forall l' | l' in links && l'.id == l.id ensures l' == l {
          var i :| 0 <= i < |links| && links[i] == l;
          var j :| 0 <= j < |links| && links[j] == l';
          assert !(i < j) && !(j < i);
        }
        assert l.id !in change.delete;
      } else {
        assert RoleLinkCreate(r, user.id) in change.create;
      }
    }
  }

  /** Each direction of the diff is empty exactly when nothing changed. */
  lemma DiffEmptyIffSelectionUnchanged(user: User, roleIds: seq<int>)
    ensures RoleDiff(user, roleIds) == ChangeUserRoles([], [])
            <==> (set r | r in roleIds) == ExistingRoleIds(user.userRoles)
  {
    var links := user.userRoles;
    var change := RoleDiff(user, roleIds);
    var selected := set r | r in roleIds;
    if selected == ExistingRoleIds(links) {
      NothingToInsert(links, roleIds, user.id);
      forall l | l in links ensures l.roleId in roleIds {
        assert l.roleId in ExistingRoleIds(links);
      }
      NothingToDelete(links, roleIds);
    }
    if change == ChangeUserRoles([], []) {
      forall r | r in roleIds ensures r in ExistingRoleIds(links) {
        assert RoleLinkCreate(r, user.id) !in change.create;
      }
      forall x | x in ExistingRoleIds(links) ensures x in selected {
        var l :| l in links && l.roleId == x;
        assert l.id !in change.delete;
      }
    }
  }

  lemma {:induction false} NothingToInsert(links: seq<UserRole>, roleIds: seq<int>, userId: string)
    requires forall r :: r in roleIds ==> r in ExistingRoleIds(links)
    ensures RolesToInsert(links, roleIds, userId) == []
  {
    if |roleIds| > 0 {
      NothingToInsert(links, roleIds[1..], userId);
    }
  }

  lemma {:induction false} NothingToDelete(links: seq<UserRole>, roleIds: seq<int>)
    requires forall l :: l in links ==> l.roleId in roleIds
    ensures RolesToDelete(links, roleIds) == []
  {
    if |links| > 0 {
      NothingToDelete(links[1..], roleIds);
    }
  }

  /** `handleuserRoleUpdate`: nothing is sent unless a listed user is selected. */
  function HandleRoleUpdate(users: seq<User>, selectedUser: string, roleIds: seq<int>): (r: Option<ChangeUserRoles>)
    ensures r.None? <==> forall i :: 0 <= i < |users| ==> users[i].id != selectedUser
    ensures r.Some? ==> exists i :: 0 <= i < |users| && users[i].id == selectedUser
                                   && r.value == RoleDiff(users[i], roleIds)
                                   && forall j :: 0 <= j < i ==> users[j].id != selectedUser
  {
    match FindFirst(users, (u: User) => u.id == selectedUser)
    case None => None
    case Some(u) => Some(RoleDiff(u, roleIds))
  }

  /** The roles offered for assignment: every role except OWNER and ADMIN. */
  function AssignableRoles(allRoles: seq<Role>): (r: seq<Role>)
    ensures forall role :: role in r <==> role in allRoles && role.value != OwnerRole && role.value != AdminRole
    ensures multiset(r) <= multiset(allRoles)
  {
    Filter(allRoles, (role: Role) => role.value !in [OwnerRole, AdminRole])
  }

  /** The create-user form (`userSchema`). */
  datatype UserForm = UserForm(
    userName: string,
    email: string,
    contactNo: string,
    firstName: string,
    lastName: string,
    password: string,
    confirmPassword: string)

  const DefaultUserForm := UserForm("", "", "", "", "", "", "")

  /** `userSchema`, its lengths counted in UTF-16 code units; the email's
      format check is left to `isEmail`. */
  predicate UserFormValid(v: UserForm, isEmail: string -> bool) {
    && 2 <= JsLength(v.userName) <= 10
    && (v.email == "" || isEmail(v.email))
    && JsLength(v.password) >= 4
    && JsLength(v.confirmPassword) >= 4
    && v.confirmPassword == v.password
  }

  /** The blank form is rejected, as is every form whose user name is
      shorter than two UTF-16 code units or whose confirmation differs from the
      password, whatever the other fields hold. */
  lemma DefaultUserFormRejected(isEmail: string -> bool)
    ensures !UserFormValid(DefaultUserForm, isEmail)
    ensures forall v: UserForm :: JsLength(v.userName) < 2 ==> !UserFormValid(v, isEmail)
    ensures forall v: UserForm :: v.confirmPassword != v.password ==> !UserFormValid(v, isEmail)
  {
  }

  datatype CreateUser = CreateUser(
    userName: string,
    password: string,
    email: Option<string>,
    firstName: string,
    lastName: string,
    isActive: bool,
    contactNo: string,
    shopId: string)

  /** `onUserFormSubmit`: builds the create payload when the route names a shop. */
  function UserFormSubmit(v: UserForm, shopId: string): (r: Option<CreateUser>)
    ensures r.None? <==> shopId == ""
    ensures r.Some? ==> r.value.isActive && r.value.shopId == shopId
    ensures r.Some? ==> (r.value.email.Some? <==> v.email != "")
    ensures r.Some? && r.value.email.Some? ==> r.value.email.value == v.email
    ensures r.Some? ==> r.value.userName == v.userName && r.value.password == v.password
                        && r.value.firstName == v.firstName && r.value.lastName == v.lastName
                        && r.value.contactNo == v.contactNo
  {
    if shopId == "" then None
    else Some(CreateUser(v.userName, v.password, if v.email != "" then Some(v.email) else None,
                         v.firstName, v.lastName, true, v.contactNo, shopId))
  }

  /** A valid form yields a payload whose user name and password meet the
      schema bounds, whose password is the confirmed one, and whose email,
      when sent, passed the email check. */
  lemma ValidFormGivesBoundedPayload(v: UserForm, isEmail: string -> bool, shopId: string)
    requires UserFormValid(v, isEmail) && shopId != ""
    ensures UserFormSubmit(v, shopId).Some?
    ensures 2 <= JsLength(UserFormSubmit(v, shopId).value.userName) <= 10
    ensures JsLength(UserFormSubmit(v, shopId).value.password) >= 4
    ensures UserFormSubmit(v, shopId).value.password == v.confirmPassword
    ensures UserFormSubmit(v, shopId).value.email.Some? ==> isEmail(UserFormSubmit(v, shopId).value.email.value)
  {
  }

  datatype ShopUsersQuery = ShopUsersQuery(shopId: string, skip: int, take: int, includes: string)

  /** The users list request: under a shop, twenty users per page with their role links. */
  function UsersFetch(shopId: string, pageParam: Option<string>): (r: Option<ShopUsersQuery>)
    ensures r.None? <==> shopId == ""
    ensures r.Some? ==> r.value.shopId == shopId && r.value.take == ItemsPerPage
                        && r.value.includes == "userRoles"
    ensures r.Some? && PageFromQuery(pageParam).Num? ==>
              r.value.skip == ItemsPerPage * PageFromQuery(pageParam).value
    ensures r.Some? && PageFromQuery(pageParam).NaN? ==> r.value.skip == 0
  {
    if shopId == "" then None
    else
      var w := PageWindow(PageFromQuery(pageParam));
      Some(ShopUsersQuery(shopId, w.skip, w.take, "userRoles"))
  }
}
