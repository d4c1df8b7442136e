/** The signed-in user's menu: avatar initials, name and contact lines, and
    log out. The signed-in user's record comes from the auth slice, which is
    not part of this model; it is reduced to the fields the menu reads. */
module UserNav {
  import opened Wrappers
  import opened Text
  import Users

  datatype AuthUser = AuthUser(firstName: string, lastName: string, email: Option<string>, contactNo: string)

  /** Raised by `""[0].toUpperCase()`: indexing past the end yields
      `undefined`, which has no `toUpperCase`. */
  datatype Crash = TypeError

  /** How an absent value prints inside a template literal. */
  const Undefined := "undefined"

  /** `${userData?.firstName[0].toUpperCase()}${userData?.lastName[0].toUpperCase()}`
      as written: with no user both halves print "undefined"; an empty name
      makes the expression throw. */
  function InitialsAsWritten(user: Option<AuthUser>): (r: Result<string, Crash>)
    ensures user.Some? ==> (r.Failure? <==> user.value.firstName == "" || user.value.lastName == "")
    ensures user.Some? && r.Success? ==>
              r.value == [UpperChar(user.value.firstName[0]), UpperChar(user.value.lastName[0])]
    ensures user.None? ==> r == Success(Undefined + Undefined)
  {
    if user.None? then Success(Undefined + Undefined)
    else if user.value.firstName == "" || user.value.lastName == "" then Failure(TypeError)
    else Success([UpperChar(user.value.firstName[0]), UpperChar(user.value.lastName[0])])
  }

  /** The first letter of a name, upper-cased, or nothing for an empty name. */
  function Initial(name: string): (r: string)
    ensures |r| <= 1 && (|r| == 1 <==> name != "")
    ensures name != "" ==> r == [UpperChar(name[0])]
  {
    if name == "" then "" else [UpperChar(name[0])]
  }

  /** The initials with empty names skipped instead of throwing. */
  function Initials(user: Option<AuthUser>): (r: string)
    ensures user.Some? ==> |r| <= 2
  {
    if user.None? then Undefined + Undefined
    else Initial(user.value.firstName) + Initial(user.value.lastName)
  }

  /** The corrected initials never throw, agree with the original whenever it
      does not throw, and have length 2 exactly when both names are non-empty. */
  lemma InitialsAgreeWhenDefined(user: Option<AuthUser>)
    ensures InitialsAsWritten(user).Success? ==> Initials(user) == InitialsAsWritten(user).value
    ensures user.Some? ==> (|Initials(user)| == 2 <==> user.value.firstName != "" && user.value.lastName != "")
  {
  }

  /** The create-user schema accepts an empty first name, and such a user's
      menu throws while rendering. */
  lemma EmptyFirstNameCrashesMenu()
    ensures Users.UserFormValid(Users.UserForm("ab", "", "", "", "Doe", "pass", "pass"), (e: string) => false)
    ensures InitialsAsWritten(Some(AuthUser("", "Doe", None, "9876543210"))) == Failure(TypeError)
    ensures |Initials(Some(AuthUser("", "Doe", None, "9876543210")))| == 1
  {
  }

  /** `${userData?.firstName} ${userData?.lastName}`. */
  function NameLine(user: Option<AuthUser>): (r: string)
    ensures user.Some? ==> r == user.value.firstName + " " + user.value.lastName
    ensures user.Some? ==> |r| == |user.value.firstName| + 1 + |user.value.lastName|
    ensures user.Some? ==> r[..|user.value.firstName|] == user.value.firstName
                           && r[|user.value.firstName| + 1..] == user.value.lastName
  {
    if user.None? then Undefined + " " + Undefined
    else user.value.firstName + " " + user.value.lastName
  }

  /** `userData?.email || userData?.contactNo`; with no user nothing is shown. */
  function SecondaryLine(user: Option<AuthUser>): (r: string)
    ensures user.None? ==> r == ""
    ensures user.Some? && user.value.email.Some? && user.value.email.value != "" ==> r == user.value.email.value
    ensures user.Some? && (user.value.email.None? || user.value.email.value == "") ==> r == user.value.contactNo
  {
    if user.None? then ""
    else if user.value.email.Some? && user.value.email.value != "" then user.value.email.value
    else user.value.contactNo
  }

  /** What the browser holds: local storage and the current location. */
  datatype Session = Session(storage: map<string, string>, location: string)

  const AccessToken := "accessToken"
  const SignInPath := "/sign-in"

  /** How the logout request settles. */
  datatype Settled = Resolved | Rejected

  /** The session after the click, and whether a rejection escaped the handler. */
  datatype LogoutRun = LogoutRun(session: Session, unhandledRejection: bool)

  /** `handleLogout` as written: `signOut` returns the unwrapped promise
      without awaiting it, so its `catch` never sees a rejection; the
      rejection propagates out of `await signOut()` and the token removal
      and the navigation are skipped. */
  function LogoutAsWritten(s: Session, outcome: Settled): (r: LogoutRun)
    ensures r.unhandledRejection <==> outcome == Rejected
    ensures outcome == Resolved ==> AccessToken !in r.session.storage && r.session.location == SignInPath
    ensures outcome == Rejected ==> r.session == s
  {
    if outcome == Rejected then LogoutRun(s, true)
    else LogoutRun(Session(s.storage - {AccessToken}, SignInPath), false)
  }

  /** A failed logout request leaves the user signed in: the token stays
      stored and the page does not change. */
  lemma RejectedLogoutKeepsToken(s: Session)
    requires AccessToken in s.storage && s.location != SignInPath
    ensures var r := LogoutAsWritten(s, Rejected);
            AccessToken in r.session.storage && r.session.location != SignInPath && r.unhandledRejection
  {
  }

  /** `handleLogout` with the rejection caught inside `signOut`: the token is
      removed and the sign-in page opened however the request settles. */
  function Logout(s: Session, outcome: Settled): (r: Session)
    ensures AccessToken !in r.storage && r.location == SignInPath
    ensures forall k :: k in s.storage && k != AccessToken ==> k in r.storage && r.storage[k] == s.storage[k]
    ensures r.storage.Keys == s.storage.Keys - {AccessToken}
  {
    Session(s.storage - {AccessToken}, SignInPath)
  }

  /** However the request settles, the corrected logout ends where the
      original ends on success. */
  lemma LogoutAgreesOnSuccess(s: Session, outcome: Settled)
    ensures LogoutAsWritten(s, Resolved) == LogoutRun(Logout(s, outcome), false)
  {
  }
}
