/**
 * The login screen (screens/auth/LoginScreen.tsx): field validation, the
 * hard-coded admin account, and a comparison with the credentials stored
 * under `userEmail` and `userPassword`.
 */
module Login {
  import opened Common
  import opened KeyValueStore
  import Register
  import Text

  /** The errors `validate()` records; '' means none. */
  datatype LoginErrors = LoginErrors(email: string, password: string)

  /** `validate()`: an empty field is required; a non-empty e-mail must have the x@y.z shape; any non-empty password passes. */
  function Validate(email: string, password: string): (r: LoginErrors)
    ensures email == "" ==> r.email == Register.Required
    ensures email != "" && !Register.ValidEmail(email) ==> r.email == "Enter a valid email address"
    ensures r.email == "" <==> email != "" && Register.ValidEmail(email)
    ensures password == "" <==> r.password == Register.Required
    ensures password != "" <==> r.password == ""
  {
    LoginErrors(
      if email == "" then Register.Required
      else if !Register.ValidEmail(email) then "Enter a valid email address"
      else "",
      if password == "" then Register.Required else "")
  }

  /** Where a press of the login button leads. */
  datatype Outcome = FormErrors | AdminHome | PatientHome | InvalidCredentials

  const AdminEmail := "admin@gmail.com"
  const AdminPassword := "admin123"

  /**
   * `handleLogin()`: errors stop it; the admin account goes to the admin
   * tabs before any stored value is read; otherwise both values must equal
   * the stored ones exactly.
   */
  function HandleLogin(email: string, password: string, s: Store): (r: Outcome)
    ensures r == FormErrors <==> Validate(email, password) != LoginErrors("", "")
    ensures r == AdminHome <==> r != FormErrors && email == AdminEmail && password == AdminPassword
    ensures r == PatientHome <==>
      r != FormErrors && !(email == AdminEmail && password == AdminPassword) &&
      StoredText(s, UserEmailKey) == Some(email) && StoredText(s, UserPasswordKey) == Some(password)
  {
    var errors := Validate(email, password);
    if errors.email != "" || errors.password != "" then FormErrors
    else if email == AdminEmail && password == AdminPassword then AdminHome
    else if StoredText(s, UserEmailKey) == Some(email) && StoredText(s, UserPasswordKey) == Some(password) then PatientHome
    else InvalidCredentials
  }

  /** The admin e-mail has the x@y.z shape. */
  lemma AdminEmailValid()
    ensures Register.ValidEmail(AdminEmail)
  {
    var local, head, tail := "admin", "gmail", "com";
    assert forall k :: 0 <= k < |local| ==> Text.IsLower(local[k]);
    assert forall k :: 0 <= k < |head| ==> Text.IsLower(head[k]);
    assert forall k :: 0 <= k < |tail| ==> Text.IsLower(tail[k]);
    Register.ValidEmailFromParts(local, head, tail);
    assert AdminEmail == local + "@" + head + "." + tail;
  }

  /** The admin account passes validation, so it always reaches the admin tabs, whatever is stored. */
  lemma AdminAlwaysAdmitted(s: Store)
    ensures HandleLogin(AdminEmail, AdminPassword, s) == AdminHome
  {
    AdminEmailValid();
  }

  /** With nothing stored under `userEmail`, only the admin can log in. */
  lemma NoStoredCredentials(email: string, password: string, s: Store)
    requires UserEmailKey !in s
    ensures HandleLogin(email, password, s) != PatientHome
  {
  }

  /**
   * Registration writes `registeredUsers` and `currentUser` only, so it never
   * changes what login compares against: a newly registered patient logs in
   * only if the same credentials were already stored.
   */
  lemma RegistrationDoesNotChangeLogin(s: Store, users: seq<Records.User>, user: Records.User, email: string, password: string)
    ensures var s' := s[RegisteredUsersKey := UserList(users)][CurrentUserKey := UserRecord(user)];
            HandleLogin(email, password, s') == HandleLogin(email, password, s)
  {
    var s' := s[RegisteredUsersKey := UserList(users)][CurrentUserKey := UserRecord(user)];
    assert StoredText(s', UserEmailKey) == StoredText(s, UserEmailKey);
    assert StoredText(s', UserPasswordKey) == StoredText(s, UserPasswordKey);
  }
}
