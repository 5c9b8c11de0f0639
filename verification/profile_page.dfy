/**
 * The profile page (frontend/src/pages/Profile.jsx): the form seeded from the signed-in user,
 * the checks `handleSubmit` makes before it sends anything, the `PUT /api/auth/profile` body it
 * builds, and the form it keeps after a successful update.
 *
 * The signed-in user is the `ProfileView` the profile endpoint answers with; a user restored
 * from a login response has no avatar, which is `None` here.
 */
module ProfilePage {
  import opened Common
  import opened Store
  import opened AuthApi

  /** `formData`. */
  datatype ProfileForm = ProfileForm(name: string, email: string, password: string, confirmPassword: string, avatar: Option<string>)

  /** The form filled from `user`: its name, e-mail and avatar (`''`/`null` when missing or empty) and no password. */
  function InitialForm(user: Option<ProfileView>): (f: ProfileForm)
    ensures f.password == "" && f.confirmPassword == ""
    ensures user.None? ==> f == ProfileForm("", "", "", "", None)
    ensures user.Some? ==> f.name == user.value.name && f.email == user.value.email
    ensures user.Some? ==> f.avatar == if Present(user.value.avatar) then user.value.avatar else None
  {
    if user.None? then ProfileForm("", "", "", "", None)
    else
      var u := user.value;
      ProfileForm(u.name, u.email, "", "", if Present(u.avatar) then u.avatar else None)
  }

  const ShortPassword: string := "รหัสผ่านต้องมีอย่างน้อย 6 ตัวอักษร"

  const PasswordMismatch: string := "รหัสผ่านไม่ตรงกัน"

  /** A password, when one is typed, needs at least this many characters. */
  const MinPasswordLength: nat := 6

  /**
   * What submitting `f` does: the error message it shows without sending anything, or the body
   * it sends. A password is checked only when one is typed: first its length, then that the
   * confirmation repeats it. The body always carries the name, carries the password only when
   * one is typed and the avatar only when one is set.
   */
  function ProfileRequest(f: ProfileForm): (r: Result<ProfileBody, string>)
    ensures r.Err? <==> f.password != "" && (|f.password| < MinPasswordLength || f.password != f.confirmPassword)
    ensures r.Err? ==> r.error == if |f.password| < MinPasswordLength then ShortPassword else PasswordMismatch
    ensures r.Ok? ==> r.value.name == Value(f.name)
    ensures r.Ok? ==> r.value.password == if f.password != "" then Value(f.password) else Absent
    ensures r.Ok? ==> r.value.avatar == if Present(f.avatar) then Value(f.avatar.value) else Absent
  {
    if f.password != "" && |f.password| < MinPasswordLength then Err(ShortPassword)
    else if f.password != "" && f.password != f.confirmPassword then Err(PasswordMismatch)
    else
      Ok(ProfileBody(
        Value(f.name),
        if f.password != "" then Value(f.password) else Absent,
        if Present(f.avatar) then Value(f.avatar.value) else Absent))
  }

  /** `handleSubmit` up to the request: the checks with early returns, then `updatePayload` field by field. */
  method HandleSubmit(f: ProfileForm) returns (r: Result<ProfileBody, string>)
    ensures r == ProfileRequest(f)
  {
    if f.password != "" {
      if |f.password| < MinPasswordLength {
        return Err(ShortPassword);
      }
      if f.password != f.confirmPassword {
        return Err(PasswordMismatch);
      }
    }
    var payload := ProfileBody(Value(f.name), Absent, Absent);
    if f.password != "" {
      payload := payload.(password := Value(f.password));
    }
    if Present(f.avatar) {
      payload := payload.(avatar := Value(f.avatar.value));
    }
    r := Ok(payload);
  }

  /**
   * A password the server is asked to store was typed twice and is long enough; a form with
   * no password never asks for one, whatever the confirmation holds.
   */
  lemma SentPasswordWasConfirmed(f: ProfileForm)
    requires ProfileRequest(f).Ok?
    ensures Truthy(ProfileRequest(f).value.password) <==> f.password != ""
    ensures Truthy(ProfileRequest(f).value.password) ==>
      f.password == f.confirmPassword && |f.password| >= MinPasswordLength &&
      ProfileRequest(f).value.password.v == f.password
  {
  }

  /**
   * Clearing the name field does not clear the stored name: the page sends `name: ''`, which
   * the server's `if (name)` skips; any other name is stored as typed.
   */
  lemma ClearedNameKeepsStoredName(f: ProfileForm)
    requires ProfileRequest(f).Ok?
    ensures var b := ProfileRequest(f).value;
      Truthy(b.name) <==> f.name != ""
    ensures var b := ProfileRequest(f).value;
      f.name != "" ==> b.name.v == f.name
  {
  }

  /** The form after a successful update: both password inputs cleared, every other field kept. */
  function AfterUpdate(f: ProfileForm): (r: ProfileForm)
    ensures r.password == "" && r.confirmPassword == ""
    ensures r.name == f.name && r.email == f.email && r.avatar == f.avatar
  {
    f.(password := "", confirmPassword := "")
  }

  /** Submitting again after a successful update passes the checks and leaves the password alone. */
  lemma ResubmitKeepsPassword(f: ProfileForm)
    ensures ProfileRequest(AfterUpdate(f)).Ok?
    ensures ProfileRequest(AfterUpdate(f)).value.password == Absent
    ensures ProfileRequest(AfterUpdate(f)).value.name == Value(f.name)
  {
  }
}
