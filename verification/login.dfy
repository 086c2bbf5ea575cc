/** The mock sign-in: the user record and token made up from the form, the
    role toggle, and where a successful sign-in lands. */
module Login {
  import opened Js
  import Routes

  datatype Form = Form(email: string, password: string, role: string)

  /** The form starts with role `user`. */
  const Initial: Form := Form("", "", "user")

  /** The actions the sign-in dispatches. */
  datatype AuthEvent = LoginStart | LoginSuccess(user: Record, token: string, role: string)

  /** `handleRoleChange`: the toggle reports `null` when the selected button is
      clicked again; that leaves the form alone. */
  function RoleChange(f: Form, newRole: Option<string>): (g: Form)
    ensures newRole.None? ==> g == f
    ensures newRole.Some? ==> g == f.(role := newRole.value)
  {
    if newRole.None? then f else f.(role := newRole.value)
  }

  /** `email.split("@")[0] || "User"` */
  function MockName(email: string): (name: string)
    ensures name != ""
    ensures '@' !in name || name == "User"
  {
    var before := BeforeFirst(email, '@');
    if before == "" then "User" else before
  }

  /** The name is the text before the first `@` when that is not empty, and
      "User" otherwise. */
  lemma MockNameSpec(email: string)
    ensures (|email| > 0 && email[0] != '@') ==>
      exists rest :: email == MockName(email) + rest && (rest == [] || rest[0] == '@') && '@' !in MockName(email)
    ensures (|email| == 0 || email[0] == '@') ==> MockName(email) == "User"
  {
    var before := BeforeFirst(email, '@');
    if |email| > 0 && email[0] != '@' {
      assert email == before + email[|before|..];
    }
  }

  const TokenPrefix: string := "mock_jwt_token_"

  function MockToken(role: string): (token: string)
    ensures TokenPrefix <= token
  {
    TokenPrefix + role
  }

  /** The role can be read back from the token, so distinct roles get
      distinct tokens. */
  lemma MockTokenRoundTrip(role: string, other: string)
    ensures MockToken(role)[|TokenPrefix|..] == role
    ensures MockToken(role) == MockToken(other) ==> role == other
  {
    assert MockToken(role)[|TokenPrefix|..] == role;
    assert MockToken(other)[|TokenPrefix|..] == other;
  }

  function MockUser(email: string): (user: Record)
    ensures user == map["name" := Str(MockName(email)), "email" := Str(email), "id" := Str("mock_id_123")]
  {
    map["name" := Str(MockName(email)), "email" := Str(email), "id" := Str("mock_id_123")]
  }

  /** `handleSubmit`: the dispatched actions and the path navigated to. */
  function Submit(f: Form): (r: (seq<AuthEvent>, Routes.Path))
    ensures r.0 == [LoginStart, LoginSuccess(MockUser(f.email), MockToken(f.role), f.role)]
    ensures r.1 == (if f.role == "admin" then Routes.AdminHome else Routes.UserHome)
  {
    ([LoginStart, LoginSuccess(MockUser(f.email), MockToken(f.role), f.role)],
     if f.role == "admin" then Routes.AdminHome else Routes.UserHome)
  }

  /** The sign-in sends a role where the router would: to its dashboard,
      which renders for `user` and `admin` once signed in with that role. */
  lemma SubmitLandsOnDashboard(f: Form)
    ensures Submit(f).1 == Routes.DashboardFor(Str(f.role))
    ensures f.role == "admin" ==> Routes.Route(true, Str(f.role), Submit(f).1) == Routes.Render(Routes.AdminDashboard)
    ensures f.role == "user" ==> Routes.Route(true, Str(f.role), Submit(f).1) == Routes.Render(Routes.UserDashboard)
  {
  }
}
