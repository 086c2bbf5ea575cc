/** The sign-up form: editing, the two password checks and their order, the
    request sent to the API, and the error shown. */
module Registration {
  import opened Js
  import Routes

  datatype Field = FirstName | LastName | Email | Password | ConfirmPassword

  datatype Form = Form(firstName: string, lastName: string, email: string, password: string, confirmPassword: string)

  datatype Screen = Screen(form: Form, validationError: string)

  const Initial: Screen := Screen(Form("", "", "", "", ""), "")

  function FieldValue(f: Form, field: Field): string {
    match field
    case FirstName => f.firstName
    case LastName => f.lastName
    case Email => f.email
    case Password => f.password
    case ConfirmPassword => f.confirmPassword
  }

  function SetField(f: Form, field: Field, value: string): Form {
    match field
    case FirstName => f.(firstName := value)
    case LastName => f.(lastName := value)
    case Email => f.(email := value)
    case Password => f.(password := value)
    case ConfirmPassword => f.(confirmPassword := value)
  }

  /** `handleChange`: sets the named field and clears the validation error. */
  function Change(s: Screen, field: Field, value: string): (t: Screen)
    ensures FieldValue(t.form, field) == value
    ensures forall g :: g != field ==> FieldValue(t.form, g) == FieldValue(s.form, g)
    ensures t.validationError == ""
  {
    Screen(SetField(s.form, field, value), "")
  }

  const MismatchMessage := "Passwords do not match"
  const TooShortMessage := "Password must be at least 6 characters"
  const MinPasswordLength := 6

  /** The checks `handleSubmit` makes, in order; `None` when both pass. */
  function Validate(f: Form): (e: Option<string>)
    ensures e.None? <==> f.password == f.confirmPassword && Utf16Length(f.password) >= MinPasswordLength
    ensures f.password != f.confirmPassword ==> e == Some(MismatchMessage)
    ensures f.password == f.confirmPassword && Utf16Length(f.password) < MinPasswordLength ==> e == Some(TooShortMessage)
  {
    if f.password != f.confirmPassword then Some(MismatchMessage)
    else if Utf16Length(f.password) < MinPasswordLength then Some(TooShortMessage)
    else None
  }

  /** The mismatch check runs first: it wins even over a short password. */
  lemma MismatchWins(f: Form)
    requires f.password != f.confirmPassword
    requires Utf16Length(f.password) < MinPasswordLength
    ensures Validate(f) == Some(MismatchMessage)
  {
  }

  /** The body of `authAPI.register`. */
  function Payload(f: Form): (p: Record)
    ensures p.Keys == {"firstName", "lastName", "email", "password"}
    ensures "confirmPassword" !in p
    ensures p["password"] == Str(f.password) && p["email"] == Str(f.email)
    ensures p["firstName"] == Str(f.firstName) && p["lastName"] == Str(f.lastName)
  {
    map["firstName" := Str(f.firstName), "lastName" := Str(f.lastName),
        "email" := Str(f.email), "password" := Str(f.password)]
  }

  /** The API's answer: the user and token, or a rejection with the server's
      message. */
  datatype RegisterResult = Registered(user: Option<Record>, token: JsVal) | Rejected(message: JsVal)

  datatype AuthEvent = RegisterStart | RegisterSuccess(user: Option<Record>, token: JsVal) | RegisterFailure(message: JsVal)

  /** Everything a submit does: the new screen, the request (if one is sent),
      the actions dispatched, and the navigation. */
  datatype Effect = Effect(screen: Screen, request: Option<Record>, events: seq<AuthEvent>, navigate: Option<Routes.Path>)

  function Submit(s: Screen, result: RegisterResult): (e: Effect)
    ensures Validate(s.form).Some? ==>
      e == Effect(s.(validationError := Validate(s.form).value), None, [], None)
    ensures Validate(s.form).None? ==> e.screen == s && e.request == Some(Payload(s.form))
    ensures Validate(s.form).None? && result.Registered? ==>
      e.events == [RegisterStart, RegisterSuccess(result.user, result.token)] && e.navigate == Some(Routes.UserHome)
    ensures Validate(s.form).None? && result.Rejected? ==>
      e.events == [RegisterStart, RegisterFailure(OrText(result.message, "Registration failed. Try again."))]
      && e.navigate.None?
  {
    match Validate(s.form)
    case Some(m) => Effect(s.(validationError := m), None, [], None)
    case None =>
      match result
      case Registered(user, token) =>
        Effect(s, Some(Payload(s.form)), [RegisterStart, RegisterSuccess(user, token)], Some(Routes.UserHome))
      case Rejected(m) =>
        Effect(s, Some(Payload(s.form)), [RegisterStart, RegisterFailure(OrText(m, "Registration failed. Try again."))], None)
  }

  /** The API is called exactly when both checks pass, and then the request
      holds the password the user confirmed. */
  lemma RegisterOnlyWhenValid(s: Screen, result: RegisterResult)
    ensures Submit(s, result).request.Some? <==>
      s.form.password == s.form.confirmPassword && Utf16Length(s.form.password) >= MinPasswordLength
    ensures Submit(s, result).request.Some? ==>
      Submit(s, result).request.value["password"] == Str(s.form.confirmPassword)
  {
  }

  /** The error alert: shown when either the local validation error or the
      store's error is set, and showing the validation error in preference. */
  function DisplayedError(validationError: string, storeError: JsVal): (shown: Option<JsVal>)
    ensures shown.None? <==> validationError == "" && !Truthy(storeError)
    ensures validationError != "" ==> shown == Some(Str(validationError))
    ensures validationError == "" && Truthy(storeError) ==> shown == Some(storeError)
  {
    if Truthy(storeError) || validationError != "" then Some(Or(Str(validationError), storeError)) else None
  }
}
