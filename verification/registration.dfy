/**
 * The registration page: the form schema's rules, and the submission that
 * forwards the account fields to `registerUser` and reports its outcome.
 */
module Registration {
  import opened Wrappers
  import opened Types
  import opened Auth

  const UsernameMessage := "Username must be at least 3 characters long"
  const EmailMessage := "Please enter a valid email address"
  const PasswordMessage := "Password must be at least 8 characters long"
  const MismatchMessage := "Passwords don't match"
  const FallbackFailureMessage := "Failed to create account. Please try again."

  /** The registration form's four fields. */
  datatype RegistrationForm = RegistrationForm(username: string, email: string, password: string, confirmPassword: string)

  /** What a submission ends in: rejected by the schema, registered, or refused with a message. */
  datatype SubmitOutcome = Rejected(issues: seq<Issue>) | Registered | Failed(description: string)

  /**
   * The issues the schema reports: the three field rules, then the equality
   * of the two passwords, attached to the confirmation field. `emailIsValid`
   * is the outcome of the email syntax check.
   */
  function RegistrationIssues(form: RegistrationForm, emailIsValid: bool): (r: seq<Issue>)
    ensures r == [] <==>
      |form.username| >= 3 && emailIsValid && |form.password| >= 8 && form.password == form.confirmPassword
    ensures Issue("username", UsernameMessage) in r <==> |form.username| < 3
    ensures Issue("email", EmailMessage) in r <==> !emailIsValid
    ensures Issue("password", PasswordMessage) in r <==> |form.password| < 8
    ensures Issue("confirmPassword", MismatchMessage) in r <==> form.password != form.confirmPassword
    ensures forall k | 0 <= k < |r| :: r[k].path == "confirmPassword" ==> r[k].message == MismatchMessage
  {
    (if |form.username| < 3 then [Issue("username", UsernameMessage)] else [])
    + (if !emailIsValid then [Issue("email", EmailMessage)] else [])
    + (if |form.password| < 8 then [Issue("password", PasswordMessage)] else [])
    + (if form.password != form.confirmPassword then [Issue("confirmPassword", MismatchMessage)] else [])
  }

  /** The argument of `registerUser`: username, email and password; the confirmation stays behind. */
  function Request(form: RegistrationForm): (u: NewUser)
    ensures u.username == form.username && u.email == form.email && u.password == form.password
  {
    NewUser(form.username, form.email, form.password)
  }

  /** `result.message || fallback`: the text of the failure notice. */
  function FailureDescription(message: Option<string>): (d: string)
    ensures d != ""
    ensures message.Some? && message.value != "" ==> d == message.value
    ensures message.None? || message.value == "" ==> d == FallbackFailureMessage
  {
    if message.Some? && message.value != "" then message.value else FallbackFailureMessage
  }

  /**
   * `onSubmit` behind the form schema: an invalid form never reaches
   * `registerUser`; a valid one registers the username, email and password,
   * and a refusal shows the message `registerUser` gave.
   */
  method Submit(store: AuthStore, form: RegistrationForm, emailIsValid: bool, clock: Clock, fault: Option<Access>)
    returns (outcome: SubmitOutcome)
    modifies store
    ensures RegistrationIssues(form, emailIsValid) != [] ==>
      outcome == Rejected(RegistrationIssues(form, emailIsValid))
      && store.users == old(store.users) && store.session == old(store.session)
    ensures outcome.Registered? ==>
      RegistrationIssues(form, emailIsValid) == []
      && store.users == old(store.users) + [Account(Request(form), clock)]
      && store.session == Some(Project(Account(Request(form), clock)))
    ensures (RegistrationIssues(form, emailIsValid) == [] && HasEmail(old(store.users), form.email)
             && !Throws(fault, ReadUsers)) ==>
      outcome == Failed(EmailTakenMessage) && store.users == old(store.users)
    ensures RegistrationIssues(form, emailIsValid) == [] ==>
      (outcome.Registered? <==>
        !HasEmail(old(store.users), form.email) && !Throws(fault, ReadUsers) && !Throws(fault, WriteUsers)
        && !Throws(fault, WriteSession))
    ensures outcome.Rejected? <==> RegistrationIssues(form, emailIsValid) != []
    ensures outcome == Failed(EmailTakenMessage) <==>
      RegistrationIssues(form, emailIsValid) == [] && !Throws(fault, ReadUsers) && HasEmail(old(store.users), form.email)
    ensures outcome.Failed? ==>
      outcome.description in {EmailTakenMessage, RegisterFailedMessage} && store.session == old(store.session)
    ensures outcome.Failed? && outcome.description != EmailTakenMessage ==>
      outcome.description == RegisterFailedMessage
      && store.users == (if Throws(fault, WriteSession) then old(store.users) + [Account(Request(form), clock)]
                         else old(store.users))
    ensures old(store.Valid()) ==> store.Valid()
  {
    var issues := RegistrationIssues(form, emailIsValid);
    if issues != [] {
      return Rejected(issues);
    }
    var result := store.Register(Request(form), clock, fault);
    if result.success {
      outcome := Registered;
    } else {
      outcome := Failed(FailureDescription(result.message));
    }
  }
}
