/**
 * The sign-in and registration form of `src/pages/Auth.jsx`. Nothing is
 * checked against a server: a form that passes two checks produces a user
 * record that is handed to the application.
 */
module Auth {
  import opened Text

  /** The signed-in user; `id` comes from the clock. */
  datatype User = User(id: int, name: string, email: string)

  /** Why a submit was refused; the page shows each as an alert. */
  datatype AuthError = MissingFields | PasswordMismatch

  datatype Result<T, E> = Ok(value: T) | Err(error: E)

  /** The values of the form. */
  datatype AuthForm = AuthForm(email: string, password: string, fullName: string, confirmPassword: string)

  /** The form as first shown: every field empty. */
  function EmptyForm(): (f: AuthForm)
    ensures f.email == f.password == f.fullName == f.confirmPassword == ""
  {
    AuthForm("", "", "", "")
  }

  /** One edited input of the form. */
  datatype AuthInput =
    | EmailInput(email: string)
    | PasswordInput(password: string)
    | FullNameInput(fullName: string)
    | ConfirmPasswordInput(confirmPassword: string)

  /** `handleInputChange`: the named input takes the value, the others stay. */
  function Edit(f: AuthForm, input: AuthInput): AuthForm {
    match input
    case EmailInput(v) => f.(email := v)
    case PasswordInput(v) => f.(password := v)
    case FullNameInput(v) => f.(fullName := v)
    case ConfirmPasswordInput(v) => f.(confirmPassword := v)
  }

  /** The name a sign-in derives from the email: the text before its first '@'. */
  function EmailName(email: string): (name: string)
    ensures name <= email && '@' !in name
  {
    SplitFirst(email, '@');
    Split(email, '@')[0]
  }

  /** What `handleSubmit` does with the form: refuse it, or pass a user on. */
  function Outcome(isLogin: bool, f: AuthForm, id: int): (r: Result<User, AuthError>)
    ensures r.Ok? ==> f.email != "" && f.password != "" && r.value.id == id && r.value.email == f.email
  {
    if f.email == "" || f.password == "" then Err(MissingFields)
    else if !isLogin && f.password != f.confirmPassword then Err(PasswordMismatch)
    else Ok(User(id, if isLogin then EmailName(f.email) else f.fullName, f.email))
  }

  /**
   * The two checks and their order: a missing email or password is refused
   * first, whatever the confirmation; a confirmation that differs is
   * refused only when registering; every other form is accepted.
   */
  lemma OutcomeSpec(isLogin: bool, f: AuthForm, id: int)
    ensures Outcome(isLogin, f, id) == Err(MissingFields) <==> f.email == "" || f.password == ""
    ensures Outcome(isLogin, f, id) == Err(PasswordMismatch)
        <==> f.email != "" && f.password != "" && !isLogin && f.password != f.confirmPassword
    ensures Outcome(isLogin, f, id).Ok?
        <==> f.email != "" && f.password != "" && (isLogin || f.password == f.confirmPassword)
  {
  }

  /** Signing in never looks at the confirmation, nor at the full name. */
  lemma LoginIgnoresRegistrationFields(f: AuthForm, fullName: string, confirmPassword: string, id: int)
    ensures Outcome(true, f, id) == Outcome(true, f.(fullName := fullName, confirmPassword := confirmPassword), id)
  {
  }

  /**
   * An accepted form yields a user with the given id and the email as
   * typed; the name is the full name when registering and the email's
   * part before the first '@' when signing in.
   */
  lemma AcceptedUser(isLogin: bool, f: AuthForm, id: int)
    requires Outcome(isLogin, f, id).Ok?
    ensures var u := Outcome(isLogin, f, id).value;
      && u.id == id && u.email == f.email
      && u.name == (if isLogin then EmailName(f.email) else f.fullName)
  {
  }

  /**
   * The signed-in name is a prefix of the email holding no '@'; it is the
   * whole email when there is no '@', and otherwise the email continues
   * with an '@' right after it.
   */
  lemma EmailNameSpec(email: string)
    ensures '@' !in EmailName(email) && EmailName(email) <= email
    ensures EmailName(email) == email <==> '@' !in email
    ensures |EmailName(email)| < |email| ==> email[|EmailName(email)|] == '@'
  {
    SplitFirst(email, '@');
    if '@' !in email {
      SplitNoSeparator(email, '@');
    }
  }

  /**
   * The strength rule shown under the password when registering is never
   * enforced: a one-character password is accepted in both modes.
   */
  lemma WeakPasswordAccepted(email: string, id: int)
    requires email != ""
    ensures Outcome(true, AuthForm(email, "x", "", ""), id).Ok?
    ensures Outcome(false, AuthForm(email, "x", "", "x"), id).Ok?
  {
  }

  /** The state of the form. */
  class Page {
    var isLogin: bool
    var formData: AuthForm

    constructor ()
      ensures isLogin && formData == EmptyForm()
    {
      isLogin := true;
      formData := EmptyForm();
    }

    /** The "Sign up" / "Sign in" link switches mode and keeps what was typed. */
    method ToggleMode()
      modifies this
      ensures isLogin == !old(isLogin) && formData == old(formData)
    {
      isLogin := !isLogin;
    }

    /** `handleInputChange`. */
    method InputChange(input: AuthInput)
      modifies this
      ensures formData == Edit(old(formData), input) && isLogin == old(isLogin)
    {
      formData := Edit(formData, input);
    }

    /**
     * `handleSubmit`: the refusal the alert reports, or the user that is
     * passed to `onLogin`; the form itself is left as it is.
     */
    method HandleSubmit(id: int) returns (r: Result<User, AuthError>)
      ensures r == Outcome(isLogin, formData, id)
    {
      if formData.email == "" || formData.password == "" {
        return Err(MissingFields);
      }
      if !isLogin && formData.password != formData.confirmPassword {
        return Err(PasswordMismatch);
      }
      var name := if isLogin then EmailName(formData.email) else formData.fullName;
      r := Ok(User(id, name, formData.email));
    }
  }
}
