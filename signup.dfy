/**
 * The employee signup form: its fields, the change handler that keeps the
 * name free of leading whitespace, and the submit handler that runs four
 * checks in order and, when they all pass, hands the trimmed values to
 * `register`.
 */
module Signup {
  import opened Wrappers
  import opened Text

  /** The inputs of the form. */
  datatype SignupField = NameField | EmailField | PasswordField | ConfirmationField | SpecialCodeField

  /** The arguments passed to `register`, in its parameter order. */
  datatype Registration = Registration(
    name: string,
    email: string,
    password: string,
    passwordConfirmation: string,
    specialCode: string)

  /** What `register` resolves to. */
  datatype RegisterResult = RegisterResult(success: bool, message: string)

  const NameRequired := "Name is required"
  const EmailInvalid := "Please enter a valid email address"
  const PasswordMismatch := "Passwords do not match"
  const CodeRequired := "Special code is required"

  /**
   * The checks of the submit handler in the order it runs them: the message
   * of the first that fails, or `None` when all pass. The special code is
   * checked as typed, without trimming.
   */
  function SignupFailure(name: string, email: string, password: string, confirmation: string, code: string): Option<string> {
    if Blank(name) then Some(NameRequired)
    else if !IsEmail(Trim(email)) then Some(EmailInvalid)
    else if password != confirmation then Some(PasswordMismatch)
    else if code == [] then Some(CodeRequired)
    else None
  }

  /** The arguments `register` receives: name, email and code trimmed, passwords as typed. */
  function RegistrationOf(name: string, email: string, password: string, confirmation: string, code: string): (reg: Registration)
    ensures IsTrimmed(reg.name) && IsTrimmed(reg.email) && IsTrimmed(reg.specialCode)
    ensures (exists i :: TrimmedAt(name, reg.name, i)) && (exists i :: TrimmedAt(email, reg.email, i))
    ensures exists i :: TrimmedAt(code, reg.specialCode, i)
    ensures reg.password == password && reg.passwordConfirmation == confirmation
  {
    TrimIsInfix(name);
    TrimIsInfix(email);
    TrimIsInfix(code);
    Registration(Trim(name), Trim(email), password, confirmation, Trim(code))
  }

  /** Each message is reported exactly when its check is the first to fail. */
  lemma SignupFailureOrder(name: string, email: string, password: string, confirmation: string, code: string)
    ensures var f := SignupFailure(name, email, password, confirmation, code);
      (f == Some(NameRequired) <==> Blank(name))
      && (f == Some(EmailInvalid) <==> !Blank(name) && !IsEmail(Trim(email)))
      && (f == Some(PasswordMismatch) <==> !Blank(name) && IsEmail(Trim(email)) && password != confirmation)
      && (f == Some(CodeRequired) <==>
            !Blank(name) && IsEmail(Trim(email)) && password == confirmation && code == [])
      && (f == None <==> !Blank(name) && IsEmail(Trim(email)) && password == confirmation && code != [])
  {
    assert NameRequired[0] == 'N' && EmailInvalid[0] == 'P' && PasswordMismatch[0] == 'P' && CodeRequired[0] == 'S';
    assert EmailInvalid[1] == 'l' && PasswordMismatch[1] == 'a';
  }

  /**
   * Whatever passes the checks is sent well formed: a non-empty trimmed
   * name, a trimmed email of the shape `a@b.c`, and equal passwords.
   */
  lemma AcceptedRegistration(name: string, email: string, password: string, confirmation: string, code: string)
    requires SignupFailure(name, email, password, confirmation, code) == None
    ensures var reg := RegistrationOf(name, email, password, confirmation, code);
      reg.name != [] && IsTrimmed(reg.name)
      && IsEmail(reg.email) && IsTrimmed(reg.email)
      && reg.password == reg.passwordConfirmation
  {
  }

  /**
   * A special code of whitespace only passes the emptiness check, which
   * looks at the code as typed, and is then sent trimmed, as the empty
   * string.
   */
  lemma WhitespaceCodeSentEmpty(name: string, email: string, password: string, code: string)
    requires !Blank(name) && IsEmail(Trim(email))
    requires code != [] && AllSpace(code)
    ensures SignupFailure(name, email, password, password, code) == None
    ensures RegistrationOf(name, email, password, password, code).specialCode == []
  {
  }

  /**
   * A name that does not start with whitespace, as the change handler
   * stores it, is blank exactly when it is empty: the submit's check of the
   * trimmed name is then a plain emptiness check.
   */
  lemma StoredNameBlankIffEmpty(s: string)
    requires s == [] || !IsSpace(s[0])
    ensures Blank(s) <==> s == []
  {
  }

  class SignupForm {
    var name: string
    var email: string
    var password: string
    var passwordConfirmation: string
    var specialCode: string
    var error: string
    var loading: bool

    /** The stored name never starts with whitespace. */
    ghost predicate Valid()
      reads this
    {
      name == [] || !IsSpace(name[0])
    }

    /** The empty form, with no error and not loading. */
    constructor ()
      ensures Valid()
      ensures name == [] && email == [] && password == [] && passwordConfirmation == [] && specialCode == []
      ensures error == [] && !loading
    {
      name, email, password, passwordConfirmation, specialCode := [], [], [], [], [];
      error, loading := [], false;
    }

    /**
     * `handleChange`: stores the new value of one input; the name loses its
     * leading whitespace (but keeps trailing whitespace while typing), every
     * other input is stored as typed.
     */
    method HandleChange(field: SignupField, value: string)
      requires Valid()
      modifies this
      ensures Valid()
      ensures name == if field == NameField then TrimStart(value) else old(name)
      ensures email == if field == EmailField then value else old(email)
      ensures password == if field == PasswordField then value else old(password)
      ensures passwordConfirmation == if field == ConfirmationField then value else old(passwordConfirmation)
      ensures specialCode == if field == SpecialCodeField then value else old(specialCode)
      ensures error == old(error) && loading == old(loading)
    {
      match field {
        case NameField => name := TrimStart(value);
        case EmailField => email := value;
        case PasswordField => password := value;
        case ConfirmationField => passwordConfirmation := value;
        case SpecialCodeField => specialCode := value;
      }
    }

    /**
     * `handleSubmit`, with `response` standing for what `register` resolves
     * to. Runs the four checks with an early return at the first failure,
     * showing its message; when all pass, calls `register` once with the
     * trimmed values, then navigates on success or shows the returned
     * message. `loading` is false on every exit; the fields are untouched.
     */
    method HandleSubmit(response: RegisterResult) returns (sent: Option<Registration>, navigated: bool)
      requires Valid()
      modifies this
      ensures Valid()
      ensures name == old(name) && email == old(email) && password == old(password)
      ensures passwordConfirmation == old(passwordConfirmation) && specialCode == old(specialCode)
      ensures !loading
      ensures var failure := SignupFailure(name, email, password, passwordConfirmation, specialCode);
        (sent.Some? <==> failure.None?)
        && (failure.Some? ==> error == failure.value)
      ensures sent.Some? ==> sent.value == RegistrationOf(name, email, password, passwordConfirmation, specialCode)
      ensures navigated <==> sent.Some? && response.success
      ensures sent.Some? ==> error == if response.success then [] else response.message
      ensures SignupFailure(name, email, password, passwordConfirmation, specialCode) == Some(NameRequired)
              <==> name == []
    {
      StoredNameBlankIffEmpty(name);
      SignupFailureOrder(name, email, password, passwordConfirmation, specialCode);
      error := [];
      loading := true;
      sent, navigated := None, false;

      var trimmedName := Trim(name);
      if trimmedName == [] {
        error := NameRequired;
        loading := false;
        return;
      }
      if !IsEmail(Trim(email)) {
        error := EmailInvalid;
        loading := false;
        return;
      }
      if password != passwordConfirmation {
        error := PasswordMismatch;
        loading := false;
        return;
      }
      if specialCode == [] {
        error := CodeRequired;
        loading := false;
        return;
      }

      sent := Some(Registration(trimmedName, Trim(email), password, passwordConfirmation, Trim(specialCode)));
      if response.success {
        navigated := true;
      } else {
        error := response.message;
      }
      loading := false;
    }
  }

  /**
   * Stripping leading whitespace while typing does not change the outcome
   * of the checks nor the name sent: submit trims the name again.
   */
  lemma NameEditInvisibleToSubmit(name: string, email: string, password: string, confirmation: string, code: string)
    ensures SignupFailure(TrimStart(name), email, password, confirmation, code)
            == SignupFailure(name, email, password, confirmation, code)
    ensures RegistrationOf(TrimStart(name), email, password, confirmation, code)
            == RegistrationOf(name, email, password, confirmation, code)
  {
    TrimAfterTrimStart(name);
  }
}
