/** The checks the sign-up form runs before it asks the store to create an account. */
module RegistrationForm {

  /** The first complaint the form raises, or `Accepted` when it raises none. */
  datatype Verdict = PasswordMismatch | PasswordTooShort | MissingFields | Accepted

  /** Shortest password the form lets through. */
  const MinPasswordLength: nat := 4

  /**
   * The form's checks in their fixed order: the two passwords must match, then the password
   * must have at least four characters, then user name and full name must be non-empty.
   * The e-mail address is never checked.
   */
  function Validate(name: string, email: string, username: string, password: string, confirmation: string): (v: Verdict)
    ensures v == Accepted <==> password == confirmation && |password| >= MinPasswordLength && username != "" && name != ""
    ensures v == PasswordMismatch <==> password != confirmation
    ensures v == PasswordTooShort <==> password == confirmation && |password| < MinPasswordLength
    ensures v == MissingFields <==> password == confirmation && |password| >= MinPasswordLength && (username == "" || name == "")
  {
    if password != confirmation then PasswordMismatch
    else if |password| < MinPasswordLength then PasswordTooShort
    else if username == "" || name == "" then MissingFields
    else Accepted
  }

  /** The message shown for each rejection. */
  function Complaint(v: Verdict): (t: string)
    requires v != Accepted
    ensures t != ""
  {
    match v
    case PasswordMismatch => "Las contraseñas no coinciden."
    case PasswordTooShort => "La contraseña es muy corta."
    case MissingFields => "Por favor completa todos los campos."
  }

  /** A mismatch is reported whatever the other fields hold, short password and empty fields included. */
  lemma MismatchReportedFirst(name: string, email: string, username: string, password: string, confirmation: string)
    requires password != confirmation
    ensures Validate(name, email, username, password, confirmation) == PasswordMismatch
  {
  }

  /** A short matching password is reported whatever the other fields hold, empty fields included. */
  lemma ShortPasswordBeforeMissingFields(name: string, email: string, username: string, password: string)
    requires |password| < MinPasswordLength
    ensures Validate(name, email, username, password, password) == PasswordTooShort
  {
  }

  /** The e-mail address plays no part in the verdict. */
  lemma EmailIgnored(name: string, email1: string, email2: string, username: string, password: string, confirmation: string)
    ensures Validate(name, email1, username, password, confirmation) == Validate(name, email2, username, password, confirmation)
  {
  }
}
