// The FluentValidation rule sets of the login, registration, password change
// and password recovery forms. Every rule is checked; failing messages come
// out in declaration order.

module LoginValidators {
  import opened Text
  import opened TradeValidators

  datatype LoginDto = LoginDto(username: string, password: string)
  datatype RegisterDto = RegisterDto(username: string, password: string, confirmPassword: string)
  datatype ChangePasswordDto = ChangePasswordDto(currentPassword: string, newPassword: string, confirmNewPassword: string)
  datatype RecoverPasswordDto = RecoverPasswordDto(username: string, recoveryKey: string, newPassword: string, confirmNewPassword: string)

  /** The rules of these forms, each named after the message it shows when it fails. */
  datatype LoginRule =
    | UsernameRequired
    | UsernameTooShort
    | UsernameTooLong
    | PasswordRequired
    | PasswordTooShort
    | UsernameHasInvalidCharacters
    | PasswordTooLong
    | ConfirmationRequired
    | ConfirmationMismatch
    | CurrentPasswordRequired
    | NewPasswordRequired
    | NewPasswordTooShort
    | NewPasswordUnchanged
    | NewConfirmationRequired
    | NewConfirmationMismatch
    | RecoveryKeyRequired
    | RecoveryKeyInvalid

  /** The message a failing rule shows. */
  function LoginMessage(rule: LoginRule): string {
    match rule
    case UsernameRequired => "username is required"
    case UsernameTooShort => "username must be at least 3 characters"
    case UsernameTooLong => "username must not exceed 50 characters"
    case PasswordRequired => "password is required"
    case PasswordTooShort => "password must be at least 6 characters"
    case UsernameHasInvalidCharacters => "username may contain only English letters, digits and _"
    case PasswordTooLong => "password must not exceed 100 characters"
    case ConfirmationRequired => "password confirmation is required"
    case ConfirmationMismatch => "password and confirmation do not match"
    case CurrentPasswordRequired => "current password is required"
    case NewPasswordRequired => "new password is required"
    case NewPasswordTooShort => "new password must be at least 6 characters"
    case NewPasswordUnchanged => "new password must differ from the current one"
    case NewConfirmationRequired => "new password confirmation is required"
    case NewConfirmationMismatch => "new password and confirmation do not match"
    case RecoveryKeyRequired => "recovery key is required"
    case RecoveryKeyInvalid => "recovery key is invalid"
  }

  /** The character class `[a-zA-Z0-9_]`. */
  predicate IsUsernameChar(c: char) {
    'a' <= c <= 'z' || 'A' <= c <= 'Z' || '0' <= c <= '9' || c == '_'
  }

  /** `[a-zA-Z0-9_]+`: at least one character, all from the class. */
  predicate IsUsernameWord(s: string) {
    |s| > 0 && forall i :: 0 <= i < |s| ==> IsUsernameChar(s[i])
  }

  /** The .NET pattern `^[a-zA-Z0-9_]+$`. Without `RegexOptions.Multiline`,
    * `$` matches at the end of the text and also just before a final "\n",
    * so a word followed by one line feed matches too. */
  predicate MatchesUsernamePattern(s: string) {
    IsUsernameWord(s) || (|s| > 1 && s[|s| - 1] == '\n' && IsUsernameWord(s[..|s| - 1]))
  }

  /** A word with one line feed after it matches; two line feeds, or a line
    * feed anywhere else, do not. */
  lemma {:induction false} PatternEndAnchor(w: string)
    ensures MatchesUsernamePattern(w + "\n") <==> IsUsernameWord(w)
    ensures !MatchesUsernamePattern(w + "\n\n")
  {
    assert (w + "\n")[..|w|] == w;
    assert !IsUsernameChar((w + "\n")[|w|]);
    var w2 := w + "\n\n";
    assert !IsUsernameChar(w2[|w2| - 1]);
    assert !IsUsernameChar(w2[..|w2| - 1][|w2| - 2]);
  }

  /** `LoginValidator`. */
  function LoginErrors(d: LoginDto): (errors: seq<LoginRule>)
    ensures errors == [] <==> NotEmpty(d.username) && 3 <= |d.username| <= 50 && NotEmpty(d.password) && |d.password| >= 6
  {
    Check(NotEmpty(d.username), UsernameRequired)
    + Check(|d.username| >= 3, UsernameTooShort)
    + Check(|d.username| <= 50, UsernameTooLong)
    + Check(NotEmpty(d.password), PasswordRequired)
    + Check(|d.password| >= 6, PasswordTooShort)
  }

  /** A username that matches the pattern has no white space, so the pattern
    * alone already implies `NotEmpty`. */
  lemma PatternImpliesNotEmpty(s: string)
    requires MatchesUsernamePattern(s)
    ensures NotEmpty(s)
  {
    assert !IsWhiteSpace(s[0]);
  }

  /** `RegisterValidator`. */
  function RegisterErrors(d: RegisterDto): (errors: seq<LoginRule>)
    ensures errors == [] <==>
      && 3 <= |d.username| <= 50 && MatchesUsernamePattern(d.username)
      && NotEmpty(d.password) && 6 <= |d.password| <= 100
      && d.confirmPassword == d.password
  {
    assert MatchesUsernamePattern(d.username) ==> NotEmpty(d.username) by {
      if MatchesUsernamePattern(d.username) {
        PatternImpliesNotEmpty(d.username);
      }
    }
    Check(NotEmpty(d.username), UsernameRequired)
    + Check(|d.username| >= 3, UsernameTooShort)
    + Check(|d.username| <= 50, UsernameTooLong)
    + Check(MatchesUsernamePattern(d.username), UsernameHasInvalidCharacters)
    + Check(NotEmpty(d.password), PasswordRequired)
    + Check(|d.password| >= 6, PasswordTooShort)
    + Check(|d.password| <= 100, PasswordTooLong)
    + Check(NotEmpty(d.confirmPassword), ConfirmationRequired)
    + Check(d.confirmPassword == d.password, ConfirmationMismatch)
  }

  /** `ChangePasswordValidator`. */
  function ChangePasswordErrors(d: ChangePasswordDto): (errors: seq<LoginRule>)
    ensures errors == [] <==>
      && NotEmpty(d.currentPassword)
      && NotEmpty(d.newPassword) && |d.newPassword| >= 6 && d.newPassword != d.currentPassword
      && d.confirmNewPassword == d.newPassword
  {
    Check(NotEmpty(d.currentPassword), CurrentPasswordRequired)
    + Check(NotEmpty(d.newPassword), NewPasswordRequired)
    + Check(|d.newPassword| >= 6, NewPasswordTooShort)
    + Check(d.newPassword != d.currentPassword, NewPasswordUnchanged)
    + Check(NotEmpty(d.confirmNewPassword), NewConfirmationRequired)
    + Check(d.confirmNewPassword == d.newPassword, NewConfirmationMismatch)
  }

  /** `RecoverPasswordValidator`. */
  function RecoverPasswordErrors(d: RecoverPasswordDto): (errors: seq<LoginRule>)
    ensures errors == [] <==>
      && NotEmpty(d.username)
      && NotEmpty(d.recoveryKey) && 32 <= |d.recoveryKey| <= 40
      && NotEmpty(d.newPassword) && |d.newPassword| >= 6
      && d.confirmNewPassword == d.newPassword
  {
    Check(NotEmpty(d.username), UsernameRequired)
    + Check(NotEmpty(d.recoveryKey), RecoveryKeyRequired)
    + Check(32 <= |d.recoveryKey| <= 40, RecoveryKeyInvalid)
    + Check(NotEmpty(d.newPassword), NewPasswordRequired)
    + Check(|d.newPassword| >= 6, NewPasswordTooShort)
    + Check(NotEmpty(d.confirmNewPassword), NewConfirmationRequired)
    + Check(d.confirmNewPassword == d.newPassword, NewConfirmationMismatch)
  }
}
