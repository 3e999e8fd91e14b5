/** src/components/settings-page.tsx: the client-side checks and the form state of the
    settings page (email change, password change, account deletion). */
module SettingsPage {
  import opened Wrappers
  import opened Strings
  import ProfileRouter

  // ----- Email ---------------------------------------------------------------------

  /** A run of characters that `[^\s@]+` matches once it is non-empty. */
  predicate NoSpaceOrAt(t: string) {
    forall k :: 0 <= k < |t| ==> !IsWhitespace(t[k]) && t[k] != '@'
  }

  /** `/^[^\s@]+@[^\s@]+\.[^\s@]+$/.test(s)`: some '@' at `i` and some '.' at `j` split
      `s` into three non-empty runs without whitespace or '@'. */
  predicate MatchesEmailRegex(s: string)
    ensures MatchesEmailRegex(s) ==> |s| >= 5
  {
    exists i, j :: 0 < i && i + 1 < j && j + 1 < |s| && s[i] == '@' && s[j] == '.' &&
      NoSpaceOrAt(s[..i]) && NoSpaceOrAt(s[i + 1..j]) && NoSpaceOrAt(s[j + 1..])
  }

  /** The shape the regular expression describes, stated directly: no whitespace, exactly
      one '@' with something before it, and a '.' in the domain with characters on both
      sides. */
  predicate HasEmailShape(s: string) {
    (forall k :: 0 <= k < |s| ==> !IsWhitespace(s[k])) &&
    exists i :: 0 < i < |s| && s[i] == '@' &&
      (forall k :: 0 <= k < |s| && k != i ==> s[k] != '@') &&
      exists j :: i + 1 < j < |s| - 1 && s[j] == '.'
  }

  lemma RegexGivesShape(s: string)
    requires MatchesEmailRegex(s)
    ensures HasEmailShape(s)
  {
    var i, j :| 0 < i && i + 1 < j && j + 1 < |s| && s[i] == '@' && s[j] == '.' &&
      NoSpaceOrAt(s[..i]) && NoSpaceOrAt(s[i + 1..j]) && NoSpaceOrAt(s[j + 1..]);
    var a, b, c := s[..i], s[i + 1..j], s[j + 1..];
    forall k | 0 <= k < |s| && k != i ensures !IsWhitespace(s[k]) && s[k] != '@' {
      if k < i {
        assert s[k] == a[k];
      } else if k < j {
        assert s[k] == b[k - i - 1];
      } else if k > j {
        assert s[k] == c[k - j - 1];
      }
    }
    assert !IsWhitespace(s[i]);
    assert i + 1 < j < |s| - 1 && s[j] == '.';
  }

  lemma ShapeGivesRegex(s: string)
    requires HasEmailShape(s)
    ensures MatchesEmailRegex(s)
  {
    var i :| 0 < i < |s| && s[i] == '@' &&
      (forall k :: 0 <= k < |s| && k != i ==> s[k] != '@') &&
      exists j :: i + 1 < j < |s| - 1 && s[j] == '.';
    var j :| i + 1 < j < |s| - 1 && s[j] == '.';
    var a, b, c := s[..i], s[i + 1..j], s[j + 1..];
    forall k | 0 <= k < |b| ensures !IsWhitespace(b[k]) && b[k] != '@' {
      assert b[k] == s[i + 1 + k];
    }
    forall k | 0 <= k < |c| ensures !IsWhitespace(c[k]) && c[k] != '@' {
      assert c[k] == s[j + 1 + k];
    }
    assert NoSpaceOrAt(a) && NoSpaceOrAt(b) && NoSpaceOrAt(c);
  }

  /** The regular expression accepts exactly the strings of that shape. */
  lemma EmailRegexIffShape(s: string)
    ensures MatchesEmailRegex(s) <==> HasEmailShape(s)
  {
    if MatchesEmailRegex(s) {
      RegexGivesShape(s);
    }
    if HasEmailShape(s) {
      ShapeGivesRegex(s);
    }
  }

  const EmailUnchanged := "New email must be different from current email"
  const EmailEmpty := "Email address cannot be empty"
  const EmailInvalid := "Please enter a valid email address"

  /** The checks of `handleEmailUpdate`, first failure wins: the email as the user has it,
      then an email that is blank after trimming, then the regular expression. */
  function EmailCheck(email: string, current: string): (err: Option<string>)
    ensures email == current ==> err == Some(EmailUnchanged)
    ensures email != current && (forall k :: 0 <= k < |email| ==> IsWhitespace(email[k])) ==>
      err == Some(EmailEmpty)
    ensures (email != current && !(forall k :: 0 <= k < |email| ==> IsWhitespace(email[k])) &&
             !HasEmailShape(email)) ==> err == Some(EmailInvalid)
    ensures err.None? <==> email != current && HasEmailShape(email)
    ensures err.Some? ==> err.value in {EmailUnchanged, EmailEmpty, EmailInvalid}
  {
    TrimBlank(email);
    EmailRegexIffShape(email);
    if email == current then Some(EmailUnchanged)
    else if Trim(email) == [] then Some(EmailEmpty)
    else if !MatchesEmailRegex(email) then Some(EmailInvalid)
    else None
  }

  /** The email that is sent: `email.toLowerCase().trim()`. */
  function SubmittedEmail(email: string): string {
    Trim(ToLower(email))
  }

  /** Lower-casing a string without whitespace keeps it without whitespace, so the
      trim after it changes nothing. */
  lemma SolidEmailIsOnlyLowered(email: string)
    requires forall k :: 0 <= k < |email| ==> !IsWhitespace(email[k])
    ensures SubmittedEmail(email) == ToLower(email)
  {
    var l := ToLower(email);
    forall k | 0 <= k < |l| ensures !IsWhitespace(l[k]) {
      LowerCharKeepsWhitespace(email[k]);
    }
    TrimKeepsSolid(l);
  }

  /** An email the client accepts has no whitespace, so what it sends is just the
      lower-cased input, of the same length. */
  lemma AcceptedEmailIsOnlyLowered(email: string, current: string)
    requires EmailCheck(email, current).None?
    ensures SubmittedEmail(email) == ToLower(email)
    ensures |SubmittedEmail(email)| == |email| >= 5
  {
    assert HasEmailShape(email);
    SolidEmailIsOnlyLowered(email);
  }

  /** The model's server schema, which leaves out Zod's `.email()` check, lets every
      email the client accepts through, up to the 320 character bound the client does
      not check, and its own normalisation leaves the submitted email as it is. */
  lemma AcceptedEmailPassesServerSchema(email: string, current: string)
    requires EmailCheck(email, current).None? && |email| <= 320
    ensures ProfileRouter.ParseEmailInput(SubmittedEmail(email)) == Success(SubmittedEmail(email))
  {
    AcceptedEmailIsOnlyLowered(email, current);
    NormalizeIdempotent(email);
  }

  // ----- Password ------------------------------------------------------------------

  const CurrentRequired := "Current password is required"
  const NewRequired := "New password is required"
  const TooShort := "New password must be at least 8 characters"
  const Mismatch := "New passwords do not match"
  const NotDifferent := "New password must be different from current password"

  predicate Blank(s: string) {
    forall k :: 0 <= k < |s| ==> IsWhitespace(s[k])
  }

  /** The checks of `handlePasswordChange`, first failure wins. The length bound is on
      the untrimmed password. */
  function PasswordCheck(current: string, next: string, confirm: string): (err: Option<string>)
    ensures Blank(current) ==> err == Some(CurrentRequired)
    ensures !Blank(current) && Blank(next) ==> err == Some(NewRequired)
    ensures !Blank(current) && !Blank(next) && |next| < 8 ==> err == Some(TooShort)
    ensures !Blank(current) && !Blank(next) && |next| >= 8 && next != confirm ==> err == Some(Mismatch)
    ensures !Blank(current) && !Blank(next) && |next| >= 8 && next == confirm && current == next ==>
      err == Some(NotDifferent)
    ensures err.None? <==>
      !Blank(current) && !Blank(next) && |next| >= 8 && next == confirm && current != next
  {
    TrimBlank(current);
    TrimBlank(next);
    if Trim(current) == [] then Some(CurrentRequired)
    else if Trim(next) == [] then Some(NewRequired)
    else if |next| < 8 then Some(TooShort)
    else if next != confirm then Some(Mismatch)
    else if current == next then Some(NotDifferent)
    else None
  }

  /** Eight spaces are long enough but blank: the blank check, which runs first, is the
      one reported. */
  lemma BlankLongPasswordIsRequired()
    ensures PasswordCheck("secret", "        ", "        ") == Some(NewRequired)
  {
    assert Blank("        ");
  }

  const IncorrectCurrent := "Current password is incorrect"
  const ChangeFailed := "Failed to change password"

  /** The message shown for an error the auth client returns: one mentioning "Invalid
      password" is reported as an incorrect current password; otherwise its message,
      or the default when it has none or an empty one. */
  function PasswordChangeErrorMessage(message: Option<string>): (shown: string)
    ensures message.Some? && Includes(message.value, "Invalid password") ==> shown == IncorrectCurrent
    ensures (message.None? || message.value == "") ==> shown == ChangeFailed
    ensures message.Some? && message.value != "" && !Includes(message.value, "Invalid password") ==>
      shown == message.value
    ensures shown != ""
  {
    if message.Some? && Includes(message.value, "Invalid password") then IncorrectCurrent
    else if message.None? || message.value == "" then ChangeFailed
    else message.value
  }

  /** What `authClient.changePassword` came back with. */
  datatype AuthOutcome = Changed | AuthError(message: Option<string>) | Threw

  // ----- Deletion ------------------------------------------------------------------

  const DeleteMismatch := "Please type 'DELETE MY ACCOUNT' exactly to confirm"

  /** The delete button is disabled unless the literal is typed or while the deletion
      is pending. */
  function DeleteButtonDisabled(confirmation: string, pending: bool): (disabled: bool)
    ensures !disabled <==> confirmation == ProfileRouter.DeleteConfirmation && !pending
  {
    confirmation != "DELETE MY ACCOUNT" || pending
  }

  /** The email button is disabled exactly while the first check of `EmailCheck` would
      fail or the update is pending. */
  function EmailButtonDisabled(email: string, current: string, pending: bool): (disabled: bool)
    ensures disabled <==> EmailCheck(email, current) == Some(EmailUnchanged) || pending
  {
    email == current || pending
  }

  /** An enabled email button does not mean the checks pass: a blank email gets past it
      and is stopped by `EmailCheck`. */
  lemma EnabledEmailButtonMayStillFail(current: string)
    requires current != " "
    ensures !EmailButtonDisabled(" ", current, false)
    ensures EmailCheck(" ", current) == Some(EmailEmpty)
  {
    assert IsWhitespace(" "[0]);
  }

  /** The password button is disabled exactly while one of the three fields is empty. */
  function PasswordButtonDisabled(current: string, next: string, confirm: string): (disabled: bool)
    ensures !disabled <==> |current| > 0 && |next| > 0 && |confirm| > 0
  {
    current == "" || next == "" || confirm == ""
  }

  /** Input that passes the password checks always has the button enabled. */
  lemma PassingPasswordsEnableButton(current: string, next: string, confirm: string)
    requires PasswordCheck(current, next, confirm).None?
    ensures !PasswordButtonDisabled(current, next, confirm)
  {
    assert !Blank(current) && !Blank(next) && next == confirm;
  }

  /** The converse fails: an enabled button lets a short password through to the
      checks, which reject it. */
  lemma EnabledPasswordButtonMayStillFail()
    ensures !PasswordButtonDisabled("current", "short", "short")
    ensures PasswordCheck("current", "short", "short") == Some(TooShort)
  {
    assert !IsWhitespace("current"[0]);
    assert !IsWhitespace("short"[0]);
  }

  // ----- Form state ----------------------------------------------------------------

  /** The component's state: the inputs and the three error messages. */
  class SettingsForm {
    const userEmail: string
    var email: string
    var emailError: string
    var currentPassword: string
    var newPassword: string
    var confirmPassword: string
    var passwordError: string
    var deleteConfirmation: string
    var deleteError: string

    /** The initial state: the email input holds the user's email, everything else is
        empty. */
    constructor(userEmail: string)
      ensures this.userEmail == userEmail && email == userEmail
      ensures emailError == "" && passwordError == "" && deleteError == ""
      ensures currentPassword == "" && newPassword == "" && confirmPassword == ""
      ensures deleteConfirmation == ""
    {
      this.userEmail := userEmail;
      email := userEmail;
      emailError := "";
      currentPassword := "";
      newPassword := "";
      confirmPassword := "";
      passwordError := "";
      deleteConfirmation := "";
      deleteError := "";
    }

    /** Typing in the email input clears its error. */
    method EditEmail(value: string)
      modifies this
      ensures email == value && emailError == ""
      ensures currentPassword == old(currentPassword) && newPassword == old(newPassword)
      ensures confirmPassword == old(confirmPassword) && passwordError == old(passwordError)
      ensures deleteConfirmation == old(deleteConfirmation) && deleteError == old(deleteError)
    {
      email := value;
      emailError := "";
    }

    /** Typing in one of the password inputs (0 current, 1 new, otherwise confirmation)
        clears the password error. */
    method EditPassword(field: nat, value: string)
      modifies this
      ensures currentPassword == (if field == 0 then value else old(currentPassword))
      ensures newPassword == (if field == 1 then value else old(newPassword))
      ensures confirmPassword == (if field >= 2 then value else old(confirmPassword))
      ensures passwordError == ""
      ensures email == old(email) && emailError == old(emailError)
      ensures deleteConfirmation == old(deleteConfirmation) && deleteError == old(deleteError)
    {
      if field == 0 {
        currentPassword := value;
      } else if field == 1 {
        newPassword := value;
      } else {
        confirmPassword := value;
      }
      passwordError := "";
    }

    /** Typing in the confirmation input clears the deletion error. */
    method EditDeleteConfirmation(value: string)
      modifies this
      ensures deleteConfirmation == value && deleteError == ""
      ensures email == old(email) && emailError == old(emailError)
      ensures currentPassword == old(currentPassword) && newPassword == old(newPassword)
      ensures confirmPassword == old(confirmPassword) && passwordError == old(passwordError)
    {
      deleteConfirmation := value;
      deleteError := "";
    }

    /** `handleEmailUpdate`: the first failing check becomes the email error and nothing
        is sent; when all pass the error is cleared and the normalised email is sent. */
    method HandleEmailUpdate() returns (sent: Option<string>)
      modifies this
      ensures emailError == (match EmailCheck(email, userEmail) case Some(m) => m case None => "")
      ensures sent.Some? <==> EmailCheck(email, userEmail).None?
      ensures sent.Some? ==> sent.value == SubmittedEmail(email)
      ensures email == old(email)
      ensures currentPassword == old(currentPassword) && newPassword == old(newPassword)
      ensures confirmPassword == old(confirmPassword) && passwordError == old(passwordError)
      ensures deleteConfirmation == old(deleteConfirmation) && deleteError == old(deleteError)
    {
      emailError := "";
      var err := EmailCheck(email, userEmail);
      if err.Some? {
        emailError := err.value;
        return None;
      }
      sent := Some(Trim(ToLower(email)));
    }

    /** The email mutation's callbacks: success clears the error, failure shows the
        server's message. */
    method OnEmailUpdateSettled(error: Option<string>)
      modifies this
      ensures emailError == (match error case Some(m) => m case None => "")
      ensures email == old(email)
      ensures currentPassword == old(currentPassword) && newPassword == old(newPassword)
      ensures confirmPassword == old(confirmPassword) && passwordError == old(passwordError)
      ensures deleteConfirmation == old(deleteConfirmation) && deleteError == old(deleteError)
    {
      match error {
        case Some(m) => emailError := m;
        case None => emailError := "";
      }
    }

    /** `handlePasswordChange`: the first failing check becomes the password error and
        the auth client is not called. Otherwise `outcome` is what the call came back
        with, handled by `OnPasswordChangeSettled`. */
    method HandlePasswordChange(outcome: AuthOutcome) returns (called: bool)
      modifies this
      ensures called <==> PasswordCheck(old(currentPassword), old(newPassword), old(confirmPassword)).None?
      ensures !called ==>
        passwordError == PasswordCheck(old(currentPassword), old(newPassword), old(confirmPassword)).value
      ensures called ==>
        passwordError == (match outcome
                          case Changed => ""
                          case AuthError(m) => PasswordChangeErrorMessage(m)
                          case Threw => ChangeFailed)
      ensures called && outcome.Changed? ==>
        currentPassword == "" && newPassword == "" && confirmPassword == ""
      ensures !(called && outcome.Changed?) ==>
        currentPassword == old(currentPassword) && newPassword == old(newPassword) &&
        confirmPassword == old(confirmPassword)
      ensures email == old(email) && emailError == old(emailError)
      ensures deleteConfirmation == old(deleteConfirmation) && deleteError == old(deleteError)
    {
      var current, next, confirm := currentPassword, newPassword, confirmPassword;
      passwordError := "";
      var err := PasswordCheck(current, next, confirm);
      if err.Some? {
        passwordError := err.value;
        return false;
      }
      OnPasswordChangeSettled(outcome);
      called := true;
    }

    /** What follows the call to the auth client: a returned error is shown through
        `PasswordChangeErrorMessage`, a throw as the default message, and a success
        clears the three password inputs. */
    method OnPasswordChangeSettled(outcome: AuthOutcome)
      modifies this
      ensures passwordError ==
        match outcome
        case Changed => old(passwordError)
        case AuthError(m) => PasswordChangeErrorMessage(m)
        case Threw => ChangeFailed
      ensures outcome.Changed? ==> currentPassword == "" && newPassword == "" && confirmPassword == ""
      ensures !outcome.Changed? ==>
        currentPassword == old(currentPassword) && newPassword == old(newPassword) &&
        confirmPassword == old(confirmPassword)
      ensures email == old(email) && emailError == old(emailError)
      ensures deleteConfirmation == old(deleteConfirmation) && deleteError == old(deleteError)
    {
      match outcome {
        case AuthError(m) =>
          passwordError := PasswordChangeErrorMessage(m);
        case Changed =>
          currentPassword := "";
          newPassword := "";
          confirmPassword := "";
        case Threw =>
          passwordError := ChangeFailed;
      }
    }

    /** `handleDeleteAccount`: anything but the literal sets the deletion error. With
        the literal, `confirmed` is the user's answer to the dialog: a refusal changes
        nothing, an acceptance clears the error and sends the literal. */
    method HandleDeleteAccount(confirmed: bool) returns (sent: Option<string>)
      modifies this
      ensures deleteConfirmation != ProfileRouter.DeleteConfirmation ==>
        sent.None? && deleteError == DeleteMismatch
      ensures deleteConfirmation == ProfileRouter.DeleteConfirmation && !confirmed ==>
        sent.None? && deleteError == old(deleteError)
      ensures deleteConfirmation == ProfileRouter.DeleteConfirmation && confirmed ==>
        sent == Some(ProfileRouter.DeleteConfirmation) && deleteError == ""
      ensures deleteConfirmation == old(deleteConfirmation)
      ensures email == old(email) && emailError == old(emailError)
      ensures currentPassword == old(currentPassword) && newPassword == old(newPassword)
      ensures confirmPassword == old(confirmPassword) && passwordError == old(passwordError)
    {
      if deleteConfirmation != "DELETE MY ACCOUNT" {
        deleteError := DeleteMismatch;
        return None;
      }
      if !confirmed {
        return None;
      }
      deleteError := "";
      sent := Some("DELETE MY ACCOUNT");
    }

    /** The deletion mutation's `onError`: the server's message is shown. */
    method OnDeleteError(message: string)
      modifies this
      ensures deleteError == message
      ensures deleteConfirmation == old(deleteConfirmation)
      ensures email == old(email) && emailError == old(emailError)
      ensures currentPassword == old(currentPassword) && newPassword == old(newPassword)
      ensures confirmPassword == old(confirmPassword) && passwordError == old(passwordError)
    {
      deleteError := message;
    }
  }
}
