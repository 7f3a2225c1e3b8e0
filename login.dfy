/** The sign-in page (components/Login.tsx): matching an identifier and a
    password against the stored leaders, and the four-step forgotten-password
    dialog (identity, one-time code, new password, done). Each handler's
    delay is taken as one atomic step. */
module Login {
  import opened Text
  import opened Domain

  /** Whether the identifier is an e-mail address or a phone number. */
  datatype AuthMode = EmailMode | PhoneMode

  /** The field of a leader the identifier is compared with. The country
      code chosen beside a phone number takes no part. */
  function IdentifierOf(l: Leader, mode: AuthMode): string
  {
    match mode
    case EmailMode => l.email
    case PhoneMode => l.phoneNumber
  }

  predicate Credentials(l: Leader, mode: AuthMode, identifier: string, password: string)
  {
    IdentifierOf(l, mode) == identifier && l.password == Some(password)
  }

  /** `leaders.find(...)` in `handleSubmit`: the first leader whose
      identifier and password both match. */
  function FindLogin(leaders: seq<Leader>, mode: AuthMode, identifier: string, password: string): (r: Option<Leader>)
    ensures r.None? <==> forall l :: l in leaders ==> !Credentials(l, mode, identifier, password)
    ensures r.Some? ==> exists i :: (0 <= i < |leaders| && leaders[i] == r.value
      && Credentials(r.value, mode, identifier, password)
      && forall j :: 0 <= j < i ==> !Credentials(leaders[j], mode, identifier, password))
  {
    if leaders == [] then None
    else if Credentials(leaders[0], mode, identifier, password) then Some(leaders[0])
    else
      var r := FindLogin(leaders[1..], mode, identifier, password);
      if r.Some? then
        var i :| 0 <= i < |leaders[1..]| && leaders[1..][i] == r.value
          && Credentials(r.value, mode, identifier, password)
          && forall j :: 0 <= j < i ==> !Credentials(leaders[1..][j], mode, identifier, password);
        assert leaders[i + 1] == r.value;
        assert forall j :: 1 <= j < i + 1 ==> leaders[j] == leaders[1..][j - 1];
        assert forall j :: 0 <= j < i + 1 ==> !Credentials(leaders[j], mode, identifier, password);
        r
      else
        assert forall l :: l in leaders ==> l == leaders[0] || l in leaders[1..];
        r
  }

  /** `Invalid ${typeLabel} or password.` */
  function InvalidMessage(mode: AuthMode): string
  {
    "Invalid " + (if mode == EmailMode then "email" else "phone number") + " or password."
  }

  /** `leaders.some(...)` in `handleForgotIdentitySubmit`. */
  predicate AccountExists(leaders: seq<Leader>, mode: AuthMode, identifier: string)
  {
    exists l :: l in leaders && IdentifierOf(l, mode) == identifier
  }

  /** Whoever can sign in with an identifier also finds that account in the
      forgotten-password dialog. */
  lemma LoginImpliesAccount(leaders: seq<Leader>, mode: AuthMode, identifier: string, password: string)
    requires FindLogin(leaders, mode, identifier, password).Some?
    ensures AccountExists(leaders, mode, identifier)
  {
    var l := FindLogin(leaders, mode, identifier, password).value;
    var i :| 0 <= i < |leaders| && leaders[i] == l && Credentials(l, mode, identifier, password)
      && forall j :: 0 <= j < i ==> !Credentials(leaders[j], mode, identifier, password);
    assert leaders[i] in leaders;
  }

  /** A leader without a stored password can never sign in. */
  lemma NoPasswordNoLogin(leaders: seq<Leader>, mode: AuthMode, identifier: string, password: string, l: Leader)
    requires l.password.None?
    ensures FindLogin(leaders, mode, identifier, password) != Some(l)
  {
  }

  const NoAccountMessage := "沒有這個帳號，請輸入其他email/phone再嘗試"
  const InvalidCodeMessage := "請輸入有效的驗證碼"
  const ShortPasswordMessage := "新密碼必須至少為 6 個字元"
  const MismatchMessage := "兩次輸入的密碼不一致"

  /** The steps of the forgotten-password dialog, in order. */
  datatype ForgotStep = IdentityStep | OtpStep | ResetStep | SuccessStep

  function Rank(s: ForgotStep): nat
  {
    match s
    case IdentityStep => 0
    case OtpStep => 1
    case ResetStep => 2
    case SuccessStep => 3
  }

  /** The page. The leaders are the application's; `signedIn` is the leader
      handed to the application on success. */
  class LoginPage {
    const leaders: seq<Leader>
    var authMode: AuthMode
    var identifier: string
    var password: string
    var error: Option<string>
    var isLoading: bool
    var signedIn: Option<Leader>

    var showForgotModal: bool
    var forgotStep: ForgotStep
    var forgotMode: AuthMode
    var forgotIdentifier: string
    var forgotError: Option<string>
    var otpValue: string
    var newPassword: string
    var confirmNewPassword: string

    /** What each step of the dialog has already established: an account for
        the identifier once past the first step, a code of four or more
        UTF-16 code units once past the second, and a confirmed new password
        of six or more code units at the end. */
    predicate Valid()
      reads this
    {
      && (Rank(forgotStep) >= 1 ==> AccountExists(leaders, forgotMode, forgotIdentifier))
      && (Rank(forgotStep) >= 2 ==> Utf16Length(otpValue) >= 4)
      && (forgotStep == SuccessStep ==> Utf16Length(newPassword) >= 6 && newPassword == confirmNewPassword)
    }

    constructor (ls: seq<Leader>)
      ensures Valid()
      ensures leaders == ls && authMode == EmailMode && identifier == "" && password == ""
      ensures error.None? && !isLoading && signedIn.None?
      ensures !showForgotModal && forgotStep == IdentityStep && forgotMode == EmailMode
      ensures forgotIdentifier == "" && forgotError.None? && otpValue == ""
      ensures newPassword == "" && confirmNewPassword == ""
    {
      leaders := ls;
      authMode := EmailMode;
      identifier := "";
      password := "";
      error := None;
      isLoading := false;
      signedIn := None;
      showForgotModal := false;
      forgotStep := IdentityStep;
      forgotMode := EmailMode;
      forgotIdentifier := "";
      forgotError := None;
      otpValue := "";
      newPassword := "";
      confirmNewPassword := "";
    }

    /** The Email and Phone tabs: the identifier and the error are cleared. */
    method SetAuthMode(mode: AuthMode)
      modifies this`authMode, this`identifier, this`error
      ensures authMode == mode && identifier == "" && error.None?
    {
      authMode := mode;
      identifier := "";
      error := None;
    }

    method TypeIdentifier(s: string)
      modifies this`identifier
      ensures identifier == s
    {
      identifier := s;
    }

    method TypePassword(s: string)
      modifies this`password
      ensures password == s
    {
      password := s;
    }

    /** `handleSubmit`: the first matching leader is signed in; otherwise the
        error names the kind of identifier and loading stops. */
    method Submit()
      modifies this`error, this`isLoading, this`signedIn
      ensures var r := FindLogin(leaders, authMode, identifier, password);
        && (r.Some? ==> signedIn == r && error.None? && isLoading)
        && (r.None? ==> signedIn == old(signedIn) && error == Some(InvalidMessage(authMode)) && !isLoading)
    {
      error := None;
      isLoading := true;
      var r := FindLogin(leaders, authMode, identifier, password);
      if r.Some? {
        signedIn := r;
      } else {
        error := Some(InvalidMessage(authMode));
        isLoading := false;
      }
    }

    /** "Forgot Password?" opens the dialog. */
    method OpenForgot()
      modifies this`showForgotModal
      ensures showForgotModal
    {
      showForgotModal := true;
    }

    /** The dialog's Email and Phone tabs, shown in the first step only. */
    method SetForgotMode(mode: AuthMode)
      requires Valid() && forgotStep == IdentityStep
      modifies this`forgotMode, this`forgotIdentifier, this`forgotError
      ensures Valid()
      ensures forgotMode == mode && forgotIdentifier == "" && forgotError.None?
    {
      forgotMode := mode;
      forgotIdentifier := "";
      forgotError := None;
    }

    /** The identifier input, shown in the first step only. */
    method TypeForgotIdentifier(s: string)
      requires Valid() && forgotStep == IdentityStep
      modifies this`forgotIdentifier
      ensures Valid() && forgotIdentifier == s
    {
      forgotIdentifier := s;
    }

    /** The code input, shown in the second step only. */
    method TypeOtp(s: string)
      requires Valid() && forgotStep == OtpStep
      modifies this`otpValue
      ensures Valid() && otpValue == s
    {
      otpValue := s;
    }

    /** The two new-password inputs, shown in the third step only. */
    method TypeNewPasswords(p: string, confirm: string)
      requires Valid() && forgotStep == ResetStep
      modifies this`newPassword, this`confirmNewPassword
      ensures Valid() && newPassword == p && confirmNewPassword == confirm
    {
      newPassword := p;
      confirmNewPassword := confirm;
    }

    /** `handleForgotIdentitySubmit`: on to the code step when an account
        has the identifier, otherwise an error and the same step. */
    method SubmitIdentity()
      requires Valid() && forgotStep == IdentityStep
      modifies this`forgotStep, this`forgotError
      ensures Valid()
      ensures AccountExists(leaders, forgotMode, forgotIdentifier) ==> forgotStep == OtpStep && forgotError.None?
      ensures !AccountExists(leaders, forgotMode, forgotIdentifier) ==>
        forgotStep == IdentityStep && forgotError == Some(NoAccountMessage)
    {
      forgotError := None;
      if AccountExists(leaders, forgotMode, forgotIdentifier) {
        forgotStep := OtpStep;
      } else {
        forgotError := Some(NoAccountMessage);
      }
    }

    /** `handleOtpSubmit`: any code whose `length` (UTF-16 code units) is four
        or more is accepted. */
    method SubmitOtp()
      requires Valid() && forgotStep == OtpStep
      modifies this`forgotStep, this`forgotError
      ensures Valid()
      ensures Utf16Length(otpValue) < 4 ==> forgotStep == OtpStep && forgotError == Some(InvalidCodeMessage)
      ensures Utf16Length(otpValue) >= 4 ==> forgotStep == ResetStep && forgotError.None?
    {
      if Utf16Length(otpValue) < 4 {
        forgotError := Some(InvalidCodeMessage);
        return;
      }
      forgotStep := ResetStep;
      forgotError := None;
    }

    /** `handleResetPassword`: a password shorter than six code units is
        refused first, then a confirmation that differs; the stored
        passwords are left as they are. */
    method SubmitReset()
      requires Valid() && forgotStep == ResetStep
      modifies this`forgotStep, this`forgotError
      ensures Valid()
      ensures Utf16Length(newPassword) < 6 ==> forgotStep == ResetStep && forgotError == Some(ShortPasswordMessage)
      ensures Utf16Length(newPassword) >= 6 && newPassword != confirmNewPassword ==>
        forgotStep == ResetStep && forgotError == Some(MismatchMessage)
      ensures Utf16Length(newPassword) >= 6 && newPassword == confirmNewPassword ==>
        forgotStep == SuccessStep && forgotError == old(forgotError)
    {
      if Utf16Length(newPassword) < 6 {
        forgotError := Some(ShortPasswordMessage);
        return;
      }
      if newPassword != confirmNewPassword {
        forgotError := Some(MismatchMessage);
        return;
      }
      forgotStep := SuccessStep;
    }

    /** `closeForgotModal`: the dialog closes and starts over. */
    method CloseForgot()
      modifies this`showForgotModal, this`forgotStep, this`forgotIdentifier, this`forgotError,
        this`otpValue, this`newPassword, this`confirmNewPassword
      ensures Valid()
      ensures !showForgotModal && forgotStep == IdentityStep && forgotIdentifier == "" && forgotError.None?
      ensures otpValue == "" && newPassword == "" && confirmNewPassword == ""
    {
      showForgotModal := false;
      forgotStep := IdentityStep;
      forgotIdentifier := "";
      forgotError := None;
      otpValue := "";
      newPassword := "";
      confirmNewPassword := "";
    }
  }
}
