/** The signed-in leader's own profile page (components/ProfileSettings.tsx):
    a draft of the leader edited field by field, and a save that first
    checks an optional password change. The save's delay is taken as one
    atomic step. */
module ProfileSettings {
  import opened Text
  import opened Domain
  import Login

  /** The inputs that write into the draft. The personal fields no other
      rule reads (nickname, age range, occupation, marriage status, the
      ministry options, the avatar) live in the leader's `profile` under
      their own key. */
  datatype ProfileField =
    | LastName | FirstName | Gender | MemberIdField | PhoneNumberField | EmailField
    | ProfileEntry(key: string)

  /** What the form shows for a field; an unset field reads as nothing. */
  function FieldValue(l: Leader, f: ProfileField): Option<string>
  {
    match f
    case LastName => l.lastName
    case FirstName => l.firstName
    case Gender => l.gender
    case MemberIdField => l.memberId
    case PhoneNumberField => Some(l.phoneNumber)
    case EmailField => Some(l.email)
    case ProfileEntry(k) => if k in l.profile then Some(l.profile[k]) else None
  }

  /** `handleInputChange`: `{ ...prev, [field]: value }`. */
  function WithField(l: Leader, f: ProfileField, v: string): Leader
  {
    match f
    case LastName => l.(lastName := Some(v))
    case FirstName => l.(firstName := Some(v))
    case Gender => l.(gender := Some(v))
    case MemberIdField => l.(memberId := Some(v))
    case PhoneNumberField => l.(phoneNumber := v)
    case EmailField => l.(email := v)
    case ProfileEntry(k) => l.(profile := l.profile[k := v])
  }

  /** An edit shows the typed value in its field, leaves every other field
      as it was, and touches nothing the form does not edit: the password,
      the MG code, the roles, the groups and the rest are the leader's. */
  lemma WithFieldSpec(l: Leader, f: ProfileField, v: string, g: ProfileField)
    ensures FieldValue(WithField(l, f, v), f) == Some(v)
    ensures g != f ==> FieldValue(WithField(l, f, v), g) == FieldValue(l, g)
    ensures var r := WithField(l, f, v);
      r.(lastName := l.lastName, firstName := l.firstName, gender := l.gender, memberId := l.memberId,
         phoneNumber := l.phoneNumber, email := l.email, profile := l.profile) == l
  {
  }

  const IncorrectMessage := "Current password is incorrect."
  const MismatchMessage := "New passwords do not match."
  const TooShortMessage := "New password must be at least 4 characters."

  /** What the password inputs ask of a save. */
  datatype PasswordOutcome = KeepPassword | ChangePassword(next: string) | Refused(message: string)

  /** The password part of `handleSubmit`: nothing to do when all three
      inputs are empty; otherwise the current password must be the stored
      one, then the two new ones must agree, then be four or more
      UTF-16 code units long (`length`). */
  function CheckPassword(stored: Option<string>, current: string, next: string, confirm: string): PasswordOutcome
  {
    if next == "" && confirm == "" && current == "" then KeepPassword
    else if stored != Some(current) then Refused(IncorrectMessage)
    else if next != confirm then Refused(MismatchMessage)
    else if Utf16Length(next) < 4 then Refused(TooShortMessage)
    else ChangePassword(next)
  }

  /** A change needs the stored password and both new inputs, agreeing and
      at least four code units long; filling in any input without all of
      that is refused; a leader with no stored password cannot change it. */
  lemma CheckPasswordSpec(stored: Option<string>, current: string, next: string, confirm: string)
    ensures var o := CheckPassword(stored, current, next, confirm);
      && (o.KeepPassword? <==> current == "" && next == "" && confirm == "")
      && (o.ChangePassword? <==>
            (current != "" || next != "" || confirm != "") && stored == Some(current) && next == confirm && Utf16Length(next) >= 4)
      && (o.ChangePassword? ==> o.next == next && o.next == confirm)
      && (o.Refused? <==>
            (current != "" || next != "" || confirm != "") && (stored != Some(current) || next != confirm || Utf16Length(next) < 4))
      && (stored.None? ==> !o.ChangePassword?)
  {
  }

  /** The minimum counts code units: two emoji make a long enough password
      although they are only two characters. */
  lemma TwoEmojiAccepted(current: string)
    ensures CheckPassword(Some(current), current, "\U{1F600}\U{1F600}", "\U{1F600}\U{1F600}")
         == ChangePassword("\U{1F600}\U{1F600}")
  {
    EmojiPair();
  }

  /** The three checks run in order and the first that fails names the
      refusal. */
  lemma RefusalOrder(stored: Option<string>, current: string, next: string, confirm: string)
    requires current != "" || next != "" || confirm != ""
    ensures stored != Some(current) ==> CheckPassword(stored, current, next, confirm) == Refused(IncorrectMessage)
    ensures stored == Some(current) && next != confirm ==>
      CheckPassword(stored, current, next, confirm) == Refused(MismatchMessage)
    ensures stored == Some(current) && next == confirm && Utf16Length(next) < 4 ==>
      CheckPassword(stored, current, next, confirm) == Refused(TooShortMessage)
  {
  }

  /** After a change the leader signs in with the new password, with the
      e-mail address or the phone number, and no longer with the old one. */
  lemma ChangedPasswordSignsIn(l: Leader, current: string, next: string, confirm: string, mode: Login.AuthMode)
    requires CheckPassword(l.password, current, next, confirm).ChangePassword?
    ensures var s := l.(password := Some(next));
      && Login.FindLogin([s], mode, Login.IdentifierOf(s, mode), next) == Some(s)
      && (current != next ==> Login.FindLogin([s], mode, Login.IdentifierOf(s, mode), current).None?)
  {
    var s := l.(password := Some(next));
    assert Login.Credentials(s, mode, Login.IdentifierOf(s, mode), next);
    assert [s][0] == s;
  }

  /** Which password input a keystroke goes to. */
  datatype PasswordInput = CurrentInput | NewInput | ConfirmInput

  /** The page: the leader as given, the draft, the three password inputs,
      and the leader handed to the application on a successful save. */
  class ProfileForm {
    const user: Leader
    var formData: Leader
    var currentPasswordInput: string
    var newPassword: string
    var confirmPassword: string
    var passwordError: Option<string>
    var showSuccess: bool
    var saved: Option<Leader>

    constructor (u: Leader)
      ensures user == u && formData == u
      ensures currentPasswordInput == "" && newPassword == "" && confirmPassword == ""
      ensures passwordError.None? && !showSuccess && saved.None?
    {
      user := u;
      formData := u;
      currentPasswordInput := "";
      newPassword := "";
      confirmPassword := "";
      passwordError := None;
      showSuccess := false;
      saved := None;
    }

    method InputChange(f: ProfileField, v: string)
      modifies this`formData
      ensures formData == WithField(old(formData), f, v)
    {
      formData := WithField(formData, f, v);
    }

    method TypePassword(which: PasswordInput, s: string)
      modifies this`currentPasswordInput, this`newPassword, this`confirmPassword
      ensures currentPasswordInput == if which == CurrentInput then s else old(currentPasswordInput)
      ensures newPassword == if which == NewInput then s else old(newPassword)
      ensures confirmPassword == if which == ConfirmInput then s else old(confirmPassword)
    {
      match which
      case CurrentInput => currentPasswordInput := s;
      case NewInput => newPassword := s;
      case ConfirmInput => confirmPassword := s;
    }

    /** `handleSubmit`: a refused password change shows its message and
        saves nothing; otherwise the draft, with the new password when one
        was accepted, is saved. The current password is checked against the
        leader as given, not against the draft. */
    method Submit()
      modifies this`formData, this`passwordError, this`showSuccess, this`saved
      ensures var o := CheckPassword(user.password, currentPasswordInput, newPassword, confirmPassword);
        && (o.Refused? ==>
              passwordError == Some(o.message) && formData == old(formData) && saved == old(saved) && showSuccess == old(showSuccess))
        && (o.KeepPassword? ==> formData == old(formData))
        && (o.ChangePassword? ==> formData == old(formData).(password := Some(newPassword)))
        && (!o.Refused? ==> passwordError.None? && saved == Some(formData) && showSuccess)
    {
      passwordError := None;
      if newPassword != "" || confirmPassword != "" || currentPasswordInput != "" {
        if user.password != Some(currentPasswordInput) {
          passwordError := Some(IncorrectMessage);
          return;
        }
        if newPassword != confirmPassword {
          passwordError := Some(MismatchMessage);
          return;
        }
        if Utf16Length(newPassword) < 4 {
          passwordError := Some(TooShortMessage);
          return;
        }
        formData := formData.(password := Some(newPassword));
      }
      saved := Some(formData);
      showSuccess := true;
    }
  }
}
