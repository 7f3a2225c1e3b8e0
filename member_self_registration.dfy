/** The public sign-up page (components/MemberSelfRegistration.tsx): a
    newcomer fills in five fields and, once the Chinese name and the phone
    number are given, becomes an active member in no group yet. The delay
    before the member is handed to the application is taken as one atomic
    step; the clock reading and today's date are parameters. */
module MemberSelfRegistration {
  import opened Text
  import opened Domain
  import MemberManagement

  /** The five inputs, all starting empty. */
  datatype RegistrationForm = RegistrationForm(
    chineseName: string, englishName: string, phoneNumber: string, birthday: string, memberId: string)

  const EmptyForm := RegistrationForm("", "", "", "", "")

  datatype Step = FormStep | SuccessStep

  /** The member built from the form at clock reading `stamp`. */
  function Registered(form: RegistrationForm, stamp: nat, today: string): (m: Member)
    ensures m.chineseName == form.chineseName && m.phoneNumber == form.phoneNumber
    ensures m.englishName == Some(form.englishName) && m.birthday == Some(form.birthday)
    ensures m.memberId == Some(form.memberId)
    ensures m.status == MemberActive && m.groupIds == [] && m.joinedDate == today
    ensures StartsWith(m.id, "reg-")
  {
    Member("reg-" + NatToString(stamp), form.chineseName, Some(form.englishName), form.phoneNumber,
           Some(form.birthday), Some(form.memberId), MemberActive, [], today, None)
  }

  /** `!formData.chineseName || !formData.phoneNumber` */
  predicate Submittable(form: RegistrationForm)
  {
    form.chineseName != "" && form.phoneNumber != ""
  }

  /** A newcomer accepted here is one the roster's own form would save too,
      and the roster's blank members never share a newcomer's id. */
  lemma RegisteredIsSavable(form: RegistrationForm, stamp: nat, today: string, user: Leader, stamp2: nat, today2: string)
    ensures MemberManagement.Savable(Registered(form, stamp, today)) <==> Submittable(form)
    ensures Registered(form, stamp, today).id != MemberManagement.NewDraft(user, stamp2, today2).id
  {
    var a := Registered(form, stamp, today).id;
    var b := MemberManagement.NewDraft(user, stamp2, today2).id;
    assert a[0] == 'r' && b[0] == 'm';
  }

  /** The page: its step, its inputs, and the member handed to the
      application. */
  class RegistrationPage {
    var step: Step
    var formData: RegistrationForm
    var completed: Option<Member>

    constructor ()
      ensures step == FormStep && formData == EmptyForm && completed.None?
    {
      step := FormStep;
      formData := EmptyForm;
      completed := None;
    }

    /** A keystroke replaces the whole form with the new inputs. */
    method Type(form: RegistrationForm)
      modifies this`formData
      ensures formData == form
    {
      formData := form;
    }

    /** `handleSubmit`: nothing happens without a Chinese name and a phone
        number; otherwise the page shows its thanks and the new member is
        handed on. */
    method Submit(stamp: nat, today: string)
      modifies this`step, this`completed
      ensures !Submittable(formData) ==> step == old(step) && completed == old(completed)
      ensures Submittable(formData) ==> step == SuccessStep && completed == Some(Registered(formData, stamp, today))
    {
      if formData.chineseName == "" || formData.phoneNumber == "" {
        return;
      }
      step := SuccessStep;
      completed := Some(Registered(formData, stamp, today));
    }
  }
}
