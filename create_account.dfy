/** The account creation form: its field values, the `loading` flag that
    disables the submit button, and the snackbar that reports the outcome.
    The simulated call between the two halves of a submission is one atomic
    step (`CompleteSubmit`); whether it rejects is a parameter, and the page
    as written never rejects. */
module CreateAccount {

  datatype Severity = Success | Error

  /** The notification at the bottom of the page. */
  datatype Snackbar = Snackbar(open: bool, message: string, severity: Severity)

  /** The five form fields. */
  datatype AccountForm = AccountForm(
    employeeId: string,
    name: string,
    password: string,
    confirmPassword: string,
    isAdmin: bool)

  const EmptyForm: AccountForm := AccountForm("", "", "", "", false)

  const MismatchMessage: string := "비밀번호가 일치하지 않습니다."
  const CreatedMessage: string := "계정이 성공적으로 생성되었습니다."
  const FailedMessage: string := "계정 생성 중 오류가 발생했습니다."

  /** The only validation the form performs: both password fields agree. */
  predicate PasswordsMatch(f: AccountForm) {
    f.password == f.confirmPassword
  }

  /** The four text inputs carry `required`, so the browser's own form
      validation refuses to submit while any of them is empty. The admin
      switch is not required. */
  predicate RequiredFilled(f: AccountForm) {
    f.employeeId != "" && f.name != "" && f.password != "" && f.confirmPassword != ""
  }

  class CreateAccountPage {
    var formData: AccountForm
    var loading: bool
    var snackbar: Snackbar

    /** The page as first rendered. */
    constructor ()
      ensures formData == EmptyForm && !loading
      ensures snackbar == Snackbar(false, "", Success)
    {
      formData := EmptyForm;
      loading := false;
      snackbar := Snackbar(false, "", Success);
    }

    /** The submit button is disabled while a submission is in flight. */
    predicate SubmitDisabled()
      reads this
    {
      loading
    }

    method SetEmployeeId(value: string)
      modifies this
      ensures formData == old(formData).(employeeId := value)
      ensures formData.name == old(formData.name) && formData.password == old(formData.password)
      ensures formData.confirmPassword == old(formData.confirmPassword) && formData.isAdmin == old(formData.isAdmin)
      ensures loading == old(loading) && snackbar == old(snackbar)
    {
      formData := formData.(employeeId := value);
    }

    method SetName(value: string)
      modifies this
      ensures formData == old(formData).(name := value)
      ensures formData.employeeId == old(formData.employeeId) && formData.password == old(formData.password)
      ensures formData.confirmPassword == old(formData.confirmPassword) && formData.isAdmin == old(formData.isAdmin)
      ensures loading == old(loading) && snackbar == old(snackbar)
    {
      formData := formData.(name := value);
    }

    method SetPassword(value: string)
      modifies this
      ensures formData == old(formData).(password := value)
      ensures formData.employeeId == old(formData.employeeId) && formData.name == old(formData.name)
      ensures formData.confirmPassword == old(formData.confirmPassword) && formData.isAdmin == old(formData.isAdmin)
      ensures loading == old(loading) && snackbar == old(snackbar)
    {
      formData := formData.(password := value);
    }

    method SetConfirmPassword(value: string)
      modifies this
      ensures formData == old(formData).(confirmPassword := value)
      ensures formData.employeeId == old(formData.employeeId) && formData.name == old(formData.name)
      ensures formData.password == old(formData.password) && formData.isAdmin == old(formData.isAdmin)
      ensures loading == old(loading) && snackbar == old(snackbar)
    {
      formData := formData.(confirmPassword := value);
    }

    method SetIsAdmin(checked: bool)
      modifies this
      ensures formData == old(formData).(isAdmin := checked)
      ensures formData.employeeId == old(formData.employeeId) && formData.name == old(formData.name)
      ensures formData.password == old(formData.password) && formData.confirmPassword == old(formData.confirmPassword)
      ensures loading == old(loading) && snackbar == old(snackbar)
    {
      formData := formData.(isAdmin := checked);
    }

    /** Closing the snackbar hides it and keeps its text and severity. */
    method CloseSnackbar()
      modifies this
      ensures snackbar == old(snackbar).(open := false)
      ensures snackbar.message == old(snackbar.message) && snackbar.severity == old(snackbar.severity)
      ensures formData == old(formData) && loading == old(loading)
    {
      snackbar := snackbar.(open := false);
    }

    /** The submit handler up to the simulated call. On a password mismatch
        it shows the error snackbar and stops (`pending` false); otherwise it
        sets `loading` and the call is pending. */
    method BeginSubmit() returns (pending: bool)
      modifies this
      ensures pending <==> PasswordsMatch(old(formData))
      ensures formData == old(formData)
      ensures !pending ==> snackbar == Snackbar(true, MismatchMessage, Error) && loading == old(loading)
      ensures pending ==> loading && snackbar == old(snackbar)
    {
      if formData.password != formData.confirmPassword {
        snackbar := Snackbar(true, MismatchMessage, Error);
        pending := false;
        return;
      }
      loading := true;
      pending := true;
    }

    /** The rest of the submit handler, once the simulated call settles:
        success reports the creation and clears the form, a rejection
        reports the failure and keeps the form; `loading` is cleared either way. */
    method CompleteSubmit(rejected: bool)
      modifies this
      ensures !loading
      ensures !rejected ==> snackbar == Snackbar(true, CreatedMessage, Success) && formData == EmptyForm
      ensures rejected ==> snackbar == Snackbar(true, FailedMessage, Error) && formData == old(formData)
    {
      if !rejected {
        snackbar := Snackbar(true, CreatedMessage, Success);
        formData := EmptyForm;
      } else {
        snackbar := Snackbar(true, FailedMessage, Error);
      }
      loading := false;
    }

    /** A press of the submit button. Nothing happens while the button is
        disabled, nor while a required field is empty: form validation stops
        the submit before the handler runs. Otherwise it is the first half of
        the submit handler. */
    method PressSubmit() returns (pending: bool)
      modifies this
      ensures formData == old(formData)
      ensures old(loading) || !RequiredFilled(old(formData)) ==>
                !pending && loading == old(loading) && snackbar == old(snackbar)
      ensures !old(loading) && RequiredFilled(old(formData)) ==> (pending <==> PasswordsMatch(old(formData)))
      ensures !old(loading) && RequiredFilled(old(formData)) && !pending ==>
                snackbar == Snackbar(true, MismatchMessage, Error) && !loading
      ensures pending ==> loading && snackbar == old(snackbar)
    {
      if SubmitDisabled() || !RequiredFilled(formData) {
        pending := false;
        return;
      }
      pending := BeginSubmit();
    }

    /** The whole submit handler with the simulated call taken as one step. */
    method HandleSubmit(rejected: bool)
      modifies this
      ensures !PasswordsMatch(old(formData)) ==>
                snackbar == Snackbar(true, MismatchMessage, Error)
                && loading == old(loading) && formData == old(formData)
      ensures PasswordsMatch(old(formData)) ==> !loading
      ensures PasswordsMatch(old(formData)) && !rejected ==>
                snackbar == Snackbar(true, CreatedMessage, Success) && formData == EmptyForm
      ensures PasswordsMatch(old(formData)) && rejected ==>
                snackbar == Snackbar(true, FailedMessage, Error) && formData == old(formData)
    {
      var pending := BeginSubmit();
      if pending {
        CompleteSubmit(rejected);
      }
    }
  }

  /** A client run: a press with the name left empty does nothing; a
      mismatched pair is refused and the form kept; after correcting the
      confirmation the account is created and the form reset. */
  method MismatchThenCreate()
  {
    var page := new CreateAccountPage();
    page.SetEmployeeId("EMP005");
    page.SetPassword("abc123");
    page.SetConfirmPassword("abc124");
    var blocked := page.PressSubmit();
    assert !blocked && !page.snackbar.open && !page.loading;
    page.SetName("홍길동");
    var refused := page.PressSubmit();
    assert !refused && page.snackbar == Snackbar(true, MismatchMessage, Error);
    assert !page.loading && page.formData.employeeId == "EMP005";
    page.CloseSnackbar();
    assert !page.snackbar.open && page.snackbar.severity == Error;
    page.SetConfirmPassword("abc123");
    var pending := page.PressSubmit();
    assert pending && page.SubmitDisabled();
    var again := page.PressSubmit();
    assert !again;
    page.CompleteSubmit(false);
    assert page.formData == EmptyForm && page.snackbar.severity == Success && !page.loading;
  }
}
