/** The login form: two fields, a `loading` flag that disables the inputs
    and the submit button, an optional error message shown in an alert, and
    the route the page navigates to. As on the account creation page, the
    simulated call is one atomic step (`CompleteSubmit`) and whether it
    rejects is a parameter; the page as written never rejects. */
module Login {

  datatype Option<T> = None | Some(value: T)

  datatype LoginForm = LoginForm(employeeId: string, password: string)

  const RequiredMessage: string := "사원번호와 비밀번호를 입력해주세요."
  const FailedMessage: string := "로그인에 실패했습니다. 사원번호와 비밀번호를 확인해주세요."
  const DashboardRoute: string := "/dashboard"

  /** The `name` attributes of the two inputs. */
  const EmployeeIdField: string := "employeeId"
  const PasswordField: string := "password"

  /** Both fields non-empty: the handler's own guard, and also what the
      `required` attribute on both inputs makes the browser check before it
      lets the form submit. */
  predicate FieldsFilled(f: LoginForm) {
    f.employeeId != "" && f.password != ""
  }

  class LoginPage {
    var formData: LoginForm
    var loading: bool
    var error: Option<string>
    /** The last route pushed to the router, if any. */
    var navigatedTo: Option<string>

    constructor ()
      ensures formData == LoginForm("", "") && !loading
      ensures error == None && navigatedTo == None
    {
      formData := LoginForm("", "");
      loading := false;
      error := None;
      navigatedTo := None;
    }

    /** Both inputs and the submit button are disabled while a login is in flight. */
    predicate ControlsDisabled()
      reads this
    {
      loading
    }

    /** The change handler shared by both inputs: the input's `name` selects
        the field that takes the new value; the other field keeps its value. */
    method HandleChange(name: string, value: string)
      modifies this
      ensures name == EmployeeIdField ==> formData == LoginForm(value, old(formData.password))
      ensures name == PasswordField ==> formData == LoginForm(old(formData.employeeId), value)
      ensures name != EmployeeIdField && name != PasswordField ==> formData == old(formData)
      ensures loading == old(loading) && error == old(error) && navigatedTo == old(navigatedTo)
    {
      if name == EmployeeIdField {
        formData := formData.(employeeId := value);
      } else if name == PasswordField {
        formData := formData.(password := value);
      }
    }

    /** Typing into an input: nothing happens while the inputs are disabled. */
    method EditField(name: string, value: string)
      modifies this
      ensures old(loading) ==> formData == old(formData)
      ensures !old(loading) && name == EmployeeIdField ==> formData == LoginForm(value, old(formData.password))
      ensures !old(loading) && name == PasswordField ==> formData == LoginForm(old(formData.employeeId), value)
      ensures name != EmployeeIdField && name != PasswordField ==> formData == old(formData)
      ensures loading == old(loading) && error == old(error) && navigatedTo == old(navigatedTo)
    {
      if !ControlsDisabled() {
        HandleChange(name, value);
      }
    }

    /** Closing the alert is the only action that clears the error. */
    method CloseAlert()
      modifies this
      ensures error == None
      ensures formData == old(formData) && loading == old(loading) && navigatedTo == old(navigatedTo)
    {
      error := None;
    }

    /** The submit handler up to the simulated call. An empty field sets the
        required-fields error and stops (`pending` false); otherwise `loading`
        is set and the call is pending. Neither path clears an earlier error. */
    method BeginSubmit() returns (pending: bool)
      modifies this
      ensures pending <==> FieldsFilled(old(formData))
      ensures formData == old(formData) && navigatedTo == old(navigatedTo)
      ensures !pending ==> error == Some(RequiredMessage) && loading == old(loading)
      ensures pending ==> loading && error == old(error)
    {
      if formData.employeeId == "" || formData.password == "" {
        error := Some(RequiredMessage);
        pending := false;
        return;
      }
      loading := true;
      pending := true;
    }

    /** The rest of the submit handler, once the simulated call settles:
        success navigates to the dashboard and leaves `error` as it was, a
        rejection sets the failure message; `loading` is cleared either way. */
    method CompleteSubmit(rejected: bool)
      modifies this
      ensures !loading && formData == old(formData)
      ensures !rejected ==> navigatedTo == Some(DashboardRoute) && error == old(error)
      ensures rejected ==> error == Some(FailedMessage) && navigatedTo == old(navigatedTo)
    {
      if !rejected {
        navigatedTo := Some(DashboardRoute);
      } else {
        error := Some(FailedMessage);
      }
      loading := false;
    }

    /** A press of the submit button. Nothing happens while the button is
        disabled, nor while a required field is empty: form validation stops
        the submit before the handler runs. Otherwise it is the first half of
        the submit handler, whose own empty-field guard therefore never fires
        from a press: the error is never changed by one. */
    method PressSubmit() returns (pending: bool)
      modifies this
      ensures formData == old(formData) && navigatedTo == old(navigatedTo) && error == old(error)
      ensures pending <==> !old(loading) && FieldsFilled(old(formData))
      ensures loading == (old(loading) || pending)
    {
      if ControlsDisabled() || !FieldsFilled(formData) {
        pending := false;
        return;
      }
      pending := BeginSubmit();
    }

    /** The whole submit handler with the simulated call taken as one step. */
    method HandleSubmit(rejected: bool)
      modifies this
      ensures formData == old(formData)
      ensures !FieldsFilled(old(formData)) ==>
                error == Some(RequiredMessage) && loading == old(loading) && navigatedTo == old(navigatedTo)
      ensures FieldsFilled(old(formData)) ==> !loading
      ensures FieldsFilled(old(formData)) && !rejected ==>
                navigatedTo == Some(DashboardRoute) && error == old(error)
      ensures FieldsFilled(old(formData)) && rejected ==>
                error == Some(FailedMessage) && navigatedTo == old(navigatedTo)
    {
      var pending := BeginSubmit();
      if pending {
        CompleteSubmit(rejected);
      }
    }
  }

  /** A client run: a press with an empty password does nothing; calling the
      handler directly shows the error and does not navigate; after filling
      in the password, login navigates while the error stays until the alert
      is closed. */
  method EmptyPasswordThenLogin()
  {
    var page := new LoginPage();
    page.EditField(EmployeeIdField, "EMP001");
    var blocked := page.PressSubmit();
    assert !blocked && page.error == None && !page.loading;
    page.HandleSubmit(false);
    assert page.error == Some(RequiredMessage) && page.navigatedTo == None && !page.loading;
    page.EditField(PasswordField, "secret");
    var pending := page.PressSubmit();
    assert pending && page.ControlsDisabled();
    page.EditField(PasswordField, "changed");
    assert page.formData == LoginForm("EMP001", "secret");
    page.CompleteSubmit(false);
    assert page.navigatedTo == Some(DashboardRoute) && page.error == Some(RequiredMessage);
    page.CloseAlert();
    assert page.error == None;
  }
}
