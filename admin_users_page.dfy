/** app/admin/users/page.tsx: the admin's form that creates a user through `createUser`. */
module AdminUsersPage {
  import opened Wrappers
  import opened Types
  import opened Database
  import opened AdminUserActions

  /** `formData`: the email, name, password and role inputs. */
  datatype UserForm = UserForm(email: string, name: string, password: string, role: UserRole)

  const EmptyForm: UserForm := UserForm("", "", "", Tenant)

  const MissingFields: string := "Please fill in all required fields"
  const ShortPassword: string := "Password must be at least 6 characters"
  const UserCreated: string := "User created successfully!"
  const LoadFailed: string := "Error loading users. Please try again."

  /** `handleSubmit`'s checks: the required fields come first, then the password length. */
  function ValidationError(f: UserForm): (r: Option<string>)
    ensures r == Some(MissingFields) <==> f.email == "" || f.name == "" || f.password == ""
    ensures r == Some(ShortPassword) <==> f.email != "" && f.name != "" && f.password != "" && |f.password| < 6
    ensures r.None? <==> f.email != "" && f.name != "" && |f.password| >= 6
  {
    if f.email == "" || f.name == "" || f.password == "" then Some(MissingFields)
    else if |f.password| < 6 then Some(ShortPassword)
    else None
  }

  function DataOf(f: UserForm): CreateUserData {
    CreateUserData(f.email, f.name, f.password, f.role)
  }

  /** `if (result.error) throw ...`: an empty error text is falsy and reads as success. */
  predicate Refused(r: CreateUserResult) {
    r.Failed? && r.error != ""
  }

  /** The page reports an error exactly for the failures that carry a message. */
  lemma OnlyEmptyCaughtErrorLooksLikeSuccess(crash: Option<Thrown>, serviceKey: string, auth: AuthAnswer, profileFault: Option<string>)
    ensures var r := Outcome(crash, serviceKey, auth, profileFault);
            !Refused(r) <==> r.Created? || crash == Some(ThrownError(""))
  {
    FailuresCarryMessages(crash, serviceKey, auth, profileFault);
  }

  class UsersPage {
    var form: UserForm
    var showForm: bool
    var errorText: Option<string>
    var successText: Option<string>
    var submitting: bool

    constructor ()
      ensures form == EmptyForm && !showForm && errorText.None? && successText.None? && !submitting
    {
      form, showForm, errorText, successText, submitting := EmptyForm, false, None, None, false;
    }

    /** The "Create User" button. */
    method OpenForm()
      modifies this`showForm
      ensures showForm
    {
      showForm := true;
    }

    /** The inputs, disabled while submitting. */
    method EditForm(f: UserForm)
      requires !submitting
      modifies this`form
      ensures form == f
    {
      form := f;
    }

    /**
     * `handleSubmit`. The arguments after `db` are the answers `createUser` meets (see
     * `AdminUserActions.CreateUser`); `refreshFails` says whether the list reload that follows a
     * success fails, which sets its own error.
     */
    method HandleSubmit(db: Db, crash: Option<Thrown>, serviceKey: string, auth: AuthAnswer,
                        profileFault: Option<string>, deleteSucceeds: bool, refreshFails: bool)
      requires !submitting
      modifies this`form, this`showForm, this`errorText, this`successText, this`submitting, db`authUsers, db`profiles
      ensures !submitting
      ensures ValidationError(old(form)).Some? ==>
                && errorText == ValidationError(old(form)) && successText.None?
                && form == old(form) && showForm == old(showForm)
                && db.authUsers == old(db.authUsers) && db.profiles == old(db.profiles)
      ensures ValidationError(old(form)).None? ==>
                CreateEffect(old(db.authUsers), old(db.profiles), db.authUsers, db.profiles, DataOf(old(form)),
                             crash, serviceKey, auth, profileFault, deleteSucceeds)
      ensures ValidationError(old(form)).None? && Refused(Outcome(crash, serviceKey, auth, profileFault)) ==>
                && errorText == Some(Outcome(crash, serviceKey, auth, profileFault).error) && successText.None?
                && form == old(form) && showForm == old(showForm)
      ensures ValidationError(old(form)).None? && !Refused(Outcome(crash, serviceKey, auth, profileFault)) ==>
                && successText == Some(UserCreated) && form == EmptyForm && !showForm
                && errorText == (if refreshFails then Some(LoadFailed) else None)
    {
      errorText, successText := None, None;
      submitting := true;
      var invalid := ValidationError(form);
      if invalid.Some? {
        errorText := invalid;
        submitting := false;
        return;
      }
      var result := CreateUser(db, DataOf(form), crash, serviceKey, auth, profileFault, deleteSucceeds);
      if Refused(result) {
        errorText := Some(result.error);
        submitting := false;
        return;
      }
      successText := Some(UserCreated);
      form, showForm := EmptyForm, false;
      if refreshFails {
        errorText := Some(LoadFailed);
      }
      submitting := false;
    }

    /** The `setTimeout` that hides the success message three seconds later. */
    method SuccessTimeout()
      modifies this`successText
      ensures successText.None?
    {
      successText := None;
    }

    /** `handleCancel`, disabled while submitting. */
    method HandleCancel()
      requires !submitting
      modifies this`form, this`showForm, this`errorText
      ensures form == EmptyForm && !showForm && errorText.None?
    {
      form, showForm, errorText := EmptyForm, false, None;
    }
  }
}
