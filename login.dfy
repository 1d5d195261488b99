/** The login form: validates, compares the submitted credentials with the
    stored record, and schedules a completion step on success. */
module Login {
  import opened Identity
  import opened Validation
  import opened LocalStorage
  import opened Navigation

  const CredentialsRejected := "User doesn't exist. Please check your credentials."

  /** The success test: both fields equal the stored ones exactly. */
  predicate CredentialsMatch(email: string, password: string, u: User)
  {
    email == u.email && password == u.password
  }

  /** Against the fallback record no login can succeed: an email that passes
      validation is never the empty string. */
  lemma FallbackRecordRejectsEveryLogin(email: string, password: string)
    requires ValidateLogin(email, password) == map[]
    ensures !CredentialsMatch(email, password, EmptyUser)
  {
    LoginEmptyIffValid(email, password);
    PatternIsNotBlank(email);
  }

  class LoginPage {
    var email: string
    var password: string
    var isLoading: bool
    var errors: ValidationError
    var authError: string
    /** Completions scheduled by a successful submit and not yet run. */
    var pending: nat
    const user: Store
    const location: Location

    ghost predicate Valid()
      reads this
    {
      user.key == UserKey
    }

    /** Mounting the page: empty fields, no errors, and the stored record
        loaded (or the empty record when there is none). */
    constructor (storage: DurableStorage, location: Location)
      ensures Valid() && fresh(user)
      ensures email == "" && password == "" && !isLoading
      ensures errors == map[] && authError == "" && pending == 0
      ensures user.storage == storage && user.value == Load(storage.entries, UserKey, EmptyUser)
      ensures this.location == location
    {
      email, password, isLoading := "", "", false;
      errors, authError, pending := map[], "", 0;
      user := new Store(storage, UserKey, EmptyUser);
      this.location := location;
    }

    /** Typing into the email field clears only the email error. */
    method ChangeEmail(v: string)
      modifies this
      ensures email == v && errors == old(errors)[Email := ""]
      ensures password == old(password) && isLoading == old(isLoading)
      ensures authError == old(authError) && pending == old(pending)
    {
      email := v;
      errors := errors[Email := ""];
    }

    /** Typing into the password field clears only the password error. */
    method ChangePassword(v: string)
      modifies this
      ensures password == v && errors == old(errors)[Password := ""]
      ensures email == old(email) && isLoading == old(isLoading)
      ensures authError == old(authError) && pending == old(pending)
    {
      password := v;
      errors := errors[Password := ""];
    }

    /** `handleSubmit`. Validation failure shows the field errors; otherwise
        the credentials are compared with the mirrored record: a match keeps
        the page loading and schedules a completion, a mismatch shows the
        generic rejection. The store is only read. */
    method HandleSubmit()
      requires Valid()
      modifies this
      ensures Valid() && unchanged(user, user.storage)
      ensures email == old(email) && password == old(password)
      ensures var v := ValidateLogin(email, password);
        if |v| > 0 then
          errors == v && !isLoading && authError == "" && pending == old(pending)
        else if CredentialsMatch(email, password, user.value) then
          errors == old(errors) && isLoading && authError == "" && pending == old(pending) + 1
        else
          errors == old(errors) && !isLoading && authError == CredentialsRejected
          && pending == old(pending)
    {
      isLoading := true;
      authError := "";
      var validationErrors := ValidateLogin(email, password);
      if |validationErrors| > 0 {
        errors := validationErrors;
        isLoading := false;
        return;
      }
      if email == user.value.email && password == user.value.password {
        pending := pending + 1;
      } else {
        authError := CredentialsRejected;
        isLoading := false;
      }
    }

    /** The scheduled completion: stop loading and go to the profile. */
    method Complete()
      requires pending > 0
      modifies this, location
      ensures !isLoading && location.path == UserPath && pending == old(pending) - 1
      ensures email == old(email) && password == old(password)
      ensures errors == old(errors) && authError == old(authError)
    {
      isLoading := false;
      location.path := UserPath;
      pending := pending - 1;
    }
  }
}
