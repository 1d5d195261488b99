/** The signup form: validates, overwrites the stored record with the typed
    fields, and schedules a completion step. */
module Signup {
  import opened Identity
  import opened Validation
  import opened LocalStorage
  import opened Navigation

  class SignupPage {
    var name: string
    var email: string
    var password: string
    var isLoading: bool
    var errors: ValidationError
    /** Completions scheduled by a successful submit and not yet run. */
    var pending: nat
    const user: Store
    const location: Location

    ghost predicate Valid()
      reads this
    {
      user.key == UserKey
    }

    constructor (storage: DurableStorage, location: Location)
      ensures Valid() && fresh(user)
      ensures name == "" && email == "" && password == ""
      ensures !isLoading && errors == map[] && pending == 0
      ensures user.storage == storage && user.value == Load(storage.entries, UserKey, EmptyUser)
      ensures this.location == location
    {
      name, email, password := "", "", "";
      isLoading, errors, pending := false, map[], 0;
      user := new Store(storage, UserKey, EmptyUser);
      this.location := location;
    }

    /** Each field's change handler clears that field's error only. */
    method ChangeName(v: string)
      modifies this
      ensures name == v && errors == old(errors)[Name := ""]
      ensures email == old(email) && password == old(password)
      ensures isLoading == old(isLoading) && pending == old(pending)
    {
      name := v;
      errors := errors[Name := ""];
    }

    method ChangeEmail(v: string)
      modifies this
      ensures email == v && errors == old(errors)[Email := ""]
      ensures name == old(name) && password == old(password)
      ensures isLoading == old(isLoading) && pending == old(pending)
    {
      email := v;
      errors := errors[Email := ""];
    }

    method ChangePassword(v: string)
      modifies this
      ensures password == v && errors == old(errors)[Password := ""]
      ensures name == old(name) && email == old(email)
      ensures isLoading == old(isLoading) && pending == old(pending)
    {
      password := v;
      errors := errors[Password := ""];
    }

    /** `handleSubmit`. On validation failure only the errors change. On
        success the record is replaced by the fields exactly as typed, the
        page is loading and a completion is scheduled. `written` says whether
        the durable write succeeded; the store swallows a failed write, so
        the submit proceeds either way. */
    method HandleSubmit(written: bool)
      requires Valid()
      modifies this, user, user.storage
      ensures Valid()
      ensures name == old(name) && email == old(email) && password == old(password)
      ensures var v := ValidateSignup(name, email, password);
        if |v| > 0 then
          && errors == v && isLoading == old(isLoading) && pending == old(pending)
          && user.value == old(user.value) && user.storage.entries == old(user.storage.entries)
        else
          && errors == old(errors) && isLoading && pending == old(pending) + 1
          && user.value == User(name, email, password)
          && user.storage.entries == if written then Persist(old(user.storage.entries), UserKey, user.value)
                                     else old(user.storage.entries)
    {
      var validationErrors := ValidateSignup(name, email, password);
      if |validationErrors| > 0 {
        errors := validationErrors;
        return;
      }
      isLoading := true;
      user.SetValue(Replace(User(name, email, password)), written);
      pending := pending + 1;
    }

    /** The scheduled completion: stop loading and go to the profile. */
    method Complete()
      requires pending > 0
      modifies this, location
      ensures !isLoading && location.path == UserPath && pending == old(pending) - 1
      ensures name == old(name) && email == old(email) && password == old(password)
      ensures errors == old(errors)
    {
      isLoading := false;
      location.path := UserPath;
      pending := pending - 1;
    }
  }
}
