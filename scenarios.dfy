/** Whole flows across the pages, the store and the router, each run on a
    fresh durable storage holding `entries`. */
module Scenarios {
  import opened Identity
  import opened Validation
  import opened LocalStorage
  import opened Navigation
  import opened Login
  import opened Signup
  import opened Users
  import opened App

  /** Signing up with valid fields replaces whatever record was stored; the
      same credentials then log in, the profile route opens, and a freshly
      mounted profile shows the fields exactly as typed. */
  method SignupThenLogin(entries: map<string, Entry>, name: string, email: string, password: string)
    returns (view: View, shown: User)
    requires ValidateSignup(name, email, password) == map[]
    ensures view == Show(UsersScreen)
    ensures shown == User(name, email, password)
  {
    var storage := new DurableStorage(entries);
    var location := new Location(SignupPath);
    var signup := new SignupPage(storage, location);
    signup.ChangeName(name);
    signup.ChangeEmail(email);
    signup.ChangePassword(password);
    signup.HandleSubmit(true);
    signup.Complete();
    assert Route(location.path, storage.entries) == Show(UsersScreen);

    location.path := LoginPath;
    var login := new LoginPage(storage, location);
    login.ChangeEmail(email);
    login.ChangePassword(password);
    LoginAgreesWithSignup(name, email, password);
    SignupEmptyIffValid(name, email, password);
    LoginEmptyIffValid(email, password);
    login.HandleSubmit();
    login.Complete();
    view := Route(location.path, storage.entries);

    var profile := new UsersPage(storage);
    shown := profile.user.value;
  }

  /** Logging in against a stored record with credentials that pass
      validation: a match reaches the profile after the completion step, a
      mismatch stays on the login screen with the generic message. */
  method LoginAgainst(stored: User, email: string, password: string)
    returns (view: View, authError: string)
    requires ValidateLogin(email, password) == map[]
    ensures CredentialsMatch(email, password, stored) ==> view == Show(UsersScreen) && authError == ""
    ensures !CredentialsMatch(email, password, stored) ==>
      view == Show(LoginScreen) && authError == CredentialsRejected
  {
    var storage := new DurableStorage(map[UserKey := Serialized(stored)]);
    var location := new Location(LoginPath);
    var login := new LoginPage(storage, location);
    login.ChangeEmail(email);
    login.ChangePassword(password);
    login.HandleSubmit();
    if login.pending > 0 {
      login.Complete();
    }
    view := Route(location.path, storage.entries);
    authError := login.authError;
  }

  /** With nothing stored, a well-formed login is always rejected. */
  method LoginWithNothingStored(email: string, password: string) returns (authError: string, isLoading: bool)
    requires ValidateLogin(email, password) == map[]
    ensures authError == CredentialsRejected && !isLoading
  {
    var storage := new DurableStorage(map[]);
    var location := new Location(LoginPath);
    var login := new LoginPage(storage, location);
    login.ChangeEmail(email);
    login.ChangePassword(password);
    FallbackRecordRejectsEveryLogin(email, password);
    login.HandleSubmit();
    authError, isLoading := login.authError, login.isLoading;
  }

  /** A well-formed email with a password of one to five characters never
      reaches the credential comparison: whatever record is stored, only the
      length error shows and no credential message is set. */
  method ShortPasswordNeverCompared(stored: User, email: string, password: string)
    returns (errors: ValidationError, authError: string)
    requires MatchesEmailPattern(email) && 0 < |password| < MinPasswordLength
    ensures errors == map[Password := PasswordTooShort] && authError == ""
  {
    var storage := new DurableStorage(map[UserKey := Serialized(stored)]);
    var location := new Location(LoginPath);
    var login := new LoginPage(storage, location);
    login.ChangeEmail(email);
    login.ChangePassword(password);
    LoginEntries(email, password);
    PatternIsNotBlank(email);
    assert ValidateLogin(email, password).Keys == {Password};
    login.HandleSubmit();
    errors, authError := login.errors, login.authError;
  }

  /** A profile edit is stored as typed, even when it empties the field, and
      a later mount of the profile reads it back; the route stays open. */
  method EditThenRemount(stored: User, f: Field, v: string) returns (reloaded: User, view: View)
    ensures reloaded == With(stored, f, v)
    ensures view == Show(UsersScreen)
  {
    var storage := new DurableStorage(map[UserKey := Serialized(stored)]);
    var profile := new UsersPage(storage);
    profile.Edit();
    profile.HandleChange(f, v, true);
    profile.HandleSubmit();
    var again := new UsersPage(storage);
    reloaded := again.user.value;
    view := Route(UserPath, storage.entries);
  }

  /** When the durable write fails during signup, the page's own mirror holds
      the new record and the submit still completes, but a page mounted
      afterwards loads what storage held before. */
  method SignupWithFailedWrite(entries: map<string, Entry>, name: string, email: string, password: string)
    returns (mirror: User, reloaded: User, path: string)
    requires ValidateSignup(name, email, password) == map[]
    ensures mirror == User(name, email, password)
    ensures reloaded == Load(entries, UserKey, EmptyUser)
    ensures path == UserPath
  {
    var storage := new DurableStorage(entries);
    var location := new Location(SignupPath);
    var signup := new SignupPage(storage, location);
    signup.ChangeName(name);
    signup.ChangeEmail(email);
    signup.ChangePassword(password);
    signup.HandleSubmit(false);
    signup.Complete();
    mirror, path := signup.user.value, location.path;
    var login := new LoginPage(storage, location);
    reloaded := login.user.value;
  }
}
