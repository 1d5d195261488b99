/** The route table and the authentication test that gates the profile. */
module App {
  import opened Identity
  import opened LocalStorage
  import opened Navigation

  datatype Screen = LoginScreen | SignupScreen | UsersScreen

  /** What the router renders for a path. */
  datatype View = Show(screen: Screen) | Redirect(to: string)

  /** `localStorage.getItem('user')` is truthy: the key is present and its
      text is not the empty string. The record's contents are not looked at. */
  predicate IsAuthenticated(entries: map<string, Entry>)
  {
    UserKey in entries && !entries[UserKey].EmptyText?
  }

  /** The route table. */
  function Route(path: string, entries: map<string, Entry>): (v: View)
    ensures v.Redirect? ==> v.to == LoginPath
    ensures v == Show(UsersScreen) <==> path == UserPath && IsAuthenticated(entries)
    ensures v == Show(LoginScreen) <==> path == LoginPath
    ensures v == Show(SignupScreen) <==> path == SignupPath
    ensures v.Redirect? <==> path !in {LoginPath, SignupPath} && !(path == UserPath && IsAuthenticated(entries))
  {
    if path == LoginPath then Show(LoginScreen)
    else if path == SignupPath then Show(SignupScreen)
    else if path == UserPath then
      if IsAuthenticated(entries) then Show(UsersScreen) else Redirect(LoginPath)
    else Redirect(LoginPath)
  }

  /** Any record written under the user key authenticates, even one whose
      fields are all empty. */
  lemma PersistedRecordAuthenticates(entries: map<string, Entry>, u: User)
    ensures IsAuthenticated(Persist(entries, UserKey, u))
    ensures Route(UserPath, Persist(entries, UserKey, u)) == Show(UsersScreen)
  {
  }

  /** Unparseable text under the user key still opens the profile route,
      while the profile page itself falls back to the empty record. */
  lemma UnparseableEntryShowsFallback(entries: map<string, Entry>)
    requires UserKey in entries && entries[UserKey] == Unparseable
    ensures Route(UserPath, entries) == Show(UsersScreen)
    ensures Load(entries, UserKey, EmptyUser) == EmptyUser
  {
  }

  /** No entry, or the empty string, under the user key keeps the profile
      behind the login redirect. */
  lemma MissingEntryRedirects(entries: map<string, Entry>)
    requires UserKey !in entries || entries[UserKey] == EmptyText
    ensures Route(UserPath, entries) == Redirect(LoginPath)
  {
  }
}
