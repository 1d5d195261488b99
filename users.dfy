/** The profile page: shows the stored record and, in edit mode, writes each
    field edit straight back through the store without validation. */
module Users {
  import opened Identity
  import opened LocalStorage

  /** The updater `handleChange` passes to the setter. */
  function EditField(f: Field, v: string): User -> User
  {
    u => With(u, f, v)
  }

  class UsersPage {
    var isEditing: bool
    const user: Store

    ghost predicate Valid()
      reads this
    {
      user.key == UserKey
    }

    constructor (storage: DurableStorage)
      ensures Valid() && fresh(user) && !isEditing
      ensures user.storage == storage && user.value == Load(storage.entries, UserKey, EmptyUser)
    {
      isEditing := false;
      user := new Store(storage, UserKey, EmptyUser);
    }

    /** The Edit button. */
    method Edit()
      modifies this
      ensures isEditing
    {
      isEditing := true;
    }

    /** `handleChange`: field `f` takes `v` as typed, the other two fields are
        unchanged, and the record is written under the user key. */
    method HandleChange(f: Field, v: string, written: bool)
      requires Valid()
      modifies user, user.storage
      ensures Valid() && isEditing == old(isEditing)
      ensures user.value == With(old(user.value), f, v)
      ensures user.storage.entries == if written then Persist(old(user.storage.entries), UserKey, user.value)
                                      else old(user.storage.entries)
    {
      user.SetValue(Update(EditField(f, v)), written);
    }

    /** `handleSubmit`: leaves edit mode and nothing else. */
    method HandleSubmit()
      modifies this
      ensures !isEditing
    {
      isEditing := false;
    }
  }
}
