/** The single identity record the application persists, and its three
    editable fields. */
module Identity {

  /** The stored user: plaintext credentials compared by exact equality. */
  datatype User = User(name: string, email: string, password: string)

  /** The field names shared by the record, the profile form's inputs and
      the keys of a validation error record. */
  datatype Field = Name | Email | Password

  /** The durable-storage key every page stores the record under. */
  const UserKey := "user"

  /** The record every page falls back to when nothing usable is stored. */
  const EmptyUser := User("", "", "")

  /** The value of one field of a record. */
  function Get(u: User, f: Field): string
  {
    match f
    case Name => u.name
    case Email => u.email
    case Password => u.password
  }

  /** The record with field `f` replaced by `v` (the `{ ...prev, [f]: v }` spread). */
  function With(u: User, f: Field, v: string): (r: User)
    ensures Get(r, f) == v
    ensures forall g :: g != f ==> Get(r, g) == Get(u, g)
  {
    match f
    case Name => u.(name := v)
    case Email => u.(email := v)
    case Password => u.(password := v)
  }
}
