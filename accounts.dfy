/** The account directory as the booking core sees it: ids, roles, and id texts in requests. */
module Accounts {

  type UserId = nat

  /** The `role` enumeration of a user account. */
  datatype Role = Patient | Doctor | Admin

  function RoleName(r: Role): string {
    match r
    case Patient => "patient"
    case Doctor => "doctor"
    case Admin => "admin"
  }

  /** A user as the authentication middleware attaches it to a request. */
  datatype User = User(id: UserId, role: Role)

  /** The accounts that exist, with their roles (`User.findById`). */
  type Directory = map<UserId, Role>

  /**
   * An id as a request carries it: a well-formed ObjectId (naming a record or not), or a
   * text that cannot be cast to one, which makes every query on it throw a `CastError`.
   */
  datatype IdText = ObjectId(value: nat) | NotObjectId

  /** `doctor && doctor.role === 'doctor'` after `User.findById(id)`. */
  predicate IsDoctor(users: Directory, id: UserId) {
    id in users && users[id] == Doctor
  }
}
