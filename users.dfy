/**
 * The `users` crate's records as the core sees them: a user or a group is
 * a name and a numeric id. Looking names and ids up in the system
 * databases is not part of this model; records arrive already resolved.
 */
module Users {

  /** `uid_t` / `gid_t`: unsigned 32-bit ids. */
  type Id = n: nat | n < 0x1_0000_0000

  datatype User = User(name: string, uid: Id)

  datatype Group = Group(name: string, gid: Id)
}
