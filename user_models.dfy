/** Accounts and their one-to-one options rows (users/models.py). */
module UserModels {
  import opened Wrappers

  type UserId = nat

  /** Largest value a PositiveIntegerField column holds on PostgreSQL (a 32-bit integer). */
  const MaxQuota: nat := 2147483647

  /** An account. The password hash is opaque and not modelled. */
  datatype User = User(
    id: UserId,
    email: string,
    firstName: string,
    lastName: string,
    isStaff: bool,
    isActive: bool)

  /** The options row of one user. `quota == None` means unlimited. */
  datatype Options = Options(user: UserId, quota: Option<nat>)

  /** A freshly saved account: blank names, not staff, active. */
  function NewUser(id: UserId, email: string): User
  {
    User(id, email, "", "", false, true)
  }

  /** The options row created together with a new account: no quota. */
  function NewOptions(user: UserId): Options
  {
    Options(user, None)
  }

  /** Some stored account already uses `email`. */
  predicate EmailInUse(users: map<UserId, User>, email: string)
  {
    exists u :: u in users && users[u].email == email
  }

  /** The email column is unique. */
  predicate EmailsUnique(users: map<UserId, User>)
  {
    forall u, v :: u in users && v in users && u != v ==> users[u].email != users[v].email
  }

  /** A quota the column can hold: null, or 0 through MaxQuota. */
  predicate ValidQuota(quota: Option<nat>)
  {
    quota.None? || quota.value <= MaxQuota
  }
}
