/** Accounts, their roles and the directed author-subscription table
    (backend/users/models.py). */
module UsersModels {
  import opened Common

  const GUEST: string := "guest"
  const AUTHORIZED: string := "authorized"
  const ADMIN: string := "admin"

  /** The three choices of the `role` field. */
  const ROLES: set<string> := {GUEST, AUTHORIZED, ADMIN}

  /** A row of the user table. `password` is the stored credential, an
      opaque value produced by the password hasher. */
  datatype User = User(
    email: string,
    username: string,
    firstName: string,
    lastName: string,
    password: string,
    role: string,
    isStaff: bool,
    isSuperuser: bool)

  /** A freshly registered account: the role takes its default and the
      account carries no staff or superuser flag. */
  function NewUser(email: string, username: string, firstName: string,
                   lastName: string, password: string): (u: User)
    ensures u.role == GUEST && u.role in ROLES
    ensures IsGuest(u) && !IsAuthorized(u) && !IsAdmin(u)
    ensures u.email == email && u.username == username && u.password == password
  {
    User(email, username, firstName, lastName, password, GUEST, false, false)
  }

  predicate IsGuest(u: User) { u.role == GUEST }

  predicate IsAuthorized(u: User) { u.role == AUTHORIZED }

  predicate IsAdmin(u: User) { u.role == ADMIN || u.isSuperuser }

  /** The three role values exclude one another; only the superuser flag
      lets `is_admin` hold together with another role predicate, and
      without it `is_admin` is exactly the admin role. */
  lemma RolesExclusive(u: User)
    ensures !(IsGuest(u) && IsAuthorized(u))
    ensures !u.isSuperuser ==> (IsAdmin(u) <==> u.role == ADMIN)
    ensures !u.isSuperuser ==> !(IsAdmin(u) && (IsGuest(u) || IsAuthorized(u)))
    ensures u.isSuperuser ==> IsAdmin(u)
  {
  }

  /** `email` and `username` are unique columns. */
  ghost predicate UniqueAccounts(users: map<UserId, User>) {
    forall a, b :: a in users && b in users && a != b ==>
      users[a].email != users[b].email && users[a].username != users[b].username
  }

  /** Every stored role is one of the three choices. */
  ghost predicate RolesValid(users: map<UserId, User>) {
    forall k :: k in users ==> users[k].role in ROLES
  }

  /** Whether `u` may be inserted next to `users` without breaking the
      unique columns. */
  predicate Registrable(users: map<UserId, User>, u: User) {
    forall k :: k in users ==> users[k].email != u.email && users[k].username != u.username
  }

  /** Inserting an account that passes the unique-column test keeps every
      email and username unique. */
  lemma RegisterKeepsUnique(users: map<UserId, User>, id: UserId, u: User)
    requires UniqueAccounts(users) && id !in users && Registrable(users, u)
    ensures UniqueAccounts(users[id := u])
  {
  }

  /** Subscribe rows are directed (user, author) pairs; both ends are
      accounts that exist. The unique constraint on (user, author) is the
      set's own. */
  ghost predicate SubscriptionsWellFormed(edges: set<(UserId, UserId)>, users: map<UserId, User>) {
    forall e :: e in edges ==> e.0 in users && e.1 in users
  }

  /** The rows left after deleting account `u`: both foreign keys cascade. */
  function EdgesWithoutUser(edges: set<(UserId, UserId)>, u: UserId): (r: set<(UserId, UserId)>)
    ensures r <= edges
    ensures forall e :: e in r ==> e.0 != u && e.1 != u
    ensures forall e :: e in edges && e.0 != u && e.1 != u ==> e in r
  {
    set e | e in edges && e.0 != u && e.1 != u
  }
}
