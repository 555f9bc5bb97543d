/** The user and role repositories shared by registration, login and account
    management: users are keyed by id, and no two users share an e-mail
    address, so a lookup by e-mail finds at most one user. */
module Accounts {
  import opened Common

  datatype Role = Role(id: nat, name: string)

  /** A stored user. The password is the encoded form, never the raw one;
      name, phone number, address and profile image URL may be null. */
  datatype User = User(
    id: nat,
    name: Option<string>,
    email: string,
    password: string,
    phoneNumber: Option<string>,
    address: Option<string>,
    profileUrl: Option<string>,
    roles: seq<Role>,
    active: bool,
    createdAt: int)

  /** existsByEmail: the comparison is exact. */
  predicate EmailTaken(users: map<nat, User>, email: string) {
    exists id :: id in users && users[id].email == email
  }

  /** Every user is stored under its own id. */
  predicate Keyed(users: map<nat, User>) {
    forall id :: id in users ==> users[id].id == id
  }

  predicate UniqueEmails(users: map<nat, User>) {
    forall a, b :: a in users && b in users && a != b ==> users[a].email != users[b].email
  }

  /** findByEmail: the one user with that address, if any. */
  function FindByEmail(users: map<nat, User>, email: string): (r: Option<User>)
    requires Keyed(users) && UniqueEmails(users)
    ensures r.None? <==> !EmailTaken(users, email)
    ensures r.Some? ==> r.value.id in users && users[r.value.id] == r.value && r.value.email == email
  {
    if EmailTaken(users, email) then
      var id :| id in users && users[id].email == email;
      Some(users[id])
    else None
  }

  /** Saving a user whose e-mail no other user has keeps the addresses
      unique. */
  lemma PutKeepsEmailsUnique(users: map<nat, User>, id: nat, u: User)
    requires UniqueEmails(users)
    requires forall other :: other in users && other != id ==> users[other].email != u.email
    ensures UniqueEmails(users[id := u])
  {
  }

  /** findByName on the role repository: roles are stored under their
      names. */
  predicate RolesByName(roles: map<string, Role>) {
    forall n :: n in roles ==> roles[n].name == n
  }

  class UserRepository {
    var users: map<nat, User>
    var nextId: nat

    ghost predicate Valid()
      reads this
    {
      && Keyed(users)
      && (forall id :: id in users ==> id < nextId)
      && UniqueEmails(users)
    }

    constructor ()
      ensures Valid() && users == map[] && nextId == 0
    {
      users := map[];
      nextId := 0;
    }
  }
}
