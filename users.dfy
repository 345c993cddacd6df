/**
 * The account records the signup, login and navigation components share
 * through local storage: the user list under "remindme_users" and the
 * logged-in record under "remindme_logged_in_user".
 */
module Users {
  import opened Wrappers
  import opened Storage
  import Lists

  const UsersKey: string := "remindme_users"

  /** A registered user; the password is kept as entered. */
  datatype User = User(email: string, password: string)

  /**
   * The logged-in record as parsed back from storage. Login writes `email`
   * and `name`; any field may be missing from what another writer stored.
   */
  datatype Session = Session(email: Option<string>, name: Option<string>, avatar: Option<string>)

  /** `users.find(u => u.email === email)`, as an index (-1 when there is none). */
  function FindByEmail(users: seq<User>, email: string): (k: int)
    ensures -1 <= k < |users|
    ensures k >= 0 ==> users[k].email == email
    ensures forall j :: 0 <= j < |users| && (k < 0 || j < k) ==> users[j].email != email
  {
    Lists.FirstIndex(users, (u: User) => u.email == email)
  }

  predicate Registered(users: seq<User>, email: string) {
    exists i :: 0 <= i < |users| && users[i].email == email
  }

  predicate DistinctEmails(users: seq<User>) {
    forall i, j :: 0 <= i < j < |users| ==> users[i].email != users[j].email
  }

  /** The two keys of local storage these components read and write. */
  class AccountStore {
    var users: Stored<seq<User>>
    var loggedIn: Stored<Session>

    constructor (users: Stored<seq<User>>, loggedIn: Stored<Session>)
      ensures this.users == users && this.loggedIn == loggedIn
    {
      this.users := users;
      this.loggedIn := loggedIn;
    }
  }
}
