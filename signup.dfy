/**
 * The signup page (src/app/signup/page.tsx): checks run in a fixed order,
 * each ending the handler on failure, and a new user is appended to the
 * stored list only when all pass.
 */
module Signup {
  import opened Wrappers
  import opened Storage
  import opened Users

  datatype SignupError =
    | PasswordMismatch  // "Las contraseñas no coinciden."
    | StorageCorrupt    // the stored user list does not parse
    | EmailTaken        // "Este correo electrónico ya está registrado."

  /**
   * The user list signup leaves behind, or why it refused. A mismatch is
   * reported before storage is read; an absent or empty stored list counts
   * as no users.
   */
  function SignupUsers(stored: Stored<seq<User>>, email: string, password: string, confirm: string)
    : (r: Result<seq<User>, SignupError>)
    ensures password != confirm ==> r == Failure(PasswordMismatch)
    ensures password == confirm && stored.Corrupt? ==> r == Failure(StorageCorrupt)
    ensures password == confirm && !stored.Corrupt? ==>
      (r.Success? <==> !Registered(OrEmpty(stored), email)) &&
      (r.Failure? ==> r.error == EmailTaken)
    ensures r.Success? ==> r.value == OrEmpty(stored) + [User(email, password)]
  {
    if password != confirm then Failure(PasswordMismatch)
    else if stored.Corrupt? then Failure(StorageCorrupt)
    else
      var users := OrEmpty(stored);
      if FindByEmail(users, email) >= 0 then Failure(EmailTaken)
      else Success(users + [User(email, password)])
  }

  /** Stored emails that are pairwise distinct stay so after a signup. */
  lemma SignupKeepsEmailsDistinct(stored: Stored<seq<User>>, email: string, password: string, confirm: string)
    requires stored.Present? ==> DistinctEmails(stored.value)
    ensures SignupUsers(stored, email, password, confirm).Success? ==>
      DistinctEmails(SignupUsers(stored, email, password, confirm).value)
  {
    var r := SignupUsers(stored, email, password, confirm);
    if r.Success? {
      var users := OrEmpty(stored);
      assert !Registered(users, email);
      forall i, j | 0 <= i < j < |r.value|
        ensures r.value[i].email != r.value[j].email
      {
        if j == |users| {
          assert r.value[i] == users[i];
        }
      }
    }
  }

  /** `handleSignup`: the early returns, then `users.push(newUser)` and the write. */
  method HandleSignup(store: AccountStore, email: string, password: string, confirm: string)
    returns (error: Option<SignupError>)
    modifies store
    ensures var r := SignupUsers(old(store.users), email, password, confirm);
      (error.None? <==> r.Success?) &&
      (r.Failure? ==> error == Some(r.error)) &&
      store.users == (if r.Success? then Present(r.value) else old(store.users))
    ensures store.loggedIn == old(store.loggedIn)
  {
    if password != confirm {
      return Some(PasswordMismatch);
    }
    var users: seq<User> := [];
    if store.users.Corrupt? {
      return Some(StorageCorrupt);
    } else if store.users.Present? {
      users := store.users.value;
    }
    if FindByEmail(users, email) >= 0 {
      return Some(EmailTaken);
    }
    users := users + [User(email, password)];
    store.users := Present(users);
    return None;
  }
}
