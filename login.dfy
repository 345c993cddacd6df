/**
 * The login page (src/app/login/page.tsx): the first stored user with the
 * entered email is looked up and its password compared; on success the
 * logged-in record is written.
 */
module Login {
  import opened Wrappers
  import opened Storage
  import opened Users
  import Lists
  import Signup

  datatype LoginError =
    | StorageCorrupt    // the stored user list does not parse
    | WrongCredentials  // "Correo electrónico o contraseña incorrectos."

  /** `email.split('@')[0]`: the text before the first '@', or all of it. */
  function DisplayName(email: string): (name: string)
    ensures name <= email
    ensures '@' !in name
    ensures name == email || email[|name|] == '@'
  {
    var k := Lists.FirstIndex(email, (c: char) => c == '@');
    if k < 0 then email else email[..k]
  }

  /**
   * The record login stores, or why it refused: it succeeds exactly when the
   * first user with the entered email has the entered password.
   */
  function LoginSession(stored: Stored<seq<User>>, email: string, password: string)
    : (r: Result<Session, LoginError>)
    ensures stored.Corrupt? ==> r == Failure(StorageCorrupt)
    ensures stored.Absent? ==> r == Failure(WrongCredentials)
    ensures stored.Present? ==>
      (r.Success? <==>
        (exists k :: 0 <= k < |stored.value| && stored.value[k] == User(email, password) &&
          (forall j :: 0 <= j < k ==> stored.value[j].email != email)))
    ensures r.Failure? && !stored.Corrupt? ==> r.error == WrongCredentials
    ensures r.Success? ==> r.value == Session(Some(email), Some(DisplayName(email)), None)
  {
    if stored.Corrupt? then Failure(StorageCorrupt)
    else
      var users := OrEmpty(stored);
      var k := FindByEmail(users, email);
      if k >= 0 && users[k].password == password then
        Success(Session(Some(users[k].email), Some(DisplayName(users[k].email)), None))
      else Failure(WrongCredentials)
  }

  /** With distinct emails, login succeeds exactly for the registered pairs. */
  lemma LoginIffRegistered(users: seq<User>, email: string, password: string)
    requires DistinctEmails(users)
    ensures LoginSession(Present(users), email, password).Success? <==> User(email, password) in users
  {
    if User(email, password) in users {
      var k :| 0 <= k < |users| && users[k] == User(email, password);
      assert forall j :: 0 <= j < k ==> users[j].email != email;
    }
  }

  /** A user who has just signed up can log in with the same password. */
  lemma SignupThenLogin(stored: Stored<seq<User>>, email: string, password: string)
    requires Signup.SignupUsers(stored, email, password, password).Success?
    ensures LoginSession(Present(Signup.SignupUsers(stored, email, password, password).value), email, password).Success?
  {
    var before := OrEmpty(stored);
    var after := Signup.SignupUsers(stored, email, password, password).value;
    assert after[|before|] == User(email, password);
    assert forall j :: 0 <= j < |before| ==> after[j].email != email by {
      assert !Registered(before, email);
      assert forall j :: 0 <= j < |before| ==> after[j] == before[j];
    }
  }

  /** `handleLogin`: on success the logged-in record is written; on failure nothing is. */
  method HandleLogin(store: AccountStore, email: string, password: string)
    returns (error: Option<LoginError>)
    modifies store
    ensures var r := LoginSession(old(store.users), email, password);
      (error.None? <==> r.Success?) &&
      (r.Failure? ==> error == Some(r.error)) &&
      store.loggedIn == (if r.Success? then Present(r.value) else old(store.loggedIn))
    ensures store.users == old(store.users)
  {
    var r := LoginSession(store.users, email, password);
    if r.Success? {
      store.loggedIn := Present(r.value);
      error := None;
    } else {
      error := Some(r.error);
    }
  }
}
