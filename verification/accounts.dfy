/**
 * The account rules: AuthController's registration and DataInitializer's demo
 * user. The password encoder is a parameter: only its output is stored, so any
 * function from raw to encoded password will do.
 */
module Accounts {
  import opened Wrappers
  import opened Entities

  const RegisterView := "register"
  const RegisteredRedirect := "redirect:/login?registered"
  const PasswordsDoNotMatch := "Passwords do not match"
  const UsernameTaken := "Username already exists"
  const EmailTaken := "Email already exists"
  const RegistrationSucceeded := "Registration successful! Please login."

  /** The view the handler returns, the model attribute it sets, and the user store after it. */
  datatype RegisterOutcome = RegisterOutcome(
    view: string,
    error: Option<string>,
    success: Option<string>,
    users: seq<User>)

  predicate UsernameExists(users: seq<User>, username: string)
  {
    exists u :: u in users && u.username == username
  }

  predicate EmailExists(users: seq<User>, email: string)
  {
    exists u :: u in users && u.email == email
  }

  /** An enabled account with the single role "USER". */
  function NewUser(id: Id, username: string, email: string, encodedPassword: string): User
  {
    User(id, username, email, encodedPassword, {"USER"}, true)
  }

  /**
   * POST /register. The checks run in a fixed order: matching passwords, then
   * a free username, then a free email. The first that fails sends the user
   * back to the form with its message and saves nothing; when all pass exactly
   * one enabled "USER" account is saved with the encoded password and the
   * browser is redirected to the login page.
   */
  function Register(users: seq<User>, encode: string -> string, username: string, email: string,
                    password: string, confirmPassword: string, freshId: Id): (r: RegisterOutcome)
    ensures password != confirmPassword ==>
      r == RegisterOutcome(RegisterView, Some(PasswordsDoNotMatch), None, users)
    ensures password == confirmPassword && UsernameExists(users, username) ==>
      r == RegisterOutcome(RegisterView, Some(UsernameTaken), None, users)
    ensures password == confirmPassword && !UsernameExists(users, username) && EmailExists(users, email) ==>
      r == RegisterOutcome(RegisterView, Some(EmailTaken), None, users)
    ensures r.view == RegisteredRedirect <==>
      password == confirmPassword && !UsernameExists(users, username) && !EmailExists(users, email)
    ensures r.view == RegisteredRedirect ==>
      && r.users == users + [NewUser(freshId, username, email, encode(password))]
      && r.error.None? && r.success == Some(RegistrationSucceeded)
    ensures r.view != RegisteredRedirect ==> r.view == RegisterView && r.users == users && r.error.Some?
  {
    if password != confirmPassword then
      RegisterOutcome(RegisterView, Some(PasswordsDoNotMatch), None, users)
    else if UsernameExists(users, username) then
      RegisterOutcome(RegisterView, Some(UsernameTaken), None, users)
    else if EmailExists(users, email) then
      RegisterOutcome(RegisterView, Some(EmailTaken), None, users)
    else
      RegisterOutcome(RegisteredRedirect, None, Some(RegistrationSucceeded),
                      users + [NewUser(freshId, username, email, encode(password))])
  }

  /** After a successful registration the same username can never register again,
      whatever the email and passwords. */
  lemma RegisterClaimsUsername(users: seq<User>, encode: string -> string, username: string, email: string,
                               password: string, freshId: Id,
                               email2: string, password2: string, confirm2: string, freshId2: Id)
    requires Register(users, encode, username, email, password, password, freshId).view == RegisteredRedirect
    ensures var users' := Register(users, encode, username, email, password, password, freshId).users;
      var again := Register(users', encode, username, email2, password2, confirm2, freshId2);
      again.view == RegisterView && again.users == users'
  {
    var users' := Register(users, encode, username, email, password, password, freshId).users;
    assert users'[|users|] in users' && users'[|users|].username == username;
  }

  const DemoUsername := "demo"
  const DemoEmail := "demo@example.com"
  const DemoPassword := "demo123"

  /**
   * DataInitializer.run: with no users stored, saves the one demo account
   * (password the encoding of "demo123"); with any user stored, changes nothing.
   */
  function SeedDemoUser(users: seq<User>, encode: string -> string, freshId: Id): (r: seq<User>)
    ensures |users| == 0 ==> |r| == 1 && r[0] == User(freshId, DemoUsername, DemoEmail, encode(DemoPassword), {"USER"}, true)
    ensures |users| != 0 ==> r == users
  {
    if |users| == 0 then [NewUser(freshId, DemoUsername, DemoEmail, encode(DemoPassword))] else users
  }

  /** Running the initializer a second time (at a later start-up) changes nothing more. */
  lemma SeedDemoUserIdempotent(users: seq<User>, encode: string -> string, freshId: Id, laterId: Id)
    ensures SeedDemoUser(SeedDemoUser(users, encode, freshId), encode, laterId) == SeedDemoUser(users, encode, freshId)
  {
  }

  /** The demo account seeded into an empty store reserves the name "demo": registering it again saves nothing. */
  lemma SeededDemoBlocksRegistration(encode: string -> string, freshId: Id, email: string, password: string,
                                     confirm: string, id2: Id)
    ensures var users := SeedDemoUser([], encode, freshId);
      Register(users, encode, DemoUsername, email, password, confirm, id2).users == users
  {
    var users := SeedDemoUser([], encode, freshId);
    assert users[0] in users;
  }
}
