/**
 * Registration (`POST /api/register`, server.js:45) and login
 * (`POST /api/login`, server.js:46) over the `users` table.
 *
 * bcrypt is a foreign library: hashing is the parameter `hash` and
 * `bcrypt.compare` the parameter `matches`.
 */
module Accounts {
  import opened Wrappers
  import opened Tables

  /** The user fields a response carries; there is no password in it. */
  datatype UserView = UserView(id: int, name: string, email: string)

  function View(u: User): UserView {
    UserView(u.id, u.name, u.email)
  }

  datatype RegisterOutcome =
    | Registered(user: UserView)  // 201 with id, name and email
    | EmailTaken                  // 409: the UNIQUE constraint on email (error 23505)
    | RegisterError               // 500: bcrypt threw, or a NOT NULL column got NULL
  {
    function Status(): int {
      match this
      case Registered(_) => 201
      case EmailTaken => 409
      case RegisterError => 500
    }
  }

  datatype LoginOutcome =
    | LoggedIn(user: UserView)  // 200 with id, name and email
    | UserNotFound              // 404
    | WrongPassword             // 401
    | LoginError                // 500: bcrypt.compare threw on a missing password
  {
    function Status(): int {
      match this
      case LoggedIn(_) => 200
      case UserNotFound => 404
      case WrongPassword => 401
      case LoginError => 500
    }
  }

  /**
   * The response and the database after one `POST /api/register` with body
   * `{name, email, password}` (absent fields are `None`). The password is
   * hashed first; the INSERT then draws a user id, checks NOT NULL on name
   * and email, and then the uniqueness of the email.
   */
  function SignUp(db: Db, name: Option<string>, email: Option<string>, password: Option<string>,
                  hash: string -> string): (r: (RegisterOutcome, Db))
    ensures r.0 == RegisterError <==> name.None? || email.None? || password.None?
    ensures r.0 == EmailTaken <==>
      name.Some? && email.Some? && password.Some? && email.value in Emails(db.users)
    ensures name.Some? && email.Some? && password.Some? && email.value !in Emails(db.users) ==>
      r.0.Registered? && r.0.user.id == db.userSeq
    ensures !r.0.Registered? ==> r.1.users == db.users
    ensures r.0.Registered? ==>
      && name.Some? && email.Some? && password.Some?
      && email.value !in Emails(db.users)
      && r.1.users == db.users + [User(r.0.user.id, name.value, email.value, hash(password.value))]
      && r.0.user == UserView(r.0.user.id, name.value, email.value)
    ensures SameTables(db, r.1.(users := db.users))
    ensures r.1.orderSeq == db.orderSeq && r.1.itemSeq == db.itemSeq
    ensures r.1.userSeq == if password.Some? then db.userSeq + 1 else db.userSeq
    ensures UsersWellFormed(db.users, db.userSeq) ==>
      && UsersWellFormed(r.1.users, r.1.userSeq)
      && (r.0.Registered? ==> r.0.user.id !in UserIds(db.users))
  {
    if password.None? then (RegisterError, db)
    else
      var afterInsert := db.(userSeq := db.userSeq + 1);
      if name.None? || email.None? then (RegisterError, afterInsert)
      else if email.value in Emails(db.users) then (EmailTaken, afterInsert)
      else
        var u := User(db.userSeq, name.value, email.value, hash(password.value));
        (Registered(View(u)), afterInsert.(users := db.users + [u]))
  }

  /** The first row whose email is `email`: `SELECT * FROM users WHERE email = $1`, row 0. */
  function FindByEmail(users: seq<User>, email: string): (r: Option<User>)
    ensures r.None? <==> email !in Emails(users)
    ensures r.Some? ==> r.value in users && r.value.email == email
  {
    if users == [] then None
    else if users[0].email == email then Some(users[0])
    else
      var rest := FindByEmail(users[1..], email);
      assert Emails(users) == {users[0].email} + Emails(users[1..]) by {
        assert users == [users[0]] + users[1..];
      }
      rest
  }

  /**
   * The response to one `POST /api/login` with body `{email, password}`.
   * An absent email matches no row; an absent password makes bcrypt throw.
   */
  function Login(users: seq<User>, email: Option<string>, password: Option<string>,
                 matches: (string, string) -> bool): (r: LoginOutcome)
    ensures r == UserNotFound <==> email.None? || email.value !in Emails(users)
    ensures r == LoginError <==> email.Some? && email.value in Emails(users) && password.None?
    ensures r == WrongPassword ==>
      password.Some? && exists u :: u in users && u.email == email.value && !matches(password.value, u.passwordHash)
    ensures r.LoggedIn? ==>
      password.Some? &&
      exists u :: u in users && u.email == email.value && matches(password.value, u.passwordHash) && r.user == View(u)
  {
    if email.None? then UserNotFound
    else
      match FindByEmail(users, email.value)
      case None => UserNotFound
      case Some(u) =>
        if password.None? then LoginError
        else if !matches(password.value, u.passwordHash) then WrongPassword
        else LoggedIn(View(u))
  }

  /** With unique emails, the lookup returns the one user who has that email. */
  lemma FindByEmailUnique(users: seq<User>, i: nat)
    requires i < |users|
    requires forall a, b :: 0 <= a < b < |users| ==> users[a].email != users[b].email
    ensures FindByEmail(users, users[i].email) == Some(users[i])
  {
  }

  /**
   * With unique emails, login with a registered email and a password is
   * decided by that user's hash alone: success with the user's id, name and
   * email when it matches, 401 when it does not.
   */
  lemma LoginDecision(users: seq<User>, i: nat, password: string, matches: (string, string) -> bool)
    requires i < |users|
    requires forall a, b :: 0 <= a < b < |users| ==> users[a].email != users[b].email
    ensures Login(users, Some(users[i].email), Some(password), matches) ==
      if matches(password, users[i].passwordHash) then LoggedIn(View(users[i])) else WrongPassword
  {
  }

  /** A registered email with a password that does not match its hash is refused with 401. */
  lemma WrongPasswordRefused(db: Db, i: nat, password: string, matches: (string, string) -> bool)
    requires Consistent(db)
    requires i < |db.users| && !matches(password, db.users[i].passwordHash)
    ensures Login(db.users, Some(db.users[i].email), Some(password), matches) == WrongPassword
  {
  }

  /**
   * Registering the same email twice: the second attempt answers 409 and the
   * first user's row is untouched.
   */
  lemma DuplicateEmailRefused(db: Db, name1: string, name2: string, email: string, pw1: string, pw2: string,
                              hash: string -> string)
    requires SignUp(db, Some(name1), Some(email), Some(pw1), hash).0.Registered?
    ensures var db1 := SignUp(db, Some(name1), Some(email), Some(pw1), hash).1;
            var (second, db2) := SignUp(db1, Some(name2), Some(email), Some(pw2), hash);
            && second == EmailTaken
            && db2.users == db1.users
            && db2.users[|db.users|] == User(db.userSeq, name1, email, hash(pw1))
  {
  }

  /**
   * Registration followed by login: the new user can log in with the
   * password they registered with, and gets back the same id, name and email.
   */
  lemma RegisterThenLogin(db: Db, name: string, email: string, password: string,
                          hash: string -> string, matches: (string, string) -> bool)
    requires Consistent(db)
    requires SignUp(db, Some(name), Some(email), Some(password), hash).0.Registered?
    requires matches(password, hash(password))
    ensures var (out, after) := SignUp(db, Some(name), Some(email), Some(password), hash);
            Login(after.users, Some(email), Some(password), matches) == LoggedIn(out.user)
  {
  }

  /** Registration keeps every schema constraint of the database. */
  lemma SignUpPreservesConsistency(db: Db, name: Option<string>, email: Option<string>, password: Option<string>,
                                   hash: string -> string)
    requires Consistent(db)
    ensures Consistent(SignUp(db, name, email, password, hash).1)
  {
  }
}
