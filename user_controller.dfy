/**
 * Registration and login over an in-memory user collection. Password
 * comparison (bcrypt) and token signing (a JSON Web Token, RFC 7519, signed
 * with the process-wide secret) are opaque: they are the two functions of a
 * `Crypto` value. Signing is a function of the user id alone.
 */
module UserController {
  import opened Wrappers
  import opened Http

  type UserId = nat
  type Token = string

  /** A stored user; `password` is whatever the user document stores for the password. */
  datatype User = User(id: UserId, username: string, email: string, password: string)

  /** The body of `POST /users/register`. */
  datatype Registration = Registration(username: string, email: string, password: string)

  /** `bcrypt.compare(password, stored)` and `jwt.sign({ id }, secret)`. */
  datatype Crypto = Crypto(matches: (string, string) -> bool, sign: UserId -> Token)

  /** The `{ user, token }` body of a successful register or login. */
  datatype Session = Session(user: User, token: Token)

  const InvalidCredentials: string := "Invalid login credentials"
  /** The store's answer to a second user with an `_id` or an email already in use. */
  const DuplicateKey: string := "E11000 duplicate key error"

  ghost predicate UniqueIds(users: seq<User>)
  {
    forall i, j :: 0 <= i < j < |users| ==> users[i].id != users[j].id
  }

  ghost predicate UniqueEmails(users: seq<User>)
  {
    forall i, j :: 0 <= i < j < |users| ==> users[i].email != users[j].email
  }

  predicate EmailTaken(users: seq<User>, email: string)
  {
    exists u :: u in users && u.email == email
  }

  predicate IdTaken(users: seq<User>, id: UserId)
  {
    exists u :: u in users && u.id == id
  }

  /** `User.findOne({ email })`: the position of the first user with that email. */
  function FindByEmail(users: seq<User>, email: string): (r: Option<nat>)
    ensures r.Some? ==> r.value < |users| && users[r.value].email == email
    ensures r.Some? ==> forall j :: 0 <= j < r.value ==> users[j].email != email
    ensures r.None? <==> !EmailTaken(users, email)
  {
    if users == [] then None
    else if users[0].email == email then Some(0)
    else
      assert forall u :: u in users ==> u == users[0] || u in users[1..];
      match FindByEmail(users[1..], email)
      case None => None
      case Some(i) => Some(i + 1)
  }

  /** With unique emails, the user found by email is the only user with it. */
  lemma FindByEmailUnique(users: seq<User>, i: nat)
    requires UniqueEmails(users) && i < |users|
    ensures FindByEmail(users, users[i].email) == Some(i)
  {
  }

  /**
   * `login`: an unknown email and a wrong password fail alike with 400 and
   * "Invalid login credentials"; otherwise the user found by email is
   * returned with a token signed over that user's id.
   */
  function Login(users: seq<User>, crypto: Crypto, email: string, password: string): (r: Reply<Session>)
    ensures r.Failed? ==> r == Failed(BadRequest, InvalidCredentials)
    ensures r.Ok? <==> (FindByEmail(users, email).Some? &&
      crypto.matches(password, users[FindByEmail(users, email).value].password))
    ensures r.Ok? ==> (r.status == Success && r.value.user in users && r.value.user.email == email &&
      crypto.matches(password, r.value.user.password) && r.value.token == crypto.sign(r.value.user.id))
  {
    match FindByEmail(users, email)
    case None => Failed(BadRequest, InvalidCredentials)
    case Some(i) =>
      if !crypto.matches(password, users[i].password) then Failed(BadRequest, InvalidCredentials)
      else Ok(Success, Session(users[i], crypto.sign(users[i].id)))
  }

  /** An email nobody registered fails with the uniform credentials error. */
  lemma LoginUnknownEmail(users: seq<User>, crypto: Crypto, email: string, password: string)
    requires forall u :: u in users ==> u.email != email
    ensures Login(users, crypto, email, password) == Failed(BadRequest, InvalidCredentials)
  {
  }

  /** A registered email with a password that does not match fails with the very same reply. */
  lemma LoginWrongPassword(users: seq<User>, crypto: Crypto, u: User, password: string)
    requires UniqueEmails(users) && u in users
    requires !crypto.matches(password, u.password)
    ensures Login(users, crypto, u.email, password) == Failed(BadRequest, InvalidCredentials)
  {
  }

  /** A registered user with a matching password logs in as exactly that user. */
  lemma LoginSucceeds(users: seq<User>, crypto: Crypto, u: User, password: string)
    requires UniqueEmails(users) && u in users
    requires crypto.matches(password, u.password)
    ensures Login(users, crypto, u.email, password) == Ok(Success, Session(u, crypto.sign(u.id)))
  {
  }

  /**
   * Logging in right after registering `u` (with an email nobody had)
   * succeeds exactly when the password matches what `u` stores, and then
   * yields `u`; logins with other emails are unaffected.
   */
  lemma LoginAfterRegister(users: seq<User>, crypto: Crypto, u: User, email: string, password: string)
    requires !EmailTaken(users, u.email)
    ensures Login(users + [u], crypto, u.email, password) ==
      if crypto.matches(password, u.password) then Ok(Success, Session(u, crypto.sign(u.id)))
      else Failed(BadRequest, InvalidCredentials)
    ensures email != u.email ==> Login(users + [u], crypto, email, password) == Login(users, crypto, email, password)
  {
    FindByEmailAppend(users, u, u.email);
    FindByEmailAppend(users, u, email);
  }

  lemma {:induction false} FindByEmailAppend(users: seq<User>, u: User, email: string)
    ensures FindByEmail(users + [u], email) ==
      if EmailTaken(users, email) then FindByEmail(users, email)
      else if u.email == email then Some(|users|)
      else None
  {
    if users != [] {
      assert (users + [u])[1..] == users[1..] + [u];
      FindByEmailAppend(users[1..], u, email);
      assert EmailTaken(users, email) <==> users[0].email == email || EmailTaken(users[1..], email);
    }
  }

  /** The user collection, with the validation a save runs and the crypto primitives. */
  class UserStore {
    var users: seq<User>
    /** Mongoose validation of a user document about to be saved: `None`, or the validation message. */
    const validate: User -> Option<string>
    const crypto: Crypto

    ghost predicate Valid()
      reads this
    {
      UniqueIds(users) && UniqueEmails(users)
    }

    constructor (validate: User -> Option<string>, crypto: Crypto)
      ensures Valid() && users == [] && this.validate == validate && this.crypto == crypto
    {
      users := [];
      this.validate := validate;
      this.crypto := crypto;
    }

    /**
     * `register`: saves the new user and answers 201 with a token signed
     * over its id; a save the store refuses (validation, an id or an email in
     * use) answers 400 with the error message, issues no token and changes
     * nothing.
     */
    method Register(freshId: UserId, form: Registration) returns (reply: Reply<Session>)
      requires Valid()
      modifies this
      ensures Valid()
      ensures var u := User(freshId, form.username, form.email, form.password);
        if validate(u).Some? then reply == Failed(BadRequest, validate(u).value) && users == old(users)
        else if IdTaken(old(users), freshId) || EmailTaken(old(users), form.email) then
          reply == Failed(BadRequest, DuplicateKey) && users == old(users)
        else reply == Ok(Created, Session(u, crypto.sign(freshId))) && users == old(users) + [u]
    {
      var user := User(freshId, form.username, form.email, form.password);
      var verdict := validate(user);
      if verdict.Some? {
        return Failed(BadRequest, verdict.value);
      }
      if IdTaken(users, freshId) || EmailTaken(users, form.email) {
        return Failed(BadRequest, DuplicateKey);
      }
      users := users + [user];
      reply := Ok(Created, Session(user, crypto.sign(user.id)));
    }
  }
}
