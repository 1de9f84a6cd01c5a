/** The credential login of lib/auth.ts: the `authorize` decision ladder and
    the `jwt` / `session` callbacks. Password checking (`bcrypt.compare`) is an
    uninterpreted predicate `compare(plain, hash)`. */
module Auth {
  import opened Wrappers
  import Decimal

  /** The credential columns of a `user` row. */
  datatype Account = Account(id: int, email: string, password: string, fullName: string, status: string, role: string)

  datatype Credentials = Credentials(email: string, password: string)

  /** The object `authorize` returns on success. */
  datatype AuthUser = AuthUser(id: string, name: string, email: string, role: string)

  /** `authorize` returns null, returns a user, or throws with a message. */
  datatype AuthOutcome = NoUser | Authorized(user: AuthUser) | Rejected(message: string)

  const InvalidCredentials := "Invalid email or password"
  const InactiveAccount := "inactive"

  /** `user.findUnique({ where: { email } })`: the row with that email. */
  function FindByEmail(users: seq<Account>, email: string): (r: Option<Account>)
    ensures r.Some? ==> r.value in users && r.value.email == email
    ensures r.None? ==> forall i :: 0 <= i < |users| ==> users[i].email != email
  {
    if |users| == 0 then None
    else if users[0].email == email then Some(users[0])
    else FindByEmail(users[1..], email)
  }

  function ToAuthUser(a: Account): AuthUser {
    AuthUser(Decimal.IntToString(a.id), a.fullName, a.email, a.role)
  }

  /** `authorize(credentials)`: a missing row and a wrong password draw the same
      message; the password is checked before the status. */
  function Authorize(credentials: Option<Credentials>, users: seq<Account>, compare: (string, string) -> bool): (r: AuthOutcome)
    ensures r.NoUser? <==> credentials.None?
    ensures r.Rejected? ==> r.message in {InvalidCredentials, InactiveAccount}
    ensures r.Authorized? ==>
              exists a :: a in users && a.email == credentials.value.email
                       && compare(credentials.value.password, a.password)
                       && a.status != "INACTIVE" && r.user == ToAuthUser(a)
  {
    if credentials.None? then NoUser
    else
      var found := FindByEmail(users, credentials.value.email);
      if found.Some? && compare(credentials.value.password, found.value.password) then
        if found.value.status == "INACTIVE" then Rejected(InactiveAccount)
        else Authorized(ToAuthUser(found.value))
      else Rejected(InvalidCredentials)
  }

  /** An unknown email is rejected exactly like a wrong password. */
  lemma UnknownEmailLikeWrongPassword(c: Credentials, users: seq<Account>, compare: (string, string) -> bool)
    requires forall i :: 0 <= i < |users| ==> users[i].email != c.email
    ensures Authorize(Some(c), users, compare) == Rejected(InvalidCredentials)
  {
  }

  /** With the emails unique, a wrong password is rejected with the same message
      whatever the status, so an inactive account with a wrong password is not
      told it is inactive. */
  lemma WrongPasswordRejected(c: Credentials, users: seq<Account>, compare: (string, string) -> bool, i: nat)
    requires i < |users| && users[i].email == c.email
    requires forall j :: 0 <= j < |users| && j != i ==> users[j].email != c.email
    requires !compare(c.password, users[i].password)
    ensures Authorize(Some(c), users, compare) == Rejected(InvalidCredentials)
  {
    UniqueEmailFound(users, c.email, i);
  }

  /** An inactive account whose password matches is rejected as inactive and
      never returned. */
  lemma InactiveAccountRejected(c: Credentials, users: seq<Account>, compare: (string, string) -> bool, i: nat)
    requires i < |users| && users[i].email == c.email
    requires forall j :: 0 <= j < |users| && j != i ==> users[j].email != c.email
    requires compare(c.password, users[i].password) && users[i].status == "INACTIVE"
    ensures Authorize(Some(c), users, compare) == Rejected(InactiveAccount)
  {
    UniqueEmailFound(users, c.email, i);
  }

  /** A matching password on an account that is not inactive signs in with the
      account's decimal id, full name, email and role. */
  lemma ActiveAccountAuthorized(c: Credentials, users: seq<Account>, compare: (string, string) -> bool, i: nat)
    requires i < |users| && users[i].email == c.email
    requires forall j :: 0 <= j < |users| && j != i ==> users[j].email != c.email
    requires compare(c.password, users[i].password) && users[i].status != "INACTIVE"
    ensures Authorize(Some(c), users, compare)
            == Authorized(AuthUser(Decimal.IntToString(users[i].id), users[i].fullName, users[i].email, users[i].role))
  {
    UniqueEmailFound(users, c.email, i);
  }

  lemma {:induction false} UniqueEmailFound(users: seq<Account>, email: string, i: nat)
    requires i < |users| && users[i].email == email
    requires forall j :: 0 <= j < |users| && j != i ==> users[j].email != email
    ensures FindByEmail(users, email) == Some(users[i])
    decreases i
  {
    if i > 0 {
      UniqueEmailFound(users[1..], email, i - 1);
    }
  }

  /** The JWT claims the callbacks touch, plus the rest left as they are. */
  datatype Token = Token(id: Option<string>, role: Option<string>, claims: map<string, string>)

  datatype SessionUser = SessionUser(name: Option<string>, email: Option<string>, id: Option<string>, role: Option<string>)

  datatype Session = Session(user: Option<SessionUser>, expires: string)

  /** The `jwt` callback: on sign-in (a user is present) the id and role are
      written into the token; otherwise the token is returned unchanged. */
  function Jwt(token: Token, user: Option<AuthUser>): (r: Token)
    ensures user.None? ==> r == token
    ensures user.Some? ==> r.id == Some(user.value.id) && r.role == Some(user.value.role)
    ensures r.claims == token.claims
  {
    if user.Some? then token.(id := Some(user.value.id), role := Some(user.value.role)) else token
  }

  /** The `session` callback: copies the token's id and role into the session
      user when there is one. */
  function SessionCallback(session: Session, token: Token): (r: Session)
    ensures session.user.None? ==> r == session
    ensures session.user.Some? ==>
              && r.user.Some?
              && r.user.value.id == token.id && r.user.value.role == token.role
              && r.user.value.name == session.user.value.name
              && r.user.value.email == session.user.value.email
    ensures r.expires == session.expires
  {
    if session.user.Some? then session.(user := Some(session.user.value.(id := token.id, role := token.role)))
    else session
  }

  /** After a successful sign-in the session carries the role of the account
      that signed in, and its id reads back as that account's id. */
  lemma SignInIdentifiesAccount(c: Credentials, users: seq<Account>, compare: (string, string) -> bool,
                                token: Token, session: Session)
    requires Authorize(Some(c), users, compare).Authorized?
    requires session.user.Some?
    ensures var r := SessionCallback(session, Jwt(token, Some(Authorize(Some(c), users, compare).user)));
            exists a :: a in users && a.email == c.email && compare(c.password, a.password)
                     && r.user.value.id.Some? && Decimal.JsParseInt(r.user.value.id.value) == Some(a.id)
                     && r.user.value.role == Some(a.role)
  {
    var u := Authorize(Some(c), users, compare).user;
    var a :| a in users && a.email == c.email && compare(c.password, a.password)
             && a.status != "INACTIVE" && u == ToAuthUser(a);
    Decimal.ParseIntOfIntToString(a.id);
  }
}
