/** The account handlers of routes/api/auth.js over the user collection:
    `GET /api/auth`, `POST /api/auth/login` and `POST /api/auth/register`. */
module Accounts {
  import opened Js
  import opened Libraries
  import opened Http

  type Email = string

  /** A user document; `password` holds the bcrypt digest once saved. */
  datatype User = User(id: UserId, name: string, email: Email, password: string, avatar: string)

  /** A user document without its password, as `select("-password")` returns it. */
  datatype PublicUser = PublicUser(id: UserId, name: string, email: Email, avatar: string)

  function Public(u: User): PublicUser {
    PublicUser(u.id, u.name, u.email, u.avatar)
  }

  /** The successful payloads of these handlers: `{ token }` and `{ user }`. */
  datatype AuthPayload = Token(token: string) | CurrentUser(user: Option<PublicUser>)

  datatype LoginInput = LoginInput(email: Option<string>, password: Option<string>)
  datatype RegisterInput = RegisterInput(name: Option<string>, email: Option<string>, password: Option<string>)

  /** The validation errors of a login body, in the order the checks are declared:
      the e-mail must be an e-mail address and the password must be present. */
  function LoginErrors(b: LoginInput, libs: Libs): (errs: seq<ErrorItem>)
    requires libs.Sound()
    ensures errs == [] <==> b.email.Some? && libs.isEmail(b.email.value) && b.password.Some?
    ensures |errs| <= 2
  {
    (if libs.isEmail(ToStr(b.email)) then [] else [ErrorItem(b.email, "Please enter a valid email")])
    + (if b.password.Some? then [] else [ErrorItem(None, "Please enter password")])
  }

  /** The validation errors of a register body, in declaration order: a name,
      an e-mail address and a password of at least 8 characters are required. */
  function RegisterErrors(b: RegisterInput, libs: Libs): (errs: seq<ErrorItem>)
    requires libs.Sound()
    ensures errs == [] <==> && Truthy(b.name)
                            && b.email.Some? && libs.isEmail(b.email.value)
                            && b.password.Some? && |b.password.value| >= 8
    ensures |errs| <= 3
  {
    (if ToStr(b.name) != "" then [] else [ErrorItem(b.name, "Name is required")])
    + (if libs.isEmail(ToStr(b.email)) then [] else [ErrorItem(b.email, "Please enter a valid email")])
    + (if |ToStr(b.password)| >= 8 then [] else [ErrorItem(b.password, "Enter password with 8 or more characters")])
  }

  /** The one response for both an unknown e-mail and a wrong password. */
  function InvalidCredentials(email: Email): (r: Response<AuthPayload>)
    ensures r.status == 401 && r.body.Errors? && |r.body.errors| == 1
    ensures r.body.errors[0].value == Some(email) && r.body.errors[0].msg == "Invalid Credentials"
  {
    Response(401, Errors([ErrorItem(Some(email), "Invalid Credentials")]))
  }

  /** The response carrying a fresh session token for user `id`. */
  function TokenResponse(id: UserId, libs: Libs, secret: string, now: nat): (r: Response<AuthPayload>)
    ensures r.status == 200 && r.body.Ok? && r.body.payload.Token?
    ensures libs.Sound() ==> r.body.payload.token != ""
    ensures libs.Sound() ==>
              forall later: nat :: libs.verify(r.body.payload.token, secret, later)
                              == if later < now + ExpiresIn then Some(Claims(TokenUser(id))) else None
  {
    Response(200, Ok(Token(libs.sign(Claims(TokenUser(id)), secret, ExpiresIn, now))))
  }

  /** What `POST /api/auth/login` answers for body `b` against `users` at time
      `now`: 400 with the validation errors before looking anything up; the
      same 401 "Invalid Credentials" for an unknown e-mail as for a wrong
      password; otherwise a token for the stored user's id. */
  function LoginResponse(users: map<Email, User>, b: LoginInput, libs: Libs, secret: string, now: nat)
    : (r: Response<AuthPayload>)
    requires libs.Sound()
    ensures LoginErrors(b, libs) != [] ==> r == Response(400, Errors(LoginErrors(b, libs)))
    ensures LoginErrors(b, libs) == [] ==>
              if b.email.value in users && libs.compare(b.password.value, users[b.email.value].password)
              then r == TokenResponse(users[b.email.value].id, libs, secret, now)
              else r == InvalidCredentials(b.email.value)
  {
    var errs := LoginErrors(b, libs);
    if errs != [] then Response(400, Errors(errs))
    else if b.email.value !in users then InvalidCredentials(b.email.value)
    else if !libs.compare(b.password.value, users[b.email.value].password) then InvalidCredentials(b.email.value)
    else TokenResponse(users[b.email.value].id, libs, secret, now)
  }

  /** The user document `register` saves: the plaintext password replaced by
      its digest and the avatar derived from the e-mail. */
  function NewUser(id: UserId, name: string, email: Email, password: string, salt: string, libs: Libs): (u: User)
    ensures u.id == id && u.name == name && u.email == email
    ensures u.avatar == libs.gravatarUrl(email, AvatarOptions)
    ensures libs.Sound() ==> libs.compare(password, u.password)
  {
    User(id, name, email, libs.hash(password, salt), libs.gravatarUrl(email, AvatarOptions))
  }

  /** The user collection. Documents are keyed by e-mail, so an e-mail belongs
      to at most one user; `nextId` is the identifier the store hands out next. */
  class UserStore {
    var users: map<Email, User>
    var nextId: UserId

    ghost predicate Valid()
      reads this
    {
      && (forall e :: e in users ==> users[e].email == e && users[e].id < nextId)
      && (forall e1, e2 :: e1 in users && e2 in users && users[e1].id == users[e2].id ==> e1 == e2)
    }

    constructor ()
      ensures Valid() && users == map[] && nextId == 0
    {
      users := map[];
      nextId := 0;
    }

    /** `GET /api/auth`: the authenticated user without the password, or
        `null` when no user has that id (any more). */
    method Me(user: TokenUser) returns (resp: Response<AuthPayload>)
      requires Valid()
      ensures forall e :: e in users && users[e].id == user.id ==>
                resp == Response(200, Ok(CurrentUser(Some(Public(users[e])))))
      ensures (forall e :: e in users ==> users[e].id != user.id) ==>
                resp == Response(200, Ok(CurrentUser(None)))
    {
      if e :| e in users && users[e].id == user.id {
        resp := Response(200, Ok(CurrentUser(Some(Public(users[e])))));
      } else {
        resp := Response(200, Ok(CurrentUser(None)));
      }
    }

    /** `POST /api/auth/login`: the early-return handler; it changes nothing. */
    method Login(b: LoginInput, libs: Libs, secret: string, now: nat) returns (resp: Response<AuthPayload>)
      requires libs.Sound()
      ensures resp == LoginResponse(users, b, libs, secret, now)
    {
      var errs := LoginErrors(b, libs);
      if errs != [] {
        return Response(400, Errors(errs));
      }
      var email, password := b.email.value, b.password.value;
      if email !in users {
        return InvalidCredentials(email);
      }
      var user := users[email];
      var chkPassword := libs.compare(password, user.password);
      if !chkPassword {
        return InvalidCredentials(email);
      }
      resp := TokenResponse(user.id, libs, secret, now);
    }

    /** `POST /api/auth/register` with the salt bcrypt generated. It answers 400
        with the validation errors, or 400 "User already registered" for a known
        e-mail, leaving the store as it was; otherwise it saves exactly one new
        user, holding the digest of the password and the e-mail's avatar, under
        a new id, and answers with a token for that id. */
    method Register(b: RegisterInput, salt: string, libs: Libs, secret: string, now: nat)
      returns (resp: Response<AuthPayload>)
      requires Valid() && libs.Sound()
      modifies this
      ensures Valid()
      ensures RegisterErrors(b, libs) != [] ==>
                && resp == Response(400, Errors(RegisterErrors(b, libs)))
                && users == old(users) && nextId == old(nextId)
      ensures RegisterErrors(b, libs) == [] && b.email.value in old(users) ==>
                && resp == Response(400, Errors([ErrorItem(b.email, "User already registered")]))
                && users == old(users) && nextId == old(nextId)
      ensures RegisterErrors(b, libs) == [] && b.email.value !in old(users) ==>
                && users == old(users)[b.email.value :=
                     NewUser(old(nextId), b.name.value, b.email.value, b.password.value, salt, libs)]
                && nextId == old(nextId) + 1
                && resp == TokenResponse(old(nextId), libs, secret, now)
    {
      var errs := RegisterErrors(b, libs);
      if errs != [] {
        return Response(400, Errors(errs));
      }
      var name, email, password := b.name.value, b.email.value, b.password.value;
      if email in users {
        return Response(400, Errors([ErrorItem(Some(email), "User already registered")]));
      }
      var avatar := libs.gravatarUrl(email, AvatarOptions);
      var user := User(nextId, name, email, password, avatar);
      user := user.(password := libs.hash(password, salt));
      users := users[email := user];
      nextId := nextId + 1;
      resp := TokenResponse(user.id, libs, secret, now);
    }

    /** `User.findOneAndRemove({ _id: id })`: whether a user had that id; it is gone afterwards. */
    method RemoveById(id: UserId) returns (existed: bool)
      requires Valid()
      modifies this
      ensures Valid() && nextId == old(nextId)
      ensures existed <==> exists e :: e in old(users) && old(users)[e].id == id
      ensures users == map e | e in old(users) && old(users)[e].id != id :: old(users)[e]
    {
      existed := exists e :: e in users && users[e].id == id;
      users := map e | e in users && users[e].id != id :: users[e];
    }
  }

  /** A freshly registered user can log in with the password they registered
      with, and gets a token for their new id. */
  lemma LoginAfterRegister(users: map<Email, User>, id: UserId, name: string, email: Email,
                           password: string, salt: string, libs: Libs, secret: string, now: nat)
    requires libs.Sound() && libs.isEmail(email)
    ensures LoginResponse(users[email := NewUser(id, name, email, password, salt, libs)],
                          LoginInput(Some(email), Some(password)), libs, secret, now)
            == TokenResponse(id, libs, secret, now)
  {
  }

  /** Anti-enumeration: with a valid body, an e-mail nobody registered and a
      registered e-mail with the wrong password get the very same response. */
  lemma FailuresIndistinguishable(unknown: map<Email, User>, known: map<Email, User>,
                                  b: LoginInput, libs: Libs, secret: string, now: nat)
    requires libs.Sound() && LoginErrors(b, libs) == []
    requires b.email.value !in unknown
    requires b.email.value in known && !libs.compare(b.password.value, known[b.email.value].password)
    ensures LoginResponse(unknown, b, libs, secret, now) == LoginResponse(known, b, libs, secret, now)
    ensures LoginResponse(known, b, libs, secret, now).status == 401
  {
  }
}
