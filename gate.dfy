/** The authentication middleware (middleware/auth.js): it reads the
    `x-auth-token` header and either rejects the request or attaches the
    token's `user` claim to it and hands it on to the next handler. */
module Gate {
  import opened Js
  import opened Libraries
  import opened Http

  const TokenHeader := "x-auth-token"

  /** The part of an incoming request the middleware reads and writes. Header
      names are lower-case, as Node delivers them. */
  class Request {
    var headers: map<string, string>
    var user: Option<TokenUser>

    constructor (headers: map<string, string>)
      ensures this.headers == headers && user == None
    {
      this.headers := headers;
      user := None;
    }
  }

  /** `req.header(name)`: the header's value, or `undefined`. */
  function Header(headers: map<string, string>, name: string): (v: Option<string>)
    ensures v.Some? <==> name in headers
    ensures v.Some? ==> v.value == headers[name]
  {
    if name in headers then Some(headers[name]) else None
  }

  /** The three ways the middleware can decide. */
  datatype Decision = NoToken | InvalidToken | Authenticated(user: TokenUser)

  /** The decision for the header value `token` at time `now`: no (or an empty)
      token, a token that does not verify, or the `user` claim of one that does. */
  function Decide(token: Option<string>, libs: Libs, secret: string, now: nat): (d: Decision)
    ensures d == NoToken <==> !Truthy(token)
    ensures d == InvalidToken <==> Truthy(token) && libs.verify(token.value, secret, now) == None
    ensures d.Authenticated? ==> Truthy(token) && libs.verify(token.value, secret, now) == Some(Claims(d.user))
  {
    if !Truthy(token) then NoToken
    else match libs.verify(token.value, secret, now)
      case None => InvalidToken
      case Some(decoded) => Authenticated(decoded.user)
  }

  /** Either `next()` is called, or a response is sent and the chain stops. */
  datatype GateOutcome = Next | Halt(response: Response<()>)

  /** The middleware itself. It sends 401 "No Token" when the header is missing
      or empty, 500 "Invalid Token" when verification fails, and otherwise sets
      `req.user` to the decoded `user` claim and calls `next` once. Only the
      last path changes the request. */
  method Authenticate(req: Request, libs: Libs, secret: string, now: nat) returns (out: GateOutcome)
    modifies req`user
    ensures var d := Decide(Header(req.headers, TokenHeader), libs, secret, now);
            && (d == NoToken ==> out == Halt(Fail(401, "No Token")) && req.user == old(req.user))
            && (d == InvalidToken ==> out == Halt(Fail(500, "Invalid Token")) && req.user == old(req.user))
            && (d.Authenticated? ==> out == Next && req.user == Some(d.user))
  {
    var token := Header(req.headers, TokenHeader);
    if !Truthy(token) {
      return Halt(Fail(401, "No Token"));
    }
    var decoded := libs.verify(token.value, secret, now);
    if decoded.None? {
      return Halt(Fail(500, "Invalid Token"));
    }
    req.user := Some(decoded.value.user);
    out := Next;
  }

  /** A token signed for user `id` at `issuedAt` with the handlers' lifetime is
      accepted, with `user` claim `{ id }`, exactly while `now` is before
      `issuedAt + 3600`, and rejected as invalid from then on. */
  lemma IssuedTokenDecision(libs: Libs, secret: string, id: UserId, issuedAt: nat, now: nat)
    requires libs.Sound()
    ensures var token := libs.sign(Claims(TokenUser(id)), secret, ExpiresIn, issuedAt);
            Decide(Some(token), libs, secret, now)
            == if now < issuedAt + 3600 then Authenticated(TokenUser(id)) else InvalidToken
  {
  }
}
