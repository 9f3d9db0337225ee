/** The third-party libraries the handlers call, as opaque functions: the
    request validator's `isEmail`, bcrypt's `hash` and `compare`, the JSON
    Web Token library's `sign` and `verify`, and gravatar's `url`. Only the
    facts the handlers depend on are assumed of them, in `Libs.Sound`. */
module Libraries {
  import opened Js

  /** A user document's identifier, issued by the store. */
  type UserId = nat

  /** The `user` claim of a session token: `{ id }`. */
  datatype TokenUser = TokenUser(id: UserId)

  /** The payload the handlers sign: `{ user: { id } }`. */
  datatype Claims = Claims(user: TokenUser)

  /** The options passed to gravatar: size, rating and fallback image. */
  datatype GravatarOptions = GravatarOptions(size: string, rating: string, fallback: string)

  /** `{ s: "200", r: "pg", d: "mm" }` */
  const AvatarOptions := GravatarOptions("200", "pg", "mm")

  /** The token lifetime in seconds, `1 * 60 * 60`; it becomes the `exp` claim
      (section 4.1.4 of RFC 7519) 3600 seconds after the `iat` claim. */
  const ExpiresIn: nat := 1 * 60 * 60

  /** The library functions the handlers use. Times are seconds since the epoch.
      - isEmail(s): the validator accepts `s` as an e-mail address
      - hash(password, salt): bcrypt's digest of `password` under `salt`
      - compare(password, digest): bcrypt's check of `password` against `digest`
      - sign(claims, secret, expiresIn, iat): a token for `claims` issued at `iat`
      - verify(token, secret, now): the claims of `token` if it is genuine and
        unexpired at `now`
      - gravatarUrl(email, options): the avatar address for `email` */
  datatype Libs = Libs(
    isEmail: string -> bool,
    hash: (string, string) -> string,
    compare: (string, string) -> bool,
    sign: (Claims, string, nat, nat) -> string,
    verify: (string, string, nat) -> Option<Claims>,
    gravatarUrl: (string, GravatarOptions) -> string)
  {
    /** What the handlers rely on: the empty string is no e-mail address; a
        password matches its own digest; a token is never the empty string; a
        token verifies under the secret that signed it, giving back its claims,
        until `now` reaches `iat + expiresIn`, and is rejected from then on. */
    ghost predicate Sound() {
      && !isEmail("")
      && (forall password, salt :: compare(password, hash(password, salt)))
      && (forall c, secret, e, iat :: sign(c, secret, e, iat) != "")
      && (forall c, secret, e, iat, now ::
            verify(sign(c, secret, e, iat), secret, now)
            == if now < iat + e then Some(c) else None)
    }
  }
}
