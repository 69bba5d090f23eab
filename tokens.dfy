/**
 * Session tokens. Signing is abstract: a token stands for the claims it
 * carries. Verification is an abstract `decode` (signature check and parse,
 * failing on a malformed or badly signed token) followed by the expiry check
 * of section 4.1.4 of RFC 7519, which rejects a token once the clock has
 * reached its `exp`.
 */
module Tokens {
  import opened Wrappers
  import opened Users

  /** The claims `{ id, email, estado, rol }` plus the `iat` and `exp` the signer adds. */
  datatype Claims = Claims(id: int, email: Option<string>, estado: Estado, rol: Rol, iat: Time, exp: Time)

  /** `expiresIn: '8h'` in routes/auth.js. */
  const RouteTokenLifetime: nat := 8 * 60 * 60
  /** `expiresIn: '1h'` in auth.js. */
  const LegacyTokenLifetime: nat := 60 * 60

  /** `jwt.sign({ id, email, estado, rol }, secret, { expiresIn: lifetime })` at time `now`. */
  function Sign(u: UserRecord, now: Time, lifetime: nat): (c: Claims)
    ensures c.id == u.id && c.email == u.email && c.estado == u.estado && c.rol == u.rol
    ensures c.iat == now && c.exp == now + lifetime
  {
    Claims(u.id, u.email, u.estado, u.rol, now, now + lifetime)
  }

  /** The expiry rule: a token is usable strictly before its `exp`. */
  predicate Unexpired(c: Claims, now: Time) {
    now < c.exp
  }

  /** `jwt.verify(token, secret)` at time `now`: None is any thrown error. */
  function VerifyAt(decode: string -> Option<Claims>, token: string, now: Time): (r: Option<Claims>)
    ensures r.Some? <==> decode(token).Some? && Unexpired(decode(token).value, now)
    ensures r.Some? ==> r == decode(token)
  {
    match decode(token)
    case None => None
    case Some(c) => if Unexpired(c, now) then Some(c) else None
  }

  /**
   * A token signed at `issued` with lifetime `lifetime` verifies at `now`
   * exactly when `now` lies before `issued + lifetime`, and then yields the
   * signed claims.
   */
  lemma SignedTokenLifetime(decode: string -> Option<Claims>, token: string, u: UserRecord, issued: Time, lifetime: nat, now: Time)
    requires decode(token) == Some(Sign(u, issued, lifetime))
    ensures VerifyAt(decode, token, now).Some? <==> now < issued + lifetime
    ensures VerifyAt(decode, token, now).Some? ==> VerifyAt(decode, token, now).value.id == u.id
  {
  }
}
