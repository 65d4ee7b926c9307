/**
 * Values shared by the user model, the auth controller and the cart table,
 * and the interface to the three foreign libraries the controller calls
 * (bcrypt, Node's SHA-256 and jsonwebtoken).  The libraries are not
 * modelled: they are a record of functions, and the only facts the model
 * may use about them are the laws collected in `Lawful`.
 */
module Primitives {

  datatype Option<+T> = None | Some(value: T)

  /** Wall-clock time in seconds, as JWT `iat` and `exp` are written. */
  type Time = nat

  /** A store-assigned document id (a Mongo ObjectId). */
  type UserId = nat

  /** The random salt bcrypt draws for every hash. */
  type Salt = nat

  /** JavaScript truthiness of an optional string: absent, null and "" are falsy. */
  predicate Truthy(s: Option<string>)
  {
    s.Some? && s.value != ""
  }

  /** The claims every token of the controller carries: `{ email, id }`. */
  datatype Claims = Claims(email: string, id: UserId)

  /** What a signature check recovers from a token: its claims and its expiry time. */
  datatype Decoded = Decoded(claims: Claims, exp: Time)

  /**
   * The foreign functions.
   *   bcryptHash(password, salt)       bcrypt.hash with a fresh salt
   *   bcryptCompare(password, hash)    bcrypt.compare
   *   sha256Hex(data)                  createHash('sha256').update(data).digest('hex')
   *   jwtSign(claims, secret, ttl, iat)  jwt.sign with expiresIn = ttl seconds, issued at iat
   *   jwtDecode(token, secret)         the signature check of jwt.verify: the payload, if the
   *                                    token was signed with secret
   */
  datatype Crypto = Crypto(
    bcryptHash: (string, Salt) -> string,
    bcryptCompare: (string, string) -> bool,
    sha256Hex: string -> string,
    jwtSign: (Claims, string, nat, Time) -> string,
    jwtDecode: (string, string) -> Option<Decoded>)

  /**
   * The laws the controller relies on: a password matches its own hash;
   * bcrypt hashes, hex digests and signed tokens are never empty strings; a token decodes,
   * under the secret it was signed with, to its claims and to an expiry
   * `ttl` seconds after its issue time.  SHA-256 being deterministic needs
   * no law: `sha256Hex` is a function.
   */
  ghost predicate Lawful(c: Crypto)
  {
    && (forall p, s :: c.bcryptCompare(p, c.bcryptHash(p, s)))
    && (forall p, s :: c.bcryptHash(p, s) != "")
    && (forall d :: c.sha256Hex(d) != "")
    && (forall cl: Claims, secret: string, ttl: nat, iat: Time :: c.jwtSign(cl, secret, ttl, iat) != "")
    && (forall cl: Claims, secret: string, ttl: nat, iat: Time ::
          c.jwtDecode(c.jwtSign(cl, secret, ttl, iat), secret) == Some(Decoded(cl, iat + ttl)))
  }

  /**
   * jwt.verify: the signature check, then the expiry check, which rejects a
   * token once the clock has reached its `exp`.
   */
  function JwtVerify(c: Crypto, token: string, secret: string, now: Time): (r: Option<Claims>)
    ensures r.Some? <==> c.jwtDecode(token, secret).Some? && now < c.jwtDecode(token, secret).value.exp
    ensures r.Some? ==> r.value == c.jwtDecode(token, secret).value.claims
  {
    match c.jwtDecode(token, secret)
    case None => None
    case Some(d) => if now < d.exp then Some(d.claims) else None
  }

  /** Verifying a freshly signed token gives back its claims exactly while it has not expired. */
  lemma SignedTokenVerifies(c: Crypto, cl: Claims, secret: string, ttl: nat, iat: Time, now: Time)
    requires Lawful(c)
    ensures JwtVerify(c, c.jwtSign(cl, secret, ttl, iat), secret, now) ==
            if now < iat + ttl then Some(cl) else None
  {
    assert c.jwtDecode(c.jwtSign(cl, secret, ttl, iat), secret) == Some(Decoded(cl, iat + ttl));
  }
}
