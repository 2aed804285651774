/**
 * The foreign primitives the service calls (bcrypt for passwords, jsonwebtoken
 * for access tokens), left uninterpreted, and generateAccessToken.
 */
module Tokens {
  import opened Wrappers
  import opened JsValues
  import opened Store

  /** The payload generateAccessToken signs: `{user_id, email}`. */
  datatype TokenPayload = TokenPayload(userId: ObjectId, email: JsValue)

  /** The option object passed to jwt.sign; its expiry is an opaque value. */
  datatype SignOptions = SignOptions(expiresIn: string)

  /** The error object jwt.verify hands its callback. */
  datatype TokenError = TokenError(name: string, message: string)

  datatype Verification = Verified(payload: TokenPayload) | Rejected(error: TokenError)

  /**
   * bcrypt.hash, bcrypt.compare, jwt.sign and jwt.verify, supplied by the
   * caller. The two bcrypt calls return promises that reject (None) when the
   * plaintext is missing or not a string.
   */
  datatype Crypto = Crypto(
    hash: (JsValue, nat) -> Option<string>,
    compare: (JsValue, string) -> Option<bool>,
    sign: (TokenPayload, string, SignOptions) -> string,
    verify: (JsValue, string) -> Verification)

  /** The bcrypt work factor used at signup. */
  const SaltRounds: nat := 12

  const ThreeDays := SignOptions("3d")

  /** What bcrypt promises: a password it hashes matches its own hash. */
  ghost predicate HashMatches(crypto: Crypto) {
    forall pw :: crypto.hash(pw, SaltRounds).Some? ==> crypto.compare(pw, crypto.hash(pw, SaltRounds).value) == Some(true)
  }

  /** What jsonwebtoken promises for a fresh token: it verifies, under the same secret, to what was signed; and it holds no space. */
  ghost predicate TokensVerify(crypto: Crypto, secret: string) {
    forall p :: ' ' !in crypto.sign(p, secret, ThreeDays)
                && crypto.verify(Str(crypto.sign(p, secret, ThreeDays)), secret) == Verified(p)
  }

  /**
   * generateAccessToken(id, email): a token signed over `{user_id: id, email}`
   * that expires in three days; a fresh one verifies to exactly that payload.
   */
  function GenerateAccessToken(crypto: Crypto, secret: string, id: ObjectId, email: JsValue): (token: string)
    ensures TokensVerify(crypto, secret) ==>
      ' ' !in token && crypto.verify(Str(token), secret) == Verified(TokenPayload(id, email))
  {
    crypto.sign(TokenPayload(id, email), secret, ThreeDays)
  }
}
