/**
 The access token, seen through its claims. Signing and parsing are delegated by the
 service to the golang-jwt library (JWS per RFC 7515, HMAC-SHA-512 per section 3.2 of
 RFC 7518); the model keeps only what the service decides: the signing method it
 insists on, the claims it writes and the claims it reads back.
 */
module Jwt {
  import opened Wrappers

  /** The `alg` header of a token. Only `HS512` is accepted by the service. */
  datatype Alg = HS256 | HS384 | HS512 | OtherAlg(name: string)

  /** The claims the service reads: `sub` and `ip` (strings) and `exp` (Unix seconds). */
  datatype Claims = Claims(sub: Option<string>, ip: Option<string>, exp: Option<int>)

  /**
   A presented access token: either a string that does not parse as a JWS, or a
   parsed token with its declared algorithm, its claims and whether its signature
   is a valid MAC under the server's secret for that algorithm.
   */
  datatype AccessToken = Malformed | Jws(alg: Alg, claims: Claims, signedWithSecret: bool)

  /** Why a presented access token is refused. */
  datatype JwtError = Unparseable | AlgorithmMismatch | SignatureInvalid | Expired

  /** Lifetime of an access token: ten minutes, in seconds. */
  const Lifetime: int := 600

  /** The claims `generateAccessToken` writes for a user at an address and a time. */
  function MintClaims(userId: string, ip: string, now: int): Claims
  {
    Claims(Some(userId), Some(ip), Some(now + Lifetime))
  }

  /**
   `generateAccessToken`: a token the service itself accepts, carrying the user and the
   address, for the next ten minutes and no longer.
   */
  function Mint(userId: string, ip: string, now: int): (t: AccessToken)
    ensures Verify(t, now) == Success(Claims(Some(userId), Some(ip), Some(now + Lifetime)))
    ensures now + Lifetime != 0 ==> Verify(t, now + Lifetime) == Failure(Expired)
  {
    Jws(HS512, MintClaims(userId, ip, now), true)
  }

  /**
   `jwt.Parse` with the service's key function: a token whose method is not HS512 is
   refused before its signature is looked at; then the signature must verify under
   the secret, and a present `exp` must lie strictly after `now`. The library reads a
   numeric `exp` of 0 as no expiry at all.
   */
  function Verify(t: AccessToken, now: int): (r: Result<Claims, JwtError>)
    ensures r.Success? <==>
              t.Jws? && t.alg == HS512 && t.signedWithSecret
              && (t.claims.exp.Some? && t.claims.exp.value != 0 ==> now < t.claims.exp.value)
    ensures r.Success? ==> r.value == t.claims
    ensures t.Jws? && t.alg != HS512 ==> r == Failure(AlgorithmMismatch)
  {
    match t
    case Malformed => Failure(Unparseable)
    case Jws(alg, claims, signed) =>
      if alg != HS512 then Failure(AlgorithmMismatch)
      else if !signed then Failure(SignatureInvalid)
      else if claims.exp.Some? && claims.exp.value != 0 && now >= claims.exp.value then Failure(Expired)
      else Success(claims)
  }

  /**
   A token the service minted verifies, with its claims intact, exactly until it
   expires (or for ever, in the one case where the expiry lands on 0).
   */
  lemma MintVerifyRoundTrip(userId: string, ip: string, issuedAt: int, now: int)
    ensures (Verify(Mint(userId, ip, issuedAt), now) == Success(MintClaims(userId, ip, issuedAt)))
            <==> (now < issuedAt + Lifetime || issuedAt + Lifetime == 0)
    ensures issuedAt + Lifetime != 0 && now >= issuedAt + Lifetime ==>
              Verify(Mint(userId, ip, issuedAt), now) == Failure(Expired)
  {
  }
}
