/**
 Signed, time-limited bearer tokens as `jsonwebtoken` issues and checks them.
 A signature is modelled as the secret the token was signed with; the compact
 serialisation is a given `Codec`.
 */
module Jwt {
  import opened Common

  /** The signing secret, hard-coded in both `jwt.sign` and `jwt.verify`. */
  const Secret: string := "RANDOM-TOKEN"

  /** `expiresIn: "24h"`, in seconds. */
  const Lifetime: int := 86400

  datatype Claims = Claims(userId: Id, userEmail: string)

  /** What `jwt.verify` hands back: the claims plus the registered `iat` and `exp` (seconds). */
  datatype Payload = Payload(claims: Claims, iat: int, exp: int)

  datatype Token = Token(payload: Payload, secret: string)

  datatype Verdict = Verified(payload: Payload) | Malformed | InvalidSignature | Expired

  /** The wire form of a token and its parser. */
  datatype Codec = Codec(encode: Token -> string, decode: string -> Option<Token>)

  /** Parsing undoes printing, and a printed token is never the empty string. */
  ghost predicate Faithful(c: Codec) {
    && (forall t :: c.decode(c.encode(t)) == Some(t))
    && (forall t :: c.encode(t) != "")
  }

  /** `jwt.sign(claims, secret, { expiresIn: "24h" })` at time `now` (seconds). */
  function Sign(claims: Claims, secret: string, now: int): (t: Token)
    ensures t.payload.claims == claims
    ensures Verify(Some(t), secret, now) == Verified(t.payload)
    ensures Verify(Some(t), secret, now + Lifetime - 1).Verified?
    ensures Verify(Some(t), secret, now + Lifetime) == Expired
  {
    Token(Payload(claims, now, now + Lifetime), secret)
  }

  /** `jwt.verify(token, secret)` at time `now`, given what the token string parsed to.
      The signature is checked before expiry; a token is expired once `now >= exp`. */
  function Verify(parsed: Option<Token>, secret: string, now: int): (v: Verdict)
    ensures v.Verified? <==> parsed.Some? && parsed.value.secret == secret && now < parsed.value.payload.exp
    ensures v.Verified? ==> v.payload == parsed.value.payload
    ensures v == Malformed <==> parsed.None?
    ensures v == Expired ==> parsed.value.secret == secret
  {
    match parsed
    case None => Malformed
    case Some(t) =>
      if t.secret != secret then InvalidSignature
      else if now >= t.payload.exp then Expired
      else Verified(t.payload)
  }

  /** A token verifies with the secret it was signed with exactly during the
      `Lifetime` seconds after issuance (and from any earlier clock reading). */
  lemma SignedTokenLifetime(claims: Claims, issuedAt: int, now: int)
    ensures Verify(Some(Sign(claims, Secret, issuedAt)), Secret, now) ==
      (if now < issuedAt + Lifetime then Verified(Payload(claims, issuedAt, issuedAt + Lifetime)) else Expired)
  {
  }

  /** A token signed with any other secret is refused, whatever the time. */
  lemma ForeignSecretRejected(claims: Claims, secret: string, issuedAt: int, now: int)
    requires secret != Secret
    ensures Verify(Some(Sign(claims, secret, issuedAt)), Secret, now) == InvalidSignature
  {
  }
}
