/**
 * The JSON Web Token library as the core uses it: `sign` with a time-to-live and
 * `verify` with its claim-level expiry check (section 4.1.4 of RFC 7519).
 * Tokens are kept as the values they encode; `Compact` stands for their wire string.
 */
module Jwt {
  import Numerals
  import Hashing

  /** The claims the system signs: refresh tokens and access tokens. */
  datatype Claims =
    | RefreshClaims(token_id: string, user_id: string)
    | AccessClaims(user_id: string, email: string, role: string)
  {
    function UserId(): string {
      match this
      case RefreshClaims(_, u) => u
      case AccessClaims(u, _, _) => u
    }
  }

  /** A signed token: its claims, `iat` and `exp` in seconds, and the key it was signed with. */
  datatype Signed = Signed(claims: Claims, iat: nat, exp: nat, key: string)

  /** What `jwt.verify` yields: the claims, a TokenExpiredError (with `expiredAt` in ms), or any other error. */
  datatype Verification = Verified(claims: Claims) | Expired(expiredAt: nat) | Invalid

  /** The library reads the clock in whole seconds. */
  function Seconds(nowMs: nat): nat {
    nowMs / 1000
  }

  /** `jwt.sign(claims, key, {expiresIn: ttl})` at time `nowMs`. */
  function Sign(claims: Claims, key: string, nowMs: nat, ttl: nat): (s: Signed)
    ensures s.claims == claims && s.key == key
    ensures s.iat == Seconds(nowMs) && s.exp == s.iat + ttl
  {
    Signed(claims, Seconds(nowMs), Seconds(nowMs) + ttl, key)
  }

  /**
   * `jwt.verify(token, key)` at time `nowMs`: an empty key or a wrong key is an error,
   * and the token is expired once the current second reaches `exp`.
   */
  function Verify(s: Signed, key: string, nowMs: nat): (v: Verification)
    ensures v.Verified? <==> key != "" && s.key == key && Seconds(nowMs) < s.exp
    ensures v.Verified? ==> v.claims == s.claims
    ensures v.Expired? <==> key != "" && s.key == key && s.exp <= Seconds(nowMs)
    ensures v.Expired? ==> v.expiredAt == s.exp * 1000
  {
    if key == "" || s.key != key then Invalid
    else if s.exp <= Seconds(nowMs) then Expired(s.exp * 1000)
    else Verified(s.claims)
  }

  /** The compact wire string of a signed token (header, claims, signature). */
  function Compact(s: Signed): (raw: string)
    ensures raw != ""
  {
    var body :=
      match s.claims
      case RefreshClaims(t, u) => t + "." + u
      case AccessClaims(u, e, r) => u + "." + e + "." + r;
    "eyJhbGciOiJIUzI1NiJ9." + body + "." + Numerals.Decimal(s.iat) + "." + Numerals.Decimal(s.exp)
      + "." + Numerals.Decimal(Hashing.OneWay(0, s.key + body))
  }

  /** A token verified before its expiry verifies, with the same claims, at any earlier time too. */
  lemma VerifiedEarlier(s: Signed, key: string, earlier: nat, later: nat)
    requires earlier <= later
    requires Verify(s, key, later).Verified?
    ensures Verify(s, key, earlier) == Verify(s, key, later)
  {
    assert Seconds(earlier) <= Seconds(later);
  }
}
