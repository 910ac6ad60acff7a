/**
 * src/utils/tokenGenerations.ts: minting an access token (a signed value, never stored)
 * and a refresh token (signed, hashed, and inserted into the token table).
 */
module TokenGenerations {
  import opened Wrappers
  import opened CustomErrors
  import opened Hashing
  import opened Jwt
  import opened AuthRepository

  /** "3h" and "7d" as the library counts them, in seconds. */
  const AccessTtl: nat := 3 * 60 * 60
  const RefreshTtl: nat := 7 * 24 * 60 * 60
  /** The stored lifetime of a refresh row, in milliseconds. */
  const RefreshLifetimeMs: nat := 7 * 24 * 60 * 60 * 1000
  /** What is stored for a token issued to a client that sent no user agent. */
  const UnknownDevice := "Unknown Device"

  /** An environment value is usable when it is set and not empty (JavaScript truthiness). */
  predicate Defined(secret: Option<string>) {
    secret.Some? && secret.value != ""
  }

  datatype AccessPayload = AccessPayload(user_id: string, email: string, role: string)

  /** `generateAccessToken`: refuses an unset secret, then an incomplete payload, else signs with a 3h lifetime. */
  function GenerateAccessToken(payload: AccessPayload, secret: Option<string>, nowMs: nat): (r: Result<Signed, Thrown>)
    ensures !Defined(secret) ==> r == Err(PlainError("JWT Access Token Secret is not defined."))
    ensures Defined(secret) && (payload.user_id == "" || payload.email == "" || payload.role == "") ==>
              r == Err(PlainError("Invalid token payload for access token generation."))
    ensures r.Ok? <==> Defined(secret) && payload.user_id != "" && payload.email != "" && payload.role != ""
    ensures r.Ok? ==> r.value.claims == AccessClaims(payload.user_id, payload.email, payload.role)
    ensures r.Ok? ==> r.value.key == secret.value && r.value.exp == Seconds(nowMs) + AccessTtl
    ensures r.Ok? ==> Verify(r.value, secret.value, nowMs) == Verified(AccessClaims(payload.user_id, payload.email, payload.role))
  {
    if !Defined(secret) then Err(PlainError("JWT Access Token Secret is not defined."))
    else if payload.user_id == "" || payload.email == "" || payload.role == "" then
      Err(PlainError("Invalid token payload for access token generation."))
    else Ok(Sign(AccessClaims(payload.user_id, payload.email, payload.role), secret.value, nowMs, AccessTtl))
  }

  /** The refresh token signed for `tokenId` and `user_id`. */
  function RefreshJwt(tokenId: Id, user_id: Id, key: string, nowMs: nat): (s: Signed)
    ensures s.claims == RefreshClaims(tokenId, user_id) && s.key == key
    ensures s.exp == Seconds(nowMs) + RefreshTtl
  {
    Sign(RefreshClaims(tokenId, user_id), key, nowMs, RefreshTtl)
  }

  /** The row `generateRefreshToken` inserts for the raw token `raw`. */
  function IssuedRow(tokenId: Id, user_id: Id, raw: string, ip: string, user_agent: string, nowMs: nat, salt: nat): (row: TokenRow)
    ensures row.id == tokenId && row.user_id == user_id && row.ip_address == ip
    ensures row.expires_at == nowMs + RefreshLifetimeMs
    ensures Compare(raw, row.token_hash)
    ensures row.is_active && row.revoked_at.None? && row.last_used.None?
    ensures row.user_agent != "" && row.device == row.user_agent
    ensures user_agent != "" ==> row.user_agent == user_agent
    ensures user_agent == "" ==> row.user_agent == UnknownDevice
  {
    var agent := if user_agent == "" then UnknownDevice else user_agent;
    TokenRow(tokenId, user_id, Hash(raw, salt), ip, agent, agent, nowMs + RefreshLifetimeMs, true, None, None)
  }

  /**
   * `generateRefreshToken`: refuses an unset secret; otherwise signs `{token_id, user_id}` for 7 days,
   * stores its digest with the device binding, and returns the raw token. `tokenId` is the drawn
   * uuid and `salt` the digest's random salt; a drawn id that is already taken fails the insert.
   */
  method GenerateRefreshToken(store: TokenStore, user_id: Id, ip: string, user_agent: string,
                              secret: Option<string>, nowMs: nat, tokenId: Id, salt: nat)
    returns (r: Result<string, Thrown>)
    requires store.Valid()
    modifies store
    ensures store.Valid()
    ensures !Defined(secret) ==> r == Err(PlainError("JWT refresh secret not defined"))
    ensures r.Ok? <==> Defined(secret) && tokenId !in old(store.rows)
    ensures r.Ok? ==> r.value == Compact(RefreshJwt(tokenId, user_id, secret.value, nowMs))
    ensures r.Ok? ==> store.rows == old(store.rows)[tokenId := IssuedRow(tokenId, user_id, r.value, ip, user_agent, nowMs, salt)]
    ensures Defined(secret) && tokenId in old(store.rows) ==> r == Err(StoreFailure(UniqueViolation))
    ensures r.Err? ==> store.rows == old(store.rows)
  {
    if !Defined(secret) {
      r := Err(PlainError("JWT refresh secret not defined"));
      return;
    }
    var token := Compact(RefreshJwt(tokenId, user_id, secret.value, nowMs));
    var created := store.Create(IssuedRow(tokenId, user_id, token, ip, user_agent, nowMs, salt));
    if created.Err? {
      r := Err(created.error);
      return;
    }
    r := Ok(token);
  }

  /**
   * For a freshly issued token the claim-level expiry comes no later than the stored one:
   * while the signed claim still verifies, the stored `expires_at` has not passed.
   */
  lemma ClaimExpiresFirst(tokenId: Id, user_id: Id, key: string, ip: string, user_agent: string,
                          issuedMs: nat, salt: nat, nowMs: nat)
    requires Verify(RefreshJwt(tokenId, user_id, key, issuedMs), key, nowMs).Verified?
    ensures !(IssuedRow(tokenId, user_id, Compact(RefreshJwt(tokenId, user_id, key, issuedMs)),
                        ip, user_agent, issuedMs, salt).expires_at < nowMs)
  {
    var s := issuedMs / 1000;
    assert nowMs / 1000 < s + RefreshTtl;
    assert nowMs / 1000 + 1 <= s + RefreshTtl;
    assert nowMs < (nowMs / 1000 + 1) * 1000;
    assert s * 1000 <= issuedMs;
  }
}
