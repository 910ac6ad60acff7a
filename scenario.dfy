/**
 * A client's session on the live routes, for any registration that succeeds: register,
 * refresh from the same device, present the same token from another user agent, log out,
 * and present the token once more.
 */
module Scenario {
  import opened Wrappers
  import opened CustomErrors
  import opened Hashing
  import opened Jwt
  import opened AuthRepository
  import opened TokenGenerations
  import opened TruncateIp
  import opened AuthService

  /**
   * Registration succeeds on fresh ids and an unused email. Later, while the refresh
   * token's claim still verifies: a refresh from the registering device succeeds with the
   * stored user's claims; the same token from another agent is refused as a device
   * mismatch; logout succeeds; and a refresh after logout is refused as revoked.
   */
  method SessionLifecycle(users: UserStore, tokens: TokenStore, email: string, first_name: string, last_name: string,
                          password: string, role: string, ip: ClientIp, userAgent: string, otherAgent: string,
                          secrets: Secrets, issuedMs: nat, laterMs: nat, userId: Id, tokenId: Id,
                          passwordSalt: nat, tokenSalt: nat)
    returns (registered: Result<Session, Thrown>, renewed: Result<Signed, Thrown>,
             otherDevice: Result<Signed, Thrown>, loggedOut: Result<(), Thrown>,
             afterLogout: Result<Signed, Thrown>)
    requires users.Valid() && tokens.Valid()
    requires !EmailInUse(users.users, email) && userId !in users.users && tokenId !in tokens.rows
    requires Defined(secrets.access) && Defined(secrets.refresh)
    requires userId != "" && email != "" && role != ""
    requires userAgent != "" && otherAgent != userAgent
    requires issuedMs <= laterMs && Seconds(laterMs) < Seconds(issuedMs) + RefreshTtl
    modifies users, tokens
    ensures registered.Ok? && registered.value.user == SessionUser(userId, email, role)
    ensures renewed.Ok? && renewed.value.claims == AccessClaims(userId, email, role)
    ensures otherDevice == Err(Auth("Refresh token is not valid for this device"))
    ensures loggedOut.Ok?
    ensures afterLogout == Err(Auth("Refresh token has been revoked"))
  {
    var raw, presented;
    registered, raw, presented := Enroll(users, tokens, email, first_name, last_name, password, role, ip, userAgent,
                                         secrets, issuedMs, laterMs, userId, tokenId, passwordSalt, tokenSalt);
    renewed := Renew(users, tokens, raw, presented, ip, userAgent, secrets, laterMs, userId, email, role);
    otherDevice := RenewElsewhere(users, tokens, raw, presented, ip, userAgent, otherAgent, secrets, laterMs);
    loggedOut, afterLogout := SignOut(users, tokens, raw, presented, ip, userAgent, secrets, laterMs);
  }

  /** Registration, and the refresh token as `jwt.verify` reads it at `laterMs`. */
  method Enroll(users: UserStore, tokens: TokenStore, email: string, first_name: string, last_name: string,
                password: string, role: string, ip: ClientIp, userAgent: string, secrets: Secrets,
                issuedMs: nat, laterMs: nat, userId: Id, tokenId: Id, passwordSalt: nat, tokenSalt: nat)
    returns (registered: Result<Session, Thrown>, raw: string, presented: Verification)
    requires users.Valid() && tokens.Valid()
    requires !EmailInUse(users.users, email) && userId !in users.users && tokenId !in tokens.rows
    requires Defined(secrets.access) && Defined(secrets.refresh)
    requires userId != "" && email != "" && role != ""
    requires userAgent != "" && issuedMs <= laterMs && Seconds(laterMs) < Seconds(issuedMs) + RefreshTtl
    modifies users, tokens
    ensures users.Valid() && tokens.Valid()
    ensures registered.Ok? && registered.value.user == SessionUser(userId, email, role)
    ensures raw == registered.value.refreshToken
    ensures presented == Verified(RefreshClaims(tokenId, userId))
    ensures OnDevice(raw, presented, tokens.rows, laterMs, ip, userAgent)
    ensures Compare(raw, RowOf(presented, tokens.rows).token_hash)
    ensures userId in users.users && users.users[userId].id == userId
    ensures users.users[userId].email == email && users.users[userId].role == role
  {
    registered := RegisterUser(users, tokens, email, first_name, last_name, password, role, ip, userAgent, secrets,
                               issuedMs, userId, tokenId, passwordSalt, tokenSalt);
    var token := RefreshJwt(tokenId, userId, secrets.refresh.value, issuedMs);
    raw := registered.value.refreshToken;
    presented := Verify(token, secrets.refresh.value, laterMs);
    IssuedTokenLive(tokens.rows, token, tokenId, userId, secrets.refresh.value, Truncate(ip), userAgent,
                    issuedMs, tokenSalt, laterMs);
  }

  /** The same token from another agent is refused at the device check. */
  method RenewElsewhere(users: UserStore, tokens: TokenStore, raw: string, presented: Verification, ip: ClientIp,
                        userAgent: string, otherAgent: string, secrets: Secrets, nowMs: nat)
    returns (otherDevice: Result<Signed, Thrown>)
    requires OnDevice(raw, presented, tokens.rows, nowMs, ip, userAgent)
    requires otherAgent != userAgent
    ensures otherDevice == Err(Auth("Refresh token is not valid for this device"))
  {
    assert ValidateRefresh(raw, presented, ip, otherAgent, nowMs, tokens.rows) == Err(DeviceMismatch);
    otherDevice := RefreshToken(raw, presented, ip, otherAgent, nowMs, secrets, users, tokens);
  }

  /** A token just issued and still verifying names a live row of its own user. */
  lemma IssuedTokenLive(rows: map<Id, TokenRow>, token: Signed, tokenId: Id, userId: Id, key: string,
                        boundIp: string, userAgent: string, issuedMs: nat, salt: nat, nowMs: nat)
    requires token == RefreshJwt(tokenId, userId, key, issuedMs)
    requires Verify(token, key, nowMs).Verified?
    requires tokenId in rows && rows[tokenId] == IssuedRow(tokenId, userId, Compact(token), boundIp, userAgent, issuedMs, salt)
    ensures Verify(token, key, nowMs) == Verified(RefreshClaims(tokenId, userId))
    ensures Live(Compact(token), Verify(token, key, nowMs), rows, nowMs)
    ensures Compare(Compact(token), rows[tokenId].token_hash)
  {
    ClaimExpiresFirst(tokenId, userId, key, boundIp, userAgent, issuedMs, salt, nowMs);
  }

  /** Refresh from the registering device: a new access token for the stored user. */
  method Renew(users: UserStore, tokens: TokenStore, raw: string, presented: Verification, ip: ClientIp,
               userAgent: string, secrets: Secrets, nowMs: nat, userId: Id, email: string, role: string)
    returns (renewed: Result<Signed, Thrown>)
    requires Defined(secrets.access)
    requires userId != "" && email != "" && role != ""
    requires OnDevice(raw, presented, tokens.rows, nowMs, ip, userAgent)
    requires presented.claims.user_id == userId
    requires Compare(raw, RowOf(presented, tokens.rows).token_hash)
    requires userId in users.users && users.users[userId].id == userId
    requires users.users[userId].email == email && users.users[userId].role == role
    ensures renewed.Ok? && renewed.value.claims == AccessClaims(userId, email, role)
  {
    renewed := RefreshToken(raw, presented, ip, userAgent, nowMs, secrets, users, tokens);
  }

  /** Log out from the registering device; the same token is then refused as revoked. */
  method SignOut(users: UserStore, tokens: TokenStore, raw: string, presented: Verification, ip: ClientIp,
                 userAgent: string, secrets: Secrets, nowMs: nat)
    returns (loggedOut: Result<(), Thrown>, afterLogout: Result<Signed, Thrown>)
    requires tokens.Valid()
    requires OnDevice(raw, presented, tokens.rows, nowMs, ip, userAgent)
    requires Compare(raw, RowOf(presented, tokens.rows).token_hash)
    modifies tokens
    ensures loggedOut.Ok?
    ensures afterLogout == Err(Auth("Refresh token has been revoked"))
  {
    var before := tokens.rows;
    loggedOut := DeauthenticateUser(tokens, raw, presented, ip, userAgent, nowMs);
    RevokedStaysRejected(raw, presented, before, nowMs, ip, userAgent, nowMs);
    afterLogout := RefreshToken(raw, presented, ip, userAgent, nowMs, secrets, users, tokens);
  }
}
