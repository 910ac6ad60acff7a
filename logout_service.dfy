/**
 * src/v1/services/authentication/logout.service.ts: the same guard chain as
 * `deauthenticateUser`, then an in-place update of the row found, returning true.
 */
module LogoutService {
  import opened Wrappers
  import opened CustomErrors
  import opened Jwt
  import opened AuthRepository
  import opened TruncateIp
  import opened AuthService

  method Logout(tokens: TokenStore, raw: string, verified: Verification, ip: ClientIp,
                userAgent: string, nowMs: nat) returns (r: Result<bool, Thrown>)
    requires tokens.Valid()
    modifies tokens
    ensures tokens.Valid()
    ensures raw == "" ==> r == Err(EmptyToken("Refresh token is required")) && tokens.rows == old(tokens.rows)
    ensures verified.Expired? && raw != "" ==> r == Err(TokenExpired("Refresh token has expired", verified.expiredAt))
    ensures verified.Invalid? && raw != "" ==> r == Err(Auth("Invalid refresh token format"))
    ensures Presented(raw, verified) && verified.claims.token_id !in old(tokens.rows) ==>
              r == Err(NotFound("Refresh token not found"))
    ensures Located(raw, verified, old(tokens.rows)) && !RowOf(verified, old(tokens.rows)).is_active ==>
              r == Err(Auth("Refresh token has been revoked"))
    ensures var v := ValidateRefresh(raw, verified, ip, userAgent, nowMs, old(tokens.rows));
            v.Err? ==> r == Err(Raise(v.error)) && tokens.rows == old(tokens.rows)
    ensures var v := ValidateRefresh(raw, verified, ip, userAgent, nowMs, old(tokens.rows));
            v.Ok? ==> r == Ok(true) && tokens.rows == old(tokens.rows)[v.value.id := Revoked(v.value, nowMs)]
  {
    var checked := ValidateRefresh(raw, verified, ip, userAgent, nowMs, tokens.rows);
    if checked.Err? {
      r := Err(Raise(checked.error));
      return;
    }
    var updated := tokens.RevokeRefreshToken(checked.value.id, nowMs);
    r := Ok(true);
  }
}
