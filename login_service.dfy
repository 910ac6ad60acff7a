/**
 * src/v1/services/authentication/login.service.ts: the earlier login path. It returns the
 * whole stored user row, password digest included.
 */
module LoginService {
  import opened Wrappers
  import opened CustomErrors
  import opened Jwt
  import opened AuthRepository
  import opened TokenGenerations
  import opened TruncateIp
  import opened AuthService

  datatype LoginResult = LoginResult(accessToken: Signed, refreshToken: string, user: User)

  method Login(users: UserStore, tokens: TokenStore, email: string, password: string, ip: ClientIp,
               userAgent: string, secrets: Secrets, nowMs: nat, tokenId: Id, tokenSalt: nat)
    returns (r: Result<LoginResult, Thrown>)
    requires users.Valid() && tokens.Valid()
    modifies tokens
    ensures tokens.Valid()
    ensures !EmailInUse(users.users, email) ==> r == Err(Auth("Invalid credentials")) && tokens.rows == old(tokens.rows)
    ensures CheckCredentials(users, email, password).Err? ==>
              r == Err(Auth("Invalid credentials")) && tokens.rows == old(tokens.rows)
    ensures r.Ok? <==>
              CheckCredentials(users, email, password).Ok? && Defined(secrets.refresh) && tokenId !in old(tokens.rows)
              && GenerateAccessToken(AccessPayload(CheckCredentials(users, email, password).value.id, email,
                                                   CheckCredentials(users, email, password).value.role), secrets.access, nowMs).Ok?
    ensures CheckCredentials(users, email, password).Ok? && !Defined(secrets.refresh) ==>
              r == Err(PlainError("JWT refresh secret not defined")) && tokens.rows == old(tokens.rows)
    ensures CheckCredentials(users, email, password).Ok? && Defined(secrets.refresh) && tokenId in old(tokens.rows) ==>
              r == Err(StoreFailure(UniqueViolation)) && tokens.rows == old(tokens.rows)
    ensures r.Ok? ==>
              var u := CheckCredentials(users, email, password).value;
              && r.value.user == u
              && r.value.accessToken.claims == AccessClaims(u.id, u.email, u.role)
              && r.value.refreshToken == Compact(RefreshJwt(tokenId, u.id, secrets.refresh.value, nowMs))
    // the refresh row is written before the access token is signed, and stays when signing fails
    ensures CheckCredentials(users, email, password).Ok? && Defined(secrets.refresh) && tokenId !in old(tokens.rows) ==>
              var u := CheckCredentials(users, email, password).value;
              tokens.rows == old(tokens.rows)[tokenId := IssuedRow(tokenId, u.id, Compact(RefreshJwt(tokenId, u.id, secrets.refresh.value, nowMs)),
                                                                     Truncate(ip), userAgent, nowMs, tokenSalt)]
  {
    var checked := CheckCredentials(users, email, password);
    if checked.Err? {
      r := Err(checked.error);
      return;
    }
    var user := checked.value;
    var truncatedIp := Truncate(ip);
    var refreshToken := GenerateRefreshToken(tokens, user.id, truncatedIp, userAgent, secrets.refresh, nowMs, tokenId, tokenSalt);
    if refreshToken.Err? {
      r := Err(refreshToken.error);
      return;
    }
    var accessToken := GenerateAccessToken(AccessPayload(user.id, user.email, user.role), secrets.access, nowMs);
    if accessToken.Err? {
      r := Err(accessToken.error);
      return;
    }
    r := Ok(LoginResult(accessToken.value, refreshToken.value, user));
  }
}
