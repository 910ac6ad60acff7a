/**
 * src/v1/services/authentication/register.service.ts: the earlier registration path.
 * Every account it creates has role "ADMIN" and no names.
 */
module RegisterService {
  import opened Wrappers
  import opened CustomErrors
  import opened Hashing
  import opened Jwt
  import opened AuthRepository
  import opened TokenGenerations
  import opened TruncateIp
  import opened AuthService

  const RegisteredRole := "ADMIN"

  method Register(users: UserStore, tokens: TokenStore, email: string, password: string, ip: ClientIp,
                  userAgent: string, secrets: Secrets, nowMs: nat, userId: Id, tokenId: Id,
                  passwordSalt: nat, tokenSalt: nat) returns (r: Result<Session, Thrown>)
    requires users.Valid() && tokens.Valid()
    modifies users, tokens
    ensures users.Valid() && tokens.Valid()
    ensures EmailInUse(old(users.users), email) ==>
              r == Err(Registration("Email already registered"))
              && users.users == old(users.users) && tokens.rows == old(tokens.rows)
    ensures r.Ok? <==>
              !EmailInUse(old(users.users), email) && userId !in old(users.users)
              && Defined(secrets.access) && userId != "" && email != ""
              && Defined(secrets.refresh) && tokenId !in old(tokens.rows)
    ensures !EmailInUse(old(users.users), email) && userId in old(users.users) ==>
              r == Err(StoreFailure(UniqueViolation)) && users.users == old(users.users)
    ensures !EmailInUse(old(users.users), email) && userId !in old(users.users) ==>
              users.users == old(users.users)[userId := User(userId, email, Hash(password, passwordSalt), RegisteredRole, None, None)]
    ensures r.Err? ==> tokens.rows == old(tokens.rows)
    ensures r.Ok? ==> r.value.user == SessionUser(userId, email, RegisteredRole)
    ensures r.Ok? ==> r.value.accessToken.claims == AccessClaims(userId, email, RegisteredRole)
    ensures r.Ok? ==> r.value.refreshToken == Compact(RefreshJwt(tokenId, userId, secrets.refresh.value, nowMs))
    ensures r.Ok? ==> tokens.rows == old(tokens.rows)[tokenId := IssuedRow(tokenId, userId, r.value.refreshToken,
                                                                             Truncate(ip), userAgent, nowMs, tokenSalt)]
  {
    if users.GetUserByEmail(email).Some? {
      r := Err(Registration("Email already registered"));
      return;
    }
    var hashedPassword := Hash(password, passwordSalt);
    var created := users.CreateUser(UserInput(email, hashedPassword, RegisteredRole, None, None), userId);
    if created.Err? {
      r := Err(created.error);
      return;
    }
    var user := created.value;
    var truncatedIp := Truncate(ip);
    var accessToken := GenerateAccessToken(AccessPayload(user.id, user.email, user.role), secrets.access, nowMs);
    if accessToken.Err? {
      r := Err(accessToken.error);
      return;
    }
    var refreshToken := GenerateRefreshToken(tokens, user.id, truncatedIp, userAgent, secrets.refresh, nowMs, tokenId, tokenSalt);
    if refreshToken.Err? {
      r := Err(refreshToken.error);
      return;
    }
    r := Ok(Session(accessToken.value, refreshToken.value, SessionUser(user.id, user.email, user.role)));
  }
}
