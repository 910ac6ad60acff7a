/**
 * src/v1/middlewares/auth.middleware.ts: the decision the access-token middleware takes
 * for one request. `verify` stands for `jwt.verify` under the access secret at the
 * current time; the user table is read by id.
 */
module AuthMiddleware {
  import opened Wrappers
  import opened Strings
  import opened Jwt
  import opened AuthRepository
  import opened TokenGenerations

  /** What the middleware attaches to the request as `req.user`. */
  datatype RequestUser = RequestUser(id: Id, email: string, role: string)

  /** Either `next()` with `req.user` set, or a JSON response with a status and message. */
  datatype Decision = Next(user: RequestUser) | Reject(status: int, message: string)

  const BearerPrefix := "Bearer "
  const NoToken := "No token provided"
  const AccessExpired := "Access token expired"
  const Unauthorized := "Invalid token or unauthorized"

  /** The first field of `s.split(sep)` is the longest separator-free prefix of `s`. */
  lemma {:induction false} FirstField(s: string, sep: char)
    ensures |Split(s, sep)[0]| <= |s| && Split(s, sep)[0] == s[..|Split(s, sep)[0]|]
    ensures |Split(s, sep)[0]| < |s| ==> s[|Split(s, sep)[0]|] == sep
    decreases |s|
  {
    if s != [] && s[0] != sep {
      FirstField(s[1..], sep);
    }
  }

  /**
   * `authHeader.split(" ")[1]` for a header that starts with "Bearer ": what follows the
   * prefix, up to the next space or the end.
   */
  function BearerToken(header: string): (token: string)
    requires StartsWith(header, BearerPrefix)
    ensures ' ' !in token
    ensures 7 + |token| <= |header| && header[7..7 + |token|] == token
    ensures 7 + |token| < |header| ==> header[7 + |token|] == ' '
  {
    var rest := header[7..];
    assert header == "Bearer" + [' '] + rest;
    SplitAtSeparator("Bearer", rest, ' ');
    FirstField(rest, ' ');
    Split(header, ' ')[1]
  }

  /** A space-free token after the prefix is read back whole. */
  lemma BearerTokenOf(token: string)
    requires ' ' !in token
    ensures StartsWith(BearerPrefix + token, BearerPrefix)
    ensures BearerToken(BearerPrefix + token) == token
  {
    var header := BearerPrefix + token;
    assert header[7..] == token;
  }

  /** The claims carry the stored user's current email and role. */
  predicate ClaimsMatch(claims: Claims, users: map<Id, User>) {
    && claims.AccessClaims?
    && claims.user_id in users
    && users[claims.user_id].email == claims.email
    && users[claims.user_id].role == claims.role
  }

  /** The middleware's decision for one request. */
  function Authenticate(header: Option<string>, verify: string -> Verification, users: UserStore): (d: Decision)
    reads users
    ensures (header.None? || !StartsWith(header.value, BearerPrefix)) ==> d == Reject(401, NoToken)
    ensures d.Next? <==>
              && header.Some? && StartsWith(header.value, BearerPrefix)
              && verify(BearerToken(header.value)).Verified?
              && ClaimsMatch(verify(BearerToken(header.value)).claims, users.users)
    ensures d.Next? ==>
              var stored := users.users[verify(BearerToken(header.value)).claims.user_id];
              d.user == RequestUser(stored.id, stored.email, stored.role)
    ensures d.Reject? ==> d.status in {401, 403}
    ensures d.Reject? && d.status == 401 <==>
              header.None? || !StartsWith(header.value, BearerPrefix) || verify(BearerToken(header.value)).Expired?
    ensures d.Reject? && d.status == 403 ==> d.message == Unauthorized
    ensures d.Reject? && d.status == 401 ==> d.message in {NoToken, AccessExpired}
  {
    if header.None? || !StartsWith(header.value, BearerPrefix) then Reject(401, NoToken)
    else
      match verify(BearerToken(header.value))
      case Expired(_) => Reject(401, AccessExpired)
      case Invalid => Reject(403, Unauthorized)
      case Verified(claims) =>
        if claims.user_id !in users.users then Reject(403, Unauthorized)
        else
          var user := users.users[claims.user_id];
          if !claims.AccessClaims? || user.email != claims.email || user.role != claims.role then Reject(403, Unauthorized)
          else Next(RequestUser(user.id, user.email, user.role))
  }

  /**
   * An access token minted for a stored user, presented as "Bearer <token>" before it
   * expires, admits that user while the stored email and role are unchanged.
   */
  lemma {:induction false} IssuedTokenAdmits(users: UserStore, userId: Id, secret: string, issuedMs: nat, nowMs: nat,
                                             raw: string, verify: string -> Verification)
    requires users.Valid() && userId in users.users
    requires var u := users.users[userId];
             GenerateAccessToken(AccessPayload(u.id, u.email, u.role), Some(secret), issuedMs).Ok?
    requires issuedMs <= nowMs && Seconds(nowMs) < Seconds(issuedMs) + AccessTtl
    requires ' ' !in raw
    requires var u := users.users[userId];
             verify(raw) == Verify(GenerateAccessToken(AccessPayload(u.id, u.email, u.role), Some(secret), issuedMs).value, secret, nowMs)
    ensures var u := users.users[userId];
            Authenticate(Some(BearerPrefix + raw), verify, users) == Next(RequestUser(userId, u.email, u.role))
  {
    BearerTokenOf(raw);
  }

  /** A token whose claims no longer match the stored row (email or role changed, user deleted) is refused with 403. */
  lemma StaleClaimsRefused(header: string, verify: string -> Verification, users: UserStore)
    requires StartsWith(header, BearerPrefix)
    requires verify(BearerToken(header)).Verified?
    requires !ClaimsMatch(verify(BearerToken(header)).claims, users.users)
    ensures Authenticate(Some(header), verify, users) == Reject(403, Unauthorized)
  {
  }
}
