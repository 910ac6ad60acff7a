/** src/v1/services/authentication/updatePass.service.ts: confirm, hash, update, return true. */
module UpdatePassService {
  import opened Wrappers
  import opened CustomErrors
  import opened Hashing
  import opened AuthRepository

  method UpdatePass(users: UserStore, user_id: Id, password: string, confirmPassword: string, salt: nat)
    returns (r: Result<bool, Thrown>)
    requires users.Valid()
    modifies users
    ensures users.Valid()
    ensures password != confirmPassword ==>
              r == Err(PlainError("Passwords do not match")) && users.users == old(users.users)
    ensures r.Ok? <==> password == confirmPassword && user_id in old(users.users)
    ensures r.Ok? ==> r.value
    ensures r.Ok? ==> user_id in users.users && Compare(password, users.users[user_id].password)
    ensures r.Ok? ==> users.users == old(users.users)[user_id := old(users.users)[user_id].(password := Hash(password, salt))]
    ensures r.Err? ==> users.users == old(users.users)
  {
    if password != confirmPassword {
      r := Err(PlainError("Passwords do not match"));
      return;
    }
    var updated := users.UpdatePassword(user_id, Hash(password, salt));
    if updated.Err? {
      r := Err(updated.error);
      return;
    }
    r := Ok(true);
  }
}
