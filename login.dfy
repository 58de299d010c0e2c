/**
 * Password login (src/app/api/login/route.js): the user is looked up by email with `.single()`,
 * the password is checked against the stored hash, and only the public profile is returned.
 *
 * `bcrypt.compare` is the function-valued parameter `passwordMatches(password, hash)`.
 */
module Login {
  import opened Common
  import opened Tables

  datatype Credentials = Credentials(email: string, password: string)

  const UserNotFound: string := "Kullanıcı bulunamadı"
  const WrongPassword: string := "Geçersiz şifre"

  /** POST: log in with email and password. */
  function Login(env: Env, users: seq<User>, body: Option<Credentials>,
                 passwordMatches: (string, string) -> bool): (r: Response<Profile>)
    ensures !Configured(env) ==> r == Failure(503, ConfigMissing)
    ensures Configured(env) && body.None? ==> r == Failure(500, InternalError)
    ensures Configured(env) && body.Some? && (forall u :: u in users ==> u.email != body.value.email) ==>
      r == Failure(401, UserNotFound)
    ensures r.Success? ==>
      exists u :: u in users && u.email == body.value.email && passwordMatches(body.value.password, u.passwordHash)
                  && r.value == ProfileOf(u)
    ensures r.Failure? ==> r.status in {401, 500, 503}
  {
    if !Configured(env) then Failure(503, ConfigMissing)
    else if body.None? then Failure(500, InternalError)
    else
      match UserByEmail(users, body.value.email)
      case None => Failure(401, UserNotFound)
      case Some(u) =>
        if !passwordMatches(body.value.password, u.passwordHash) then Failure(401, WrongPassword)
        else Success(ProfileOf(u))
  }

  /** A user whose email no other user shares logs in exactly when the password matches the hash. */
  lemma UniqueEmailLogsIn(env: Env, users: seq<User>, i: nat, password: string,
                          passwordMatches: (string, string) -> bool)
    requires Configured(env) && i < |users|
    requires forall j :: 0 <= j < |users| && j != i ==> users[j].email != users[i].email
    ensures var r := Login(env, users, Some(Credentials(users[i].email, password)), passwordMatches);
      r == if passwordMatches(password, users[i].passwordHash) then Success(ProfileOf(users[i]))
           else Failure(401, WrongPassword)
  {
    WhereSingleton(users, (u: User) => u.email == users[i].email, i);
  }

  /** Two accounts with the same email: `.single()` fails and neither can log in. */
  lemma DuplicateEmailRefused(env: Env, users: seq<User>, i: nat, j: nat, password: string,
                              passwordMatches: (string, string) -> bool)
    requires Configured(env) && i < j < |users| && users[i].email == users[j].email
    ensures Login(env, users, Some(Credentials(users[i].email, password)), passwordMatches)
         == Failure(401, UserNotFound)
  {
    WhereTwo(users, (u: User) => u.email == users[i].email, i, j);
  }
}
