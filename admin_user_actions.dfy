/** app/admin/users/actions.ts: `createUser`, which opens an account and its profile row. */
module AdminUserActions {
  import opened Wrappers
  import opened Seqs
  import opened Types
  import opened Database

  datatype CreateUserData = CreateUserData(email: string, name: string, password: string, role: UserRole)

  /** `{ error }` or `{ success: true, userId }`. */
  datatype CreateUserResult = Failed(error: string) | Created(userId: string)

  /** What `auth.admin.createUser` answers: an error, no user, or the new account's id. */
  datatype AuthAnswer = AuthError(message: string) | NoUser | NewUser(id: string)

  /** An exception caught by the outer `catch`: an `Error` with its message, or any other value. */
  datatype Thrown = ThrownError(message: string) | ThrownOther

  const NoServiceKey: string := "Service role key not configured. Please set SUPABASE_SERVICE_ROLE_KEY in your environment variables."
  const AccountFailed: string := "Failed to create user account"
  const NoUserReturned: string := "User creation failed - no user data returned"
  const ProfileFailed: string := "Failed to create user profile"
  const Unexpected: string := "An unexpected error occurred"

  /** `message || fallback`. */
  function OrElse(message: string, fallback: string): (r: string)
    ensures r != "" || fallback == ""
    ensures message != "" ==> r == message
  {
    if message != "" then message else fallback
  }

  /** The result of a caught exception. */
  function CaughtResult(t: Thrown): CreateUserResult {
    match t
    case ThrownError(msg) => Failed(msg)
    case ThrownOther => Failed(Unexpected)
  }

  /** No account of the provider has this id. */
  predicate FreshAuthId(users: seq<AuthUser>, id: string) {
    forall i :: 0 <= i < |users| ==> users[i].id != id
  }

  /** `auth.admin.deleteUser(id)`: the accounts other than `id`. */
  function WithoutAuthUser(users: seq<AuthUser>, id: string): (r: seq<AuthUser>)
    ensures forall u :: u in r <==> u in users && u.id != id
  {
    Filter(users, (u: AuthUser) => u.id != id)
  }

  /** Deleting an account just added under a fresh id restores the accounts as they were. */
  lemma CompensationRestores(users: seq<AuthUser>, added: AuthUser)
    requires FreshAuthId(users, added.id)
    ensures WithoutAuthUser(users + [added], added.id) == users
  {
    var keep := (u: AuthUser) => u.id != added.id;
    FilterConcat(users, [added], keep);
    FilterKeepsAll(users, keep);
    assert Filter([added], keep) == [];
  }

  /** The result `createUser` returns for the given answers of its environment. */
  function Outcome(crash: Option<Thrown>, serviceKey: string, auth: AuthAnswer, profileFault: Option<string>): (r: CreateUserResult)
    ensures crash.Some? ==> r.Failed?
    ensures crash.None? && serviceKey == "" ==> r == Failed(NoServiceKey)
    ensures crash.None? && r.Failed? ==> r.error != ""
    ensures r.Created? ==> auth == NewUser(r.userId)
  {
    if crash.Some? then CaughtResult(crash.value)
    else if serviceKey == "" then Failed(NoServiceKey)
    else match auth
      case AuthError(msg) => Failed(OrElse(msg, AccountFailed))
      case NoUser => Failed(NoUserReturned)
      case NewUser(id) => if profileFault.Some? then Failed(OrElse(profileFault.value, ProfileFailed)) else Created(id)
  }

  /** A user is reported created exactly when the account and its profile were both written. */
  lemma CreatedIffBothWritten(crash: Option<Thrown>, serviceKey: string, auth: AuthAnswer, profileFault: Option<string>, id: string)
    ensures Outcome(crash, serviceKey, auth, profileFault) == Created(id)
            <==> crash.None? && serviceKey != "" && auth == NewUser(id) && profileFault.None?
  {
  }

  /** Every failure carries a message, except a caught `Error` whose message is empty. */
  lemma FailuresCarryMessages(crash: Option<Thrown>, serviceKey: string, auth: AuthAnswer, profileFault: Option<string>)
    ensures Outcome(crash, serviceKey, auth, profileFault).Failed? && Outcome(crash, serviceKey, auth, profileFault).error == ""
            <==> crash == Some(ThrownError(""))
  {
  }

  /**
   * What `createUser` leaves in the provider's accounts and the profile table: nothing changes
   * unless an account was opened; a failed profile insert then deletes that account again, if
   * the delete works; otherwise both the account and its profile are added.
   */
  ghost predicate CreateEffect(users: seq<AuthUser>, profiles: seq<ProfileRow>, users': seq<AuthUser>, profiles': seq<ProfileRow>,
                               data: CreateUserData, crash: Option<Thrown>, serviceKey: string, auth: AuthAnswer,
                               profileFault: Option<string>, deleteSucceeds: bool)
  {
    if !(crash.None? && serviceKey != "" && auth.NewUser?) then users' == users && profiles' == profiles
    else
      var withAccount := users + [AuthUser(auth.id, data.email)];
      if profileFault.Some? then
        profiles' == profiles && users' == (if deleteSucceeds then WithoutAuthUser(withAccount, auth.id) else withAccount)
      else
        users' == withAccount && profiles' == profiles + [ProfileRow(auth.id, data.email, data.name, data.role)]
  }

  /** With a fresh account id and a working delete, a failed `createUser` leaves no account behind. */
  lemma FailureLeavesNoAccount(users: seq<AuthUser>, profiles: seq<ProfileRow>, users': seq<AuthUser>, profiles': seq<ProfileRow>,
                               data: CreateUserData, crash: Option<Thrown>, serviceKey: string, auth: AuthAnswer,
                               profileFault: Option<string>)
    requires CreateEffect(users, profiles, users', profiles', data, crash, serviceKey, auth, profileFault, true)
    requires auth.NewUser? ==> FreshAuthId(users, auth.id)
    requires Outcome(crash, serviceKey, auth, profileFault).Failed?
    ensures users' == users && profiles' == profiles
  {
    if crash.None? && serviceKey != "" && auth.NewUser? {
      CompensationRestores(users, AuthUser(auth.id, data.email));
    }
  }

  /**
   * `createUser(data)`. `serviceKey` is `SUPABASE_SERVICE_ROLE_KEY` ("" when unset); `crash` is an
   * exception thrown while the server client is created; `auth` is the provider's answer;
   * `profileFault` the profile insert's error; `deleteSucceeds` whether the clean-up delete worked,
   * whose answer the source does not read.
   */
  method CreateUser(db: Db, data: CreateUserData, crash: Option<Thrown>, serviceKey: string, auth: AuthAnswer,
                    profileFault: Option<string>, deleteSucceeds: bool)
    returns (result: CreateUserResult)
    modifies db`authUsers, db`profiles
    ensures result == Outcome(crash, serviceKey, auth, profileFault)
    ensures CreateEffect(old(db.authUsers), old(db.profiles), db.authUsers, db.profiles, data, crash, serviceKey, auth, profileFault, deleteSucceeds)
  {
    if crash.Some? {
      return CaughtResult(crash.value);
    }
    if serviceKey == "" {
      return Failed(NoServiceKey);
    }
    match auth
    case AuthError(msg) =>
      return Failed(OrElse(msg, AccountFailed));
    case NoUser =>
      return Failed(NoUserReturned);
    case NewUser(id) =>
      db.authUsers := db.authUsers + [AuthUser(id, data.email)];
      if profileFault.Some? {
        if deleteSucceeds {
          db.authUsers := WithoutAuthUser(db.authUsers, id);
        }
        return Failed(OrElse(profileFault.value, ProfileFailed));
      }
      db.profiles := db.profiles + [ProfileRow(id, data.email, data.name, data.role)];
      result := Created(id);
  }
}
