/** app/login/page.tsx: password sign-in followed by a redirect to the portal of the user's role. */
module LoginPage {
  import opened Wrappers
  import opened Strings
  import opened Seqs
  import opened Types
  import opened Database
  import Middleware

  const NotConfigured: string := "Supabase is not configured. Please check your environment variables."
  const SignInFailed: string := "Failed to sign in. Please check your credentials."

  /** What `signInWithPassword` answers: an error with its message, or the signed-in user's id. */
  datatype SignInAnswer = SignInError(message: string) | SignedIn(userId: string)

  /** The redirect for the `role` the profile lookup found: ADMIN and COORDINATOR have their portals, anything else goes to /tenant. */
  function RouteForRole(role: Option<string>): (path: string)
    ensures path == "/admin" <==> role == Some("ADMIN")
    ensures path == "/coordinator" <==> role == Some("COORDINATOR")
    ensures path != "/admin" && path != "/coordinator" ==> path == "/tenant"
  {
    if role == Some("ADMIN") then "/admin"
    else if role == Some("COORDINATOR") then "/coordinator"
    else "/tenant"
  }

  /** For the three roles the login sends a user to the same portal the route guard assigns. */
  lemma LoginAgreesWithGuard(r: UserRole)
    ensures RouteForRole(Some(RoleName(r))) == Middleware.Portal(r)
  {
  }

  /** A user with a known role lands on a page the route guard lets through. */
  lemma LandingPasses(r: UserRole, user: string)
    ensures Middleware.Decide(RouteForRole(Some(RoleName(r))), Some(user), Some(RoleName(r))) == Middleware.Next
  {
    assert Middleware.Portal(r) + "" == Middleware.Portal(r);
    Middleware.OwnPortalPasses(r, user, "");
  }

  /** `select('role').eq('id', id).single()`: the role of the one profile with that id, or an error. */
  function ProfileRole(profiles: seq<ProfileRow>, id: string, fault: Option<string>): (r: Result<string, string>)
    ensures fault.Some? ==> r == Err(fault.value)
    ensures r.Ok? ==> exists p :: p in profiles && p.id == id && r.value == RoleName(p.role)
  {
    if fault.Some? then Err(fault.value)
    else
      var matching := Filter(profiles, (p: ProfileRow) => p.id == id);
      match Single(matching)
      case Ok(p) => assert p in matching; Ok(RoleName(p.role))
      case Err(e) => Err(e)
  }

  /** The path `handleLogin` navigates to once signed in: /tenant when the lookup fails. */
  function Landing(lookup: Result<string, string>): string {
    if lookup.Err? then "/tenant" else RouteForRole(Some(lookup.value))
  }

  /** A user whose profile is found, under an id no other profile has, lands on the portal of its role. */
  lemma FoundProfileLandsOnPortal(profiles: seq<ProfileRow>, p: ProfileRow)
    requires p in profiles
    requires forall i, j :: 0 <= i < |profiles| && 0 <= j < |profiles| && profiles[i].id == p.id && profiles[j].id == p.id ==> i == j
    ensures Landing(ProfileRole(profiles, p.id, None)) == Middleware.Portal(p.role)
  {
    SingleMatch(profiles, p);
  }

  /** When one profile has the id, the lookup's filter keeps just that one. */
  lemma {:induction false} SingleMatch(s: seq<ProfileRow>, x: ProfileRow)
    requires x in s
    requires forall i, j :: 0 <= i < |s| && 0 <= j < |s| && s[i].id == x.id && s[j].id == x.id ==> i == j
    ensures Filter(s, (p: ProfileRow) => p.id == x.id) == [x]
  {
    var keep := (p: ProfileRow) => p.id == x.id;
    var k :| 0 <= k < |s| && s[k] == x;
    assert s == [s[0]] + s[1..];
    FilterConcat([s[0]], s[1..], keep);
    if k == 0 {
      forall i | 0 <= i < |s[1..]| ensures !keep(s[1..][i]) {
        assert s[1..][i] == s[i + 1];
      }
      FilterKeepsNone(s[1..], keep);
    } else {
      assert s[0].id != x.id;
      assert s[1..][k - 1] == x;
      forall i, j | 0 <= i < |s[1..]| && 0 <= j < |s[1..]| && s[1..][i].id == x.id && s[1..][j].id == x.id
        ensures i == j
      {
        assert s[i + 1] == s[1..][i] && s[j + 1] == s[1..][j];
      }
      SingleMatch(s[1..], x);
    }
  }

  class LoginForm {
    var email: string
    var password: string
    var loading: bool
    var errorText: string
    var navigatedTo: Option<string>
    var refreshed: bool

    constructor ()
      ensures email == "" && password == "" && !loading && errorText == "" && navigatedTo.None? && !refreshed
    {
      email, password, loading, errorText := "", "", false, "";
      navigatedTo, refreshed := None, false;
    }

    method EditForm(e: string, p: string)
      modifies this`email, this`password
      ensures email == e && password == p
    {
      email, password := e, p;
    }

    /**
     * `handleLogin`. `configured` says whether the client is configured, `signIn` is the
     * provider's answer and `profileFault` the profile read's error.
     */
    method HandleLogin(db: Db, configured: bool, signIn: SignInAnswer, profileFault: Option<string>)
      modifies this`loading, this`errorText, this`navigatedTo, this`refreshed
      ensures !loading
      ensures !configured ==> errorText == NotConfigured && navigatedTo == old(navigatedTo) && refreshed == old(refreshed)
      ensures configured && signIn.SignInError? ==>
                errorText == (if signIn.message != "" then signIn.message else SignInFailed)
                && navigatedTo == old(navigatedTo) && refreshed == old(refreshed)
      ensures configured && signIn.SignedIn? ==>
                && errorText == ""
                && navigatedTo == Some(Landing(ProfileRole(db.profiles, signIn.userId, profileFault)))
                && refreshed
    {
      loading, errorText := true, "";
      if !configured {
        errorText, loading := NotConfigured, false;
        return;
      }
      match signIn {
        case SignInError(msg) =>
          errorText := if msg != "" then msg else SignInFailed;
        case SignedIn(userId) =>
          var lookup := ProfileRole(db.profiles, userId, profileFault);
          if lookup.Err? {
            navigatedTo, refreshed := Some("/tenant"), true;
          } else {
            navigatedTo := Some(RouteForRole(Some(lookup.value)));
            refreshed := true;
          }
      }
      loading := false;
    }
  }
}
