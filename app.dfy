/**
 * The admin client's shell: logout, the periodic expiry check, the
 * start-up authentication and the route table with its guards. The
 * clock is a parameter (milliseconds since the epoch) and the answer to
 * the start-up token verification is an oracle.
 */
module App {
  import opened Wrappers
  import opened Strings
  import opened Session
  import Users

  /** The keys the session keeps in local storage. */
  const SessionKeys: set<string> := {"token", "userId", "isAdmin", "expirationTime"}

  /**
   * `Math.floor(Date.now() / 1000) >= parseInt(stored, 10)`: the clock, in
   * whole seconds, has reached the stored expiry. A comparison with NaN is
   * false.
   */
  predicate PastExpiry(stored: string, nowMs: nat) {
    match ParseInt(stored)
    case None => false
    case Some(exp) => nowMs / 1000 >= exp
  }

  /** Whole-second flooring and comparison with a non-negative expiry agree with milliseconds. */
  lemma SecondsReached(nowMs: nat, exp: nat)
    ensures nowMs / 1000 >= exp <==> nowMs >= exp * 1000
  {
    if nowMs / 1000 >= exp {
      assert nowMs >= (nowMs / 1000) * 1000;
    } else {
      assert nowMs / 1000 + 1 <= exp;
      assert nowMs < (nowMs / 1000 + 1) * 1000;
    }
  }

  /** A stored decimal expiry (seconds since the epoch) is reached exactly at that many thousand milliseconds. */
  lemma ExpiryAtNumericDate(exp: nat, nowMs: nat)
    ensures PastExpiry(NatToDecimal(exp), nowMs) <==> nowMs >= exp * 1000
  {
    ParseIntDecimal(exp);
    SecondsReached(nowMs, exp);
  }

  /** A stored text that is not a number never expires. */
  lemma NotANumberNeverExpires(stored: string, nowMs: nat)
    requires ParseInt(stored).None?
    ensures !PastExpiry(stored, nowMs)
  {
  }

  /** Once reached, an expiry stays reached. */
  lemma ExpiryMonotone(stored: string, earlier: nat, later: nat)
    requires earlier <= later && PastExpiry(stored, earlier)
    ensures PastExpiry(stored, later)
  {
  }

  /**
   * For the expiry of a token this server issued at `issuedMs`, the client
   * sees the session as expired from the start of the sixtieth second
   * after the second of issue: never within 59 seconds of issue, always
   * after 60.
   */
  lemma IssuedTokenLifetime(u: Users.User, issuedMs: nat, nowMs: nat)
    ensures var c := Users.IssueClaims(u, issuedMs);
      PastExpiry(NatToDecimal(c.exp), nowMs) <==> nowMs >= (c.iat + Users.TokenLifetime) * 1000
    ensures nowMs >= issuedMs + Users.TokenLifetime * 1000 ==>
      PastExpiry(NatToDecimal(Users.IssueClaims(u, issuedMs).exp), nowMs)
    ensures nowMs <= issuedMs + (Users.TokenLifetime - 1) * 1000 ==>
      !PastExpiry(NatToDecimal(Users.IssueClaims(u, issuedMs).exp), nowMs)
  {
    var c := Users.IssueClaims(u, issuedMs);
    ExpiryAtNumericDate(c.exp, nowMs);
  }

  /** `String(x)` for the result of `parseInt`: its decimal numeral, or `NaN`. */
  function NumberText(v: Option<int>): (s: string)
    ensures v.None? ==> s == "NaN"
    ensures v.Some? && v.value >= 0 ==> AllDigits(s) && ParseInt(s) == v
    ensures v.Some? && v.value < 0 ==> |s| >= 2 && s[0] == '-' && AllDigits(s[1..])
    ensures v.Some? ==> ParseInt(s) == v
  {
    match v
    case None => "NaN"
    case Some(n) =>
      if n >= 0 then ParseIntDecimal(n); NatToDecimal(n)
      else ParseIntNegative(-n); "-" + NatToDecimal(-n)
  }

  /** Re-storing the parsed form of a stored decimal expiry writes back the same text. */
  lemma StoredExpiryKept(exp: nat)
    ensures NumberText(ParseInt(NatToDecimal(exp))) == NatToDecimal(exp)
  {
    ParseIntDecimal(exp);
  }

  /** The paths the router knows; anything else falls through to the catch-all. */
  datatype Path =
    | LoginPath
    | RootPath
    | DashboardPath
    | ProductsPath
    | AddProductPath
    | EditProductPath(id: string)
    | AddGalleryPath(id: string)
    | OtherPath(path: string)

  /** What sits inside the protected layout. */
  datatype Page =
    | IndexRedirect
    | DashboardPage
    | ProductsPage
    | AddProductPage
    | EditProductPage(id: string)
    | AddGalleryPage(id: string)

  /**
   * What the shell renders. `Guarded` is the protected layout wrapped in a
   * guard told whether the session is authenticated; what the guard does
   * with that is not part of this model.
   */
  datatype Screen =
    | Loading
    | LoginScreen
    | Redirect(to: string)
    | Guarded(authenticated: bool, page: Page)

  /** `!!token && isAdmin`. */
  predicate Authenticated(token: string, isAdmin: bool) {
    token != "" && isAdmin
  }

  /** The route table. */
  function Render(path: Path, initialized: bool, token: string, isAdmin: bool): (screen: Screen)
    ensures !initialized ==> screen == Loading
    ensures initialized && path.LoginPath? ==>
      (screen == LoginScreen <==> !isAdmin) && (isAdmin ==> screen == Redirect("/dashboard"))
    ensures initialized && path.OtherPath? ==>
      screen == Redirect(if isAdmin then "/dashboard" else "/login")
    ensures screen.Guarded? ==> screen.authenticated == Authenticated(token, isAdmin)
    ensures screen.Guarded? <==> initialized && !path.LoginPath? && !path.OtherPath?
    ensures initialized && path.RootPath? ==> screen.Guarded? && screen.page == IndexRedirect
    ensures initialized && path.DashboardPath? ==> screen.Guarded? && screen.page == DashboardPage
    ensures initialized && path.ProductsPath? ==> screen.Guarded? && screen.page == ProductsPage
    ensures initialized && path.AddProductPath? ==> screen.Guarded? && screen.page == AddProductPage
    ensures initialized && path.EditProductPath? ==> screen.Guarded? && screen.page == EditProductPage(path.id)
    ensures initialized && path.AddGalleryPath? ==> screen.Guarded? && screen.page == AddGalleryPage(path.id)
  {
    if !initialized then Loading
    else
      match path
      case LoginPath => if !isAdmin then LoginScreen else Redirect("/dashboard")
      case OtherPath(_) => Redirect(if isAdmin then "/dashboard" else "/login")
      case RootPath => Guarded(Authenticated(token, isAdmin), IndexRedirect)
      case DashboardPath => Guarded(Authenticated(token, isAdmin), DashboardPage)
      case ProductsPath => Guarded(Authenticated(token, isAdmin), ProductsPage)
      case AddProductPath => Guarded(Authenticated(token, isAdmin), AddProductPage)
      case EditProductPath(id) => Guarded(Authenticated(token, isAdmin), EditProductPage(id))
      case AddGalleryPath(id) => Guarded(Authenticated(token, isAdmin), AddGalleryPage(id))
  }

  /** A protected page is reached as authenticated exactly when the token is set and the user is an admin. */
  lemma ProtectedNeedsAdminToken(path: Path, token: string, isAdmin: bool)
    requires !path.LoginPath? && !path.OtherPath?
    ensures Render(path, true, token, isAdmin).Guarded?
    ensures Render(path, true, token, isAdmin).authenticated <==> token != "" && isAdmin
  {
  }

  /** With the session cleared, nothing renders as authenticated and `/login` shows the login page. */
  lemma LoggedOutScreens(path: Path, initialized: bool)
    ensures Render(path, initialized, "", false).Guarded? ==> !Render(path, initialized, "", false).authenticated
    ensures initialized && path.LoginPath? ==> Render(path, initialized, "", false) == LoginScreen
    ensures initialized && path.OtherPath? ==> Render(path, initialized, "", false) == Redirect("/login")
  {
  }

  /** Setting the four session keys and then removing them leaves the rest of storage as it was. */
  lemma ClearedStorage(m: map<string, string>, token: string, userId: string, isAdmin: string, expiry: string)
    ensures m["token" := token]["userId" := userId]["isAdmin" := isAdmin]["expirationTime" := expiry]
      - {"token"} - {"userId"} - {"isAdmin"} - {"expirationTime"} == m - SessionKeys
  {
  }

  class AppContent {
    const global: GlobalState
    var isInitialized: bool
    /** The last navigation the shell asked for, if any. */
    var navigatedTo: Option<string>

    /** The session is cleared and none of its keys is stored. */
    ghost predicate LoggedOut()
      reads this, global
    {
      global.token == "" && global.userId == "" && !global.isAdmin && global.expirationTime == ""
      && global.storage.Keys !! SessionKeys
    }

    constructor (global: GlobalState)
      ensures this.global == global && !isInitialized && navigatedTo == None
    {
      this.global := global;
      isInitialized := false;
      navigatedTo := None;
    }

    /** The four session setters are cleared, the four keys removed and the user sent to `/login`. */
    method HandleLogout()
      modifies this, global
      ensures LoggedOut()
      ensures global.storage == old(global.storage) - SessionKeys
      ensures global.mode == old(global.mode)
      ensures navigatedTo == Some("/login") && isInitialized == old(isInitialized)
    {
      ghost var stored := global.storage;
      global.SetToken("");
      global.SetUserId("");
      global.SetIsAdmin(false);
      global.SetExpirationTime("");
      global.RemoveItem("token");
      global.RemoveItem("userId");
      global.RemoveItem("isAdmin");
      global.RemoveItem("expirationTime");
      ClearedStorage(stored, "", "", BoolText(false), "");
      navigatedTo := Some("/login");
    }

    /** The periodic check: logs out exactly when an expiry is stored and the clock has reached it. */
    method CheckTokenExpiration(nowMs: nat) returns (expired: bool)
      modifies this, global
      ensures expired <==>
        StoredOr(old(global.storage), "expirationTime") != ""
        && PastExpiry(StoredOr(old(global.storage), "expirationTime"), nowMs)
      ensures expired ==>
        LoggedOut() && global.storage == old(global.storage) - SessionKeys && navigatedTo == Some("/login")
      ensures !expired ==>
        global.token == old(global.token) && global.userId == old(global.userId)
        && global.isAdmin == old(global.isAdmin) && global.expirationTime == old(global.expirationTime)
        && global.storage == old(global.storage) && navigatedTo == old(navigatedTo)
      ensures global.mode == old(global.mode) && isInitialized == old(isInitialized)
    {
      var stored := StoredOr(global.storage, "expirationTime");
      expired := false;
      if stored != "" {
        var expirationTime := ParseInt(stored);
        var currentTime := nowMs / 1000;
        if expirationTime.Some? && currentTime >= expirationTime.value {
          HandleLogout();
          expired := true;
        }
      }
    }

    /**
     * Start-up: with a token and an expiry stored and the shell not yet
     * initialised, a reached expiry logs out without asking the server;
     * otherwise the server's verification decides: a valid token restores
     * the session (the expiry stored again as the text of its parsed
     * value), anything else logs out. The shell is initialised in every
     * case. `reply` is the server's answer, `None` when the request fails
     * in transit; `consulted` says whether it was asked.
     */
    method InitializeAuth(nowMs: nat, reply: Option<Users.VerifyReply>) returns (consulted: bool)
      modifies this, global
      ensures isInitialized
      ensures var storedToken := StoredOr(old(global.storage), "token");
        var storedExpiry := StoredOr(old(global.storage), "expirationTime");
        consulted <==>
          (storedToken != "" && storedExpiry != "" && !old(isInitialized) && !PastExpiry(storedExpiry, nowMs))
      ensures var storedToken := StoredOr(old(global.storage), "token");
        var storedExpiry := StoredOr(old(global.storage), "expirationTime");
        !(storedToken != "" && storedExpiry != "" && !old(isInitialized)) ==>
          global.token == old(global.token) && global.userId == old(global.userId)
          && global.isAdmin == old(global.isAdmin) && global.expirationTime == old(global.expirationTime)
          && global.storage == old(global.storage) && navigatedTo == old(navigatedTo)
      ensures var storedToken := StoredOr(old(global.storage), "token");
        var storedExpiry := StoredOr(old(global.storage), "expirationTime");
        storedToken != "" && storedExpiry != "" && !old(isInitialized) && !consulted ==>
          LoggedOut() && global.storage == old(global.storage) - SessionKeys && navigatedTo == Some("/login")
      ensures consulted && !(reply.Some? && reply.value.TokenValid?) ==>
        LoggedOut() && global.storage == old(global.storage) - SessionKeys && navigatedTo == Some("/login")
      ensures var storedToken := StoredOr(old(global.storage), "token");
        var storedExpiry := StoredOr(old(global.storage), "expirationTime");
        consulted && reply.Some? && reply.value.TokenValid? ==>
          global.token == storedToken && global.userId == reply.value.userId
          && global.isAdmin == reply.value.isAdmin
          && global.expirationTime == NumberText(ParseInt(storedExpiry))
          && global.storage == old(global.storage)["token" := storedToken]["userId" := reply.value.userId]
               ["isAdmin" := BoolText(reply.value.isAdmin)]["expirationTime" := NumberText(ParseInt(storedExpiry))]
          && navigatedTo == old(navigatedTo)
      ensures global.mode == old(global.mode)
    {
      var storedToken := StoredOr(global.storage, "token");
      var storedExpiry := StoredOr(global.storage, "expirationTime");
      consulted := false;
      if storedToken != "" && storedExpiry != "" && !isInitialized {
        var currentTime := nowMs / 1000;
        var expirationTime := ParseInt(storedExpiry);
        if expirationTime.Some? && currentTime >= expirationTime.value {
          HandleLogout();
        } else {
          consulted := true;
          if reply.Some? && reply.value.TokenValid? {
            global.SetToken(storedToken);
            global.SetUserId(reply.value.userId);
            global.SetIsAdmin(reply.value.isAdmin);
            global.SetExpirationTime(NumberText(expirationTime));
          } else {
            HandleLogout();
          }
        }
      }
      isInitialized := true;
    }
  }
}
