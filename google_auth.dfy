/**
 * The `useGoogleAuth` hook: the session record, `signIn`, `signOut` and the effect that runs
 * when the hook mounts. The hook's component owns the session; the browser's `localStorage`
 * holds the token across page loads.
 */
module GoogleAuth {
  import opened Wrappers
  import opened Js
  import opened Strings
  import opened FormUrlencoded
  import opened UriComponent
  import opened Browser
  import opened OAuthRedirect

  /** Google's OAuth 2.0 authorization endpoint. */
  const AuthEndpoint := "https://accounts.google.com/o/oauth2/v2/auth"

  /** The page that receives the authorization response. */
  const CallbackPath := "/auth/google/callback"

  /** The permissions asked for, in the order they are listed. */
  const Scopes := [
    ScopeBase + "gmail.readonly",
    ScopeBase + "calendar.readonly",
    ScopeBase + "userinfo.email",
    ScopeBase + "userinfo.profile"
  ]

  /** The common prefix of Google's scope URLs. */
  const ScopeBase := "https://www.googleapis.com/auth/"

  const ConfigError :=
    "Google Client ID not configured. Please create .env.local file with NEXT_PUBLIC_GOOGLE_CLIENT_ID"

  /** `GoogleAuthState`. */
  datatype Session = Session(isSignedIn: bool, accessToken: Option<string>, error: Option<string>)

  /** The state the hook starts in and `signOut` returns to. */
  const SignedOut := Session(false, None, None)

  function SignedIn(token: string): Session {
    Session(true, Some(token), None)
  }

  /** The `scope` parameter: the scopes joined with single spaces (section 3.3 of RFC 6749). */
  function Scope(): string {
    Join(Scopes, ' ')
  }

  /** `${window.location.origin}/auth/google/callback`: the callback page on this origin. */
  function RedirectUri(origin: string): (r: string)
    ensures |r| == |origin| + |CallbackPath|
    ensures r[..|origin|] == origin && r[|origin|..] == CallbackPath
  {
    origin + CallbackPath
  }

  /**
   * The implicit-grant authorization request of section 4.2.1 of RFC 6749. The client id goes
   * in as it is; the redirect URI and the scope go through `encodeURIComponent`.
   */
  function AuthUrl(clientId: string, redirectUri: string, scope: string): string {
    AuthEndpoint + "?client_id=" + clientId + "&redirect_uri=" + Encode(redirectUri) +
    "&response_type=token&scope=" + Encode(scope)
  }

  /** Every character of a join is the separator or a character of some piece. */
  lemma {:induction false} JoinAscii(pieces: seq<string>, sep: char)
    requires |pieces| >= 1 && sep as int < 0x80
    requires forall i :: 0 <= i < |pieces| ==> IsAscii(pieces[i])
    ensures IsAscii(Join(pieces, sep))
    decreases |pieces|
  {
    if |pieces| > 1 {
      JoinAscii(pieces[1..], sep);
      assert IsAscii(pieces[0]);
    }
  }

  /**
   * Read back with the space delimiter of section 3.3 of RFC 6749, the scope is exactly the four
   * scopes in order; it is ASCII text.
   */
  lemma ScopeList()
    ensures Split(Scope(), ' ') == Scopes
    ensures IsAscii(Scope())
  {
    ScopesPlain();
    SplitJoin(Scopes, ' ');
    JoinAscii(Scopes, ' ');
  }

  lemma ScopesPlain()
    ensures forall i :: 0 <= i < |Scopes| ==> ' ' !in Scopes[i] && IsAscii(Scopes[i])
  {
    ScopeEntry("gmail.readonly");
    ScopeEntry("calendar.readonly");
    UserinfoScopes();
  }

  lemma UserinfoScopes()
    ensures ' ' !in Scopes[2] && IsAscii(Scopes[2]) && ' ' !in Scopes[3] && IsAscii(Scopes[3])
  {
    ScopeEntry("userinfo.email");
    ScopeEntry("userinfo.profile");
  }

  lemma ScopeEntry(name: string)
    requires ' ' !in name && IsAscii(name)
    ensures ' ' !in ScopeBase + name && IsAscii(ScopeBase + name)
  {
    ScopeBaseAscii();
  }

  lemma ScopeBaseAscii()
    ensures ' ' !in ScopeBase && IsAscii(ScopeBase)
  {
    PlainConcat("https://www.", "googleapis.com");
    PlainConcat("https://www.googleapis.com", "/auth/");
  }

  lemma PlainConcat(a: string, b: string)
    requires ' ' !in a && IsAscii(a) && ' ' !in b && IsAscii(b)
    ensures ' ' !in a + b && IsAscii(a + b)
  {
  }

  /**
   * The authorization server, parsing the query of the URL `signIn` navigates to, finds
   * `client_id`, the callback URI on this origin, `response_type=token` and the scope, in that
   * order and nothing else. The client id is inserted unencoded, so it comes back form-decoded,
   * and the query ends where it is meant to only when the id holds no `&` and no `#` (a `#`
   * would start the fragment). The id must also hold no tab, line feed or carriage return,
   * which the browser's URL parser strips before the request is sent. (ScopeList shows the
   * scope `signIn` passes is ASCII.)
   */
  lemma AuthUrlQuery(clientId: string, origin: string, scope: string)
    requires '&' !in clientId && '#' !in clientId
    requires '\t' !in clientId && '\n' !in clientId && '\r' !in clientId
    requires IsAscii(origin) && IsAscii(scope)
    ensures var url := AuthUrl(clientId, RedirectUri(origin), scope);
      var n := |AuthEndpoint| + 1;
      |url| > n && url[..n] == AuthEndpoint + "?" &&
      SearchParams(url[n..]) == [
        Pair("client_id", Decode(clientId)),
        Pair("redirect_uri", RedirectUri(origin)),
        Pair("response_type", "token"),
        Pair("scope", scope)] &&
      '#' !in url[n..]
  {
    var redirectUri := RedirectUri(origin);
    var e1, e2 := Encode(redirectUri), Encode(scope);
    var url := AuthUrl(clientId, redirectUri, scope);
    var n := |AuthEndpoint| + 1;
    AuthUrlPieces(clientId, redirectUri, scope);
    QueryParams(clientId, e1, e2);
    RedirectUriAscii(origin);
    DecodeEncode(redirectUri);
    DecodeEncode(scope);
    QueryWithoutFragment(clientId, e1, e2);
  }

  /** No `#` in the query, so the browser sends all of it and no fragment. */
  lemma QueryWithoutFragment(clientId: string, e1: string, e2: string)
    requires '#' !in clientId
    requires forall i :: 0 <= i < |e1| ==> e1[i] == '%' || IsUnreserved(e1[i])
    requires forall i :: 0 <= i < |e2| ==> e2[i] == '%' || IsUnreserved(e2[i])
    ensures '#' !in Join(["client_id=" + clientId, "redirect_uri=" + e1, "response_type=token", "scope=" + e2], '&')
  {
    assert '#' !in e1 && '#' !in e2;
    assert '#' !in "client_id=" && '#' !in "redirect_uri=" && '#' !in "response_type=token" && '#' !in "scope=";
    JoinFour("client_id=" + clientId, "redirect_uri=" + e1, "response_type=token", "scope=" + e2, '&');
  }

  /** The four pieces of the query parse to one pair each. */
  lemma QueryParams(clientId: string, e1: string, e2: string)
    requires '&' !in clientId
    requires forall i :: 0 <= i < |e1| ==> e1[i] == '%' || IsUnreserved(e1[i])
    requires forall i :: 0 <= i < |e2| ==> e2[i] == '%' || IsUnreserved(e2[i])
    ensures SearchParams(Join(["client_id=" + clientId, "redirect_uri=" + e1, "response_type=token", "scope=" + e2], '&')) ==
      [Pair("client_id", Decode(clientId)), Pair("redirect_uri", Decode(e1)),
       Pair("response_type", "token"), Pair("scope", Decode(e2))]
  {
    QueryPiecesSeparate(clientId, e1, e2);
    ParseFour("client_id=" + clientId, "redirect_uri=" + e1, "response_type=token", "scope=" + e2);
    QueryPairs(clientId, e1, e2);
  }

  lemma ParseFour(p0: string, p1: string, p2: string, p3: string)
    requires Join([p0, p1, p2, p3], '&')[0] != '?'
    requires p0 != "" && p1 != "" && p2 != "" && p3 != ""
    requires '&' !in p0 && '&' !in p1 && '&' !in p2 && '&' !in p3
    ensures SearchParams(Join([p0, p1, p2, p3], '&')) ==
      [ParsePair(p0), ParsePair(p1), ParsePair(p2), ParsePair(p3)]
  {
    var pieces := [p0, p1, p2, p3];
    ParseJoin(pieces);
    var params := SearchParams(Join(pieces, '&'));
    assert params == Parse(Join(pieces, '&'));
    SeqOfFour(params, ParsePair(p0), ParsePair(p1), ParsePair(p2), ParsePair(p3));
  }

  lemma SeqOfFour<T>(s: seq<T>, a: T, b: T, c: T, d: T)
    requires |s| == 4 && s[0] == a && s[1] == b && s[2] == c && s[3] == d
    ensures s == [a, b, c, d]
  {
  }

  lemma QueryPiecesSeparate(clientId: string, e1: string, e2: string)
    requires '&' !in clientId
    requires forall i :: 0 <= i < |e1| ==> e1[i] == '%' || IsUnreserved(e1[i])
    requires forall i :: 0 <= i < |e2| ==> e2[i] == '%' || IsUnreserved(e2[i])
    ensures var pieces := ["client_id=" + clientId, "redirect_uri=" + e1, "response_type=token", "scope=" + e2];
      Join(pieces, '&')[0] == 'c' &&
      pieces[0] != "" && pieces[1] != "" && pieces[2] != "" && pieces[3] != "" &&
      '&' !in pieces[0] && '&' !in pieces[1] && '&' !in pieces[2] && '&' !in pieces[3]
  {
    assert '&' !in e1 && '&' !in e2;
    JoinFour("client_id=" + clientId, "redirect_uri=" + e1, "response_type=token", "scope=" + e2, '&');
  }

  lemma RedirectUriAscii(origin: string)
    requires IsAscii(origin)
    ensures IsAscii(RedirectUri(origin))
  {
    assert IsAscii(CallbackPath);
  }

  /** The authorization URL is the endpoint, `?`, and four `&`-joined pieces. */
  lemma AuthUrlPieces(clientId: string, redirectUri: string, scope: string)
    ensures var e1, e2 := Encode(redirectUri), Encode(scope);
      AuthUrl(clientId, redirectUri, scope) == AuthEndpoint + "?" +
        Join(["client_id=" + clientId, "redirect_uri=" + e1, "response_type=token", "scope=" + e2], '&')
  {
    var e1, e2 := Encode(redirectUri), Encode(scope);
    var p0, p1, p2, p3 := "client_id=" + clientId, "redirect_uri=" + e1, "response_type=token", "scope=" + e2;
    JoinFour(p0, p1, p2, p3, '&');
    UrlTemplateSplits();
    Regroup(AuthEndpoint, "?", "client_id=", clientId, "&", "redirect_uri=", e1, p2, "scope=", e2);
  }

  lemma UrlTemplateSplits()
    ensures "?client_id=" == "?" + "client_id="
    ensures "&redirect_uri=" == "&" + "redirect_uri="
    ensures "&response_type=token&scope=" == "&" + "response_type=token" + "&" + "scope="
  {
  }

  lemma JoinFour(p0: string, p1: string, p2: string, p3: string, sep: char)
    ensures Join([p0, p1, p2, p3], sep) == p0 + [sep] + p1 + [sep] + p2 + [sep] + p3
  {
    var pieces := [p0, p1, p2, p3];
    assert pieces[1..] == [p1, p2, p3] && pieces[1..][1..] == [p2, p3] && pieces[1..][1..][1..] == [p3];
    assert Join([p2, p3], sep) == p2 + [sep] + p3;
    assert Join([p1, p2, p3], sep) == p1 + [sep] + (p2 + [sep] + p3);
  }

  /** String concatenation regrouped: the literal pieces of the URL template split at `?` and `&`. */
  lemma Regroup(a: string, q: string, c: string, x: string, amp: string, r: string, e1: string,
                t: string, sc: string, e2: string)
    ensures a + (q + c) + x + (amp + r) + e1 + (amp + t + amp + sc) + e2 ==
            a + q + ((c + x) + amp + (r + e1) + amp + t + amp + (sc + e2))
  {
  }

  lemma QueryPairs(clientId: string, e1: string, e2: string)
    ensures ParsePair("client_id=" + clientId) == Pair("client_id", Decode(clientId))
    ensures ParsePair("redirect_uri=" + e1) == Pair("redirect_uri", Decode(e1))
    ensures ParsePair("response_type=token") == Pair("response_type", "token")
    ensures ParsePair("scope=" + e2) == Pair("scope", Decode(e2))
  {
    ClientIdPair(clientId); RedirectUriPair(e1); ResponseTypePair(); ScopePair(e2);
  }
  lemma ClientIdPair(clientId: string)
    ensures ParsePair("client_id=" + clientId) == Pair("client_id", Decode(clientId))
  {
    assert "client_id" + "=" + clientId == "client_id=" + clientId;
    DecodedValuePair("client_id", clientId);
  }
  lemma RedirectUriPair(e1: string)
    ensures ParsePair("redirect_uri=" + e1) == Pair("redirect_uri", Decode(e1))
  {
    assert "redirect_uri" + "=" + e1 == "redirect_uri=" + e1;
    DecodedValuePair("redirect_uri", e1);
  }
  lemma ResponseTypePair()
    ensures ParsePair("response_type=token") == Pair("response_type", "token")
  {
    assert "response_type" + "=" + "token" == "response_type=token";
    PlainPair("response_type", "token");
  }
  lemma ScopePair(e2: string)
    ensures ParsePair("scope=" + e2) == Pair("scope", Decode(e2))
  {
    assert "scope" + "=" + e2 == "scope=" + e2;
    DecodedValuePair("scope", e2);
  }

  lemma DecodedValuePair(name: string, value: string)
    requires '=' !in name && '%' !in name && '+' !in name
    ensures ParsePair(name + "=" + value) == Pair(name, Decode(value))
  {
    ParsePairAt(name, value);
  }

  /** What the mount effect leaves behind: the session, the store, the URL and its effects. */
  datatype MountOutcome =
    MountOutcome(session: Session, store: map<string, string>, location: Location, effects: seq<Effect>)

  /**
   * The mount effect as a function of the session, the store and the URL it starts from. A
   * non-empty stored token signs the session in; a non-empty `access_token` in the fragment then
   * overrides it, is written to the store, and the URL is replaced by its path alone.
   * Whatever happens, the session either stays as it was or becomes signed in with a non-empty
   * token and no error, no store key but the token key changes, and the page stays where it is.
   */
  function Mounted(s: Session, store: map<string, string>, loc: Location): (r: MountOutcome)
    ensures r.session == s || (r.session.isSignedIn && Truthy(r.session.accessToken) && r.session.error == None)
    ensures r.store - {TokenKey} == store - {TokenKey}
    ensures r.location.origin == loc.origin && r.location.pathname == loc.pathname
    ensures r.location == loc || r.location == Location(loc.origin, loc.pathname, "", "")
    ensures r.effects == [] ||
      (Truthy(r.session.accessToken) &&
       r.effects == [StorageSet(TokenKey, r.session.accessToken.value), HistoryReplace(loc.pathname)])
  {
    var stored := StoredValue(store, TokenKey);
    var hydrated := if Truthy(stored) then SignedIn(stored.value) else s;
    var token := HashAccessToken(loc.Hash());
    if Truthy(token) then
      MountOutcome(SignedIn(token.value), store[TokenKey := token.value],
                   Location(loc.origin, loc.pathname, "", ""),
                   [StorageSet(TokenKey, token.value), HistoryReplace(loc.pathname)])
    else
      MountOutcome(hydrated, store, loc, [])
  }

  /**
   * A non-empty fragment token wins over any stored one: it is stored, the session is signed in
   * with it, and the query and fragment are gone from the URL.
   */
  lemma FragmentTokenWins(s: Session, store: map<string, string>, loc: Location)
    requires Truthy(HashAccessToken(loc.Hash()))
    ensures var t := HashAccessToken(loc.Hash()).value;
      var r := Mounted(s, store, loc);
      r.session == Session(true, Some(t), None) &&
      StoredValue(r.store, TokenKey) == Some(t) &&
      r.location == Location(loc.origin, loc.pathname, "", "") && r.location.Hash() == "" &&
      r.effects == [StorageSet(TokenKey, t), HistoryReplace(loc.pathname)]
  {
  }

  /**
   * Without a usable fragment token, a non-empty stored token restores the signed-in session;
   * with neither, nothing changes at all. No URL rewrite and no store write happen.
   */
  lemma StoredTokenRestores(s: Session, store: map<string, string>, loc: Location)
    requires !Truthy(HashAccessToken(loc.Hash()))
    ensures var stored := StoredValue(store, TokenKey);
      var r := Mounted(s, store, loc);
      r.store == store && r.location == loc && r.effects == [] &&
      r.session == (if Truthy(stored) then Session(true, stored, None) else s)
  {
  }

  /**
   * Running the mount effect again on what it left behind changes nothing: an already-consumed
   * fragment, or none, never disturbs the session or the store.
   */
  lemma MountIdempotent(s: Session, store: map<string, string>, loc: Location)
    ensures var r := Mounted(s, store, loc);
      Mounted(r.session, r.store, r.location) == r.(effects := [])
  {
    var r := Mounted(s, store, loc);
    if Truthy(HashAccessToken(loc.Hash())) {
      assert r.location.Hash() == "";
    }
  }

  /**
   * The session controller of `useGoogleAuth`. `authState` is the hook's state; `window`
   * holds the browser side; `clientId` is `NEXT_PUBLIC_GOOGLE_CLIENT_ID`, fixed at build time.
   */
  class AuthController {
    var authState: Session
    const window: Window
    const clientId: Option<string>

    constructor (window: Window, clientId: Option<string>)
      ensures this.window == window && this.clientId == clientId
      ensures authState == SignedOut
    {
      this.window := window;
      this.clientId := clientId;
      authState := SignedOut;
    }

    /**
     * `signIn`. Without a (non-empty) client id: records the configuration error, keeps the
     * rest of the session, alerts, and goes nowhere. Otherwise: navigates to the authorization
     * URL and changes nothing else. The store and the URL are never touched.
     */
    method SignIn()
      modifies this, window
      ensures window.localStorage == old(window.localStorage)
      ensures window.location == old(window.location)
      ensures !Truthy(clientId) ==>
        authState == old(authState).(error := Some(ConfigError)) &&
        window.effects == old(window.effects) + [Alert(ConfigError)]
      ensures Truthy(clientId) ==>
        authState == old(authState) &&
        window.effects == old(window.effects) +
          [Navigate(AuthUrl(clientId.value, RedirectUri(old(window.location).origin), Scope()))]
    {
      if !Truthy(clientId) {
        window.ShowAlert(ConfigError);
        authState := authState.(error := Some(ConfigError));
        return;
      }
      var redirectUri := RedirectUri(window.location.origin);
      var scope := Scope();
      var authUrl := AuthUrl(clientId.value, redirectUri, scope);
      window.AssignHref(authUrl);
    }

    /** `signOut`: whatever the state before, the token is gone and the session is signed out. */
    method SignOut()
      modifies this, window
      ensures authState == SignedOut
      ensures window.localStorage == old(window.localStorage) - {TokenKey}
      ensures StoredValue(window.localStorage, TokenKey) == None
      ensures window.location == old(window.location)
      ensures window.effects == old(window.effects) + [StorageRemove(TokenKey)]
    {
      window.RemoveItem(TokenKey);
      authState := SignedOut;
    }

    /** The `useEffect` that runs once on mount: hydrate from the store, then read the fragment. */
    method Mount()
      modifies this, window
      ensures var r := Mounted(old(authState), old(window.localStorage), old(window.location));
        authState == r.session && window.localStorage == r.store && window.location == r.location &&
        window.effects == old(window.effects) + r.effects
    {
      var storedToken := window.GetItem(TokenKey);
      if Truthy(storedToken) {
        authState := Session(true, storedToken, None);
      }
      assert window.localStorage == old(window.localStorage) && window.location == old(window.location)
        && window.effects == old(window.effects);
      var hash := window.location.Hash();
      if hash != "" {
        var accessToken := Get(SearchParams(hash[1..]), "access_token");
        if Truthy(accessToken) {
          window.SetItem(TokenKey, accessToken.value);
          authState := Session(true, accessToken, None);
          window.ReplaceState(window.location.pathname);
        }
      }
    }
  }

  /** Signing out twice leaves the same state as signing out once. */
  method SignOutTwice(c: AuthController)
    modifies c, c.window
    ensures c.authState == SignedOut
    ensures c.window.localStorage == old(c.window.localStorage) - {TokenKey}
    ensures c.window.location == old(c.window.location)
  {
    c.SignOut();
    c.SignOut();
  }
}
