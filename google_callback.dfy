/**
 * `GoogleCallbackPage`, the page the authorization server redirects to: its effect reads the
 * token from the fragment, stores it, and sends the browser to `/`.
 */
module GoogleCallback {
  import opened Wrappers
  import opened Js
  import opened FormUrlencoded
  import opened Browser
  import opened OAuthRedirect
  import GoogleAuth

  /** What the callback page's effect leaves behind: the store and the effects, in order. */
  datatype CallbackOutcome = CallbackOutcome(store: map<string, string>, effects: seq<Effect>)

  /**
   * The effect as a function of the store and the URL. Either nothing happens, or exactly two
   * things in this order: the token key is set to a non-empty token, then the browser is sent
   * to `/`. No other store key is written.
   */
  function Callback(store: map<string, string>, loc: Location): (r: CallbackOutcome)
    ensures r.store - {TokenKey} == store - {TokenKey}
    ensures r.effects == [] ==> r.store == store
    ensures r.effects != [] ==>
      TokenKey in r.store && r.store[TokenKey] != "" &&
      r.effects == [StorageSet(TokenKey, r.store[TokenKey]), Navigate("/")]
    ensures (r.effects != []) == Truthy(HashAccessToken(loc.Hash()))
  {
    var token := HashAccessToken(loc.Hash());
    if Truthy(token) then
      CallbackOutcome(store[TokenKey := token.value], [StorageSet(TokenKey, token.value), Navigate("/")])
    else
      CallbackOutcome(store, [])
  }

  /**
   * The token stored is the first `access_token` value of the fragment, replacing any earlier
   * one; an empty hash, a fragment without `access_token`, or one whose first `access_token` is
   * empty leaves the store alone and navigates nowhere.
   */
  lemma CallbackStoresFirstToken(store: map<string, string>, loc: Location)
    ensures var r := Callback(store, loc);
      var t := HashAccessToken(loc.Hash());
      (loc.fragment == "" ==> r == CallbackOutcome(store, [])) &&
      (Truthy(t) ==> StoredValue(r.store, TokenKey) == t) &&
      (!Truthy(t) ==> r == CallbackOutcome(store, []))
  {
  }

  /** The effect of the page: the store write comes before the navigation. */
  method HandleRedirect(window: Window)
    modifies window
    ensures var r := Callback(old(window.localStorage), old(window.location));
      window.localStorage == r.store && window.effects == old(window.effects) + r.effects
    ensures window.location == old(window.location)
  {
    var hash := window.location.Hash();
    if hash != "" {
      var accessToken := Get(SearchParams(hash[1..]), "access_token");
      if Truthy(accessToken) {
        window.SetItem(TokenKey, accessToken.value);
        window.AssignHref("/");
      }
    }
  }

  /**
   * End to end: after the callback page has stored a token and sent the browser to `/`, the
   * root page mounts with a fresh session, no fragment, and signs in with that token.
   */
  lemma CallbackThenMount(store: map<string, string>, loc: Location)
    requires Truthy(HashAccessToken(loc.Hash()))
    ensures var t := HashAccessToken(loc.Hash()).value;
      var c := Callback(store, loc);
      var m := GoogleAuth.Mounted(GoogleAuth.SignedOut, c.store, Location(loc.origin, "/", "", ""));
      m.session == GoogleAuth.Session(true, Some(t), None) && m.store == c.store && m.effects == []
  {
    var root := Location(loc.origin, "/", "", "");
    assert root.Hash() == "";
  }
}
