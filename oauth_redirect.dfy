/**
 * Reading an OAuth 2.0 implicit-grant response (section 4.2.2 of RFC 6749) out of the URL
 * fragment: the page takes `location.hash`, drops the `#`, parses the rest as URLSearchParams
 * and asks for `access_token`.
 */
module OAuthRedirect {
  import opened Wrappers
  import opened Strings
  import opened FormUrlencoded

  /** The one localStorage key that holds the token. */
  const TokenKey := "google_access_token"

  /**
   * `if (hash) { new URLSearchParams(hash.substring(1)).get("access_token") }`: nothing for an
   * empty hash, else the value of the first `access_token` pair after the leading `#`.
   */
  function HashAccessToken(hash: string): (r: Option<string>)
    ensures hash == "" ==> r.None?
    ensures hash != "" ==>
      var params := SearchParams(hash[1..]);
      (r.None? <==> forall i :: 0 <= i < |params| ==> params[i].name != "access_token") &&
      (r.Some? ==> exists i :: 0 <= i < |params| && params[i] == Pair("access_token", r.value) &&
                     forall j :: 0 <= j < i ==> params[j].name != "access_token")
  {
    if hash == "" then None else Get(SearchParams(hash[1..]), "access_token")
  }

  /**
   * A fragment that starts with an `access_token` pair yields that token, whatever follows
   * after the next `&`.
   */
  lemma LeadingAccessToken(token: string, rest: string)
    requires '&' !in token && '%' !in token && '+' !in token
    ensures HashAccessToken("#access_token=" + token + "&" + rest) == Some(token)
  {
    var query := "access_token=" + token + "&" + rest;
    var hash := "#access_token=" + token + "&" + rest;
    assert hash != "" && hash[1..] == query;
    LeadingPair(token, rest);
    var params := SearchParams(query);
    assert Get(params, "access_token") == Some(token);
    assert HashAccessToken(hash) == Get(SearchParams(hash[1..]), "access_token");
  }

  lemma LeadingPair(token: string, rest: string)
    requires '&' !in token && '%' !in token && '+' !in token
    ensures var params := SearchParams("access_token=" + token + "&" + rest);
      |params| > 0 && params[0] == Pair("access_token", token)
  {
    var first := "access_token=" + token;
    var query := first + "&" + rest;
    assert query[0] == 'a';
    LeadingPiece(token, rest);
    var pieces := [first] + Split(rest, '&');
    assert pieces[1..] == Split(rest, '&');
    assert ParsePieces(pieces)[0] == ParsePair(first);
    AccessTokenPair(token);
  }

  lemma LeadingPiece(token: string, rest: string)
    requires '&' !in token
    ensures Split("access_token=" + token + "&" + rest, '&') == ["access_token=" + token] + Split(rest, '&')
  {
    var first := "access_token=" + token;
    assert '&' !in first by {
      assert '&' !in "access_token=";
    }
    assert first + "&" + rest == first + ['&'] + rest;
    SplitAfterPiece(first, '&', rest);
  }

  lemma AccessTokenPair(token: string)
    requires '%' !in token && '+' !in token
    ensures ParsePair("access_token=" + token) == Pair("access_token", token)
  {
    assert "access_token" + "=" + token == "access_token=" + token;
    PlainPair("access_token", token);
  }
}
