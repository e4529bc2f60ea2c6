/** The mock sign-in shared by the pages: a `localStorage` flag, the guard
    hook that sends a signed-out visitor to the login page with the current
    path in a `redirect` parameter, and the login page's mount effect that
    sends a signed-in visitor on to that target. */
module Auth {
  import opened Text
  import opened Options
  import opened Url

  const FlagKey := "forza_logged_in"
  const FlagOn := "true"
  const LoginPath := "/login"
  const RedirectParam := "redirect"
  const ChatPath := "/chat"

  /** What the components share of the browser: `localStorage`, the
      current location, and the target of the last `location.href`
      assignment (`None` while the page stays where it is). */
  class Window {
    var storage: map<string, string>
    var pathname: string
    var search: string
    var navigation: Option<string>

    constructor(storage: map<string, string>, pathname: string, search: string)
      ensures this.storage == storage && this.pathname == pathname && this.search == search
      ensures navigation == None
    {
      this.storage := storage;
      this.pathname := pathname;
      this.search := search;
      navigation := None;
    }
  }

  /** `localStorage.getItem(key)`: `null` for a missing key. */
  function GetItem(storage: map<string, string>, key: string): (r: Option<string>)
    ensures r.Some? <==> key in storage
    ensures r.Some? ==> r.value == storage[key]
  {
    if key in storage then Some(storage[key]) else None
  }

  /** Signed in: the flag holds exactly the string "true". */
  predicate LoggedIn(storage: map<string, string>): (b: bool)
    ensures b <==> FlagKey in storage && storage[FlagKey] == FlagOn
  {
    GetItem(storage, FlagKey) == Some(FlagOn)
  }

  /** Writing the flag signs in and removing it signs out, whatever else is stored. */
  lemma FlagWrites(storage: map<string, string>)
    ensures LoggedIn(storage[FlagKey := FlagOn])
    ensures !LoggedIn(storage - {FlagKey})
  {
  }

  /** Where the guard sends a signed-out visitor of `path`. */
  function LoginRedirect(path: string): (url: string)
    ensures |url| > |LoginPath| && url[..|LoginPath|] == LoginPath
  {
    LoginPath + "?" + RedirectParam + "=" + EncodeURIComponent(path)
  }

  /** The login target opens the login page with one query field; its
      `search` holds the encoded path exactly as written unless the path
      holds a `'`, which the URL parser stores as `%27`. */
  lemma LoginRedirectSplits(path: string)
    ensures PathOf(LoginRedirect(path)) == LoginPath
    ensures SearchOf(LoginRedirect(path)) == "?" + RedirectParam + "=" + QueryEncode(EncodeURIComponent(path))
    ensures SearchOf(LoginRedirect(path)) == "?" + RedirectParam + "=" + EncodeURIComponent(path) <==> '\'' !in path
  {
    IndexOfIs(LoginPath, '?', |LoginPath|);
    IndexOfIs(LoginPath, '#', |LoginPath|);
    RedirectParamPlain();
    WithQuerySplits(LoginPath, RedirectParam, path);
    QueryEncodeOfEncoding(path);
    var head := "?" + RedirectParam + "=";
    assert "?" + RedirectParam + "=" + QueryEncode(EncodeURIComponent(path)) == head + QueryEncode(EncodeURIComponent(path));
    assert "?" + RedirectParam + "=" + EncodeURIComponent(path) == head + EncodeURIComponent(path);
    assert forall x, y :: head + x == head + y ==> x == y by {
      forall x, y | head + x == head + y ensures x == y {
        assert x == (head + x)[|head|..];
      }
    }
  }

  /** The login target lands on the login page with the visitor's path as
      its `redirect` parameter, whatever characters the path holds. */
  lemma LoginRedirectRoundTrip(path: string)
    ensures PathOf(LoginRedirect(path)) == LoginPath
    ensures QueryGet(SearchOf(LoginRedirect(path)), RedirectParam) == Some(path)
  {
    LoginRedirectSplits(path);
    RedirectParamPlain();
    QueryGetOfEncoded(RedirectParam, path);
  }

  /** The parameter name is made of unreserved characters other than `'`. */
  lemma RedirectParamPlain()
    ensures RedirectParam != []
    ensures forall i :: 0 <= i < |RedirectParam| ==> Unreserved(RedirectParam[i]) && RedirectParam[i] != '\''
  {
  }

  /** Two paths never share a login target. */
  lemma LoginRedirectInjective(p: string, q: string)
    requires LoginRedirect(p) == LoginRedirect(q)
    ensures p == q
  {
    LoginRedirectRoundTrip(p);
    LoginRedirectRoundTrip(q);
  }

  /** The post-login destination read from a `search` string: the
      `redirect` parameter when it is present and non-empty, "/chat"
      otherwise. */
  function RedirectTarget(search: string): (t: string)
    ensures t != []
    ensures t == ChatPath || QueryGet(search, RedirectParam) == Some(t)
  {
    match QueryGet(search, RedirectParam)
    case Some(v) => if v != [] then v else ChatPath
    case None => ChatPath
  }

  /** A visitor sent to the login page from a path comes back to that path
      (to the chat page when the path is empty). */
  lemma LoginReturnsToPath(path: string)
    ensures RedirectTarget(SearchOf(LoginRedirect(path))) == if path != [] then path else ChatPath
  {
    LoginRedirectRoundTrip(path);
  }

  /** A visitor sent to the bare login page ends on the chat page. */
  lemma PlainLoginLandsOnChat()
    ensures SearchOf(LoginPath) == []
    ensures RedirectTarget(SearchOf(LoginPath)) == ChatPath
  {
    IndexOfIs(LoginPath, '?', |LoginPath|);
    IndexOfIs(LoginPath, '#', |LoginPath|);
    assert Fields([]) == [[]];
    assert Lookup([[]], RedirectParam) == Lookup([], RedirectParam) == None;
    assert QueryGet([], RedirectParam) == None;
  }

  /** `useAuthRedirect`: a signed-out visitor is sent to the login page
      with the current path; a signed-in one stays. */
  method UseAuthRedirect(w: Window)
    modifies w
    ensures w.storage == old(w.storage) && w.pathname == old(w.pathname) && w.search == old(w.search)
    ensures w.navigation == if LoggedIn(w.storage) then old(w.navigation) else Some(LoginRedirect(w.pathname))
  {
    var isLoggedIn := GetItem(w.storage, FlagKey) == Some(FlagOn);
    if !isLoggedIn {
      var currentPath := w.pathname;
      w.navigation := Some(LoginPath + "?" + RedirectParam + "=" + EncodeURIComponent(currentPath));
    }
  }

  /** The login page's mount effect: a signed-in visitor goes straight to
      the redirect target; a signed-out one stays and sees the form. */
  method MountLoginPage(w: Window)
    modifies w
    ensures w.storage == old(w.storage) && w.pathname == old(w.pathname) && w.search == old(w.search)
    ensures w.navigation == if LoggedIn(w.storage) then Some(RedirectTarget(w.search)) else old(w.navigation)
  {
    var isLoggedIn := GetItem(w.storage, FlagKey) == Some(FlagOn);
    if isLoggedIn {
      var redirect := QueryGet(w.search, RedirectParam);
      w.navigation := Some(if redirect.Some? && redirect.value != [] then redirect.value else ChatPath);
    }
  }
}
