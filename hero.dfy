/** The landing page's hero section: its call-to-action button opens the
    chat for a signed-in visitor and the login page otherwise. */
module Home {
  import opened Options
  import opened Url
  import opened Auth

  const OpenChatLabel := "Open AI Chat"
  const GetStartedLabel := "Get Started"

  /** Where the button sends a visitor the section believes signed in or not. */
  function GetStartedTarget(isLoggedIn: bool): (href: string)
    ensures href == ChatPath || href == LoginPath
    ensures href == ChatPath <==> isLoggedIn
  {
    if isLoggedIn then ChatPath else LoginPath
  }

  /** The button's text. */
  function ButtonLabel(isLoggedIn: bool): (text: string)
    ensures text == OpenChatLabel <==> isLoggedIn
    ensures text == GetStartedLabel <==> !isLoggedIn
  {
    if isLoggedIn then OpenChatLabel else GetStartedLabel
  }

  /** Whatever the section believes, a signed-in visitor ends on the chat
      page: directly, or through the login page, which forwards a signed-in
      visitor without a `redirect` parameter to "/chat". A signed-out one
      reaches the login page with no `redirect`, so signing in there also
      ends on "/chat". */
  lemma GetStartedEndsOnChat(isLoggedIn: bool, storage: map<string, string>)
    requires isLoggedIn ==> LoggedIn(storage)
    ensures var href := GetStartedTarget(isLoggedIn);
      href == ChatPath || (PathOf(href) == LoginPath && RedirectTarget(SearchOf(href)) == ChatPath)
  {
    if !isLoggedIn {
      PlainLoginLandsOnChat();
      IndexOfIs(LoginPath, '?', |LoginPath|);
      IndexOfIs(LoginPath, '#', |LoginPath|);
    }
  }

  class Hero {
    var isLoggedIn: bool

    /** Before the mount effect the visitor counts as signed out. */
    constructor()
      ensures !isLoggedIn
    {
      isLoggedIn := false;
    }

    /** The mount effect reads the flag. */
    method Mount(w: Window)
      modifies this
      ensures isLoggedIn <==> LoggedIn(w.storage)
    {
      var mockLoggedInCheck := GetItem(w.storage, FlagKey) == Some(FlagOn);
      isLoggedIn := mockLoggedInCheck;
    }

    /** `handleGetStarted`. */
    method GetStarted(w: Window)
      modifies w
      ensures w.navigation == Some(GetStartedTarget(isLoggedIn))
      ensures w.storage == old(w.storage) && w.pathname == old(w.pathname) && w.search == old(w.search)
    {
      if isLoggedIn {
        w.navigation := Some(ChatPath);
      } else {
        w.navigation := Some(LoginPath);
      }
    }
  }
}
