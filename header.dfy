/** The site header: a scroll-dependent style flag, a mobile menu that
    closes on an outside click, navigation links, and an auth section that
    offers an e-mail sign-in to signed-out visitors and "Open AI Chat" /
    "Log out" buttons to signed-in ones. */
module SiteHeader {
  import opened Text
  import opened Options
  import opened Auth

  const ScrollThreshold: real := 10.0
  const SignupPath := "/signup"
  const HomePath := "/"

  datatype AuthAction = LoginAction | SignupAction | ChatAction | LogoutAction

  /** Where each `handleAuth` action sends the window. */
  function ActionTarget(action: AuthAction): (href: string)
    ensures href != []
    ensures action != LogoutAction ==> href[0] == '/' && href != HomePath
  {
    match action
    case LoginAction => LoginPath
    case SignupAction => SignupPath
    case ChatAction => ChatPath
    case LogoutAction => HomePath
  }

  /** Distinct actions lead to distinct pages. */
  lemma ActionTargetsDistinct(a: AuthAction, b: AuthAction)
    requires a != b
    ensures ActionTarget(a) != ActionTarget(b)
  {
  }

  datatype NavLink = NavLink(href: string, text: string)

  const NavLinks: seq<NavLink> := [
    NavLink("/features", "Features"),
    NavLink("/utilities", "Utilities"),
    NavLink("/market-data", "Market Data"),
    NavLink("/chat", "AI Assistant"),
    NavLink("/code-explainer", "Code Explainer")
  ]

  /** The five links include the chat page, and no two share a target. */
  lemma NavLinksReachChat()
    ensures |NavLinks| == 5
    ensures exists i :: 0 <= i < |NavLinks| && NavLinks[i].href == ChatPath
    ensures forall i, j :: 0 <= i < j < |NavLinks| ==> NavLinks[i].href != NavLinks[j].href
  {
    assert NavLinks[3].href == ChatPath;
  }

  /** What the auth section shows: the e-mail form, or the account
      buttons with or without "Open AI Chat" ("Log out" is always there). */
  datatype AuthView = EmailForm | AccountButtons(openChat: bool)

  function AuthSection(isLoggedIn: bool, isChatPage: bool): (v: AuthView)
    ensures v.EmailForm? <==> !isLoggedIn
    ensures v == AccountButtons(true) <==> isLoggedIn && !isChatPage
  {
    if isLoggedIn then AccountButtons(!isChatPage) else EmailForm
  }

  /** The e-mail form signs in only an address that is non-empty and holds `@`. */
  predicate AcceptsEmail(email: string) {
    email != [] && ContainsChar(email, '@')
  }

  class Header {
    var isScrolled: bool
    var isLoggedIn: bool
    var isChatPage: bool
    var isMenuOpen: bool
    var email: string

    constructor()
      ensures !isScrolled && !isLoggedIn && !isChatPage && !isMenuOpen && email == []
    {
      isScrolled := false;
      isLoggedIn := false;
      isChatPage := false;
      isMenuOpen := false;
      email := [];
    }

    /** The scroll listener: the header is styled as scrolled past 10 px. */
    method Scroll(scrollY: real)
      modifies this
      ensures isScrolled <==> scrollY > ScrollThreshold
      ensures isLoggedIn == old(isLoggedIn) && isChatPage == old(isChatPage)
      ensures isMenuOpen == old(isMenuOpen) && email == old(email)
    {
      if scrollY > ScrollThreshold {
        isScrolled := true;
      } else {
        isScrolled := false;
      }
    }

    /** The mount effect: reads the flag and whether this is the chat page. */
    method Mount(w: Window)
      modifies this
      ensures isLoggedIn <==> LoggedIn(w.storage)
      ensures isChatPage <==> w.pathname == ChatPath
      ensures AuthSection(isLoggedIn, isChatPage) == AuthSection(LoggedIn(w.storage), w.pathname == ChatPath)
      ensures isScrolled == old(isScrolled) && isMenuOpen == old(isMenuOpen) && email == old(email)
    {
      var mockLoggedInCheck := GetItem(w.storage, FlagKey) == Some(FlagOn);
      isLoggedIn := mockLoggedInCheck;
      isChatPage := w.pathname == ChatPath;
    }

    /** The menu button flips the menu. */
    method ToggleMenu()
      modifies this
      ensures isMenuOpen == !old(isMenuOpen)
      ensures isScrolled == old(isScrolled) && isLoggedIn == old(isLoggedIn)
      ensures isChatPage == old(isChatPage) && email == old(email)
    {
      isMenuOpen := !isMenuOpen;
    }

    /** A document `mousedown`: one outside the menu container closes an
        open menu; any other click leaves it as it is. */
    method MouseDown(insideMenu: bool)
      modifies this
      ensures isMenuOpen <==> old(isMenuOpen) && insideMenu
      ensures isScrolled == old(isScrolled) && isLoggedIn == old(isLoggedIn)
      ensures isChatPage == old(isChatPage) && email == old(email)
    {
      if isMenuOpen && !insideMenu {
        isMenuOpen := false;
      }
    }

    /** `handleAuth`: navigates to the action's page; logging out also
        removes the flag and the signed-in state. The menu ends closed. */
    method HandleAuth(action: AuthAction, w: Window)
      modifies this, w
      ensures !isMenuOpen
      ensures w.navigation == Some(ActionTarget(action))
      ensures w.storage == if action == LogoutAction then old(w.storage) - {FlagKey} else old(w.storage)
      ensures isLoggedIn == if action == LogoutAction then false else old(isLoggedIn)
      ensures action == LogoutAction ==> !LoggedIn(w.storage)
      ensures w.pathname == old(w.pathname) && w.search == old(w.search)
      ensures isScrolled == old(isScrolled) && isChatPage == old(isChatPage) && email == old(email)
    {
      if action == LoginAction {
        w.navigation := Some(LoginPath);
      } else if action == SignupAction {
        w.navigation := Some(SignupPath);
      } else if action == ChatAction {
        w.navigation := Some(ChatPath);
      } else if action == LogoutAction {
        w.storage := w.storage - {FlagKey};
        isLoggedIn := false;
        w.navigation := Some(HomePath);
      }
      isMenuOpen := false;
    }

    method TypeEmail(value: string)
      modifies this
      ensures email == value
      ensures isScrolled == old(isScrolled) && isLoggedIn == old(isLoggedIn)
      ensures isChatPage == old(isChatPage) && isMenuOpen == old(isMenuOpen)
    {
      email := value;
    }

    /** `handleEmailSubmit`: an acceptable address signs in and opens the
        chat page; any other submission changes nothing. */
    method EmailSubmit(w: Window)
      modifies w
      ensures AcceptsEmail(email) ==>
        w.storage == old(w.storage)[FlagKey := FlagOn] && LoggedIn(w.storage) && w.navigation == Some(ChatPath)
      ensures !AcceptsEmail(email) ==> w.storage == old(w.storage) && w.navigation == old(w.navigation)
      ensures w.pathname == old(w.pathname) && w.search == old(w.search)
    {
      if email != [] && ContainsChar(email, '@') {
        w.storage := w.storage[FlagKey := FlagOn];
        w.navigation := Some(ChatPath);
      }
    }

    /** `handleNavClick` for a link of the mobile menu. */
    method NavClick(i: nat, w: Window)
      requires i < |NavLinks|
      modifies this, w
      ensures !isMenuOpen && w.navigation == Some(NavLinks[i].href)
      ensures w.storage == old(w.storage) && w.pathname == old(w.pathname) && w.search == old(w.search)
      ensures isScrolled == old(isScrolled) && isLoggedIn == old(isLoggedIn)
      ensures isChatPage == old(isChatPage) && email == old(email)
    {
      isMenuOpen := false;
      w.navigation := Some(NavLinks[i].href);
    }
  }
}
