/**
 * The navigation bar: the redirect of signed-out visitors to the login page, the
 * rule that hides the bar on the login and register pages, the role-dependent
 * dashboard link, Resources menu and greeting, the hover state machine of the
 * Resources dropdown, and the logout handler.
 */
module Navbar {
  import opened Wrappers
  import opened Session

  const LoginPath := "/login"
  const RegisterPath := "/register"

  /** The paths a signed-out visitor may stay on. */
  predicate IsPublicPath(path: string) {
    path == LoginPath || path == RegisterPath
  }

  /** The effect run after each render: a signed-out visitor, once the session check
      has finished, is sent to the login page (replacing the history entry) unless
      already on a public page. */
  function AuthRedirect(auth: Auth, path: string): (r: Option<Navigation>)
    ensures r.Some? <==> !auth.isLoading && auth.user.None? && !IsPublicPath(path)
    ensures r.Some? ==> r.value == Navigation(LoginPath, true)
  {
    var publicPaths := [LoginPath, RegisterPath];
    if !auth.isLoading && auth.user.None? && path !in publicPaths then
      Some(Navigation(LoginPath, true))
    else None
  }

  /** Whether the bar renders at all: it is hidden only for a signed-out visitor on
      the login or the register page. */
  function IsVisible(user: Option<User>, path: string): (r: bool)
    ensures !r <==> user.None? && IsPublicPath(path)
  {
    var isLoginPage := path == LoginPath;
    var isRegisterPage := path == RegisterPath;
    if user.None? && isLoginPage then false
    else if user.None? && isRegisterPage then false
    else true
  }

  const UserDashboardPath := "/dashboard"
  const AgentDashboardPath := "/agent-dashboard"

  /** The Dashboard link's target. */
  function DashboardPath(user: Option<User>): (r: string)
    ensures r == AgentDashboardPath <==> IsAgent(user)
    ensures r == UserDashboardPath <==> !IsAgent(user)
  {
    if user.Some? && user.value.role == Some(AgentRole) then AgentDashboardPath
    else UserDashboardPath
  }

  /** A rendered link: its text and its target. */
  datatype MenuLink = MenuLink(text: string, to: string)

  const Logo := MenuLink("RealEstateAI", "/")
  const MainLinks := [MenuLink("Prediction", "/predict"), MenuLink("Properties", "/properties"), MenuLink("Map View", "/map")]
  /** The visitor's Login link, which asks for the buyer flavour of the form. */
  const LoginLink := MenuLink("Login", "/login?role=user")

  const EmiCalculator := MenuLink("EMI Calculator", "/loan-calculator")
  const BuyingGuides := MenuLink("Buying Guides", "/buying-guides")
  const SellingGuides := MenuLink("Selling Guides", "/selling-guides")
  const AreaConverter := MenuLink("Area Converter", "/area-converter")
  const ArticlesNews := MenuLink("Articles & News", "/articles")
  const Faq := MenuLink("FAQ", "/faq")

  /** The entries of the open Resources dropdown for a signed-in user, in order:
      buyer resources or agent resources, then the common ones. */
  function ResourceLinks(u: User): (r: seq<MenuLink>)
    ensures EmiCalculator in r <==> !HasAgentRole(u)
    ensures BuyingGuides in r <==> !HasAgentRole(u)
    ensures SellingGuides in r <==> HasAgentRole(u)
    ensures !(SellingGuides in r && (EmiCalculator in r || BuyingGuides in r))
    ensures AreaConverter in r && ArticlesNews in r && Faq in r
    ensures |r| == if HasAgentRole(u) then 4 else 5
  {
    var buyer := if u.role != Some(AgentRole) then [EmiCalculator, BuyingGuides] else [];
    var agent := if u.role == Some(AgentRole) then [SellingGuides] else [];
    buyer + agent + [AreaConverter, ArticlesNews, Faq]
  }

  /** Every link the visible bar renders, in document order. A signed-in user sees
      the main menu, the dropdown entries while it is open, and the Dashboard link;
      a visitor sees only the logo and the Login link. */
  function Links(user: Option<User>, resourcesOpen: bool): (r: seq<MenuLink>)
    ensures |r| > 0 && r[0] == Logo
    ensures user.Some? ==> r[|r| - 1] == MenuLink("Dashboard", DashboardPath(user))
    ensures user.None? ==> |r| == 2 && r[1] == LoginLink
  {
    match user
    case Some(u) =>
      [Logo] + MainLinks + (if resourcesOpen then ResourceLinks(u) else []) + [MenuLink("Dashboard", DashboardPath(user))]
    case None =>
      [Logo, LoginLink]
  }

  /** The links a signed-in user sees besides the dropdown entries. */
  function FixedLinks(u: User): seq<MenuLink> {
    [Logo] + MainLinks + [MenuLink("Dashboard", DashboardPath(Some(u)))]
  }

  /** A dropdown entry is none of the fixed links, nor the Login link. */
  lemma ResourceNotFixed(u: User, l: MenuLink)
    requires l in ResourceLinks(u)
    ensures l !in FixedLinks(u) && l != LoginLink
  {
  }

  /** A signed-in user's bar shows a dropdown entry exactly while the dropdown is
      open, and shows the main menu whether or not it is. */
  lemma ResourcesShownIffOpen(u: User, resourcesOpen: bool)
    ensures forall l | l in ResourceLinks(u) :: l in Links(Some(u), resourcesOpen) <==> resourcesOpen
    ensures forall i | 0 <= i < |MainLinks| :: MainLinks[i] in Links(Some(u), resourcesOpen)
  {
    var r := Links(Some(u), resourcesOpen);
    var menu := ResourceLinks(u);
    forall i | 0 <= i < |MainLinks| ensures MainLinks[i] in r {
      assert r[1 + i] == MainLinks[i];
    }
    if resourcesOpen {
      forall l | l in menu ensures l in r {
        var k :| 0 <= k < |menu| && menu[k] == l;
        assert r[4 + k] == l;
      }
    } else {
      assert r == FixedLinks(u);
      forall l | l in menu ensures l !in r {
        ResourceNotFixed(u, l);
      }
    }
  }

  /** The Login link is shown exactly to a visitor. */
  lemma LoginLinkIffVisitor(user: Option<User>, resourcesOpen: bool)
    ensures LoginLink in Links(user, resourcesOpen) <==> user.None?
  {
    if user.Some? {
      assert LoginLink !in FixedLinks(user.value);
    }
  }

  /** The greeting "Hi, <name>" and the badge next to it. */
  datatype Greeting = Greeting(name: string, badge: string)

  function GreetingFor(u: User): (r: Greeting)
    ensures r == Greeting("Owner", "Agent") <==> HasAgentRole(u)
    ensures r == Greeting("Buyer", "User") <==> !HasAgentRole(u)
  {
    Greeting(if u.role == Some(AgentRole) then "Owner" else "Buyer",
             if u.role == Some(AgentRole) then "Agent" else "User")
  }

  /** The three places the bar shows the role agree for every signed-in user: the
      "Agent" badge, the agent dashboard as the Dashboard target, and the Selling
      Guides entry in the Resources menu come together or not at all. */
  lemma RoleViewsAgree(u: User)
    ensures GreetingFor(u).badge == "Agent" <==> DashboardPath(Some(u)) == AgentDashboardPath
    ensures DashboardPath(Some(u)) == AgentDashboardPath <==> SellingGuides in ResourceLinks(u)
    ensures GreetingFor(u).name == "Owner" <==> SellingGuides in ResourceLinks(u)
  {
  }

  /** Where the pointer goes when it leaves an element (`relatedTarget`). */
  datatype Pointer = ResourcesButton | DropdownPanel | Elsewhere | Nowhere

  /** The four mouse handlers of the Resources menu. */
  datatype HoverEvent =
    | EnterButton
    | LeaveWrapper(to: Pointer)
    | EnterDropdown
    | LeaveDropdown(to: Pointer)

  /** One hover event applied to the open flag. The wrapper's leave handler keeps
      the menu open only when the pointer moves into the dropdown, which is mounted
      (its ref set) only while the menu is open; the dropdown's leave handler keeps
      it open only when the pointer moves back onto the Resources button. */
  function Hover(open: bool, e: HoverEvent): (r: bool)
    ensures e.EnterButton? || e.EnterDropdown? ==> r
    ensures e.LeaveWrapper? ==> (r <==> open && e.to == DropdownPanel)
    ensures e.LeaveDropdown? ==> (r <==> open && e.to == ResourcesButton)
  {
    match e
    case EnterButton => true
    case EnterDropdown => true
    case LeaveWrapper(to) =>
      var dropdownMounted := open;
      if dropdownMounted && to == DropdownPanel then open else false
    case LeaveDropdown(to) =>
      if to == ResourcesButton then open else false
  }

  /** The open flag after a sequence of hover events. */
  function HoverAll(open: bool, es: seq<HoverEvent>): bool
    decreases |es|
  {
    if |es| == 0 then open
    else Hover(HoverAll(open, es[..|es| - 1]), es[|es| - 1])
  }

  predicate IsEnter(e: HoverEvent) {
    e.EnterButton? || e.EnterDropdown?
  }

  /** A leave event that hands the pointer between the button and the dropdown. */
  predicate Keeps(e: HoverEvent) {
    (e.LeaveWrapper? && e.to == DropdownPanel) || (e.LeaveDropdown? && e.to == ResourcesButton)
  }

  /** Every event of `es` from position `from` on keeps the menu as it is. */
  predicate KeptFrom(es: seq<HoverEvent>, from: int) {
    forall j | from <= j < |es| && 0 <= j :: Keeps(es[j])
  }

  /** The menu is open after `es` exactly when it was opened (initially, or by an
      enter event) and every later event only moved the pointer between the
      button and the dropdown. */
  lemma {:induction false} OpenIffEnteredAndKept(open: bool, es: seq<HoverEvent>)
    ensures HoverAll(open, es) <==>
      (open && KeptFrom(es, 0)) ||
      (exists i | 0 <= i < |es| :: IsEnter(es[i]) && KeptFrom(es, i + 1))
    decreases |es|
  {
    if |es| > 0 {
      var n := |es| - 1;
      var pre := es[..n];
      OpenIffEnteredAndKept(open, pre);
      assert forall j | 0 <= j < n :: pre[j] == es[j];
      var e := es[n];
      if IsEnter(e) {
        assert IsEnter(es[n]) && KeptFrom(es, n + 1);
      } else if Keeps(e) {
        assert HoverAll(open, es) == HoverAll(open, pre);
        if exists i | 0 <= i < |pre| :: IsEnter(pre[i]) && KeptFrom(pre, i + 1) {
          var i :| 0 <= i < |pre| && IsEnter(pre[i]) && KeptFrom(pre, i + 1);
          assert IsEnter(es[i]) && KeptFrom(es, i + 1);
        }
        if exists i | 0 <= i < |es| :: IsEnter(es[i]) && KeptFrom(es, i + 1) {
          var i :| 0 <= i < |es| && IsEnter(es[i]) && KeptFrom(es, i + 1);
          assert i < n;
          assert IsEnter(pre[i]) && KeptFrom(pre, i + 1);
        }
      } else {
        assert !HoverAll(open, es);
        assert !KeptFrom(es, 0);
        forall i | 0 <= i < |es| && IsEnter(es[i]) ensures !KeptFrom(es, i + 1) {
          assert i != n;
        }
      }
    }
  }

  /** What the logout button does, in order. */
  datatype LogoutStep = Go(nav: Navigation) | ScheduleLogout

  /** `handleLogout`: first navigates to the login page (replacing the history
      entry), then schedules the context's `logout()`; whatever `logout()` later
      does, the navigation has already happened. */
  function HandleLogout(): (r: seq<LogoutStep>)
    ensures |r| == 2 && r[0] == Go(Navigation(LoginPath, true)) && r[1] == ScheduleLogout
  {
    [Go(Navigation(LoginPath, true)), ScheduleLogout]
  }

  /** Once the redirect has landed (signed out, on the login page), no further
      redirect fires and the bar stays hidden: the redirect is a fixed point. */
  lemma RedirectSettles(auth: Auth, path: string)
    requires AuthRedirect(auth, path).Some?
    ensures AuthRedirect(auth, AuthRedirect(auth, path).value.to).None?
    ensures !IsVisible(auth.user, AuthRedirect(auth, path).value.to)
  {
  }

  /** The bar is never hidden on a page the redirect would leave: whenever the
      redirect fires, the current page still shows the bar. */
  lemma RedirectOnlyFromVisiblePages(auth: Auth, path: string)
    ensures AuthRedirect(auth, path).Some? ==> IsVisible(auth.user, path)
  {
  }

  /** After logout has run (no user, session check done) on the page the handler
      navigated to, the bar is hidden and no redirect loop starts. */
  lemma LogoutLandsOnLogin()
    ensures HandleLogout()[0].nav.to == LoginPath
    ensures !IsVisible(None, HandleLogout()[0].nav.to)
    ensures AuthRedirect(Auth(None, false), HandleLogout()[0].nav.to).None?
  {
  }
}
