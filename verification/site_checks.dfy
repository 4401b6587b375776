/**
 * Link targets looked up in the route table: a target reaches a page when the
 * router, ignoring any query string, resolves it to something other than the 404
 * heading.
 */
module RouteLinks {
  import opened Wrappers
  import Session
  import Routes
  import Navbar

  /** The router shows a real page (not the 404 heading) for link target `to`;
      any query string is ignored by the match. */
  predicate RoutesToPage(to: string) {
    var r := Routes.Resolve(Session.PathOf(to));
    r.Some? && r.value.page != Routes.NotFound
  }

  /** A target without a query is matched as it is. */
  lemma PlainPath(to: string)
    requires '?' !in to && '#' !in to
    ensures Session.PathOf(to) == to
  {
    assert to[..|to|] == to;
  }

  /** `to` is, verbatim, the path of a static route to a real page. */
  predicate IsStaticTarget(to: string) {
    && '?' !in to && '#' !in to
    && exists i | 0 <= i < |Routes.Table| ::
         Routes.Table[i].pattern == Routes.Exact(to) && Routes.Table[i].element.page != Routes.NotFound
  }

  /** A target that is the `i`-th static route's path. */
  lemma StaticAt(to: string, i: int)
    requires 0 <= i < |Routes.Table| && Routes.Table[i].pattern == Routes.Exact(to)
    requires '?' !in to && '#' !in to && Routes.Table[i].element.page != Routes.NotFound
    ensures IsStaticTarget(to)
  {
  }

  /** A single link to the `i`-th static route. */
  lemma LinkStatic(link: Navbar.MenuLink, i: int)
    requires 0 <= i < |Routes.Table| && Routes.Table[i].pattern == Routes.Exact(link.to)
    requires '?' !in link.to && '#' !in link.to && Routes.Table[i].element.page != Routes.NotFound
    ensures AllStatic([link])
  {
  }

  lemma StaticTargetRoutes(to: string)
    requires IsStaticTarget(to)
    ensures RoutesToPage(to)
  {
    var i :| 0 <= i < |Routes.Table| && Routes.Table[i].pattern == Routes.Exact(to)
             && Routes.Table[i].element.page != Routes.NotFound;
    PlainPath(to);
    Routes.ExactPathResolves(i);
  }

  /** Every link of `links` targets a static route. */
  predicate AllStatic(links: seq<Navbar.MenuLink>) {
    forall k | 0 <= k < |links| :: IsStaticTarget(links[k].to)
  }

  lemma ConcatStatic(a: seq<Navbar.MenuLink>, b: seq<Navbar.MenuLink>)
    requires AllStatic(a) && AllStatic(b)
    ensures AllStatic(a + b)
  {
    forall k | 0 <= k < |a + b| ensures IsStaticTarget((a + b)[k].to) {
      if k >= |a| {
        assert (a + b)[k] == b[k - |a|];
      }
    }
  }
}

/**
 * Facts that connect the pages to the route table: every place the navigation
 * bar and the auth pages send the user reaches a page of the table.
 */
module SiteChecks {
  import opened Wrappers
  import Session
  import Routes
  import Navbar
  import RouteLinks

  lemma AreaConverterStatic()
    ensures RouteLinks.AllStatic([Navbar.AreaConverter])
  {
    RouteLinks.LinkStatic(Navbar.AreaConverter, 8);
  }

  lemma ArticlesNewsStatic()
    ensures RouteLinks.AllStatic([Navbar.ArticlesNews])
  {
    RouteLinks.LinkStatic(Navbar.ArticlesNews, 9);
  }

  lemma FaqStatic()
    ensures RouteLinks.AllStatic([Navbar.Faq])
  {
    RouteLinks.LinkStatic(Navbar.Faq, 12);
  }

  lemma EmiCalculatorStatic()
    ensures RouteLinks.AllStatic([Navbar.EmiCalculator])
  {
    RouteLinks.LinkStatic(Navbar.EmiCalculator, 7);
  }

  lemma BuyingGuidesStatic()
    ensures RouteLinks.AllStatic([Navbar.BuyingGuides])
  {
    RouteLinks.LinkStatic(Navbar.BuyingGuides, 10);
  }

  lemma SellingGuidesStatic()
    ensures RouteLinks.AllStatic([Navbar.SellingGuides])
  {
    RouteLinks.LinkStatic(Navbar.SellingGuides, 11);
  }

  lemma CommonResourcesStatic()
    ensures RouteLinks.AllStatic([Navbar.AreaConverter, Navbar.ArticlesNews, Navbar.Faq])
  {
    AreaConverterStatic();
    ArticlesNewsStatic();
    FaqStatic();
    RouteLinks.ConcatStatic([Navbar.AreaConverter], [Navbar.ArticlesNews]);
    assert [Navbar.AreaConverter] + [Navbar.ArticlesNews] == [Navbar.AreaConverter, Navbar.ArticlesNews];
    RouteLinks.ConcatStatic([Navbar.AreaConverter, Navbar.ArticlesNews], [Navbar.Faq]);
    assert [Navbar.AreaConverter, Navbar.ArticlesNews] + [Navbar.Faq]
        == [Navbar.AreaConverter, Navbar.ArticlesNews, Navbar.Faq];
  }

  lemma BuyerResourcesStatic()
    ensures RouteLinks.AllStatic([Navbar.EmiCalculator, Navbar.BuyingGuides])
  {
    EmiCalculatorStatic();
    BuyingGuidesStatic();
    RouteLinks.ConcatStatic([Navbar.EmiCalculator], [Navbar.BuyingGuides]);
    assert [Navbar.EmiCalculator] + [Navbar.BuyingGuides] == [Navbar.EmiCalculator, Navbar.BuyingGuides];
  }

  /** The Resources dropdown only links to pages of the table. */
  lemma ResourceLinksStatic(u: Session.User)
    ensures RouteLinks.AllStatic(Navbar.ResourceLinks(u))
  {
    var common := [Navbar.AreaConverter, Navbar.ArticlesNews, Navbar.Faq];
    CommonResourcesStatic();
    if u.role != Some(Session.AgentRole) {
      var buyer := [Navbar.EmiCalculator, Navbar.BuyingGuides];
      BuyerResourcesStatic();
      RouteLinks.ConcatStatic(buyer, common);
      assert Navbar.ResourceLinks(u) == buyer + common;
    } else {
      SellingGuidesStatic();
      RouteLinks.ConcatStatic([Navbar.SellingGuides], common);
      assert Navbar.ResourceLinks(u) == [Navbar.SellingGuides] + common;
    }
  }

  lemma LogoStatic()
    ensures RouteLinks.AllStatic([Navbar.Logo])
  {
    RouteLinks.LinkStatic(Navbar.Logo, 0);
  }

  lemma PredictionLinkStatic()
    ensures RouteLinks.AllStatic([Navbar.MainLinks[0]])
  {
    RouteLinks.LinkStatic(Navbar.MainLinks[0], 3);
  }

  lemma PropertiesLinkStatic()
    ensures RouteLinks.AllStatic([Navbar.MainLinks[1]])
  {
    RouteLinks.LinkStatic(Navbar.MainLinks[1], 4);
  }

  lemma MapLinkStatic()
    ensures RouteLinks.AllStatic([Navbar.MainLinks[2]])
  {
    RouteLinks.LinkStatic(Navbar.MainLinks[2], 13);
  }

  /** The logo and the three main links. */
  lemma MainLinksStatic()
    ensures RouteLinks.AllStatic([Navbar.Logo] + Navbar.MainLinks)
  {
    var m := Navbar.MainLinks;
    LogoStatic();
    PredictionLinkStatic();
    PropertiesLinkStatic();
    MapLinkStatic();
    RouteLinks.ConcatStatic([Navbar.Logo], [m[0]]);
    RouteLinks.ConcatStatic([m[1]], [m[2]]);
    assert [Navbar.Logo] + [m[0]] == [Navbar.Logo, m[0]];
    assert [m[1]] + [m[2]] == [m[1], m[2]];
    RouteLinks.ConcatStatic([Navbar.Logo, m[0]], [m[1], m[2]]);
    assert [Navbar.Logo] + m == [Navbar.Logo, m[0]] + [m[1], m[2]];
  }

  lemma DashboardLinkStatic(u: Session.User)
    ensures RouteLinks.AllStatic([Navbar.MenuLink("Dashboard", Navbar.DashboardPath(Some(u)))])
  {
    var dash := Navbar.MenuLink("Dashboard", Navbar.DashboardPath(Some(u)));
    if Session.IsAgent(Some(u)) {
      RouteLinks.LinkStatic(dash, 15);
    } else {
      RouteLinks.LinkStatic(dash, 14);
    }
  }

  /** A signed-in user's bar: the fixed links, the dropdown entries shown, and the
      Dashboard link. */
  lemma MemberLinksStatic(u: Session.User, resourcesOpen: bool)
    ensures RouteLinks.AllStatic(Navbar.Links(Some(u), resourcesOpen))
  {
    var top := [Navbar.Logo] + Navbar.MainLinks;
    var menu := if resourcesOpen then Navbar.ResourceLinks(u) else [];
    var dash := [Navbar.MenuLink("Dashboard", Navbar.DashboardPath(Some(u)))];
    MainLinksStatic();
    ResourceLinksStatic(u);
    RouteLinks.ConcatStatic(top, menu);
    DashboardLinkStatic(u);
    RouteLinks.ConcatStatic(top + menu, dash);
  }

  lemma LoginLinkPath()
    ensures Session.PathOf(Navbar.LoginLink.to) == Navbar.LoginPath
  {
    Session.PathBeforeQuery("/login", "?role=user");
    assert Navbar.LoginLink.to == "/login" + "?role=user";
  }

  lemma LoginRoute()
    ensures Routes.Resolve(Navbar.LoginPath) == Some(Routes.Open(Routes.Login))
  {
    Routes.ExactPathResolves(1);
  }

  /** The visitor's Login link reaches the login page: its query string does not
      change its route. */
  lemma LoginLinkRoutes()
    ensures Routes.Resolve(Session.PathOf(Navbar.LoginLink.to)) == Some(Routes.Open(Routes.Login))
  {
    LoginLinkPath();
    LoginRoute();
  }

  /** Whoever is signed in and whether or not the Resources menu is open, every
      link the navigation bar renders reaches a page of the table. */
  lemma NavbarLinksRoute(user: Option<Session.User>, resourcesOpen: bool)
    ensures forall k | 0 <= k < |Navbar.Links(user, resourcesOpen)| ::
              RouteLinks.RoutesToPage(Navbar.Links(user, resourcesOpen)[k].to)
  {
    var links := Navbar.Links(user, resourcesOpen);
    match user
    case None =>
      RouteLinks.StaticAt(Navbar.Logo.to, 0);
      RouteLinks.StaticTargetRoutes(Navbar.Logo.to);
      LoginLinkRoutes();
    case Some(u) =>
      MemberLinksStatic(u, resourcesOpen);
      forall k | 0 <= k < |links| ensures RouteLinks.RoutesToPage(links[k].to) {
        RouteLinks.StaticTargetRoutes(links[k].to);
      }
  }

  /** The Dashboard link reaches the agent dashboard behind the agent guard for an
      agent, and the user dashboard behind the signed-in guard for everyone
      else. */
  lemma DashboardLinkRoutes(user: Option<Session.User>)
    ensures Routes.Resolve(Navbar.DashboardPath(user)) ==
            Some(if Session.IsAgent(user)
                 then Routes.Element(Routes.OwnerDashboard, Routes.AgentRoute)
                 else Routes.Element(Routes.UserDashboard, Routes.PrivateRoute))
  {
    if Session.IsAgent(user) {
      Routes.ExactPathResolves(15);
    } else {
      Routes.ExactPathResolves(14);
    }
  }

  /** The targets of the login form (home) and of the registration form, the
      redirect guard and the logout button (the login page) are pages of the
      table. */
  lemma AuthFlowTargetsRoute()
    ensures Routes.Resolve(Navbar.LoginPath) == Some(Routes.Open(Routes.Login))
    ensures Routes.Resolve("/") == Some(Routes.Open(Routes.Home))
  {
    Routes.ExactPathResolves(0);
    LoginRoute();
  }
}

/** The links printed on the login and registration pages, looked up in the
    route table. */
module AuthPageLinks {
  import opened Wrappers
  import Routes

  /** The login page's "create account" link reaches the registration page; its
      forgotten-password link has no route and shows the 404 heading. */
  lemma AuthPageLinksResolve()
    ensures Routes.Resolve("/register") == Some(Routes.Open(Routes.Register))
    ensures Routes.Resolve("/forgot") == Some(Routes.NotFoundElement)
  {
    Routes.ExactPathResolves(2);
    ForgotNotStatic();
    Routes.UnknownPathIsNotFound("/forgot");
  }

  /** The registration page's "sign in" link reaches the login page. */
  lemma SignInLinkResolves()
    ensures Routes.Resolve("/login") == Some(Routes.Open(Routes.Login))
  {
    Routes.ExactPathResolves(1);
  }

  /** `/forgot` is no static path of the table: none has seven characters. */
  lemma ForgotNotStatic()
    ensures forall i | 0 <= i < |Routes.Table| :: Routes.Table[i].pattern != Routes.Exact("/forgot")
  {
    forall i | 0 <= i < |Routes.Table| && Routes.Table[i].pattern.Exact?
      ensures Routes.Table[i].pattern.path != "/forgot"
    {
      var p := Routes.Table[i].pattern.path;
      assert |p| != 7;
    }
  }
}

/** Where the landing page sends the user, looked up in the route table. */
module HomeRoutes {
  import opened Wrappers
  import Session
  import Routes
  import HomePage

  /** The landing page's prediction and listings targets are pages of the table,
      but its contact target is not in the table and shows the 404 heading. */
  lemma HomePageTargets()
    ensures Routes.Resolve(HomePage.PredictPath) == Some(Routes.Open(Routes.Prediction))
    ensures Routes.Resolve(HomePage.PropertiesPath) == Some(Routes.Open(Routes.Properties))
    ensures Routes.Resolve(HomePage.ContactPath) == Some(Routes.NotFoundElement)
  {
    Routes.ExactPathResolves(3);
    Routes.ExactPathResolves(4);
    ContactNotStatic();
    Routes.UnknownPathIsNotFound(HomePage.ContactPath);
  }

  lemma ContactNotStatic()
    ensures forall i | 0 <= i < |Routes.Table| :: Routes.Table[i].pattern != Routes.Exact(HomePage.ContactPath)
  {
    forall i | 0 <= i < |Routes.Table| && Routes.Table[i].pattern.Exact?
      ensures Routes.Table[i].pattern.path != HomePage.ContactPath
    {
      var p := Routes.Table[i].pattern.path;
      assert |p| < 2 || p[1] != 'c';
    }
  }

  /** Every featured-listing card opens the listings page: the router ignores the
      card's filter query. */
  lemma FeaturedCardsListProperties(i: nat)
    requires i < |HomePage.FeaturedLinks|
    ensures Routes.Resolve(Session.PathOf(HomePage.FeaturedLinks[i])) == Some(Routes.Open(Routes.Properties))
  {
    var query := HomePage.FeaturedQueries[i];
    assert query[0] == '?';
    Session.PathBeforeQuery(HomePage.PropertiesPath, query);
    Routes.ExactPathResolves(4);
  }
}
