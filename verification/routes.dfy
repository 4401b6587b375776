/**
 * The application's route table: URL path patterns mapped to page elements, two
 * of them behind access guards, and a catch-all 404 heading. Matching follows the
 * router's ranking for the patterns the table uses: an exact static path beats the
 * one dynamic pattern `/property/:id`, which beats the catch-all `*`.
 */
module Routes {
  import opened Wrappers
  import opened Text

  datatype Page =
    | Home | Login | Register | Prediction | Properties | PropertyDetail | Wishlist
    | LoanCalculator | AreaConverter | Articles | BuyingGuides | SellingGuides | Faq
    | PriceMap | UserDashboard | OwnerDashboard | ProfileEdit | UpgradePlan | NotFound

  /** How the page is mounted: directly, or inside the signed-in guard
      (`PrivateRoute`) or the agent-only guard (`AgentRoute`). */
  datatype Guard = Unguarded | PrivateRoute | AgentRoute

  datatype Element = Element(page: Page, guard: Guard)

  /** A route path: a fixed path, a fixed prefix followed by one `:id` segment, or `*`. */
  datatype Pattern = Exact(path: string) | Param(prefix: string) | CatchAll

  datatype Route = Route(pattern: Pattern, element: Element)

  function Open(p: Page): Element {
    Element(p, Unguarded)
  }

  const NotFoundElement := Open(NotFound)

  const Table: seq<Route> := [
    Route(Exact("/"), Open(Home)),
    Route(Exact("/login"), Open(Login)),
    Route(Exact("/register"), Open(Register)),
    Route(Exact("/predict"), Open(Prediction)),
    Route(Exact("/properties"), Open(Properties)),
    Route(Param("/property/"), Open(PropertyDetail)),
    Route(Exact("/wishlist"), Open(Wishlist)),
    Route(Exact("/loan-calculator"), Open(LoanCalculator)),
    Route(Exact("/area-converter"), Open(AreaConverter)),
    Route(Exact("/articles"), Open(Articles)),
    Route(Exact("/buying-guides"), Open(BuyingGuides)),
    Route(Exact("/selling-guides"), Open(SellingGuides)),
    Route(Exact("/faq"), Open(Faq)),
    Route(Exact("/map"), Open(PriceMap)),
    Route(Exact("/dashboard"), Element(UserDashboard, PrivateRoute)),
    Route(Exact("/agent-dashboard"), Element(OwnerDashboard, AgentRoute)),
    Route(Exact("/profile-edit"), Open(ProfileEdit)),
    Route(Exact("/upgrade-plan"), Open(UpgradePlan)),
    Route(CatchAll, NotFoundElement)
  ]

  /** What a dynamic segment such as `:id` accepts: a non-empty run without `/`. */
  predicate IsSegment(s: string) {
    |s| > 0 && '/' !in s
  }

  predicate Matches(pat: Pattern, path: string) {
    match pat
    case Exact(p) => path == p
    case Param(prefix) => StartsWith(path, prefix) && IsSegment(path[|prefix|..])
    case CatchAll => true
  }

  /** The router's preference among matching patterns: lower is preferred. */
  function Rank(pat: Pattern): nat {
    match pat
    case Exact(_) => 0
    case Param(_) => 1
    case CatchAll => 2
  }

  /** Route `rt` is a candidate for `path` at preference level `rank`. */
  predicate Candidate(rt: Route, path: string, rank: nat) {
    Rank(rt.pattern) == rank && Matches(rt.pattern, path)
  }

  /** The element of the first route in `routes` that is a candidate at `rank`. */
  function FirstMatch(routes: seq<Route>, path: string, rank: nat): Option<Element>
    decreases |routes|
  {
    if |routes| == 0 then None
    else if Candidate(routes[0], path, rank) then Some(routes[0].element)
    else FirstMatch(routes[1..], path, rank)
  }

  /** FirstMatch finds nothing exactly when no route is a candidate, and otherwise
      the element of a candidate that no earlier route precedes. */
  lemma {:induction false} FirstMatchSpec(routes: seq<Route>, path: string, rank: nat)
    ensures var r := FirstMatch(routes, path, rank);
      && (r.None? <==> forall i | 0 <= i < |routes| :: !Candidate(routes[i], path, rank))
      && (r.Some? ==> exists i | 0 <= i < |routes| ::
            && Candidate(routes[i], path, rank)
            && routes[i].element == r.value
            && forall j | 0 <= j < i :: !Candidate(routes[j], path, rank))
    decreases |routes|
  {
    if |routes| > 0 && !Candidate(routes[0], path, rank) {
      var tail := routes[1..];
      FirstMatchSpec(tail, path, rank);
      var r := FirstMatch(tail, path, rank);
      if r.Some? {
        var i :| 0 <= i < |tail| && Candidate(tail[i], path, rank) && tail[i].element == r.value
          && forall j | 0 <= j < i :: !Candidate(tail[j], path, rank);
        assert Candidate(routes[i + 1], path, rank);
        forall j | 0 <= j < i + 1 ensures !Candidate(routes[j], path, rank) {
          if j > 0 {
            assert routes[j] == tail[j - 1];
          }
        }
      } else {
        forall i | 0 <= i < |routes| ensures !Candidate(routes[i], path, rank) {
          if i > 0 {
            assert routes[i] == tail[i - 1];
          }
        }
      }
    }
  }

  /** What `<Routes>` renders for `path` with a table: the best-ranked match,
      first in table order within a rank; `None` when nothing matches. */
  function ResolveIn(routes: seq<Route>, path: string): Option<Element> {
    match FirstMatch(routes, path, 0)
    case Some(e) => Some(e)
    case None =>
      match FirstMatch(routes, path, 1)
      case Some(e) => Some(e)
      case None => FirstMatch(routes, path, 2)
  }

  /** Route `k` is the one the router picks for `path`: it matches, and every other
      matching route has a worse rank, or the same rank and a later position. */
  predicate Chosen(routes: seq<Route>, path: string, k: int) {
    && 0 <= k < |routes|
    && Matches(routes[k].pattern, path)
    && forall i | 0 <= i < |routes| && Matches(routes[i].pattern, path) ::
         Rank(routes[k].pattern) < Rank(routes[i].pattern) ||
         (Rank(routes[k].pattern) == Rank(routes[i].pattern) && k <= i)
  }

  /** ResolveIn renders nothing exactly when no route matches, and otherwise the
      element of the route the router's ranking picks. */
  lemma ResolveInSpec(routes: seq<Route>, path: string)
    ensures ResolveIn(routes, path).None? <==>
      forall i | 0 <= i < |routes| :: !Matches(routes[i].pattern, path)
    ensures ResolveIn(routes, path).Some? ==>
      exists k | 0 <= k < |routes| :: Chosen(routes, path, k) && routes[k].element == ResolveIn(routes, path).value
  {
    FirstMatchSpec(routes, path, 0);
    FirstMatchSpec(routes, path, 1);
    FirstMatchSpec(routes, path, 2);
    forall i | 0 <= i < |routes| && Matches(routes[i].pattern, path)
      ensures Candidate(routes[i], path, Rank(routes[i].pattern))
    {
    }
    var r := ResolveIn(routes, path);
    if r.Some? {
      var rank := if FirstMatch(routes, path, 0).Some? then 0
                  else if FirstMatch(routes, path, 1).Some? then 1 else 2;
      assert FirstMatch(routes, path, rank) == r;
      var k :| 0 <= k < |routes| && Candidate(routes[k], path, rank) && routes[k].element == r.value
        && forall j | 0 <= j < k :: !Candidate(routes[j], path, rank);
      ChosenAt(routes, path, rank, k);
    }
  }

  /** The first candidate of a rank below which nothing matches is the route the
      ranking picks. */
  lemma ChosenAt(routes: seq<Route>, path: string, rank: nat, k: int)
    requires 0 <= k < |routes| && Candidate(routes[k], path, rank)
    requires forall j | 0 <= j < k :: !Candidate(routes[j], path, rank)
    requires forall i, q | 0 <= i < |routes| && 0 <= q < rank :: !Candidate(routes[i], path, q)
    ensures Chosen(routes, path, k)
  {
    forall i | 0 <= i < |routes| && Matches(routes[i].pattern, path)
      ensures Rank(routes[k].pattern) < Rank(routes[i].pattern) ||
              (Rank(routes[k].pattern) == Rank(routes[i].pattern) && k <= i)
    {
      assert Candidate(routes[i], path, Rank(routes[i].pattern));
    }
  }

  /** What the application renders for `path`: always something, since the
      catch-all matches every path. */
  function Resolve(path: string): (r: Option<Element>)
    ensures r.Some?
  {
    FirstMatchSpec(Table, path, 2);
    assert Candidate(Table[|Table| - 1], path, 2);
    ResolveIn(Table, path)
  }

  /** No two routes of the table share a path pattern. */
  lemma PatternsDistinct()
    ensures forall i, j | 0 <= i < j < |Table| :: Table[i].pattern != Table[j].pattern
  {
  }

  /** Every static path of the table resolves to that route's own element. */
  lemma ExactPathResolves(i: int)
    requires 0 <= i < |Table| && Table[i].pattern.Exact?
    ensures Resolve(Table[i].pattern.path) == Some(Table[i].element)
  {
    PatternsDistinct();
    var path := Table[i].pattern.path;
    FirstMatchSpec(Table, path, 0);
    var e := FirstMatch(Table, path, 0);
    assert Candidate(Table[i], path, 0);
    var k :| 0 <= k < |Table| && Candidate(Table[k], path, 0) && Table[k].element == e.value;
    assert Table[k].pattern == Table[i].pattern;
  }

  /** The table's only dynamic route is `/property/:id` and its only catch-all is
      the last route. */
  lemma TableShape()
    ensures forall i | 0 <= i < |Table| :: Table[i].pattern.Param? <==> i == 5
    ensures forall i | 0 <= i < |Table| :: Table[i].pattern.CatchAll? <==> i == |Table| - 1
    ensures Table[5].pattern == Param("/property/")
  {
  }

  /** A path that is neither a static path of the table nor of the form
      `/property/<segment>` falls through to the 404 heading. */
  lemma UnknownPathIsNotFound(path: string)
    requires forall i | 0 <= i < |Table| :: Table[i].pattern != Exact(path)
    requires !(StartsWith(path, "/property/") && IsSegment(path[10..]))
    ensures Resolve(path) == Some(NotFoundElement)
  {
    TableShape();
    FirstMatchSpec(Table, path, 0);
    FirstMatchSpec(Table, path, 1);
    FirstMatchSpec(Table, path, 2);
    forall i | 0 <= i < |Table| ensures !Candidate(Table[i], path, 0) && !Candidate(Table[i], path, 1) {
      if Table[i].pattern.Exact? {
        assert Table[i].pattern != Exact(path);
      }
    }
    assert Candidate(Table[|Table| - 1], path, 2);
  }

  /** `/property/<id>` shows the property detail page for every one-segment id. */
  lemma PropertyPathResolves(id: string)
    requires IsSegment(id)
    ensures Resolve("/property/" + id) == Some(Open(PropertyDetail))
  {
    var path := "/property/" + id;
    assert path[..10] == "/property/";
    assert path[10..] == id;
    forall i | 0 <= i < |Table| && Table[i].pattern.Exact?
      ensures Table[i].pattern.path != path
    {
      var p := Table[i].pattern.path;
      // every static path is shorter than the prefix or differs from it early
      assert |p| < 10 || p[1] != 'p' || p[8] != 'y';
      assert path[1] == 'p' && path[8] == 'y';
    }
    FirstMatchSpec(Table, path, 0);
    assert FirstMatch(Table, path, 0).None?;
    FirstMatchSpec(Table, path, 1);
    assert Candidate(Table[5], path, 1);
  }

  /** Only the two dashboards are mounted behind guards: `/dashboard` behind the
      signed-in guard and `/agent-dashboard` behind the agent guard. The profile and
      plan pages, although listed with them, are open. */
  lemma OnlyDashboardsGuarded()
    ensures forall i | 0 <= i < |Table| ::
      (Table[i].element.guard == PrivateRoute <==> Table[i].pattern == Exact("/dashboard")) &&
      (Table[i].element.guard == AgentRoute <==> Table[i].pattern == Exact("/agent-dashboard"))
  {
  }
}
