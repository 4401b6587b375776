/**
 * What the pages see of the authentication context, and what a navigation
 * request looks like. The context itself (storage, tokens, the session check) is
 * outside the model: pages read `{user, isLoading}`, and the calls they make to
 * its `login` and `logout` functions appear as steps of their handlers.
 */
module Session {
  import opened Wrappers

  /** The user object the backend returned; `role` is its raw role string, which
      may be absent. The pages compare it against "agent" only. */
  datatype User = User(role: Option<string>)

  /** The context value `{user, isLoading}`; `user` is `None` for a visitor. */
  datatype Auth = Auth(user: Option<User>, isLoading: bool)

  const AgentRole := "agent"

  /** `user.role === 'agent'` for a present user. */
  predicate HasAgentRole(u: User) {
    u.role == Some(AgentRole)
  }

  /** `user?.role === 'agent'`: false when there is no user or no role. */
  predicate IsAgent(user: Option<User>) {
    user.Some? && HasAgentRole(user.value)
  }

  /** A call to the router's `navigate(to, { replace })`. */
  datatype Navigation = Navigation(to: string, replace: bool)

  /** A character that ends the path part of a link target: the start of the
      query (`?`) or of the fragment (`#`). */
  predicate EndsPath(c: char) {
    c == '?' || c == '#'
  }

  /** The part of a link target the router matches: everything before the first
      `?` or `#`, since the router splits off the fragment and the query first. */
  function PathOf(url: string): (r: string)
    ensures |r| <= |url| && r == url[..|r|] && '?' !in r && '#' !in r
    ensures |r| < |url| ==> EndsPath(url[|r|])
  {
    if |url| == 0 || EndsPath(url[0]) then ""
    else
      var rest := PathOf(url[1..]);
      assert url[..1 + |rest|] == [url[0]] + url[1..][..|rest|];
      [url[0]] + rest
  }

  /** A url written as a path without `?` or `#`, followed by a query or a
      fragment, is routed by that path alone. */
  lemma PathBeforeQuery(path: string, query: string)
    requires '?' !in path && '#' !in path
    requires |query| > 0 && EndsPath(query[0])
    ensures PathOf(path + query) == path
  {
    var url := path + query;
    assert url[|path|] == query[0];
    assert url[..|path|] == path;
  }
}
