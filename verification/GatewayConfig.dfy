/** Routes and their matching (internal/gateway/config.go:109-142). */
module GatewayConfig {
  import opened Wrappers
  import opened LoadBalancer

  datatype Route = Route(
    pattern: string, target: string, backends: seq<Backend>, loadBalancer: string, stripPrefix: string)

  predicate HasPrefix(s: string, prefix: string) { prefix <= s }

  predicate HasSuffix(s: string, suffix: string) { |suffix| <= |s| && s[|s| - |suffix|..] == suffix }

  predicate MatchesPattern(pattern: string, path: string) {
    if HasSuffix(pattern, "/*") then HasPrefix(path, pattern[..|pattern| - 2]) else pattern == path
  }

  /** A pattern matches its own text, or, when it ends in a wildcard, every path that extends
      what stands before the wildcard, whether or not a slash follows. */
  lemma PatternMeaning(pattern: string, path: string)
    ensures MatchesPattern(pattern, path) <==>
      if exists base :: pattern == base + "/*"
      then exists base, rest :: pattern == base + "/*" && path == base + rest
      else path == pattern
  {
    if HasSuffix(pattern, "/*") {
      var base := pattern[..|pattern| - 2];
      assert pattern == base + "/*";
      if HasPrefix(path, base) { assert path == base + path[|base|..]; }
    } else {
      assert forall base: string {:trigger base + "/*"} :: (base + "/*")[|base|..] == "/*";
    }
  }

  /** The first route, in configuration order, whose pattern matches. */
  ghost predicate FirstMatch(routes: seq<Route>, path: string, i: nat) {
    && i < |routes| && MatchesPattern(routes[i].pattern, path)
    && forall j :: 0 <= j < i ==> !MatchesPattern(routes[j].pattern, path)
  }

  method MatchRoute(routes: seq<Route>, path: string) returns (route: Option<Route>)
    ensures match route
            case Some(r) => exists i: nat :: i < |routes| && FirstMatch(routes, path, i) && r == routes[i]
            case None => forall i :: 0 <= i < |routes| ==> !MatchesPattern(routes[i].pattern, path)
  {
    for i := 0 to |routes|
      invariant forall j :: 0 <= j < i ==> !MatchesPattern(routes[j].pattern, path)
    {
      if MatchesPattern(routes[i].pattern, path) {
        assert FirstMatch(routes, path, i);
        return Some(routes[i]);
      }
    }
    return None;
  }

  /** Two paths routed to equal patterns are routed to the same route: a later route with an
      equal pattern can never be reached. */
  lemma EqualPatternsSameRoute(routes: seq<Route>, path: string, i: nat, path': string, i': nat)
    requires FirstMatch(routes, path, i) && FirstMatch(routes, path', i')
    requires routes[i].pattern == routes[i'].pattern
    ensures i == i'
  {}
}
