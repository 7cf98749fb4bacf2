/**
 * The route matcher: built once from an ordered list of routes, it returns,
 * for an incoming URL, every route whose template matches the URL's path, in
 * registration order, each with its own value bag and typed source.
 */
module Matcher {
  import opened Wrappers
  import opened RoutePattern
  import opened DeepLink

  /**
   * One successful match: the position of the route in the registry, the
   * route itself, the values extracted for it and its resolved source.
   */
  datatype MatchedRoute = MatchedRoute(index: nat, route: Route, values: map<string, string>, source: Source)

  /** The `source` query value of a URL, if it carries one. */
  function SourceQuery(url: Url): Option<string>
  {
    QueryValue(url.query, SourceKey)
  }

  /** Whether the value bag of `route` receives the URL's fragment. */
  predicate TakesFragment(route: Route, url: Url)
  {
    route.extractsFragment && url.fragment.Some?
  }

  /** The reserved keys a match of `route` against `url` fills in. */
  function ReservedKeys(route: Route, url: Url): set<string>
  {
    {UrlKey}
    + (if SourceQuery(url).Some? then {SourceKey} else {})
    + (if TakesFragment(route, url) then {FragmentKey} else {})
  }

  /**
   * What the value bag of a match of `route` against `url` must be: its keys
   * are the route's placeholder names and the reserved keys that apply;
   * `url` holds the URL's full text; `source` holds the `source` query value
   * and exists only when the query has one; `fragment` holds the raw
   * fragment and exists only for a fragment-extraction route; and every
   * other placeholder name holds the path component in its position.
   */
  ghost predicate BagFor(route: Route, url: Url, bag: map<string, string>)
  {
    var pattern := route.Pattern();
    && |pattern| == |url.path|
    && bag.Keys == Names(pattern) + ReservedKeys(route, url)
    && bag[UrlKey] == url.text
    && (SourceQuery(url).Some? ==> bag[SourceKey] == SourceQuery(url).value)
    && (TakesFragment(route, url) ==> bag[FragmentKey] == url.fragment.value)
    && forall i :: 0 <= i < |pattern| && LastBinding(pattern, i) && !Reserved(pattern[i].name) ==>
         pattern[i].name in bag && bag[pattern[i].name] == url.path[i]
  }

  /**
   * Seeds the bag with the placeholder bindings and lays the reserved
   * entries over them.
   */
  function ValueBag(route: Route, url: Url, bindings: map<string, string>): (bag: map<string, string>)
    ensures bag.Keys == bindings.Keys + ReservedKeys(route, url)
    ensures bag[UrlKey] == url.text
    ensures SourceQuery(url).Some? ==> bag[SourceKey] == SourceQuery(url).value
    ensures TakesFragment(route, url) ==> bag[FragmentKey] == url.fragment.value
    ensures forall k :: k in bindings && !Reserved(k) ==> bag[k] == bindings[k]
  {
    ReservedKeysDistinct();
    var withUrl := bindings[UrlKey := url.text];
    var withSource := if SourceQuery(url).Some? then withUrl[SourceKey := SourceQuery(url).value] else withUrl;
    if TakesFragment(route, url) then withSource[FragmentKey := url.fragment.value] else withSource
  }

  /**
   * Matches one route against a URL: no match when the path does not fit the
   * template; otherwise the route, its bag and its source, overridden by a
   * recognised `source` query value.
   */
  function MatchRoute(route: Route, index: nat, url: Url): (m: Option<MatchedRoute>)
    ensures m.Some? <==> PathMatches(route.Pattern(), url.path)
    ensures m.Some? ==> m.value.index == index && m.value.route == route
    ensures m.Some? ==> m.value.source == ResolveSource(SourceQuery(url), route.defaultSource)
  {
    match MatchSegments(route.Pattern(), url.path)
    case None => None
    case Some(bindings) =>
      Some(MatchedRoute(index, route, ValueBag(route, url, bindings),
                        ResolveSource(SourceQuery(url), route.defaultSource)))
  }

  /** The bag of a successful match is the one BagFor describes. */
  lemma MatchRouteBag(route: Route, index: nat, url: Url)
    requires PathMatches(route.Pattern(), url.path)
    ensures BagFor(route, url, MatchRoute(route, index, url).value.values)
  {
    var bindings := MatchSegments(route.Pattern(), url.path).value;
    var bag := ValueBag(route, url, bindings);
    assert MatchRoute(route, index, url).value.values == bag;
  }

  /** The registry, fixed when the matcher is built. */
  datatype RouteMatcher = RouteMatcher(routes: seq<Route>)
  {
    /**
     * Tries every registered route in turn and keeps each match, without
     * stopping at the first.
     */
    function RoutesMatching(url: Url): (matches: seq<MatchedRoute>)
      ensures |matches| <= |routes|
      decreases |routes|
    {
      if routes == [] then []
      else
        var last := |routes| - 1;
        var earlier := RouteMatcher(routes[..last]).RoutesMatching(url);
        match MatchRoute(routes[last], last, url)
        case None => earlier
        case Some(m) => earlier + [m]
    }
  }

  /**
   * Every match comes from a registered route whose template fits the URL's
   * path and carries exactly what MatchRoute gives that route at its position.
   */
  lemma {:induction false} RoutesMatchingSound(matcher: RouteMatcher, url: Url)
    ensures forall k :: 0 <= k < |matcher.RoutesMatching(url)| ==>
      matcher.RoutesMatching(url)[k].index < |matcher.routes| &&
      MatchRoute(matcher.routes[matcher.RoutesMatching(url)[k].index], matcher.RoutesMatching(url)[k].index, url)
        == Some(matcher.RoutesMatching(url)[k])
    decreases |matcher.routes|
  {
    var routes := matcher.routes;
    if routes != [] {
      var last := |routes| - 1;
      var prefix := RouteMatcher(routes[..last]);
      RoutesMatchingSound(prefix, url);
      assert forall i :: 0 <= i < last ==> prefix.routes[i] == routes[i];
      var earlier := prefix.RoutesMatching(url);
      match MatchRoute(routes[last], last, url)
      case None =>
        assert matcher.RoutesMatching(url) == earlier;
      case Some(m) =>
        var r := earlier + [m];
        assert matcher.RoutesMatching(url) == r;
        assert forall k :: 0 <= k < |earlier| ==> r[k] == earlier[k];
        assert r[|earlier|] == m && m.index == last;
    }
  }

  /** The matches come in registration order, no route twice. */
  lemma {:induction false} RoutesMatchingOrdered(matcher: RouteMatcher, url: Url)
    ensures var matches := matcher.RoutesMatching(url);
      && (forall k :: 0 <= k < |matches| ==> matches[k].index < |matcher.routes|)
      && Increasing(Indices(matches))
    decreases |matcher.routes|
  {
    var routes := matcher.routes;
    if routes != [] {
      var last := |routes| - 1;
      RoutesMatchingOrdered(RouteMatcher(routes[..last]), url);
      IndicesStep(matcher, url);
    }
  }

  /** Every registered route whose template fits the URL's path is among the matches: not first-match-wins. */
  lemma {:induction false} RoutesMatchingComplete(matcher: RouteMatcher, url: Url, i: nat)
    requires i < |matcher.routes| && PathMatches(matcher.routes[i].Pattern(), url.path)
    ensures i in Indices(matcher.RoutesMatching(url))
    decreases |matcher.routes|
  {
    var routes := matcher.routes;
    var last := |routes| - 1;
    var prefix := RouteMatcher(routes[..last]);
    var earlier := Indices(prefix.RoutesMatching(url));
    var tail := if PathMatches(routes[last].Pattern(), url.path) then [last] else [];
    IndicesStep(matcher, url);
    assert Indices(matcher.RoutesMatching(url)) == earlier + tail;
    if i < last {
      assert prefix.routes[i] == routes[i];
      RoutesMatchingComplete(prefix, url, i);
      assert i in earlier;
    } else {
      assert i == last;
      assert (earlier + tail)[|earlier|] == i;
    }
  }

  /** Adding a route at the end of the registry adds its position to the matches exactly when its template fits. */
  lemma IndicesStep(matcher: RouteMatcher, url: Url)
    requires matcher.routes != []
    ensures var last := |matcher.routes| - 1;
      Indices(matcher.RoutesMatching(url))
        == Indices(RouteMatcher(matcher.routes[..last]).RoutesMatching(url))
           + (if PathMatches(matcher.routes[last].Pattern(), url.path) then [last] else [])
  {
    var last := |matcher.routes| - 1;
    var earlier := RouteMatcher(matcher.routes[..last]).RoutesMatching(url);
    match MatchRoute(matcher.routes[last], last, url)
    case None =>
    case Some(m) =>
      assert Indices(earlier + [m]) == Indices(earlier) + [last];
  }

  /**
   * For a well-formed route the bag holds one entry per placeholder plus
   * one per reserved key that applies.
   */
  lemma WellFormedBagSize(route: Route, url: Url, bag: map<string, string>)
    requires WellFormed(route) && BagFor(route, url, bag)
    ensures |bag| == PlaceholderCount(route.Pattern()) + |ReservedKeys(route, url)|
  {
    var names, reserved := Names(route.Pattern()), ReservedKeys(route, url);
    DistinctNamesCount(route.Pattern());
    assert names * reserved == {};
    assert |names + reserved| == |names| + |reserved|;
    assert bag.Keys == names + reserved;
  }

  /** For a well-formed route every placeholder is bound to the path component in its position. */
  lemma WellFormedBagValues(route: Route, url: Url, bag: map<string, string>)
    requires WellFormed(route) && BagFor(route, url, bag)
    ensures forall i :: 0 <= i < |route.Pattern()| && route.Pattern()[i].Placeholder? ==>
      route.Pattern()[i].name in bag && bag[route.Pattern()[i].name] == url.path[i]
  {
    var pattern := route.Pattern();
    forall i | 0 <= i < |pattern| && pattern[i].Placeholder?
      ensures pattern[i].name in bag && bag[pattern[i].name] == url.path[i]
    {
      DistinctAllLast(pattern, i);
      NamesMembership(pattern, pattern[i].name);
      assert pattern[i].name in Names(pattern);
    }
  }

  /** The number of reserved entries: `url` always, `source` and `fragment` when they apply. */
  lemma ReservedCount(route: Route, url: Url)
    ensures |ReservedKeys(route, url)| ==
      1 + (if SourceQuery(url).Some? then 1 else 0) + (if TakesFragment(route, url) then 1 else 0)
  {
  }

  /** The reserved entries of the bag of a well-formed route. */
  lemma WellFormedBagReserved(route: Route, url: Url, bag: map<string, string>)
    requires WellFormed(route) && BagFor(route, url, bag)
    ensures UrlKey in bag && bag[UrlKey] == url.text
    ensures SourceKey in bag <==> SourceQuery(url).Some?
    ensures FragmentKey in bag <==> TakesFragment(route, url)
  {
  }

  /** The registry positions of a sequence of matches. */
  function Indices(matches: seq<MatchedRoute>): (idx: seq<nat>)
    ensures |idx| == |matches|
    ensures forall k :: 0 <= k < |idx| ==> idx[k] == matches[k].index
  {
    seq(|matches|, k requires 0 <= k < |matches| => matches[k].index)
  }

  predicate Increasing(s: seq<nat>)
  {
    forall k, l :: 0 <= k < l < |s| ==> s[k] < s[l]
  }

  /** Dropping the head of an increasing sequence drops exactly that element. */
  lemma IncreasingTail(s: seq<nat>, x: nat)
    requires Increasing(s) && s != []
    ensures x in s[1..] <==> x in s && x != s[0]
  {
    if x in s[1..] {
      var i :| 0 <= i < |s[1..]| && s[1..][i] == x;
      assert s[i + 1] == x;
    }
    if x in s && x != s[0] {
      var i :| 0 <= i < |s| && s[i] == x;
      assert s[1..][i - 1] == x;
    }
  }

  /** Two increasing sequences with the same elements are the same sequence. */
  lemma {:induction false} IncreasingUnique(s: seq<nat>, t: seq<nat>)
    requires Increasing(s) && Increasing(t)
    requires forall x :: x in s <==> x in t
    ensures s == t
  {
    if s != [] && t != [] {
      assert s[0] == t[0] by {
        assert s[0] in s && t[0] in t;
        var j :| 0 <= j < |t| && t[j] == s[0];
        var i :| 0 <= i < |s| && s[i] == t[0];
        assert s[0] <= s[i] && t[0] <= t[j];
      }
      forall x ensures x in s[1..] <==> x in t[1..] {
        IncreasingTail(s, x);
        IncreasingTail(t, x);
      }
      IncreasingUnique(s[1..], t[1..]);
      assert s == [s[0]] + s[1..] && t == [t[0]] + t[1..];
    } else if s != [] {
      ghost var x := s[0];
      ghost var found := x in t;
      assert false;
    } else if t != [] {
      ghost var x := t[0];
      ghost var found := x in s;
      assert false;
    }
  }

  /**
   * The matches of a URL are exactly the given registry positions, in that
   * order, when those are the positions of the routes whose templates fit
   * the URL's path, listed in increasing order.
   */
  lemma MatchedPositions(matcher: RouteMatcher, url: Url, expected: seq<nat>)
    requires Increasing(expected)
    requires forall x :: x in expected ==> x < |matcher.routes|
    requires forall i :: 0 <= i < |matcher.routes| ==>
      (PathMatches(matcher.routes[i].Pattern(), url.path) <==> i in expected)
    ensures Indices(matcher.RoutesMatching(url)) == expected
    ensures forall k :: 0 <= k < |expected| ==>
      expected[k] < |matcher.routes| && matcher.RoutesMatching(url)[k].route == matcher.routes[expected[k]]
  {
    RoutesMatchingSound(matcher, url);
    RoutesMatchingOrdered(matcher, url);
    var matches := matcher.RoutesMatching(url);
    var idx := Indices(matches);
    forall x ensures x in idx <==> x in expected {
      if x in idx {
        var k :| 0 <= k < |idx| && idx[k] == x;
        assert MatchRoute(matcher.routes[x], x, url).Some?;
      }
      if x in expected {
        RoutesMatchingComplete(matcher, url, x);
      }
    }
    IncreasingUnique(idx, expected);
  }

  /**
   * What every match of a well-formed route carries: the route at its
   * registry position, its resolved source, one bag entry per placeholder
   * bound to the path component in its position, `url` bound to the URL's
   * text, `source` and `fragment` exactly when they apply, and nothing else.
   */
  lemma MatchedRouteBag(matcher: RouteMatcher, url: Url, k: nat)
    requires k < |matcher.RoutesMatching(url)|
    requires WellFormed(matcher.RoutesMatching(url)[k].route)
    ensures var m := matcher.RoutesMatching(url)[k];
      && m.index < |matcher.routes| && m.route == matcher.routes[m.index]
      && |m.route.Pattern()| == |url.path|
      && m.source == ResolveSource(SourceQuery(url), m.route.defaultSource)
      && |m.values| == PlaceholderCount(m.route.Pattern()) + 1
           + (if SourceQuery(url).Some? then 1 else 0) + (if TakesFragment(m.route, url) then 1 else 0)
      && UrlKey in m.values && m.values[UrlKey] == url.text
      && (SourceKey in m.values <==> SourceQuery(url).Some?)
      && (SourceQuery(url).Some? ==> m.values[SourceKey] == SourceQuery(url).value)
      && (FragmentKey in m.values <==> TakesFragment(m.route, url))
      && (TakesFragment(m.route, url) ==> m.values[FragmentKey] == url.fragment.value)
      && forall i :: 0 <= i < |m.route.Pattern()| && m.route.Pattern()[i].Placeholder? ==>
           m.route.Pattern()[i].name in m.values && m.values[m.route.Pattern()[i].name] == url.path[i]
  {
    RoutesMatchingSound(matcher, url);
    var m := matcher.RoutesMatching(url)[k];
    MatchRouteBag(m.route, m.index, url);
    WellFormedBagSize(m.route, url, m.values);
    WellFormedBagValues(m.route, url, m.values);
    WellFormedBagReserved(m.route, url, m.values);
    ReservedCount(m.route, url);
  }
}
