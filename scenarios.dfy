/**
 * The behaviour the matcher's test suite asserts, one lemma per scenario,
 * proved from the model's contracts.
 */
module Scenarios {
  import opened Wrappers
  import opened RoutePattern
  import opened DeepLink
  import opened Matcher
  import opened AppBanner

  /** A plain route that reports a link source and does not read the fragment. */
  function TestRoute(template: seq<string>): (r: Route)
    ensures r.template == template && r.defaultSource == Link && !r.extractsFragment
  {
    Route(template, Link, false)
  }

  /** A URL with neither query nor fragment. */
  function PlainUrl(text: string, path: seq<string>): Url
  {
    Url(text, path, [], None)
  }

  /** A registry of one well-formed route whose template fits the URL yields exactly that route's match. */
  lemma SingleMatch(route: Route, url: Url)
    requires WellFormed(route) && PathMatches(route.Pattern(), url.path)
    ensures var matches := RouteMatcher([route]).RoutesMatching(url);
      && |matches| == 1
      && matches[0].route == route
      && matches[0].source == ResolveSource(SourceQuery(url), route.defaultSource)
      && |matches[0].values| == PlaceholderCount(route.Pattern()) + 1
           + (if SourceQuery(url).Some? then 1 else 0) + (if TakesFragment(route, url) then 1 else 0)
      && UrlKey in matches[0].values && matches[0].values[UrlKey] == url.text
      && (SourceKey in matches[0].values <==> SourceQuery(url).Some?)
      && (SourceQuery(url).Some? ==> matches[0].values[SourceKey] == SourceQuery(url).value)
      && (FragmentKey in matches[0].values <==> TakesFragment(route, url))
      && (TakesFragment(route, url) ==> matches[0].values[FragmentKey] == url.fragment.value)
      && forall i :: 0 <= i < |route.Pattern()| && route.Pattern()[i].Placeholder? ==>
           route.Pattern()[i].name in matches[0].values && matches[0].values[route.Pattern()[i].name] == url.path[i]
  {
    MatchedPositions(RouteMatcher([route]), url, [0]);
    MatchedRouteBag(RouteMatcher([route]), url, 0);
  }

  /** RouteMatcherTests.swift:22-28 */
  lemma NoMatchingRoutes()
    ensures RouteMatcher([TestRoute(["me"])]).RoutesMatching(PlainUrl("/hello", ["hello"])) == []
  {
    var matcher := RouteMatcher([TestRoute(["me"])]);
    var url := PlainUrl("/hello", ["hello"]);
    assert ParseComponent("me") == Literal("me");
    assert matcher.routes[0].Pattern() == [Literal("me")];
    assert matcher.routes[0].Pattern()[0].text != url.path[0];
    MatchedPositions(matcher, url, []);
  }

  /** RouteMatcherTests.swift:30-37 */
  lemma MatchingRouteWithSingleComponent()
    ensures var routes := [TestRoute(["me"]), TestRoute(["me", "account"])];
      var matches := RouteMatcher(routes).RoutesMatching(PlainUrl("/me", ["me"]));
      Indices(matches) == [0] && matches[0].route == routes[0]
  {
    var routes := [TestRoute(["me"]), TestRoute(["me", "account"])];
    assert routes[0].Pattern() == [Literal("me")];
    assert |routes[1].Pattern()| == 2;
    MatchedPositions(RouteMatcher(routes), PlainUrl("/me", ["me"]), [0]);
  }

  /** RouteMatcherTests.swift:39-46 */
  lemma MatchingRouteWithManyComponents()
    ensures var routes := [TestRoute(["me"]), TestRoute(["me", "account"])];
      var matches := RouteMatcher(routes).RoutesMatching(PlainUrl("/me/account", ["me", "account"]));
      Indices(matches) == [1] && matches[0].route == routes[1]
  {
    var routes := [TestRoute(["me"]), TestRoute(["me", "account"])];
    assert |routes[0].Pattern()| == 1;
    assert ParseComponent("account") == Literal("account");
    assert routes[1].Pattern() == [Literal("me"), Literal("account")];
    MatchedPositions(RouteMatcher(routes), PlainUrl("/me/account", ["me", "account"]), [1]);
  }

  /** RouteMatcherTests.swift:48-54: both identical routes match, in registration order. */
  lemma MultipleMatchingRoutes()
    ensures var routes := [TestRoute(["me"]), TestRoute(["me"])];
      var matches := RouteMatcher(routes).RoutesMatching(PlainUrl("/me", ["me"]));
      Indices(matches) == [0, 1] && forall k :: 0 <= k < |matches| ==> matches[k].route == routes[k]
  {
    var routes := [TestRoute(["me"]), TestRoute(["me"])];
    assert routes[0].Pattern() == [Literal("me")] == routes[1].Pattern();
    MatchedPositions(RouteMatcher(routes), PlainUrl("/me", ["me"]), [0, 1]);
  }

  /** RouteMatcherTests.swift:56-63 */
  lemma MatchingRouteWithSingleFinalPlaceholder()
    ensures var routes := [TestRoute(["me", ":placeholder"])];
      var matches := RouteMatcher(routes).RoutesMatching(PlainUrl("/me/hello", ["me", "hello"]));
      Indices(matches) == [0] && matches[0].route == routes[0]
  {
    var routes := [TestRoute(["me", ":placeholder"])];
    assert routes[0].Pattern() == [Literal("me"), Placeholder("placeholder")];
    MatchedPositions(RouteMatcher(routes), PlainUrl("/me/hello", ["me", "hello"]), [0]);
  }

  /** RouteMatcherTests.swift:67-75: a placeholder-free route without query yields a bag of `url` alone. */
  lemma MatchedRoutesHaveTheOriginalURLAsAValue()
    ensures var matches := RouteMatcher([TestRoute(["me"])])
                             .RoutesMatching(PlainUrl("https://wordpress.com/me", ["me"]));
      && |matches| == 1
      && |matches[0].values| == 1
      && UrlKey in matches[0].values && matches[0].values[UrlKey] == "https://wordpress.com/me"
  {
    var route := TestRoute(["me"]);
    assert route.Pattern() == [Literal("me")];
    LiteralsOnly(route.Pattern());
    SingleMatch(route, PlainUrl("https://wordpress.com/me", ["me"]));
  }

  /** The template `/me/:account`: one placeholder, in the last position. */
  lemma AccountTemplate()
    ensures var route := TestRoute(["me", ":account"]);
      && route.Pattern() == [Literal("me"), Placeholder("account")]
      && WellFormed(route)
      && PlaceholderCount(route.Pattern()) == 1
  {
    var pattern := [Literal("me"), Placeholder("account")];
    assert TestRoute(["me", ":account"]).Pattern() == pattern;
    assert Names(pattern) == {"account"} by {
      assert Names(pattern[1..]) == {"account"};
    }
    assert PlaceholderCount(pattern[1..]) == 1 by {
      assert pattern[1..][1..] == [];
    }
  }

  /** RouteMatcherTests.swift:77-85 */
  lemma MatchedRouteWithSinglePlaceholdersHasPopulatedValue()
    ensures var matches := RouteMatcher([TestRoute(["me", ":account"])])
                             .RoutesMatching(PlainUrl("/me/bobsmith", ["me", "bobsmith"]));
      && |matches| == 1
      && |matches[0].values| == 2
      && "account" in matches[0].values && matches[0].values["account"] == "bobsmith"
  {
    var route := TestRoute(["me", ":account"]);
    AccountTemplate();
    SingleMatch(route, PlainUrl("/me/bobsmith", ["me", "bobsmith"]));
    assert route.Pattern()[1].name == "account";
  }

  /** RouteMatcherTests.swift:87-93: a longer template does not match a shorter path. */
  lemma LongerRouteDoesntMatchPartial()
    ensures RouteMatcher([TestRoute(["me", ":account", "share", ":type"])])
              .RoutesMatching(PlainUrl("/me/bobsmith", ["me", "bobsmith"])) == []
  {
    var matcher := RouteMatcher([TestRoute(["me", ":account", "share", ":type"])]);
    assert |matcher.routes[0].Pattern()| == 4;
    MatchedPositions(matcher, PlainUrl("/me/bobsmith", ["me", "bobsmith"]), []);
  }

  /** The template `/me/:account/share/:name`, with placeholder `name` in the last position. */
  lemma ShareTemplate(name: string)
    requires name != UrlKey && name != SourceKey && name != FragmentKey && name != "account"
    ensures var route := TestRoute(["me", ":account", "share", [':'] + name]);
      && route.Pattern() == [Literal("me"), Placeholder("account"), Literal("share"), Placeholder(name)]
      && WellFormed(route)
      && PlaceholderCount(route.Pattern()) == 2
  {
    var pattern := [Literal("me"), Placeholder("account"), Literal("share"), Placeholder(name)];
    assert ParseComponent("share") == Literal("share");
    assert ParseComponent([':'] + name) == Placeholder(name);
    assert TestRoute(["me", ":account", "share", [':'] + name]).Pattern() == pattern;
    assert Names(pattern) == {"account", name} by {
      assert Names(pattern[3..]) == {name};
      assert Names(pattern[2..]) == {name};
      assert Names(pattern[1..]) == {"account", name};
    }
    assert PlaceholderCount(pattern[3..]) == 1 by {
      assert pattern[3..][1..] == [];
    }
    assert PlaceholderCount(pattern[2..]) == 1 by {
      assert pattern[2..][1..] == pattern[3..];
    }
  }

  /** RouteMatcherTests.swift:95-104 */
  lemma MatchedRouteWithManyPlaceholders()
    ensures var matches := RouteMatcher([TestRoute(["me", ":account", "share", ":type"])])
                             .RoutesMatching(PlainUrl("/me/bobsmith/share/group", ["me", "bobsmith", "share", "group"]));
      && |matches| == 1
      && |matches[0].values| == 3
      && "account" in matches[0].values && matches[0].values["account"] == "bobsmith"
      && "type" in matches[0].values && matches[0].values["type"] == "group"
  {
    var route := TestRoute(["me", ":account", "share", ":type"]);
    ShareTemplate("type");
    assert [':'] + "type" == ":type";
    SingleMatch(route, PlainUrl("/me/bobsmith/share/group", ["me", "bobsmith", "share", "group"]));
    assert route.Pattern()[1].name == "account" && route.Pattern()[3].name == "type";
  }

  /**
   * `/me/:account/share/` does not fit a four-component path whose last
   * component is not empty, under either reading of the trailing slash.
   */
  lemma TrailingSlashTemplate(trailing: seq<string>, path: seq<string>)
    requires trailing == ["me", ":account", "share"] || trailing == ["me", ":account", "share", ""]
    requires |path| == 4 && path[3] != ""
    ensures !PathMatches(TestRoute(trailing).Pattern(), path)
  {
    if |trailing| == 4 {
      assert ParseComponent("") == Literal("");
      assert TestRoute(trailing).Pattern()[3] == Literal("");
    }
  }

  /**
   * RouteMatcherTests.swift:106-125: overlapping templates each bind their
   * own names; the template written with a trailing slash does not match a
   * four-component path, whether the trailing slash is dropped or read as an
   * empty final component.
   */
  lemma MultipleMatchedRouteWithManyPlaceholders(trailing: seq<string>)
    requires trailing == ["me", ":account", "share"] || trailing == ["me", ":account", "share", ""]
    ensures var matches := RouteMatcher(ShareRoutes(trailing)).RoutesMatching(PlainUrl("/me/bobsmith/share/group", ["me", "bobsmith", "share", "group"]));
      && Indices(matches) == [0, 2]
      && |matches[0].values| == 3 && |matches[1].values| == 3
      && "account" in matches[0].values && matches[0].values["account"] == "bobsmith"
      && "type" in matches[0].values && matches[0].values["type"] == "group"
      && "account" in matches[1].values && matches[1].values["account"] == "bobsmith"
      && "test" in matches[1].values && matches[1].values["test"] == "group"
  {
    assert [':'] + "type" == ":type" && [':'] + "test" == ":test";
    var routes := ShareRoutes(trailing);
    var url := PlainUrl("/me/bobsmith/share/group", ["me", "bobsmith", "share", "group"]);
    ShareRoutesFit(trailing, url.path);
    MatchedPositions(RouteMatcher(routes), url, [0, 2]);
    var matches := RouteMatcher(routes).RoutesMatching(url);
    assert matches[0].route == routes[0] && matches[1].route == routes[2];
    ShareBag(RouteMatcher(routes), url, 0, "type");
    ShareBag(RouteMatcher(routes), url, 1, "test");
  }

  /** The registry of RouteMatcherTests.swift:107-109. */
  function ShareRoutes(trailing: seq<string>): seq<Route>
  {
    [TestRoute(["me", ":account", "share", ":type"]),
     TestRoute(trailing),
     TestRoute(["me", ":account", "share", ":test"])]
  }

  /** Of that registry, the first and last templates fit `/me/bobsmith/share/group` and the middle one does not. */
  lemma ShareRoutesFit(trailing: seq<string>, path: seq<string>)
    requires trailing == ["me", ":account", "share"] || trailing == ["me", ":account", "share", ""]
    requires path == ["me", "bobsmith", "share", "group"]
    ensures forall i :: 0 <= i < |ShareRoutes(trailing)| ==>
      (PathMatches(ShareRoutes(trailing)[i].Pattern(), path) <==> i in [0, 2])
  {
    assert [':'] + "type" == ":type" && [':'] + "test" == ":test";
    var routes := ShareRoutes(trailing);
    ShareTemplate("type");
    ShareTemplate("test");
    TrailingSlashTemplate(trailing, path);
    assert PathMatches(routes[0].Pattern(), path);
    assert PathMatches(routes[2].Pattern(), path);
  }

  /** The bag of a match of `/me/:account/share/:name` against `/me/bobsmith/share/group`. */
  lemma ShareBag(matcher: RouteMatcher, url: Url, k: nat, name: string)
    requires name != UrlKey && name != SourceKey && name != FragmentKey && name != "account"
    requires url == PlainUrl("/me/bobsmith/share/group", ["me", "bobsmith", "share", "group"])
    requires k < |matcher.RoutesMatching(url)|
    requires matcher.RoutesMatching(url)[k].route == TestRoute(["me", ":account", "share", [':'] + name])
    ensures var values := matcher.RoutesMatching(url)[k].values;
      && |values| == 3
      && "account" in values && values["account"] == "bobsmith"
      && name in values && values[name] == "group"
  {
    ShareTemplate(name);
    MatchedRouteBag(matcher, url, k);
    var pattern := matcher.RoutesMatching(url)[k].route.Pattern();
    assert pattern[1].name == "account" && pattern[3].name == name;
  }

  /** RouteMatcherTests.swift:129-138: without a `source` query item the bag has no `source` entry. */
  lemma RouteWithNoSourceQueryItem()
    ensures var matches := RouteMatcher([TestRoute(["stats"])])
                             .RoutesMatching(PlainUrl("https://wordpress.com/stats", ["stats"]));
      && |matches| == 1
      && |matches[0].values| == 1
      && UrlKey in matches[0].values && matches[0].values[UrlKey] == "https://wordpress.com/stats"
      && SourceKey !in matches[0].values
  {
    var route := TestRoute(["stats"]);
    assert route.Pattern() == [Literal("stats")];
    LiteralsOnly(route.Pattern());
    SingleMatch(route, PlainUrl("https://wordpress.com/stats", ["stats"]));
  }

  /** RouteMatcherTests.swift:140-149: `?source=widget` adds a `source` entry and makes the source a widget. */
  lemma RouteWithSourceQueryItem()
    ensures var matches := RouteMatcher([TestRoute(["stats"])])
                             .RoutesMatching(Url("https://wordpress.com/stats?source=widget", ["stats"],
                                                 [QueryItem("source", "widget")], None));
      && |matches| == 1
      && |matches[0].values| == 2
      && SourceKey in matches[0].values && matches[0].values[SourceKey] == "widget"
      && matches[0].source == Widget
  {
    var route := TestRoute(["stats"]);
    var url := Url("https://wordpress.com/stats?source=widget", ["stats"], [QueryItem("source", "widget")], None);
    assert route.Pattern() == [Literal("stats")];
    LiteralsOnly(route.Pattern());
    assert SourceQuery(url) == Some("widget");
    ResolveToken(Widget, Link);
    SingleMatch(route, url);
  }

  /**
   * RouteMatcherTests.swift:151-171: a matching route whose default source
   * is a link reports a link when the URL does not override it.
   */
  lemma StatsSubscribersRoute(route: Route, text: string, path: seq<string>)
    requires route.defaultSource == Link && WellFormed(route) && PathMatches(route.Pattern(), path)
    ensures var matches := RouteMatcher([route]).RoutesMatching(PlainUrl(text, path));
      |matches| == 1 && matches[0].source == Link
  {
    SingleMatch(route, PlainUrl(text, path));
  }

  /**
   * RouteMatcherTests.swift:175-188: the app-banner route's bag holds the
   * URL and the raw fragment, and nothing from the `campaign` query item.
   */
  lemma AppBannerRouter(defaultSource: Source)
    ensures var matches := RouteMatcher([Route(["get"], defaultSource, true)])
                             .RoutesMatching(Url("https://apps.wordpress.com/get/?campaign=qr-code-media#%2Fmedia%2F1234567",
                                                 ["get"], [QueryItem("campaign", "qr-code-media")],
                                                 Some("%2Fmedia%2F1234567")));
      && |matches| == 1
      && |matches[0].values| == 2
      && UrlKey in matches[0].values
      && FragmentKey in matches[0].values && matches[0].values[FragmentKey] == "%2Fmedia%2F1234567"
  {
    var route := Route(["get"], defaultSource, true);
    assert route.Pattern() == [Literal("get")];
    LiteralsOnly(route.Pattern());
    var url := Url("https://apps.wordpress.com/get/?campaign=qr-code-media#%2Fmedia%2F1234567",
                   ["get"], [QueryItem("campaign", "qr-code-media")], Some("%2Fmedia%2F1234567"));
    assert SourceQuery(url).None? by {
      assert url.query[0].name != SourceKey;
    }
    SingleMatch(route, url);
  }

  /** The banner's fragment decodes to `/media/1234567`, which has no query of its own. */
  lemma BannerFragmentDecodes()
    ensures PercentDecode("%2Fmedia%2F1234567") == "/media/1234567"
  {
    SlashesDecode("media", "1234567");
    BannerFragmentParts();
  }

  /** The fragment and its decoded form, cut at the slashes. */
  lemma BannerFragmentParts()
    ensures "%2F" + "media" + ("%2F" + "1234567" + []) == "%2Fmedia%2F1234567"
    ensures "/" + "media" + ("/" + "1234567" + []) == "/media/1234567"
    ensures '?' !in "/media/1234567"
  {
  }

  /** `%2F<a>%2F<b>` decodes to `/<a>/<b>` when neither part holds a `%`. */
  lemma SlashesDecode(a: string, b: string)
    requires '%' !in a && '%' !in b
    ensures PercentDecode("%2F" + a + ("%2F" + b + [])) == "/" + a + ("/" + b + [])
  {
    DecodeSlash(a, "%2F" + b + []);
    DecodeSlash(b, []);
  }

  /** The banner link's query written out. */
  lemma CampaignQueryString()
    ensures QueryString([QueryItem("campaign", "qr-code-media")]) == "campaign=qr-code-media"
  {
    QueryStringSingle(QueryItem("campaign", "qr-code-media"));
  }

  /**
   * RouteMatcherTests.swift:190-197: the banner's fragment leads to
   * `/media/1234567` on the canonical origin, with the banner link's
   * `campaign` item carried over, and the source is a banner of that campaign.
   */
  lemma AppBannerRedirect()
    ensures Destination("%2Fmedia%2F1234567", [QueryItem("campaign", "qr-code-media")])
              == Origin + "/media/1234567" + "?" + "campaign=qr-code-media"
    ensures BannerSource([QueryItem("campaign", "qr-code-media")]) == Banner(Some("qr-code-media"))
  {
    BannerFragmentDecodes();
    BannerFragmentParts();
    CampaignQueryString();
    DestinationWithQuery("%2Fmedia%2F1234567", "/media/1234567", [QueryItem("campaign", "qr-code-media")]);
  }

  /**
   * RouteMatcherTests.swift:175-197: the match of the banner route leads,
   * through the fragment in its own value bag, to the tested destination.
   */
  lemma AppBannerMatchRedirect(defaultSource: Source)
    ensures var url := Url("https://apps.wordpress.com/get/?campaign=qr-code-media#%2Fmedia%2F1234567",
                           ["get"], [QueryItem("campaign", "qr-code-media")], Some("%2Fmedia%2F1234567"));
      var matches := RouteMatcher([Route(["get"], defaultSource, true)]).RoutesMatching(url);
      && |matches| == 1
      && BannerDestination(matches[0], url) == Some(Origin + "/media/1234567" + "?" + "campaign=qr-code-media")
  {
    AppBannerRouter(defaultSource);
    AppBannerRedirect();
  }
}
