/**
 * The values a route and an incoming URL are made of: the typed source of a
 * deep link, a registered route, and a URL as the URL parser hands it over.
 */
module DeepLink {
  import opened Wrappers
  import opened RoutePattern

  /** The entry point a deep link came from. */
  datatype Source = Link | Widget | Banner(campaign: Option<string>)

  /** One `name=value` item of a URL's query string. */
  datatype QueryItem = QueryItem(name: string, value: string)

  /**
   * An incoming URL, already split: its full text, its path components
   * (without the leading `/` and without scheme and host), its query items
   * in order, and its fragment, still percent-encoded, when it has one.
   */
  datatype Url = Url(text: string, path: seq<string>, query: seq<QueryItem>, fragment: Option<string>)

  /**
   * A registered route: the components of its path template, the source a
   * match reports when the URL does not override it, and whether the route
   * takes its real destination from the URL's fragment (the app banner).
   */
  datatype Route = Route(template: seq<string>, defaultSource: Source, extractsFragment: bool)
  {
    function Pattern(): seq<Segment>
    {
      ParseTemplate(template)
    }
  }

  /** The value-bag keys the matcher itself fills in. */
  const UrlKey: string := "url"
  const SourceKey: string := "source"
  const FragmentKey: string := "fragment"

  /** The three reserved keys are different strings. */
  lemma ReservedKeysDistinct()
    ensures UrlKey != SourceKey && UrlKey != FragmentKey && SourceKey != FragmentKey
  {
    assert |UrlKey| == 3 && |SourceKey| == 6 && SourceKey[0] != FragmentKey[0];
  }

  predicate Reserved(key: string)
  {
    key == UrlKey || key == SourceKey || key == FragmentKey
  }

  /**
   * A route the registry may hold: its placeholder names are distinct and
   * none of them is a reserved key.
   */
  predicate WellFormed(route: Route)
  {
    && DistinctPlaceholders(route.Pattern())
    && UrlKey !in Names(route.Pattern())
    && SourceKey !in Names(route.Pattern())
    && FragmentKey !in Names(route.Pattern())
  }

  /** The value of the first query item called `name`, if there is one. */
  function QueryValue(items: seq<QueryItem>, name: string): (v: Option<string>)
    ensures v.None? <==> forall k :: 0 <= k < |items| ==> items[k].name != name
    ensures v.Some? ==>
      exists k :: 0 <= k < |items| && items[k] == QueryItem(name, v.value) &&
        forall j :: 0 <= j < k ==> items[j].name != name
  {
    if items == [] then None
    else if items[0].name == name then Some(items[0].value)
    else
      var v := QueryValue(items[1..], name);
      assert v.Some? ==> (exists k :: 0 <= k < |items[1..]| && items[1..][k] == QueryItem(name, v.value) &&
                            forall j :: 0 <= j < k ==> items[1..][j].name != name);
      v
  }

  /** The `source` token a typed source is written as in a query string, if it has one. */
  function SourceToken(s: Source): Option<string>
  {
    match s
    case Link => Some("link")
    case Widget => Some("widget")
    case Banner(_) => None
  }

  /**
   * The typed source of a match: a recognised `source` token selects its
   * variant; a missing or unrecognised token leaves the route's default.
   */
  function ResolveSource(token: Option<string>, fallback: Source): (s: Source)
    ensures s != fallback ==> token.Some? && SourceToken(s) == token
    ensures (forall t :: SourceToken(t) != token) ==> s == fallback
    ensures forall t :: token.Some? && SourceToken(t) == token ==> s == t
  {
    match token
    case Some("widget") => Widget
    case Some("link") => Link
    case _ => fallback
  }

  /** Every source that has a token is recovered from it, whatever the default. */
  lemma ResolveToken(s: Source, fallback: Source)
    requires SourceToken(s).Some?
    ensures ResolveSource(SourceToken(s), fallback) == s
  {
  }
}
