# Deep-link route matcher

A Dafny model of the WordPress app's deep-link `RouteMatcher`. The matcher
is built once from an ordered list of routes. Each route has a path template
made of `/`-separated components, and a component that starts with `:` is a
named placeholder. `routesMatching(url)` returns every route whose template
fits the URL's path, in registration order; it does not stop at the first
match. Each match carries:

- a value bag (`values`). Each placeholder name is bound to the path
  component in its position. `url` holds the URL's full text. `source`
  holds the `source` query value, and only when the query has one.
  `fragment` holds the raw, still-encoded fragment, and only for the
  app-banner route.
- a typed `source`. A recognised `source` query token selects it (`widget`,
  `link`); otherwise it is the route's default.

The implementation of `RouteMatcher` is not part of this model. The
behaviour follows the assertions of
`WordPress/WordPressTest/RouteMatcherTests.swift`. The model is pure: the
registry is an immutable sequence and matching is a function. The modules:

- `RoutePattern` (`route_pattern.dfy`): template components, how a template is
  parsed into segments, the matching rule, and `MatchSegments`. `MatchSegments`
  walks the template and the path pairwise and builds the placeholder bindings.
- `DeepLink` (`deep_link.dfy`): the entities.
  - `Source`, `QueryItem`, `Url` and `Route`.
  - The reserved bag keys.
  - `WellFormed`: placeholder names are distinct and none is a reserved key.
  - Query lookup and source resolution.
- `Matcher` (`matcher.dfy`): the matcher itself.
  - `MatchRoute`, one route against one URL.
  - `RouteMatcher.RoutesMatching`.
  - Its soundness, order and completeness lemmas.
  - What the bag of a match holds.
- `AppBanner` (`app_banner.dfy`): the app-banner redirect.
  - Percent-decoding, with its percent-encoding partner.
  - The destination URL.
  - The banner source.
- `Scenarios` (`scenarios.dfy`): one lemma per test case, proved from the
  contracts above.
- `Wrappers` (`wrappers.dfy`): `Option`.

A URL is taken already parsed. It has its full text, its path components
(without scheme, host or leading `/`), its query items in order, and its
fragment. Routes are identified by their position in the registry.

Two cases are left undecided by the tests, and the model fixes them:

- A placeholder named like a reserved key loses to the reserved entry.
- Two placeholders with the same name keep the later binding.

Every bag-size statement assumes `WellFormed(route)`, which excludes both cases.

The trailing-slash template `/me/:account/share/` is covered under both readings:

- the trailing slash is dropped, giving three components;
- the trailing slash is an empty last component, giving four.

Either way the template does not fit a four-component path.

## Model

| member | source | states |
|---|---|---|
| RoutePattern.ParseComponent | WordPress/WordPressTest/RouteMatcherTests.swift:56-63 | a component is a placeholder exactly when it starts with `:`; the placeholder's name is the rest of the component, and a literal keeps the component's text |
| RoutePattern.RenderParse | WordPress/WordPressTest/RouteMatcherTests.swift:57 | writing a parsed component back out gives the component unchanged |
| RoutePattern.ParseRender | WordPress/WordPressTest/RouteMatcherTests.swift:57 | a segment survives being written and read back exactly when it is not a literal starting with `:` |
| RoutePattern.ParseTemplate | WordPress/WordPressTest/RouteMatcherTests.swift:88 | a template has one segment per component, each parsed on its own |
| RoutePattern.PathMatches | WordPress/WordPressTest/RouteMatcherTests.swift:87-93 | the matching rule: a template fits a path when they have the same number of components and every literal equals the component beside it; placeholders accept any component |
| RoutePattern.PathMatchesWalk | WordPress/WordPressTest/RouteMatcherTests.swift:106-112 | the rule read as a pairwise walk: the empty template fits only the empty path, and a non-empty template fits when its first segment accepts the first component and the rest fits the rest |
| RoutePattern.NamesMembership | WordPress/WordPressTest/RouteMatcherTests.swift:95-104 | a name is among the template's names exactly when some placeholder segment carries it |
| RoutePattern.LiteralsOnly | WordPress/WordPressTest/RouteMatcherTests.swift:67-75 | a template of literals only has no placeholder names and no placeholders |
| RoutePattern.DistinctNamesCount | WordPress/WordPressTest/RouteMatcherTests.swift:95-104 | with distinct placeholder names there are exactly as many names as placeholders |
| RoutePattern.DistinctAllLast | WordPress/WordPressTest/RouteMatcherTests.swift:95-104 | with distinct names no placeholder's binding is overwritten by a later one |
| RoutePattern.MatchSegments | WordPress/WordPressTest/RouteMatcherTests.swift:87-104 | succeeds exactly when the lengths agree and every literal equals its path component; its keys are exactly the template's placeholder names; every placeholder not bound again later is bound to the path component in its position |
| DeepLink.QueryValue | WordPress/WordPressTest/RouteMatcherTests.swift:140-149 | gives nothing exactly when no query item has the name; otherwise gives the value of the first item with that name |
| DeepLink.ResolveSource | WordPress/WordPressTest/RouteMatcherTests.swift:140-171 | a recognised token gives the variant it names; an unrecognised or missing token gives the route's default; the result differs from the default only for a recognised token |
| DeepLink.ResolveToken | WordPress/WordPressTest/RouteMatcherTests.swift:148 | the token of a source resolves back to that source, whatever the default |
| DeepLink.WellFormed | WordPress/WordPressTest/RouteMatcherTests.swift:95-104 | a route whose placeholder names are distinct and none of them is `url`, `source` or `fragment`; every bag-size lemma assumes it |
| Matcher.ValueBag | WordPress/WordPressTest/RouteMatcherTests.swift:67-75 | the bag's keys are the bindings' keys plus `url`, plus `source` when the query has one, plus `fragment` for a fragment route whose URL has one; each entry holds the value it stands for, and non-reserved bindings are kept |
| Matcher.MatchRoute | WordPress/WordPressTest/RouteMatcherTests.swift:22-63 | a route matches exactly when its template fits the URL's path; the match carries the route's position, the route and its resolved source |
| Matcher.MatchRouteBag | WordPress/WordPressTest/RouteMatcherTests.swift:67-149 | the bag of a successful match has exactly the placeholder names and the applicable reserved keys, with the URL text, the `source` value, the raw fragment and the path components in the right entries |
| Matcher.RouteMatcher.RoutesMatching | WordPress/WordPressTest/RouteMatcherTests.swift:22-54 | there are never more matches than registered routes |
| Matcher.RoutesMatchingSound | WordPress/WordPressTest/RouteMatcherTests.swift:30-46 | every match names a registered position and is exactly what `MatchRoute` gives the route there |
| Matcher.RoutesMatchingOrdered | WordPress/WordPressTest/RouteMatcherTests.swift:48-54 | the positions of the matches strictly increase: registration order, no route twice |
| Matcher.RoutesMatchingComplete | WordPress/WordPressTest/RouteMatcherTests.swift:48-54 | every registered route whose template fits the path is among the matches, not only the first |
| Matcher.IndicesStep | WordPress/WordPressTest/RouteMatcherTests.swift:48-54 | a route added at the end of the registry adds its position to the matches exactly when its template fits |
| Matcher.MatchedPositions | WordPress/WordPressTest/RouteMatcherTests.swift:22-63 | the positions of the matches are exactly the positions of the fitting routes, in increasing order, and each match carries the route at its position |
| Matcher.IncreasingUnique | WordPress/WordPressTest/RouteMatcherTests.swift:53 | two strictly increasing sequences with the same elements are equal |
| Matcher.WellFormedBagSize | WordPress/WordPressTest/RouteMatcherTests.swift:83 | for a well-formed route the bag has one entry per placeholder plus one per reserved key that applies |
| Matcher.WellFormedBagValues | WordPress/WordPressTest/RouteMatcherTests.swift:84 | for a well-formed route every placeholder is bound to the path component in its position |
| Matcher.WellFormedBagReserved | WordPress/WordPressTest/RouteMatcherTests.swift:129-138 | `url` is always present and holds the URL text; `source` is present exactly when the query has one; `fragment` is present exactly for a fragment route whose URL has a fragment |
| Matcher.ReservedCount | WordPress/WordPressTest/RouteMatcherTests.swift:146 | one reserved entry for `url`, one more each for `source` and `fragment` when they apply |
| Matcher.MatchedRouteBag | WordPress/WordPressTest/RouteMatcherTests.swift:67-149 | every match of a well-formed route carries the route at its position and its resolved source; its bag has exactly one entry per placeholder plus the reserved entries that apply, with the right values |
| Scenarios.SingleMatch | WordPress/WordPressTest/RouteMatcherTests.swift:67-149 | a one-route registry whose well-formed template fits the path yields exactly one match, with the bag's size, reserved entries and placeholder values as the tests read them |
| Scenarios.TestRoute | WordPress/WordPressTest/RouteMatcherTests.swift:4-11 | the test route: the given template, default source link, no fragment extraction |
| Scenarios.NoMatchingRoutes | WordPress/WordPressTest/RouteMatcherTests.swift:22-28 | `/me` against `/hello` gives no match |
| Scenarios.MatchingRouteWithSingleComponent | WordPress/WordPressTest/RouteMatcherTests.swift:30-37 | `/me` matches only the first of `/me`, `/me/account` |
| Scenarios.MatchingRouteWithManyComponents | WordPress/WordPressTest/RouteMatcherTests.swift:39-46 | `/me/account` matches only the second of `/me`, `/me/account` |
| Scenarios.MultipleMatchingRoutes | WordPress/WordPressTest/RouteMatcherTests.swift:48-54 | two identical `/me` routes both match, element for element in registration order |
| Scenarios.MatchingRouteWithSingleFinalPlaceholder | WordPress/WordPressTest/RouteMatcherTests.swift:56-63 | `/me/:placeholder` matches `/me/hello`, exactly once |
| Scenarios.MatchedRoutesHaveTheOriginalURLAsAValue | WordPress/WordPressTest/RouteMatcherTests.swift:67-75 | the bag of `/me` has one entry, `url`, holding the original URL |
| Scenarios.AccountTemplate | WordPress/WordPressTest/RouteMatcherTests.swift:78 | `/me/:account` parses to a literal and the placeholder `account`, is well-formed and has one placeholder |
| Scenarios.MatchedRouteWithSinglePlaceholdersHasPopulatedValue | WordPress/WordPressTest/RouteMatcherTests.swift:77-85 | the bag of `/me/:account` for `/me/bobsmith` has two entries, with `account` holding `bobsmith` |
| Scenarios.LongerRouteDoesntMatchPartial | WordPress/WordPressTest/RouteMatcherTests.swift:87-93 | the four-component template does not match the two-component path |
| Scenarios.ShareTemplate | WordPress/WordPressTest/RouteMatcherTests.swift:107-109 | `/me/:account/share/:name` parses to its four segments, is well-formed and has two placeholders |
| Scenarios.MatchedRouteWithManyPlaceholders | WordPress/WordPressTest/RouteMatcherTests.swift:95-104 | three entries, with `account` holding `bobsmith` and `type` holding `group` |
| Scenarios.TrailingSlashTemplate | WordPress/WordPressTest/RouteMatcherTests.swift:108 | `/me/:account/share/` does not fit a four-component path whose last component is not empty, under either reading of the trailing slash |
| Scenarios.ShareRoutesFit | WordPress/WordPressTest/RouteMatcherTests.swift:106-112 | of the three registered templates, exactly the first and the last fit `/me/bobsmith/share/group` |
| Scenarios.ShareBag | WordPress/WordPressTest/RouteMatcherTests.swift:115-124 | a match of `/me/:account/share/:name` on that path has three entries, `account` holding `bobsmith` and the name holding `group` |
| Scenarios.MultipleMatchedRouteWithManyPlaceholders | WordPress/WordPressTest/RouteMatcherTests.swift:106-125 | exactly the first and third routes match, each with three entries binding its own placeholder names |
| Scenarios.RouteWithNoSourceQueryItem | WordPress/WordPressTest/RouteMatcherTests.swift:129-138 | without a `source` item the bag has only `url` and no `source` entry |
| Scenarios.RouteWithSourceQueryItem | WordPress/WordPressTest/RouteMatcherTests.swift:140-149 | with `?source=widget` the bag has two entries, `source` holds `widget`, and the typed source is a widget |
| Scenarios.StatsSubscribersRoute | WordPress/WordPressTest/RouteMatcherTests.swift:151-171 | a fitting well-formed route with default source link reports a link when the URL has no query |
| Scenarios.AppBannerRouter | WordPress/WordPressTest/RouteMatcherTests.swift:175-188 | the banner route's bag has two entries, `url` and `fragment`; `fragment` holds the raw `%2Fmedia%2F1234567`, and nothing comes from the `campaign` item |
| Scenarios.SlashesDecode | WordPress/WordPressTest/RouteMatcherTests.swift:177 | `%2F<a>%2F<b>` decodes to `/<a>/<b>` when neither part holds a `%` |
| Scenarios.BannerFragmentDecodes | WordPress/WordPressTest/RouteMatcherTests.swift:177 | the banner's fragment decodes to `/media/1234567` |
| Scenarios.AppBannerRedirect | WordPress/WordPressTest/RouteMatcherTests.swift:190-197 | the banner leads to `https://wordpress.com/media/1234567?campaign=qr-code-media` with source `banner(campaign: "qr-code-media")` |
| Scenarios.AppBannerMatchRedirect | WordPress/WordPressTest/RouteMatcherTests.swift:175-197 | the banner route's one match leads, through the fragment in its own bag, to `https://wordpress.com/media/1234567?campaign=qr-code-media` |
| AppBanner.HexValue | WordPress/WordPressTest/RouteMatcherTests.swift:177 | a character has a hexadecimal value exactly when it is a digit or a letter `a`–`f` in either case, and the value is below 16 |
| AppBanner.HexDigit | WordPress/WordPressTest/RouteMatcherTests.swift:177 | the digit written for a value below 16 reads back as that value |
| AppBanner.PercentDecode | WordPress/WordPressTest/RouteMatcherTests.swift:190-194 | decoding never lengthens the text |
| AppBanner.DecodePlain | WordPress/WordPressTest/RouteMatcherTests.swift:177 | text without `%` decodes to itself, whatever follows it |
| AppBanner.DecodeSlash | WordPress/WordPressTest/RouteMatcherTests.swift:177 | an escaped `/` followed by plain text decodes to `/` and that text |
| AppBanner.EncodeChar | WordPress/WordPressTest/RouteMatcherTests.swift:177 | an unreserved character is written as itself; a reserved single-byte character becomes a three-character `%` escape |
| AppBanner.PercentEncode | WordPress/WordPressTest/RouteMatcherTests.swift:177 | encoding never shortens the text |
| AppBanner.DecodeEncodedChar | WordPress/WordPressTest/RouteMatcherTests.swift:177 | decoding an encoded character in front of any text gives the character back, then the decoded text |
| AppBanner.DecodeEncode | WordPress/WordPressTest/RouteMatcherTests.swift:177-194 | percent-decoding undoes percent-encoding, for every text |
| AppBanner.Destination | WordPress/WordPressTest/RouteMatcherTests.swift:190-194 | the destination starts with the origin followed by the decoded fragment, and is longer than that exactly when the banner link has query items |
| AppBanner.DestinationPath | WordPress/WordPressTest/RouteMatcherTests.swift:190-194 | a path written into the fragment with `PercentEncode` is the path the destination leads to |
| AppBanner.DestinationWithQuery | WordPress/WordPressTest/RouteMatcherTests.swift:193 | for a decoded fragment without `?`, the banner link's query follows the path after `?` |
| AppBanner.QueryString | WordPress/WordPressTest/RouteMatcherTests.swift:193 | query items written `name=value`, in order, joined by `&` |
| AppBanner.QueryStringJoin | WordPress/WordPressTest/RouteMatcherTests.swift:193 | two non-empty runs of items are written one after the other with `&` between them |
| AppBanner.BannerSource | WordPress/WordPressTest/RouteMatcherTests.swift:194 | the source of a banner match is a banner carrying the banner link's `campaign` value |
| AppBanner.BannerDestination | WordPress/WordPressTest/RouteMatcherTests.swift:188-197 | a match leads somewhere exactly when its bag has a `fragment` entry, and then to the destination of that entry with the URL's query items |
| AppBanner.BannerMatchDestination | WordPress/WordPressTest/RouteMatcherTests.swift:182-197 | a fragment-extraction route that fits a URL with a fragment matches, and its match leads to the destination of that URL's raw fragment |

## Left out

- URL parsing and the splitting of the path into components are not modelled.
  - The matcher receives the path components, query items and fragment already separated.
  - Scheme and host play no part.
  - Whether a trailing slash yields an empty component is left open; see `TrailingSlashTemplate`.
- The `RouteMatcher` implementation is outside this model. The tests do not fix the following, so the model makes its own choices:
  - `widget` and `link` are the recognised `source` tokens;
  - a `fragment` entry appears only for a route with `extractsFragment`;
  - the banner destination is the origin, then the decoded fragment, then the link's query items.
- An absent `source` token gives the route's default source, which is what line 7 and lines 151-171 expect.
- Registration does not reject a route whose placeholder names repeat or use a reserved key. `WellFormed` states the condition, and every bag-size lemma assumes it.
- `section`, `shouldTrack` and `jetpackPowered` are not modelled. They are route metadata passed through unchanged.
- `StatsRoute` and `AppBannerRoute` are outside this model.
  - `StatsSubscribersRoute` is stated for any fitting route with default source link.
  - `AppBannerRouter` uses the route `/get` with fragment extraction.
- `NavigationAction.perform`, `LinkRouter`, `MockRouter` and `UIViewController` are not modelled. They are navigation side effects.
- `Destination` and `BannerSource` model `AppBannerRoute.perform`, which is outside this model.
  - They take the banner link's query items from the URL, because the bag itself does not hold them; `BannerDestination` reads the fragment from the match's bag.
  - They are not part of the matcher's contract.
- `PercentDecode` keeps a `%` that is not followed by two hexadecimal digits, instead of rejecting the text.
- `PercentDecode` and `PercentEncode` work on single-byte characters only.
  - Characters above 255 are never escaped.
  - Nothing is UTF-8 encoded.
- Query items without a value are not modelled: every item has a string value.
- `UIColor+JetpackColors.swift` and the header view are not modelled. They are UI theming and layout, with no matching logic.
- Concurrency is not modelled. The registry is immutable and matching is a pure function, so repeated or concurrent calls give the same result.
