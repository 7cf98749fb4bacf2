/**
 * The app-banner redirect: a banner link carries its real destination,
 * percent-encoded, in its fragment. The destination is the canonical site
 * origin, the decoded fragment, and the banner link's own query items; the
 * source is a banner tagged with the `campaign` query value.
 */
module AppBanner {
  import opened Wrappers
  import opened RoutePattern
  import opened DeepLink
  import opened Matcher

  const Origin: string := "https://wordpress.com"
  const CampaignKey: string := "campaign"

  /** The value of a hexadecimal digit, in either case. */
  function HexValue(c: char): (v: Option<nat>)
    ensures v.Some? ==> v.value < 16
    ensures v.Some? <==> ('0' <= c <= '9' || 'A' <= c <= 'F' || 'a' <= c <= 'f')
  {
    if '0' <= c <= '9' then Some(c as int - '0' as int)
    else if 'A' <= c <= 'F' then Some(c as int - 'A' as int + 10)
    else if 'a' <= c <= 'f' then Some(c as int - 'a' as int + 10)
    else None
  }

  /** The upper-case hexadecimal digit of a value below 16. */
  function HexDigit(n: nat): (c: char)
    requires n < 16
    ensures HexValue(c) == Some(n)
  {
    if n < 10 then ('0' as int + n) as char else ('A' as int + n - 10) as char
  }

  /**
   * Replaces every `%` followed by two hexadecimal digits by the character
   * with that code; any other `%` is kept as it is.
   */
  function PercentDecode(s: string): (r: string)
    ensures |r| <= |s|
  {
    if s == [] then []
    else if |s| >= 3 && s[0] == '%' && HexValue(s[1]).Some? && HexValue(s[2]).Some? then
      [(16 * HexValue(s[1]).value + HexValue(s[2]).value) as char] + PercentDecode(s[3..])
    else
      [s[0]] + PercentDecode(s[1..])
  }

  /** Text without `%` decodes to itself, whatever follows it. */
  lemma {:induction false} DecodePlain(a: string, b: string)
    requires '%' !in a
    ensures PercentDecode(a + b) == a + PercentDecode(b)
  {
    if a != [] {
      assert (a + b)[0] == a[0] != '%';
      assert (a + b)[1..] == a[1..] + b;
      DecodePlain(a[1..], b);
      calc {
        PercentDecode(a + b);
        [a[0]] + PercentDecode(a[1..] + b);
        [a[0]] + (a[1..] + PercentDecode(b));
        { assert a == [a[0]] + a[1..]; }
        a + PercentDecode(b);
      }
    } else {
      assert a + b == b;
    }
  }

  /** An escaped `/`, then text without `%`, decodes to a `/` before that text. */
  lemma DecodeSlash(a: string, b: string)
    requires '%' !in a
    ensures PercentDecode("%2F" + a + b) == "/" + a + PercentDecode(b)
  {
    var s := "%2F" + a + b;
    assert s[0] == '%' && s[1] == '2' && s[2] == 'F';
    assert s[3..] == a + b;
    DecodePlain(a, b);
  }

  /** Letters, digits and `-._~` are written as they are; every other character may be escaped. */
  predicate Unreserved(c: char)
  {
    'a' <= c <= 'z' || 'A' <= c <= 'Z' || '0' <= c <= '9' || c == '-' || c == '.' || c == '_' || c == '~'
  }

  /** One character as it is written in an encoded string. */
  function EncodeChar(c: char): (e: string)
    ensures Unreserved(c) || c as int >= 256 ==> e == [c]
    ensures !Unreserved(c) && c as int < 256 ==> |e| == 3 && e[0] == '%'
  {
    if Unreserved(c) || c as int >= 256 then [c]
    else ['%', HexDigit(c as int / 16), HexDigit(c as int % 16)]
  }

  /** Escapes every reserved single-byte character as `%XY`. */
  function PercentEncode(s: string): (r: string)
    ensures |r| >= |s|
  {
    if s == [] then [] else EncodeChar(s[0]) + PercentEncode(s[1..])
  }

  /** Decoding an encoded character in front of any text gives the character back, then the decoded text. */
  lemma DecodeEncodedChar(c: char, rest: string)
    ensures PercentDecode(EncodeChar(c) + rest) == [c] + PercentDecode(rest)
  {
    var e := EncodeChar(c) + rest;
    if Unreserved(c) || c as int >= 256 {
      assert e[1..] == rest;
    } else {
      assert e[3..] == rest;
      assert (16 * (c as int / 16) + c as int % 16) as char == c;
    }
  }

  /** Percent-decoding undoes percent-encoding. */
  lemma {:induction false} DecodeEncode(s: string)
    ensures PercentDecode(PercentEncode(s)) == s
  {
    if s != [] {
      DecodeEncodedChar(s[0], PercentEncode(s[1..]));
      DecodeEncode(s[1..]);
      assert s == [s[0]] + s[1..];
    }
  }

  /** Query items written as `name=value`, joined by `&`. */
  function QueryString(items: seq<QueryItem>): string
  {
    if items == [] then []
    else items[0].name + "=" + items[0].value + (if |items| == 1 then "" else "&" + QueryString(items[1..]))
  }

  /**
   * The banner's destination: the origin, the decoded fragment, then the
   * banner link's own query items, after `?` or, when the decoded fragment
   * already has a query, after `&`.
   */
  function Destination(fragment: string, outerQuery: seq<QueryItem>): (d: string)
    ensures |d| >= |Origin| + |PercentDecode(fragment)|
    ensures d[..|Origin| + |PercentDecode(fragment)|] == Origin + PercentDecode(fragment)
    ensures outerQuery == [] <==> |d| == |Origin| + |PercentDecode(fragment)|
  {
    var target := Origin + PercentDecode(fragment);
    if outerQuery == [] then target
    else
      var separator := if '?' in PercentDecode(fragment) then "&" else "?";
      assert QueryString(outerQuery) != [];
      target + separator + QueryString(outerQuery)
  }

  /** The typed source of a banner match: a banner carrying the banner link's `campaign` value. */
  function BannerSource(outerQuery: seq<QueryItem>): (s: Source)
    ensures s.Banner? && s.campaign == QueryValue(outerQuery, CampaignKey)
  {
    Banner(QueryValue(outerQuery, CampaignKey))
  }

  /** The destination of a fragment that decodes to a path without a query, for a banner link with query items. */
  lemma DestinationWithQuery(fragment: string, path: string, outerQuery: seq<QueryItem>)
    requires PercentDecode(fragment) == path && '?' !in path && outerQuery != []
    ensures Destination(fragment, outerQuery) == Origin + path + "?" + QueryString(outerQuery)
  {
  }

  /** Two non-empty runs of query items are written one after the other, joined by `&`. */
  lemma {:induction false} QueryStringJoin(a: seq<QueryItem>, b: seq<QueryItem>)
    requires a != [] && b != []
    ensures QueryString(a + b) == QueryString(a) + "&" + QueryString(b)
  {
    var item := a[0].name + "=" + a[0].value;
    assert (a + b)[0] == a[0] && (a + b)[1..] == a[1..] + b;
    if |a| == 1 {
      assert a[1..] + b == b;
      calc {
        QueryString(a + b);
        item + ("&" + QueryString(b));
        QueryString(a) + "&" + QueryString(b);
      }
    } else {
      QueryStringJoin(a[1..], b);
      calc {
        QueryString(a + b);
        item + ("&" + QueryString(a[1..] + b));
        item + ("&" + (QueryString(a[1..]) + "&" + QueryString(b)));
        QueryString(a) + "&" + QueryString(b);
      }
    }
  }

  /** A single query item is written `name=value`. */
  lemma QueryStringSingle(item: QueryItem)
    ensures QueryString([item]) == item.name + "=" + item.value
  {
  }

  /** A path written into a banner's fragment with PercentEncode is the path the destination leads to. */
  lemma DestinationPath(path: string, outerQuery: seq<QueryItem>)
    ensures var d := Destination(PercentEncode(path), outerQuery);
      |d| >= |Origin| + |path| && d[..|Origin| + |path|] == Origin + path
  {
    DecodeEncode(path);
  }

  /**
   * The destination a banner match leads to: read from the raw fragment in
   * its value bag, with the banner link's own query items; nothing when the
   * bag has no fragment.
   */
  function BannerDestination(m: MatchedRoute, url: Url): (d: Option<string>)
    ensures d.Some? <==> FragmentKey in m.values
    ensures d.Some? ==> d.value == Destination(m.values[FragmentKey], url.query)
  {
    if FragmentKey in m.values then Some(Destination(m.values[FragmentKey], url.query)) else None
  }

  /**
   * A fragment-extraction route that matches a URL with a fragment leads to
   * the destination of that URL's raw fragment, with that URL's query.
   */
  lemma BannerMatchDestination(route: Route, index: nat, url: Url)
    requires route.extractsFragment && url.fragment.Some? && PathMatches(route.Pattern(), url.path)
    ensures MatchRoute(route, index, url).Some?
    ensures BannerDestination(MatchRoute(route, index, url).value, url)
      == Some(Destination(url.fragment.value, url.query))
  {
    MatchRouteBag(route, index, url);
  }
}
