/**
 * A route's path template: the `/`-separated components of the route's
 * path, each of which is a literal or a `:name` placeholder, and the rule
 * that pairs those components with the components of a URL's path.
 */
module RoutePattern {
  import opened Wrappers

  datatype Segment = Literal(text: string) | Placeholder(name: string)

  /** A template component that starts with `:` is a placeholder; any other is a literal. */
  function ParseComponent(c: string): (s: Segment)
    ensures s.Placeholder? <==> |c| > 0 && c[0] == ':'
    ensures s.Literal? ==> s.text == c
    ensures s.Placeholder? ==> s.name == c[1..]
  {
    if |c| > 0 && c[0] == ':' then Placeholder(c[1..]) else Literal(c)
  }

  /** The template component a segment is written as. */
  function Render(s: Segment): string
  {
    match s
    case Literal(t) => t
    case Placeholder(n) => [':'] + n
  }

  /** Reading a template component back from its written form gives it unchanged. */
  lemma RenderParse(c: string)
    ensures Render(ParseComponent(c)) == c
  {
  }

  /** A segment survives being written out and read back unless it is a literal that starts with `:`. */
  lemma ParseRender(s: Segment)
    ensures ParseComponent(Render(s)) == s <==> !(s.Literal? && |s.text| > 0 && s.text[0] == ':')
  {
    if s.Placeholder? {
      assert Render(s)[1..] == s.name;
    }
  }

  /** The segments of a whole template, component by component. */
  function ParseTemplate(components: seq<string>): (p: seq<Segment>)
    ensures |p| == |components|
    ensures forall i :: 0 <= i < |p| ==> p[i] == ParseComponent(components[i])
  {
    seq(|components|, i requires 0 <= i < |components| => ParseComponent(components[i]))
  }

  /**
   * The matching rule: the template and the path have the same number of
   * components, and every literal equals the path component beside it
   * (placeholders accept any component, the empty one included).
   */
  predicate PathMatches(pattern: seq<Segment>, path: seq<string>)
  {
    && |pattern| == |path|
    && forall i :: 0 <= i < |pattern| && pattern[i].Literal? ==> pattern[i].text == path[i]
  }

  /**
   * The matching rule read as a pairwise walk: the empty template fits only
   * the empty path, and a non-empty template fits when its first segment
   * accepts the first component and the rest fits the rest.
   */
  lemma PathMatchesWalk(pattern: seq<Segment>, path: seq<string>)
    ensures PathMatches(pattern, path) <==>
      if pattern == [] || path == [] then pattern == [] && path == []
      else (pattern[0].Placeholder? || pattern[0].text == path[0]) && PathMatches(pattern[1..], path[1..])
  {
    if pattern != [] && path != [] && |pattern| == |path| {
      if PathMatches(pattern[1..], path[1..]) && (pattern[0].Placeholder? || pattern[0].text == path[0]) {
        forall i | 0 <= i < |pattern| && pattern[i].Literal?
          ensures pattern[i].text == path[i]
        {
          if i > 0 {
            assert pattern[1..][i - 1] == pattern[i];
          }
        }
      }
      if PathMatches(pattern, path) {
        forall i | 0 <= i < |pattern[1..]| && pattern[1..][i].Literal?
          ensures pattern[1..][i].text == path[1..][i]
        {
          assert pattern[1..][i] == pattern[i + 1];
        }
      }
    }
  }

  /** The names of the placeholders of a template. */
  function Names(pattern: seq<Segment>): set<string>
  {
    if pattern == [] then {}
    else (if pattern[0].Placeholder? then {pattern[0].name} else {}) + Names(pattern[1..])
  }

  /** A name belongs to the template's names exactly when some placeholder segment carries it. */
  lemma {:induction false} NamesMembership(pattern: seq<Segment>, n: string)
    ensures n in Names(pattern) <==> exists i :: 0 <= i < |pattern| && pattern[i] == Placeholder(n)
  {
    if pattern != [] {
      NamesMembership(pattern[1..], n);
      if n in Names(pattern[1..]) {
        var i :| 0 <= i < |pattern[1..]| && pattern[1..][i] == Placeholder(n);
        assert pattern[i + 1] == Placeholder(n);
      }
      if exists i :: 0 <= i < |pattern| && pattern[i] == Placeholder(n) {
        var i :| 0 <= i < |pattern| && pattern[i] == Placeholder(n);
        if i > 0 {
          assert pattern[1..][i - 1] == Placeholder(n);
        }
      }
    }
  }

  /** The number of placeholder segments of a template. */
  function PlaceholderCount(pattern: seq<Segment>): nat
  {
    if pattern == [] then 0
    else (if pattern[0].Placeholder? then 1 else 0) + PlaceholderCount(pattern[1..])
  }

  /** No two placeholders of the template share a name. */
  predicate DistinctPlaceholders(pattern: seq<Segment>)
  {
    forall i, j ::
      0 <= i < j < |pattern| && pattern[i].Placeholder? && pattern[j].Placeholder? ==>
        pattern[i].name != pattern[j].name
  }

  /** A template of literals alone has no placeholder names. */
  lemma {:induction false} LiteralsOnly(pattern: seq<Segment>)
    requires forall i :: 0 <= i < |pattern| ==> pattern[i].Literal?
    ensures Names(pattern) == {} && PlaceholderCount(pattern) == 0
  {
    if pattern != [] {
      LiteralsOnly(pattern[1..]);
    }
  }

  /** With distinct names there are as many names as placeholder segments. */
  lemma {:induction false} DistinctNamesCount(pattern: seq<Segment>)
    requires DistinctPlaceholders(pattern)
    ensures |Names(pattern)| == PlaceholderCount(pattern)
  {
    if pattern != [] {
      var tail := pattern[1..];
      assert DistinctPlaceholders(tail) by {
        forall i, j | 0 <= i < j < |tail| && tail[i].Placeholder? && tail[j].Placeholder?
          ensures tail[i].name != tail[j].name
        {
          assert tail[i] == pattern[i + 1] && tail[j] == pattern[j + 1];
        }
      }
      DistinctNamesCount(tail);
      if pattern[0].Placeholder? {
        NamesMembership(tail, pattern[0].name);
      }
    }
  }

  /** The placeholder at `i` is not bound again by a later segment, so its binding is the one kept. */
  predicate LastBinding(pattern: seq<Segment>, i: nat)
    requires i < |pattern|
  {
    pattern[i].Placeholder? && pattern[i].name !in Names(pattern[i + 1..])
  }

  /** Dropping the first segment keeps whether a later placeholder's binding is the one kept. */
  lemma LastBindingTail(pattern: seq<Segment>, i: nat)
    requires 0 < i < |pattern|
    ensures LastBinding(pattern, i) == LastBinding(pattern[1..], i - 1)
  {
    assert pattern[1..][i..] == pattern[i + 1..];
  }

  /** With distinct names every placeholder's binding is the one kept. */
  lemma DistinctAllLast(pattern: seq<Segment>, i: nat)
    requires DistinctPlaceholders(pattern)
    requires i < |pattern| && pattern[i].Placeholder?
    ensures LastBinding(pattern, i)
  {
    var later := pattern[i + 1..];
    NamesMembership(later, pattern[i].name);
  }

  /**
   * Walks the template and the path pairwise. Fails when the lengths differ
   * or a literal differs from its path component; otherwise binds every
   * placeholder name to the path component in its position (a later
   * placeholder of the same name overwrites an earlier one).
   */
  function MatchSegments(pattern: seq<Segment>, path: seq<string>): (r: Option<map<string, string>>)
    ensures r.Some? <==> PathMatches(pattern, path)
    ensures r.Some? ==> r.value.Keys == Names(pattern)
    ensures r.Some? ==>
      forall i :: 0 <= i < |pattern| && LastBinding(pattern, i) ==>
        pattern[i].name in r.value && r.value[pattern[i].name] == path[i]
    decreases |pattern|
  {
    if |pattern| != |path| then None
    else if pattern == [] then Some(map[])
    else
      match MatchSegments(pattern[1..], path[1..])
      case None => None
      case Some(rest) =>
        match pattern[0]
        case Literal(t) => if t == path[0] then Some(rest) else None
        case Placeholder(n) =>
          assert forall i :: 0 < i < |pattern| ==> LastBinding(pattern, i) == LastBinding(pattern[1..], i - 1) by {
            forall i | 0 < i < |pattern| { LastBindingTail(pattern, i); }
          }
          Some(map[n := path[0]] + rest)
  }
}
