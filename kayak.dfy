/**
 * The Kayak car-rental deep link of kayak.py: a route string is lower-cased
 * and its spaces are turned into hyphens, and the result is interpolated,
 * together with a pickup and a drop-off date string, into a fixed URL
 * template. Nothing is escaped and no input is rejected.
 *
 * Case folding is restricted to ASCII: only 'A'..'Z' are mapped, to
 * 'a'..'z', and every other character is left as it is.
 */
module Kayak {

  import opened Wrappers

  /** Everything of the link that comes before the route segment. */
  const Prefix: string := "https://www.kayak.com/cars/"

  /** The query that ends every link: sort the offers by ascending price. */
  const Suffix: string := "?sort=price_a"

  predicate IsUpper(c: char) {
    'A' <= c <= 'Z'
  }

  /** ASCII lower-casing of one character. */
  function LowerChar(c: char): char {
    if IsUpper(c) then (c as int + 32) as char else c
  }

  /** `s.lower()`, restricted to ASCII letters: the string is lower-cased position by position. */
  function Lower(s: string): string {
    seq(|s|, i requires 0 <= i < |s| => LowerChar(s[i]))
  }

  /** `s.replace(a, b)` for one-character `a` and `b`: every `a` becomes `b`. */
  function Replace(s: string, a: char, b: char): string {
    seq(|s|, i requires 0 <= i < |s| => if s[i] == a then b else s[i])
  }

  /** The route normalisation `loc.lower().replace(' ', '-')`. */
  function Normalize(loc: string): string {
    Replace(Lower(loc), ' ', '-')
  }

  /**
   * Normalisation keeps the length and works position by position: an
   * upper-case ASCII letter becomes its lower-case letter, a space becomes a
   * hyphen, and every other character is kept. So the result holds no space
   * and no upper-case letter.
   */
  lemma NormalizeAt(loc: string)
    ensures |Normalize(loc)| == |loc|
    ensures forall i :: 0 <= i < |loc| && IsUpper(loc[i]) ==> Normalize(loc)[i] as int == loc[i] as int + 32
    ensures forall i :: 0 <= i < |loc| && loc[i] == ' ' ==> Normalize(loc)[i] == '-'
    ensures forall i :: 0 <= i < |loc| && !IsUpper(loc[i]) && loc[i] != ' ' ==> Normalize(loc)[i] == loc[i]
    ensures ' ' !in Normalize(loc)
    ensures forall i :: 0 <= i < |loc| ==> !IsUpper(Normalize(loc)[i])
  {
  }

  /** A route that normalisation would not change: no upper-case ASCII letter and no space. */
  predicate IsNormalized(s: string) {
    forall i :: 0 <= i < |s| ==> !IsUpper(s[i]) && s[i] != ' '
  }

  /** The normalised routes are exactly the fixed points of normalisation. */
  lemma NormalizeFixpoint(s: string)
    ensures Normalize(s) == s <==> IsNormalized(s)
  {
    NormalizeAt(s);
    if IsNormalized(s) {
      assert forall i :: 0 <= i < |s| ==> Normalize(s)[i] == s[i];
    }
  }

  /** Normalising twice is normalising once. */
  lemma NormalizeIdempotent(s: string)
    ensures Normalize(Normalize(s)) == Normalize(s)
  {
    NormalizeAt(s);
    NormalizeFixpoint(Normalize(s));
  }

  /** Normalisation works character by character, so it distributes over concatenation. */
  lemma NormalizeConcat(a: string, b: string)
    ensures Normalize(a + b) == Normalize(a) + Normalize(b)
  {
    NormalizeAt(a + b);
    NormalizeAt(a);
    NormalizeAt(b);
    var l, r := Normalize(a + b), Normalize(a) + Normalize(b);
    forall i | 0 <= i < |a + b|
      ensures l[i] == r[i]
    {
      if i >= |a| {
        assert (a + b)[i] == b[i - |a|];
      }
    }
  }

  /** Normalisation brings in no character it does not start from, other than lower-case letters and `-`. */
  lemma NormalizeKeepsAbsent(loc: string, c: char)
    requires c !in loc && !IsUpper(c) && c != ' ' && c != '-' && !('a' <= c <= 'z')
    ensures c !in Normalize(loc)
  {
    NormalizeAt(loc);
    forall i | 0 <= i < |loc|
      ensures Normalize(loc)[i] != c
    {
      assert loc[i] != c;
    }
  }

  /** The f-string template of the link, around an already normalised route. */
  function Link(route: string, pickup: string, dropoff: string): string {
    Prefix + route + "/" + pickup + "/" + dropoff + Suffix
  }

  /** `kayak_search(loc, pickup, dropoff)`: the link for a route and two date strings. */
  function KayakSearch(loc: string, pickup: string, dropoff: string): string {
    var cleanLocation := Normalize(loc);
    Link(cleanLocation, pickup, dropoff)
  }

  /**
   * The shape of every link: the prefix, the normalised route, `/`, the
   * pickup string, `/`, the drop-off string and the sort query. The two dates
   * appear verbatim, pickup first, separated by exactly one `/`; no input is
   * rejected.
   */
  lemma KayakSearchShape(loc: string, pickup: string, dropoff: string)
    ensures var url := KayakSearch(loc, pickup, dropoff);
      && |url| == |Prefix| + |loc| + 1 + |pickup| + 1 + |dropoff| + |Suffix|
      && url[..|Prefix|] == Prefix
      && url[|url| - |Suffix|..] == Suffix
      && url[|Prefix|..|Prefix| + |loc|] == Normalize(loc)
      && url[|Prefix| + |loc|] == '/'
      && url[|Prefix| + |loc| + 1..|Prefix| + |loc| + 1 + |pickup|] == pickup
      && url[|Prefix| + |loc| + 1 + |pickup|] == '/'
      && url[|Prefix| + |loc| + 2 + |pickup|..|url| - |Suffix|] == dropoff
  {
    NormalizeAt(loc);
    var cleanLocation := Normalize(loc);
    assert KayakSearch(loc, pickup, dropoff)
        == Prefix + (cleanLocation + ("/" + (pickup + ("/" + (dropoff + Suffix)))));
  }

  /** An empty route is not rejected: it leaves an empty path segment. */
  lemma EmptyRoute(pickup: string, dropoff: string)
    ensures KayakSearch("", pickup, dropoff) == "https://www.kayak.com/cars//" + pickup + "/" + dropoff + "?sort=price_a"
  {
  }

  // ---------------------------------------------------------------------
  // Reading a link back: the inverse of KayakSearch on the inputs it is
  // meant for.

  /** The index of the first `c` in `s`, or `|s|` when there is none. */
  function IndexOf(s: string, c: char): (i: nat)
    ensures i <= |s|
    ensures c !in s[..i]
    ensures i < |s| ==> s[i] == c
  {
    if s == [] then 0
    else if s[0] == c then 0
    else
      var j := IndexOf(s[1..], c);
      assert s[1..][..j] == s[1..j + 1];
      assert s[..j + 1] == [s[0]] + s[1..j + 1];
      1 + j
  }

  /** `s.split(sep)`: the pieces of `s` between the occurrences of `sep`. */
  function Split(s: string, sep: char): (parts: seq<string>)
    ensures |parts| >= 1
    ensures forall k :: 0 <= k < |parts| ==> sep !in parts[k]
    decreases |s|
  {
    var i := IndexOf(s, sep);
    if i == |s| then [s] else [s[..i]] + Split(s[i + 1..], sep)
  }

  /** The segments of a link's path: route, pickup and drop-off. */
  datatype SearchPath = SearchPath(route: string, pickup: string, dropoff: string)

  /**
   * Reads a link as a URL reader would: it must start with the prefix; the
   * path ends at the first `?`, after which the query must be the sort query;
   * the path must split on `/` into exactly three segments.
   */
  function ParseSearchUrl(url: string): Option<SearchPath> {
    if |url| < |Prefix| || url[..|Prefix|] != Prefix then None
    else
      var rest := url[|Prefix|..];
      var q := IndexOf(rest, '?');
      if rest[q..] != Suffix then None
      else
        Segments(Split(rest[..q], '/'))
  }

  /** Exactly three path segments, read as route, pickup and drop-off. */
  function Segments(parts: seq<string>): Option<SearchPath> {
    if |parts| == 3 then Some(SearchPath(parts[0], parts[1], parts[2])) else None
  }

  lemma IndexOfAbsent(s: string, c: char)
    requires c !in s
    ensures IndexOf(s, c) == |s|
  {
  }

  lemma IndexOfAfter(a: string, c: char, b: string)
    requires c !in a
    ensures IndexOf(a + [c] + b, c) == |a|
  {
    assert (a + [c] + b)[|a|] == c;
    assert (a + [c] + b)[..|a|] == a;
  }

  lemma SplitAt(a: string, sep: char, b: string)
    requires sep !in a
    ensures Split(a + [sep] + b, sep) == [a] + Split(b, sep)
  {
    var s := a + [sep] + b;
    IndexOfAfter(a, sep, b);
    assert s[..|a|] == a;
    assert s[|a| + 1..] == b;
  }

  lemma SplitWhole(a: string, sep: char)
    requires sep !in a
    ensures Split(a, sep) == [a]
  {
    IndexOfAbsent(a, sep);
  }

  /** A link with a path free of `?` reads back as the `/`-separated pieces of that path. */
  lemma ParsePath(path: string)
    requires '?' !in path
    ensures ParseSearchUrl(Prefix + path + Suffix) == Segments(Split(path, '/'))
  {
    var url := Prefix + path + Suffix;
    assert url[..|Prefix|] == Prefix;
    var rest := url[|Prefix|..];
    assert rest == path + ['?'] + Suffix[1..];
    IndexOfAfter(path, '?', Suffix[1..]);
    assert rest[..|path|] == path;
    assert rest[|path|..] == Suffix;
  }

  /** Three pieces free of `/`, joined by `/`, split back into those pieces. */
  lemma SplitThree(x: string, y: string, z: string)
    requires '/' !in x && '/' !in y && '/' !in z
    ensures Split(x + "/" + y + "/" + z, '/') == [x, y, z]
  {
    assert x + "/" + y + "/" + z == x + ['/'] + (y + ['/'] + z);
    SplitAt(x, '/', y + ['/'] + z);
    SplitAt(y, '/', z);
    SplitWhole(z, '/');
  }

  /** A link whose segments hold no `/` and no `?` reads back as those segments. */
  lemma ParseLink(route: string, pickup: string, dropoff: string)
    requires '/' !in route && '?' !in route
    requires '/' !in pickup && '?' !in pickup
    requires '/' !in dropoff && '?' !in dropoff
    ensures ParseSearchUrl(Link(route, pickup, dropoff)) == Some(SearchPath(route, pickup, dropoff))
  {
    var path := route + "/" + pickup + "/" + dropoff;
    assert Link(route, pickup, dropoff) == Prefix + path + Suffix;
    ParsePath(path);
    SplitThree(route, pickup, dropoff);
  }

  /**
   * Round trip: when neither the route nor the dates contain `/` or `?`, the
   * path after `/cars/` splits into exactly the normalised route, the pickup
   * string and the drop-off string, and the query is the sort query.
   */
  lemma ParseKayakSearch(loc: string, pickup: string, dropoff: string)
    requires '/' !in loc && '?' !in loc
    requires '/' !in pickup && '?' !in pickup
    requires '/' !in dropoff && '?' !in dropoff
    ensures ParseSearchUrl(KayakSearch(loc, pickup, dropoff)) == Some(SearchPath(Normalize(loc), pickup, dropoff))
  {
    NormalizeKeepsAbsent(loc, '/');
    NormalizeKeepsAbsent(loc, '?');
    ParseLink(Normalize(loc), pickup, dropoff);
  }

  /** A string that splits into one piece is that piece. */
  lemma SplitOne(s: string, sep: char)
    requires |Split(s, sep)| == 1
    ensures Split(s, sep) == [s]
  {
  }

  /** A string that splits into several pieces is its first piece, `sep`, and a remainder that splits into the rest. */
  lemma SplitFirst(s: string, sep: char) returns (r: string)
    requires |Split(s, sep)| >= 2
    ensures s == Split(s, sep)[0] + [sep] + r
    ensures Split(s, sep) == [Split(s, sep)[0]] + Split(r, sep)
  {
    var i := IndexOf(s, sep);
    r := s[i + 1..];
    assert s == s[..i] + [sep] + r;
  }

  /** A path with exactly three `/`-separated pieces is those pieces joined by `/`. */
  lemma SplitThreeJoin(s: string)
    requires |Split(s, '/')| == 3
    ensures var parts := Split(s, '/'); s == parts[0] + "/" + parts[1] + "/" + parts[2]
  {
    var t := SplitFirst(s, '/');
    var u := SplitFirst(t, '/');
    SplitOne(u, '/');
  }

  /** Splitting brings in no character: a character absent from `s` is absent from every piece. */
  lemma {:induction false} SplitKeepsAbsent(s: string, sep: char, c: char)
    requires c !in s
    ensures forall k :: 0 <= k < |Split(s, sep)| ==> c !in Split(s, sep)[k]
    decreases |s|
  {
    var i := IndexOf(s, sep);
    if i < |s| {
      var head, t := s[..i], s[i + 1..];
      assert s == head + [sep] + t;
      SplitKeepsAbsent(t, sep, c);
    }
  }

  /** What the reader accepts is the prefix, a path free of `?`, and the sort query. */
  lemma ParsedPath(url: string) returns (path: string)
    requires ParseSearchUrl(url).Some?
    ensures url == Prefix + path + Suffix
    ensures '?' !in path
    ensures ParseSearchUrl(url) == Segments(Split(path, '/'))
  {
    var rest := url[|Prefix|..];
    var q := IndexOf(rest, '?');
    path := rest[..q];
    assert rest == path + rest[q..];
    assert url == url[..|Prefix|] + rest;
  }

  /**
   * The reader accepts only links the template makes: whatever it reads back
   * as three segments is the template around those segments, and none of them
   * holds a `/` or a `?`.
   */
  lemma ParseSearchUrlSound(url: string, sp: SearchPath)
    requires ParseSearchUrl(url) == Some(sp)
    ensures url == Link(sp.route, sp.pickup, sp.dropoff)
    ensures '/' !in sp.route && '?' !in sp.route
    ensures '/' !in sp.pickup && '?' !in sp.pickup
    ensures '/' !in sp.dropoff && '?' !in sp.dropoff
  {
    var path := ParsedPath(url);
    SplitThreeJoin(path);
    SplitKeepsAbsent(path, '/', '?');
    assert path == sp.route + "/" + sp.pickup + "/" + sp.dropoff;
  }

  /**
   * The converse of `ParseKayakSearch`: the link reads back as the normalised
   * route and the two date strings only when none of the inputs holds a `/`
   * or a `?`.
   */
  lemma ParseKayakSearchOnlyWhenClean(loc: string, pickup: string, dropoff: string)
    requires ParseSearchUrl(KayakSearch(loc, pickup, dropoff)) == Some(SearchPath(Normalize(loc), pickup, dropoff))
    ensures '/' !in loc && '?' !in loc
    ensures '/' !in pickup && '?' !in pickup
    ensures '/' !in dropoff && '?' !in dropoff
  {
    ParseSearchUrlSound(KayakSearch(loc, pickup, dropoff), SearchPath(Normalize(loc), pickup, dropoff));
    NormalizeAt(loc);
    forall i | 0 <= i < |loc|
      ensures loc[i] != '/' && loc[i] != '?'
    {
      assert Normalize(loc)[i] in Normalize(loc);
    }
  }

  /**
   * A single `/` inside the route is passed through unescaped: the path then
   * splits into four segments, the two normalised halves of the route, the
   * pickup and the drop-off.
   */
  lemma SlashInRouteSplitsInFour(a: string, b: string, pickup: string, dropoff: string)
    requires '/' !in a && '/' !in b && '/' !in pickup && '/' !in dropoff
    ensures Split(Normalize(a + "/" + b) + "/" + pickup + "/" + dropoff, '/') == [Normalize(a), Normalize(b), pickup, dropoff]
  {
    var na, nb := Normalize(a), Normalize(b);
    NormalizeSlash(a, b);
    NormalizeKeepsAbsent(a, '/');
    NormalizeKeepsAbsent(b, '/');
    var tail := nb + "/" + pickup + "/" + dropoff;
    assert Normalize(a + "/" + b) + "/" + pickup + "/" + dropoff == na + ['/'] + tail;
    SplitThree(nb, pickup, dropoff);
    SplitAt(na, '/', tail);
  }

  /** So the link for a route with a single `/` reads back as `None`: its path has four segments, not three. */
  lemma SlashInRouteAddsSegment(a: string, b: string, pickup: string, dropoff: string)
    requires '/' !in a && '?' !in a && '/' !in b && '?' !in b
    requires '/' !in pickup && '?' !in pickup
    requires '/' !in dropoff && '?' !in dropoff
    ensures ParseSearchUrl(KayakSearch(a + "/" + b, pickup, dropoff)) == None
  {
    NormalizeKeepsAbsent(a, '?');
    NormalizeKeepsAbsent(b, '?');
    NormalizeSlash(a, b);
    var path := Normalize(a + "/" + b) + "/" + pickup + "/" + dropoff;
    assert KayakSearch(a + "/" + b, pickup, dropoff) == Prefix + path + Suffix;
    ParsePath(path);
    SlashInRouteSplitsInFour(a, b, pickup, dropoff);
  }

  lemma NormalizeSlash(a: string, b: string)
    ensures Normalize(a + "/" + b) == Normalize(a) + "/" + Normalize(b)
  {
    NormalizeConcat(a + "/", b);
    NormalizeConcat(a, "/");
    assert Normalize("/") == "/";
  }

  // ---------------------------------------------------------------------
  // Concrete routes.

  /** The two steps of the normalisation of the default route: `.lower()`, then `.replace(' ', '-')`. */
  lemma LowerBostonToNewHampshire()
    ensures Lower("Boston-to-New Hampshire") == "boston-to-new hampshire"
  {
  }

  lemma ReplaceBostonToNewHampshire()
    ensures Replace("boston-to-new hampshire", ' ', '-') == "boston-to-new-hampshire"
  {
  }

  lemma NormalizeBostonToNewHampshire()
    ensures Normalize("Boston-to-New Hampshire") == "boston-to-new-hampshire"
  {
    LowerBostonToNewHampshire();
    ReplaceBostonToNewHampshire();
  }

  /** The link for the route of the app's default locations. */
  lemma ScenarioBostonToNewHampshire()
    ensures KayakSearch("Boston-to-New Hampshire", "2024-06-01", "2024-06-05")
         == "https://www.kayak.com/cars/" + "boston-to-new-hampshire" + "/" + "2024-06-01" + "/" + "2024-06-05" + "?sort=price_a"
  {
    NormalizeBostonToNewHampshire();
  }

  lemma ScenarioMiami()
    ensures KayakSearch("Miami", "2024-06-01", "2024-06-05")
         == "https://www.kayak.com/cars/" + "miami" + "/" + "2024-06-01" + "/" + "2024-06-05" + "?sort=price_a"
  {
  }
}
