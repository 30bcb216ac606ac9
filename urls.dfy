/**
 * A simplified absolute URL (scheme, host, path) and the resolution of a
 * redirect target against the URL of the request that was redirected.
 * Resolution follows the cases of section 5.2.2 of RFC 3986 that redirects
 * use: an absolute `scheme://` reference, a network-path reference
 * (`//host/path`), an absolute-path reference (`/path`), a query-only
 * reference (`?q`), a fragment-only reference (`#f`), a relative-path
 * reference and the empty reference. A reference with a scheme but no `//`
 * is not recognised as absolute and is merged as a path. Dot segments are
 * not removed.
 */
module Urls {

  import opened Wrappers

  /** `scheme://host` followed by `path`; the path holds any query and fragment as well. */
  datatype Url = Url(scheme: string, host: string, path: string)

  predicate IsLetter(c: char)
  {
    'a' <= c <= 'z' || 'A' <= c <= 'Z'
  }

  /** A character allowed in a scheme (section 3.1 of RFC 3986). */
  predicate IsSchemeChar(c: char)
  {
    IsLetter(c) || '0' <= c <= '9' || c == '+' || c == '-' || c == '.'
  }

  predicate ValidScheme(s: string)
  {
    |s| > 0 && IsLetter(s[0]) && forall i :: 0 <= i < |s| ==> IsSchemeChar(s[i])
  }

  /** The characters that end the authority of a URL (section 3.2 of RFC 3986). */
  predicate EndsAuthority(c: char)
  {
    c == '/' || c == '?' || c == '#'
  }

  /** A host: nothing in it ends the authority. */
  predicate ValidHost(h: string)
  {
    forall i :: 0 <= i < |h| ==> !EndsAuthority(h[i])
  }

  /** A well-formed URL: a scheme, a host, and a path that is empty or starts with `/`, `?` or `#`. */
  predicate Valid(u: Url)
  {
    ValidScheme(u.scheme) && ValidHost(u.host) && (u.path == "" || EndsAuthority(u.path[0]))
  }

  function ToString(u: Url): string
  {
    u.scheme + "://" + u.host + u.path
  }

  /** The length of the longest prefix of `s` made of scheme characters. */
  function SchemeLength(s: string): (n: nat)
    ensures n <= |s|
    ensures forall i :: 0 <= i < n ==> IsSchemeChar(s[i])
    ensures n < |s| ==> !IsSchemeChar(s[n])
  {
    if s == [] || !IsSchemeChar(s[0]) then 0 else 1 + SchemeLength(s[1..])
  }

  /** The index of the first `c` in `s`, or `|s|` when there is none. */
  function IndexOf(s: string, c: char): (k: nat)
    ensures k <= |s|
    ensures c !in s[..k]
    ensures k < |s| ==> s[k] == c
  {
    if s == [] then 0 else if s[0] == c then 0 else 1 + IndexOf(s[1..], c)
  }

  /** The index of the first character of `s` that ends the authority, or `|s|` when there is none. */
  function AuthorityEnd(s: string): (k: nat)
    ensures k <= |s|
    ensures ValidHost(s[..k])
    ensures k < |s| ==> EndsAuthority(s[k])
  {
    if s == [] || EndsAuthority(s[0]) then 0
    else
      var k := 1 + AuthorityEnd(s[1..]);
      assert forall i :: 1 <= i < k ==> s[..k][i] == s[1..][..k - 1][i - 1];
      k
  }

  /** What follows `scheme://`: the host reaches up to the first `/`, `?` or `#`, the rest is the path. */
  function SplitAuthority(scheme: string, rest: string): (u: Url)
    ensures u.scheme == scheme
    ensures u.host + u.path == rest
    ensures ValidScheme(scheme) ==> Valid(u)
  {
    var k := AuthorityEnd(rest);
    assert rest == rest[..k] + rest[k..];
    Url(scheme, rest[..k], rest[k..])
  }

  /** Parses `scheme://host/path`; None when `s` does not start with a scheme and `://`. */
  function Parse(s: string): (r: Option<Url>)
    ensures r.Some? ==> Valid(r.value) && ToString(r.value) == s
  {
    var n := SchemeLength(s);
    if n > 0 && IsLetter(s[0]) && n + 3 <= |s| && s[n..n + 3] == "://" then
      var u := SplitAuthority(s[..n], s[n + 3..]);
      assert s == s[..n] + "://" + s[n + 3..];
      assert ToString(u) == s[..n] + "://" + (u.host + u.path);
      Some(u)
    else None
  }

  /** A scheme followed by `://` is read back as that scheme. */
  lemma ParseWithScheme(scheme: string, rest: string)
    requires ValidScheme(scheme)
    ensures Parse(scheme + "://" + rest) == Some(SplitAuthority(scheme, rest))
  {
    var s := scheme + "://" + rest;
    SchemeLengthAt(scheme, "://" + rest);
    assert s[..|scheme|] == scheme;
    assert s[|scheme|..|scheme| + 3] == "://";
    assert s[|scheme| + 3..] == rest;
  }

  lemma {:induction false} SchemeLengthAt(scheme: string, rest: string)
    requires forall i :: 0 <= i < |scheme| ==> IsSchemeChar(scheme[i])
    requires rest != [] && !IsSchemeChar(rest[0])
    ensures SchemeLength(scheme + rest) == |scheme|
  {
    if scheme != [] {
      assert (scheme + rest)[1..] == scheme[1..] + rest;
      SchemeLengthAt(scheme[1..], rest);
    } else {
      assert scheme + rest == rest;
    }
  }

  /** Round trip: a well-formed URL is parsed back from its string form. */
  lemma ParseToString(u: Url)
    requires Valid(u)
    ensures Parse(ToString(u)) == Some(u)
  {
    ParseWithScheme(u.scheme, u.host + u.path);
    HostEnds(u.host, u.path);
    assert ToString(u) == u.scheme + "://" + (u.host + u.path);
  }

  /** A host followed by a path: the authority ends where the host does. */
  lemma {:induction false} HostEnds(host: string, path: string)
    requires ValidHost(host)
    requires path == "" || EndsAuthority(path[0])
    ensures AuthorityEnd(host + path) == |host|
    ensures (host + path)[..|host|] == host && (host + path)[|host|..] == path
  {
    if host != [] {
      assert (host + path)[1..] == host[1..] + path;
      HostEnds(host[1..], path);
    } else {
      assert host + path == path;
    }
  }

  /** The leading `/` characters of `s` removed. */
  function StripSlashes(s: string): (r: string)
    ensures r == [] || r[0] != '/'
    ensures |r| <= |s| && r == s[|s| - |r|..]
    ensures forall i :: 0 <= i < |s| - |r| ==> s[i] == '/'
  {
    if s != [] && s[0] == '/' then StripSlashes(s[1..]) else s
  }

  /** The path up to and including its last `/` (the empty string when it has none). */
  function Directory(path: string): (d: string)
    ensures |d| <= |path| && d == path[..|d|]
    ensures d == "" || d[|d| - 1] == '/'
    ensures forall i :: |d| <= i < |path| ==> path[i] != '/'
    ensures path != "" && path[0] == '/' ==> |d| > 0
  {
    if path == [] then ""
    else if path[|path| - 1] == '/' then path
    else Directory(path[..|path| - 1])
  }

  /** `s` up to the first `c`, or all of it when there is none. */
  function Before(s: string, c: char): (r: string)
    ensures |r| <= |s| && c !in r && r == s[..|r|]
    ensures |r| < |s| ==> s[|r|] == c
  {
    s[..IndexOf(s, c)]
  }

  /** The path with its fragment removed. */
  function WithoutFragment(path: string): (p: string)
    ensures |p| <= |path| && '#' !in p && p == path[..|p|]
    ensures |p| < |path| ==> path[|p|] == '#'
  {
    Before(path, '#')
  }

  /** The path with its query and fragment removed. */
  function PathOnly(path: string): (p: string)
    ensures |p| <= |path| && '?' !in p && '#' !in p && p == path[..|p|]
    ensures |p| < |path| ==> path[|p|] == '?' || path[|p|] == '#'
  {
    var w := WithoutFragment(path);
    var p := Before(w, '?');
    assert forall i :: 0 <= i < |p| ==> p[i] == w[i];
    assert |p| < |w| ==> path[|p|] == w[|p|];
    p
  }

  /** Merging a relative path with the base path (section 5.2.3 of RFC 3986). */
  function Merge(basePath: string, ref: string): (p: string)
    ensures (basePath == "" || basePath[0] == '/') ==> |p| > 0 && p[0] == '/'
  {
    if basePath == "" then "/" + ref else Directory(basePath) + ref
  }

  /**
   * Resolves `ref` against `base`. The result is well formed whenever the base
   * is; an absolute reference replaces the base altogether, the other kinds
   * keep the base scheme, and all but a network-path reference its host. A
   * query replaces the base's query and fragment, a fragment only the base's
   * fragment, and a relative path the last segment of the base path without
   * its query and fragment.
   */
  function Resolve(base: Url, ref: string): (r: Url)
    ensures Valid(base) ==> Valid(r)
    ensures Parse(ref).Some? ==> r == Parse(ref).value
    ensures Parse(ref).None? ==> r.scheme == base.scheme
    ensures ref != "" && ref[0] == '/' && !(|ref| >= 2 && ref[1] == '/') ==> r == Url(base.scheme, base.host, ref)
    ensures ref == "" ==> r == base
  {
    match Parse(ref)
    case Some(u) => u
    case None =>
      if ref == "" then base
      else if |ref| >= 2 && ref[..2] == "//" then SplitAuthority(base.scheme, ref[2..])
      else if ref[0] == '/' then Url(base.scheme, base.host, ref)
      else if ref[0] == '?' then
        var p := PathOnly(base.path);
        assert p != "" ==> p[0] == base.path[0];
        Url(base.scheme, base.host, p + ref)
      else if ref[0] == '#' then
        var p := WithoutFragment(base.path);
        assert p != "" ==> p[0] == base.path[0];
        Url(base.scheme, base.host, p + ref)
      else
        var p := PathOnly(base.path);
        assert p != "" ==> p[0] == base.path[0] && p[0] in p;
        Url(base.scheme, base.host, Merge(p, ref))
  }

  /** A network-path reference keeps the base scheme and takes host and path from the reference. */
  lemma ResolveNetworkPath(base: Url, hostAndPath: string)
    ensures Resolve(base, "//" + hostAndPath) == SplitAuthority(base.scheme, hostAndPath)
  {
    var ref := "//" + hostAndPath;
    assert SchemeLength(ref) == 0;
    assert ref[..2] == "//" && ref[2..] == hostAndPath;
  }

  /** The cut of `PathOnly` is where the query or fragment starts. */
  lemma PathOnlySplit(path: string, rest: string)
    requires '?' !in path && '#' !in path
    requires rest == "" || rest[0] == '?' || rest[0] == '#'
    ensures PathOnly(path + rest) == path
  {
    var s := path + rest;
    assert s[..|path|] == path;
    assert rest != "" ==> s[|path|] == rest[0];
  }

  /** The cut of `WithoutFragment` is where the fragment starts. */
  lemma WithoutFragmentSplit(path: string, rest: string)
    requires '#' !in path
    requires rest == "" || rest[0] == '#'
    ensures WithoutFragment(path + rest) == path
  {
    var s := path + rest;
    assert s[..|path|] == path;
    assert rest != "" ==> s[|path|] == rest[0];
  }

  /** The directory of `dir + segment` is `dir` when `dir` ends in `/` and the segment has none. */
  lemma {:induction false} DirectorySplit(dir: string, segment: string)
    requires dir != "" && dir[|dir| - 1] == '/' && '/' !in segment
    ensures Directory(dir + segment) == dir
    decreases |segment|
  {
    var path := dir + segment;
    if segment == "" {
      assert path == dir;
    } else {
      var shorter := segment[..|segment| - 1];
      assert path[|path| - 1] == segment[|segment| - 1];
      assert path[..|path| - 1] == dir + shorter;
      assert forall c :: c in shorter ==> c in segment;
      DirectorySplit(dir, shorter);
    }
  }

  /**
   * A relative-path reference against `dir + segment + rest`, where `rest` is
   * the base's query and fragment, replaces the last segment and drops `rest`.
   */
  lemma ResolveRelativePath(scheme: string, host: string, dir: string, segment: string, rest: string, ref: string)
    requires dir != "" && dir[|dir| - 1] == '/' && '/' !in segment
    requires '?' !in dir + segment && '#' !in dir + segment
    requires rest == "" || rest[0] == '?' || rest[0] == '#'
    requires ref != "" && !EndsAuthority(ref[0]) && Parse(ref).None?
    ensures var r := Resolve(Url(scheme, host, dir + segment + rest), ref);
      && r == Url(scheme, host, dir + ref)
      && ToString(r) == scheme + "://" + host + dir + ref
  {
    PathOnlySplit(dir + segment, rest);
    DirectorySplit(dir, segment);
  }

  /** A query-only reference against `path + rest`, where `rest` is the base's query and fragment, keeps `path` and replaces `rest`. */
  lemma ResolveQuery(scheme: string, host: string, path: string, rest: string, query: string)
    requires '?' !in path && '#' !in path
    requires rest == "" || rest[0] == '?' || rest[0] == '#'
    ensures var r := Resolve(Url(scheme, host, path + rest), "?" + query);
      && r == Url(scheme, host, path + "?" + query)
      && ToString(r) == scheme + "://" + host + path + "?" + query
  {
    assert SchemeLength("?" + query) == 0;
    PathOnlySplit(path, rest);
  }

  /** A fragment-only reference against `path + rest`, where `rest` is the base's fragment, keeps `path` (with its query) and replaces `rest`. */
  lemma ResolveFragment(scheme: string, host: string, path: string, rest: string, fragment: string)
    requires '#' !in path
    requires rest == "" || rest[0] == '#'
    ensures var r := Resolve(Url(scheme, host, path + rest), "#" + fragment);
      && r == Url(scheme, host, path + "#" + fragment)
      && ToString(r) == scheme + "://" + host + path + "#" + fragment
  {
    assert SchemeLength("#" + fragment) == 0;
    WithoutFragmentSplit(path, rest);
  }

  /** A string without `:` has no scheme. */
  lemma NoColonNoScheme(s: string)
    requires ':' !in s
    ensures Parse(s).None?
  {
  }

  /** A query-only reference against a base without query or fragment appends to the whole path. */
  lemma QueryAgainstPath(scheme: string, host: string, path: string, query: string)
    requires '?' !in path && '#' !in path
    ensures Resolve(Url(scheme, host, path), "?" + query) == Url(scheme, host, path + "?" + query)
  {
    ResolveQuery(scheme, host, path, "", query);
    assert path + "" == path;
  }

  /** A fragment-only reference against a base with a query keeps the query. */
  lemma FragmentAgainstQuery(scheme: string, host: string, path: string, query: string, fragment: string)
    requires '#' !in path && '#' !in query
    ensures Resolve(Url(scheme, host, path + "?" + query), "#" + fragment) == Url(scheme, host, path + "?" + query + "#" + fragment)
  {
    var p := path + "?" + query;
    assert '#' !in p;
    ResolveFragment(scheme, host, p, "", fragment);
    assert p + "" == p;
  }

  /**
   * A relative-path reference against `/segment?query` replaces the segment:
   * a `/` in the query does not start a segment.
   */
  lemma RelativeAgainstQuery(scheme: string, host: string, segment: string, query: string, ref: string)
    requires '/' !in segment && '?' !in segment && '#' !in segment && '#' !in query
    requires ref != "" && !EndsAuthority(ref[0]) && ':' !in ref
    ensures Resolve(Url(scheme, host, "/" + segment + "?" + query), ref) == Url(scheme, host, "/" + ref)
  {
    NoColonNoScheme(ref);
    assert '?' !in "/" + segment && '#' !in "/" + segment;
    assert "/" + segment + "?" + query == "/" + segment + ("?" + query);
    ResolveRelativePath(scheme, host, "/", segment, "?" + query, ref);
  }

}
