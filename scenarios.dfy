/**
 * The behaviours pinned down by the middleware's unit tests, restated on the
 * model: the byte vectors of the `Location` tests, and the request/response
 * sequences of the single-hop, multi-hop and proxy tests, played on the
 * middleware objects.
 */
module Scenarios {

  import opened Wrappers
  import opened Encoding
  import opened Urls
  import opened Headers
  import opened Messages
  import opened HttpProxy
  import opened Redirect
  import opened Refresh
  import opened Middlewares

  /** `/ação` in Latin-1. */
  const Latin1Path: seq<byte> := [0x2F, 0x61, 0xE7, 0xE3, 0x6F]

  /** `/ação` in UTF-8. */
  const Utf8Path: seq<byte> := [0x2F, 0x61, 0xC3, 0xA7, 0xC3, 0xA3, 0x6F]

  lemma PercentEncodeBytesCons(x: byte, rest: seq<byte>)
    ensures PercentEncodeBytes([x] + rest) == (if x < 0x80 then [x as char] else PercentTriplet(x)) + PercentEncodeBytes(rest)
  {
    assert ([x] + rest)[1..] == rest;
  }

  lemma EncodeStringCons(c: char, rest: string)
    ensures EncodeString([c] + rest) == EncodeChar(c) + EncodeString(rest)
  {
    assert ([c] + rest)[1..] == rest;
  }

  /** The bytes are not UTF-8: `E7` opens a three-byte sequence that `E3` does not continue. */
  lemma Latin1PathIsNotUtf8()
    ensures DecodeUtf8(Latin1Path).None?
  {
  }

  lemma Latin1PathTailEncoded()
    ensures PercentEncodeBytes([0xE3, 0x6F]) == "%E3o"
  {
    var e: seq<byte> := [];
    PercentEncodeBytesCons(0x6F, e);
    assert PercentEncodeBytes([0x6F]) == "o" by { assert [0x6F] + e == [0x6F]; }
    PercentEncodeBytesCons(0xE3, [0x6F]);
    assert PercentTriplet(0xE3) == "%E3" by { assert HexDigits[14] == 'E'; }
    assert [0xE3] + [0x6F] == [0xE3, 0x6F];
  }

  lemma Latin1PathHeadEncoded()
    ensures PercentEncodeBytes([0x2F, 0x61, 0xE7]) == "/a%E7"
  {
    var e: seq<byte> := [];
    PercentEncodeBytesCons(0xE7, e);
    assert PercentTriplet(0xE7) == "%E7" by { assert HexDigits[14] == 'E'; }
    assert PercentEncodeBytes([0xE7]) == "%E7" by { assert [0xE7] + e == [0xE7]; }
    PercentEncodeBytesCons(0x61, [0xE7]);
    assert PercentEncodeBytes([0x61, 0xE7]) == "a%E7" by { assert [0x61] + [0xE7] == [0x61, 0xE7]; }
    PercentEncodeBytesCons(0x2F, [0x61, 0xE7]);
    assert [0x2F] + [0x61, 0xE7] == [0x2F, 0x61, 0xE7];
  }

  lemma Latin1PathEncoded()
    ensures PercentEncodeBytes(Latin1Path) == "/a%E7%E3o"
  {
    Latin1PathHeadEncoded();
    Latin1PathTailEncoded();
    PercentEncodeBytesAppend([0x2F, 0x61, 0xE7], [0xE3, 0x6F]);
    assert [0x2F, 0x61, 0xE7] + [0xE3, 0x6F] == Latin1Path;
  }

  /** Latin-1 bytes that are not UTF-8 are decoded as Latin-1, and their non-ASCII bytes come out as `%E7%E3`. */
  lemma Latin1Location()
    ensures DecodeHeader(Latin1Path).0 == Latin1
    ensures SafeLocation(Latin1Path) == "/a%E7%E3o"
  {
    Latin1PathIsNotUtf8();
    SafeLocationIsBytewise(Latin1Path);
    Latin1PathEncoded();
  }

  lemma Utf8PathIsText()
    ensures EncodeString("/ação") == Utf8Path
  {
    var e: string := [];
    EncodeStringCons('o', e);
    assert EncodeString("o") == [0x6F] by { assert ['o'] + e == "o"; }
    EncodeStringCons('ã', "o");
    assert EncodeChar('ã') == [0xC3, 0xA3];
    assert EncodeString("ão") == [0xC3, 0xA3, 0x6F] by { assert ['ã'] + "o" == "ão"; }
    EncodeStringCons('ç', "ão");
    assert EncodeChar('ç') == [0xC3, 0xA7];
    assert EncodeString("ção") == [0xC3, 0xA7, 0xC3, 0xA3, 0x6F] by { assert ['ç'] + "ão" == "ção"; }
    EncodeStringCons('a', "ção");
    assert EncodeString("ação") == [0x61, 0xC3, 0xA7, 0xC3, 0xA3, 0x6F] by { assert ['a'] + "ção" == "ação"; }
    EncodeStringCons('/', "ação");
    assert ['/'] + "ação" == "/ação";
  }

  lemma Utf8PathTailEncoded()
    ensures PercentEncodeBytes([0xA7, 0xC3, 0xA3, 0x6F]) == "%A7%C3%A3o"
  {
    var e: seq<byte> := [];
    PercentEncodeBytesCons(0x6F, e);
    assert PercentEncodeBytes([0x6F]) == "o" by { assert [0x6F] + e == [0x6F]; }
    assert PercentTriplet(0xA3) == "%A3" by { assert HexDigits[10] == 'A'; }
    assert PercentTriplet(0xC3) == "%C3" by { assert HexDigits[12] == 'C'; }
    assert PercentTriplet(0xA7) == "%A7" by { assert HexDigits[10] == 'A'; }
    PercentEncodeBytesCons(0xA3, [0x6F]);
    assert PercentEncodeBytes([0xA3, 0x6F]) == "%A3o" by { assert [0xA3] + [0x6F] == [0xA3, 0x6F]; }
    PercentEncodeBytesCons(0xC3, [0xA3, 0x6F]);
    assert PercentEncodeBytes([0xC3, 0xA3, 0x6F]) == "%C3%A3o" by { assert [0xC3] + [0xA3, 0x6F] == [0xC3, 0xA3, 0x6F]; }
    PercentEncodeBytesCons(0xA7, [0xC3, 0xA3, 0x6F]);
    assert [0xA7] + [0xC3, 0xA3, 0x6F] == [0xA7, 0xC3, 0xA3, 0x6F];
  }

  lemma Utf8PathHeadEncoded()
    ensures PercentEncodeBytes([0x2F, 0x61, 0xC3]) == "/a%C3"
  {
    var e: seq<byte> := [];
    PercentEncodeBytesCons(0xC3, e);
    assert PercentTriplet(0xC3) == "%C3" by { assert HexDigits[12] == 'C'; }
    assert PercentEncodeBytes([0xC3]) == "%C3" by { assert [0xC3] + e == [0xC3]; }
    PercentEncodeBytesCons(0x61, [0xC3]);
    assert PercentEncodeBytes([0x61, 0xC3]) == "a%C3" by { assert [0x61] + [0xC3] == [0x61, 0xC3]; }
    PercentEncodeBytesCons(0x2F, [0x61, 0xC3]);
    assert [0x2F] + [0x61, 0xC3] == [0x2F, 0x61, 0xC3];
  }

  lemma Utf8PathEncoded()
    ensures PercentEncodeBytes(Utf8Path) == "/a%C3%A7%C3%A3o"
  {
    Utf8PathHeadEncoded();
    Utf8PathTailEncoded();
    PercentEncodeBytesAppend([0x2F, 0x61, 0xC3], [0xA7, 0xC3, 0xA3, 0x6F]);
    assert [0x2F, 0x61, 0xC3] + [0xA7, 0xC3, 0xA3, 0x6F] == Utf8Path;
    assert "/a%C3" + "%A7%C3%A3o" == "/a%C3%A7%C3%A3o";
  }

  /** UTF-8 bytes are decoded as UTF-8, and each byte of `ç` and `ã` comes out as a triplet. */
  lemma Utf8Location()
    ensures DecodeHeader(Utf8Path).0 == Utf8
    ensures SafeLocation(Utf8Path) == "/a%C3%A7%C3%A3o"
  {
    Utf8PathIsText();
    DecodeEncodeUtf8("/ação");
    SafeLocationIsBytewise(Utf8Path);
    Utf8PathEncoded();
  }

  // ---------------------------------------------------------------------------
  // Single hops of the HTTP variant
  // ---------------------------------------------------------------------------

  /** A GET request without headers, body or meta. */
  function Plain(u: Url): RequestValue
  {
    RequestValue(u, "GET", map[], [], 0, NoMeta)
  }

  /** A response of status `status` whose `Location` holds the bytes of `location`. */
  function Moved(u: Url, status: int, location: string): Response
  {
    Response(u, status, Some(EncodeString(location)), None)
  }

  /** The redirected request of the Latin-1 `Location` test. */
  lemma Latin1LocationRedirect()
    ensures var u := Url("http", "scrapytest.org", "/first");
      var o := HttpStep(DefaultSettings, [], Plain(u), Response(u, 302, Some(Latin1Path), None));
      o.Follow? && o.next.url == Url("http", "scrapytest.org", "/a%E7%E3o")
  {
    var u := Url("http", "scrapytest.org", "/first");
    var rsp := Response(u, 302, Some(Latin1Path), None);
    Latin1Location();
    SafePathLocation(Plain(u), rsp, "/a%E7%E3o");
    FirstHopFollows(DefaultSettings, Plain(u), rsp);
  }

  /** The redirected request of the UTF-8 `Location` test. */
  lemma Utf8LocationRedirect()
    ensures var u := Url("http", "scrapytest.org", "/first");
      var o := HttpStep(DefaultSettings, [], Plain(u), Response(u, 302, Some(Utf8Path), None));
      o.Follow? && o.next.url == Url("http", "scrapytest.org", "/a%C3%A7%C3%A3o")
  {
    var u := Url("http", "scrapytest.org", "/first");
    var rsp := Response(u, 302, Some(Utf8Path), None);
    Utf8Location();
    SafePathLocation(Plain(u), rsp, "/a%C3%A7%C3%A3o");
    FirstHopFollows(DefaultSettings, Plain(u), rsp);
  }

  /**
   * `dont_redirect` set hands the response on; cleared, the same response is
   * redirected. The test's response is a 302; the lemma holds for every
   * redirect status.
   */
  lemma DontRedirect(u: Url, status: int, location: seq<byte>)
    requires status in RedirectStatuses
    ensures var rsp := Response(u, status, Some(location), None);
      && HttpStep(DefaultSettings, [], Plain(u).(meta := NoMeta.(dontRedirect := true)), rsp).PassThrough?
      && HttpStep(DefaultSettings, [], Plain(u).(meta := NoMeta.(dontRedirect := false)), rsp).Follow?
  {
  }

  /** The statuses the spider or the request says it handles, or all of them, are handed on. */
  lemma HandledStatuses(u: Url, location: seq<byte>)
    ensures var rsp := Response(u, 301, Some(location), None);
      && HttpStep(DefaultSettings, [404, 301, 302], Plain(u), rsp).PassThrough?
      && HttpStep(DefaultSettings, [], Plain(u).(meta := NoMeta.(handleHttpStatusList := [404, 301, 302])), rsp).PassThrough?
      && HttpStep(DefaultSettings, [], Plain(u).(meta := NoMeta.(handleHttpStatusAll := true)), rsp).PassThrough?
  {
  }

  /** A redirect status without `Location` is handed on, whatever the method. */
  lemma NoLocation(u: Url, status: int, verb: string)
    ensures HttpStep(DefaultSettings, [], Plain(u).(verb := verb), Response(u, status, None, None)).PassThrough?
  {
  }

  /**
   * 301, 307 and 308 redirect GET, POST and HEAD requests to the absolute
   * `Location` with their method.
   */
  lemma PermanentRedirect(u: Url, target: Url, status: int, verb: string)
    requires status in MethodKeepingStatuses
    requires Valid(target) && IsAscii(ToString(target))
    ensures var req := Plain(u).(verb := verb);
      var o := HttpStep(DefaultSettings, [], req, Moved(u, status, ToString(target)));
      o.Follow? && o.next.url == target && o.next.verb == verb
  {
    var req, rsp := Plain(u).(verb := verb), Moved(u, status, ToString(target));
    AbsoluteLocation(req, rsp, target);
    FirstHopFollows(DefaultSettings, req, rsp);
    HttpStepKeepsMethod(DefaultSettings, [], req, rsp);
  }

  /** A 302 of a HEAD request keeps HEAD. */
  lemma HeadFound(u: Url, target: Url)
    requires Valid(target) && IsAscii(ToString(target))
    ensures var o := HttpStep(DefaultSettings, [], Plain(u).(verb := "HEAD"), Moved(u, 302, ToString(target)));
      o.Follow? && o.next.url == target && o.next.verb == "HEAD"
  {
    var req, rsp := Plain(u).(verb := "HEAD"), Moved(u, 302, ToString(target));
    AbsoluteLocation(req, rsp, target);
    FirstHopFollows(DefaultSettings, req, rsp);
    HttpStepKeepsMethod(DefaultSettings, [], req, rsp);
  }

  /** The headers of the POST tests. */
  const PostHeaders: Table := map[ContentType := [Text("text/plain")], ContentLength := [Text("4")]]

  /** A 302 of a POST with a body becomes a GET to the target without body, Content-Type or Content-Length. */
  lemma PostFound(u: Url, target: Url, body: seq<byte>)
    requires Valid(target) && IsAscii(ToString(target))
    ensures var req := RequestValue(u, "POST", PostHeaders, body, 0, NoMeta);
      var o := HttpStep(DefaultSettings, [], req, Moved(u, 302, ToString(target)));
      && o.Follow? && o.next.url == target && o.next.verb == "GET" && o.next.body == []
      && ContentType !in o.next.headers && ContentLength !in o.next.headers
  {
    var req := RequestValue(u, "POST", PostHeaders, body, 0, NoMeta);
    var rsp := Moved(u, 302, ToString(target));
    AbsoluteLocation(req, rsp, target);
    FirstHopFollows(DefaultSettings, req, rsp);
    HttpStepUsesGet(DefaultSettings, [], req, rsp);
  }

  /**
   * `///host/path` in `Location` (in the test, `///i8n.example2.com/302`
   * against `http://www.example.com/302`) names `host` under the request's
   * scheme; a HEAD request stays HEAD.
   */
  lemma TripleSlashLocation(u: Url, host: string, path: string)
    requires ValidScheme(u.scheme)
    requires host != "" && ValidHost(host) && IsAscii(host)
    requires |path| > 0 && path[0] == '/' && IsAscii(path)
    ensures var o := HttpStep(DefaultSettings, [], Plain(u).(verb := "HEAD"), Moved(u, 302, "///" + host + path));
      o.Follow? && o.next.url == Url(u.scheme, host, path) && o.next.verb == "HEAD"
  {
    var req, rsp := Plain(u).(verb := "HEAD"), Moved(u, 302, "///" + host + path);
    AsciiConcat(host, path);
    assert "///" + host + path == "///" + (host + path);
    assert (host + path)[0] == host[0];
    SchemeRelativeLocation(req, rsp, "///", host + path);
    HostEnds(host, path);
    FirstHopFollows(DefaultSettings, req, rsp);
    HttpStepKeepsMethod(DefaultSettings, [], req, rsp);
  }

  lemma AsciiConcat(a: string, b: string)
    requires IsAscii(a) && IsAscii(b)
    ensures IsAscii(a + b)
  {
    forall i | 0 <= i < |a + b| ensures (a + b)[i] as int < 0x80 {
      if i < |a| { assert (a + b)[i] == a[i]; } else { assert (a + b)[i] == b[i - |a|]; }
    }
  }

  /** The headers of the cross-domain test: two credentials headers and one other. */
  const CrossDomainHeaderTable: Table := map[Cookie := [Text("a=b")], Authorization := [Text("a")], "a" := [Text("B")]]

  /** A 302 of a fresh GET request to an absolute target: where it goes and which headers it keeps. */
  lemma FoundFromGet(req: RequestValue, rsp: Response, target: Url)
    requires req.meta == NoMeta && req.verb == "GET"
    requires Valid(target) && IsAscii(ToString(target))
    requires rsp.status == 302 && rsp.location == Some(EncodeString(ToString(target)))
    ensures var o := HttpStep(DefaultSettings, [], req, rsp);
      && o.Follow? && o.next.url == target
      && o.next.headers == Drop(req.headers, DroppedHeaders(req, target, false))
  {
    FirstHopFollows(DefaultSettings, req, rsp);
    HttpStepHeaders(DefaultSettings, [], req, rsp);
    assert !KeepsMethod(req, rsp.status);
    AbsoluteLocation(req, rsp, target);
  }

  /** A 302 to another path of the same host keeps every header. */
  lemma SameHostKeepsHeaders(host: string, path: string)
    requires ValidHost(host) && IsAscii(host) && IsAscii(path) && |path| > 0 && path[0] == '/'
    ensures var req := Plain(Url("https", host, "")).(headers := CrossDomainHeaderTable);
      var o := HttpStep(DefaultSettings, [], req, Moved(req.url, 302, ToString(Url("https", host, path))));
      o.Follow? && o.next.headers == CrossDomainHeaderTable
  {
    var req := Plain(Url("https", host, "")).(headers := CrossDomainHeaderTable);
    var target := Url("https", host, path);
    UrlIsAscii(target);
    FoundFromGet(req, Moved(req.url, 302, ToString(target)), target);
    assert DroppedHeaders(req, target, false) == {ContentType, ContentLength};
    CrossDomainTableHasNoBodyHeaders();
  }

  lemma CrossDomainTableHasNoBodyHeaders()
    ensures Drop(CrossDomainHeaderTable, {ContentType, ContentLength}) == CrossDomainHeaderTable
  {
  }

  lemma CrossDomainTableWithoutCredentials()
    ensures Drop(CrossDomainHeaderTable, {Cookie, Authorization, ContentType, ContentLength}) == map["a" := [Text("B")]]
  {
  }

  /** A 302 to another host drops Cookie and Authorization and keeps the other header. */
  lemma OtherHostDropsCredentials(host: string, other: string, path: string)
    requires host != other && ValidHost(other) && IsAscii(other) && IsAscii(path) && |path| > 0 && path[0] == '/'
    ensures var req := Plain(Url("https", host, "")).(headers := CrossDomainHeaderTable);
      var o := HttpStep(DefaultSettings, [], req, Moved(req.url, 302, ToString(Url("https", other, path))));
      o.Follow? && o.next.headers == map["a" := [Text("B")]]
  {
    var req := Plain(Url("https", host, "")).(headers := CrossDomainHeaderTable);
    var target := Url("https", other, path);
    UrlIsAscii(target);
    FoundFromGet(req, Moved(req.url, 302, ToString(target)), target);
    assert DroppedHeaders(req, target, false) == {Cookie, Authorization, ContentType, ContentLength};
    CrossDomainTableWithoutCredentials();
  }

  lemma UrlIsAscii(u: Url)
    requires IsAscii(u.scheme) && IsAscii(u.host) && IsAscii(u.path)
    ensures IsAscii(ToString(u))
  {
    var s := ToString(u);
    forall i | 0 <= i < |s| ensures s[i] as int < 0x80 {
      var a := |u.scheme| + 3;
      if i < |u.scheme| { assert s[i] == u.scheme[i]; }
      else if i < a { assert s[i] == "://"[i - |u.scheme|]; }
      else if i < a + |u.host| { assert s[i] == u.host[i - a]; }
      else { assert s[i] == u.path[i - a - |u.host|]; }
    }
  }
}
