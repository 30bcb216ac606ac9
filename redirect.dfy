/**
 * The redirect step shared by both redirect middlewares: building the
 * follow-up request for a target URL (with or without switching to GET), the
 * hop bookkeeping that either admits the hop or refuses it, and the HTTP
 * variant that reads the target from a 3xx response's `Location` header
 * (section 15.4 of RFC 9110).
 */
module Redirect {

  import opened Wrappers
  import opened Encoding
  import opened Urls
  import opened Headers
  import opened Messages

  /** The statuses the HTTP variant follows. */
  const RedirectStatuses: set<int> := {301, 302, 303, 307, 308}

  /** The statuses after which the request is repeated with its own method and body. */
  const MethodKeepingStatuses: set<int> := {301, 307, 308}

  /** `REDIRECT_MAX_TIMES` and `REDIRECT_PRIORITY_ADJUST`. */
  datatype Settings = Settings(maxRedirectTimes: int, priorityAdjust: int)

  const DefaultSettings := Settings(20, 2)

  /** What a middleware does with a response: hand it on, replace it by a new request, or drop the request. */
  datatype Outcome = PassThrough | Follow(next: RequestValue) | Ignored

  /** The meta entries and the spider setting under which a response is handed on untouched. */
  predicate OptedOut(spiderHandled: seq<int>, m: Meta, status: int)
  {
    m.dontRedirect || status in spiderHandled || status in m.handleHttpStatusList || m.handleHttpStatusAll
  }

  /** The hops still allowed by `redirect_ttl`; a request without one gets the maximum. */
  function Ttl(s: Settings, m: Meta): int
  {
    m.redirectTtl.GetOr(s.maxRedirectTimes)
  }

  /** The proxy entries belong to the old URL's scheme and the new URL has another. */
  predicate SchemeProxyLost(prev: RequestValue, url: Url)
  {
    prev.meta.schemeProxy && prev.url.scheme != url.scheme
  }

  /**
   * The request repeated against `url`: same method, body, priority and meta.
   * A proxy that came from the environment for the old scheme is forgotten
   * when the scheme changes, and the credentials of the old host are not sent
   * to a new one. `RetargetHeaders` and `RetargetKeepsProxy` restate this
   * against the independent `DroppedHeaders` and the proxy entries.
   */
  function Retarget(prev: RequestValue, url: Url): (r: RequestValue)
    ensures r.url == url && r.verb == prev.verb && r.body == prev.body && r.priority == prev.priority
    ensures forall k :: k in r.headers <==>
      && k in prev.headers
      && !(prev.url.host != url.host && (k == Cookie || k == Authorization))
      && !(SchemeProxyLost(prev, url) && k == ProxyAuthorization)
    ensures forall k :: k in r.headers ==> r.headers[k] == prev.headers[k]
    ensures r.meta == prev.meta.(proxy := r.meta.proxy, authProxy := r.meta.authProxy, schemeProxy := r.meta.schemeProxy)
    ensures SchemeProxyLost(prev, url) ==> r.meta.proxy == Unset && r.meta.authProxy == None && !r.meta.schemeProxy
    ensures !SchemeProxyLost(prev, url) ==> r.meta == prev.meta
  {
    var lost := SchemeProxyLost(prev, url);
    var meta := if lost then prev.meta.(proxy := Unset, authProxy := None, schemeProxy := false) else prev.meta;
    var h0 := if lost then Drop(prev.headers, {ProxyAuthorization}) else prev.headers;
    var h1 := if prev.url.host != url.host then Drop(h0, {Cookie, Authorization}) else h0;
    prev.(url := url, headers := h1, meta := meta)
  }

  /** The request re-issued against `url` as a GET without a body and without the headers that described the body. */
  function RetargetUsingGet(prev: RequestValue, url: Url): (r: RequestValue)
    ensures r.url == url && r.verb == "GET" && r.body == [] && r.priority == prev.priority
    ensures ContentType !in r.headers && ContentLength !in r.headers
    ensures forall k :: k != ContentType && k != ContentLength ==> (k in r.headers <==> k in Retarget(prev, url).headers)
    ensures forall k :: k in r.headers ==> k in prev.headers && r.headers[k] == prev.headers[k]
    ensures r.meta == Retarget(prev, url).meta
  {
    var r := Retarget(prev, url);
    r.(verb := "GET", body := [], headers := Drop(r.headers, {ContentType, ContentLength}))
  }

  /**
   * The hop bookkeeping: a hop is admitted while the request has TTL left and
   * the hop count stays within the maximum; the follow-up request then
   * records one more hop, one less unit of TTL, the URL it came from, the
   * reason, and a raised priority. `Chains.ContinueCounts` builds on this to
   * bound the hop count of whole chains and the length of their histories.
   */
  function Hop(s: Settings, prev: RequestValue, next: RequestValue, reason: Reason): (o: Outcome)
    ensures !o.PassThrough?
    ensures o.Ignored? <==> Ttl(s, prev.meta) == 0 || prev.meta.redirectTimes + 1 > s.maxRedirectTimes
    ensures o.Follow? ==>
      && o.next.url == next.url && o.next.verb == next.verb && o.next.headers == next.headers && o.next.body == next.body
      && o.next.priority == prev.priority + s.priorityAdjust
      && o.next.meta.redirectTimes == prev.meta.redirectTimes + 1 <= s.maxRedirectTimes
      && o.next.meta.redirectTtl == Some(Ttl(s, prev.meta) - 1)
      && o.next.meta.redirectUrls == prev.meta.redirectUrls + [prev.url]
      && o.next.meta.redirectReasons == prev.meta.redirectReasons + [reason]
      && o.next.meta == next.meta.(redirectTimes := o.next.meta.redirectTimes, redirectTtl := o.next.meta.redirectTtl,
                                   redirectUrls := o.next.meta.redirectUrls, redirectReasons := o.next.meta.redirectReasons)
  {
    var ttl := Ttl(s, prev.meta);
    var times := prev.meta.redirectTimes + 1;
    if ttl != 0 && times <= s.maxRedirectTimes then
      Follow(next.(priority := prev.priority + s.priorityAdjust,
                   meta := next.meta.(redirectTimes := times, redirectTtl := Some(ttl - 1),
                                      redirectUrls := prev.meta.redirectUrls + [prev.url],
                                      redirectReasons := prev.meta.redirectReasons + [reason])))
    else Ignored
  }

  /** The header bytes start with `//`. */
  predicate StartsWithTwoSlashes(b: seq<byte>)
  {
    |b| >= 2 && b[0] == 0x2F && b[1] == 0x2F
  }

  /**
   * The reference the `Location` bytes stand for: the bytes made URL-safe,
   * and a value that starts with `//` read as an authority under the
   * request's own scheme however many slashes lead it.
   */
  function LocationReference(scheme: string, b: seq<byte>): string
  {
    var safe := SafeLocation(b);
    if StartsWithTwoSlashes(b) then scheme + "://" + StripSlashes(safe) else safe
  }

  /** The method and body are kept for 301, 307 and 308, and for a HEAD request whatever the status. */
  predicate KeepsMethod(req: RequestValue, status: int)
  {
    status in MethodKeepingStatuses || req.verb == "HEAD"
  }

  /** The URL the HTTP variant sends the follow-up request to. */
  function HttpTarget(req: RequestValue, rsp: Response): Url
    requires rsp.location.Some?
  {
    Resolve(req.url, LocationReference(req.url.scheme, rsp.location.value))
  }

  /** `RedirectMiddleware.process_response`, on request values. */
  function HttpStep(s: Settings, spiderHandled: seq<int>, req: RequestValue, rsp: Response): Outcome
  {
    if OptedOut(spiderHandled, req.meta, rsp.status) then PassThrough
    else if rsp.location.None? || rsp.status !in RedirectStatuses then PassThrough
    else
      var target := HttpTarget(req, rsp);
      var next := if KeepsMethod(req, rsp.status) then Retarget(req, target) else RetargetUsingGet(req, target);
      Hop(s, req, next, Status(rsp.status))
  }

  /** The headers a hop removes, stated independently of how the follow-up request is built. */
  function DroppedHeaders(prev: RequestValue, url: Url, keepsMethod: bool): set<string>
  {
    (if prev.url.host != url.host then {Cookie, Authorization} else {})
    + (if SchemeProxyLost(prev, url) then {ProxyAuthorization} else {})
    + (if keepsMethod then {} else {ContentType, ContentLength})
  }

  /**
   * The response is handed on exactly when the request or the spider opted
   * out, when there is no `Location`, or when the status is not a redirect.
   */
  lemma HttpStepPassThrough(s: Settings, spiderHandled: seq<int>, req: RequestValue, rsp: Response)
    ensures HttpStep(s, spiderHandled, req, rsp).PassThrough? <==>
      OptedOut(spiderHandled, req.meta, rsp.status) || rsp.location.None? || rsp.status !in RedirectStatuses
  {
  }

  /** A redirect that is not opted out of is refused exactly when the TTL is spent or the maximum is reached. */
  lemma HttpStepIgnored(s: Settings, spiderHandled: seq<int>, req: RequestValue, rsp: Response)
    requires !OptedOut(spiderHandled, req.meta, rsp.status) && rsp.location.Some? && rsp.status in RedirectStatuses
    ensures HttpStep(s, spiderHandled, req, rsp).Ignored? <==>
      Ttl(s, req.meta) == 0 || req.meta.redirectTimes + 1 > s.maxRedirectTimes
  {
  }

  /**
   * A followed redirect goes to the resolved `Location`, records the hop in
   * the request's history, and raises the priority by the adjustment.
   */
  lemma HttpStepFollow(s: Settings, spiderHandled: seq<int>, req: RequestValue, rsp: Response)
    requires HttpStep(s, spiderHandled, req, rsp).Follow?
    ensures var n := HttpStep(s, spiderHandled, req, rsp).next;
      && rsp.location.Some? && rsp.status in RedirectStatuses
      && n.url == HttpTarget(req, rsp)
      && n.priority == req.priority + s.priorityAdjust
      && n.meta.redirectTimes == req.meta.redirectTimes + 1 <= s.maxRedirectTimes
      && n.meta.redirectTtl == Some(Ttl(s, req.meta) - 1)
      && n.meta.redirectUrls == req.meta.redirectUrls + [req.url]
      && n.meta.redirectReasons == req.meta.redirectReasons + [Status(rsp.status)]
  {
  }

  /** The opt-out entries of the meta travel with the follow-up request. */
  lemma HttpStepKeepsOptOut(s: Settings, spiderHandled: seq<int>, req: RequestValue, rsp: Response)
    requires HttpStep(s, spiderHandled, req, rsp).Follow?
    ensures var n := HttpStep(s, spiderHandled, req, rsp).next;
      && n.meta.dontRedirect == req.meta.dontRedirect
      && n.meta.handleHttpStatusList == req.meta.handleHttpStatusList
      && n.meta.handleHttpStatusAll == req.meta.handleHttpStatusAll
  {
  }

  /** 301, 307 and 308, and any redirect of a HEAD request, repeat the method and the body. */
  lemma HttpStepKeepsMethod(s: Settings, spiderHandled: seq<int>, req: RequestValue, rsp: Response)
    requires HttpStep(s, spiderHandled, req, rsp).Follow? && KeepsMethod(req, rsp.status)
    ensures var n := HttpStep(s, spiderHandled, req, rsp).next;
      n.verb == req.verb && n.body == req.body
  {
  }

  /** A 302 of any request but HEAD becomes a GET without a body and without Content-Type and Content-Length. */
  lemma HttpStepUsesGet(s: Settings, spiderHandled: seq<int>, req: RequestValue, rsp: Response)
    requires HttpStep(s, spiderHandled, req, rsp).Follow? && rsp.status == 302 && req.verb != "HEAD"
    ensures var n := HttpStep(s, spiderHandled, req, rsp).next;
      n.verb == "GET" && n.body == [] && ContentType !in n.headers && ContentLength !in n.headers
  {
  }

  /**
   * The follow-up request carries every header of the original with its
   * values, except the ones the hop removes: Cookie and Authorization on a
   * change of host, Proxy-Authorization with an environment proxy on a change
   * of scheme, Content-Type and Content-Length when switching to GET.
   */
  lemma HttpStepHeaders(s: Settings, spiderHandled: seq<int>, req: RequestValue, rsp: Response)
    requires HttpStep(s, spiderHandled, req, rsp).Follow?
    ensures var n := HttpStep(s, spiderHandled, req, rsp).next;
      && rsp.location.Some?
      && n.headers == Drop(req.headers, DroppedHeaders(req, HttpTarget(req, rsp), KeepsMethod(req, rsp.status)))
  {
    RetargetHeaders(req, HttpTarget(req, rsp), KeepsMethod(req, rsp.status));
  }

  /** Both ways of building the follow-up request remove exactly the dropped headers. */
  lemma RetargetHeaders(prev: RequestValue, url: Url, keepsMethod: bool)
    ensures var next := if keepsMethod then Retarget(prev, url) else RetargetUsingGet(prev, url);
      next.headers == Drop(prev.headers, DroppedHeaders(prev, url, keepsMethod))
  {
    var next := if keepsMethod then Retarget(prev, url) else RetargetUsingGet(prev, url);
    var d := Drop(prev.headers, DroppedHeaders(prev, url, keepsMethod));
    assert forall k :: k in next.headers <==> k in d;
  }

  /**
   * The proxy entries of a proxy named in the meta, and its
   * Proxy-Authorization header, travel with every hop, whatever the scheme of
   * the target; so do those of an environment proxy when the scheme stays.
   */
  lemma HttpStepKeepsProxy(s: Settings, spiderHandled: seq<int>, req: RequestValue, rsp: Response)
    requires HttpStep(s, spiderHandled, req, rsp).Follow?
    requires rsp.location.Some? && !SchemeProxyLost(req, HttpTarget(req, rsp))
    ensures var n := HttpStep(s, spiderHandled, req, rsp).next;
      && n.meta.proxy == req.meta.proxy && n.meta.authProxy == req.meta.authProxy && n.meta.schemeProxy == req.meta.schemeProxy
      && (ProxyAuthorization in n.headers <==> ProxyAuthorization in req.headers)
      && (ProxyAuthorization in n.headers ==> n.headers[ProxyAuthorization] == req.headers[ProxyAuthorization])
  {
    RetargetKeepsProxy(req, HttpTarget(req, rsp), KeepsMethod(req, rsp.status));
  }

  /** Without a scheme proxy lost, both ways of building the follow-up request keep the proxy entries and header. */
  lemma RetargetKeepsProxy(prev: RequestValue, url: Url, keepsMethod: bool)
    requires !SchemeProxyLost(prev, url)
    ensures var next := if keepsMethod then Retarget(prev, url) else RetargetUsingGet(prev, url);
      && next.meta.proxy == prev.meta.proxy && next.meta.authProxy == prev.meta.authProxy
      && next.meta.schemeProxy == prev.meta.schemeProxy
      && (ProxyAuthorization in next.headers <==> ProxyAuthorization in prev.headers)
      && (ProxyAuthorization in next.headers ==> next.headers[ProxyAuthorization] == prev.headers[ProxyAuthorization])
  {
  }

  /** An environment proxy and its credentials are dropped when the target has another scheme. */
  lemma HttpStepDropsSchemeProxy(s: Settings, spiderHandled: seq<int>, req: RequestValue, rsp: Response)
    requires HttpStep(s, spiderHandled, req, rsp).Follow?
    requires rsp.location.Some? && SchemeProxyLost(req, HttpTarget(req, rsp))
    ensures var n := HttpStep(s, spiderHandled, req, rsp).next;
      && n.meta.proxy == Unset && n.meta.authProxy == None && !n.meta.schemeProxy
      && ProxyAuthorization !in n.headers
  {
  }

  /** An absolute URL in `Location` is the target as it stands. */
  lemma AbsoluteLocation(req: RequestValue, rsp: Response, u: Url)
    requires Valid(u) && IsAscii(ToString(u))
    requires rsp.location == Some(EncodeString(ToString(u)))
    ensures HttpTarget(req, rsp) == u
  {
    var s := ToString(u);
    AsciiBytesUnchanged(s);
    AsciiEncodeString(s);
    assert s[0] == u.scheme[0];
    ParseToString(u);
  }

  /** An absolute path in `Location` keeps the scheme and host of the request. */
  lemma AbsolutePathLocation(req: RequestValue, rsp: Response, path: string)
    requires IsAscii(path) && |path| > 0 && path[0] == '/' && !(|path| >= 2 && path[1] == '/')
    requires rsp.location == Some(EncodeString(path))
    ensures HttpTarget(req, rsp) == Url(req.url.scheme, req.url.host, path)
  {
    AsciiBytesUnchanged(path);
    AsciiEncodeString(path);
  }

  /**
   * A `Location` that starts with two or more slashes names a host under the
   * request's scheme, however many slashes there are.
   */
  lemma SchemeRelativeLocation(req: RequestValue, rsp: Response, slashes: string, rest: string)
    requires |slashes| >= 2 && forall i :: 0 <= i < |slashes| ==> slashes[i] == '/'
    requires IsAscii(rest) && (rest == "" || rest[0] != '/')
    requires ValidScheme(req.url.scheme)
    requires rsp.location == Some(EncodeString(slashes + rest))
    ensures HttpTarget(req, rsp) == SplitAuthority(req.url.scheme, rest)
  {
    SchemeRelativeReference(req.url.scheme, slashes, rest);
    ParseWithScheme(req.url.scheme, rest);
  }

  /** The reference a `Location` of two or more slashes stands for: the request's scheme, `://`, and the rest. */
  lemma SchemeRelativeReference(scheme: string, slashes: string, rest: string)
    requires |slashes| >= 2 && forall i :: 0 <= i < |slashes| ==> slashes[i] == '/'
    requires IsAscii(rest) && (rest == "" || rest[0] != '/')
    ensures LocationReference(scheme, EncodeString(slashes + rest)) == scheme + "://" + rest
  {
    var s := slashes + rest;
    assert IsAscii(s) by {
      forall i | 0 <= i < |s| ensures s[i] as int < 0x80 {
        if i >= |slashes| { assert s[i] == rest[i - |slashes|]; }
      }
    }
    AsciiBytesUnchanged(s);
    AsciiEncodeString(s);
    assert StartsWithTwoSlashes(EncodeString(s));
    StripLeadingSlashes(slashes, rest);
  }

  lemma StripLeadingSlashes(slashes: string, rest: string)
    requires forall i :: 0 <= i < |slashes| ==> slashes[i] == '/'
    requires rest == "" || rest[0] != '/'
    ensures StripSlashes(slashes + rest) == rest
  {
    var s := slashes + rest;
    assert s[|slashes|..] == rest;
  }

  /** A `Location` that becomes an absolute path once made URL-safe keeps the scheme and host of the request. */
  lemma SafePathLocation(req: RequestValue, rsp: Response, path: string)
    requires rsp.location.Some? && !StartsWithTwoSlashes(rsp.location.value)
    requires SafeLocation(rsp.location.value) == path
    requires |path| > 0 && path[0] == '/' && !(|path| >= 2 && path[1] == '/')
    ensures HttpTarget(req, rsp) == Url(req.url.scheme, req.url.host, path)
  {
  }

  /** A redirect that is not opted out of, with TTL left and below the maximum, is followed to the resolved target. */
  lemma HttpStepAdmitted(s: Settings, spiderHandled: seq<int>, req: RequestValue, rsp: Response)
    requires !OptedOut(spiderHandled, req.meta, rsp.status)
    requires rsp.location.Some? && rsp.status in RedirectStatuses
    requires Ttl(s, req.meta) != 0 && req.meta.redirectTimes + 1 <= s.maxRedirectTimes
    ensures var o := HttpStep(s, spiderHandled, req, rsp);
      o.Follow? && o.next.url == HttpTarget(req, rsp)
  {
    HttpStepPassThrough(s, spiderHandled, req, rsp);
    HttpStepIgnored(s, spiderHandled, req, rsp);
    HttpStepFollow(s, spiderHandled, req, rsp);
  }

  /** A fresh request is redirected by any redirect status with a `Location`, to the resolved target. */
  lemma FirstHopFollows(s: Settings, req: RequestValue, rsp: Response)
    requires req.meta == NoMeta && 1 <= s.maxRedirectTimes
    requires rsp.location.Some? && rsp.status in RedirectStatuses
    ensures var o := HttpStep(s, [], req, rsp);
      o.Follow? && o.next.url == HttpTarget(req, rsp)
  {
    HttpStepAdmitted(s, [], req, rsp);
  }
}
