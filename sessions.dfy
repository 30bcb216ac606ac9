/**
 * The multi-step tests of the redirect middleware, played on the objects: a
 * middleware whose `max_redirect_times` is reassigned after it is made, the
 * same response answered twice, and the proxy middleware and the redirect
 * middleware taking turns on the same request objects.
 */
module Sessions {

  import opened Wrappers
  import opened Encoding
  import opened Urls
  import opened Headers
  import opened Messages
  import opened HttpProxy
  import opened Redirect
  import opened Middlewares
  import opened Chains
  import opened Scenarios

  predicate AbsolutePath(path: string)
  {
    IsAscii(path) && |path| > 0 && path[0] == '/' && !(|path| >= 2 && path[1] == '/')
  }

  /** On values: with a maximum of one hop, the first redirect is counted and the second refused. */
  lemma MaxRedirectTimesHops(u: Url, path: string, priorityAdjust: int)
    requires AbsolutePath(path)
    ensures var s, rsp := Settings(1, priorityAdjust), Moved(u, 302, path);
      var o := HttpStep(s, [], Plain(u), rsp);
      && o.Follow? && o.next.url == Url(u.scheme, u.host, path) && o.next.meta.redirectTimes == 1
      && HttpStep(s, [], o.next, rsp).Ignored?
  {
    var s, rsp := Settings(1, priorityAdjust), Moved(u, 302, path);
    AbsolutePathLocation(Plain(u), rsp, path);
    FirstHopFollows(s, Plain(u), rsp);
    HttpStepFollow(s, [], Plain(u), rsp);
    var n := HttpStep(s, [], Plain(u), rsp).next;
    HttpStepIgnored(s, [], n, rsp);
  }

  /**
   * With `max_redirect_times` lowered to 1 the first redirect is followed and
   * counted, and the same redirect answered for the redirected request is
   * refused.
   */
  method MaxRedirectTimesSession(u: Url, path: string) returns (first: Reply, second: Reply)
    requires AbsolutePath(path)
    ensures first.NewRequest? && first.request.url == Url(u.scheme, u.host, path)
    ensures first.NewRequest? && first.request.meta.redirectTimes == 1
    ensures second.IgnoreRequest?
  {
    var mw := new RedirectMiddleware(DefaultSettings);
    mw.maxRedirectTimes := 1;
    var req := new Request(Plain(u));
    var rsp := Moved(u, 302, path);
    MaxRedirectTimesHops(u, path, mw.priorityAdjust);
    first := mw.ProcessResponse(req, rsp, []);
    second := mw.ProcessResponse(first.request, rsp, []);
  }

  /** The request of the TTL test: no hops yet and one unit of TTL. */
  function WithTtlOne(u: Url): RequestValue
  {
    Plain(u).(meta := NoMeta.(redirectTtl := Some(1)))
  }

  /** On values: a request with one unit of TTL is redirected once, with no TTL left, and then refused. */
  lemma TtlHops(u: Url, path: string, priorityAdjust: int)
    requires AbsolutePath(path)
    ensures var s, rsp := Settings(100, priorityAdjust), Moved(u, 302, path);
      var o := HttpStep(s, [], WithTtlOne(u), rsp);
      && o.Follow? && o.next.url == Url(u.scheme, u.host, path) && o.next.meta.redirectTtl == Some(0)
      && HttpStep(s, [], o.next, rsp).Ignored?
  {
    var s, rsp, v := Settings(100, priorityAdjust), Moved(u, 302, path), WithTtlOne(u);
    AbsolutePathLocation(v, rsp, path);
    HttpStepAdmitted(s, [], v, rsp);
    HttpStepFollow(s, [], v, rsp);
    var n := HttpStep(s, [], v, rsp).next;
    HttpStepIgnored(s, [], n, rsp);
  }

  /**
   * A request whose `redirect_ttl` is 1 is redirected once, with no TTL left,
   * and then refused, even with `max_redirect_times` raised to 100.
   */
  method TtlSession(u: Url, path: string) returns (first: Reply, second: Reply)
    requires AbsolutePath(path)
    ensures first.NewRequest? && first.request.url == Url(u.scheme, u.host, path)
    ensures first.NewRequest? && first.request.meta.redirectTtl == Some(0)
    ensures second.IgnoreRequest?
  {
    var mw := new RedirectMiddleware(DefaultSettings);
    mw.maxRedirectTimes := 100;
    var req := new Request(WithTtlOne(u));
    var rsp := Moved(u, 302, path);
    TtlHops(u, path, mw.priorityAdjust);
    first := mw.ProcessResponse(req, rsp, []);
    second := mw.ProcessResponse(first.request, rsp, []);
  }

  /** On values: two redirects in a row record both URLs they came through and one reason per hop. */
  lemma HistoryHops(s: Settings, u: Url, path1: string, path2: string)
    requires AbsolutePath(path1) && AbsolutePath(path2) && 2 <= s.maxRedirectTimes
    ensures var o := HttpStep(s, [], Plain(u), Moved(u, 302, path1));
      && o.Follow? && o.next.url == Url(u.scheme, u.host, path1)
      && o.next.meta.redirectUrls == [u] && o.next.meta.redirectReasons == [Status(302)]
      && var o2 := HttpStep(s, [], o.next, Moved(u, 302, path2));
      && o2.Follow? && o2.next.url == Url(u.scheme, u.host, path2)
      && o2.next.meta.redirectUrls == [u, Url(u.scheme, u.host, path1)]
      && o2.next.meta.redirectReasons == [Status(302), Status(302)]
  {
    var rsp1, rsp2 := Moved(u, 302, path1), Moved(u, 302, path2);
    AbsolutePathLocation(Plain(u), rsp1, path1);
    FirstHopFollows(s, Plain(u), rsp1);
    HttpStepFollow(s, [], Plain(u), rsp1);
    var n := HttpStep(s, [], Plain(u), rsp1).next;
    AbsolutePathLocation(n, rsp2, path2);
    HttpStepAdmitted(s, [], n, rsp2);
    HttpStepFollow(s, [], n, rsp2);
  }

  /** Two redirects in a row: each request records every URL it came through and one reason per hop. */
  method HistorySession(u: Url, path1: string, path2: string) returns (second: Reply, third: Reply)
    requires AbsolutePath(path1) && AbsolutePath(path2)
    ensures second.NewRequest? && third.NewRequest?
    ensures second.request.url == Url(u.scheme, u.host, path1)
    ensures second.request.meta.redirectUrls == [u] && second.request.meta.redirectReasons == [Status(302)]
    ensures third.request.url == Url(u.scheme, u.host, path2)
    ensures third.request.meta.redirectUrls == [u, Url(u.scheme, u.host, path1)]
    ensures third.request.meta.redirectReasons == [Status(302), Status(302)]
  {
    var mw := new RedirectMiddleware(DefaultSettings);
    var req1 := new Request(Plain(u));
    HistoryHops(mw.Config(), u, path1, path2);
    second := mw.ProcessResponse(req1, Moved(u, 302, path1), []);
    third := mw.ProcessResponse(second.request, Moved(u, 302, path2), []);
  }

  /** The request of the proxy tests: a GET of `u` whose meta names at most a proxy. */
  predicate ProxyTestRequest(v: RequestValue)
  {
    v.meta == NoMeta.(proxy := v.meta.proxy) && v.verb == "GET"
  }

  /**
   * `location` leads from `base` to `target`: it is `target` written out in
   * full, or an absolute path that keeps the scheme and host of `base`.
   */
  predicate Locates(base: Url, location: string, target: Url)
  {
    || (Valid(target) && IsAscii(ToString(target)) && location == ToString(target))
    || (AbsolutePath(location) && target == Url(base.scheme, base.host, location))
  }

  /** The two responses of the proxy tests: a 302 with Location `l1` from `u` to `t1`, then one with `l2` from `t1`. */
  function TwoRedirects(u: Url, l1: string, t1: Url, l2: string): seq<Response>
  {
    [Moved(u, 302, l1), Moved(t1, 302, l2)]
  }

  /** Meta under which a 302 is followed: no opt-out, TTL left, and a hop below the maximum. */
  predicate Admits(s: Settings, m: Meta)
  {
    !m.dontRedirect && m.handleHttpStatusList == [] && !m.handleHttpStatusAll
    && Ttl(s, m) != 0 && m.redirectTimes + 1 <= s.maxRedirectTimes
  }

  /** The relative proxy tests' Locations: `/a` from the request URL, then `/a` again from there. */
  lemma RelativeProxyLocations(u: Url)
    ensures var t := Url(u.scheme, u.host, "/a");
      Locates(u, "/a", t) && Locates(t, "/a", t)
  {
  }

  /** A 302 to an absolute URL or path under such meta is followed there, using up one hop and one unit of TTL. */
  lemma FoundAdmitted(s: Settings, p: RequestValue, rsp: Response, location: string, target: Url)
    requires Admits(s, p.meta)
    requires Locates(p.url, location, target)
    requires rsp.status == 302 && rsp.location == Some(EncodeString(location))
    ensures var o := HttpStep(s, [], p, rsp);
      && o.Follow? && o.next.url == target
      && o.next.meta.redirectTimes == p.meta.redirectTimes + 1 && o.next.meta.redirectTtl == Some(Ttl(s, p.meta) - 1)
      && o.next.meta.dontRedirect == p.meta.dontRedirect
      && o.next.meta.handleHttpStatusList == p.meta.handleHttpStatusList
      && o.next.meta.handleHttpStatusAll == p.meta.handleHttpStatusAll
  {
    if Valid(target) && IsAscii(ToString(target)) && location == ToString(target) {
      AbsoluteLocation(p, rsp, target);
    } else {
      AbsolutePathLocation(p, rsp, location);
    }
    HttpStepAdmitted(s, [], p, rsp);
    HttpStepFollow(s, [], p, rsp);
    HttpStepKeepsOptOut(s, [], p, rsp);
  }

  /** The proxy tests' first hop: the request through the proxy step and then redirected to `t1`. */
  lemma ProxyTestFirstHop(proxies: ProxyTable, v: RequestValue, l1: string, t1: Url, l2: string)
    requires ProxyTestRequest(v)
    requires Locates(v.url, l1, t1)
    ensures var o := HttpStep(DefaultSettings, [], Select(proxies, v), TwoRedirects(v.url, l1, t1, l2)[0]);
      && o.Follow? && o.next.url == t1
      && Admits(DefaultSettings, Select(proxies, o.next).meta)
  {
    var p1 := Select(proxies, v);
    assert Admits(DefaultSettings, p1.meta);
    FoundAdmitted(DefaultSettings, p1, TwoRedirects(v.url, l1, t1, l2)[0], l1, t1);
  }

  /**
   * Both hops of the proxy tests are followed to the two targets, whether
   * each Location is absolute or a path, and whether the proxy comes from the
   * meta or from the environment.
   */
  lemma ProxyTestHopsFollowed(proxies: ProxyTable, v: RequestValue, l1: string, t1: Url, l2: string, t2: Url)
    requires ProxyTestRequest(v)
    requires Locates(v.url, l1, t1) && Locates(t1, l2, t2)
    ensures var rs := TwoRedirects(v.url, l1, t1, l2);
      && Chain(DefaultSettings, proxies, ByStatus([]), v, rs[..1]).Some?
      && Chain(DefaultSettings, proxies, ByStatus([]), v, rs[..1]).value.url == t1
      && Chain(DefaultSettings, proxies, ByStatus([]), v, rs).Some?
      && Chain(DefaultSettings, proxies, ByStatus([]), v, rs).value.url == t2
  {
    var rs, variant := TwoRedirects(v.url, l1, t1, l2), ByStatus([]);
    var p1 := Select(proxies, v);
    ProxyTestFirstHop(proxies, v, l1, t1, l2);
    var p2 := Select(proxies, Step(DefaultSettings, variant, p1, rs[0]).next);
    FoundAdmitted(DefaultSettings, p2, rs[1], l2, t2);
    ContinueTwo(DefaultSettings, proxies, variant, p1, rs[0], rs[1]);
    assert rs[..1] == [rs[0]] && rs == [rs[0], rs[1]];
  }

  /**
   * The meta proxy tests: a proxy with credentials named in the meta is
   * installed with its header by the first proxy step, and the proxy entry,
   * `_auth_proxy` and header are all still there after each hop and proxy
   * step, whatever the schemes of `t1` and `t2`.
   */
  lemma MetaProxyTest(proxies: ProxyTable, v: RequestValue, l1: string, t1: Url, l2: string, t2: Url,
                      origin: string, credentials: string)
    requires ProxyTestRequest(v) && v.meta.proxy == Via(ProxyUrl(origin, Some(credentials)))
    requires Locates(v.url, l1, t1) && Locates(t1, l2, t2)
    ensures CarriesMetaProxy(Select(proxies, v), origin, credentials)
    ensures var rs := TwoRedirects(v.url, l1, t1, l2);
      && Chain(DefaultSettings, proxies, ByStatus([]), v, rs[..1]).Some?
      && CarriesMetaProxy(Chain(DefaultSettings, proxies, ByStatus([]), v, rs[..1]).value, origin, credentials)
      && Chain(DefaultSettings, proxies, ByStatus([]), v, rs).Some?
      && CarriesMetaProxy(Chain(DefaultSettings, proxies, ByStatus([]), v, rs).value, origin, credentials)
  {
    var rs := TwoRedirects(v.url, l1, t1, l2);
    ProxyTestHopsFollowed(proxies, v, l1, t1, l2, t2);
    SelectFromMeta(proxies, v);
    ChainKeepsMetaProxy(DefaultSettings, proxies, ByStatus([]), v, rs[..1], origin, credentials);
    ChainKeepsMetaProxy(DefaultSettings, proxies, ByStatus([]), v, rs, origin, credentials);
  }

  /**
   * The environment proxy tests: with no proxy in the meta, after the first
   * proxy step and after each hop and proxy step the request uses the
   * environment's proxy for its current scheme, or none when the
   * environment has none for it.
   */
  lemma EnvironmentProxyTest(proxies: ProxyTable, v: RequestValue, l1: string, t1: Url, l2: string, t2: Url)
    requires ProxyTestRequest(v) && v.meta.proxy == Unset && ProxyAuthorization !in v.headers
    requires Locates(v.url, l1, t1) && Locates(t1, l2, t2)
    ensures UsesEnvironmentProxy(proxies, Select(proxies, v))
    ensures var rs := TwoRedirects(v.url, l1, t1, l2);
      && Chain(DefaultSettings, proxies, ByStatus([]), v, rs[..1]).Some?
      && UsesEnvironmentProxy(proxies, Chain(DefaultSettings, proxies, ByStatus([]), v, rs[..1]).value)
      && Chain(DefaultSettings, proxies, ByStatus([]), v, rs).Some?
      && UsesEnvironmentProxy(proxies, Chain(DefaultSettings, proxies, ByStatus([]), v, rs).value)
  {
    var rs := TwoRedirects(v.url, l1, t1, l2);
    ProxyTestHopsFollowed(proxies, v, l1, t1, l2, t2);
    SelectUnproxied(proxies, v);
    ChainUsesEnvironmentProxy(DefaultSettings, proxies, ByStatus([]), v, rs[..1]);
    ChainUsesEnvironmentProxy(DefaultSettings, proxies, ByStatus([]), v, rs);
  }
}
