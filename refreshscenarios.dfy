/**
 * The tests of the meta-refresh middleware, restated on the model: the
 * shared tests (priority, `dont_redirect`, POST, hop limits, history, header
 * dropping) played with an HTML page in place of a 3xx response, and the
 * interval and ignored-tags tests of its own.
 */
module RefreshScenarios {

  import opened Wrappers
  import opened Encoding
  import opened Urls
  import opened Headers
  import opened Messages
  import opened Redirect
  import opened Refresh
  import opened HttpProxy
  import opened Middlewares
  import opened Chains
  import opened Scenarios
  import opened Sessions

  /** An HTML page at `u` whose document holds one refresh directive, inside the elements `tags`. */
  function RefreshPage(u: Url, interval: int, target: string, tags: set<string>): Response
  {
    Response(u, 200, None, Some([RefreshDirective(interval, target, tags)]))
  }

  /** The page the shared tests answer with: a five-second refresh to `target`, in no element. */
  function Refreshing(u: Url, target: string): Response
  {
    RefreshPage(u, 5, target, {})
  }

  /** An absolute ASCII URL in a directive is the target as it stands. */
  lemma AbsoluteRefreshTarget(rsp: Response, d: RefreshDirective, t: Url)
    requires Valid(t) && IsAscii(ToString(t)) && d.url == ToString(t)
    ensures RefreshTarget(rsp, d) == t
  {
    PercentEncodeAscii(ToString(t));
    ParseToString(t);
  }

  /** An absolute path in a directive keeps the scheme and host of the page. */
  lemma AbsolutePathRefreshTarget(rsp: Response, d: RefreshDirective, path: string)
    requires AbsolutePath(path) && d.url == path
    ensures RefreshTarget(rsp, d) == Url(rsp.url.scheme, rsp.url.host, path)
  {
    PercentEncodeAscii(path);
  }

  /**
   * A page whose one directive is visible and short enough is followed, for
   * a request that has not opted out, is not HEAD, and has a hop left.
   */
  lemma PageFollowed(s: Settings, rs: RefreshSettings, req: RequestValue, rsp: Response, d: RefreshDirective)
    requires rsp.html == Some([d]) && Visible(d, rs.ignoreTags) && d.interval < rs.maxDelay
    requires !req.meta.dontRedirect && req.verb != "HEAD"
    requires Ttl(s, req.meta) != 0 && req.meta.redirectTimes + 1 <= s.maxRedirectTimes
    ensures var o := RefreshStep(s, rs, req, rsp);
      && o.Follow? && o.next.url == RefreshTarget(rsp, d)
      && o.next.meta.redirectTimes == req.meta.redirectTimes + 1
      && o.next.meta.redirectTtl == Some(Ttl(s, req.meta) - 1)
      && o.next.meta.redirectUrls == req.meta.redirectUrls + [req.url]
      && o.next.meta.redirectReasons == req.meta.redirectReasons + [MetaRefresh]
      && o.next.meta.dontRedirect == req.meta.dontRedirect
  {
    assert FirstDirective(rsp.html.value, rs.ignoreTags) == Some(d);
    RefreshStepFollow(s, rs, req, rsp);
  }

  /** A followed redirect of either middleware raises the priority above the original's. */
  lemma PriorityRaised(u: Url, t: Url)
    requires Valid(t) && IsAscii(ToString(t))
    ensures var o := HttpStep(DefaultSettings, [], Plain(u), Moved(u, 302, ToString(t)));
      o.Follow? && o.next.priority > Plain(u).priority
    ensures var o := RefreshStep(DefaultSettings, DefaultRefreshSettings, Plain(u), Refreshing(u, ToString(t)));
      o.Follow? && o.next.priority > Plain(u).priority
  {
    var rsp := Moved(u, 302, ToString(t));
    FirstHopFollows(DefaultSettings, Plain(u), rsp);
    HttpStepFollow(DefaultSettings, [], Plain(u), rsp);
    var page := Refreshing(u, ToString(t));
    PageFollowed(DefaultSettings, DefaultRefreshSettings, Plain(u), page, page.html.value[0]);
    RefreshStepFollow(DefaultSettings, DefaultRefreshSettings, Plain(u), page);
  }

  /** `dont_redirect` set hands the page on; cleared, the same page is followed. */
  lemma RefreshDontRedirect(u: Url, target: string)
    ensures var page := Refreshing(u, target);
      && RefreshStep(DefaultSettings, DefaultRefreshSettings, Plain(u).(meta := NoMeta.(dontRedirect := true)), page).PassThrough?
      && RefreshStep(DefaultSettings, DefaultRefreshSettings, Plain(u).(meta := NoMeta.(dontRedirect := false)), page).Follow?
  {
    var page := Refreshing(u, target);
    PageFollowed(DefaultSettings, DefaultRefreshSettings, Plain(u), page, page.html.value[0]);
  }

  /** The refresh of the basic test goes to the absolute URL of the directive. */
  lemma MetaRefreshFollowed(u: Url, t: Url)
    requires Valid(t) && IsAscii(ToString(t))
    ensures var o := RefreshStep(DefaultSettings, DefaultRefreshSettings, Plain(u), Refreshing(u, ToString(t)));
      o.Follow? && o.next.url == t
  {
    var page := Refreshing(u, ToString(t));
    PageFollowed(DefaultSettings, DefaultRefreshSettings, Plain(u), page, page.html.value[0]);
    AbsoluteRefreshTarget(page, page.html.value[0], t);
  }

  /** A refresh that waits 1000 seconds, beyond the default maximum delay, is not followed. */
  lemma HighIntervalPassThrough(u: Url, target: string)
    ensures RefreshStep(DefaultSettings, DefaultRefreshSettings, Plain(u), RefreshPage(u, 1000, target, {})).PassThrough?
  {
  }

  /** A refreshed POST becomes a GET to the target without body, Content-Type or Content-Length. */
  lemma PostedRefresh(u: Url, t: Url, body: seq<byte>)
    requires Valid(t) && IsAscii(ToString(t))
    ensures var req := RequestValue(u, "POST", PostHeaders, body, 0, NoMeta);
      var o := RefreshStep(DefaultSettings, DefaultRefreshSettings, req, Refreshing(u, ToString(t)));
      && o.Follow? && o.next.url == t && o.next.verb == "GET" && o.next.body == []
      && ContentType !in o.next.headers && ContentLength !in o.next.headers
  {
    var req := RequestValue(u, "POST", PostHeaders, body, 0, NoMeta);
    var page := Refreshing(u, ToString(t));
    PageFollowed(DefaultSettings, DefaultRefreshSettings, req, page, page.html.value[0]);
    AbsoluteRefreshTarget(page, page.html.value[0], t);
    RefreshStepFollow(DefaultSettings, DefaultRefreshSettings, req, page);
  }

  /** By default a directive inside `<noscript>` is followed. */
  lemma NoscriptFollowedByDefault(u: Url, t: Url)
    requires Valid(t) && IsAscii(ToString(t))
    ensures var o := RefreshStep(DefaultSettings, DefaultRefreshSettings, Plain(u), RefreshPage(u, 0, ToString(t), {"noscript"}));
      o.Follow? && o.next.url == t
  {
    var page := RefreshPage(u, 0, ToString(t), {"noscript"});
    PageFollowed(DefaultSettings, DefaultRefreshSettings, Plain(u), page, page.html.value[0]);
    AbsoluteRefreshTarget(page, page.html.value[0], t);
  }

  /** With `script` and `noscript` ignored, the earlier default, a directive inside `<noscript>` is not followed. */
  lemma NoscriptIgnored(u: Url, target: string)
    ensures var rs := RefreshSettings({"script", "noscript"}, 100);
      RefreshStep(DefaultSettings, rs, Plain(u), RefreshPage(u, 0, target, {"noscript"})).PassThrough?
  {
    var rs := RefreshSettings({"script", "noscript"}, 100);
    assert "noscript" in {"noscript"} * rs.ignoreTags;
    IgnoredDirectivesPassThrough(DefaultSettings, rs, Plain(u), RefreshPage(u, 0, target, {"noscript"}));
  }

  /** On values: with a maximum of one hop, the first refresh is counted and the second refused. */
  lemma RefreshMaxRedirectTimesHops(u: Url, path: string, priorityAdjust: int)
    requires AbsolutePath(path)
    ensures var s, page := Settings(1, priorityAdjust), Refreshing(u, path);
      var o := RefreshStep(s, DefaultRefreshSettings, Plain(u), page);
      && o.Follow? && o.next.url == Url(u.scheme, u.host, path) && o.next.meta.redirectTimes == 1
      && RefreshStep(s, DefaultRefreshSettings, o.next, page).Ignored?
  {
    var s, page := Settings(1, priorityAdjust), Refreshing(u, path);
    RefreshPathAdmitted(s, Plain(u), u, path);
    var n := RefreshStep(s, DefaultRefreshSettings, Plain(u), page).next;
    RefreshStepIgnored(s, DefaultRefreshSettings, n, page);
  }

  /** The meta-refresh middleware with `max_redirect_times` lowered to 1: one refresh, then a refusal. */
  method RefreshMaxRedirectTimesSession(u: Url, path: string) returns (first: Reply, second: Reply)
    requires AbsolutePath(path)
    ensures first.NewRequest? && first.request.url == Url(u.scheme, u.host, path)
    ensures first.NewRequest? && first.request.meta.redirectTimes == 1
    ensures second.IgnoreRequest?
  {
    var mw := new MetaRefreshMiddleware(DefaultSettings, DefaultRefreshSettings);
    mw.maxRedirectTimes := 1;
    var req := new Request(Plain(u));
    var page := Refreshing(u, path);
    RefreshMaxRedirectTimesHops(u, path, mw.priorityAdjust);
    first := mw.ProcessResponse(req, page);
    second := mw.ProcessResponse(first.request, page);
  }

  /** On values: a request with one unit of TTL is refreshed once, with no TTL left, and then refused. */
  lemma RefreshTtlHops(u: Url, path: string, priorityAdjust: int)
    requires AbsolutePath(path)
    ensures var s, page := Settings(100, priorityAdjust), Refreshing(u, path);
      var o := RefreshStep(s, DefaultRefreshSettings, WithTtlOne(u), page);
      && o.Follow? && o.next.url == Url(u.scheme, u.host, path) && o.next.meta.redirectTtl == Some(0)
      && RefreshStep(s, DefaultRefreshSettings, o.next, page).Ignored?
  {
    var s, page := Settings(100, priorityAdjust), Refreshing(u, path);
    RefreshPathAdmitted(s, WithTtlOne(u), u, path);
    var n := RefreshStep(s, DefaultRefreshSettings, WithTtlOne(u), page).next;
    RefreshStepIgnored(s, DefaultRefreshSettings, n, page);
  }

  /** The meta-refresh middleware with `max_redirect_times` raised to 100 and a TTL of 1: one refresh, then a refusal. */
  method RefreshTtlSession(u: Url, path: string) returns (first: Reply, second: Reply)
    requires AbsolutePath(path)
    ensures first.NewRequest? && first.request.url == Url(u.scheme, u.host, path)
    ensures first.NewRequest? && first.request.meta.redirectTtl == Some(0)
    ensures second.IgnoreRequest?
  {
    var mw := new MetaRefreshMiddleware(DefaultSettings, DefaultRefreshSettings);
    mw.maxRedirectTimes := 100;
    var req := new Request(WithTtlOne(u));
    var page := Refreshing(u, path);
    RefreshTtlHops(u, path, mw.priorityAdjust);
    first := mw.ProcessResponse(req, page);
    second := mw.ProcessResponse(first.request, page);
  }

  /** A GET with a hop left is refreshed, as a GET, to an absolute path on the page's host, and records the hop. */
  lemma RefreshPathAdmitted(s: Settings, p: RequestValue, u: Url, path: string)
    requires !p.meta.dontRedirect && Ttl(s, p.meta) != 0 && p.meta.redirectTimes + 1 <= s.maxRedirectTimes
    requires p.verb == "GET" && AbsolutePath(path)
    ensures var o := RefreshStep(s, DefaultRefreshSettings, p, Refreshing(u, path));
      && o.Follow? && o.next.url == Url(u.scheme, u.host, path) && o.next.verb == "GET"
      && o.next.meta.dontRedirect == p.meta.dontRedirect
      && o.next.meta.redirectTimes == p.meta.redirectTimes + 1
      && o.next.meta.redirectTtl == Some(Ttl(s, p.meta) - 1)
      && o.next.meta.redirectUrls == p.meta.redirectUrls + [p.url]
      && o.next.meta.redirectReasons == p.meta.redirectReasons + [MetaRefresh]
  {
    var page := Refreshing(u, path);
    PageFollowed(s, DefaultRefreshSettings, p, page, page.html.value[0]);
    AbsolutePathRefreshTarget(page, page.html.value[0], path);
    RefreshStepFollow(s, DefaultRefreshSettings, p, page);
  }

  /** On values: two refreshes in a row record both URLs they came through and "meta refresh" once per hop. */
  lemma RefreshHistoryHops(s: Settings, u: Url, path1: string, path2: string)
    requires AbsolutePath(path1) && AbsolutePath(path2) && 2 <= s.maxRedirectTimes
    ensures var o := RefreshStep(s, DefaultRefreshSettings, Plain(u), Refreshing(u, path1));
      && o.Follow? && o.next.url == Url(u.scheme, u.host, path1)
      && o.next.meta.redirectUrls == [u] && o.next.meta.redirectReasons == [MetaRefresh]
      && var o2 := RefreshStep(s, DefaultRefreshSettings, o.next, Refreshing(u, path2));
      && o2.Follow? && o2.next.url == Url(u.scheme, u.host, path2)
      && o2.next.meta.redirectUrls == [u, Url(u.scheme, u.host, path1)]
      && o2.next.meta.redirectReasons == [MetaRefresh, MetaRefresh]
  {
    RefreshPathAdmitted(s, Plain(u), u, path1);
    var n := RefreshStep(s, DefaultRefreshSettings, Plain(u), Refreshing(u, path1)).next;
    RefreshPathAdmitted(s, n, u, path2);
  }

  /** Two refreshes in a row on the middleware object: each request records every URL it came through and one reason per hop. */
  method RefreshHistorySession(u: Url, path1: string, path2: string) returns (second: Reply, third: Reply)
    requires AbsolutePath(path1) && AbsolutePath(path2)
    ensures second.NewRequest? && third.NewRequest?
    ensures second.request.url == Url(u.scheme, u.host, path1)
    ensures second.request.meta.redirectUrls == [u] && second.request.meta.redirectReasons == [MetaRefresh]
    ensures third.request.url == Url(u.scheme, u.host, path2)
    ensures third.request.meta.redirectUrls == [u, Url(u.scheme, u.host, path1)]
    ensures third.request.meta.redirectReasons == [MetaRefresh, MetaRefresh]
  {
    var mw := new MetaRefreshMiddleware(DefaultSettings, DefaultRefreshSettings);
    var req1 := new Request(Plain(u));
    RefreshHistoryHops(mw.Config(), u, path1, path2);
    second := mw.ProcessResponse(req1, Refreshing(u, path1));
    third := mw.ProcessResponse(second.request, Refreshing(u, path2));
  }

  /** A refresh of a fresh GET request to an absolute target: where it goes and which headers it keeps. */
  lemma RefreshFromGet(req: RequestValue, t: Url)
    requires req.meta == NoMeta && req.verb == "GET"
    requires Valid(t) && IsAscii(ToString(t))
    ensures var o := RefreshStep(DefaultSettings, DefaultRefreshSettings, req, Refreshing(req.url, ToString(t)));
      && o.Follow? && o.next.url == t
      && o.next.headers == Drop(req.headers, DroppedHeaders(req, t, false))
  {
    var page := Refreshing(req.url, ToString(t));
    PageFollowed(DefaultSettings, DefaultRefreshSettings, req, page, page.html.value[0]);
    AbsoluteRefreshTarget(page, page.html.value[0], t);
    RefreshStepHeaders(DefaultSettings, DefaultRefreshSettings, req, page);
  }

  /** A refresh to another path of the same host keeps every header. */
  lemma RefreshSameHostKeepsHeaders(host: string, path: string)
    requires ValidHost(host) && IsAscii(host) && IsAscii(path) && |path| > 0 && path[0] == '/'
    ensures var req := Plain(Url("https", host, "")).(headers := CrossDomainHeaderTable);
      var o := RefreshStep(DefaultSettings, DefaultRefreshSettings, req, Refreshing(req.url, ToString(Url("https", host, path))));
      o.Follow? && o.next.headers == CrossDomainHeaderTable
  {
    var req := Plain(Url("https", host, "")).(headers := CrossDomainHeaderTable);
    var target := Url("https", host, path);
    UrlIsAscii(target);
    RefreshFromGet(req, target);
    assert DroppedHeaders(req, target, false) == {ContentType, ContentLength};
    CrossDomainTableHasNoBodyHeaders();
  }

  /** A refresh to another host drops Cookie and Authorization and keeps the other header. */
  lemma RefreshOtherHostDropsCredentials(host: string, other: string, path: string)
    requires host != other && ValidHost(other) && IsAscii(other) && IsAscii(path) && |path| > 0 && path[0] == '/'
    ensures var req := Plain(Url("https", host, "")).(headers := CrossDomainHeaderTable);
      var o := RefreshStep(DefaultSettings, DefaultRefreshSettings, req, Refreshing(req.url, ToString(Url("https", other, path))));
      o.Follow? && o.next.headers == map["a" := [Text("B")]]
  {
    var req := Plain(Url("https", host, "")).(headers := CrossDomainHeaderTable);
    var target := Url("https", other, path);
    UrlIsAscii(target);
    RefreshFromGet(req, target);
    assert DroppedHeaders(req, target, false) == {Cookie, Authorization, ContentType, ContentLength};
    CrossDomainTableWithoutCredentials();
  }

  /** The two pages of the proxy tests played on the meta-refresh middleware: a refresh to `l1` at `u`, then one to `l2` at `t1`. */
  function TwoRefreshes(u: Url, l1: string, t1: Url, l2: string): seq<Response>
  {
    [Refreshing(u, l1), Refreshing(t1, l2)]
  }

  /** Meta under which a visible, short refresh is followed: no opt-out, TTL left, and a hop below the maximum. */
  predicate RefreshAdmits(s: Settings, m: Meta)
  {
    !m.dontRedirect && Ttl(s, m) != 0 && m.redirectTimes + 1 <= s.maxRedirectTimes
  }

  /** A GET under such meta is refreshed to an absolute URL or path as a GET, using up one hop and one unit of TTL. */
  lemma RefreshAdmitted(s: Settings, p: RequestValue, u: Url, location: string, t: Url)
    requires RefreshAdmits(s, p.meta) && p.verb == "GET"
    requires Locates(u, location, t)
    ensures var o := RefreshStep(s, DefaultRefreshSettings, p, Refreshing(u, location));
      && o.Follow? && o.next.url == t && o.next.verb == "GET"
      && o.next.meta.redirectTimes == p.meta.redirectTimes + 1 && o.next.meta.redirectTtl == Some(Ttl(s, p.meta) - 1)
      && o.next.meta.dontRedirect == p.meta.dontRedirect
  {
    var page := Refreshing(u, location);
    PageFollowed(s, DefaultRefreshSettings, p, page, page.html.value[0]);
    if Valid(t) && IsAscii(ToString(t)) && location == ToString(t) {
      AbsoluteRefreshTarget(page, page.html.value[0], t);
    } else {
      AbsolutePathRefreshTarget(page, page.html.value[0], location);
    }
    RefreshStepFollow(s, DefaultRefreshSettings, p, page);
  }

  /** The proxy tests' first refresh: the request through the proxy step and then refreshed to `t1`. */
  lemma RefreshProxyTestFirstHop(proxies: ProxyTable, v: RequestValue, l1: string, t1: Url, l2: string)
    requires ProxyTestRequest(v)
    requires Locates(v.url, l1, t1)
    ensures var o := RefreshStep(DefaultSettings, DefaultRefreshSettings, Select(proxies, v), TwoRefreshes(v.url, l1, t1, l2)[0]);
      && o.Follow? && o.next.url == t1 && o.next.verb == "GET"
      && RefreshAdmits(DefaultSettings, Select(proxies, o.next).meta)
  {
    var p1 := Select(proxies, v);
    assert RefreshAdmits(DefaultSettings, p1.meta);
    RefreshAdmitted(DefaultSettings, p1, v.url, l1, t1);
  }

  /**
   * Both refreshes of the proxy tests are followed to the two targets,
   * whether each directive URL is absolute or a path, and whether the proxy
   * comes from the meta or from the environment.
   */
  lemma RefreshProxyTestHopsFollowed(proxies: ProxyTable, v: RequestValue, l1: string, t1: Url, l2: string, t2: Url)
    requires ProxyTestRequest(v)
    requires Locates(v.url, l1, t1) && Locates(t1, l2, t2)
    ensures var rs, variant := TwoRefreshes(v.url, l1, t1, l2), ByRefresh(DefaultRefreshSettings);
      && Chain(DefaultSettings, proxies, variant, v, rs[..1]).Some?
      && Chain(DefaultSettings, proxies, variant, v, rs[..1]).value.url == t1
      && Chain(DefaultSettings, proxies, variant, v, rs).Some?
      && Chain(DefaultSettings, proxies, variant, v, rs).value.url == t2
  {
    var rs, variant := TwoRefreshes(v.url, l1, t1, l2), ByRefresh(DefaultRefreshSettings);
    var p1 := Select(proxies, v);
    RefreshProxyTestFirstHop(proxies, v, l1, t1, l2);
    var p2 := Select(proxies, Step(DefaultSettings, variant, p1, rs[0]).next);
    RefreshAdmitted(DefaultSettings, p2, t1, l2, t2);
    ContinueTwo(DefaultSettings, proxies, variant, p1, rs[0], rs[1]);
    assert rs[..1] == [rs[0]] && rs == [rs[0], rs[1]];
  }

  /** The meta proxy tests on the meta-refresh middleware: the meta proxy and its header are kept through both refreshes. */
  lemma RefreshMetaProxyTest(proxies: ProxyTable, v: RequestValue, l1: string, t1: Url, l2: string, t2: Url,
                             origin: string, credentials: string)
    requires ProxyTestRequest(v) && v.meta.proxy == Via(ProxyUrl(origin, Some(credentials)))
    requires Locates(v.url, l1, t1) && Locates(t1, l2, t2)
    ensures CarriesMetaProxy(Select(proxies, v), origin, credentials)
    ensures var rs, variant := TwoRefreshes(v.url, l1, t1, l2), ByRefresh(DefaultRefreshSettings);
      && Chain(DefaultSettings, proxies, variant, v, rs[..1]).Some?
      && CarriesMetaProxy(Chain(DefaultSettings, proxies, variant, v, rs[..1]).value, origin, credentials)
      && Chain(DefaultSettings, proxies, variant, v, rs).Some?
      && CarriesMetaProxy(Chain(DefaultSettings, proxies, variant, v, rs).value, origin, credentials)
  {
    var rs, variant := TwoRefreshes(v.url, l1, t1, l2), ByRefresh(DefaultRefreshSettings);
    RefreshProxyTestHopsFollowed(proxies, v, l1, t1, l2, t2);
    SelectFromMeta(proxies, v);
    ChainKeepsMetaProxy(DefaultSettings, proxies, variant, v, rs[..1], origin, credentials);
    ChainKeepsMetaProxy(DefaultSettings, proxies, variant, v, rs, origin, credentials);
  }

  /** The environment proxy tests on the meta-refresh middleware: after each refresh and proxy step the proxy is the one for the current scheme. */
  lemma RefreshEnvironmentProxyTest(proxies: ProxyTable, v: RequestValue, l1: string, t1: Url, l2: string, t2: Url)
    requires ProxyTestRequest(v) && v.meta.proxy == Unset && ProxyAuthorization !in v.headers
    requires Locates(v.url, l1, t1) && Locates(t1, l2, t2)
    ensures UsesEnvironmentProxy(proxies, Select(proxies, v))
    ensures var rs, variant := TwoRefreshes(v.url, l1, t1, l2), ByRefresh(DefaultRefreshSettings);
      && Chain(DefaultSettings, proxies, variant, v, rs[..1]).Some?
      && UsesEnvironmentProxy(proxies, Chain(DefaultSettings, proxies, variant, v, rs[..1]).value)
      && Chain(DefaultSettings, proxies, variant, v, rs).Some?
      && UsesEnvironmentProxy(proxies, Chain(DefaultSettings, proxies, variant, v, rs).value)
  {
    var rs, variant := TwoRefreshes(v.url, l1, t1, l2), ByRefresh(DefaultRefreshSettings);
    RefreshProxyTestHopsFollowed(proxies, v, l1, t1, l2, t2);
    SelectUnproxied(proxies, v);
    ChainUsesEnvironmentProxy(DefaultSettings, proxies, variant, v, rs[..1]);
    ChainUsesEnvironmentProxy(DefaultSettings, proxies, variant, v, rs);
  }
}
