/**
 * Hop chains: a request goes through the proxy step, is redirected, the
 * follow-up request goes through the proxy step again, and so on, one
 * response per hop. The chain is specified on request values and carried out
 * on request objects by a loop.
 */
module Chains {

  import opened Wrappers
  import opened Headers
  import opened Messages
  import opened HttpProxy
  import opened Redirect
  import opened Refresh
  import opened Middlewares

  /** Which redirect middleware makes the hops, with the settings that only it has. */
  datatype Variant = ByStatus(spiderHandled: seq<int>) | ByRefresh(refresh: RefreshSettings)

  function Step(s: Settings, variant: Variant, req: RequestValue, rsp: Response): Outcome
  {
    match variant
    case ByStatus(spiderHandled) => HttpStep(s, spiderHandled, req, rsp)
    case ByRefresh(rs) => RefreshStep(s, rs, req, rsp)
  }

  /**
   * The request that `p`, already through the proxy step, becomes after one
   * hop per response; None when a response is handed on or a hop is refused.
   */
  function Continue(s: Settings, proxies: ProxyTable, variant: Variant, p: RequestValue, responses: seq<Response>): Option<RequestValue>
    decreases |responses|
  {
    if responses == [] then Some(p)
    else match Step(s, variant, p, responses[0])
      case Follow(next) => Continue(s, proxies, variant, Select(proxies, next), responses[1..])
      case _ => None
  }

  /** The first hop of a chain decides whether it goes on. */
  lemma ContinueFirst(s: Settings, proxies: ProxyTable, variant: Variant, p: RequestValue, responses: seq<Response>)
    requires responses != []
    ensures var o := Step(s, variant, p, responses[0]);
      Continue(s, proxies, variant, p, responses) ==
        if o.Follow? then Continue(s, proxies, variant, Select(proxies, o.next), responses[1..]) else None
  {
  }

  /** Two responses whose redirects are both followed: the chain ends with the second follow-up request through the proxy step. */
  lemma ContinueTwo(s: Settings, proxies: ProxyTable, variant: Variant, p: RequestValue, r1: Response, r2: Response)
    requires Step(s, variant, p, r1).Follow?
    requires Step(s, variant, Select(proxies, Step(s, variant, p, r1).next), r2).Follow?
    ensures var p2 := Select(proxies, Step(s, variant, p, r1).next);
      && Continue(s, proxies, variant, p, [r1]) == Some(p2)
      && Continue(s, proxies, variant, p, [r1, r2]) == Some(Select(proxies, Step(s, variant, p2, r2).next))
  {
    var p2 := Select(proxies, Step(s, variant, p, r1).next);
    assert [r1, r2][1..] == [r2];
    assert Continue(s, proxies, variant, p2, [r2]) == Continue(s, proxies, variant, Select(proxies, Step(s, variant, p2, r2).next), []);
  }

  /** The chain from a request that has not yet been through the proxy step. */
  function Chain(s: Settings, proxies: ProxyTable, variant: Variant, v: RequestValue, responses: seq<Response>): Option<RequestValue>
  {
    Continue(s, proxies, variant, Select(proxies, v), responses)
  }

  /**
   * Runs `first` through the proxy middleware and then through one redirect
   * and one proxy step per response, as long as each response is redirected.
   */
  method FollowRedirects(mw: RedirectMiddleware, proxy: HttpProxyMiddleware, first: Request,
                         responses: seq<Response>, spiderHandled: seq<int>)
    returns (last: Option<Request>)
    modifies first
    ensures var chain := Chain(mw.Config(), proxy.proxies, ByStatus(spiderHandled), old(first.Value()), responses);
      && (last.Some? <==> chain.Some?)
      && (last.Some? ==> last.value.Value() == chain.value)
      && (last.Some? ==> last.value == first || fresh(last.value))
    // the first request itself holds only the proxy step's result
    ensures first.Value() == Select(proxy.proxies, old(first.Value()))
  {
    ghost var chain := Chain(mw.Config(), proxy.proxies, ByStatus(spiderHandled), first.Value(), responses);
    proxy.ProcessRequest(first);
    var cur := first;
    var i := 0;
    while i < |responses|
      invariant 0 <= i <= |responses|
      invariant cur == first || fresh(cur)
      invariant i > 0 ==> cur != first
      invariant first.Value() == Select(proxy.proxies, old(first.Value()))
      invariant Continue(mw.Config(), proxy.proxies, ByStatus(spiderHandled), cur.Value(), responses[i..]) == chain
    {
      assert responses[i..][0] == responses[i] && responses[i..][1..] == responses[i + 1..];
      ContinueFirst(mw.Config(), proxy.proxies, ByStatus(spiderHandled), cur.Value(), responses[i..]);
      ghost var o := Step(mw.Config(), ByStatus(spiderHandled), cur.Value(), responses[i]);
      var reply := mw.ProcessResponse(cur, responses[i], spiderHandled);
      if !reply.NewRequest? {
        assert !o.Follow?;
        return None;
      }
      cur := reply.request;
      assert cur.Value() == o.next;
      proxy.ProcessRequest(cur);
      i := i + 1;
    }
    return Some(cur);
  }

  /** The hop history of a request: one URL and one reason per hop counted. */
  predicate HistoryAligned(m: Meta)
  {
    |m.redirectUrls| == m.redirectTimes && |m.redirectReasons| == m.redirectTimes
  }

  /**
   * A chain that follows every response adds one hop per response to the
   * count and to the history, and never goes past the maximum.
   */
  lemma {:induction false} ContinueCounts(s: Settings, proxies: ProxyTable, variant: Variant, p: RequestValue, responses: seq<Response>)
    requires Continue(s, proxies, variant, p, responses).Some?
    ensures var r := Continue(s, proxies, variant, p, responses).value;
      && r.meta.redirectTimes == p.meta.redirectTimes + |responses|
      && (responses != [] ==> r.meta.redirectTimes <= s.maxRedirectTimes)
      && |r.meta.redirectUrls| == |p.meta.redirectUrls| + |responses|
      && |r.meta.redirectReasons| == |p.meta.redirectReasons| + |responses|
    decreases |responses|
  {
    if responses != [] {
      var o := Step(s, variant, p, responses[0]);
      StepFollow(s, variant, p, responses[0]);
      var q := Select(proxies, o.next);
      ContinueCounts(s, proxies, variant, q, responses[1..]);
    }
  }

  /** What every followed hop records, for both variants. */
  lemma StepFollow(s: Settings, variant: Variant, p: RequestValue, rsp: Response)
    ensures var o := Step(s, variant, p, rsp);
      o.Follow? ==>
        && o.next.meta.redirectTimes == p.meta.redirectTimes + 1 <= s.maxRedirectTimes
        && |o.next.meta.redirectReasons| == |p.meta.redirectReasons| + 1
        && o.next.meta.redirectUrls == p.meta.redirectUrls + [p.url]
  {
  }

  /** A request from the start, without hops or TTL, takes at most the maximum number of hops. */
  lemma ChainBounded(s: Settings, proxies: ProxyTable, variant: Variant, v: RequestValue, responses: seq<Response>)
    requires v.meta.redirectTimes == 0 && HistoryAligned(v.meta)
    requires Chain(s, proxies, variant, v, responses).Some?
    ensures |responses| <= s.maxRedirectTimes || responses == []
    ensures HistoryAligned(Chain(s, proxies, variant, v, responses).value.meta)
    ensures Chain(s, proxies, variant, v, responses).value.meta.redirectTimes == |responses|
  {
    ContinueCounts(s, proxies, variant, Select(proxies, v), responses);
  }

  /** The state a proxy named in the meta leaves a request in: its origin, its credentials, and no environment flag. */
  ghost predicate CarriesMetaProxy(p: RequestValue, origin: string, credentials: string)
  {
    && p.meta.proxy == Via(ProxyUrl(origin, None)) && p.meta.authProxy == Some(origin) && !p.meta.schemeProxy
    && ProxyAuthorization in p.headers && p.headers[ProxyAuthorization] == [BasicCredentials(credentials)]
  }

  /** One hop of either variant keeps a meta proxy and its credentials, whether or not the scheme changes. */
  lemma StepKeepsMetaProxy(s: Settings, variant: Variant, p: RequestValue, rsp: Response, origin: string, credentials: string)
    requires CarriesMetaProxy(p, origin, credentials)
    requires Step(s, variant, p, rsp).Follow?
    ensures CarriesMetaProxy(Step(s, variant, p, rsp).next, origin, credentials)
  {
  }

  /**
   * A proxy named in the meta with credentials keeps its proxy entry,
   * `_auth_proxy` and Proxy-Authorization header through any chain of hops.
   */
  lemma {:induction false} ContinueKeepsMetaProxy(s: Settings, proxies: ProxyTable, variant: Variant, p: RequestValue,
                                                  responses: seq<Response>, origin: string, credentials: string)
    requires CarriesMetaProxy(p, origin, credentials)
    requires Continue(s, proxies, variant, p, responses).Some?
    ensures CarriesMetaProxy(Continue(s, proxies, variant, p, responses).value, origin, credentials)
    decreases |responses|
  {
    if responses != [] {
      var next := Step(s, variant, p, responses[0]).next;
      StepKeepsMetaProxy(s, variant, p, responses[0], origin, credentials);
      SelectKeepsSettled(proxies, next);
      ContinueKeepsMetaProxy(s, proxies, variant, Select(proxies, next), responses[1..], origin, credentials);
    }
  }

  /**
   * The chains of the meta proxy tests: the credentials in the proxy URL move
   * into the header at the first proxy step and are still there, with the
   * proxy and `_auth_proxy`, after every later hop and proxy step.
   */
  lemma ChainKeepsMetaProxy(s: Settings, proxies: ProxyTable, variant: Variant, v: RequestValue,
                            responses: seq<Response>, origin: string, credentials: string)
    requires v.meta.proxy == Via(ProxyUrl(origin, Some(credentials))) && !v.meta.schemeProxy
    requires Chain(s, proxies, variant, v, responses).Some?
    ensures CarriesMetaProxy(Chain(s, proxies, variant, v, responses).value, origin, credentials)
  {
    SelectFromMeta(proxies, v);
    ContinueKeepsMetaProxy(s, proxies, variant, Select(proxies, v), responses, origin, credentials);
  }

  /** No proxy entry, no `_auth_proxy` and no Proxy-Authorization header. */
  ghost predicate Unproxied(p: RequestValue)
  {
    p.meta.proxy == Unset && p.meta.authProxy == None && ProxyAuthorization !in p.headers
  }

  /**
   * The request uses exactly the environment's proxy for its scheme, with
   * that proxy's credentials in the header, or no proxy at all when the
   * environment has none for the scheme.
   */
  ghost predicate UsesEnvironmentProxy(proxies: ProxyTable, p: RequestValue)
  {
    && Settled(proxies, p)
    && if p.url.scheme in proxies then
         var e := proxies[p.url.scheme];
         && p.meta.proxy == Via(ProxyUrl(e.origin, None)) && p.meta.schemeProxy
         && (e.credentials.Some? ==>
               && p.meta.authProxy == Some(e.origin)
               && ProxyAuthorization in p.headers && p.headers[ProxyAuthorization] == [BasicCredentials(e.credentials.value)])
       else Unproxied(p)
  }

  /** The proxy step gives a request without proxy entries the environment's proxy for its scheme. */
  lemma SelectUnproxied(proxies: ProxyTable, p: RequestValue)
    requires Unproxied(p)
    ensures UsesEnvironmentProxy(proxies, Select(proxies, p))
  {
    SelectSettles(proxies, p);
    if p.url.scheme in proxies {
      SelectFromEnvironment(proxies, p);
    } else {
      SelectNoProxy(proxies, p);
    }
  }

  /**
   * A hop from a request that uses the environment's proxy: on the same
   * scheme the proxy, `_auth_proxy` and the header travel with it; on another
   * scheme all three are gone.
   */
  lemma StepEnvironmentProxy(s: Settings, variant: Variant, p: RequestValue, rsp: Response, proxies: ProxyTable)
    requires UsesEnvironmentProxy(proxies, p)
    requires Step(s, variant, p, rsp).Follow?
    ensures var n := Step(s, variant, p, rsp).next;
      && (n.url.scheme == p.url.scheme ==> UsesEnvironmentProxy(proxies, n))
      && (n.url.scheme != p.url.scheme ==> Unproxied(n))
  {
  }

  /** After every proxy step of a hop chain the request uses the environment's proxy for its current scheme. */
  lemma {:induction false} ContinueUsesEnvironmentProxy(s: Settings, proxies: ProxyTable, variant: Variant, p: RequestValue,
                                                       responses: seq<Response>)
    requires UsesEnvironmentProxy(proxies, p)
    requires Continue(s, proxies, variant, p, responses).Some?
    ensures UsesEnvironmentProxy(proxies, Continue(s, proxies, variant, p, responses).value)
    decreases |responses|
  {
    if responses != [] {
      var next := Step(s, variant, p, responses[0]).next;
      StepEnvironmentProxy(s, variant, p, responses[0], proxies);
      if next.url.scheme == p.url.scheme {
        SelectKeepsSettled(proxies, next);
      } else {
        SelectUnproxied(proxies, next);
      }
      ContinueUsesEnvironmentProxy(s, proxies, variant, Select(proxies, next), responses[1..]);
    }
  }

  /** The chains of the environment proxy tests, whatever the schemes the hops go through. */
  lemma ChainUsesEnvironmentProxy(s: Settings, proxies: ProxyTable, variant: Variant, v: RequestValue, responses: seq<Response>)
    requires Unproxied(v)
    requires Chain(s, proxies, variant, v, responses).Some?
    ensures UsesEnvironmentProxy(proxies, Chain(s, proxies, variant, v, responses).value)
  {
    SelectUnproxied(proxies, v);
    ContinueUsesEnvironmentProxy(s, proxies, variant, Select(proxies, v), responses);
  }
}
