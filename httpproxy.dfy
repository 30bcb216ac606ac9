/**
 * The proxy middleware's request step: choosing the proxy for a request (from
 * its `proxy` meta entry, or else from the environment's proxy for the URL's
 * scheme) and bringing the `Proxy-Authorization` header, the `proxy` entry and
 * the `_auth_proxy` entry in line with that choice.
 */
module HttpProxy {

  import opened Wrappers
  import opened Headers
  import opened Messages

  /** The environment's proxies by URL scheme (`http_proxy`, `https_proxy`), read when the middleware is made. */
  type ProxyTable = map<string, ProxyUrl>

  /** The outcome of choosing: the credentials to send, the proxy origin, and whether the proxy came from the environment. */
  datatype Choice = Choice(credentials: Option<string>, origin: Option<string>, fromEnvironment: bool)

  /**
   * A proxy named in the request's meta wins, including an explicit "no
   * proxy"; only when the meta names none does the environment's proxy for the
   * URL's scheme apply.
   */
  function Choose(proxies: ProxyTable, v: RequestValue): (c: Choice)
    ensures c.credentials.Some? ==> c.origin.Some?
    ensures c.fromEnvironment <==> v.meta.proxy.Unset? && v.url.scheme in proxies
  {
    match v.meta.proxy
    case Via(p) => Choice(p.credentials, Some(p.origin), false)
    case Disabled => Choice(None, None, false)
    case Unset =>
      if v.url.scheme in proxies then
        var p := proxies[v.url.scheme];
        Choice(p.credentials, Some(p.origin), true)
      else Choice(None, None, false)
  }

  /**
   * A Proxy-Authorization header is only ever sent with the proxy it was made
   * for: the header implies that `_auth_proxy` is set and that the request's
   * proxy is that origin.
   */
  ghost predicate ProxyConsistent(v: RequestValue)
  {
    ProxyAuthorization in v.headers ==>
      v.meta.authProxy.Some? && v.meta.proxy == Via(ProxyUrl(v.meta.authProxy.value, None))
  }

  /** Brings the proxy entries and the Proxy-Authorization header in line with the choice `c`. */
  function Apply(v: RequestValue, c: Choice): RequestValue
  {
    var m0 := if c.fromEnvironment then v.meta.(schemeProxy := true) else v.meta;
    var m1 :=
      if c.origin.Some? then m0.(proxy := Via(ProxyUrl(c.origin.value, None)))
      else if m0.proxy.Via? then m0.(proxy := Disabled)
      else m0;
    if c.credentials.Some? then
      v.(headers := v.headers[ProxyAuthorization := [BasicCredentials(c.credentials.value)]],
         meta := m1.(authProxy := c.origin))
    else if m1.authProxy.Some? then
      if c.origin != m1.authProxy then
        v.(headers := Drop(v.headers, {ProxyAuthorization}), meta := m1.(authProxy := None))
      else v.(meta := m1)
    else if ProxyAuthorization in v.headers then
      if c.origin.Some? then v.(meta := m1.(authProxy := c.origin))
      else v.(headers := Drop(v.headers, {ProxyAuthorization}), meta := m1)
    else v.(meta := m1)
  }

  /** `process_request` of the proxy middleware, on request values. */
  function Select(proxies: ProxyTable, v: RequestValue): (r: RequestValue)
    // only the proxy entries and the Proxy-Authorization header change
    ensures r.url == v.url && r.verb == v.verb && r.body == v.body && r.priority == v.priority
    ensures Drop(r.headers, {ProxyAuthorization}) == Drop(v.headers, {ProxyAuthorization})
    ensures r.meta == v.meta.(proxy := r.meta.proxy, authProxy := r.meta.authProxy, schemeProxy := r.meta.schemeProxy)
    // whatever came before, no stale credentials remain
    ensures ProxyConsistent(r)
    // the environment flag is set when the environment supplied the proxy, and never cleared
    ensures r.meta.schemeProxy == (v.meta.schemeProxy || (v.meta.proxy.Unset? && v.url.scheme in proxies))
  {
    var c := Choose(proxies, v);
    ApplyFrame(v, c);
    ApplyConsistent(v, c);
    Apply(v, c)
  }

  /** `Apply` touches nothing but the proxy entries and the Proxy-Authorization header. */
  lemma ApplyFrame(v: RequestValue, c: Choice)
    ensures var r := Apply(v, c);
      && r.url == v.url && r.verb == v.verb && r.body == v.body && r.priority == v.priority
      && Drop(r.headers, {ProxyAuthorization}) == Drop(v.headers, {ProxyAuthorization})
      && r.meta == v.meta.(proxy := r.meta.proxy, authProxy := r.meta.authProxy, schemeProxy := r.meta.schemeProxy)
  {
    if c.credentials.Some? {
      DropReplaced(v.headers, ProxyAuthorization, [BasicCredentials(c.credentials.value)]);
    } else {
      DropTwice(v.headers, {ProxyAuthorization});
    }
  }

  /** Whatever the branch taken, `Apply` leaves the header and the proxy entries consistent. */
  lemma ApplyConsistent(v: RequestValue, c: Choice)
    requires c.credentials.Some? ==> c.origin.Some?
    ensures var r := Apply(v, c);
      && ProxyConsistent(r)
      && r.meta.schemeProxy == (v.meta.schemeProxy || c.fromEnvironment)
      && r.meta.proxy == (if c.origin.Some? then Via(ProxyUrl(c.origin.value, None))
                          else if v.meta.proxy.Via? then Disabled else v.meta.proxy)
      && (c.origin.Some? ==> r.meta.authProxy.None? || r.meta.authProxy == c.origin)
      && (c.origin.None? ==> r.meta.authProxy.None? && ProxyAuthorization !in r.headers)
  {
  }

  /** A proxy from the meta: its credentials move out of the URL into the header; a request already in that state is left alone. */
  lemma SelectFromMeta(proxies: ProxyTable, v: RequestValue)
    requires v.meta.proxy.Via?
    ensures var r := Select(proxies, v); var p := v.meta.proxy.url;
      && r.meta.proxy == Via(ProxyUrl(p.origin, None))
      && r.meta.schemeProxy == v.meta.schemeProxy
      && (p.credentials.Some? ==>
            r.headers[ProxyAuthorization] == [BasicCredentials(p.credentials.value)] && r.meta.authProxy == Some(p.origin))
      && (p.credentials.None? && v.meta.authProxy == Some(p.origin) ==> r == v.(meta := r.meta) && r.meta.authProxy == v.meta.authProxy)
  {
  }

  /** No proxy in the meta and one in the environment for the URL's scheme: that proxy is installed. */
  lemma SelectFromEnvironment(proxies: ProxyTable, v: RequestValue)
    requires v.meta.proxy.Unset? && v.url.scheme in proxies
    ensures var r := Select(proxies, v); var p := proxies[v.url.scheme];
      && r.meta.proxy == Via(ProxyUrl(p.origin, None))
      && r.meta.schemeProxy
      && (p.credentials.Some? ==>
            r.headers[ProxyAuthorization] == [BasicCredentials(p.credentials.value)] && r.meta.authProxy == Some(p.origin))
  {
  }

  /** No proxy in the meta and none in the environment for the scheme: no proxy, no credentials. */
  lemma SelectNoProxy(proxies: ProxyTable, v: RequestValue)
    requires v.meta.proxy.Unset? && v.url.scheme !in proxies
    ensures var r := Select(proxies, v);
      && r.meta.proxy == Unset && ProxyAuthorization !in r.headers && r.meta.authProxy == None
      && (v.meta.authProxy == None && ProxyAuthorization !in v.headers ==> r == v)
  {
  }

  /**
   * A request the proxy step has already seen: its proxy entry is final and
   * carries no credentials, and its `_auth_proxy` and Proxy-Authorization
   * header agree with it.
   */
  ghost predicate Settled(proxies: ProxyTable, v: RequestValue)
  {
    ProxyConsistent(v) &&
    match v.meta.proxy
    case Via(p) => p.credentials.None? && (v.meta.authProxy.None? || v.meta.authProxy == Some(p.origin))
    case Disabled => v.meta.authProxy.None? && ProxyAuthorization !in v.headers
    case Unset => v.url.scheme !in proxies && v.meta.authProxy.None? && ProxyAuthorization !in v.headers
  }

  /** The proxy step leaves every request settled. */
  lemma SelectSettles(proxies: ProxyTable, v: RequestValue)
    ensures Settled(proxies, Select(proxies, v))
  {
    ApplyConsistent(v, Choose(proxies, v));
  }

  /** The proxy step changes nothing in a settled request. */
  lemma SelectKeepsSettled(proxies: ProxyTable, v: RequestValue)
    requires Settled(proxies, v)
    ensures Select(proxies, v) == v
  {
    if v.meta.proxy.Via? {
      assert v.meta.(proxy := Via(ProxyUrl(v.meta.proxy.url.origin, None))) == v.meta;
    }
  }

  /** Running proxy selection again with nothing changed in between changes nothing. */
  lemma SelectIdempotent(proxies: ProxyTable, v: RequestValue)
    ensures Select(proxies, Select(proxies, v)) == Select(proxies, v)
  {
    SelectSettles(proxies, v);
    SelectKeepsSettled(proxies, Select(proxies, v));
  }

  /** The proxy middleware: the environment's proxies, and the request step that writes into a request. */
  class HttpProxyMiddleware {
    const proxies: ProxyTable

    constructor (environment: ProxyTable)
      ensures proxies == environment
    {
      proxies := environment;
    }

    /** Updates the request's proxy entries and Proxy-Authorization header in place. */
    method ProcessRequest(request: Request)
      modifies request
      ensures request.Value() == Select(proxies, old(request.Value()))
    {
      ghost var v := request.Value();
      var c := Choose(proxies, request.Value());
      if c.fromEnvironment {
        request.meta := request.meta.(schemeProxy := true);
      }
      var proxy :=
        if c.origin.Some? then Via(ProxyUrl(c.origin.value, None))
        else if request.meta.proxy.Via? then Disabled
        else request.meta.proxy;
      request.meta := request.meta.(proxy := proxy);
      assert request.Value() == v.(meta := request.meta);
      if c.credentials.Some? {
        request.headers := request.headers[ProxyAuthorization := [BasicCredentials(c.credentials.value)]];
        request.meta := request.meta.(authProxy := c.origin);
      } else if request.meta.authProxy.Some? {
        if c.origin != request.meta.authProxy {
          if ProxyAuthorization in request.headers {
            request.headers := request.headers - {ProxyAuthorization};
          }
          request.meta := request.meta.(authProxy := None);
        }
      } else if ProxyAuthorization in request.headers {
        if c.origin.Some? {
          request.meta := request.meta.(authProxy := c.origin);
        } else {
          request.headers := request.headers - {ProxyAuthorization};
        }
      }
    }
  }
}
