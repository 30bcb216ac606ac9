/**
 * The requests and responses the middlewares work on, and the request
 * metadata they read and write: the redirect bookkeeping (`redirect_times`,
 * `redirect_ttl`, `redirect_urls`, `redirect_reasons`), the opt-outs
 * (`dont_redirect`, `handle_httpstatus_list`, `handle_httpstatus_all`) and
 * the proxy entries (`proxy`, `_auth_proxy`, and whether the proxy was chosen
 * from the environment for the URL's scheme).
 */
module Messages {

  import opened Wrappers
  import opened Encoding
  import opened Urls
  import opened Headers

  /** A proxy URL: its origin (`scheme://host[:port]`) and the `user:password` it embeds, if any. */
  datatype ProxyUrl = ProxyUrl(origin: string, credentials: Option<string>)

  /** The `proxy` meta entry: absent, set to None (no proxy wanted), or a proxy URL. */
  datatype ProxySetting = Unset | Disabled | Via(url: ProxyUrl)

  /** What triggered a hop: the HTTP status, or the literal reason of a meta refresh. */
  datatype Reason = Status(code: int) | MetaRefresh

  datatype Meta = Meta(
    dontRedirect: bool,
    handleHttpStatusList: seq<int>,
    handleHttpStatusAll: bool,
    redirectTimes: int,          // absent counts as 0
    redirectTtl: Option<int>,
    redirectUrls: seq<Url>,
    redirectReasons: seq<Reason>,
    proxy: ProxySetting,
    authProxy: Option<string>,   // `_auth_proxy`: the proxy origin the Proxy-Authorization header was made for
    schemeProxy: bool            // the proxy was taken from the environment for the URL's scheme
  )

  /** The metadata of a request created without any. */
  const NoMeta := Meta(false, [], false, 0, None, [], [], Unset, None, false)

  /** The state of a request at one moment. */
  datatype RequestValue = RequestValue(
    url: Url,
    verb: string,                // the HTTP method
    headers: Table,
    body: seq<byte>,
    priority: int,
    meta: Meta
  )

  /**
   * A `<meta http-equiv="refresh">` directive found in a document: its interval
   * in seconds, its URL as written, and the names of the elements it sits in.
   */
  datatype RefreshDirective = RefreshDirective(interval: int, url: string, enclosingTags: set<string>)

  /**
   * A downloaded response: the URL it was fetched from, its status, the bytes
   * of its `Location` header if it has one, and, for an HTML response, the
   * refresh directives of its document in document order (None for a response
   * that is not HTML).
   */
  datatype Response = Response(url: Url, status: int, location: Option<seq<byte>>, html: Option<seq<RefreshDirective>>)

  /**
   * A request object. Its URL, method, body and priority are fixed when it is
   * made; its headers and its metadata are updated in place by the proxy
   * middleware.
   */
  class Request {
    const url: Url
    const verb: string      // the HTTP method
    const body: seq<byte>
    const priority: int
    var headers: Table
    var meta: Meta

    constructor (v: RequestValue)
      ensures Value() == v
    {
      url, verb, body, priority := v.url, v.verb, v.body, v.priority;
      headers, meta := v.headers, v.meta;
    }

    function Value(): RequestValue
      reads this
    {
      RequestValue(url, verb, headers, body, priority, meta)
    }
  }
}
