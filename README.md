# Scrapy's redirect middlewares, modelled in Dafny

This project models how Scrapy's two redirect downloader middlewares follow
redirects, and how they hand a request's proxy over to the proxy middleware
along the way. The two redirect middlewares are `RedirectMiddleware`, which
follows 3xx responses, and `MetaRefreshMiddleware`, which follows
`<meta http-equiv="refresh">` directives. The proxy middleware is
`HttpProxyMiddleware`. Its source here is the behaviour fixed by the
middleware's unit test module `tests/test_downloadermiddleware_redirect.py`.
Every shared test of `Base.Test` runs against both middlewares, and the model
states each shared test for both.

The layout follows the program's structure:

- `wrappers.dfy`: `Option`.
- `encoding.dfy`: how the `Location` bytes become a URL string.
  - UTF-8 is tried first, with Latin-1 as the fallback.
  - Non-ASCII bytes are then percent-encoded.
- `urls.dfy`: URLs as scheme, host and path.
  - `Resolve` resolves a reference against a base, following the cases of section 5.2.2 of RFC 3986 that a `scheme://` URL model can express, without dot-segment removal.
  - It handles `scheme://` absolute references and network-path, absolute-path, query-only, fragment-only, relative-path and empty references.
  - A reference with a scheme but no `//` is not recognised as absolute (see "## Left out").
  - `Parse` and `ToString` are inverses of each other.
- `headers.dfy`: the header table.
- `messages.dfy`: the messages.
  - Request metadata (`redirect_times`, `redirect_ttl`, `redirect_urls`, `redirect_reasons`, `proxy`, `_auth_proxy`, `_scheme_proxy`, `dont_redirect`, `handle_httpstatus_*`).
  - Responses.
  - The `Request` object. The proxy middleware updates its headers and meta in place.
- `httpproxy.dfy`: `HttpProxyMiddleware.process_request`.
  - As the function `Select` on request values.
  - As the method `ProcessRequest`, which updates a `Request` object in place and is proved equal to `Select`.
- `redirect.dfy`: the redirect step of `RedirectMiddleware` (`HttpStep`): pass-through, refusal (`IgnoreRequest`), or a follow-up request. It covers:
  - the pass-through conditions;
  - how the method and body are rewritten;
  - the hop bookkeeping;
  - the priority adjustment;
  - header dropping on a change of host;
  - dropping an environment proxy on a change of scheme.
- `metarefresh.dfy`: the step of `MetaRefreshMiddleware` (`RefreshStep`). The refresh directives of an HTML document are abstract inputs: interval, URL and enclosing elements.
- `middleware.dfy`: the two middlewares as objects. `max_redirect_times` is a field that may be reassigned. `ProcessResponse` is proved to realise the step function, creating a fresh request object for a followed redirect.
- `chain.dfy`: chains of redirects, as in the proxy tests.
  - `Chain` (values) alternates a redirect step with a proxy step.
  - `FollowRedirects` is the loop on the objects, proved equal to `Chain`.
  - Invariants over any number of hops: hop counting, and how meta and environment proxies travel.
- `scenarios.dfy`, `sessions.dfy` and `refreshscenarios.dfy`: the concrete inputs of the tests and what they assert, as lemmas, plus methods on the middleware objects.

Where a plain reading of the middleware's documentation and the tests differ,
the model follows the tests:

- A proxy named in the request meta keeps its `Proxy-Authorization` header, `proxy` and `_auth_proxy` on a hop to another scheme (lines 310-392). Only a proxy taken from the environment is dropped on a change of scheme.
- `METAREFRESH_IGNORE_TAGS` is empty by default, so a directive inside `<noscript>` is followed (lines 1100-1109). The earlier default of `script` and `noscript` has to be configured (lines 1111-1123).

## Model

| member | source | states |
|---|---|---|
| Redirect.HttpStepPassThrough | tests/test_downloadermiddleware_redirect.py:23-38 | the response is handed on iff `dont_redirect` is set, the spider or the meta handles the status (or all statuses), there is no `Location`, or the status is not 301/302/303/307/308 |
| Redirect.HttpStepIgnored | tests/test_downloadermiddleware_redirect.py:63-85 | a redirect not opted out of raises IgnoreRequest iff the TTL is spent or one more hop would pass `max_redirect_times` |
| Redirect.HttpStepFollow | tests/test_downloadermiddleware_redirect.py:87-111 | a followed redirect goes to the resolved Location, counts one more hop, uses one unit of TTL, appends the old URL to `redirect_urls` and the status to `redirect_reasons`, and raises the priority by the adjustment |
| Redirect.HttpStepKeepsOptOut | tests/test_downloadermiddleware_redirect.py:23-38 | `dont_redirect` and the `handle_httpstatus_*` entries travel unchanged with the follow-up request |
| Redirect.HttpStepKeepsMethod | tests/test_downloadermiddleware_redirect.py:942-979 | 301, 307 and 308, and any redirect of a HEAD request, keep the method and the body |
| Redirect.HttpStepUsesGet | tests/test_downloadermiddleware_redirect.py:40-61 | a 302 of a non-HEAD request becomes a GET with empty body and without Content-Type and Content-Length |
| Redirect.HttpStepHeaders | tests/test_downloadermiddleware_redirect.py:113-140 | the follow-up request has exactly the original headers minus Cookie/Authorization on a host change, Proxy-Authorization when an environment proxy loses its scheme, and the body headers when switching to GET |
| Redirect.HttpStepKeepsProxy | tests/test_downloadermiddleware_redirect.py:142-392 | when no environment proxy loses its scheme, `proxy`, `_auth_proxy`, `_scheme_proxy` and the Proxy-Authorization header are carried over unchanged |
| Redirect.HttpStepDropsSchemeProxy | tests/test_downloadermiddleware_redirect.py:574-619 | an environment proxy moving to another scheme is dropped together with `_auth_proxy` and Proxy-Authorization |
| Redirect.Retarget | tests/test_downloadermiddleware_redirect.py:113-140 | the re-targeted request keeps method, body, priority and every header not dropped (with its values); its meta changes only in the proxy entries, and only when a scheme proxy is lost |
| Redirect.RetargetUsingGet | tests/test_downloadermiddleware_redirect.py:40-61 | the GET re-issue has no body, no Content-Type or Content-Length, and otherwise the headers and meta of the plain re-target |
| Redirect.Hop | tests/test_downloadermiddleware_redirect.py:63-111 | a hop is refused iff the TTL is 0 or the count would pass the maximum; otherwise it records the hop count, TTL, URL history and reason, raises the priority, and changes nothing else |
| Redirect.AbsoluteLocation | tests/test_downloadermiddleware_redirect.py:942-979 | an absolute ASCII URL in Location is the target as it stands |
| Redirect.AbsolutePathLocation | tests/test_downloadermiddleware_redirect.py:63-74 | an absolute path in Location keeps the request's scheme and host |
| Redirect.SchemeRelativeLocation | tests/test_downloadermiddleware_redirect.py:981-991 | a Location of two or more slashes names a host under the request's scheme, however many slashes lead it |
| Redirect.SafePathLocation | tests/test_downloadermiddleware_redirect.py:1017-1039 | a Location whose URL-safe form is an absolute path is resolved to that path on the request's host |
| Redirect.HttpStepAdmitted | tests/test_downloadermiddleware_redirect.py:87-102 | a redirect not opted out of, with TTL left and below the maximum, is followed to the resolved target |
| Encoding.EncodeChar | tests/test_downloadermiddleware_redirect.py:1029-1039 | UTF-8 encoding of a character: 1 to 4 bytes, one byte exactly for ASCII, a valid lead byte and continuation bytes |
| Encoding.DecodeUtf8 | tests/test_downloadermiddleware_redirect.py:1017-1039 | a successful UTF-8 decoding encodes back to the input bytes |
| Encoding.DecodeEncodeUtf8 | tests/test_downloadermiddleware_redirect.py:1029-1039 | decoding the UTF-8 encoding of any string gives the string back |
| Encoding.Latin1Decode | tests/test_downloadermiddleware_redirect.py:1017-1027 | the Latin-1 decoding maps every byte to the character with the same code |
| Encoding.Latin1RoundTrip | tests/test_downloadermiddleware_redirect.py:1017-1027 | Latin-1 decoded text encodes back to the original bytes |
| Encoding.DecodeHeader | tests/test_downloadermiddleware_redirect.py:1017-1039 | header bytes are read as UTF-8 iff they are valid UTF-8, and as Latin-1 otherwise; the text encodes back to the bytes in the charset used |
| Encoding.PercentEncodeBytes | tests/test_downloadermiddleware_redirect.py:1017-1039 | the percent-encoded form is ASCII and no shorter than the bytes |
| Encoding.PercentEncodeInIsBytewise | tests/test_downloadermiddleware_redirect.py:1017-1039 | percent-encoding text in a charset is percent-encoding its encoded bytes |
| Encoding.SafeLocationIsBytewise | tests/test_downloadermiddleware_redirect.py:1017-1039 | the URL-safe form of a Location is the byte-wise `%XX` encoding of its raw bytes, whichever charset decoded them, and is ASCII |
| Encoding.AsciiBytesUnchanged | tests/test_downloadermiddleware_redirect.py:87-102 | an ASCII Location is used as it is |
| Encoding.PercentEncodeAscii | tests/test_downloadermiddleware_redirect.py:1063-1068 | percent-encoding leaves ASCII text unchanged |
| Encoding.PercentEncodeIdempotent | tests/test_downloadermiddleware_redirect.py:1017-1039 | percent-encoding an already encoded URL changes nothing |
| Urls.Parse | tests/test_downloadermiddleware_redirect.py:942-968 | a parsed URL is well formed and prints back as the input |
| Urls.ParseToString | tests/test_downloadermiddleware_redirect.py:942-968 | a well-formed URL is parsed back from its string form |
| Urls.SplitAuthority | tests/test_downloadermiddleware_redirect.py:981-991 | the authority split keeps the scheme, splits the rest into host and path and is well formed for a valid scheme |
| Urls.Resolve | tests/test_downloadermiddleware_redirect.py:87-102 | an absolute reference replaces the base; an absolute path keeps the base scheme and host; an empty reference is the base; a valid base gives a valid result |
| Urls.ResolveQuery | tests/test_downloadermiddleware_redirect.py:87-102 | against a base path written as `path + rest`, with no `?` or `#` in `path` and `rest` empty or starting with `?` or `#`, a `?query` reference gives `path?query`: the path is kept and the query and fragment replaced |
| Urls.ResolveFragment | tests/test_downloadermiddleware_redirect.py:87-102 | against a base path written as `path + rest`, with no `#` in `path` and `rest` empty or starting with `#`, a `#fragment` reference gives `path#fragment`: path and query are kept and only the fragment replaced |
| Urls.ResolveRelativePath | tests/test_downloadermiddleware_redirect.py:87-102 | against a base path written as `dir + segment + rest`, with `dir` ending in `/`, no `/` in `segment`, no `?` or `#` before `rest`, and `rest` empty or starting with `?` or `#`, a relative-path reference `ref` gives `dir + ref` |
| Urls.QueryAgainstPath | tests/test_downloadermiddleware_redirect.py:87-102 | `?q` against a path without query or fragment, such as `/b/c`, gives that path followed by `?q` |
| Urls.FragmentAgainstQuery | tests/test_downloadermiddleware_redirect.py:87-102 | `#f` against a path with a query and no fragment, such as `/b/c?x`, gives `/b/c?x#f` |
| Urls.RelativeAgainstQuery | tests/test_downloadermiddleware_redirect.py:87-102 | a relative reference against `/segment?query` gives `/` plus the reference, even when the query holds a `/` |
| Urls.ResolveNetworkPath | tests/test_downloadermiddleware_redirect.py:981-991 | a `//host/path` reference keeps the base scheme and takes host and path from the reference |
| Scenarios.Latin1Location | tests/test_downloadermiddleware_redirect.py:1017-1027 | the Latin-1 bytes of `/ação` are not UTF-8, are decoded as Latin-1, and become `/a%E7%E3o` |
| Scenarios.Latin1LocationRedirect | tests/test_downloadermiddleware_redirect.py:1017-1027 | the Latin-1 Location test redirects to `http://scrapytest.org/a%E7%E3o` |
| Scenarios.Utf8Location | tests/test_downloadermiddleware_redirect.py:1029-1039 | the UTF-8 bytes of `/ação` are decoded as UTF-8 and become `/a%C3%A7%C3%A3o` |
| Scenarios.Utf8LocationRedirect | tests/test_downloadermiddleware_redirect.py:1029-1039 | the UTF-8 Location test redirects to `http://scrapytest.org/a%C3%A7%C3%A3o` |
| Scenarios.DontRedirect | tests/test_downloadermiddleware_redirect.py:23-38 | with `dont_redirect` true a response of any redirect status (the test's is the default 302) is handed on; with it false it is followed |
| Scenarios.HandledStatuses | tests/test_downloadermiddleware_redirect.py:993-1015 | a 301 is handed on when the spider's or the meta's `handle_httpstatus_list` holds it, or `handle_httpstatus_all` is set |
| Scenarios.NoLocation | tests/test_downloadermiddleware_redirect.py:1041-1044 | a response without Location is handed on, whatever the status and method |
| Scenarios.PermanentRedirect | tests/test_downloadermiddleware_redirect.py:942-968 | 301, 307 and 308 of GET, POST or HEAD go to the absolute Location with the same method |
| Scenarios.HeadFound | tests/test_downloadermiddleware_redirect.py:970-979 | a 302 of a HEAD request goes to the Location and stays HEAD |
| Scenarios.PostFound | tests/test_downloadermiddleware_redirect.py:40-61 | a 302 of a POST goes to the Location as a GET with no body, Content-Type or Content-Length |
| Scenarios.TripleSlashLocation | tests/test_downloadermiddleware_redirect.py:981-991 | `///host/path` from an http request goes to `http://host/path` and stays HEAD |
| Scenarios.FoundFromGet | tests/test_downloadermiddleware_redirect.py:113-140 | a 302 of a fresh GET goes to the absolute target and keeps exactly the headers not dropped for that target |
| Scenarios.SameHostKeepsHeaders | tests/test_downloadermiddleware_redirect.py:113-127 | a 302 to the same host keeps Cookie, Authorization and the other header |
| Scenarios.OtherHostDropsCredentials | tests/test_downloadermiddleware_redirect.py:129-140 | a 302 to another host leaves only the header `A: B` |
| Sessions.MaxRedirectTimesHops | tests/test_downloadermiddleware_redirect.py:63-74 | with a maximum of one hop, `/redirected` is followed with `redirect_times` 1, and the same response is then refused |
| Sessions.MaxRedirectTimesSession | tests/test_downloadermiddleware_redirect.py:63-74 | the same on the middleware object with `max_redirect_times` reassigned to 1: a new request, then IgnoreRequest |
| Sessions.TtlHops | tests/test_downloadermiddleware_redirect.py:76-85 | a request with `redirect_ttl` 1 is followed once with no TTL left, then refused although the maximum is 100 |
| Sessions.TtlSession | tests/test_downloadermiddleware_redirect.py:76-85 | the same on the middleware object with `max_redirect_times` reassigned to 100 |
| Sessions.HistoryHops | tests/test_downloadermiddleware_redirect.py:87-111 | two redirects record `redirect_urls` `[first]`, then `[first, redirected]`, and reasons `[302]`, then `[302, 302]` |
| Sessions.HistorySession | tests/test_downloadermiddleware_redirect.py:87-111 | the same on the middleware object |
| Sessions.FoundAdmitted | tests/test_downloadermiddleware_redirect.py:156-173 | a 302 whose Location is an absolute URL, or an absolute path on the request's host, of a request with a hop left is followed there, counting the hop and keeping the opt-out entries |
| Sessions.RelativeProxyLocations | tests/test_downloadermiddleware_redirect.py:184-224 | the relative proxy tests' Location `/a` leads from the request URL to its `/a`, and from there to the same URL |
| Sessions.ProxyTestHopsFollowed | tests/test_downloadermiddleware_redirect.py:142-926 | both redirects of every proxy test are followed, to the two targets, whatever proxy the request has and whether each Location is an absolute URL or an absolute path (the `_relative` tests) |
| Sessions.MetaProxyTest | tests/test_downloadermiddleware_redirect.py:142-392 | a meta proxy with credentials gets its Proxy-Authorization, `proxy` and `_auth_proxy` at the first proxy step and keeps all three after each redirect and proxy step, including http to https and back |
| Sessions.EnvironmentProxyTest | tests/test_downloadermiddleware_redirect.py:394-926 | with no meta proxy, after each redirect and proxy step the request uses the environment's proxy for its current scheme with its credentials, or no proxy at all |
| HttpProxy.Choose | tests/test_downloadermiddleware_redirect.py:394-438 | the environment's proxy is used iff the meta names no proxy and the environment has one for the scheme; credentials always come with an origin |
| HttpProxy.Select | tests/test_downloadermiddleware_redirect.py:146-154 | the proxy step changes only the proxy entries and Proxy-Authorization, leaves no stale credentials, and sets `_scheme_proxy` iff the environment supplied the proxy |
| HttpProxy.SelectFromMeta | tests/test_downloadermiddleware_redirect.py:146-154 | a meta proxy with credentials becomes the origin alone, with `Basic <credentials>` in Proxy-Authorization and `_auth_proxy` set; a request already in that state is left alone |
| HttpProxy.SelectFromEnvironment | tests/test_downloadermiddleware_redirect.py:394-412 | with no meta proxy, the environment's proxy for the scheme is installed with its credentials and `_scheme_proxy` is set |
| HttpProxy.SelectNoProxy | tests/test_downloadermiddleware_redirect.py:620-664 | with no proxy anywhere for the scheme, the request carries no proxy, no `_auth_proxy` and no Proxy-Authorization |
| HttpProxy.SelectSettles | tests/test_downloadermiddleware_redirect.py:163-168 | after the proxy step the request is settled: final proxy entry without credentials, header and `_auth_proxy` consistent with it |
| HttpProxy.SelectKeepsSettled | tests/test_downloadermiddleware_redirect.py:163-168 | the proxy step changes nothing in a settled request |
| HttpProxy.SelectIdempotent | tests/test_downloadermiddleware_redirect.py:163-182 | running the proxy step twice is running it once |
| HttpProxy.HttpProxyMiddleware.ProcessRequest | tests/test_downloadermiddleware_redirect.py:146-154 | updates the request object in place to exactly `Select` of its old value |
| HttpProxy.HttpProxyMiddleware.constructor | tests/test_downloadermiddleware_redirect.py:577-582 | the middleware holds the environment's proxies by scheme |
| Refresh.FirstDirective | tests/test_downloadermiddleware_redirect.py:1100-1123 | None iff every directive is inside an ignored element; otherwise the earliest visible directive |
| Refresh.RefreshStepPassThrough | tests/test_downloadermiddleware_redirect.py:1070-1077 | the page is handed on iff `dont_redirect` is set, the request is HEAD, the response is not HTML, no directive is visible, or the first visible one waits the maximum delay or longer |
| Refresh.RefreshStepFollow | tests/test_downloadermiddleware_redirect.py:1079-1098 | a followed refresh goes to the directive's URL as a GET without body or body headers, counts the hop, uses one unit of TTL, records the URL and "meta refresh", and raises the priority |
| Refresh.RefreshStepHeaders | tests/test_downloadermiddleware_redirect.py:113-140 | a followed refresh keeps exactly the headers not dropped for its target and for GET |
| Refresh.RefreshStepIgnored | tests/test_downloadermiddleware_redirect.py:63-85 | a visible, short refresh is refused iff the TTL is spent or the maximum is reached |
| Refresh.NothingIgnoredByDefault | tests/test_downloadermiddleware_redirect.py:1100-1109 | with the default settings the first directive is used wherever it sits |
| Refresh.IgnoredDirectivesPassThrough | tests/test_downloadermiddleware_redirect.py:1111-1123 | a page whose every directive is inside an ignored element is handed on |
| RefreshScenarios.AbsoluteRefreshTarget | tests/test_downloadermiddleware_redirect.py:1063-1068 | an absolute ASCII URL in a directive is the target as it stands |
| RefreshScenarios.AbsolutePathRefreshTarget | tests/test_downloadermiddleware_redirect.py:63-74 | an absolute path in a directive keeps the page's scheme and host |
| RefreshScenarios.PriorityRaised | tests/test_downloadermiddleware_redirect.py:17-21 | for both middlewares the follow-up request's priority is above the original's |
| RefreshScenarios.RefreshDontRedirect | tests/test_downloadermiddleware_redirect.py:23-38 | a refresh page is handed on with `dont_redirect` true and followed with it false |
| RefreshScenarios.MetaRefreshFollowed | tests/test_downloadermiddleware_redirect.py:1063-1068 | a five-second refresh goes to the directive's absolute URL |
| RefreshScenarios.HighIntervalPassThrough | tests/test_downloadermiddleware_redirect.py:1070-1077 | a 1000-second refresh is handed on |
| RefreshScenarios.PostedRefresh | tests/test_downloadermiddleware_redirect.py:1079-1098 | a refreshed POST goes to the URL as a GET without body, Content-Type or Content-Length |
| RefreshScenarios.NoscriptFollowedByDefault | tests/test_downloadermiddleware_redirect.py:1100-1109 | by default a directive inside `<noscript>` is followed |
| RefreshScenarios.NoscriptIgnored | tests/test_downloadermiddleware_redirect.py:1111-1123 | with `script` and `noscript` ignored the same page is handed on |
| RefreshScenarios.RefreshMaxRedirectTimesHops | tests/test_downloadermiddleware_redirect.py:63-74 | with a maximum of one hop the refresh is followed with `redirect_times` 1, then refused |
| RefreshScenarios.RefreshMaxRedirectTimesSession | tests/test_downloadermiddleware_redirect.py:63-74 | the same on the meta-refresh middleware object with `max_redirect_times` reassigned |
| RefreshScenarios.RefreshTtlHops | tests/test_downloadermiddleware_redirect.py:76-85 | with `redirect_ttl` 1 the refresh is followed once with no TTL left, then refused |
| RefreshScenarios.RefreshTtlSession | tests/test_downloadermiddleware_redirect.py:76-85 | the same on the meta-refresh middleware object |
| RefreshScenarios.RefreshHistoryHops | tests/test_downloadermiddleware_redirect.py:87-111 | two refreshes record both URLs they came through and "meta refresh" once per hop |
| RefreshScenarios.RefreshHistorySession | tests/test_downloadermiddleware_redirect.py:87-111 | the same on the meta-refresh middleware object |
| RefreshScenarios.RefreshFromGet | tests/test_downloadermiddleware_redirect.py:113-140 | a refresh of a fresh GET goes to the absolute URL and keeps exactly the headers not dropped for it |
| RefreshScenarios.RefreshSameHostKeepsHeaders | tests/test_downloadermiddleware_redirect.py:113-127 | a refresh to the same host keeps every header |
| RefreshScenarios.RefreshOtherHostDropsCredentials | tests/test_downloadermiddleware_redirect.py:129-140 | a refresh to another host leaves only `A: B` |
| RefreshScenarios.RefreshProxyTestHopsFollowed | tests/test_downloadermiddleware_redirect.py:142-926 | both refreshes of every proxy test are followed, to the two targets, whether each directive URL is an absolute URL or an absolute path (the `_relative` tests) |
| RefreshScenarios.RefreshMetaProxyTest | tests/test_downloadermiddleware_redirect.py:142-392 | the meta proxy tests on the meta-refresh middleware: proxy entries and header kept through both refreshes |
| RefreshScenarios.RefreshEnvironmentProxyTest | tests/test_downloadermiddleware_redirect.py:394-926 | the environment proxy tests on the meta-refresh middleware: after each step the proxy is the environment's for the current scheme |
| Middlewares.Realise | tests/test_downloadermiddleware_redirect.py:28-38 | the reply carries out the outcome: the same response, IgnoreRequest, or a fresh request object holding the follow-up value |
| Middlewares.RedirectMiddleware.constructor | tests/test_downloadermiddleware_redirect.py:933-936 | the middleware starts with the given `max_redirect_times` and priority adjustment |
| Middlewares.RedirectMiddleware.ProcessResponse | tests/test_downloadermiddleware_redirect.py:942-1044 | the reply realises `HttpStep` under the current settings; a new request is a fresh object |
| Middlewares.MetaRefreshMiddleware.constructor | tests/test_downloadermiddleware_redirect.py:1111-1116 | the middleware starts with the given redirect and refresh settings |
| Middlewares.MetaRefreshMiddleware.ProcessResponse | tests/test_downloadermiddleware_redirect.py:1063-1123 | the reply realises `RefreshStep` under the current settings; a new request is a fresh object |
| Chains.FollowRedirects | tests/test_downloadermiddleware_redirect.py:146-182 | the loop of proxy step, redirect, proxy step, … on objects ends with a request iff `Chain` does, holding exactly its value; the first request is left holding exactly the first proxy step's result |
| Chains.ContinueCounts | tests/test_downloadermiddleware_redirect.py:63-111 | a chain that follows every response adds one hop per response to the count and to both histories, never past the maximum |
| Chains.StepFollow | tests/test_downloadermiddleware_redirect.py:87-111 | every followed hop of either middleware counts one hop, one reason and the old URL |
| Chains.ChainBounded | tests/test_downloadermiddleware_redirect.py:63-74 | a fresh request followed through a chain takes at most `max_redirect_times` hops and keeps its history aligned with its count |
| Chains.StepKeepsMetaProxy | tests/test_downloadermiddleware_redirect.py:310-351 | one hop of either middleware keeps a meta proxy with its credentials, whether or not the scheme changes |
| Chains.ContinueKeepsMetaProxy | tests/test_downloadermiddleware_redirect.py:142-392 | the meta proxy state survives any chain of hops and proxy steps |
| Chains.ChainKeepsMetaProxy | tests/test_downloadermiddleware_redirect.py:142-392 | from a request naming a proxy with credentials, every chain ends with that proxy, `_auth_proxy` and header |
| Chains.SelectUnproxied | tests/test_downloadermiddleware_redirect.py:394-412 | the proxy step gives a request without proxy entries the environment's proxy for its scheme, or none |
| Chains.StepEnvironmentProxy | tests/test_downloadermiddleware_redirect.py:574-619 | a hop keeps the environment proxy on the same scheme and leaves the request without proxy entries on another |
| Chains.ContinueUsesEnvironmentProxy | tests/test_downloadermiddleware_redirect.py:394-926 | after every proxy step of a chain the request uses the environment's proxy for its current scheme |
| Chains.ChainUsesEnvironmentProxy | tests/test_downloadermiddleware_redirect.py:394-926 | from a request without proxy entries, every chain ends using the environment's proxy for the final scheme |

## Left out

- The implementation modules of the three middlewares are not part of this model. The behaviour modelled is the behaviour their test module fixes.
- HTML parsing: a response's refresh directives are an input. Each gives the interval, the directive's URL with surrounding quotes and spaces removed, and the enclosing elements, in document order. Finding the tags and trimming the URL are the parsing left out.
- Base64 in `Proxy-Authorization`: the header value is `BasicCredentials(userinfo)`, a constructor standing for `Basic <base64 of userinfo>`.
- Reading the environment: the environment's proxies are a table from scheme to proxy, given to the proxy middleware's constructor. `no_proxy` and proxy bypass are not modelled.
- Crawler, settings and spider construction; `METAREFRESH_ENABLED` and `REDIRECT_ENABLED`; the unittest harness.
- `Redirect.Ttl`: the write-back of `redirect_ttl` into the incoming request's meta (a `setdefault`) is not modelled. Only the follow-up request's TTL is.
- `dont_filter` on the follow-up request, and the response object attached to it.
- `Urls.Resolve`: only a reference starting `scheme://` is taken as absolute. A reference with a scheme and no `//`, such as `mailto:x` or `http:g`, is merged as a relative path. RFC 3986 uses `mailto:x` as it stands, and urljoin reads `http:g` as the same-scheme relative `g`. The `Url` datatype has no form for a URL without an authority.
- `Redirect.Retarget`: the host-change check compares the whole host strings. A difference only in port, user info or letter case therefore also drops Cookie and Authorization. It is not established here whether the middleware compares parsed host names instead.
- URLs are scheme, host and path. Ports and user info are part of the host string; query and fragment are part of the path string. The host ends at the first `/`, `?` or `#`. No dot-segment removal and no case normalisation.
- Percent-encoding covers non-ASCII bytes only. ASCII characters that a browser would also escape, such as space, are left as they are.
- `Redirect.HttpStep`: 303 counts as a redirect status and is rewritten to GET like 302. No lemma states the 303 rewrite, since the tests do not exercise it. Targets with schemes other than http and https are not treated specially.
- A `Location` header with several values: the model takes one value.
- `Refresh.RefreshStep`: the refresh interval is a whole number of seconds. A fractional interval is not modelled.
- Header names are compared as given, taken to be written in one case. Case-insensitive lookup is not modelled.
- `Chains.FollowRedirects` runs the loop for `RedirectMiddleware` objects. For `MetaRefreshMiddleware` the chains are stated on values through `Chain` with the refresh variant.
- `Sessions.ProxyTestHopsFollowed` and the proxy test lemmas state the requests after each full redirect-and-proxy step. The request between a redirect and the next proxy step is stated by the one-hop lemmas: `Chains.StepKeepsMetaProxy`, `Chains.StepEnvironmentProxy`, `Redirect.HttpStepKeepsProxy` and `Redirect.HttpStepDropsSchemeProxy`.
