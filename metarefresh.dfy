/**
 * The meta-refresh variant of the redirect step: an HTML response whose
 * document holds a `<meta http-equiv="refresh">` directive with a short
 * enough interval is replaced by a GET request for the directive's URL.
 * Directives inside the elements named by `METAREFRESH_IGNORE_TAGS` are not
 * looked at.
 */
module Refresh {

  import opened Wrappers
  import opened Encoding
  import opened Urls
  import opened Headers
  import opened Messages
  import opened Redirect

  /** `METAREFRESH_IGNORE_TAGS` and `METAREFRESH_MAXDELAY`. */
  datatype RefreshSettings = RefreshSettings(ignoreTags: set<string>, maxDelay: int)

  /** No element is ignored by default, and intervals below 100 seconds are followed. */
  const DefaultRefreshSettings := RefreshSettings({}, 100)

  /** A directive that sits inside none of the ignored elements. */
  predicate Visible(d: RefreshDirective, ignoreTags: set<string>)
  {
    d.enclosingTags !! ignoreTags
  }

  /** The first directive of the document that is not inside an ignored element. */
  function FirstDirective(ds: seq<RefreshDirective>, ignoreTags: set<string>): (r: Option<RefreshDirective>)
    ensures r.None? <==> forall i :: 0 <= i < |ds| ==> !Visible(ds[i], ignoreTags)
    ensures r.Some? ==>
      exists i :: (0 <= i < |ds| && ds[i] == r.value && Visible(ds[i], ignoreTags) &&
                   forall j :: 0 <= j < i ==> !Visible(ds[j], ignoreTags))
  {
    if ds == [] then None
    else if Visible(ds[0], ignoreTags) then Some(ds[0])
    else
      var r := FirstDirective(ds[1..], ignoreTags);
      assert forall i :: 1 <= i < |ds| ==> ds[i] == ds[1..][i - 1];
      r
  }

  /** `MetaRefreshMiddleware.process_response`, on request values. */
  function RefreshStep(s: Settings, rs: RefreshSettings, req: RequestValue, rsp: Response): Outcome
  {
    if req.meta.dontRedirect || req.verb == "HEAD" || rsp.html.None? then PassThrough
    else match FirstDirective(rsp.html.value, rs.ignoreTags)
      case None => PassThrough
      case Some(d) =>
        if d.interval < rs.maxDelay then Hop(s, req, RetargetUsingGet(req, RefreshTarget(rsp, d)), MetaRefresh)
        else PassThrough
  }

  /** The URL a directive sends the browser to: its URL made URL-safe and resolved against the response's URL. */
  function RefreshTarget(rsp: Response, d: RefreshDirective): Url
  {
    Resolve(rsp.url, PercentEncode(d.url))
  }

  /**
   * The response is handed on exactly when the request opts out or is a
   * HEAD request, when it is not HTML, when no directive is visible, or when
   * the first visible one waits too long.
   */
  lemma RefreshStepPassThrough(s: Settings, rs: RefreshSettings, req: RequestValue, rsp: Response)
    ensures RefreshStep(s, rs, req, rsp).PassThrough? <==>
      || req.meta.dontRedirect || req.verb == "HEAD" || rsp.html.None?
      || FirstDirective(rsp.html.value, rs.ignoreTags).None?
      || FirstDirective(rsp.html.value, rs.ignoreTags).value.interval >= rs.maxDelay
  {
  }

  /**
   * A followed refresh goes to the directive's URL as a GET without a body
   * or body headers, records the hop with the reason "meta refresh", and
   * raises the priority.
   */
  lemma RefreshStepFollow(s: Settings, rs: RefreshSettings, req: RequestValue, rsp: Response)
    requires RefreshStep(s, rs, req, rsp).Follow?
    ensures var n := RefreshStep(s, rs, req, rsp).next;
      && rsp.html.Some? && FirstDirective(rsp.html.value, rs.ignoreTags).Some?
      && n.url == RefreshTarget(rsp, FirstDirective(rsp.html.value, rs.ignoreTags).value)
      && n.verb == "GET" && n.body == []
      && ContentType !in n.headers && ContentLength !in n.headers
      && n.priority == req.priority + s.priorityAdjust
      && n.meta.redirectTimes == req.meta.redirectTimes + 1 <= s.maxRedirectTimes
      && n.meta.redirectTtl == Some(Ttl(s, req.meta) - 1)
      && n.meta.redirectUrls == req.meta.redirectUrls + [req.url]
      && n.meta.redirectReasons == req.meta.redirectReasons + [MetaRefresh]
  {
  }

  /**
   * A followed refresh carries every header of the original with its values,
   * except Content-Type and Content-Length and those a hop to the target's
   * host or scheme removes.
   */
  lemma RefreshStepHeaders(s: Settings, rs: RefreshSettings, req: RequestValue, rsp: Response)
    requires RefreshStep(s, rs, req, rsp).Follow?
    ensures var n := RefreshStep(s, rs, req, rsp).next;
      && rsp.html.Some? && FirstDirective(rsp.html.value, rs.ignoreTags).Some?
      && var target := RefreshTarget(rsp, FirstDirective(rsp.html.value, rs.ignoreTags).value);
      n.headers == Drop(req.headers, DroppedHeaders(req, target, false))
  {
    RetargetHeaders(req, RefreshTarget(rsp, FirstDirective(rsp.html.value, rs.ignoreTags).value), false);
  }

  /** A visible refresh with a short interval is refused exactly when the TTL is spent or the maximum is reached. */
  lemma RefreshStepIgnored(s: Settings, rs: RefreshSettings, req: RequestValue, rsp: Response)
    requires !RefreshStep(s, rs, req, rsp).PassThrough?
    ensures RefreshStep(s, rs, req, rsp).Ignored? <==>
      Ttl(s, req.meta) == 0 || req.meta.redirectTimes + 1 > s.maxRedirectTimes
  {
  }

  /** With no ignored elements the first directive of the document is the one used, wherever it sits. */
  lemma {:induction false} NothingIgnoredByDefault(ds: seq<RefreshDirective>)
    requires |ds| > 0
    ensures FirstDirective(ds, DefaultRefreshSettings.ignoreTags) == Some(ds[0])
  {
  }

  /** A document whose every directive is inside an ignored element is handed on. */
  lemma IgnoredDirectivesPassThrough(s: Settings, rs: RefreshSettings, req: RequestValue, rsp: Response)
    requires rsp.html.Some?
    requires forall i :: 0 <= i < |rsp.html.value| ==> rsp.html.value[i].enclosingTags * rs.ignoreTags != {}
    ensures RefreshStep(s, rs, req, rsp).PassThrough?
  {
    assert forall i :: 0 <= i < |rsp.html.value| ==> !Visible(rsp.html.value[i], rs.ignoreTags);
  }
}
