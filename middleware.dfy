/**
 * The two redirect middlewares as objects. Each holds its settings, of which
 * `max_redirect_times` may be reassigned after the middleware is made, and
 * answers a response with the reply its step function prescribes, creating a
 * new request object for a followed redirect and changing nothing else.
 */
module Middlewares {

  import opened Wrappers
  import opened Messages
  import opened Redirect
  import opened Refresh

  /** What `process_response` returns: the response itself, a new request, or the `IgnoreRequest` exception. */
  datatype Reply = SameResponse | NewRequest(request: Request) | IgnoreRequest

  /** `reply` is the reply that carries out `o`. */
  ghost predicate Realises(reply: Reply, o: Outcome)
    reads if reply.NewRequest? then {reply.request} else {}
  {
    match o
    case PassThrough => reply.SameResponse?
    case Ignored => reply.IgnoreRequest?
    case Follow(next) => reply.NewRequest? && reply.request.Value() == next
  }

  /** Carries out an outcome, making the follow-up request a new object. */
  method Realise(o: Outcome) returns (reply: Reply)
    ensures Realises(reply, o)
    ensures reply.NewRequest? ==> fresh(reply.request)
  {
    match o
    case PassThrough => reply := SameResponse;
    case Ignored => reply := IgnoreRequest;
    case Follow(next) =>
      var r := new Request(next);
      reply := NewRequest(r);
  }

  class RedirectMiddleware {
    var maxRedirectTimes: int
    const priorityAdjust: int

    constructor (s: Settings)
      ensures Config() == s
    {
      maxRedirectTimes, priorityAdjust := s.maxRedirectTimes, s.priorityAdjust;
    }

    /** The settings in force now. */
    function Config(): Settings
      reads this
    {
      Settings(maxRedirectTimes, priorityAdjust)
    }

    /** `process_response`; `spiderHandled` is the spider's `handle_httpstatus_list`. */
    method ProcessResponse(request: Request, response: Response, spiderHandled: seq<int>) returns (reply: Reply)
      ensures Realises(reply, HttpStep(Config(), spiderHandled, request.Value(), response))
      ensures reply.NewRequest? ==> fresh(reply.request)
    {
      reply := Realise(HttpStep(Config(), spiderHandled, request.Value(), response));
    }
  }

  class MetaRefreshMiddleware {
    var maxRedirectTimes: int
    const priorityAdjust: int
    const refresh: RefreshSettings

    constructor (s: Settings, rs: RefreshSettings)
      ensures Config() == s && refresh == rs
    {
      maxRedirectTimes, priorityAdjust, refresh := s.maxRedirectTimes, s.priorityAdjust, rs;
    }

    /** The redirect settings in force now. */
    function Config(): Settings
      reads this
    {
      Settings(maxRedirectTimes, priorityAdjust)
    }

    /** `process_response` of the meta-refresh middleware. */
    method ProcessResponse(request: Request, response: Response) returns (reply: Reply)
      ensures Realises(reply, RefreshStep(Config(), refresh, request.Value(), response))
      ensures reply.NewRequest? ==> fresh(reply.request)
    {
      reply := Realise(RefreshStep(Config(), refresh, request.Value(), response));
    }
  }
}
