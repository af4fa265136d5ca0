/**
 * Request logging (log_request.go): the middleware that derives a logger
 * carrying the request's details and stores it in the request context,
 * and the lookup handlers use to get it back. The log line itself is
 * output and is left out.
 */
module RequestLog {
  import opened Optional
  import opened GoContext
  import opened Http
  import Utils
  import RequestId

  /** loggerKey: the value 0 of type LoggerKey. */
  const LoggerKey := Key(LoggerKeyType, 0)

  /**
   * Logger(ctx): the *slog.Logger stored under loggerKey, or the default
   * logger for a nil context, a missing key or a value of another type.
   */
  function Logger(ctx: Context): (l: GoContext.Logger)
    ensures ctx.Nil? ==> l == DefaultLogger
    ensures ctx.Ctx? && Lookup(ctx, LoggerKey).None? ==> l == DefaultLogger
    ensures ctx.Ctx? && Lookup(ctx, LoggerKey).Some? && !Lookup(ctx, LoggerKey).value.LoggerValue? ==> l == DefaultLogger
  {
    if ctx.Nil? then DefaultLogger
    else match Lookup(ctx, LoggerKey)
      case Some(LoggerValue(logger)) => logger
      case _ => DefaultLogger
  }

  /** A stored logger is what Logger returns. */
  lemma LoggerRoundTrip(ctx: Context, l: GoContext.Logger)
    requires ctx.Ctx?
    ensures Logger(WithValue(ctx, LoggerKey, LoggerValue(l))) == l
  {
  }

  /**
   * loggerKey and requestIDKey are both 0 but of different types: storing
   * either leaves the other readable as before.
   */
  lemma KeysDoNotShadow(ctx: Context, l: GoContext.Logger, id: string)
    requires ctx.Ctx?
    ensures LoggerKey.value == RequestId.RequestIdKey.value
    ensures RequestId.RequestIDFromContext(WithValue(ctx, LoggerKey, LoggerValue(l))) == RequestId.RequestIDFromContext(ctx)
    ensures Logger(WithValue(ctx, RequestId.RequestIdKey, StringValue(id))) == Logger(ctx)
  {
  }

  /** The slog group LogRequest attaches: method, url, ip and requestID, in that order. */
  function RequestAttrs(r: Request): (attrs: seq<Attr>)
    ensures |attrs| == 4
    ensures attrs[0] == Attr("method", r.verb) && attrs[1] == Attr("url", r.url)
    ensures attrs[2] == Attr("ip", Utils.RealIP(r))
    ensures attrs[3] == Attr("requestID", RequestId.RequestIDFromContext(r.Context()))
  {
    [ Attr("method", r.verb), Attr("url", r.url), Attr("ip", Utils.RealIP(r)),
      Attr("requestID", RequestId.RequestIDFromContext(r.Context())) ]
  }

  /** What LogRequest hands on: the derived logger and the request for next. */
  datatype Logged = Logged(logger: GoContext.Logger, next: Request)

  /**
   * One request through LogRequest: the logger is slog.With(Group("request",
   * ...)) over the default, and next sees a context that adds the logger
   * and otherwise answers as the incoming one.
   */
  function LogRequest(r: Request): (o: Logged)
    ensures o.logger == WithGroup(DefaultLogger, "request", RequestAttrs(r))
    ensures Logger(o.next.Context()) == o.logger
    ensures forall k :: k != LoggerKey ==> Lookup(o.next.Context(), k) == Lookup(r.Context(), k)
    ensures RequestId.RequestIDFromContext(o.next.Context()) == RequestId.RequestIDFromContext(r.Context())
    ensures o.next.verb == r.verb && o.next.url == r.url && o.next.path == r.path
    ensures o.next.remoteAddr == r.remoteAddr && o.next.header == r.header
  {
    var logger := WithGroup(DefaultLogger, "request", RequestAttrs(r));
    var ctx := WithValue(r.Context(), LoggerKey, LoggerValue(logger));
    Logged(logger, r.WithContext(ctx))
  }

  /**
   * main wraps the mux as AddRequestID(LogRequest(mux)): the requestID the
   * logger binds is the X-Request-ID the response carries.
   */
  method ServeLogged(mw: RequestId.RequestIdMiddleware, w: ResponseWriter, r: Request) returns (o: Logged)
    requires mw.Valid()
    modifies mw, w
    ensures mw.Valid()
    ensures o == LogRequest(RequestId.WithRequestId(r, RequestId.RequestIdFor(mw.prefix, mw.served)))
    ensures o.logger.attrs[3] == Attr("requestID", Get(w.header, RequestId.HeaderRequestId))
  {
    var next := mw.ServeHTTP(w, r);
    o := LogRequest(next);
  }

  /** The same, for any response: the bound requestID and the header set by AddRequestID agree. */
  lemma BoundIdIsHeaderId(w: Response, r: Request, id: string)
    ensures LogRequest(RequestId.WithRequestId(r, id)).logger.attrs[3] ==
            Attr("requestID", Get(WithHeader(w, RequestId.HeaderRequestId, id).header, RequestId.HeaderRequestId))
  {
    RequestId.RequestIdRoundTrip(r, id);
  }
}
