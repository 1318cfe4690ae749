/** `JwtMiddleware` (the factory holding the configuration) and `JwtService`
    (the per-request instance wrapping a downstream service). */
module Middleware {
  import opened Wrappers
  import opened Http
  import opened JwtErrors
  import opened JwtDecode

  /** A custom error handler: from a failure classification to an actix error. */
  type ErrHandler<!E> = JwtDecodeError<E> -> Error

  /** The factory: decoding key, validation policy, optional error handler. */
  datatype JwtMiddleware<K, P, !E> = JwtMiddleware(decodingKey: K, validation: P, errHandler: Option<ErrHandler<E>>)

  /** `JwtMiddleware::new`: the key and policy as given, no error handler. */
  function New<K, P, E>(decodingKey: K, validation: P): (m: JwtMiddleware<K, P, E>)
    ensures m.decodingKey == decodingKey && m.validation == validation
    ensures m.errHandler.None?
  {
    JwtMiddleware(decodingKey, validation, None)
  }

  /** `error_handler`: installs the handler and keeps key and policy. */
  function ErrorHandler<K, P, E>(m: JwtMiddleware<K, P, E>, f: ErrHandler<E>): (m': JwtMiddleware<K, P, E>)
    ensures m'.errHandler == Some(f)
    ensures m'.decodingKey == m.decodingKey && m'.validation == m.validation
  {
    m.(errHandler := Some(f))
  }

  /** The wrapped downstream service; its own failure is an actix error. */
  type Downstream<!C, B> = Request<C> -> Result<ServiceResponse<C, B>, Error>

  /** The per-request instance: the downstream service and shared copies of
      the factory's configuration. */
  datatype JwtService<K, P, !E, !C, B> = JwtService(
    service: Downstream<C, B>,
    decodingKey: K,
    validation: P,
    errHandler: Option<ErrHandler<E>>)

  /** `new_transform`: binding to a downstream service cannot fail and copies
      the configuration unchanged. */
  function NewTransform<K, P, E, C, B>(m: JwtMiddleware<K, P, E>, service: Downstream<C, B>)
    : (r: Result<JwtService<K, P, E, C, B>, ()>)
    ensures r.Ok?
    ensures r.value.service == service
    ensures r.value.decodingKey == m.decodingKey && r.value.validation == m.validation
    ensures r.value.errHandler == m.errHandler
  {
    Ok(JwtService(service, m.decodingKey, m.validation, m.errHandler))
  }

  /** The error a failure turns into: the custom handler's when one is set,
      otherwise a bad request carrying the failure's message. */
  function ErrorFor<E>(handler: Option<ErrHandler<E>>, display: E -> string, e: JwtDecodeError<E>): (err: Error)
    ensures handler.Some? ==> err == handler.value(e)
    ensures handler.None? ==> err.status == BAD_REQUEST && ParseErrorString(err.message) == Some(Classify(e, display))
  {
    match handler
    case Some(h) => h(e)
    case None =>
      ParseToErrorString(e, display);
      ErrorBadRequest(ToErrorString(e, display))
  }

  /** The terminal states of one request: forward a request downstream, or
      answer at once with an error response. */
  datatype Decision<C> = Forward(request: Request<C>) | ShortCircuit(response: ServiceResponse<C, Error>)

  /** The decision part of `JwtService::call`: no Authorization header
      forwards the request as it is; a decoded header forwards it with the
      claims inserted; a failure answers with the error response. */
  function Route<K, P, E, C, B>(svc: JwtService<K, P, E, C, B>, lib: Library<K, P, C, E>, req: Request<C>)
    : (d: Decision<C>)
    ensures GetHeader(req.headers, AUTHORIZATION).None? ==> d == Forward(req)
    ensures d.Forward? ==> d.request.headers == req.headers && d.request.path == req.path
    ensures d.ShortCircuit? ==> d.response.request == req
  {
    match GetHeader(req.headers, AUTHORIZATION)
    case None => Forward(req)
    case Some(value) =>
      match DecodeJwt(value, svc.decodingKey, svc.validation, lib)
      case Ok(claims) => Forward(InsertClaims(req, claims))
      case Err(e) => ShortCircuit(ErrorResponse(req, ErrorFor(svc.errHandler, lib.display, e)))
  }

  /** What one call produces, together with the requests the downstream
      service was invoked with, in order. */
  datatype CallOutcome<C, B> = CallOutcome(
    result: Result<ServiceResponse<C, Either<B, Error>>, Error>,
    downstreamCalls: seq<Request<C>>)

  /** `JwtService::call`: a forwarded request goes to the downstream service
      once and its response comes back with a left body (its error, if any,
      passes through); a short circuit answers with a right body and never
      invokes the downstream service. */
  function Call<K, P, E, C, B>(svc: JwtService<K, P, E, C, B>, lib: Library<K, P, C, E>, req: Request<C>)
    : (o: CallOutcome<C, B>)
    ensures |o.downstreamCalls| <= 1
    ensures o.result.Ok? && o.result.value.body.Right? ==> o.downstreamCalls == []
  {
    match Route(svc, lib, req)
    case Forward(forwarded) =>
      var result := match svc.service(forwarded)
        case Ok(resp) => Ok(MapIntoLeftBody(resp))
        case Err(err) => Err(err);
      CallOutcome(result, [forwarded])
    case ShortCircuit(resp) => CallOutcome(Ok(MapIntoRightBody(resp)), [])
  }

  /** The decode outcome of a request carrying an Authorization header. */
  function HeaderOutcome<K, P, E, C, B>(svc: JwtService<K, P, E, C, B>, lib: Library<K, P, C, E>, req: Request<C>)
    : Result<C, JwtDecodeError<E>>
    requires GetHeader(req.headers, AUTHORIZATION).Some?
  {
    DecodeJwt(GetHeader(req.headers, AUTHORIZATION).value, svc.decodingKey, svc.validation, lib)
  }

  /** No Authorization header: the downstream service is invoked once with
      the request unchanged (no claims attached), and its result is the
      call's result with the body on the left. */
  lemma NoHeaderForwardsUnchanged<K, P, E, C, B>(svc: JwtService<K, P, E, C, B>, lib: Library<K, P, C, E>,
      req: Request<C>)
    requires GetHeader(req.headers, AUTHORIZATION).None?
    ensures Call(svc, lib, req).downstreamCalls == [req]
    ensures svc.service(req).Err? ==> Call(svc, lib, req).result == Err(svc.service(req).error)
    ensures svc.service(req).Ok? ==>
      Call(svc, lib, req).result == Ok(MapIntoLeftBody(svc.service(req).value))
  {
  }

  /** A decoded header: the claims are inserted before the downstream call,
      which happens exactly once, and its response is returned unchanged
      apart from the body being marked left. */
  lemma DecodedHeaderForwardsWithClaims<K, P, E, C, B>(svc: JwtService<K, P, E, C, B>,
      lib: Library<K, P, C, E>, req: Request<C>, claims: C)
    requires GetHeader(req.headers, AUTHORIZATION).Some?
    requires HeaderOutcome(svc, lib, req) == Ok(claims)
    ensures Call(svc, lib, req).downstreamCalls == [InsertClaims(req, claims)]
    ensures Call(svc, lib, req).downstreamCalls[0].claims == Some(claims)
    ensures var down := svc.service(InsertClaims(req, claims));
      && (down.Err? ==> Call(svc, lib, req).result == Err(down.error))
      && (down.Ok? ==>
            && Call(svc, lib, req).result.Ok?
            && Call(svc, lib, req).result.value.request == down.value.request
            && Call(svc, lib, req).result.value.status == down.value.status
            && Call(svc, lib, req).result.value.body == Left(down.value.body))
  {
  }

  /** A failed decode: no downstream call, and the response, answering the
      original request, carries the handler's error when one is configured
      and otherwise a 400 built from the failure's message. */
  lemma FailedDecodeShortCircuits<K, P, E, C, B>(svc: JwtService<K, P, E, C, B>,
      lib: Library<K, P, C, E>, req: Request<C>, e: JwtDecodeError<E>)
    requires GetHeader(req.headers, AUTHORIZATION).Some?
    requires HeaderOutcome(svc, lib, req) == Err(e)
    ensures Call(svc, lib, req).downstreamCalls == []
    ensures Call(svc, lib, req).result.Ok?
    ensures Call(svc, lib, req).result.value.request == req
    ensures svc.errHandler.Some? ==>
      Call(svc, lib, req).result.value.body == Right(svc.errHandler.value(e))
    ensures svc.errHandler.None? ==>
      Call(svc, lib, req).result.value.body == Right(ErrorBadRequest(ToErrorString(e, lib.display)))
      && Call(svc, lib, req).result.value.status == BAD_REQUEST
  {
  }

  /** On a failed decode the answer does not depend on the downstream
      service at all: any other downstream service gives the same result. */
  lemma FailureIgnoresDownstream<K, P, E, C, B>(svc: JwtService<K, P, E, C, B>,
      lib: Library<K, P, C, E>, req: Request<C>, other: Downstream<C, B>)
    requires GetHeader(req.headers, AUTHORIZATION).Some?
    requires HeaderOutcome(svc, lib, req).Err?
    ensures Call(svc.(service := other), lib, req) == Call(svc, lib, req)
  {
  }

  /** The downstream service runs exactly when there is no header or the
      header decodes; a supplied but invalid token is never let through. */
  lemma {:induction false} DownstreamRunsIff<K, P, E, C, B>(svc: JwtService<K, P, E, C, B>,
      lib: Library<K, P, C, E>, req: Request<C>)
    ensures |Call(svc, lib, req).downstreamCalls| == 1 <==>
      GetHeader(req.headers, AUTHORIZATION).None? || HeaderOutcome(svc, lib, req).Ok?
    ensures |Call(svc, lib, req).downstreamCalls| == 0 <==>
      GetHeader(req.headers, AUTHORIZATION).Some? && HeaderOutcome(svc, lib, req).Err?
  {
    match GetHeader(req.headers, AUTHORIZATION)
    case None =>
    case Some(_) =>
      match HeaderOutcome(svc, lib, req)
      case Ok(claims) => DecodedHeaderForwardsWithClaims(svc, lib, req, claims);
      case Err(e) => FailedDecodeShortCircuits(svc, lib, req, e);
  }

  /** Claims reach the downstream service only from a successful decode of
      this request's own header; otherwise the request's extension entry is
      passed on as it came in. */
  lemma {:induction false} ClaimsOnlyFromDecode<K, P, E, C, B>(svc: JwtService<K, P, E, C, B>,
      lib: Library<K, P, C, E>, req: Request<C>, i: nat)
    requires i < |Call(svc, lib, req).downstreamCalls|
    ensures Call(svc, lib, req).downstreamCalls[i].claims == req.claims
      || (GetHeader(req.headers, AUTHORIZATION).Some?
          && HeaderOutcome(svc, lib, req).Ok?
          && Call(svc, lib, req).downstreamCalls[i].claims == Some(HeaderOutcome(svc, lib, req).value))
  {
    if GetHeader(req.headers, AUTHORIZATION).Some? {
      match HeaderOutcome(svc, lib, req)
      case Ok(claims) => DecodedHeaderForwardsWithClaims(svc, lib, req, claims);
      case Err(e) => FailedDecodeShortCircuits(svc, lib, req, e);
    }
  }

  /** Two instances bound from the same factory decide every request the
      same way, whatever downstream services they wrap. */
  lemma SameFactorySameDecision<K, P, E, C, B>(m: JwtMiddleware<K, P, E>, lib: Library<K, P, C, E>,
      service1: Downstream<C, B>, service2: Downstream<C, B>, req: Request<C>)
    ensures Route(NewTransform(m, service1).value, lib, req) == Route(NewTransform(m, service2).value, lib, req)
  {
  }

  /** A factory built with `new` answers a failed decode with a 400 whose
      message is the failure's own message. */
  lemma DefaultFactoryRendersBadRequest<K, P, E, C, B>(key: K, validation: P, lib: Library<K, P, C, E>,
      service: Downstream<C, B>, req: Request<C>, e: JwtDecodeError<E>)
    requires GetHeader(req.headers, AUTHORIZATION).Some?
    requires DecodeJwt(GetHeader(req.headers, AUTHORIZATION).value, key, validation, lib) == Err(e)
    ensures var svc := NewTransform(New<K, P, E>(key, validation), service).value;
      && Call(svc, lib, req).result.Ok?
      && Call(svc, lib, req).result.value.status == BAD_REQUEST
      && Call(svc, lib, req).result.value.body == Right(ErrorBadRequest(ToErrorString(e, lib.display)))
  {
  }

  /** A factory given a handler with `error_handler` answers a failed decode
      with the handler's error for that very classification. */
  lemma CustomHandlerDecides<K, P, E, C, B>(key: K, validation: P, f: ErrHandler<E>,
      lib: Library<K, P, C, E>, service: Downstream<C, B>, req: Request<C>, e: JwtDecodeError<E>)
    requires GetHeader(req.headers, AUTHORIZATION).Some?
    requires DecodeJwt(GetHeader(req.headers, AUTHORIZATION).value, key, validation, lib) == Err(e)
    ensures var svc := NewTransform(ErrorHandler(New<K, P, E>(key, validation), f), service).value;
      && Call(svc, lib, req).result.Ok?
      && Call(svc, lib, req).result.value.status == f(e).status
      && Call(svc, lib, req).result.value.body == Right(f(e))
      && Call(svc, lib, req).downstreamCalls == []
  {
  }
}
