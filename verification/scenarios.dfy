/** Whole requests through the middleware, with `HeaderValue::to_str`
    instantiated as the visible-ASCII rule and the token library left open. */
module Scenarios {
  import opened Wrappers
  import opened Strings
  import opened Http
  import opened JwtErrors
  import opened JwtDecode
  import opened Middleware

  /** The claims an application might decode: one user id. */
  datatype UserClaims = UserClaims(userId: string)

  /** A downstream handler that answers with the user id found in the
      request's claims, or with an empty body when there are none. */
  function EchoUserId(req: Request<UserClaims>): Result<ServiceResponse<UserClaims, string>, Error>
  {
    match req.claims
    case Some(c) => Ok(ServiceResponse(req, 200, c.userId))
    case None => Ok(ServiceResponse(req, 200, ""))
  }

  /** A request whose only header is an Authorization header with this text. */
  function AuthorizedRequest(text: string): (req: Request<UserClaims>)
    requires forall i :: 0 <= i < |text| ==> text[i] as int < 256
    ensures GetHeader(req.headers, AUTHORIZATION) == Some(AsciiBytes(text))
    ensures req.claims.None?
  {
    Request([Header(AUTHORIZATION, AsciiBytes(text))], None, "/")
  }

  /** A token the codec accepts with user id "42" reaches the handler as
      claims, and the handler's body is the call's body. */
  lemma ValidTokenReachesHandler<K, P, E>(key: K, validation: P, lib: Library<K, P, UserClaims, E>,
      token: string, header: map<string, string>)
    requires IsVisibleText(token)
    requires lib.toStr == ToStrVisibleAscii
    requires lib.decode(token, key, validation) == Ok(TokenData(header, UserClaims("42")))
    ensures var svc := NewTransform(New<K, P, E>(key, validation), EchoUserId).value;
      var o := Call(svc, lib, AuthorizedRequest(BEARER + token));
      && o.result.Ok?
      && o.result.value.body == Left("42")
      && |o.downstreamCalls| == 1
  {
    ToStrAsciiBytes(BEARER + token);
    var svc := NewTransform(New<K, P, E>(key, validation), EchoUserId).value;
    var req := AuthorizedRequest(BEARER + token);
    TokenReachesCodec(AsciiBytes(BEARER + token), key, validation, lib, token);
    DecodedHeaderForwardsWithClaims(svc, lib, req, UserClaims("42"));
  }

  /** A token the codec rejects (a wrong signature, say) is answered with a
      400 whose message is the token failure's, and the handler never runs. */
  lemma RejectedTokenIsBadRequest<K, P, E>(key: K, validation: P, lib: Library<K, P, UserClaims, E>,
      token: string)
    requires IsVisibleText(token)
    requires lib.toStr == ToStrVisibleAscii
    requires lib.decode(token, key, validation).Err?
    ensures var svc := NewTransform(New<K, P, E>(key, validation), EchoUserId).value;
      var o := Call(svc, lib, AuthorizedRequest(BEARER + token));
      && o.result.Ok?
      && o.result.value.status == BAD_REQUEST
      && o.result.value.body.Right?
      && StartsWith(o.result.value.body.right.message, JWT_TOKEN_PREFIX)
      && o.downstreamCalls == []
  {
    ToStrAsciiBytes(BEARER + token);
    var svc := NewTransform(New<K, P, E>(key, validation), EchoUserId).value;
    var req := AuthorizedRequest(BEARER + token);
    var e := InvalidJwtToken(lib.decode(token, key, validation).error);
    TokenReachesCodec(AsciiBytes(BEARER + token), key, validation, lib, token);
    FailedDecodeShortCircuits(svc, lib, req, e);
  }

  /** Visible text stays visible when put together. */
  lemma VisibleConcat(a: string, b: string)
    requires IsVisibleText(a) && IsVisibleText(b)
    ensures IsVisibleText(a + b)
  {
    forall i | 0 <= i < |a + b|
      ensures (a + b)[i] as int < 256 && IsVisibleAscii((a + b)[i] as int as byte)
    {
      if i >= |a| {
        assert (a + b)[i] == b[i - |a|];
      }
    }
  }

  /** `bearer abc.def.ghi` and the like: the lower-case scheme is answered
      with the header-format message, whatever the codec would have said. */
  lemma LowerCaseSchemeIsBadRequest<K, P, E>(key: K, validation: P, lib: Library<K, P, UserClaims, E>,
      rest: string)
    requires IsVisibleText(rest)
    requires lib.toStr == ToStrVisibleAscii
    ensures var svc := NewTransform(New<K, P, E>(key, validation), EchoUserId).value;
      var o := Call(svc, lib, AuthorizedRequest("bearer " + rest));
      && o.result.Ok?
      && o.result.value.body == Right(ErrorBadRequest(JWT_HEADER_MESSAGE))
      && o.downstreamCalls == []
  {
    var text := "bearer " + rest;
    assert IsVisibleText("bearer ");
    VisibleConcat("bearer ", rest);
    ToStrAsciiBytes(text);
    LowerCaseSchemeRejected(rest);
    var svc := NewTransform(New<K, P, E>(key, validation), EchoUserId).value;
    FailedDecodeShortCircuits(svc, lib, AuthorizedRequest(text), InvalidJwtHeader);
  }

  /** `BearerXabc.def.ghi` and the like: the scheme without its space is
      rejected the same way. */
  lemma MissingSpaceIsBadRequest<K, P, E>(key: K, validation: P, lib: Library<K, P, UserClaims, E>,
      rest: string)
    requires IsVisibleText(rest)
    requires lib.toStr == ToStrVisibleAscii
    ensures var svc := NewTransform(New<K, P, E>(key, validation), EchoUserId).value;
      var o := Call(svc, lib, AuthorizedRequest("BearerX" + rest));
      && o.result.Ok?
      && o.result.value.body == Right(ErrorBadRequest(JWT_HEADER_MESSAGE))
      && o.downstreamCalls == []
  {
    var text := "BearerX" + rest;
    assert IsVisibleText("BearerX");
    VisibleConcat("BearerX", rest);
    ToStrAsciiBytes(text);
    MissingSpaceRejected('X', rest);
    assert "Bearer" + ['X'] + rest == text;
    var svc := NewTransform(New<K, P, E>(key, validation), EchoUserId).value;
    FailedDecodeShortCircuits(svc, lib, AuthorizedRequest(text), InvalidJwtHeader);
  }

  /** A header byte outside visible ASCII is answered with the
      invalid-characters message before the scheme is looked at. */
  lemma NonAsciiByteIsBadRequest<K, P, E>(key: K, validation: P, lib: Library<K, P, UserClaims, E>,
      before: HeaderValue, after: HeaderValue)
    requires lib.toStr == ToStrVisibleAscii
    ensures var req := Request([Header(AUTHORIZATION, before + [0x80] + after)], None, "/");
      var o := Call(NewTransform(New<K, P, E>(key, validation), EchoUserId).value, lib, req);
      && o.result.Ok?
      && o.result.value.body == Right(ErrorBadRequest(AUTH_HEADER_MESSAGE))
      && o.downstreamCalls == []
  {
    var value := before + [0x80] + after;
    assert !IsVisibleAscii(value[|before|]);
    var req := Request([Header(AUTHORIZATION, value)], None, "/");
    var svc := NewTransform(New<K, P, E>(key, validation), EchoUserId).value;
    FailedDecodeShortCircuits(svc, lib, req, InvalidAuthHeader);
  }

  /** A request without an Authorization header reaches the handler without
      claims. */
  lemma AnonymousRequestReachesHandler<K, P, E>(key: K, validation: P, lib: Library<K, P, UserClaims, E>)
    ensures var o := Call(NewTransform(New<K, P, E>(key, validation), EchoUserId).value, lib,
        Request([], None, "/"));
      && o.result == Ok(ServiceResponse(Request([], None, "/"), 200, Left("")))
      && o.downstreamCalls == [Request([], None, "/")]
  {
  }
}
