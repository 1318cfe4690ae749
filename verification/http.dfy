/** The slice of actix-web and the http crate that the middleware touches:
    header lookup, the per-request extension slot for the claims, the
    response a service returns and the error it can be turned into. */
module Http {
  import opened Wrappers

  newtype byte = x: int | 0 <= x < 256

  /** The raw bytes of one header value (`HeaderValue`). */
  type HeaderValue = seq<byte>

  /** One header line; names are kept lower-case, as `HeaderMap` stores them. */
  datatype Header = Header(name: string, value: HeaderValue)

  /** The name `header::AUTHORIZATION` stands for. */
  const AUTHORIZATION: string := "authorization"

  /** A request as the middleware sees it: its headers, the extension entry
      keyed by the claims type, and the path standing for everything else
      the middleware never looks at. */
  datatype Request<C> = Request(headers: seq<Header>, claims: Option<C>, path: string)

  /** `HeaderMap::get`: the value of the first header with the given name. */
  function GetHeader(headers: seq<Header>, name: string): (r: Option<HeaderValue>)
    ensures r.None? <==> forall i :: 0 <= i < |headers| ==> headers[i].name != name
    ensures r.Some? ==>
      exists i :: 0 <= i < |headers| && headers[i] == Header(name, r.value)
        && forall j :: 0 <= j < i ==> headers[j].name != name
  {
    if |headers| == 0 then None
    else if headers[0].name == name then Some(headers[0].value)
    else GetHeader(headers[1..], name)
  }

  /** `req.extensions_mut().insert(claims)`: the entry for the claims type is
      overwritten and the rest of the request is left as it was. */
  function InsertClaims<C>(req: Request<C>, claims: C): (r: Request<C>)
    ensures r.claims == Some(claims)
    ensures r.headers == req.headers && r.path == req.path
  {
    req.(claims := Some(claims))
  }

  /** An actix `Error`, reduced to what its response is rendered from. */
  datatype Error = Error(status: int, message: string)

  const BAD_REQUEST: int := 400

  /** `ErrorBadRequest(message)`: a client error with status 400. */
  function ErrorBadRequest(message: string): (e: Error)
    ensures e.status == BAD_REQUEST && e.message == message
  {
    Error(BAD_REQUEST, message)
  }

  /** `ServiceResponse<B>`: the request it answers, a status and a body. */
  datatype ServiceResponse<C, B> = ServiceResponse(request: Request<C>, status: int, body: B)

  /** `req.error_response(err)`: the response rendered from an error. */
  function ErrorResponse<C>(req: Request<C>, err: Error): (resp: ServiceResponse<C, Error>)
    ensures resp.request == req && resp.status == err.status && resp.body == err
  {
    ServiceResponse(req, err.status, err)
  }

  /** `map_into_left_body`: only the body's type changes. */
  function MapIntoLeftBody<C, B, R>(resp: ServiceResponse<C, B>): (r: ServiceResponse<C, Either<B, R>>)
    ensures r.request == resp.request && r.status == resp.status && r.body == Left(resp.body)
  {
    ServiceResponse(resp.request, resp.status, Left(resp.body))
  }

  /** `map_into_right_body`: only the body's type changes. */
  function MapIntoRightBody<C, L, B>(resp: ServiceResponse<C, B>): (r: ServiceResponse<C, Either<L, B>>)
    ensures r.request == resp.request && r.status == resp.status && r.body == Right(resp.body)
  {
    ServiceResponse(resp.request, resp.status, Right(resp.body))
  }

  /** The bytes `HeaderValue::to_str` accepts: horizontal tab and the
      visible ASCII range from space to tilde. */
  predicate IsVisibleAscii(b: byte)
  {
    b == 9 || (32 <= b && b < 127)
  }

  /** One concrete instance of `HeaderValue::to_str`: succeeds exactly when
      every byte is visible ASCII, and then reads each byte as one character. */
  function ToStrVisibleAscii(value: HeaderValue): (r: Option<string>)
    ensures r.Some? <==> forall i :: 0 <= i < |value| ==> IsVisibleAscii(value[i])
    ensures r.Some? ==> |r.value| == |value|
    ensures r.Some? ==> forall i :: 0 <= i < |value| ==> r.value[i] as int == value[i] as int
  {
    if |value| == 0 then Some([])
    else if !IsVisibleAscii(value[0]) then None
    else match ToStrVisibleAscii(value[1..])
      case None => None
      case Some(rest) => Some([value[0] as int as char] + rest)
  }

  /** The header bytes of a text whose characters are all single bytes. */
  function AsciiBytes(text: string): (value: HeaderValue)
    requires forall i :: 0 <= i < |text| ==> text[i] as int < 256
    ensures |value| == |text|
    ensures forall i :: 0 <= i < |text| ==> value[i] as int == text[i] as int
  {
    if |text| == 0 then []
    else [text[0] as int as byte] + AsciiBytes(text[1..])
  }

  /** A text made only of characters `to_str` can produce. */
  ghost predicate IsVisibleText(text: string)
  {
    forall i :: 0 <= i < |text| ==> text[i] as int < 256 && IsVisibleAscii(text[i] as int as byte)
  }

  /** Reading back the bytes of a visible-ASCII text gives that text. */
  lemma {:induction false} ToStrAsciiBytes(text: string)
    requires IsVisibleText(text)
    ensures ToStrVisibleAscii(AsciiBytes(text)) == Some(text)
  {
    var r := ToStrVisibleAscii(AsciiBytes(text));
    assert r.Some?;
    assert r.value == text;
  }
}
