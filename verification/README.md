# actix-jwt-middleware, modelled in Dafny

This project models the per-request logic of `actix-jwt-middleware`, an
actix-web middleware that authenticates requests by a JWT bearer token in
the `Authorization` header. Everything the repository owns is in
`src/jwt.rs`:

- `JwtMiddleware` is the factory. `new`, `error_handler` and
  `new_transform` hold the decoding key, the validation policy and an
  optional custom error handler, and bind them to a downstream service.
- `decode_jwt` runs three ordered checks. The header bytes must convert to
  text (`HeaderValue::to_str`). The text must start with the exact literal
  `"Bearer "`. The rest of the text must then decode with
  `jsonwebtoken::decode`. Each failing stage has its own
  `JwtDecodeErrors` variant.
- `JwtDecodeErrors::to_error_string` renders each variant to a fixed message.
- `JwtService::call` routes each request:
  - with no `Authorization` header, it forwards the request as it is;
  - when the header decodes, it inserts the claims into the request
    extensions and forwards the request, returning the downstream response
    as the left body;
  - when decoding fails, it short-circuits with an error response as the
    right body. That error is the custom handler's when one is set,
    otherwise `ErrorBadRequest` with the message.

Modules:

- `Wrappers` (wrappers.dfy): `Option`, `Result`, `Either` (actix's
  `EitherBody`).
- `Strings` (strings.dfy): `StartsWith`, as used by `str::starts_with`.
- `Http` (http.dfy): the actix and http values the middleware touches. It
  has headers and `HeaderMap::get`, the extension entry keyed by the claims
  type, `ServiceResponse`, actix `Error` and `ErrorBadRequest`, and
  `error_response`. It also has the left/right body mappings and a
  visible-ASCII instance of `HeaderValue::to_str`.
- `JwtErrors` (jwt_errors.dfy): `JwtDecodeErrors`, `to_error_string`, and a
  parser that reads a message back to its classification.
- `JwtDecode` (jwt_decode.dfy): `decode_jwt`. It is stated against a
  `Library` value holding the three functions the crate calls but does not
  own: `to_str`, `jsonwebtoken::decode`, and the `Display` of the library's
  error. These are function-valued parameters, so every property holds
  whatever those functions do.
- `Middleware` (middleware.dfy): the factory, `new_transform`, the routing
  decision (`Route`), and `call` (`Call`). `Call` returns the result
  together with the list of requests the downstream service was invoked
  with. That list makes "the downstream service is not invoked" a
  statement about a value.
- `Scenarios` (scenarios.dfy): whole requests with `to_str` taken as the
  visible-ASCII rule and the token library left open.

Notes on the modelling:

- Header text is `seq<char>`. Rust's `&header_value[7..]` is a byte index.
  It equals the character index here, because `"Bearer "` is seven
  one-byte characters. `BearerSliceInBounds` shows that the slice cannot
  go out of bounds once the scheme check has passed.
- `HeaderValue::to_str` lives in the `http` crate, which is not part of
  this model. `ToStrVisibleAscii` follows that crate's documented rule:
  horizontal tab or bytes 32 to 126. The message at src/jwt.rs:89 ("invalid
  ASCII characters") is the only hint in the source itself. Every property
  outside `Scenarios` holds for any `to_str`.
- The claims extension is a single `Option<C>` slot on the request. This is
  the `TypeId`-keyed entry for the claims type in actix's `Extensions`. An
  insert overwrites it.
- "Claims are never attached unless decoding succeeds" holds in the
  following form. A request without an `Authorization` header is forwarded
  with its extensions exactly as they came in. So if an earlier middleware
  already stored a value of the claims type, that value reaches the
  downstream service (`ClaimsOnlyFromDecode`).

## Model

| member | source | states |
|---|---|---|
| Strings.StartsWith | src/jwt.rs:105 | the scheme test holds exactly when the text is at least as long as the prefix and its leading characters are the prefix |
| Http.GetHeader | src/jwt.rs:128 | the header lookup is absent exactly when no header has the name; when present, it is the value of the first header with that name |
| Http.InsertClaims | src/jwt.rs:134 | inserting the claims fills the claims entry and leaves the headers and the rest of the request as they were |
| Http.ErrorBadRequest | src/jwt.rs:142 | the default error is a 400 whose message is the given text |
| Http.ErrorResponse | src/jwt.rs:137-138 | the error response answers the original request, with the error's status, and carries the error as its body |
| Http.MapIntoLeftBody | src/jwt.rs:151 | the downstream response keeps its request and status, and its body becomes the left branch unchanged |
| Http.MapIntoRightBody | src/jwt.rs:145 | the error response keeps its request and status, and its body becomes the right branch unchanged |
| Http.ToStrVisibleAscii | src/jwt.rs:102 | text conversion succeeds exactly when every byte is a tab or visible ASCII, and then yields one character per byte with the same code |
| Http.ToStrAsciiBytes | src/jwt.rs:102 | converting the bytes of a visible-ASCII text gives that text back |
| JwtErrors.ToErrorString | src/jwt.rs:86-94 | the two header failures render to their fixed messages; a token failure renders to the fixed token prefix followed by exactly the cause's displayed text |
| JwtErrors.ParseErrorString | src/jwt.rs:86-94 | a message is recognised as one of the fixed header messages exactly when it equals it; a recognised token message is the token prefix followed by the cause text read back |
| JwtErrors.ParseToErrorString | src/jwt.rs:86-94 | reading a rendered message back recovers its classification, and for a token failure the cause's displayed text |
| JwtErrors.ToErrorStringSeparatesClasses | src/jwt.rs:86-94 | failures of different classifications (or token failures with differently displayed causes) never render to the same message |
| JwtErrors.OnlyTokenMessageEmbedsCause | src/jwt.rs:88-92 | the two header messages do not depend on how causes are displayed; the token message changes whenever the cause's displayed text does |
| JwtDecode.FromCodec | src/jwt.rs:108-111 | a codec success yields exactly its claims; a codec error yields `InvalidJWTToken` carrying that same error |
| JwtDecode.DecodeJwt | src/jwt.rs:97-112 | unconvertible bytes give `InvalidAuthHeader`; text without the exact scheme gives `InvalidJWTHeader`; for text `"Bearer " + t` the result is the codec's verdict on exactly `t` with the configured key and policy |
| JwtDecode.BearerSliceInBounds | src/jwt.rs:105-108 | once the scheme check passes, index 7 is within the text and the text is the scheme followed by the slice from index 7 |
| JwtDecode.UnconvertibleHeaderStopsFirst | src/jwt.rs:102-104 | bytes that fail text conversion give `InvalidAuthHeader` whatever codec, key or policy is used |
| JwtDecode.WrongSchemeSkipsCodec | src/jwt.rs:105-107 | text without the exact scheme gives `InvalidJWTHeader` whatever codec, key or policy is used |
| JwtDecode.TokenReachesCodec | src/jwt.rs:108-111 | for header text `"Bearer " + t`, a codec error on `t` comes back as `InvalidJWTToken` with that cause, and a codec success as exactly its claims |
| JwtDecode.DecodeSucceedsIff | src/jwt.rs:97-112 | decoding succeeds exactly when conversion, the scheme check and the codec on the text after the scheme all succeed, and then yields the codec's claims |
| JwtDecode.LowerCaseSchemeRejected | src/jwt.rs:105 | the scheme is case-sensitive: `"bearer " + anything` fails the check |
| JwtDecode.MissingSpaceRejected | src/jwt.rs:105 | `"Bearer"` followed by any character other than a space, or alone, fails the check |
| Middleware.New | src/jwt.rs:27-34 | a new factory stores the key and policy as given and has no error handler |
| Middleware.ErrorHandler | src/jwt.rs:36-42 | installing a handler sets exactly that handler and keeps the key and policy |
| Middleware.NewTransform | src/jwt.rs:58-66 | binding always succeeds and copies the downstream service, key, policy and handler unchanged |
| Middleware.ErrorFor | src/jwt.rs:139-143 | with a handler, the error is the handler's value for the failure; without one, it is a 400 whose message parses back to the failure's classification |
| Middleware.Route | src/jwt.rs:127-148 | no header forwards the request unchanged; any forward keeps the headers and the rest of the request; a short circuit answers the original request |
| Middleware.Call | src/jwt.rs:127-152 | the downstream service is invoked at most once, and never when the call answers with a right body |
| Middleware.NoHeaderForwardsUnchanged | src/jwt.rs:128-151 | with no `Authorization` header, the downstream service is invoked exactly once with the request unchanged; its response is returned with a left body, or its error is passed through |
| Middleware.DecodedHeaderForwardsWithClaims | src/jwt.rs:131-151 | on decode success, the downstream service is invoked exactly once with the claims inserted; its response comes back with the same request, same status and its body as the left branch, or its error is passed through |
| Middleware.FailedDecodeShortCircuits | src/jwt.rs:131-146 | on decode failure, the downstream service is not invoked; the answer, for the original request, is the handler's error as the right body when a handler is set, else a 400 with the failure's message |
| Middleware.FailureIgnoresDownstream | src/jwt.rs:136-146 | on decode failure, replacing the downstream service changes nothing in the outcome |
| Middleware.DownstreamRunsIff | src/jwt.rs:130-151 | the downstream service runs exactly when there is no header or the header decodes, and is skipped exactly when a present header fails to decode |
| Middleware.ClaimsOnlyFromDecode | src/jwt.rs:130-135 | every request passed downstream carries either the claims entry it came in with, or the claims decoded from its own header |
| Middleware.SameFactorySameDecision | src/jwt.rs:58-66 | two instances bound from the same factory decide every request identically, whatever services they wrap |
| Middleware.DefaultFactoryRendersBadRequest | src/jwt.rs:139-143 | a factory built with `new` answers a decode failure with a 400 whose body is `ErrorBadRequest` of the failure's message |
| Middleware.CustomHandlerDecides | src/jwt.rs:139-141 | a factory given a handler answers a decode failure with the handler's error for that failure, and does not call downstream |
| Scenarios.ValidTokenReachesHandler | src/jwt.rs:131-151 | a token the codec accepts with user id "42" reaches the handler as claims, and the overall body is the handler's `"42"` |
| Scenarios.RejectedTokenIsBadRequest | src/jwt.rs:108-145 | a token the codec rejects gets a 400 whose message starts with the invalid-token text, and the handler never runs |
| Scenarios.LowerCaseSchemeIsBadRequest | src/jwt.rs:105-107 | a visible-ASCII `"bearer ..."` header gets the header-format message, and the handler never runs |
| Scenarios.MissingSpaceIsBadRequest | src/jwt.rs:105-107 | a visible-ASCII `"BearerX..."` header gets the header-format message, and the handler never runs |
| Scenarios.NonAsciiByteIsBadRequest | src/jwt.rs:102-104 | a header containing byte 0x80 gets the invalid-characters message, and the handler never runs |
| Scenarios.AnonymousRequestReachesHandler | src/jwt.rs:128-151 | a request without headers reaches the handler once, without claims, and its answer is returned as the left body |

## Left out

- `jsonwebtoken::decode` is not modelled internally: base64url parsing, signature verification and the claim and policy checks. It is a function parameter, so the properties hold for every codec. For the same reason the HMAC `"s3cr3t"` example is stated with a codec that accepts or rejects the token.
- `HeaderValue::to_str` is a parameter too. The only instance of it is `ToStrVisibleAscii`.
- The `Display` text of `jsonwebtoken::errors::Error` is left out. It is a parameter `display`.
- actix's `Service` and `Transform` traits, `forward_ready!`, futures, `Box::pin` and awaiting are not modelled. The downstream service is a function from request to result, and awaiting it is applying it.
- `Arc` sharing, `Send + Sync`, `PhantomData` and concurrent requests are left out. The model is immutable values, so every request sees the same configuration.
- Actix `Error` is reduced to a status and a message, and HTTP response rendering to a `ServiceResponse` carrying that error as its body.
- Header-name case folding is left out. Header names are stored lower-case, as `HeaderMap` normalises them.
