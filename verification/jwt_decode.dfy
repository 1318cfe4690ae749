/** `decode_jwt`: the three ordered checks that turn the raw Authorization
    header into claims or into one failure classification. */
module JwtDecode {
  import opened Wrappers
  import opened Strings
  import opened Http
  import opened JwtErrors

  /** The scheme the header text must start with: case-sensitive, one space. */
  const BEARER: string := "Bearer "

  /** `jsonwebtoken::TokenData`: the token's decoded JOSE header parameters
      and its claims. */
  datatype TokenData<C> = TokenData(header: map<string, string>, claims: C)

  /** The library functions the middleware calls but does not own:
      `HeaderValue::to_str` (`toStr`), `jsonwebtoken::decode` (`decode`, taking
      the token, the decoding key and the validation policy) and the
      `Display` of the library's error (`display`). They are parameters, so
      every property below holds whatever they do. */
  datatype Library<!K, !P, C, !E> = Library(
    toStr: HeaderValue -> Option<string>,
    decode: (string, K, P) -> Result<TokenData<C>, E>,
    display: E -> string)

  /** The outcome of the token stage: the claims of a decoded token, or the
      library's error wrapped as a token failure. */
  function FromCodec<C, E>(decoded: Result<TokenData<C>, E>): (r: Result<C, JwtDecodeError<E>>)
    ensures decoded.Ok? <==> r.Ok?
    ensures decoded.Ok? ==> r.value == decoded.value.claims
    ensures decoded.Err? ==> r.error == InvalidJwtToken(decoded.error)
  {
    match decoded
    case Ok(data) => Ok(data.claims)
    case Err(e) => Err(InvalidJwtToken(e))
  }

  /** `decode_jwt`: text conversion, then the scheme check, then the codec on
      the text after byte 7. Each stage fails with its own classification,
      and a later stage is reached only when the earlier ones pass. */
  function DecodeJwt<K, P, C, E>(header: HeaderValue, key: K, validation: P, lib: Library<K, P, C, E>)
    : (r: Result<C, JwtDecodeError<E>>)
    ensures lib.toStr(header).None? ==> r == Err(InvalidAuthHeader)
    ensures lib.toStr(header).Some? && !StartsWith(lib.toStr(header).value, BEARER) ==>
      r == Err(InvalidJwtHeader)
    ensures forall token :: lib.toStr(header) == Some(BEARER + token) ==>
      r == FromCodec(lib.decode(token, key, validation))
  {
    match lib.toStr(header)
    case None => Err(InvalidAuthHeader)
    case Some(text) =>
      if !StartsWith(text, BEARER) then Err(InvalidJwtHeader)
      else
        assert forall token :: text == BEARER + token ==> token == text[7..];
        FromCodec(lib.decode(text[7..], key, validation))
  }

  /** Once the scheme check passes, `[7..]` is in bounds and cuts off exactly
      the scheme: the text is the scheme followed by the token handed on. */
  lemma {:induction false} BearerSliceInBounds(text: string)
    requires StartsWith(text, BEARER)
    ensures 7 <= |text|
    ensures text == BEARER + text[7..]
  {
    StartsWithSplits(text, BEARER);
  }

  /** A header that is not text fails as `InvalidAuthHeader` whatever the
      scheme check and the codec would say: neither is consulted. */
  lemma UnconvertibleHeaderStopsFirst<K, P, C, E>(header: HeaderValue, key: K, validation: P,
      lib: Library<K, P, C, E>, otherKey: K, otherValidation: P,
      otherDecode: (string, K, P) -> Result<TokenData<C>, E>)
    requires lib.toStr(header).None?
    ensures DecodeJwt(header, key, validation, lib) == Err(InvalidAuthHeader)
    ensures DecodeJwt(header, otherKey, otherValidation, lib.(decode := otherDecode)) == Err(InvalidAuthHeader)
  {
  }

  /** Text without the exact scheme fails as `InvalidJWTHeader` whatever the
      codec would say: the codec is not consulted. */
  lemma WrongSchemeSkipsCodec<K, P, C, E>(header: HeaderValue, key: K, validation: P,
      lib: Library<K, P, C, E>, otherKey: K, otherValidation: P,
      otherDecode: (string, K, P) -> Result<TokenData<C>, E>)
    requires lib.toStr(header).Some? && !StartsWith(lib.toStr(header).value, BEARER)
    ensures DecodeJwt(header, key, validation, lib) == Err(InvalidJwtHeader)
    ensures DecodeJwt(header, otherKey, otherValidation, lib.(decode := otherDecode)) == Err(InvalidJwtHeader)
  {
  }

  /** The codec sees exactly the token after the scheme, with the configured
      key and policy: its error comes back as the cause of `InvalidJWTToken`,
      its success as exactly its claims. */
  lemma TokenReachesCodec<K, P, C, E>(header: HeaderValue, key: K, validation: P,
      lib: Library<K, P, C, E>, token: string)
    requires lib.toStr(header) == Some(BEARER + token)
    ensures lib.decode(token, key, validation).Err? ==>
      DecodeJwt(header, key, validation, lib) == Err(InvalidJwtToken(lib.decode(token, key, validation).error))
    ensures lib.decode(token, key, validation).Ok? ==>
      DecodeJwt(header, key, validation, lib) == Ok(lib.decode(token, key, validation).value.claims)
  {
  }

  /** Decoding succeeds exactly when all three stages pass, and then yields
      the claims of the token after the scheme. */
  lemma {:induction false} DecodeSucceedsIff<K, P, C, E>(header: HeaderValue, key: K, validation: P,
      lib: Library<K, P, C, E>)
    ensures DecodeJwt(header, key, validation, lib).Ok? <==>
      lib.toStr(header).Some? && StartsWith(lib.toStr(header).value, BEARER)
      && lib.decode(lib.toStr(header).value[|BEARER|..], key, validation).Ok?
    ensures DecodeJwt(header, key, validation, lib).Ok? ==>
      DecodeJwt(header, key, validation, lib).value
        == lib.decode(lib.toStr(header).value[|BEARER|..], key, validation).value.claims
  {
    if lib.toStr(header).Some? && StartsWith(lib.toStr(header).value, BEARER) {
      BearerSliceInBounds(lib.toStr(header).value);
    }
  }

  /** The scheme is case-sensitive: a lower-case scheme is rejected. */
  lemma LowerCaseSchemeRejected(rest: string)
    ensures !StartsWith("bearer " + rest, BEARER)
  {
    assert ("bearer " + rest)[0] == 'b';
  }

  /** The scheme needs its space: `Bearer` followed by anything else is
      rejected, and so is `Bearer` alone. */
  lemma MissingSpaceRejected(c: char, rest: string)
    requires c != ' '
    ensures !StartsWith("Bearer" + [c] + rest, BEARER)
    ensures !StartsWith("Bearer", BEARER)
  {
    assert ("Bearer" + [c] + rest)[6] == c;
  }
}
