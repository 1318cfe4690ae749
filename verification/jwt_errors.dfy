/** `JwtDecodeErrors` and `to_error_string`: the three ways decoding an
    Authorization header can fail, and the fixed message each one renders to. */
module JwtErrors {
  import opened Wrappers
  import opened Strings

  /** The failure classification; `E` is the token library's error type,
      carried unchanged as the cause of a token failure. */
  datatype JwtDecodeError<E> = InvalidAuthHeader | InvalidJwtHeader | InvalidJwtToken(cause: E)

  /** The opening the two header messages share. */
  const AUTH_HEADER_OPENING: string := "Invalid authorization header - "

  const AUTH_HEADER_MESSAGE: string :=
    AUTH_HEADER_OPENING + "header contains invalid ASCII characters"

  const JWT_HEADER_MESSAGE: string :=
    AUTH_HEADER_OPENING + "header need to have this format 'Bearer HEADER.PAYLOAD.SIGNATURE' where all three parts need to be base64 encoded and separated by a dot"

  /** The fixed text in front of the cause of a token failure. */
  const JWT_TOKEN_PREFIX: string :=
    "Invalid JWT token - " + "an error occurred when decoding token: "

  /** `to_error_string`; `display` is the `Display` rendering of the
      library's error. */
  function ToErrorString<E>(e: JwtDecodeError<E>, display: E -> string): (msg: string)
    ensures e.InvalidAuthHeader? ==> msg == AUTH_HEADER_MESSAGE
    ensures e.InvalidJwtHeader? ==> msg == JWT_HEADER_MESSAGE
    ensures e.InvalidJwtToken? ==> StartsWith(msg, JWT_TOKEN_PREFIX) && msg[|JWT_TOKEN_PREFIX|..] == display(e.cause)
  {
    match e
    case InvalidAuthHeader => AUTH_HEADER_MESSAGE
    case InvalidJwtHeader => JWT_HEADER_MESSAGE
    case InvalidJwtToken(cause) =>
      StartsWithAppend(JWT_TOKEN_PREFIX, display(cause));
      JWT_TOKEN_PREFIX + display(cause)
  }

  /** What a reader of a message can tell about the failure behind it. */
  datatype MessageClass = AuthHeaderClass | JwtHeaderClass | JwtTokenClass(causeText: string)

  /** The classification a message was rendered from, with the displayed
      cause for a token failure. */
  function Classify<E>(e: JwtDecodeError<E>, display: E -> string): MessageClass
  {
    match e
    case InvalidAuthHeader => AuthHeaderClass
    case InvalidJwtHeader => JwtHeaderClass
    case InvalidJwtToken(cause) => JwtTokenClass(display(cause))
  }

  /** Reads a message back: the inverse of `ToErrorString` up to the cause's
      own identity, which only survives as its displayed text. */
  function ParseErrorString(msg: string): (c: Option<MessageClass>)
    ensures c == Some(AuthHeaderClass) <==> msg == AUTH_HEADER_MESSAGE
    ensures c == Some(JwtHeaderClass) <==> msg == JWT_HEADER_MESSAGE
    ensures c.Some? && c.value.JwtTokenClass? ==> msg == JWT_TOKEN_PREFIX + c.value.causeText
  {
    if msg == AUTH_HEADER_MESSAGE then Some(AuthHeaderClass)
    else if msg == JWT_HEADER_MESSAGE then Some(JwtHeaderClass)
    else if StartsWith(msg, JWT_TOKEN_PREFIX) then
      StartsWithSplits(msg, JWT_TOKEN_PREFIX);
      Some(JwtTokenClass(msg[|JWT_TOKEN_PREFIX|..]))
    else None
  }

  /** The two fixed messages do not start like a token failure message. */
  lemma FixedMessagesLackTokenPrefix()
    ensures !StartsWith(AUTH_HEADER_MESSAGE, JWT_TOKEN_PREFIX)
    ensures !StartsWith(JWT_HEADER_MESSAGE, JWT_TOKEN_PREFIX)
  {
    assert AUTH_HEADER_MESSAGE[8] == 'a';
    assert JWT_HEADER_MESSAGE[8] == 'a';
    assert JWT_TOKEN_PREFIX[8] == 'J';
  }

  /** Every message names its classification, and a token failure's message
      carries the displayed cause: parsing the message recovers both. */
  lemma ParseToErrorString<E>(e: JwtDecodeError<E>, display: E -> string)
    ensures ParseErrorString(ToErrorString(e, display)) == Some(Classify(e, display))
  {
    FixedMessagesLackTokenPrefix();
    var msg := ToErrorString(e, display);
    if e.InvalidJwtToken? {
      StartsWithSplits(msg, JWT_TOKEN_PREFIX);
      assert msg != AUTH_HEADER_MESSAGE;
      assert msg != JWT_HEADER_MESSAGE;
    }
  }

  /** Messages of different classifications are different. */
  lemma ToErrorStringSeparatesClasses<E>(e1: JwtDecodeError<E>, e2: JwtDecodeError<E>, display: E -> string)
    requires Classify(e1, display) != Classify(e2, display)
    ensures ToErrorString(e1, display) != ToErrorString(e2, display)
  {
    ParseToErrorString(e1, display);
    ParseToErrorString(e2, display);
  }

  /** Only a token failure's message depends on the cause's rendering. */
  lemma OnlyTokenMessageEmbedsCause<E>(e: JwtDecodeError<E>, display1: E -> string, display2: E -> string)
    ensures !e.InvalidJwtToken? ==> ToErrorString(e, display1) == ToErrorString(e, display2)
    ensures e.InvalidJwtToken? && display1(e.cause) != display2(e.cause) ==>
      ToErrorString(e, display1) != ToErrorString(e, display2)
  {
  }
}
