/** Signed unsubscribe tokens: `payload.signature`, where the payload is the
    base64url text (section 5 of RFC 4648) of the JSON `{timestamp, tokenId}`
    and the signature the base64url HMAC-SHA256 (RFC 2104) of that text under
    the server secret. A token is good for 30 days. */
module UnsubscribeToken {
  import opened Common
  import opened Strings

  /** 30 days in milliseconds. */
  const UnsubscribeTokenExpiration: int := 30 * 24 * 60 * 60 * 1000

  /** What a token carries: when it was made (ms) and the id of its record. */
  datatype TokenInput = TokenInput(timestamp: int, tokenId: string)

  /** The library functions the codec is built from, left uninterpreted:
      `JSON.stringify`, `JSON.parse` (`None` when it throws), base64url
      encoding and decoding, and the base64url HMAC-SHA256 digest of a text
      under a key. */
  datatype Codec = Codec(
    stringify: TokenInput -> string,
    parse: string -> Option<TokenInput>,
    encode: string -> string,
    decode: string -> string,
    hmac: (string, string) -> string)

  /** What the codec relies on from those functions: parsing what was
      stringified and decoding what was encoded give it back, and neither
      base64url text contains a `.` (it is not in the alphabet of section 5
      of RFC 4648). */
  ghost predicate Sound(c: Codec)
  {
    && (forall p :: c.parse(c.stringify(p)) == Some(p))
    && (forall s :: c.decode(c.encode(s)) == s)
    && (forall s :: '.' !in c.encode(s))
    && (forall k, m :: '.' !in c.hmac(k, m))
  }

  /** `!process.env.PAYLOAD_SECRET`: the secret is unset or empty. */
  predicate MissingSecret(secret: Option<string>)
  {
    secret.None? || secret.value == ""
  }

  /** `generateUnsubscribeToken`: `None` is the throw for a missing secret. */
  function Generate(secret: Option<string>, now: int, tokenId: string, c: Codec): (r: Option<string>)
    ensures r.None? <==> MissingSecret(secret)
  {
    if MissingSecret(secret) then None
    else
      var inputBase64 := c.encode(c.stringify(TokenInput(now, tokenId)));
      Some(inputBase64 + "." + c.hmac(secret.value, inputBase64))
  }

  /** `verifyUnsubscribeToken`: every failure, including a missing secret and
      a throw inside, is `None`. The constant-time comparison is plain
      equality (a length mismatch throws there and is caught, which is the
      same answer). */
  function Verify(secret: Option<string>, now: int, token: string, c: Codec): (r: Option<TokenInput>)
    ensures MissingSecret(secret) ==> r.None?
    ensures r.Some? ==> now - r.value.timestamp <= UnsubscribeTokenExpiration
  {
    if MissingSecret(secret) then None
    else
      var parts := Split(token, '.');
      if |parts| != 2 then None
      else if parts[1] != c.hmac(secret.value, parts[0]) then None
      else match c.parse(c.decode(parts[0]))
        case None => None
        case Some(input) =>
          if now - input.timestamp > UnsubscribeTokenExpiration then None else Some(input)
  }

  /** A generated token has exactly one `.`, between the payload and its
      signature. */
  lemma GeneratedTokenHasTwoParts(secret: Option<string>, now: int, tokenId: string, c: Codec)
    requires Sound(c) && !MissingSecret(secret)
    ensures var inputBase64 := c.encode(c.stringify(TokenInput(now, tokenId)));
      Split(Generate(secret, now, tokenId, c).value, '.') == [inputBase64, c.hmac(secret.value, inputBase64)]
  {
    var inputBase64 := c.encode(c.stringify(TokenInput(now, tokenId)));
    var parts := [inputBase64, c.hmac(secret.value, inputBase64)];
    SplitJoin(parts, '.');
    assert Join(parts, '.') == inputBase64 + "." + c.hmac(secret.value, inputBase64);
  }

  /** Round trip and expiry: under the same secret a generated token verifies
      to its own id and timestamp exactly when at most 30 days have passed
      (a clock that went back is accepted). */
  lemma VerifyGenerated(secret: Option<string>, now: int, later: int, tokenId: string, c: Codec)
    requires Sound(c) && !MissingSecret(secret)
    ensures later - now <= UnsubscribeTokenExpiration ==>
      Verify(secret, later, Generate(secret, now, tokenId, c).value, c) == Some(TokenInput(now, tokenId))
    ensures later - now > UnsubscribeTokenExpiration ==>
      Verify(secret, later, Generate(secret, now, tokenId, c).value, c).None?
  {
    GeneratedTokenHasTwoParts(secret, now, tokenId, c);
  }

  /** Only a token signed under the secret verifies: it is some payload text,
      a `.`, and the HMAC of that text under the secret, and the text decodes
      to the answer. */
  lemma VerifiedTokenIsSigned(secret: Option<string>, now: int, token: string, c: Codec)
    requires Verify(secret, now, token, c).Some?
    ensures exists payload ::
      (token == payload + "." + c.hmac(secret.value, payload)
       && c.parse(c.decode(payload)) == Verify(secret, now, token, c))
  {
    var parts := Split(token, '.');
    JoinSplit(token, '.');
    assert token == parts[0] + "." + parts[1];
  }

  /** A token that does not split into exactly two parts, or whose second
      part is not the signature of its first, never verifies. */
  lemma VerifyRejectsMalformed(secret: Option<string>, now: int, token: string, c: Codec)
    requires !MissingSecret(secret)
    ensures |Split(token, '.')| != 2 ==> Verify(secret, now, token, c).None?
    ensures var parts := Split(token, '.');
      |parts| == 2 && parts[1] != c.hmac(secret.value, parts[0]) ==> Verify(secret, now, token, c).None?
  {
  }
}
