/**
 * Access tokens in compact form (section 7.1 of RFC 7515). The signature is an
 * abstract function of the text it signs, and writing a payload as JSON is
 * undone by reading it. Times are in milliseconds.
 */
module AccessTokens {
  import opened Common
  import opened Base64Url
  import opened Strings

  datatype Claims = Claims(memberId: string, sessionId: string, expiresAt: int)

  datatype Payload = Payload(sub: string, sid: string, iat: int, exp: int)

  datatype TokenError = Malformed | BadSignature | BadPayload | Expired

  /** The keyed hash, and JSON: the header, and payloads as bytes. Reading fails on text that carries no valid claims. */
  datatype Codec = Codec(mac: string -> Bytes, header: Bytes, write: Payload -> Bytes, read: Bytes -> Option<Payload>)

  ghost predicate Lawful(c: Codec) {
    forall p :: c.read(c.write(p)) == Some(p)
  }

  function Sign(c: Codec, signingInput: string): string {
    EncodeByHand(c.mac(signingInput))
  }

  function SigningInput(c: Codec, claims: Claims, now: int): string {
    EncodeByHand(c.header) + "." +
    EncodeByHand(c.write(Payload(claims.memberId, claims.sessionId, now / 1000, claims.expiresAt / 1000)))
  }

  function Issue(c: Codec, claims: Claims, now: int): string {
    SigningInput(c, claims, now) + "." + Sign(c, SigningInput(c, claims, now))
  }

  function Verify(c: Codec, token: string, now: int): Result<Claims, TokenError> {
    var parts := Split(token, '.');
    if |parts| != 3 then Err(Malformed)
    else if parts[2] != Sign(c, parts[0] + "." + parts[1]) then Err(BadSignature)
    else
      match c.read(DecodeByHand(parts[1]))
      case None => Err(BadPayload)
      case Some(payload) =>
        if now >= payload.exp * 1000 then Err(Expired)
        else Ok(Claims(payload.sub, payload.sid, payload.exp * 1000))
  }

  /** A text of three dotless parts splits into them. */
  lemma ThreeParts(a: string, b: string, d: string)
    requires '.' !in a && '.' !in b && '.' !in d
    ensures Split(a + "." + b + "." + d, '.') == [a, b, d]
  {
    hide Split;
    SplitWhole(d, '.');
    SplitAfter(b, d, '.');
    SplitAfter(a, b + "." + d, '.');
    assert a + "." + b + "." + d == a + "." + (b + "." + d);
  }

  /**
   * An issued token verifies to the same member and session, its expiry floored
   * to the second, exactly until that floored expiry; from then on it is expired.
   */
  lemma VerifyIssue(c: Codec, claims: Claims, issuedAt: int, now: int)
    requires Lawful(c)
    ensures var floored := claims.expiresAt / 1000 * 1000;
            Verify(c, Issue(c, claims, issuedAt), now) ==
            if now < floored then Ok(Claims(claims.memberId, claims.sessionId, floored)) else Err(Expired)
    ensures claims.expiresAt / 1000 * 1000 <= claims.expiresAt < claims.expiresAt / 1000 * 1000 + 1000
  {
    hide Split, EncodeByHand, DecodeByHand, Encode;
    var payload := Payload(claims.memberId, claims.sessionId, issuedAt / 1000, claims.expiresAt / 1000);
    var body := c.write(payload);
    var signature := c.mac(SigningInput(c, claims, issuedAt));
    ByHandIsTheSame(c.header);
    ByHandIsTheSame(body);
    ByHandIsTheSame(signature);
    DecodeEncode(c.header);
    EncodedForm(c.header);
    DecodeEncode(body);
    EncodedForm(body);
    DecodeEncode(signature);
    EncodedForm(signature);
    ThreeParts(EncodeByHand(c.header), EncodeByHand(body), EncodeByHand(signature));
  }

  /** The token is a header and a body without dots, and the encoded hash of the two. */
  ghost predicate SignedParts(c: Codec, token: string, header: string, body: string) {
    && '.' !in header && '.' !in body
    && token == header + "." + body + "." + Encode(c.mac(header + "." + body))
  }

  /** The claims are those that the body carries, and their time has not come. */
  ghost predicate Carries(c: Codec, body: string, claims: Claims, now: int) {
    var payload := c.read(DecodeByHand(body));
    payload.Some? && now < payload.value.exp * 1000 &&
    claims == Claims(payload.value.sub, payload.value.sid, payload.value.exp * 1000)
  }

  /** A token is accepted with claims exactly when it is signed as it should be and its body carries them. */
  lemma AcceptedIff(c: Codec, token: string, now: int, claims: Claims)
    ensures Verify(c, token, now) == Ok(claims) <==>
            exists header, body :: SignedParts(c, token, header, body) && Carries(c, body, claims, now)
  {
    hide Encode, EncodeByHand, DecodeByHand, Split;
    if Verify(c, token, now) == Ok(claims) {
      var parts := Split(token, '.');
      var input := parts[0] + "." + parts[1];
      JoinSplit(token, '.');
      assert parts == [parts[0], parts[1], parts[2]];
      assert Join([parts[2]], ".") == parts[2];
      JoinCons(parts[1], [parts[2]], ".");
      JoinCons(parts[0], [parts[1], parts[2]], ".");
      ByHandIsTheSame(c.mac(input));
      assert token == input + "." + parts[2];
      PartsHaveNoSeparator(token, '.');
      assert SignedParts(c, token, parts[0], parts[1]) && Carries(c, parts[1], claims, now);
    }
    if header, body :| SignedParts(c, token, header, body) && Carries(c, body, claims, now) {
      var input := header + "." + body;
      ByHandIsTheSame(c.mac(input));
      EncodedForm(c.mac(input));
      ThreeParts(header, body, Encode(c.mac(input)));
    }
  }

  /** What is signed is the text before the last dot; nothing else of an accepted token can vary. */
  lemma AcceptedIsSigned(c: Codec, token: string, now: int)
    requires Verify(c, token, now).Ok?
    ensures exists input :: token == input + "." + Sign(c, input)
    ensures now < Verify(c, token, now).value.expiresAt
  {
    hide Sign;
    var parts := Split(token, '.');
    JoinSplit(token, '.');
    assert parts == [parts[0], parts[1], parts[2]];
    assert Join([parts[2]], ".") == parts[2];
    JoinCons(parts[1], [parts[2]], ".");
    JoinCons(parts[0], [parts[1], parts[2]], ".");
    var input := parts[0] + "." + parts[1];
    assert token == input + "." + Sign(c, input);
  }

  /** Two accepted tokens that sign the same text are the same token. */
  lemma NoSecondSignature(c: Codec, input: string, a: string, b: string, now: int)
    requires '.' !in a && '.' !in b
    requires Verify(c, input + "." + a, now).Ok? && Verify(c, input + "." + b, now).Ok?
    ensures a == b
  {
    hide Sign;
    SignatureIsLast(c, input, a, now);
    SignatureIsLast(c, input, b, now);
  }

  lemma SignatureIsLast(c: Codec, input: string, signature: string, now: int)
    requires '.' !in signature && Verify(c, input + "." + signature, now).Ok?
    ensures signature == Sign(c, input)
  {
    hide Sign;
    var token := input + "." + signature;
    AcceptedIsSigned(c, token, now);
    var other :| token == other + "." + Sign(c, other);
    SignHasNoDot(c, other);
    LastDot(input, signature, other, Sign(c, other));
  }

  lemma SignHasNoDot(c: Codec, input: string)
    ensures '.' !in Sign(c, input)
  {
    ByHandIsTheSame(c.mac(input));
    EncodedForm(c.mac(input));
  }

  lemma LastDot(a: string, d: string, b: string, e: string)
    requires '.' !in d && '.' !in e && a + "." + d == b + "." + e
    ensures a == b && d == e
  {
    var s := a + "." + d;
    assert forall k :: |a| < k < |s| ==> s[k] == d[k - |a| - 1];
    assert forall k :: |b| < k < |s| ==> s[k] == e[k - |b| - 1];
    assert s[|a|] == '.' && s[|b|] == '.';
    assert |a| == |b|;
    assert a == s[..|a|] && b == s[..|b|] && d == s[|a| + 1..] && e == s[|b| + 1..];
  }
}
