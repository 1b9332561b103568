/**
 * API-key secrets: the ids and a random part in one presented string. Ids are
 * taken as the bytes of their UTF-8 form.
 */
module Secrets {
  import opened Common
  import opened Base64Url
  import opened Strings

  const SECRET_PREFIX := "ssk"

  datatype ParsedSecret = ParsedSecret(organizationId: Bytes, keyId: Bytes, raw: string)

  function FormatSecret(organizationId: Bytes, keyId: Bytes, raw: string): string {
    Join([SECRET_PREFIX, Encode(organizationId), Encode(keyId), raw], ".")
  }

  function DecodeSegment(segment: string): Option<Bytes> {
    if segment == "" then None
    else if Decode(segment) == [] then None
    else Some(Decode(segment))
  }

  function ParseSecret(presented: string): Option<ParsedSecret> {
    var parts := Split(presented, '.');
    if |parts| != 4 then None
    else if parts[0] != SECRET_PREFIX || parts[3] == "" then None
    else
      var organizationId := DecodeSegment(parts[1]);
      var keyId := DecodeSegment(parts[2]);
      if organizationId.None? || keyId.None? then None
      else Some(ParsedSecret(organizationId.value, keyId.value, parts[3]))
  }

  /** What a formatted secret splits into. */
  lemma FormattedParts(organizationId: Bytes, keyId: Bytes, raw: string)
    ensures Split(FormatSecret(organizationId, keyId, raw), '.') ==
            [SECRET_PREFIX, Encode(organizationId), Encode(keyId)] + Split(raw, '.')
  {
    hide Encode, Split, Join;
    var o, k := Encode(organizationId), Encode(keyId);
    EncodedForm(organizationId);
    EncodedForm(keyId);
    JoinOne(raw, ".");
    JoinCons(k, [raw], ".");
    JoinCons(o, [k, raw], ".");
    JoinCons(SECRET_PREFIX, [o, k, raw], ".");
    assert [k] + [raw] == [k, raw] && [o] + [k, raw] == [o, k, raw];
    assert [SECRET_PREFIX] + [o, k, raw] == [SECRET_PREFIX, o, k, raw];
    assert FormatSecret(organizationId, keyId, raw) == SECRET_PREFIX + "." + (o + "." + (k + "." + raw));
    SplitAfter(k, raw, '.');
    SplitAfter(o, k + "." + raw, '.');
    SplitAfter(SECRET_PREFIX, o + "." + (k + "." + raw), '.');
  }

  /** A formatted secret parses back to its three parts exactly when none is empty and the random part has no dot. */
  lemma ParseFormat(organizationId: Bytes, keyId: Bytes, raw: string)
    ensures ParseSecret(FormatSecret(organizationId, keyId, raw)) == Some(ParsedSecret(organizationId, keyId, raw)) <==>
            organizationId != [] && keyId != [] && raw != "" && '.' !in raw
    ensures organizationId == [] || keyId == [] || raw == "" || '.' in raw ==>
            ParseSecret(FormatSecret(organizationId, keyId, raw)) == None
  {
    hide Encode, Decode, Split, Join;
    FormattedParts(organizationId, keyId, raw);
    SplitWhole(raw, '.');
    DecodeEncode(organizationId);
    EncodedForm(organizationId);
    DecodeEncode(keyId);
    EncodedForm(keyId);
  }

  /** The text is the prefix, two segments that decode to the ids, and the random part, dots between them and in none. */
  ghost predicate Presents(presented: string, organization: string, key: string, secret: ParsedSecret) {
    && '.' !in organization && '.' !in key && '.' !in secret.raw
    && presented == "ssk." + organization + "." + key + "." + secret.raw
    && Decode(organization) == secret.organizationId && Decode(key) == secret.keyId
    && secret.organizationId != [] && secret.keyId != [] && secret.raw != ""
  }

  /** A text parses to a secret exactly when it presents it. */
  lemma ParseIff(presented: string, secret: ParsedSecret)
    ensures ParseSecret(presented) == Some(secret) <==> exists organization, key :: Presents(presented, organization, key, secret)
  {
    hide Decode, Split, Join;
    NothingDecodes();
    if ParseSecret(presented) == Some(secret) {
      var parts := Split(presented, '.');
      JoinSplit(presented, '.');
      PartsHaveNoSeparator(presented, '.');
      var o, k, raw := parts[1], parts[2], parts[3];
      JoinOne(raw, ".");
      JoinCons(k, [raw], ".");
      JoinCons(o, [k, raw], ".");
      JoinCons(SECRET_PREFIX, [o, k, raw], ".");
      assert [k] + [raw] == [k, raw] && [o] + [k, raw] == [o, k, raw];
      assert parts == [SECRET_PREFIX] + [o, k, raw];
      assert presented == "ssk." + o + "." + k + "." + raw;
      assert Presents(presented, o, k, secret);
    }
    if o, k :| Presents(presented, o, k, secret) {
      SplitWhole(secret.raw, '.');
      SplitAfter(k, secret.raw, '.');
      SplitAfter(o, k + "." + secret.raw, '.');
      SplitAfter(SECRET_PREFIX, o + "." + (k + "." + secret.raw), '.');
      assert presented == SECRET_PREFIX + "." + (o + "." + (k + "." + secret.raw));
      assert Split(presented, '.') == [SECRET_PREFIX, o, k, secret.raw];
    }
  }

  lemma NothingDecodes()
    ensures Decode("") == []
  {
  }

  /** Two different keys never share a presented secret. */
  lemma FormatInjective(a: ParsedSecret, b: ParsedSecret)
    requires FormatSecret(a.organizationId, a.keyId, a.raw) == FormatSecret(b.organizationId, b.keyId, b.raw)
    ensures a == b
  {
    hide Encode, Decode, Split, FormatSecret;
    FormattedParts(a.organizationId, a.keyId, a.raw);
    FormattedParts(b.organizationId, b.keyId, b.raw);
    var parts := Split(FormatSecret(a.organizationId, a.keyId, a.raw), '.');
    assert Encode(a.organizationId) == parts[1] == Encode(b.organizationId);
    assert Encode(a.keyId) == parts[2] == Encode(b.keyId);
    EncodeInjective(a.organizationId, b.organizationId);
    EncodeInjective(a.keyId, b.keyId);
    assert Split(a.raw, '.') == parts[3..] == Split(b.raw, '.');
    JoinSplit(a.raw, '.');
    JoinSplit(b.raw, '.');
  }
}
