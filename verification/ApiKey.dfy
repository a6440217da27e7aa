/** Service API keys: the grammar `{prefix}_{key_id}_{secret}`, fresh secrets, and stored digests. */
module ApiKey {
  import opened Prelude
  import Base64url
  import Hex

  const SEPARATOR := '_'
  const KEY_ID_LEN := 36
  const SECRET_LEN := 43
  const SECRET_BYTES := 32
  const DIGEST_LEN := 32

  datatype Parsed = Parsed(keyId: string, secret: string)

  function Format(prefix: string, keyId: string, secret: string): string {
    prefix + [SEPARATOR] + keyId + [SEPARATOR] + secret
  }

  /** A canonical lower-case UUID: 8-4-4-4-12. */
  predicate IsKeyId(s: string) {
    |s| == KEY_ID_LEN &&
    forall i | 0 <= i < |s| :: if i in {8, 13, 18, 23} then s[i] == '-' else Hex.IsDigit(s[i])
  }

  predicate IsSecret(s: string) {
    |s| == SECRET_LEN && Base64url.Alphabetic(s)
  }

  function StripPrefix(raw: string, prefix: string): Option<string> {
    if prefix <= raw then Some(raw[|prefix|..]) else None
  }

  /** `parse`: splits on the first two separators only. */
  function Parse(raw: string, prefix: string): Option<Parsed> {
    var tail := StripPrefix(raw, prefix);
    if tail.None? then None
    else
      var body := StripPrefix(tail.value, [SEPARATOR]);
      if body.None? then None
      else
        var rest := body.value;
        if |rest| <= KEY_ID_LEN || rest[KEY_ID_LEN] != SEPARATOR then None
        else
          var keyId, secret := rest[..KEY_ID_LEN], rest[KEY_ID_LEN + 1..];
          if IsKeyId(keyId) && IsSecret(secret) then Some(Parsed(keyId, secret)) else None
  }

  lemma ParsedIsFormatted(raw: string, prefix: string)
    requires Parse(raw, prefix).Some?
    ensures var parts := Parse(raw, prefix).value;
            IsKeyId(parts.keyId) && IsSecret(parts.secret) && raw == Format(prefix, parts.keyId, parts.secret)
  {
    var tail := raw[|prefix|..];
    var rest := tail[1..];
    assert raw == prefix + tail && tail == [SEPARATOR] + rest;
    assert rest == rest[..KEY_ID_LEN] + [SEPARATOR] + rest[KEY_ID_LEN + 1..];
  }

  lemma FormattedParses(prefix: string, keyId: string, secret: string)
    requires IsKeyId(keyId) && IsSecret(secret)
    ensures Parse(Format(prefix, keyId, secret), prefix) == Some(Parsed(keyId, secret))
  {
    var raw := Format(prefix, keyId, secret);
    var rest := keyId + [SEPARATOR] + secret;
    assert raw[|prefix|..] == [SEPARATOR] + rest;
    assert ([SEPARATOR] + rest)[1..] == rest;
    assert rest[..KEY_ID_LEN] == keyId && rest[KEY_ID_LEN + 1..] == secret;
  }

  /** A string parses to some parts exactly when they are well formed and it is their key, even
      though a secret may hold the separator. */
  lemma ParsesIff(raw: string, prefix: string, keyId: string, secret: string)
    ensures Parse(raw, prefix) == Some(Parsed(keyId, secret)) <==>
              IsKeyId(keyId) && IsSecret(secret) && raw == prefix + "_" + keyId + "_" + secret
  {
    if Parse(raw, prefix) == Some(Parsed(keyId, secret)) {
      ParsedIsFormatted(raw, prefix);
    }
    if IsKeyId(keyId) && IsSecret(secret) {
      FormattedParses(prefix, keyId, secret);
    }
  }

  /** No string parses under two prefixes. */
  lemma OnePrefix(raw: string, p: string, q: string)
    requires Parse(raw, p).Some? && Parse(raw, q).Some?
    ensures p == q && Parse(raw, p) == Parse(raw, q)
  {
    var a, b := Parse(raw, p).value, Parse(raw, q).value;
    ParsesIff(raw, p, a.keyId, a.secret);
    ParsesIff(raw, q, b.keyId, b.secret);
    assert |p| == |raw| - KEY_ID_LEN - SECRET_LEN - 2 == |q|;
    assert raw[..|p|] == p && raw[..|q|] == q;
  }

  /** Any draw of 32 bytes is a secret; a key issued with it parses under the issuing prefix, and the
      draw can be read back from what was parsed. */
  lemma FreshKeyParses(prefix: string, keyId: string, draw: seq<byte>)
    requires |draw| == SECRET_BYTES && IsKeyId(keyId)
    ensures var secret := Base64url.Encoded(draw);
            && IsSecret(secret)
            && Parse(Format(prefix, keyId, secret), prefix) == Some(Parsed(keyId, secret))
            && Base64url.Decoded(secret) == Some(draw)
  {
    Base64url.Length(draw);
    Base64url.DecodeEncode(draw);
    ParsesIff(Format(prefix, keyId, Base64url.Encoded(draw)), prefix, keyId, Base64url.Encoded(draw));
  }

  // Digests.

  predicate WellFormed(hex: string) {
    |hex| == 2 * DIGEST_LEN && Hex.Digits(hex)
  }

  /** `decode_digest`: the encoded bytes, or zeros for anything that encodes no 32 bytes. */
  method DecodeDigest(hex: string) returns (digest: array<byte>, wellFormed: bool)
    ensures fresh(digest) && digest.Length == DIGEST_LEN
    ensures wellFormed <==> WellFormed(hex)
    ensures if wellFormed then Hex.Encoded(digest[..]) == hex else forall i | 0 <= i < DIGEST_LEN :: digest[i] == 0
  {
    wellFormed := |hex| == 2 * DIGEST_LEN && Hex.Digits(hex);
    digest := new byte[DIGEST_LEN](_ => 0);
    if wellFormed {
      for i := 0 to DIGEST_LEN
        invariant forall k | 0 <= k < i :: digest[k] == Hex.Pair(hex, k)
      {
        digest[i] := Hex.Nibble(hex[2 * i]) as int * 16 + Hex.Nibble(hex[2 * i + 1]) as int;
      }
      Hex.SpellsIff(hex, digest[..]);
    }
  }

  /** `digests_match`: two digests match exactly when they are the same well-formed text; a malformed
      one matches nothing, not even itself. */
  method DigestsMatch(computed: string, stored: string) returns (r: bool)
    ensures r <==> WellFormed(computed) && computed == stored
  {
    var left, leftOk := DecodeDigest(computed);
    var right, rightOk := DecodeDigest(stored);
    var equal := left[..] == right[..];
    r := equal && leftOk && rightOk;
    if leftOk && rightOk && computed == stored {
      Hex.Injective(left[..], right[..]);
    }
  }

  /** The well-formed texts are the encodings of 32 bytes. */
  lemma WellFormedIff(hex: string)
    ensures WellFormed(hex) <==> exists digest: seq<byte> :: |digest| == DIGEST_LEN && Hex.Encoded(digest) == hex
  {
    if WellFormed(hex) {
      var digest := seq(DIGEST_LEN, i requires 0 <= i < DIGEST_LEN => Hex.Pair(hex, i));
      Hex.SpellsIff(hex, digest);
    }
    if digest: seq<byte> :| |digest| == DIGEST_LEN && Hex.Encoded(digest) == hex {
      Hex.SpellsIff(hex, digest);
    }
  }
}
