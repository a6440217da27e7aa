/**
 Compact HS256 tokens (section 7.1 of RFC 7515): signing, verification and the checks of time and
 binding. The keyed hash and JSON are functions; base64url and the segments are computed.
 */
module Jwt {
  import opened Prelude
  import opened Texts
  import Base64url

  const I64_MAX := 0x7fff_ffff_ffff_ffff
  const I64_MIN := -0x8000_0000_0000_0000
  type i64 = x: int | I64_MIN <= x <= I64_MAX

  const HS256 := "HS256"

  datatype Kind = Dashboard | Platform | MfaTemp

  /** The discriminator on the wire. */
  function Name(kind: Kind): string {
    match kind
    case Dashboard => "dashboard"
    case Platform => "platform"
    case MfaTemp => "mfa_challenge"
  }

  /** The claims the checks look at; `rest` stands for the other fields of the claim struct. */
  datatype Claims = Claims(kind: Kind, exp: i64, iat: i64, iss: Option<string>, aud: Option<string>, rest: string)

  datatype JwtError = Malformed | UnsupportedAlg | BadSignature | Expired | Decode

  datatype Options = Options(leeway: u64, validateExp: bool, validateIat: bool, now: i64,
                             expectedIss: Option<string>, expectedAud: Option<string>)

  /** The functions of other libraries: the tag of a text under a key, the fields read from a JSON
      header, the `type` field read from a JSON payload, and JSON from and to claim structs. */
  datatype Codec = Codec(
    header: seq<byte>,
    mac: (seq<byte>, string) -> seq<byte>,
    alg: seq<byte> -> Option<string>,
    peek: seq<byte> -> Option<string>,
    decode: (Kind, seq<byte>) -> Option<Claims>,
    encode: Claims -> seq<byte>)
  {
    /** Claims read back as they were written, with their discriminator, and the constant header names
        the pinned algorithm. */
    ghost predicate Valid() {
      && alg(header) == Some(HS256)
      && (forall c: Claims :: decode(c.kind, encode(c)) == Some(c) && peek(encode(c)) == Some(Name(c.kind)))
    }
  }

  // Time.

  function SaturatingAdd(a: i64, b: i64): i64 {
    if a + b > I64_MAX then I64_MAX else if a + b < I64_MIN then I64_MIN else a + b
  }

  function Leeway(opts: Options): i64 {
    if opts.leeway < I64_MAX then opts.leeway else I64_MAX
  }

  /** `validate_temporal`. */
  function TimeError(c: Claims, opts: Options): Option<JwtError> {
    if opts.validateExp && opts.now >= SaturatingAdd(c.exp, Leeway(opts)) then Some(Expired)
    else if opts.validateIat && c.iat > SaturatingAdd(opts.now, Leeway(opts)) then Some(Malformed)
    else None
  }

  /** The window of sections 4.1.4 and 4.1.6 of RFC 7519, on unbounded integers. */
  predicate Timely(c: Claims, opts: Options) {
    var leeway := if opts.leeway < I64_MAX then opts.leeway else I64_MAX;
    (opts.validateExp ==> opts.now < c.exp + leeway) && (opts.validateIat ==> c.iat <= opts.now + leeway)
  }

  /** The saturating check is the exact window, except at the last representable second for a token
      whose extended expiry lies beyond it. */
  lemma SaturationIff(c: Claims, opts: Options)
    ensures (TimeError(c, opts).None? <==> Timely(c, opts)) <==> !AtTheEnd(c, opts)
    ensures TimeError(c, opts).None? <==> Timely(c, opts) && !AtTheEnd(c, opts)
  {
  }

  /** It is the last representable second, and the extended expiry lies beyond it. */
  predicate AtTheEnd(c: Claims, opts: Options) {
    && opts.validateExp && opts.now == I64_MAX
    && c.exp + (if opts.leeway < I64_MAX then opts.leeway else I64_MAX) > I64_MAX
  }

  /** It is refused there although the exact window accepts it. */
  lemma LastSecondRefuses()
    ensures var c := Claims(Dashboard, I64_MAX, 0, None, None, "");
            var opts := Options(1, true, true, I64_MAX, None, None);
            Timely(c, opts) && TimeError(c, opts) == Some(Expired)
  {
  }

  /** A longer leeway never refuses what a shorter one accepts. */
  lemma LeewayIsMonotone(c: Claims, opts: Options, longer: u64)
    requires opts.leeway <= longer && TimeError(c, opts).None?
    ensures TimeError(c, opts.(leeway := longer)).None?
  {
  }

  // Binding.

  predicate Matches(expected: Option<string>, actual: Option<string>) {
    expected.Some? ==> actual == expected
  }

  predicate Bound(c: Claims, opts: Options) {
    Matches(opts.expectedIss, c.iss) && Matches(opts.expectedAud, c.aud)
  }

  // Tokens.

  function Sign(codec: Codec, c: Claims, key: seq<byte>): string {
    var input := Base64url.Encoded(codec.header) + "." + Base64url.Encoded(codec.encode(c));
    input + "." + Base64url.Encoded(codec.mac(key, input))
  }

  /** The claims and binding checks that follow the signature. */
  function Accept(c: Claims, opts: Options): Result<Claims, JwtError> {
    if TimeError(c, opts).Some? then Err(TimeError(c, opts).value)
    else if !Bound(c, opts) then Err(Malformed)
    else Ok(c)
  }

  /** `verify`: the algorithm before the signature, the signature before the claims. */
  function Verify(codec: Codec, kind: Kind, token: string, key: seq<byte>, opts: Options): Result<Claims, JwtError> {
    var segments := Split(token, '.');
    if |segments| != 3 then Err(Malformed)
    else
      var header := Base64url.Decoded(segments[0]);
      if header.None? || codec.alg(header.value).None? then Err(Malformed)
      else if codec.alg(header.value).value != HS256 then Err(UnsupportedAlg)
      else
        var expected := codec.mac(key, segments[0] + "." + segments[1]);
        var provided := Base64url.Decoded(segments[2]);
        if provided.None? then Err(Malformed)
        else if expected != provided.value then Err(BadSignature)
        else
          var payload := Base64url.Decoded(segments[1]);
          if payload.None? then Err(Malformed)
          else
            var claims := codec.decode(kind, payload.value);
            if claims.None? then Err(Decode) else Accept(claims.value, opts)
  }

  /** The payload of a token, unauthenticated. */
  function Payload(token: string): Result<seq<byte>, JwtError> {
    var segments := Split(token, '.');
    if |segments| != 3 || Base64url.Decoded(segments[1]).None? then Err(Malformed)
    else Ok(Base64url.Decoded(segments[1]).value)
  }

  lemma EncodedHasNoDot(bytes: seq<byte>)
    ensures '.' !in Base64url.Encoded(bytes)
  {
    Base64url.Length(bytes);
  }

  /** What an accepted token is: the base64url of a header naming HS256, of a payload that decodes to
      the claims, and of the tag of those two segments as written, joined by dots; and time and binding
      allow the claims. */
  ghost predicate Genuine(codec: Codec, kind: Kind, token: string, key: seq<byte>, header: seq<byte>, payload: seq<byte>,
                          c: Claims)
  {
    var input := Base64url.Encoded(header) + "." + Base64url.Encoded(payload);
    && codec.alg(header) == Some(HS256)
    && codec.decode(kind, payload) == Some(c)
    && token == input + "." + Base64url.Encoded(codec.mac(key, input))
  }

  lemma GenuineSegments(codec: Codec, kind: Kind, token: string, key: seq<byte>, header: seq<byte>, payload: seq<byte>,
                        c: Claims)
    requires Genuine(codec, kind, token, key, header, payload, c)
    ensures var h, p := Base64url.Encoded(header), Base64url.Encoded(payload);
            && Split(token, '.') == [h, p, Base64url.Encoded(codec.mac(key, h + "." + p))]
            && Base64url.Decoded(h) == Some(header) && Base64url.Decoded(p) == Some(payload)
  {
    var h, p := Base64url.Encoded(header), Base64url.Encoded(payload);
    var tag := codec.mac(key, h + "." + p);
    EncodedHasNoDot(header);
    EncodedHasNoDot(payload);
    EncodedHasNoDot(tag);
    JoinThree(h, p, Base64url.Encoded(tag), '.');
    Base64url.DecodeEncode(header);
    Base64url.DecodeEncode(payload);
  }

  /** A genuine token is judged by time and binding alone. */
  lemma GenuineIsJudged(codec: Codec, kind: Kind, token: string, key: seq<byte>, header: seq<byte>, payload: seq<byte>,
                        c: Claims, opts: Options)
    requires Genuine(codec, kind, token, key, header, payload, c)
    ensures Verify(codec, kind, token, key, opts) == Accept(c, opts)
    ensures Payload(token) == Ok(payload)
  {
    GenuineSegments(codec, kind, token, key, header, payload, c);
    Base64url.DecodeEncode(codec.mac(key, Base64url.Encoded(header) + "." + Base64url.Encoded(payload)));
  }

  /** And nothing else is accepted. */
  lemma AcceptedIsGenuine(codec: Codec, kind: Kind, token: string, key: seq<byte>, opts: Options) returns (header: seq<byte>)
    requires Verify(codec, kind, token, key, opts).Ok?
    ensures Payload(token).Ok?
    ensures var c := Verify(codec, kind, token, key, opts).value;
            Genuine(codec, kind, token, key, header, Payload(token).value, c) && Accept(c, opts) == Ok(c)
  {
    var segments := Split(token, '.');
    SplitThree(token, '.');
    header := Base64url.Decoded(segments[0]).value;
    Base64url.EncodeDecode(segments[0]);
    Base64url.EncodeDecode(segments[1]);
    Base64url.EncodeDecode(segments[2]);
  }

  /** `verify` answers some claims exactly when the token is genuine for them, they are timely, but for the last
      representable second, and they carry every issuer and audience that is expected. */
  lemma VerifiesIff(codec: Codec, kind: Kind, token: string, key: seq<byte>, opts: Options, c: Claims)
    ensures Verify(codec, kind, token, key, opts) == Ok(c) <==>
              && (exists header, payload :: Genuine(codec, kind, token, key, header, payload, c))
              && Timely(c, opts) && !AtTheEnd(c, opts)
              && (opts.expectedIss.Some? ==> c.iss == opts.expectedIss)
              && (opts.expectedAud.Some? ==> c.aud == opts.expectedAud)
  {
    SaturationIff(c, opts);
    if Verify(codec, kind, token, key, opts) == Ok(c) {
      var header := AcceptedIsGenuine(codec, kind, token, key, opts);
      assert Genuine(codec, kind, token, key, header, Payload(token).value, c);
    }
    if header, payload :| Genuine(codec, kind, token, key, header, payload, c) {
      GenuineIsJudged(codec, kind, token, key, header, payload, c, opts);
    }
  }

  /** Signing and verifying with one key gives the claims back whenever time and binding allow them. */
  lemma SignedVerifies(codec: Codec, c: Claims, key: seq<byte>, opts: Options)
    requires codec.Valid()
    ensures Verify(codec, c.kind, Sign(codec, c, key), key, opts) == Accept(c, opts)
    ensures Payload(Sign(codec, c, key)) == Ok(codec.encode(c))
  {
    assert Genuine(codec, c.kind, Sign(codec, c, key), key, codec.header, codec.encode(c), c);
    GenuineIsJudged(codec, c.kind, Sign(codec, c, key), key, codec.header, codec.encode(c), c, opts);
  }

  /** An accepted token has one spelling: its first two segments determine the third. */
  lemma OneSpelling(codec: Codec, kind: Kind, a: string, b: string, key: seq<byte>, opts: Options)
    requires Verify(codec, kind, a, key, opts).Ok? && Verify(codec, kind, b, key, opts).Ok?
    requires Split(a, '.')[..2] == Split(b, '.')[..2]
    ensures a == b
  {
    SplitThree(a, '.');
    SplitThree(b, '.');
    var s, t := Split(a, '.'), Split(b, '.');
    assert s[0] == s[..2][0] && t[0] == t[..2][0] && s[1] == s[..2][1] && t[1] == t[..2][1];
    Base64url.EncodeDecode(s[2]);
    Base64url.EncodeDecode(t[2]);
  }

  // Retired keys.

  /** Whichever key accepts a token, it reads the same claims. */
  lemma AcceptedAlike(codec: Codec, kind: Kind, token: string, key: seq<byte>, other: seq<byte>, opts: Options)
    requires Verify(codec, kind, token, key, opts).Ok? && Verify(codec, kind, token, other, opts).Ok?
    ensures Verify(codec, kind, token, key, opts) == Verify(codec, kind, token, other, opts)
  {
    var _ := AcceptedIsGenuine(codec, kind, token, key, opts);
    var _ := AcceptedIsGenuine(codec, kind, token, other, opts);
  }

  /** `verify_rotating_with`: a token is accepted exactly when the current or some retired key accepts
      it, with the claims any such key reads; a refusal is the current key's. */
  method VerifyRotating(codec: Codec, kind: Kind, token: string, key: seq<byte>, retired: seq<seq<byte>>, opts: Options)
    returns (r: Result<Claims, JwtError>)
    ensures r.Ok? <==> exists k :: (k == key || k in retired) && Verify(codec, kind, token, k, opts).Ok?
    ensures forall k | (k == key || k in retired) && Verify(codec, kind, token, k, opts).Ok? ::
              r == Verify(codec, kind, token, k, opts)
    ensures r.Err? ==> r == Verify(codec, kind, token, key, opts)
  {
    r := Verify(codec, kind, token, key, opts);
    var i := 0;
    while r.Err? && i < |retired|
      invariant 0 <= i <= |retired|
      invariant r.Err? ==> r == Verify(codec, kind, token, key, opts)
      invariant r.Err? ==> forall j | 0 <= j < i :: Verify(codec, kind, token, retired[j], opts).Err?
      invariant r.Ok? ==>
        exists k :: (k == key || k in retired) && Verify(codec, kind, token, k, opts).Ok? && r == Verify(codec, kind, token, k, opts)
    {
      var claims := Verify(codec, kind, token, retired[i], opts);
      if claims.Ok? {
        assert retired[i] in retired;
        r := claims;
      }
      i := i + 1;
    }
    forall k | (k == key || k in retired) && Verify(codec, kind, token, k, opts).Ok?
      ensures r == Verify(codec, kind, token, k, opts)
    {
      if r.Ok? {
        var m :| (m == key || m in retired) && Verify(codec, kind, token, m, opts).Ok? && r == Verify(codec, kind, token, m, opts);
        AcceptedAlike(codec, kind, token, k, m, opts);
      }
    }
  }

  /** Whatever key accepts a signed token, it reads the claims that were signed, and the signing key
      accepts the token too. */
  lemma AnyKeyReadsTheSigned(codec: Codec, c: Claims, signer: seq<byte>, key: seq<byte>, opts: Options)
    requires codec.Valid() && Verify(codec, c.kind, Sign(codec, c, signer), key, opts).Ok?
    ensures Verify(codec, c.kind, Sign(codec, c, signer), key, opts) == Ok(c)
    ensures Verify(codec, c.kind, Sign(codec, c, signer), signer, opts) == Ok(c)
  {
    SignedVerifies(codec, c, signer, opts);
    var _ := AcceptedIsGenuine(codec, c.kind, Sign(codec, c, signer), key, opts);
  }
}
