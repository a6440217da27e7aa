/** Verification at the edge: dispatch on the unauthenticated discriminator, then the server's codec. */
module JwtEdge {
  import opened Prelude
  import opened Jwt
  import Base64url

  const DEFAULT_LEEWAY := 30
  const MAX_LEEWAY := 300

  datatype EdgeError = Refused(error: JwtError) | BadToken | UnknownType

  /** The clock tolerance of a call: thirty seconds unless given, never more than three hundred. */
  function EdgeLeeway(given: Option<u32>): u64 {
    var wanted := if given.Some? then given.value else DEFAULT_LEEWAY;
    if wanted < MAX_LEEWAY then wanted else MAX_LEEWAY
  }

  function EdgeOptions(leeway: u64, now: i64, iss: Option<string>, aud: Option<string>): Options {
    Options(leeway, true, true, now, iss, aud)
  }

  function PeekKind(codec: Jwt.Codec, token: string): Result<Kind, EdgeError> {
    var payload := Payload(token);
    if payload.Err? then Err(Refused(payload.error))
    else
      var name := codec.peek(payload.value);
      if name.None? then Err(Refused(Decode))
      else if name.value == "dashboard" then Ok(Dashboard)
      else if name.value == "platform" then Ok(Platform)
      else if name.value == "mfa_challenge" then Ok(MfaTemp)
      else Err(UnknownType)
  }

  /** `verify_claims_json`, up to the printing of the claims. */
  function EdgeVerify(codec: Jwt.Codec, token: string, key: seq<byte>, opts: Options, expected: Option<string>):
    Result<Claims, EdgeError>
  {
    var kind := PeekKind(codec, token);
    if expected.Some? && kind.Ok? && Name(kind.value) != expected.value then Err(BadToken)
    else if kind.Err? then Err(kind.error)
    else
      var verified := Verify(codec, kind.value, token, key, opts);
      if verified.Err? then Err(Refused(verified.error)) else Ok(verified.value)
  }

  /** `extract_claims_json`, up to the printing of the claims: nothing is authenticated. */
  function Extract(codec: Jwt.Codec, token: string): Result<Claims, EdgeError> {
    var kind := PeekKind(codec, token);
    if kind.Err? then Err(kind.error)
    else
      var claims := codec.decode(kind.value, Payload(token).value);
      if claims.None? then Err(Refused(Decode)) else Ok(claims.value)
  }

  lemma PeekedName(codec: Jwt.Codec, token: string, kind: Kind)
    ensures PeekKind(codec, token) == Ok(kind) <==> Payload(token).Ok? && codec.peek(Payload(token).value) == Some(Name(kind))
  {
  }

  /** The edge, asked for a type, accepts exactly what the server accepts into that type's claims and
      whose payload names the type as a plain `type` field. */
  lemma EdgeAcceptsIff(codec: Jwt.Codec, token: string, key: seq<byte>, opts: Options, kind: Kind, c: Claims)
    ensures EdgeVerify(codec, token, key, opts, Some(Name(kind))) == Ok(c) <==>
              && Verify(codec, kind, token, key, opts) == Ok(c)
              && codec.peek(Payload(token).value) == Some(Name(kind))
    ensures Verify(codec, kind, token, key, opts).Ok? ==> Payload(token).Ok?
  {
    PeekedName(codec, token, kind);
    if Verify(codec, kind, token, key, opts).Ok? {
      var _ := AcceptedIsGenuine(codec, kind, token, key, opts);
    }
    var peeked := PeekKind(codec, token);
    if peeked.Ok? {
      NamesDiffer(peeked.value, kind);
    }
  }

  lemma NamesDiffer(a: Kind, b: Kind)
    ensures Name(a) == Name(b) <==> a == b
  {
    if a != b {
      assert |Name(a)| != |Name(b)|;
    }
  }

  /** So edge and server disagree on a token exactly when the server accepts it into the expected type from a
      payload that does not name the type as a plain `type` field; then the edge refuses it. */
  lemma EdgeDisagreesIff(codec: Jwt.Codec, token: string, key: seq<byte>, opts: Options, kind: Kind)
    ensures var edge, server := EdgeVerify(codec, token, key, opts, Some(Name(kind))), Verify(codec, kind, token, key, opts);
            && (edge.Ok? ==> server.Ok? && edge.value == server.value)
            && (server.Ok? && edge.Err? <==> server.Ok? && codec.peek(Payload(token).value) != Some(Name(kind)))
    ensures Verify(codec, kind, token, key, opts).Ok? ==> Payload(token).Ok?
  {
    var edge, server := EdgeVerify(codec, token, key, opts, Some(Name(kind))), Verify(codec, kind, token, key, opts);
    if server.Ok? {
      EdgeAcceptsIff(codec, token, key, opts, kind, server.value);
    }
    if edge.Ok? {
      EdgeAcceptsIff(codec, token, key, opts, kind, edge.value);
    }
  }

  /** A JSON library that reads claims from one more payload, with a discriminator the edge does not see: the claim
      struct also takes it as a map of one field, `{"dashboard": null}`, which is no string. */
  function Nested(codec: Jwt.Codec, c: Claims, payload: seq<byte>): Jwt.Codec {
    codec.(decode := (kind, bytes) => if kind == c.kind && bytes == payload then Some(c) else codec.decode(kind, bytes),
           peek := bytes => if bytes == payload then None else codec.peek(bytes))
  }

  /** Such a token is reached: the server accepts it into the claims, the edge refuses it. */
  lemma NestedTypeDisagrees(codec: Jwt.Codec, c: Claims, payload: seq<byte>, key: seq<byte>, opts: Options)
    requires codec.Valid() && (forall d: Claims :: codec.encode(d) != payload) && Accept(c, opts).Ok?
    ensures var nested := Nested(codec, c, payload);
            var input := Base64url.Encoded(codec.header) + "." + Base64url.Encoded(payload);
            var token := input + "." + Base64url.Encoded(codec.mac(key, input));
            && nested.Valid()
            && Verify(nested, c.kind, token, key, opts) == Ok(c)
            && EdgeVerify(nested, token, key, opts, Some(Name(c.kind))) == Err(Refused(Decode))
  {
    var nested := Nested(codec, c, payload);
    var input := Base64url.Encoded(codec.header) + "." + Base64url.Encoded(payload);
    var token := input + "." + Base64url.Encoded(codec.mac(key, input));
    forall d: Claims
      ensures nested.decode(d.kind, nested.encode(d)) == Some(d) && nested.peek(nested.encode(d)) == Some(Name(d.kind))
    {
      assert codec.encode(d) != payload;
    }
    GenuineIsJudged(nested, c.kind, token, key, codec.header, payload, c, opts);
  }

  /** On every token the server signed, whatever its type and whatever type is asked for: the edge
      accepts it as the server does if the types agree, and refuses it otherwise. */
  lemma SignedAtTheEdge(codec: Jwt.Codec, c: Claims, key: seq<byte>, verifyKey: seq<byte>, opts: Options, kind: Kind)
    requires codec.Valid()
    ensures var token := Sign(codec, c, key);
            if kind == c.kind then
              EdgeVerify(codec, token, verifyKey, opts, Some(Name(kind))) ==
              (match Verify(codec, kind, token, verifyKey, opts) case Ok(d) => Ok(d) case Err(e) => Err(Refused(e)))
            else EdgeVerify(codec, token, verifyKey, opts, Some(Name(kind))) == Err(BadToken)
  {
    SignedVerifies(codec, c, key, opts);
    PeekedName(codec, Sign(codec, c, key), c.kind);
    NamesDiffer(c.kind, kind);
  }

  /** Asked for no type, or for one that does not exist. */
  lemma EdgeOtherwise(codec: Jwt.Codec, token: string, key: seq<byte>, opts: Options, c: Claims, name: string)
    ensures EdgeVerify(codec, token, key, opts, None) == Ok(c) <==>
              exists kind: Kind :: EdgeVerify(codec, token, key, opts, Some(Name(kind))) == Ok(c)
    ensures (forall kind: Kind :: name != Name(kind)) ==> EdgeVerify(codec, token, key, opts, Some(name)).Err?
  {
    var peeked := PeekKind(codec, token);
    if peeked.Ok? {
      assert EdgeVerify(codec, token, key, opts, None) == EdgeVerify(codec, token, key, opts, Some(Name(peeked.value)));
    }
  }

  /** What the edge verifies is what it would display. */
  lemma VerifiedIsExtracted(codec: Jwt.Codec, token: string, key: seq<byte>, opts: Options, expected: Option<string>)
    requires EdgeVerify(codec, token, key, opts, expected).Ok?
    ensures Extract(codec, token) == EdgeVerify(codec, token, key, opts, expected)
  {
    var kind := PeekKind(codec, token).value;
    var _ := AcceptedIsGenuine(codec, kind, token, key, opts);
  }

  /** A clamped call accepts claims the zero-leeway check refuses only within the leeway it was given of their expiry
      or issue, thirty seconds if it was given none, and never more than three hundred. */
  lemma EdgeSlackIsBounded(c: Claims, given: Option<u32>, now: i64, iss: Option<string>, aud: Option<string>)
    requires TimeError(c, EdgeOptions(EdgeLeeway(given), now, iss, aud)).None?
    requires TimeError(c, EdgeOptions(0, now, iss, aud)).Some?
    ensures var slack := if given.None? then 30 else if given.value < 300 then given.value else 300;
            c.exp <= now < c.exp + slack || now < c.iat <= now + slack
  {
  }
}
