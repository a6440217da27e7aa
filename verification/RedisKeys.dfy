/** The Redis key builder: `{namespace}:{prefix}:{id}` and the rate-limit counters beside it. */
module RedisKeys {
  import opened Texts

  datatype Prefix =
    | Rt | Rv | Ep | Pep | Rp | Cf | Fam | Sess | Sd | Lf | Otp | Resend | Wst | PwReset | PwVtok | Inv | Rcu | Ra
    | Ec | Invidx | Us | Uev | Prt | Prp | Pcf | Pfam | Psess | Psd | MfaSetup | Mfa | Mfalock | Tu | Os

  /** The wire form of a prefix. */
  function Wire(p: Prefix): string {
    match p
    case Rt => "rt"
    case Rv => "rv"
    case Ep => "ep"
    case Pep => "pep"
    case Rp => "rp"
    case Cf => "cf"
    case Fam => "fam"
    case Sess => "sess"
    case Sd => "sd"
    case Lf => "lf"
    case Otp => "otp"
    case Resend => "resend"
    case Wst => "wst"
    case PwReset => "pw_reset"
    case PwVtok => "pw_vtok"
    case Inv => "inv"
    case Rcu => "rcu"
    case Ra => "ra"
    case Ec => "ec"
    case Invidx => "invidx"
    case Us => "us"
    case Uev => "uev"
    case Prt => "prt"
    case Prp => "prp"
    case Pcf => "pcf"
    case Pfam => "pfam"
    case Psess => "psess"
    case Psd => "psd"
    case MfaSetup => "mfa_setup"
    case Mfa => "mfa"
    case Mfalock => "mfalock"
    case Tu => "tu"
    case Os => "os"
  }

  function Key(namespace: string, p: Prefix, id: string): string {
    namespace + (":" + (Wire(p) + ":" + id))
  }

  function RateLimitKey(namespace: string, route: string, bucket: string): string {
    namespace + (":" + ("rl" + ":" + (route + ":" + bucket)))
  }

  /** The prefix whose wire form has this length, these first two characters and this last one. */
  function FromShape(n: nat, c: char, d: char, last: char): Prefix {
    if n == 2 then
      if c == 'r' then (if d == 't' then Rt else if d == 'v' then Rv else if d == 'p' then Rp else Ra)
      else if c == 'e' then (if d == 'p' then Ep else Ec)
      else if c == 'c' then Cf else if c == 's' then Sd else if c == 'l' then Lf
      else if c == 'u' then Us else if c == 't' then Tu else Os
    else if n == 3 then
      if c == 'p' then
        (if d == 'e' then Pep else if d == 'c' then Pcf else if d == 's' then Psd else if last == 't' then Prt else Prp)
      else if c == 'f' then Fam else if c == 'o' then Otp else if c == 'w' then Wst
      else if c == 'i' then Inv else if c == 'r' then Rcu else if c == 'u' then Uev else Mfa
    else if n == 4 then (if c == 's' then Sess else Pfam)
    else if n == 5 then Psess
    else if n == 6 then (if c == 'r' then Resend else Invidx)
    else if n == 7 then (if c == 'p' then PwVtok else Mfalock)
    else if n == 8 then PwReset
    else MfaSetup
  }

  lemma Recognised(p: Prefix)
    ensures var w := Wire(p);
            |w| >= 2 && FromShape(|w|, w[0], w[1], w[|w| - 1]) == p
  {
  }

  lemma WireInjective(p: Prefix, q: Prefix)
    requires Wire(p) == Wire(q)
    ensures p == q
  {
    Recognised(p);
    Recognised(q);
  }

  lemma WireIsPlain(p: Prefix)
    ensures ':' !in Wire(p) && Wire(p) != "rl"
  {
  }

  /** One key belongs to one prefix and one id, whatever characters the id holds. */
  lemma KeyInjective(namespace: string, p: Prefix, id: string, q: Prefix, other: string)
    requires Key(namespace, p, id) == Key(namespace, q, other)
    ensures p == q && id == other
  {
    WireIsPlain(p);
    WireIsPlain(q);
    DropSame(namespace, ":" + (Wire(p) + ":" + id), ":" + (Wire(q) + ":" + other));
    DropSame(":", Wire(p) + ":" + id, Wire(q) + ":" + other);
    CutAt(Wire(p), id, Wire(q), other, ':');
    WireInjective(p, q);
  }

  /** A rate-limit counter is never a catalogue key. */
  lemma RateLimitIsApart(namespace: string, p: Prefix, id: string, route: string, bucket: string)
    ensures Key(namespace, p, id) != RateLimitKey(namespace, route, bucket)
  {
    WireIsPlain(p);
    if Key(namespace, p, id) == RateLimitKey(namespace, route, bucket) {
      DropSame(namespace, ":" + (Wire(p) + ":" + id), ":" + ("rl" + ":" + (route + ":" + bucket)));
      DropSame(":", Wire(p) + ":" + id, "rl" + ":" + (route + ":" + bucket));
      CutAt(Wire(p), id, "rl", route + ":" + bucket, ':');
      assert false;
    }
  }

  /** A counter belongs to one route and one bucket, even when routes hold colons, because the bucket
      hashes have one width. */
  lemma RateLimitInjective(namespace: string, route: string, bucket: string, otherRoute: string, otherBucket: string)
    requires RateLimitKey(namespace, route, bucket) == RateLimitKey(namespace, otherRoute, otherBucket)
    requires |bucket| == |otherBucket|
    ensures route == otherRoute && bucket == otherBucket
  {
    var x, y := route + ":" + bucket, otherRoute + ":" + otherBucket;
    DropSame(namespace, ":" + ("rl" + ":" + x), ":" + ("rl" + ":" + y));
    DropSame(":", "rl" + ":" + x, "rl" + ":" + y);
    DropSame("rl" + ":", x, y);
    assert |route| == |otherRoute|;
    assert x[..|route|] == route && y[..|route|] == otherRoute;
    assert x[|route| + 1..] == bucket && y[|route| + 1..] == otherBucket;
  }

  /** The width is what keeps them apart: a hash of another width can move the boundary. */
  lemma WidthMatters(namespace: string, a: string, b: string, c: string)
    ensures RateLimitKey(namespace, a + ":" + b, c) == RateLimitKey(namespace, a, b + ":" + c)
  {
    assert a + ":" + b + ":" + c == a + ":" + (b + ":" + c);
  }
}
