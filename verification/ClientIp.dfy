/**
 Which address a request is charged to: the right-to-left walk over `X-Forwarded-For`, and the
 collapse of an address to its rate-limit bucket.

 Address syntax and the deployment's trust predicate are functions: `parse` trims an entry and reads
 it as an address, and a trust predicate that fails to answer answers `false`.
 */
module ClientIp {
  import opened Prelude
  import opened Texts

  type Segments = s: seq<u16> | |s| == 8 witness [0, 0, 0, 0, 0, 0, 0, 0]

  datatype IpAddr = V4(bits: u32) | V6(segments: Segments)

  /** `::ffff:a.b.c.d`. */
  predicate Mapped(ip: IpAddr) {
    ip.V6? && ip.segments[..5] == [0, 0, 0, 0, 0] && ip.segments[5] == 0xffff
  }

  function Canonical(ip: IpAddr): IpAddr {
    if Mapped(ip) then
      var high: int, low: int := ip.segments[6], ip.segments[7];
      V4(high * 0x1_0000 + low)
    else ip
  }

  /** An IPv4 host written into IPv6 stands for itself; every other address does too. */
  lemma MappedIsItself(a: byte, b: byte, c: byte, d: byte, ip: IpAddr)
    ensures var written := V6([0, 0, 0, 0, 0, 0xffff, a * 256 + b, c * 256 + d]);
            Canonical(written) == V4(a * 0x100_0000 + b * 0x1_0000 + c * 0x100 + d)
    ensures Canonical(ip) != ip ==> ip.V6? && ip.segments[..6] == [0, 0, 0, 0, 0, 0xffff]
  {
    if Mapped(ip) {
      assert ip.segments[..6] == ip.segments[..5] + [ip.segments[5]];
    }
  }

  /** Lines joined in arrival order. */
  function Join(lines: seq<string>): string {
    if lines == [] then "" else Joined(lines, ',')
  }

  /** Only visible ASCII and tabs: what `HeaderValue::to_str` reads. */
  predicate Readable(line: string) {
    forall i | 0 <= i < |line| :: ' ' <= line[i] <= '~' || line[i] == '\t'
  }

  /** The header lines that can be read. */
  function ReadableLines(lines: seq<string>): seq<string> {
    if lines == [] then [] else (if Readable(lines[0]) then [lines[0]] else []) + ReadableLines(lines[1..])
  }

  /** The one list the middleware makes of all the header lines. */
  function Forwarded(lines: seq<string>): string {
    Join(ReadableLines(lines))
  }

  datatype Policy =
    | PeerAddr
    | ForwardedFor(parse: string -> Option<IpAddr>, trusts: IpAddr -> bool)

  /** How many entries at the right end are addresses of trusted proxies, without a gap. */
  function TrustedTail(policy: Policy, hops: seq<string>): nat
    requires policy.ForwardedFor?
  {
    if hops == [] then 0
    else if Trusted(policy, hops[|hops| - 1]) then TrustedTail(policy, hops[..|hops| - 1]) + 1 else 0
  }

  /** The entry is the address of a trusted proxy. */
  predicate Trusted(policy: Policy, entry: string)
    requires policy.ForwardedFor?
  {
    policy.parse(entry).Some? && policy.trusts(Canonical(policy.parse(entry).value))
  }

  /** The walk trusts exactly the longest run of trusted addresses at the right end. */
  lemma {:induction false} TrustedTailIsLongest(policy: Policy, hops: seq<string>)
    requires policy.ForwardedFor?
    ensures TrustedTail(policy, hops) <= |hops|
    ensures forall i | |hops| - TrustedTail(policy, hops) <= i < |hops| :: Trusted(policy, hops[i])
    ensures TrustedTail(policy, hops) < |hops| ==> !Trusted(policy, hops[|hops| - 1 - TrustedTail(policy, hops)])
  {
    if hops != [] {
      var front := hops[..|hops| - 1];
      TrustedTailIsLongest(policy, front);
      if Trusted(policy, hops[|hops| - 1]) {
        forall i | |hops| - TrustedTail(policy, hops) <= i < |hops|
          ensures Trusted(policy, hops[i])
        {
          if i < |front| {
            assert hops[i] == front[i];
          }
        }
      }
    }
  }

  /** The walk from the right end: an entry that is not an address ends it at the last hop that was,
      and the first untrusted address is the client. */
  function Walked(policy: Policy, client: IpAddr, hops: seq<string>): IpAddr
    requires policy.ForwardedFor?
    decreases |hops|
  {
    if hops == [] then client
    else
      var hop := policy.parse(hops[|hops| - 1]);
      if hop.None? then client
      else if policy.trusts(Canonical(hop.value)) then Walked(policy, Canonical(hop.value), hops[..|hops| - 1])
      else Canonical(hop.value)
  }

  /** Where the walk ends: at the entry left of the longest trusted run if it is an address, else at
      the last address of that run, else at the peer. */
  lemma {:induction false} WalkEndsPastTrusted(policy: Policy, peer: IpAddr, hops: seq<string>)
    requires policy.ForwardedFor?
    ensures var n := TrustedTail(policy, hops);
            n <= |hops| &&
            if n < |hops| && policy.parse(hops[|hops| - 1 - n]).Some? then
              Walked(policy, peer, hops) == Canonical(policy.parse(hops[|hops| - 1 - n]).value)
            else if n > 0 then
              policy.parse(hops[|hops| - n]).Some? &&
              Walked(policy, peer, hops) == Canonical(policy.parse(hops[|hops| - n]).value)
            else Walked(policy, peer, hops) == peer
    decreases |hops|
  {
    if hops != [] && TrustedTail(policy, hops) > 0 {
      var next := Canonical(policy.parse(hops[|hops| - 1]).value);
      WalkEndsPastTrusted(policy, next, hops[..|hops| - 1]);
    }
  }

  /** Whether the header is believed at all. */
  predicate Believes(policy: Policy, peer: Option<IpAddr>) {
    policy.ForwardedFor? && peer.Some? && policy.trusts(Canonical(peer.value))
  }

  function Resolved(policy: Policy, peer: Option<IpAddr>, forwarded: string): Option<IpAddr> {
    if peer.None? then None
    else if Believes(policy, peer) then Some(Walked(policy, Canonical(peer.value), Split(forwarded, ',')))
    else Some(Canonical(peer.value))
  }

  /** `ClientIpPolicy::resolve`. */
  method Resolve(policy: Policy, peer: Option<IpAddr>, forwarded: string) returns (r: Option<IpAddr>)
    ensures r == Resolved(policy, peer, forwarded)
  {
    var canonical := if peer.Some? then Some(Canonical(peer.value)) else None;
    if policy.PeerAddr? || canonical.None? {
      return canonical;
    }
    if !policy.trusts(canonical.value) {
      return canonical;
    }
    var client := canonical.value;
    var hops := Split(forwarded, ',');
    var left := |hops|;
    assert hops[..left] == hops;
    while left > 0
      invariant 0 <= left <= |hops|
      invariant Walked(policy, client, hops[..left]) == Walked(policy, canonical.value, hops)
    {
      var hop := policy.parse(hops[left - 1]);
      assert hops[..left][..left - 1] == hops[..left - 1];
      if hop.None? {
        break;
      }
      client := Canonical(hop.value);
      if !policy.trusts(client) {
        break;
      }
      left := left - 1;
    }
    return Some(client);
  }

  // What the header cannot do.

  /** The entries of every line that can be read. */
  function Entries(lines: seq<string>): seq<string> {
    if lines == [] then [] else (if Readable(lines[0]) then Split(lines[0], ',') else []) + Entries(lines[1..])
  }

  /** A second header line is the same list continued; a line that cannot be read adds nothing to it, and without
      a line that can be read the list is one empty entry. */
  lemma {:induction false} LinesContinue(lines: seq<string>)
    ensures Split(Forwarded(lines), ',') == if exists i | 0 <= i < |lines| :: Readable(lines[i]) then Entries(lines) else [""]
    ensures ReadableLines(lines) == [] <==> forall i | 0 <= i < |lines| :: !Readable(lines[i])
    ensures ReadableLines(lines) == [] ==> Entries(lines) == []
  {
    if lines != [] {
      LinesContinue(lines[1..]);
      var rest := ReadableLines(lines[1..]);
      assert lines == [lines[0]] + lines[1..];
      if Readable(lines[0]) {
        if rest != [] {
          assert ReadableLines(lines)[1..] == rest;
          SplitJoined(lines[0], Join(rest), ',');
        }
      } else {
        assert ReadableLines(lines) == rest;
      }
    }
  }

  lemma AppendOutside(front: seq<string>, lines: seq<string>, last: string)
    ensures front + (lines + [last]) == (front + lines) + [last]
  {
  }

  lemma {:induction false} ReadableAppend(lines: seq<string>, last: string)
    requires Readable(last)
    ensures ReadableLines(lines + [last]) == ReadableLines(lines) + [last]
  {
    if lines == [] {
      assert [last][1..] == [];
    } else {
      var longer := lines + [last];
      assert longer[0] == lines[0] && longer[1..] == lines[1..] + [last];
      ReadableAppend(lines[1..], last);
      AppendOutside(if Readable(lines[0]) then [lines[0]] else [], ReadableLines(lines[1..]), last);
    }
  }

  lemma {:induction false} JoinAppend(lines: seq<string>, last: string)
    requires lines != []
    ensures Join(lines + [last]) == Join(lines) + "," + last
  {
    assert (lines + [last])[1..] == lines[1..] + [last];
    if |lines| == 1 {
      assert (lines + [last])[1..] == [last];
      assert Joined([last], ',') == last;
    } else {
      JoinAppend(lines[1..], last);
      var rest := Join(lines[1..]);
      assert lines[0] + [','] + (rest + "," + last) == (lines[0] + [','] + rest) + "," + last;
    }
  }

  /** Prepended entries matter only if the walk runs off the left end of the header. */
  lemma {:induction false} WalkOfConcat(policy: Policy, peer: IpAddr, front: seq<string>, hops: seq<string>)
    requires policy.ForwardedFor?
    ensures Walked(policy, peer, front + hops) ==
            if TrustedTail(policy, hops) < |hops| then Walked(policy, peer, hops)
            else Walked(policy, Walked(policy, peer, hops), front)
    decreases |hops|
  {
    if hops == [] {
      assert front + hops == front;
    } else {
      assert (front + hops)[..|front + hops| - 1] == front + hops[..|hops| - 1];
      var hop := policy.parse(hops[|hops| - 1]);
      if hop.Some? && policy.trusts(Canonical(hop.value)) {
        WalkOfConcat(policy, Canonical(hop.value), front, hops[..|hops| - 1]);
      }
    }
  }

  /** Whatever a client writes to the left of the entries its proxies appended changes nothing,
      unless every appended entry is a trusted proxy. */
  lemma PrefixIsIgnored(policy: Policy, peer: Option<IpAddr>, written: string, appended: string)
    requires Believes(policy, peer) ==> TrustedTail(policy, Split(appended, ',')) < |Split(appended, ',')|
    ensures Resolved(policy, peer, written + "," + appended) == Resolved(policy, peer, appended)
  {
    SplitJoined(written, appended, ',');
    if Believes(policy, peer) {
      WalkOfConcat(policy, Canonical(peer.value), Split(written, ','), Split(appended, ','));
    }
  }

  /** So the line a proxy appends decides, whatever lines a client sent before it. */
  lemma EarlierLinesAreIgnored(policy: Policy, peer: Option<IpAddr>, lines: seq<string>, last: string)
    requires Readable(last)
    requires Believes(policy, peer) ==> TrustedTail(policy, Split(last, ',')) < |Split(last, ',')|
    ensures Resolved(policy, peer, Forwarded(lines + [last])) == Resolved(policy, peer, last)
  {
    ReadableAppend(lines, last);
    if ReadableLines(lines) != [] {
      JoinAppend(ReadableLines(lines), last);
      PrefixIsIgnored(policy, peer, Forwarded(lines), last);
    }
  }

  /** When every appended entry is a trusted proxy, the entry before them is believed. */
  lemma PrefixIsBelieved(policy: Policy, peer: Option<IpAddr>, written: string, appended: string)
    requires Believes(policy, peer) && TrustedTail(policy, Split(appended, ',')) == |Split(appended, ',')|
    requires ',' !in written && policy.parse(written).Some?
    ensures Resolved(policy, peer, written + "," + appended) == Some(Canonical(policy.parse(written).value))
  {
    SplitJoined(written, appended, ',');
    SplitSingle(written, ',');
    WalkOfConcat(policy, Canonical(peer.value), [written], Split(appended, ','));
  }

  /** So what a client writes is without effect, whatever it is, exactly when the header is not
      believed or some appended entry is not a trusted proxy. */
  lemma PrefixIsIgnoredIff(policy: Policy, peer: Option<IpAddr>, appended: string, other: string)
    requires policy.ForwardedFor? ==> ',' !in other && policy.parse(other).Some?
    requires policy.ForwardedFor? ==> Some(Canonical(policy.parse(other).value)) != Resolved(policy, peer, appended)
    ensures (forall written :: Resolved(policy, peer, written + "," + appended) == Resolved(policy, peer, appended)) <==>
              || policy.PeerAddr? || peer.None? || !policy.trusts(Canonical(peer.value))
              || TrustedTail(policy, Split(appended, ',')) < |Split(appended, ',')|
  {
    if !Believes(policy, peer) || TrustedTail(policy, Split(appended, ',')) < |Split(appended, ',')| {
      forall written ensures Resolved(policy, peer, written + "," + appended) == Resolved(policy, peer, appended) {
        PrefixIsIgnored(policy, peer, written, appended);
      }
    } else {
      TrustedTailIsLongest(policy, Split(appended, ','));
      PrefixIsBelieved(policy, peer, other, appended);
    }
  }

  // Buckets.

  /** `rate_limit_bucket`. */
  function Bucket(ip: IpAddr): IpAddr {
    if ip.V4? then ip
    else if Mapped(ip) then Canonical(ip)
    else V6(ip.segments[..4] + [0, 0, 0, 0])
  }

  /** The key of the limiter: the resolved address, or the peer when nothing was resolved. */
  function Key(resolved: Option<IpAddr>, peer: Option<IpAddr>): Option<IpAddr> {
    if resolved.Some? then Some(Bucket(resolved.value))
    else if peer.Some? then Some(Bucket(peer.value))
    else None
  }

  /** Two addresses share a budget exactly when they are one IPv4 host, however spelled, or lie in one
      /64. */
  lemma SameBucketIff(a: IpAddr, b: IpAddr)
    ensures Bucket(Canonical(a)) == Bucket(a) && Canonical(Bucket(a)) == Bucket(a) && Bucket(Bucket(a)) == Bucket(a)
    ensures Bucket(a) == Bucket(b) <==>
              var x, y := Canonical(a), Canonical(b);
              (x.V4? && x == y) || (x.V6? && y.V6? && x.segments[..4] == y.segments[..4])
  {
    var x, y := Canonical(a), Canonical(b);
    if x.V6? && y.V6? {
      assert (x.segments[..4] + [0, 0, 0, 0])[..4] == x.segments[..4];
      assert (y.segments[..4] + [0, 0, 0, 0])[..4] == y.segments[..4];
    }
  }

  /** The limiter and the session see the same client: a request that is not behind a trusted proxy is its peer's,
      and charged to it whether or not the address was resolved first, whatever its header says. */
  lemma PeerIsCharged(policy: Policy, peer: Option<IpAddr>, forwarded: string)
    requires policy.PeerAddr? || peer.None? || !policy.trusts(Canonical(peer.value))
    ensures Resolved(policy, peer, forwarded) == if peer.Some? then Some(Canonical(peer.value)) else None
    ensures Key(Resolved(policy, peer, forwarded), peer) == Key(None, peer)
  {
    if peer.Some? {
      SameBucketIff(peer.value, peer.value);
    }
  }

  /** Two requests are charged to one budget exactly when the clients they resolve to are one IPv4 host or lie in
      one /64, whatever proxies they came through. */
  lemma SameBudgetIff(policy: Policy, peer: IpAddr, forwarded: string, otherPeer: IpAddr, otherForwarded: string)
    ensures var x, y := Resolved(policy, Some(peer), forwarded), Resolved(policy, Some(otherPeer), otherForwarded);
            && x.Some? && y.Some?
            && (Key(x, Some(peer)) == Key(y, Some(otherPeer)) <==>
                  var a, b := Canonical(x.value), Canonical(y.value);
                  (a.V4? && a == b) || (a.V6? && b.V6? && a.segments[..4] == b.segments[..4]))
  {
    SameBucketIff(Resolved(policy, Some(peer), forwarded).value, Resolved(policy, Some(otherPeer), otherForwarded).value);
  }
}
