/**
 Planting and clearing the session cookies over every resolved domain.

 The jar keeps one cookie per name, while a browser keeps one per name, domain and path. So the first
 scope goes through the jar and every further one is appended to the response by hand.
 */
module Cookies {
  import opened Prelude

  datatype SameSite = Lax | Strict | CrossSite

  datatype Cookie = Cookie(
    name: string, value: string, domain: Option<string>, path: string,
    secure: bool, httpOnly: bool, sameSite: Option<SameSite>, maxAge: Option<int>)

  /** The cookie attributes resolved at router build. */
  datatype Settings = Settings(
    accessName: string, refreshName: string, signalName: string, refreshPath: string,
    secure: bool, sameSite: SameSite, accessMaxAge: int, refreshMaxAge: int)
  {
    predicate DistinctNames() {
      accessName != refreshName && accessName != signalName && refreshName != signalName
    }

    /** `Strict` unless the deployment is cross-site. */
    function RefreshSameSite(): SameSite {
      if sameSite == CrossSite then CrossSite else Strict
    }

    /** The three cookies `set_auth_cookies` builds, before a domain is stamped on them. */
    function Plants(access: string, refresh: string): (cookies: seq<Cookie>) {
      [Cookie(accessName, access, None, "/", secure, true, Some(sameSite), Some(accessMaxAge)),
       Cookie(refreshName, refresh, None, refreshPath, secure, true, Some(RefreshSameSite()), Some(refreshMaxAge)),
       Cookie(signalName, "1", None, "/", secure, false, Some(sameSite), Some(refreshMaxAge))]
    }

    /** The three cookies `clear_session` builds. */
    function Clears(): (cookies: seq<Cookie>) {
      [Cookie(accessName, "", None, "/", secure, false, None, None),
       Cookie(refreshName, "", None, refreshPath, secure, false, Some(RefreshSameSite()), None),
       Cookie(signalName, "", None, "/", secure, false, None, None)]
    }
  }

  /** `with_domain`. */
  function WithDomain(cookie: Cookie, domain: Option<string>): Cookie {
    if domain.Some? then cookie.(domain := domain) else cookie
  }

  /** `make_removal`. */
  function Removal(cookie: Cookie): Cookie {
    cookie.(value := "", maxAge := Some(0))
  }

  /** `scopes`: one host-only scope when no domain was resolved. */
  function Scopes(domains: seq<string>): (scopes: seq<Option<string>>)
    ensures scopes != []
  {
    if domains == [] then [None] else seq(|domains|, i requires 0 <= i < |domains| => Some(domains[i]))
  }

  /** The characters `HeaderValue::from_str` accepts. */
  predicate Printable(s: string) {
    forall c | c in s :: ' ' <= c <= '~' || c == '\t'
  }

  predicate Encodable(c: Cookie) {
    Printable(c.name) && Printable(c.value) && Printable(c.path) && (c.domain.Some? ==> Printable(c.domain.value))
  }

  /** What one cookie of one scope becomes on the wire. */
  function Written(cookie: Cookie, scope: Option<string>, remove: bool): Cookie {
    if remove then Removal(WithDomain(cookie, scope)) else WithDomain(cookie, scope)
  }

  /** The values appended by hand for one scope: the ones that print as a header value. */
  function ExtrasOf(cookies: seq<Cookie>, scope: Option<string>, remove: bool): seq<Cookie> {
    if cookies == [] then []
    else
      var rest := ExtrasOf(cookies[..|cookies| - 1], scope, remove);
      var last := Written(cookies[|cookies| - 1], scope, remove);
      if Encodable(last) then rest + [last] else rest
  }

  function Extras(cookies: seq<Cookie>, scopes: seq<Option<string>>, remove: bool): seq<Cookie> {
    if scopes == [] then []
    else Extras(cookies, scopes[..|scopes| - 1], remove) + ExtrasOf(cookies, scopes[|scopes| - 1], remove)
  }

  /** What the jar records for the first scope. A removal of a cookie the request did not bring only
      forgets the name. */
  function Recorded(delta: map<string, Cookie>, original: set<string>, cookie: Cookie, remove: bool): map<string, Cookie> {
    if !remove then delta[cookie.name := cookie]
    else if cookie.name in original then delta[cookie.name := Removal(cookie)]
    else delta - {cookie.name}
  }

  function RecordedAll(
      delta: map<string, Cookie>, original: set<string>, cookies: seq<Cookie>, scope: Option<string>, remove: bool)
      : map<string, Cookie>
  {
    if cookies == [] then delta
    else
      Recorded(RecordedAll(delta, original, cookies[..|cookies| - 1], scope, remove), original,
               WithDomain(cookies[|cookies| - 1], scope), remove)
  }

  /** The request's cookie jar: the names it came with, and what the response changes. */
  class Jar {
    const original: set<string>
    var delta: map<string, Cookie>

    constructor (original: set<string>)
      ensures this.original == original && delta == map[]
    {
      this.original := original;
      delta := map[];
    }

    method Add(cookie: Cookie)
      modifies this
      ensures delta == Recorded(old(delta), original, cookie, false)
    {
      delta := delta[cookie.name := cookie];
    }

    method Remove(cookie: Cookie)
      modifies this
      ensures delta == Recorded(old(delta), original, cookie, true)
    {
      if cookie.name in original {
        delta := delta[cookie.name := Removal(cookie)];
      } else {
        delta := delta - {cookie.name};
      }
    }
  }

  /** `write_scopes`: the first scope through the jar, every further one returned. */
  method WriteScopes(jar: Jar, domains: seq<string>, remove: bool, cookies: seq<Cookie>) returns (extras: seq<Cookie>)
    modifies jar
    ensures jar.delta == RecordedAll(old(jar.delta), jar.original, cookies, Scopes(domains)[0], remove)
    ensures extras == Extras(cookies, Scopes(domains)[1..], remove)
  {
    extras := [];
    var scopes := Scopes(domains);
    for index := 0 to |scopes|
      invariant index == 0 ==> jar.delta == old(jar.delta) && extras == []
      invariant index > 0 ==>
        jar.delta == RecordedAll(old(jar.delta), jar.original, cookies, scopes[0], remove)
        && extras == Extras(cookies, scopes[1..index], remove)
    {
      ghost var before := extras;
      for i := 0 to |cookies|
        invariant index == 0 ==>
          extras == [] && jar.delta == RecordedAll(old(jar.delta), jar.original, cookies[..i], scopes[0], remove)
        invariant index > 0 ==>
          jar.delta == RecordedAll(old(jar.delta), jar.original, cookies, scopes[0], remove)
          && extras == before + ExtrasOf(cookies[..i], scopes[index], remove)
      {
        assert cookies[..i + 1][..i] == cookies[..i];
        var cookie := WithDomain(cookies[i], scopes[index]);
        if index == 0 && !remove {
          jar.Add(cookie);
        } else if index == 0 {
          jar.Remove(cookie);
        } else {
          var value := if remove then Removal(cookie) else cookie;
          if Encodable(value) {
            extras := extras + [value];
          }
        }
      }
      assert cookies[..|cookies|] == cookies;
      if index > 0 {
        assert scopes[1..index + 1][..index - 1] == scopes[1..index];
      }
    }
    assert scopes[1..|scopes|] == scopes[1..];
  }

  lemma ThreeRecorded(delta: map<string, Cookie>, original: set<string>, cookies: seq<Cookie>, scope: Option<string>)
    requires |cookies| == 3
    ensures RecordedAll(delta, original, cookies, scope, false) ==
            delta[cookies[0].name := WithDomain(cookies[0], scope)]
                 [cookies[1].name := WithDomain(cookies[1], scope)]
                 [cookies[2].name := WithDomain(cookies[2], scope)]
  {
    var two, one := cookies[..2], cookies[..1];
    assert two[..1] == one && one[..0] == [];
    assert RecordedAll(delta, original, one, scope, false) == delta[cookies[0].name := WithDomain(cookies[0], scope)];
  }

  /** `set_auth_cookies`. */
  method SetAuthCookies(settings: Settings, jar: Jar, domains: seq<string>, access: string, refresh: string)
    returns (extras: seq<Cookie>)
    modifies jar
    ensures jar.delta == RecordedAll(old(jar.delta), jar.original, settings.Plants(access, refresh), Scopes(domains)[0], false)
    ensures extras == Extras(settings.Plants(access, refresh), Scopes(domains)[1..], false)
    ensures settings.DistinctNames() ==>
              && {settings.accessName, settings.refreshName, settings.signalName} <= jar.delta.Keys
              && jar.delta[settings.accessName].value == access
              && jar.delta[settings.refreshName].value == refresh
              && jar.delta[settings.signalName].value == "1"
  {
    var plants := settings.Plants(access, refresh);
    extras := WriteScopes(jar, domains, false, plants);
    ThreeRecorded(old(jar.delta), jar.original, plants, Scopes(domains)[0]);
  }

  /** `clear_session`. */
  method ClearSession(settings: Settings, jar: Jar, domains: seq<string>) returns (extras: seq<Cookie>)
    modifies jar
    ensures jar.delta == RecordedAll(old(jar.delta), jar.original, settings.Clears(), Scopes(domains)[0], true)
    ensures extras == Extras(settings.Clears(), Scopes(domains)[1..], true)
  {
    extras := WriteScopes(jar, domains, true, settings.Clears());
  }
}
