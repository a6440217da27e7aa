/**
 A browser's cookie store, keyed by name, domain and path as section 5.3 of RFC 6265 has it, and what
 planting and then clearing a session does to it.

 How the browser reads a `Domain` attribute is a parameter: it answers the domain the cookie is kept
 under, the responding host for a cookie without one, or nothing for a domain it refuses.
 */
module CookieBrowser {
  import opened Prelude
  import opened Cookies

  type Reading = Option<string> -> Option<string>

  datatype Key = Key(name: string, domain: string, path: string)

  function KeyOf(read: Reading, c: Cookie): Option<Key> {
    var domain := read(c.domain);
    if domain.None? then None else Some(Key(c.name, domain.value, c.path))
  }

  predicate Expiry(c: Cookie) {
    c.maxAge.Some? && c.maxAge.value <= 0
  }

  /** One `Set-Cookie` header. */
  function Receive(read: Reading, store: map<Key, string>, c: Cookie): map<Key, string> {
    var key := KeyOf(read, c);
    if key.None? then store
    else if Expiry(c) then store - {key.value}
    else store[key.value := c.value]
  }

  function ReceiveAll(read: Reading, store: map<Key, string>, headers: seq<Cookie>): map<Key, string> {
    if headers == [] then store
    else Receive(read, ReceiveAll(read, store, headers[..|headers| - 1]), headers[|headers| - 1])
  }

  /** A response carries exactly these cookies, each any number of times and in any order. */
  ghost predicate Carries(headers: seq<Cookie>, delta: map<string, Cookie>, extras: seq<Cookie>) {
    forall c: Cookie :: c in headers <==> (c in delta.Values && Encodable(c)) || c in extras
  }

  // What a response carries.

  /** `c` is the cookie `cookies[i]` written for `scopes[k]`. */
  ghost predicate WrittenAt(
      c: Cookie, cookies: seq<Cookie>, scopes: seq<Option<string>>, remove: bool, i: int, k: int)
  {
    0 <= i < |cookies| && 0 <= k < |scopes| && c == Written(cookies[i], scopes[k], remove)
  }

  lemma {:induction false} ExtrasOfMembers(cookies: seq<Cookie>, scope: Option<string>, remove: bool, c: Cookie)
    ensures c in ExtrasOf(cookies, scope, remove) <==>
            Encodable(c) && exists i :: 0 <= i < |cookies| && c == Written(cookies[i], scope, remove)
  {
    if cookies != [] {
      ExtrasOfMembers(cookies[..|cookies| - 1], scope, remove, c);
    }
  }

  lemma {:induction false} ExtrasMembers(cookies: seq<Cookie>, scopes: seq<Option<string>>, remove: bool, c: Cookie)
    ensures c in Extras(cookies, scopes, remove) <==>
            Encodable(c) && exists i, k :: WrittenAt(c, cookies, scopes, remove, i, k)
  {
    if scopes != [] {
      var n := |scopes| - 1;
      ExtrasMembers(cookies, scopes[..n], remove, c);
      ExtrasOfMembers(cookies, scopes[n], remove, c);
      if exists i, k :: WrittenAt(c, cookies, scopes, remove, i, k) {
        var i, k :| WrittenAt(c, cookies, scopes, remove, i, k);
        if k < n { assert WrittenAt(c, cookies, scopes[..n], remove, i, k); }
      }
      if exists i, k :: WrittenAt(c, cookies, scopes[..n], remove, i, k) {
        var i, k :| WrittenAt(c, cookies, scopes[..n], remove, i, k);
        assert WrittenAt(c, cookies, scopes, remove, i, k);
      }
      if exists i :: 0 <= i < |cookies| && c == Written(cookies[i], scopes[n], remove) {
        var i :| 0 <= i < |cookies| && c == Written(cookies[i], scopes[n], remove);
        assert WrittenAt(c, cookies, scopes, remove, i, n);
      }
    }
  }

  ghost predicate Distinct(cookies: seq<Cookie>) {
    forall i, j | 0 <= i < j < |cookies| :: cookies[i].name != cookies[j].name
  }

  /** The jar is keyed by the names of the cookies it records. */
  ghost predicate Keyed(delta: map<string, Cookie>) {
    forall name | name in delta :: delta[name].name == name
  }

  lemma {:induction false} JarIsKeyed(original: set<string>, cookies: seq<Cookie>, scope: Option<string>, remove: bool)
    ensures Keyed(RecordedAll(map[], original, cookies, scope, remove))
  {
    if cookies != [] {
      JarIsKeyed(original, cookies[..|cookies| - 1], scope, remove);
    }
  }

  lemma {:induction false} NameIsAbsent(
      original: set<string>, cookies: seq<Cookie>, scope: Option<string>, remove: bool, name: string)
    requires forall i | 0 <= i < |cookies| :: cookies[i].name != name
    ensures name !in RecordedAll(map[], original, cookies, scope, remove)
  {
    if cookies != [] {
      NameIsAbsent(original, cookies[..|cookies| - 1], scope, remove, name);
    }
  }

  /** Recording one more cookie. */
  lemma JarKeepsOne(
      before: map<string, Cookie>, original: set<string>, cookie: Cookie, remove: bool, c: Cookie)
    requires cookie.name !in before
    ensures var last := if remove then Removal(cookie) else cookie;
            c in Recorded(before, original, cookie, remove).Values <==>
            c in before.Values || (c == last && (remove ==> c.name in original))
  {
    var last := if remove then Removal(cookie) else cookie;
    var after := Recorded(before, original, cookie, remove);
    assert after == (if remove && last.name !in original then before else before[last.name := last]);
    if c == last && (remove ==> c.name in original) {
      assert after[last.name] == c;
    }
    if c in before.Values {
      var name :| name in before && before[name] == c;
      assert after[name] == c;
    }
  }

  /** The jar keeps every cookie of the first scope: a removal only when the request brought the name. */
  lemma {:induction false} JarKeeps(
      original: set<string>, cookies: seq<Cookie>, scope: Option<string>, remove: bool, c: Cookie)
    requires Distinct(cookies)
    ensures c in RecordedAll(map[], original, cookies, scope, remove).Values <==>
            (remove ==> c.name in original)
            && exists i :: 0 <= i < |cookies| && c == Written(cookies[i], scope, remove)
  {
    if cookies != [] {
      var n := |cookies| - 1;
      JarKeeps(original, cookies[..n], scope, remove, c);
      NameIsAbsent(original, cookies[..n], scope, remove, cookies[n].name);
      var before := RecordedAll(map[], original, cookies[..n], scope, remove);
      JarKeepsOne(before, original, WithDomain(cookies[n], scope), remove, c);
      OneMoreWritten(cookies, scope, remove, c);
    }
  }

  lemma OneMoreWritten(cookies: seq<Cookie>, scope: Option<string>, remove: bool, c: Cookie)
    requires cookies != []
    ensures var n := |cookies| - 1;
            (exists i :: 0 <= i < |cookies| && c == Written(cookies[i], scope, remove)) <==>
            c == Written(cookies[n], scope, remove)
            || exists i :: 0 <= i < n && c == Written(cookies[..n][i], scope, remove)
  {
    var n := |cookies| - 1;
    if i :| 0 <= i < |cookies| && c == Written(cookies[i], scope, remove) {
      if i < n {
        assert cookies[..n][i] == cookies[i];
      }
    }
    if i :| 0 <= i < n && c == Written(cookies[..n][i], scope, remove) {
      assert cookies[..n][i] == cookies[i];
    }
  }

  /** Where a written cookie reaches the browser: everywhere, except that the jar drops an expiry of a
      name the request did not bring. */
  predicate Reaches(remove: bool, original: set<string>, name: string, k: int) {
    remove && k == 0 ==> name in original
  }

  /** A response carries exactly one kind of header per cookie and scope: none is lost to the jar. */
  lemma ResponseCarries(
      cookies: seq<Cookie>, domains: seq<string>, remove: bool, original: set<string>, headers: seq<Cookie>, c: Cookie)
    requires Distinct(cookies)
    requires Carries(headers, RecordedAll(map[], original, cookies, Scopes(domains)[0], remove),
                     Extras(cookies, Scopes(domains)[1..], remove))
    ensures c in headers <==>
            Encodable(c) && exists i, k :: WrittenAt(c, cookies, Scopes(domains), remove, i, k)
                                           && Reaches(remove, original, c.name, k)
  {
    var scopes := Scopes(domains);
    JarKeeps(original, cookies, scopes[0], remove, c);
    ExtrasMembers(cookies, scopes[1..], remove, c);
    if exists i, k :: WrittenAt(c, cookies, scopes, remove, i, k) && Reaches(remove, original, c.name, k) {
      var i, k :| WrittenAt(c, cookies, scopes, remove, i, k) && Reaches(remove, original, c.name, k);
      if k > 0 { assert WrittenAt(c, cookies, scopes[1..], remove, i, k - 1); }
    }
    if exists i, k :: WrittenAt(c, cookies, scopes[1..], remove, i, k) {
      var i, k :| WrittenAt(c, cookies, scopes[1..], remove, i, k);
      assert WrittenAt(c, cookies, scopes, remove, i, k + 1);
    }
    if exists i :: 0 <= i < |cookies| && c == Written(cookies[i], scopes[0], remove) {
      var i :| 0 <= i < |cookies| && c == Written(cookies[i], scopes[0], remove);
      assert WrittenAt(c, cookies, scopes, remove, i, 0);
    }
  }

  // What the browser keeps.

  /** What a list of headers leaves under one key. */
  lemma {:induction false} ReceiveAllAt(read: Reading, store: map<Key, string>, headers: seq<Cookie>, key: Key)
    ensures var after := ReceiveAll(read, store, headers);
            && ((forall c | c in headers :: KeyOf(read, c) != Some(key)) ==>
                  (key in after <==> key in store) && (key in store ==> after[key] == store[key]))
            && ((exists c :: c in headers && KeyOf(read, c) == Some(key)) ==>
                (forall c | c in headers && KeyOf(read, c) == Some(key) :: Expiry(c)) ==> key !in after)
  {
    if headers != [] {
      var front, last := headers[..|headers| - 1], headers[|headers| - 1];
      assert headers == front + [last];
      ReceiveAllAt(read, store, front, key);
    }
  }

  /** And when every header for the key carries one value. */
  lemma {:induction false} ReceiveAllPlants(
      read: Reading, store: map<Key, string>, headers: seq<Cookie>, key: Key, value: string)
    requires exists c :: c in headers && KeyOf(read, c) == Some(key)
    requires forall c | c in headers && KeyOf(read, c) == Some(key) :: !Expiry(c) && c.value == value
    ensures key in ReceiveAll(read, store, headers) && ReceiveAll(read, store, headers)[key] == value
  {
    var front, last := headers[..|headers| - 1], headers[|headers| - 1];
    assert headers == front + [last];
    if KeyOf(read, last) != Some(key) {
      ReceiveAllPlants(read, store, front, key, value);
    }
  }

  /** The headers of a sign-in response, and of a sign-out response to a request that came with
      `original`. */
  ghost predicate Planted(st: Settings, domains: seq<string>, access: string, refresh: string, headers: seq<Cookie>) {
    exists original: set<string> :: PlantedOver(st, domains, access, refresh, original, headers)
  }

  ghost predicate PlantedOver(
      st: Settings, domains: seq<string>, access: string, refresh: string, original: set<string>, headers: seq<Cookie>)
  {
    Carries(headers, RecordedAll(map[], original, st.Plants(access, refresh), Scopes(domains)[0], false),
            Extras(st.Plants(access, refresh), Scopes(domains)[1..], false))
  }

  ghost predicate Cleared(st: Settings, domains: seq<string>, original: set<string>, headers: seq<Cookie>) {
    Carries(headers, RecordedAll(map[], original, st.Clears(), Scopes(domains)[0], true),
            Extras(st.Clears(), Scopes(domains)[1..], true))
  }

  /** The key of session cookie `i` (access, refresh, signal) in scope `k`, if the browser keeps it. */
  function SessionKey(read: Reading, st: Settings, domains: seq<string>, i: int, k: int): Option<Key>
    requires 0 <= i < 3 && 0 <= k < |Scopes(domains)|
  {
    KeyOf(read, WithDomain(st.Clears()[i], Scopes(domains)[k]))
  }

  /** Whether the expiry of session cookie `i` in scope `k` prints as a header value. */
  predicate Writable(st: Settings, domains: seq<string>, i: int, k: int)
    requires 0 <= i < 3 && 0 <= k < |Scopes(domains)|
  {
    Encodable(Written(st.Clears()[i], Scopes(domains)[k], true))
  }

  ghost predicate IsSessionKey(read: Reading, st: Settings, domains: seq<string>, i: int, k: int, key: Key) {
    && 0 <= i < 3 && 0 <= k < |Scopes(domains)| && Writable(st, domains, i, k)
    && SessionKey(read, st, domains, i, k) == Some(key)
  }

  /** A cookie written for scope `k` has the key of its expiry there. */
  lemma WrittenIsSessionKey(
      read: Reading, st: Settings, domains: seq<string>, access: string, refresh: string, c: Cookie, i: int, k: int)
    requires WrittenAt(c, st.Plants(access, refresh), Scopes(domains), false, i, k)
    requires KeyOf(read, c).Some? && Encodable(c)
    ensures IsSessionKey(read, st, domains, i, k, KeyOf(read, c).value)
  {
  }

  /** Every header of a sign-in is one of the session's cookies, and no expiry when its lifetime is
      positive. */
  lemma PlantedHeader(
      read: Reading, st: Settings, domains: seq<string>, access: string, refresh: string, headers: seq<Cookie>, c: Cookie)
    requires st.DistinctNames() && Planted(st, domains, access, refresh, headers) && c in headers
    ensures exists i, k :: WrittenAt(c, st.Plants(access, refresh), Scopes(domains), false, i, k)
    ensures KeyOf(read, c).Some? ==> exists i, k :: IsSessionKey(read, st, domains, i, k, KeyOf(read, c).value)
  {
    var plants, scopes := st.Plants(access, refresh), Scopes(domains);
    var original :| PlantedOver(st, domains, access, refresh, original, headers);
    ResponseCarries(plants, domains, false, original, headers, c);
    var i, k :| WrittenAt(c, plants, scopes, false, i, k) && Reaches(false, original, c.name, k);
    if KeyOf(read, c).Some? {
      WrittenIsSessionKey(read, st, domains, access, refresh, c, i, k);
    }
  }

  /** `key` is a session key whose expiry reaches the browser. */
  ghost predicate IsCleared(
      read: Reading, st: Settings, domains: seq<string>, original: set<string>, i: int, k: int, key: Key)
  {
    IsSessionKey(read, st, domains, i, k, key) && Reaches(true, original, key.name, k)
  }

  lemma ClearedHeaderIs(
      read: Reading, st: Settings, domains: seq<string>, original: set<string>, headers: seq<Cookie>, c: Cookie)
    requires st.DistinctNames() && Cleared(st, domains, original, headers) && c in headers
    ensures Expiry(c)
    ensures KeyOf(read, c).Some? ==> exists i, k :: IsCleared(read, st, domains, original, i, k, KeyOf(read, c).value)
  {
    ResponseCarries(st.Clears(), domains, true, original, headers, c);
    var i, k :| WrittenAt(c, st.Clears(), Scopes(domains), true, i, k) && Reaches(true, original, c.name, k);
    if KeyOf(read, c).Some? {
      assert IsCleared(read, st, domains, original, i, k, KeyOf(read, c).value);
    }
  }

  lemma ClearedHeaderOf(
      read: Reading, st: Settings, domains: seq<string>, original: set<string>, headers: seq<Cookie>,
      i: int, k: int, key: Key)
    requires st.DistinctNames() && Cleared(st, domains, original, headers)
    requires IsCleared(read, st, domains, original, i, k, key)
    ensures exists c :: c in headers && KeyOf(read, c) == Some(key)
  {
    var c := Written(st.Clears()[i], Scopes(domains)[k], true);
    assert WrittenAt(c, st.Clears(), Scopes(domains), true, i, k) && Reaches(true, original, c.name, k);
    ResponseCarries(st.Clears(), domains, true, original, headers, c);
    assert c in headers && KeyOf(read, c) == Some(key);
  }

  /** A sign-out expires exactly the session's keys: on every scope but the first regardless, and on
      the first for the names the request brought. */
  lemma ClearedHeader(
      read: Reading, st: Settings, domains: seq<string>, original: set<string>, headers: seq<Cookie>, key: Key)
    requires st.DistinctNames() && Cleared(st, domains, original, headers)
    ensures (exists c :: c in headers && KeyOf(read, c) == Some(key)) <==>
            exists i, k :: IsCleared(read, st, domains, original, i, k, key)
    ensures forall c | c in headers :: Expiry(c)
  {
    forall c | c in headers
      ensures Expiry(c)
      ensures KeyOf(read, c) == Some(key) ==> exists i, k :: IsCleared(read, st, domains, original, i, k, key)
    {
      ClearedHeaderIs(read, st, domains, original, headers, c);
    }
    if exists i, k :: IsCleared(read, st, domains, original, i, k, key) {
      var i, k :| IsCleared(read, st, domains, original, i, k, key);
      ClearedHeaderOf(read, st, domains, original, headers, i, k, key);
    }
  }

  /** What a sign-in followed by a sign-out leaves under one key: nothing under an expired session key,
      and what was there before under any other that is not a session key at all. */
  lemma SignInSignOutAt(
      read: Reading, st: Settings, domains: seq<string>, access: string, refresh: string,
      store: map<Key, string>, original: set<string>, planted: seq<Cookie>, cleared: seq<Cookie>, key: Key)
    requires st.DistinctNames()
    requires Planted(st, domains, access, refresh, planted) && Cleared(st, domains, original, cleared)
    ensures var after := ReceiveAll(read, ReceiveAll(read, store, planted), cleared);
            && ((exists i, k :: IsCleared(read, st, domains, original, i, k, key)) ==> key !in after)
            && (!(exists i, k :: IsSessionKey(read, st, domains, i, k, key)) ==>
                  (key in after <==> key in store) && (key in store ==> after[key] == store[key]))
  {
    var mid := ReceiveAll(read, store, planted);
    ClearedHeader(read, st, domains, original, cleared, key);
    ReceiveAllAt(read, mid, cleared, key);
    ReceiveAllAt(read, store, planted, key);
    if !(exists i, k :: IsSessionKey(read, st, domains, i, k, key)) {
      forall c | c in planted
        ensures KeyOf(read, c) != Some(key)
      {
        PlantedHeader(read, st, domains, access, refresh, planted, c);
      }
    }
  }

  /** The session keys of a deployment, over every resolved domain. */
  ghost function SessionKeys(read: Reading, st: Settings, domains: seq<string>): set<Key> {
    set i, k | 0 <= i < 3 && 0 <= k < |Scopes(domains)| && Writable(st, domains, i, k)
               && SessionKey(read, st, domains, i, k).Some? :: SessionKey(read, st, domains, i, k).value
  }

  /** Signing out undoes signing in: for every list of resolved domains, every browser, and any order
      of the headers, a sign-out whose request carries the session cookies leaves no session cookie in
      the store and every other cookie as it was. */
  lemma SignOutUndoesSignIn(
      read: Reading, st: Settings, domains: seq<string>, access: string, refresh: string,
      store: map<Key, string>, original: set<string>, planted: seq<Cookie>, cleared: seq<Cookie>)
    requires st.DistinctNames() && {st.accessName, st.refreshName, st.signalName} <= original
    requires Planted(st, domains, access, refresh, planted) && Cleared(st, domains, original, cleared)
    ensures ReceiveAll(read, ReceiveAll(read, store, planted), cleared) == store - SessionKeys(read, st, domains)
  {
    var after := ReceiveAll(read, ReceiveAll(read, store, planted), cleared);
    var keys := SessionKeys(read, st, domains);
    forall key: Key
      ensures key in after <==> key in store && key !in keys
      ensures key in after ==> after[key] == store[key]
    {
      SignInSignOutAt(read, st, domains, access, refresh, store, original, planted, cleared, key);
      if key in keys {
        var i, k :| 0 <= i < 3 && 0 <= k < |Scopes(domains)| && Writable(st, domains, i, k)
                    && SessionKey(read, st, domains, i, k).Some? && SessionKey(read, st, domains, i, k).value == key;
        assert IsCleared(read, st, domains, original, i, k, key);
      }
    }
  }

  // One header each, and the exact condition under which a sign-out is complete.

  // How many headers.

  /** The recorded cookies that print as a header value. */
  ghost function Recordings(delta: map<string, Cookie>): set<Cookie> {
    set name | name in delta && Encodable(delta[name]) :: delta[name]
  }

  /** What the jar emits: each of them, once. */
  ghost function JarHeaders(delta: map<string, Cookie>): multiset<Cookie> {
    multiset(Recordings(delta))
  }

  /** The headers of a response, in any order. */
  ghost predicate Emits(headers: seq<Cookie>, delta: map<string, Cookie>, extras: seq<Cookie>) {
    multiset(headers) == JarHeaders(delta) + multiset(extras)
  }

  /** Such a response carries exactly the cookies recorded and returned. */
  lemma EmitsCarries(headers: seq<Cookie>, delta: map<string, Cookie>, extras: seq<Cookie>)
    requires Emits(headers, delta, extras)
    ensures Carries(headers, delta, extras)
  {
    forall c: Cookie
      ensures c in headers <==> (c in delta.Values && Encodable(c)) || c in extras
    {
      assert c in headers <==> c in multiset(headers);
      assert c in extras <==> c in multiset(extras);
      assert c in Recordings(delta) <==> c in delta.Values && Encodable(c);
    }
  }

  /** How many cookies of how many scopes print as a header value. */
  function Pairs(cookies: seq<Cookie>, scopes: seq<Option<string>>, remove: bool): nat {
    if scopes == [] then 0
    else Pairs(cookies, scopes[..|scopes| - 1], remove) + EncodableOf(cookies, scopes[|scopes| - 1], remove)
  }

  function EncodableOf(cookies: seq<Cookie>, scope: Option<string>, remove: bool): nat {
    if cookies == [] then 0
    else EncodableOf(cookies[..|cookies| - 1], scope, remove)
         + if Encodable(Written(cookies[|cookies| - 1], scope, remove)) then 1 else 0
  }

  lemma {:induction false} ExtrasOfCount(cookies: seq<Cookie>, scope: Option<string>, remove: bool)
    ensures |ExtrasOf(cookies, scope, remove)| == EncodableOf(cookies, scope, remove)
  {
    if cookies != [] {
      ExtrasOfCount(cookies[..|cookies| - 1], scope, remove);
    }
  }

  lemma {:induction false} ExtrasCount(cookies: seq<Cookie>, scopes: seq<Option<string>>, remove: bool)
    ensures |Extras(cookies, scopes, remove)| == Pairs(cookies, scopes, remove)
  {
    if scopes != [] {
      ExtrasCount(cookies, scopes[..|scopes| - 1], remove);
      ExtrasOfCount(cookies, scopes[|scopes| - 1], remove);
    }
  }

  /** One header for every cookie and scope that print as a header value. */
  ghost function AllHeaders(cookies: seq<Cookie>, scopes: seq<Option<string>>, remove: bool): multiset<Cookie> {
    if scopes == [] then multiset{}
    else AllHeaders(cookies, scopes[..|scopes| - 1], remove) + multiset(ExtrasOf(cookies, scopes[|scopes| - 1], remove))
  }

  lemma {:induction false} ExtrasAreAll(cookies: seq<Cookie>, scopes: seq<Option<string>>, remove: bool)
    ensures multiset(Extras(cookies, scopes, remove)) == AllHeaders(cookies, scopes, remove)
  {
    if scopes != [] {
      ExtrasAreAll(cookies, scopes[..|scopes| - 1], remove);
    }
  }

  lemma {:induction false} AllHeadersFirst(cookies: seq<Cookie>, scopes: seq<Option<string>>, remove: bool)
    requires scopes != []
    ensures AllHeaders(cookies, scopes, remove) ==
            multiset(ExtrasOf(cookies, scopes[0], remove)) + AllHeaders(cookies, scopes[1..], remove)
  {
    var n := |scopes| - 1;
    if n > 0 {
      AllHeadersFirst(cookies, scopes[..n], remove);
      MiddleScopes(scopes);
    }
  }

  lemma MiddleScopes(scopes: seq<Option<string>>)
    requires |scopes| > 1
    ensures var n := |scopes| - 1;
            scopes[..n][1..] == scopes[1..][..n - 1] && scopes[1..][n - 1] == scopes[n] && scopes[..n][0] == scopes[0]
  {
  }

  lemma RecordingsAdd(delta: map<string, Cookie>, c: Cookie)
    requires c.name !in delta && Keyed(delta)
    ensures c !in Recordings(delta)
    ensures Recordings(delta[c.name := c]) == Recordings(delta) + if Encodable(c) then {c} else {}
  {
    var more := delta[c.name := c];
    assert more[c.name] == c;
    forall x | x in Recordings(delta)
      ensures x in Recordings(more)
    {
      var name :| name in delta && Encodable(delta[name]) && delta[name] == x;
      assert more[name] == x;
    }
  }

  lemma JarHeadersAdd(delta: map<string, Cookie>, c: Cookie)
    requires c.name !in delta && Keyed(delta)
    ensures JarHeaders(delta[c.name := c]) == JarHeaders(delta) + if Encodable(c) then multiset{c} else multiset{}
  {
    RecordingsAdd(delta, c);
    OneMoreInSet(Recordings(delta), c);
    assert Recordings(delta) + {} == Recordings(delta);
  }

  lemma OneMoreInSet(s: set<Cookie>, c: Cookie)
    requires c !in s
    ensures multiset(s + {c}) == multiset(s) + multiset{c}
  {
  }

  /** The jar of the first scope emits what would have been appended for it by hand. */
  lemma {:induction false} JarEmits(original: set<string>, cookies: seq<Cookie>, scope: Option<string>)
    requires Distinct(cookies)
    ensures JarHeaders(RecordedAll(map[], original, cookies, scope, false)) == multiset(ExtrasOf(cookies, scope, false))
  {
    if cookies == [] {
      assert RecordedAll(map[], original, cookies, scope, false) == map[];
    } else {
      var n := |cookies| - 1;
      var before := RecordedAll(map[], original, cookies[..n], scope, false);
      JarEmits(original, cookies[..n], scope);
      JarIsKeyed(original, cookies[..n], scope, false);
      NameIsAbsent(original, cookies[..n], scope, false, cookies[n].name);
      JarHeadersAdd(before, WithDomain(cookies[n], scope));
    }
  }

  /** A sign-in emits one `Set-Cookie` for every cookie and resolved domain that print as a header value,
      duplicates of a domain included: nothing is lost to the jar. */
  lemma OneHeaderEach(
      st: Settings, domains: seq<string>, access: string, refresh: string, original: set<string>, headers: seq<Cookie>)
    requires st.DistinctNames()
    requires Emits(headers, RecordedAll(map[], original, st.Plants(access, refresh), Scopes(domains)[0], false),
                   Extras(st.Plants(access, refresh), Scopes(domains)[1..], false))
    ensures multiset(headers) == AllHeaders(st.Plants(access, refresh), Scopes(domains), false)
    ensures |headers| == Pairs(st.Plants(access, refresh), Scopes(domains), false)
  {
    var plants, scopes := st.Plants(access, refresh), Scopes(domains);
    JarEmits(original, plants, scopes[0]);
    ExtrasAreAll(plants, scopes[1..], false);
    AllHeadersFirst(plants, scopes, false);
    ExtrasAreAll(plants, scopes, false);
    ExtrasCount(plants, scopes, false);
    assert |multiset(headers)| == |headers|;
  }

  /** Session cookie `i` of a sign-in is kept under `key` by way of scope `k`. */
  ghost predicate IsPlanted(
      read: Reading, st: Settings, domains: seq<string>, access: string, refresh: string, i: int, k: int, key: Key)
  {
    && 0 <= i < 3 && 0 <= k < |Scopes(domains)|
    && Encodable(Written(st.Plants(access, refresh)[i], Scopes(domains)[k], false))
    && KeyOf(read, Written(st.Plants(access, refresh)[i], Scopes(domains)[k], false)) == Some(key)
  }

  /** A sign-in leaves every session cookie the browser accepts in the store, with its own value. */
  lemma SignInStores(
      read: Reading, st: Settings, domains: seq<string>, access: string, refresh: string,
      store: map<Key, string>, planted: seq<Cookie>, i: int, k: int, key: Key)
    requires st.DistinctNames() && st.accessMaxAge > 0 && st.refreshMaxAge > 0
    requires Planted(st, domains, access, refresh, planted)
    requires IsPlanted(read, st, domains, access, refresh, i, k, key)
    ensures key in ReceiveAll(read, store, planted)
    ensures ReceiveAll(read, store, planted)[key] == st.Plants(access, refresh)[i].value
  {
    var plants, scopes := st.Plants(access, refresh), Scopes(domains);
    var c := Written(plants[i], scopes[k], false);
    var original :| PlantedOver(st, domains, access, refresh, original, planted);
    assert WrittenAt(c, plants, scopes, false, i, k) && Reaches(false, original, c.name, k);
    ResponseCarries(plants, domains, false, original, planted, c);
    assert c in planted && KeyOf(read, c) == Some(key);
    forall d | d in planted && KeyOf(read, d) == Some(key)
      ensures !Expiry(d) && d.value == plants[i].value
    {
      PlantedHeader(read, st, domains, access, refresh, planted, d);
      var j, l :| WrittenAt(d, plants, scopes, false, j, l);
      assert plants[j].name == plants[i].name && j == i;
    }
    ReceiveAllPlants(read, store, planted, key, plants[i].value);
  }

  /** The domain attribute of a scope: none if no domain was resolved, else one of them. */
  predicate IsScope(domains: seq<string>, scope: Option<string>) {
    if domains == [] then scope.None? else scope.Some? && scope.value in domains
  }

  lemma ScopeAt(domains: seq<string>, scope: Option<string>) returns (k: int)
    requires IsScope(domains, scope)
    ensures 0 <= k < |Scopes(domains)| && Scopes(domains)[k] == scope
  {
    if domains == [] {
      k := 0;
    } else {
      k :| 0 <= k < |domains| && domains[k] == scope.value;
    }
  }

  lemma ScopeIs(domains: seq<string>, k: int)
    requires 0 <= k < |Scopes(domains)|
    ensures IsScope(domains, Scopes(domains)[k])
  {
  }

  predicate PrintableScope(scope: Option<string>) {
    scope.Some? ==> Printable(scope.value)
  }

  /** After a sign-in the browser holds, in every scope it keeps cookies of: the access token under the access
      name for the whole site, the refresh token under the refresh name for the refresh path alone, and the
      signal; each if it prints as a header value. */
  lemma SignInHolds(
      read: Reading, st: Settings, domains: seq<string>, access: string, refresh: string,
      store: map<Key, string>, planted: seq<Cookie>, scope: Option<string>, domain: string)
    requires st.DistinctNames() && st.accessMaxAge > 0 && st.refreshMaxAge > 0
    requires Planted(st, domains, access, refresh, planted)
    requires IsScope(domains, scope) && PrintableScope(scope) && read(scope) == Some(domain)
    ensures var after := ReceiveAll(read, store, planted);
            && (Printable(st.accessName) && Printable(access) ==>
                  Key(st.accessName, domain, "/") in after && after[Key(st.accessName, domain, "/")] == access)
            && (Printable(st.refreshName) && Printable(refresh) && Printable(st.refreshPath) ==>
                  && Key(st.refreshName, domain, st.refreshPath) in after
                  && after[Key(st.refreshName, domain, st.refreshPath)] == refresh)
            && (Printable(st.signalName) ==>
                  Key(st.signalName, domain, "/") in after && after[Key(st.signalName, domain, "/")] == "1")
  {
    var k := ScopeAt(domains, scope);
    if Printable(st.accessName) && Printable(access) {
      SignInStores(read, st, domains, access, refresh, store, planted, 0, k, Key(st.accessName, domain, "/"));
    }
    if Printable(st.refreshName) && Printable(refresh) && Printable(st.refreshPath) {
      SignInStores(read, st, domains, access, refresh, store, planted, 1, k, Key(st.refreshName, domain, st.refreshPath));
    }
    if Printable(st.signalName) {
      SignInStores(read, st, domains, access, refresh, store, planted, 2, k, Key(st.signalName, domain, "/"));
    }
  }

  /** What every header of a sign-in says: both tokens are out of reach of scripts and the signal is not; the
      refresh token is sent to its own path only and is never `Lax`; each lives as long as configured. */
  lemma SignInHeaders(
      st: Settings, domains: seq<string>, access: string, refresh: string, planted: seq<Cookie>, c: Cookie)
    requires st.DistinctNames() && Planted(st, domains, access, refresh, planted) && c in planted
    ensures c.name in {st.accessName, st.refreshName, st.signalName} && IsScope(domains, c.domain) && c.secure == st.secure
    ensures Printable(c.name) && Printable(c.value) && Printable(c.path) && PrintableScope(c.domain)
    ensures c.name == st.accessName ==>
              && c.value == access && c.path == "/" && c.httpOnly && c.maxAge == Some(st.accessMaxAge)
              && c.sameSite == Some(st.sameSite)
    ensures c.name == st.refreshName ==>
              && c.value == refresh && c.path == st.refreshPath && c.httpOnly && c.maxAge == Some(st.refreshMaxAge)
              && c.sameSite == Some(if st.sameSite == CrossSite then CrossSite else Strict)
    ensures c.name == st.signalName ==>
              && c.value == "1" && c.path == "/" && !c.httpOnly && c.maxAge == Some(st.refreshMaxAge)
              && c.sameSite == Some(st.sameSite)
  {
    var original :| PlantedOver(st, domains, access, refresh, original, planted);
    ResponseCarries(st.Plants(access, refresh), domains, false, original, planted, c);
    var i, k :| WrittenAt(c, st.Plants(access, refresh), Scopes(domains), false, i, k);
    ScopeIs(domains, k);
  }

  /** What every header of a sign-out says: it empties and expires a session cookie at the path it was planted
      at, in one of the scopes. */
  lemma SignOutHeaders(
      st: Settings, domains: seq<string>, original: set<string>, cleared: seq<Cookie>, c: Cookie)
    requires st.DistinctNames() && Cleared(st, domains, original, cleared) && c in cleared
    ensures c.name in {st.accessName, st.refreshName, st.signalName} && IsScope(domains, c.domain) && c.secure == st.secure
    ensures c.value == "" && c.maxAge == Some(0)
    ensures c.path == if c.name == st.refreshName then st.refreshPath else "/"
    ensures c.name == st.refreshName ==> c.sameSite == Some(if st.sameSite == CrossSite then CrossSite else Strict)
  {
    ResponseCarries(st.Clears(), domains, true, original, cleared, c);
    var i, k :| WrittenAt(c, st.Clears(), Scopes(domains), true, i, k);
    ScopeIs(domains, k);
  }

  /** The sign-out expires session cookie `i` where the sign-in kept it by way of the first scope: the
      request brought the name, or a later scope the browser reads the same way covers it. */
  ghost predicate Covered(
      read: Reading, st: Settings, domains: seq<string>, original: set<string>, i: int)
    requires 0 <= i < 3
  {
    || st.Clears()[i].name in original
    || exists k :: 0 < k < |Scopes(domains)| && Writable(st, domains, i, k)
                   && SessionKey(read, st, domains, i, k) == SessionKey(read, st, domains, i, 0)
  }

  lemma CoveredIsCleared(
      read: Reading, st: Settings, domains: seq<string>, access: string, refresh: string, original: set<string>,
      i: int, k: int, key: Key)
    requires IsPlanted(read, st, domains, access, refresh, i, k, key)
    requires Covered(read, st, domains, original, i) || k > 0
    ensures exists j, l :: IsCleared(read, st, domains, original, j, l, key)
  {
    assert IsSessionKey(read, st, domains, i, k, key);
    if k > 0 || key.name in original {
      assert IsCleared(read, st, domains, original, i, k, key);
    } else {
      var l :| 0 < l < |Scopes(domains)| && Writable(st, domains, i, l)
               && SessionKey(read, st, domains, i, l) == SessionKey(read, st, domains, i, 0);
      assert IsCleared(read, st, domains, original, i, l, key);
    }
  }

  lemma UncoveredIsKept(
      read: Reading, st: Settings, domains: seq<string>, access: string, refresh: string, original: set<string>,
      i: int, key: Key)
    requires st.DistinctNames() && IsPlanted(read, st, domains, access, refresh, i, 0, key)
    requires !Covered(read, st, domains, original, i)
    ensures forall j, l :: !IsCleared(read, st, domains, original, j, l, key)
  {
  }

  /** A sign-out right after a sign-in leaves no session cookie behind exactly when every session
      cookie kept by way of the first scope is covered. In particular a sign-out request that does not
      carry a cookie, because its path or its channel did not bring it, leaves that cookie in place. */
  lemma SignOutIsCompleteIff(
      read: Reading, st: Settings, domains: seq<string>, access: string, refresh: string,
      store: map<Key, string>, original: set<string>, planted: seq<Cookie>, cleared: seq<Cookie>)
    requires st.DistinctNames() && st.accessMaxAge > 0 && st.refreshMaxAge > 0
    requires Planted(st, domains, access, refresh, planted) && Cleared(st, domains, original, cleared)
    ensures (forall i, k, key | IsPlanted(read, st, domains, access, refresh, i, k, key) ::
               key !in ReceiveAll(read, ReceiveAll(read, store, planted), cleared))
            <==>
            (forall i, key | IsPlanted(read, st, domains, access, refresh, i, 0, key) ::
               Covered(read, st, domains, original, i))
  {
    var mid := ReceiveAll(read, store, planted);
    var after := ReceiveAll(read, mid, cleared);
    forall i, k, key | IsPlanted(read, st, domains, access, refresh, i, k, key)
      ensures Covered(read, st, domains, original, i) || k > 0 ==> key !in after
      ensures k == 0 && !Covered(read, st, domains, original, i) ==> key in after
    {
      ClearedHeader(read, st, domains, original, cleared, key);
      ReceiveAllAt(read, mid, cleared, key);
      SignInStores(read, st, domains, access, refresh, store, planted, i, k, key);
      if Covered(read, st, domains, original, i) || k > 0 {
        CoveredIsCleared(read, st, domains, access, refresh, original, i, k, key);
      } else {
        UncoveredIsKept(read, st, domains, access, refresh, original, i, key);
      }
    }
  }

  /** The case left over, without a resolved domain: a sign-out request that carried no cookie expires
      nothing, and the access cookie stays in the browser. */
  lemma SignOutLeavesUncarried(read: Reading, st: Settings, access: string, refresh: string, store: map<Key, string>)
    returns (planted: seq<Cookie>, cleared: seq<Cookie>)
    requires st.DistinctNames() && st.accessMaxAge > 0 && st.refreshMaxAge > 0
    requires Encodable(st.Plants(access, refresh)[0]) && read(None).Some?
    ensures Planted(st, [], access, refresh, planted) && Cleared(st, [], {}, cleared)
    ensures var key := KeyOf(read, st.Plants(access, refresh)[0]).value;
            key in ReceiveAll(read, ReceiveAll(read, store, planted), cleared)
  {
    var plants := st.Plants(access, refresh);
    planted, cleared := ExtrasOf(plants, None, false), [];
    forall c: Cookie
      ensures c in planted <==> c in RecordedAll(map[], {}, plants, None, false).Values && Encodable(c)
    {
      JarKeeps({}, plants, None, false, c);
      ExtrasOfMembers(plants, None, false, c);
    }
    assert Scopes([])[1..] == [];
    assert PlantedOver(st, [], access, refresh, {}, planted);
    NothingRecorded(st.Clears(), None);
    assert Carries(cleared, map[], []);
    assert IsPlanted(read, st, [], access, refresh, 0, 0, KeyOf(read, plants[0]).value);
    SignInStores(read, st, [], access, refresh, store, planted, 0, 0, KeyOf(read, plants[0]).value);
  }

  lemma {:induction false} NothingRecorded(cookies: seq<Cookie>, scope: Option<string>)
    ensures RecordedAll(map[], {}, cookies, scope, true) == map[]
  {
    if cookies != [] {
      NothingRecorded(cookies[..|cookies| - 1], scope);
    }
  }
}
