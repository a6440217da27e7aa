/**
 The refresh-session keyspaces of one identity plane, and what each Redis script does to them.

 A key whose time to live has run out is absent, so a map holds exactly the keys `EXISTS` answers 1
 for. A Redis set never exists empty: removing its last member removes the key.
 */
module SessionStore {
  import opened Prelude

  /** `sha256` of a refresh token. */
  type Hash = string

  /** The id shared by every descendant of one login; "" is a record that belongs to no lineage. */
  type Family = string

  /** The account a session index is keyed by: the tenant and the user id, hashed together. */
  datatype Subject = Subject(tenant: string, user: string)

  /** The part of a session record that a rotation carries over. */
  datatype Record = Record(subject: Subject, family: Family, bornAt: Option<nat>)

  /** A rotation grace pointer: the hash the rotation produced, then the record it stored there. */
  datatype Pointer = Pointer(successor: Hash, record: Record)

  /** A member of a session index: the key suffix `rt:{hash}` or `rp:{hash}`. */
  datatype Member = Live(hash: Hash) | Grace(hash: Hash)

  /** A stored value and the first instant it no longer exists. */
  datatype Timed<+T> = Timed(value: T, expiry: nat)

  datatype Store = Store(
    now: nat,
    rt: map<Hash, Timed<Record>>,
    rp: map<Hash, Timed<Pointer>>,
    cf: map<Hash, Timed<Family>>,
    fam: map<Family, Timed<set<Hash>>>,
    sess: map<Subject, Timed<set<Member>>>,
    sd: map<Hash, Timed<Record>>,
    ep: map<Subject, Timed<nat>>)

  /** How long an epoch counter is kept after it was last advanced, in seconds. */
  const EPOCH_RETENTION: nat := 2592000

  /** The lifetimes of the token manager, in seconds. Startup validation refuses a refresh lifetime of
      zero, a grace window that is not strictly shorter than it, and an access lifetime longer than the
      epoch counters are kept. */
  datatype Config = Config(refreshTtl: nat, graceTtl: nat, absoluteLifetime: nat, accessTtl: nat) {
    predicate Valid() {
      graceTtl < refreshTtl && accessTtl <= EPOCH_RETENTION
    }
  }

  /** What `refresh_rotate` answers. */
  datatype Reply = Rotated(consumed: Record) | GraceHit(record: Record) | Reused(family: Family) | Invalid

  /** `SMEMBERS`: an absent set reads as the empty one. */
  function Members<K, V>(sets: map<K, Timed<set<V>>>, key: K): set<V> {
    if key in sets then sets[key].value else {}
  }

  /** `SADD` of every value followed by `EXPIRE`. */
  function AddAll<K, V>(sets: map<K, Timed<set<V>>>, key: K, values: set<V>, expiry: nat): map<K, Timed<set<V>>> {
    sets[key := Timed(Members(sets, key) + values, expiry)]
  }

  /** `SREM`: the key goes with its last member, and keeps its expiry otherwise. */
  function RemoveAll<K, V>(sets: map<K, Timed<set<V>>>, key: K, values: set<V>): map<K, Timed<set<V>>> {
    if key !in sets then sets
    else if sets[key].value <= values then sets - {key}
    else sets[key := Timed(sets[key].value - values, sets[key].expiry)]
  }

  /** The family index a record is registered in, if it has one. */
  function Enrol(s: Store, record: Record, hash: Hash, expiry: nat): map<Family, Timed<set<Hash>>> {
    if record.family == "" then s.fam else AddAll(s.fam, record.family, {hash}, expiry)
  }

  /** The `create_session` transaction. */
  function Create(s: Store, hash: Hash, record: Record, ttl: nat): Store {
    s.(rt := s.rt[hash := Timed(record, s.now + ttl)],
       sd := s.sd[hash := Timed(record, s.now + ttl)],
       sess := AddAll(s.sess, record.subject, {Live(hash)}, s.now + ttl),
       fam := Enrol(s, record, hash, s.now + ttl))
  }

  /** The lineage index of a rotation: the new hash takes the place of the old one. */
  function MovedLineage(fam: map<Family, Timed<set<Hash>>>, family: Family, token: Hash, drawn: Hash, expiry: nat)
    : map<Family, Timed<set<Hash>>>
  {
    if family == "" then fam else AddAll(RemoveAll(fam, family, {token}), family, {drawn}, expiry)
  }

  /** The session index of a rotation: the new session, and the old one's grace pointer if it has one. */
  function MovedIndex(
      sess: map<Subject, Timed<set<Member>>>, account: Subject, token: Hash, drawn: Hash, grace: bool, expiry: nat)
    : map<Subject, Timed<set<Member>>>
  {
    AddAll(RemoveAll(sess, account, {Live(token)}), account, {Live(drawn)} + (if grace then {Grace(token)} else {}), expiry)
  }

  /** The live arm of `refresh_rotate.lua`. */
  function RotateLive(s: Store, cfg: Config, token: Hash, drawn: Hash, record: Record): Store {
    var expiry := s.now + cfg.refreshTtl;
    Store(
      s.now,
      s.rt[drawn := Timed(record, expiry)] - {token},
      if cfg.graceTtl > 0 then s.rp[token := Timed(Pointer(drawn, record), s.now + cfg.graceTtl)] else s.rp,
      if record.family == "" then s.cf else s.cf[token := Timed(record.family, expiry)],
      MovedLineage(s.fam, record.family, token, drawn, expiry),
      MovedIndex(s.sess, record.subject, token, drawn, cfg.graceTtl > 0, expiry),
      s.sd,
      s.ep)
  }

  /** `move_session_detail`: the detail record follows the rotation, in a transaction of its own. */
  function MoveDetail(s: Store, cfg: Config, token: Hash, drawn: Hash, record: Record): Store {
    s.(sd := (s.sd - {token})[drawn := Timed(record, s.now + cfg.refreshTtl)])
  }

  /** What the script answers once the live key and a usable grace pointer are ruled out. */
  function PastGrace(s: Store, token: Hash): Reply {
    if token in s.cf then Reused(s.cf[token].value) else Invalid
  }

  /** `refresh_rotate.lua`. */
  function Rotate(s: Store, cfg: Config, token: Hash, drawn: Hash, record: Record): (Store, Reply) {
    if token in s.rt then (RotateLive(s, cfg, token, drawn, record), Rotated(s.rt[token].value))
    else if token in s.rp then
      var spent := s.(rp := s.rp - {token});
      if s.rp[token].value.successor in s.rt then (spent, GraceHit(s.rp[token].value.record))
      else (spent, PastGrace(s, token))
    else (s, PastGrace(s, token))
  }

  /** The two witnesses `recover_grace.lua` asks for before it writes. */
  predicate RecoveryAdmitted(s: Store, record: Record) {
    record.subject in s.sess && (record.family == "" || record.family in s.fam)
  }

  /** `recover_grace.lua`. */
  function Recover(s: Store, hash: Hash, record: Record, ttl: nat): (Store, bool) {
    if RecoveryAdmitted(s, record) then (Create(s, hash, record, ttl), true) else (s, false)
  }

  /** The session indexes once the owner's, if it was resolved, has lost the given sessions. */
  function Unindexed(sess: map<Subject, Timed<set<Member>>>, owner: Option<Subject>, gone: set<Hash>)
    : map<Subject, Timed<set<Member>>>
  {
    if owner.None? then sess else RemoveAll(sess, owner.value, set h | h in gone :: Live(h))
  }

  /** `revoke_family.lua`, for the owner the caller resolved, if it could resolve one. */
  function RevokeFamily(s: Store, family: Family, owner: Option<Subject>): Store {
    var doomed := Members(s.fam, family);
    s.(rt := s.rt - doomed,
       sd := s.sd - doomed,
       fam := s.fam - {family},
       sess := Unindexed(s.sess, owner, doomed))
  }

  /** `invalidate_user_sessions.lua`. */
  function RevokeAll(s: Store, subject: Subject): Store {
    var doomed := Members(s.sess, subject);
    s.(rt := map h | h in s.rt && Live(h) !in doomed :: s.rt[h],
       rp := map h | h in s.rp && Grace(h) !in doomed :: s.rp[h],
       sd := map h | h in s.sd && Live(h) !in doomed :: s.sd[h],
       sess := s.sess - {subject})
  }

  /** `session_revoke.lua`. */
  function RevokeSession(s: Store, subject: Subject, hash: Hash): (Store, bool) {
    if Live(hash) !in Members(s.sess, subject) then (s, false)
    else (s.(sess := RemoveAll(s.sess, subject, {Live(hash)}), rt := s.rt - {hash}, sd := s.sd - {hash}), true)
  }

  /** `delete_grace_pointer`. */
  function DropPointer(s: Store, hash: Hash): Store {
    s.(rp := s.rp - {hash})
  }

  /** `EXISTS` on the key a member names. */
  predicate Exists(rt: map<Hash, Timed<Record>>, rp: map<Hash, Timed<Pointer>>, member: Member) {
    match member
    case Live(h) => h in rt
    case Grace(h) => h in rp
  }

  /** The candidates whose key is gone. */
  function Dead(rt: map<Hash, Timed<Record>>, rp: map<Hash, Timed<Pointer>>, candidates: set<Member>): set<Member> {
    set m | m in candidates && !Exists(rt, rp, m)
  }

  /** `session_prune_dead.lua`. */
  function Prune(s: Store, subject: Subject, candidates: set<Member>): Store {
    s.(sess := RemoveAll(s.sess, subject, Dead(s.rt, s.rp, candidates)))
  }

  /** The keys of one keyspace that outlive the instant `now`. */
  function Unexpired<K, V>(m: map<K, Timed<V>>, now: nat): map<K, Timed<V>> {
    map k | k in m && now < m[k].expiry :: m[k]
  }

  /** Time passing. */
  function Advance(s: Store, seconds: nat): Store {
    var now := s.now + seconds;
    Store(now, Unexpired(s.rt, now), Unexpired(s.rp, now), Unexpired(s.cf, now),
          Unexpired(s.fam, now), Unexpired(s.sess, now), Unexpired(s.sd, now), Unexpired(s.ep, now))
  }

  /** `current_epoch`: an absent counter reads as zero. */
  function Epoch(s: Store, account: Subject): nat {
    if account in s.ep then s.ep[account].value else 0
  }

  /** `bump_epoch`: `INCR` and `EXPIRE` in one transaction. */
  function BumpEpoch(s: Store, account: Subject): Store {
    s.(ep := s.ep[account := Timed(Epoch(s, account) + 1, s.now + EPOCH_RETENTION)])
  }

  /** The live sessions and the grace pointers a session index names. */
  function Hashes(s: Store, account: Subject, live: bool): set<Hash> {
    set m | m in Members(s.sess, account) && m.Live? == live :: m.hash
  }

  /** `list_session_entries`: the sessions the index names, but for those with neither key nor detail. */
  function Entries(s: Store, account: Subject): set<Hash> {
    set h | h in Hashes(s, account, true) && (h in s.rt || h in s.sd)
  }

  /** `SREM` of one grace pointer from its index. */
  function UnindexPointer(s: Store, account: Subject, hash: Hash): Store {
    s.(sess := RemoveAll(s.sess, account, {Grace(hash)}))
  }

  /** `assert_within_absolute_lifetime` at the instant `now`. */
  predicate WithinCap(cfg: Config, record: Record, now: nat) {
    cfg.absoluteLifetime == 0 || record.bornAt.None? || now <= record.bornAt.value + cfg.absoluteLifetime
  }

  /** The identity seeded into a rotation whose token has no live record. */
  const PLACEHOLDER := Record(Subject("", ""), "", None)
}
