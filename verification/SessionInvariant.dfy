/** What every step of the session system keeps, whatever runs between two steps of a request. */
module SessionInvariant {
  import opened Prelude
  import opened SessionStore
  import opened SessionSystem

  /** Every hash the store names has been seen, so it is never drawn again. */
  ghost predicate Known(s: Store, seen: set<Hash>) {
    && (forall h | h in s.rt :: h in seen)
    && (forall h | h in s.rp :: h in seen && s.rp[h].value.successor in seen)
    && (forall h | h in s.cf :: h in seen)
    && IndexKnown(s, seen)
    && (forall f, h | f in s.fam && h in s.fam[f].value :: h in seen)
  }

  ghost predicate IndexKnown(s: Store, seen: set<Hash>) {
    forall a, m | a in s.sess && m in s.sess[a].value :: m.hash in seen
  }

  /** `key` indexes `member` and outlives the instant `expiry`. */
  ghost predicate IndexedUnder<K, V>(sets: map<K, Timed<set<V>>>, key: K, member: V, expiry: nat) {
    key in sets && member in sets[key].value && expiry <= sets[key].expiry
  }

  /** No live session and no grace pointer is missing from an index that a revocation reads. */
  ghost predicate Indexed(s: Store) {
    SessionsIndexed(s) && LineagesIndexed(s) && PointersIndexed(s)
  }

  ghost predicate SessionsIndexed(s: Store) {
    forall h | h in s.rt :: IndexedUnder(s.sess, s.rt[h].value.subject, Live(h), s.rt[h].expiry)
  }

  ghost predicate LineagesIndexed(s: Store) {
    forall h | h in s.rt && s.rt[h].value.family != "" ::
      IndexedUnder(s.fam, s.rt[h].value.family, h, s.rt[h].expiry)
  }

  ghost predicate PointersIndexed(s: Store) {
    forall h | h in s.rp ::
      IndexedUnder(s.sess, s.rp[h].value.record.subject, Grace(h), s.rp[h].expiry)
  }

  /** No index names a session that belongs to another account or another lineage. */
  ghost predicate Owned(s: Store) {
    SessionsOwned(s) && PointersOwned(s) && LineagesOwned(s)
  }

  ghost predicate SessionsOwned(s: Store) {
    forall a, h | a in s.sess && Live(h) in s.sess[a].value && h in s.rt :: s.rt[h].value.subject == a
  }

  ghost predicate PointersOwned(s: Store) {
    forall a, h | a in s.sess && Grace(h) in s.sess[a].value :: OwnedPointer(s, a, h)
  }

  /** A token with a grace pointer is not live, and its pointer belongs to the account. */
  predicate OwnedPointer(s: Store, a: Subject, h: Hash) {
    h !in s.rt && (h in s.rp ==> s.rp[h].value.record.subject == a)
  }

  ghost predicate LineagesOwned(s: Store) {
    forall f, h | f in s.fam && h in s.fam[f].value && h in s.rt :: s.rt[h].value.family == f
  }

  /** No key outlives a lifetime counted from now. */
  ghost predicate Bounded(cfg: Config, s: Store) {
    && (forall h | h in s.rt :: s.rt[h].expiry <= s.now + cfg.refreshTtl)
    && (forall h | h in s.rp :: s.rp[h].expiry <= s.now + cfg.graceTtl)
  }

  /** A consumed token is not live, and its pointer names a session of its own lineage. */
  ghost predicate Consumed(s: Store) {
    && (forall h | h in s.rp :: h !in s.rt)
    && (forall h | h in s.cf :: h !in s.rt)
    && (forall h | h in s.rp && s.rp[h].value.successor in s.rt ::
          s.rt[s.rp[h].value.successor].value == s.rp[h].value.record)
  }

  /** A record is the one its login stored, whatever rotations lie between. */
  predicate Descends(lineages: map<Family, Record>, r: Record) {
    r.family != "" ==> r.family in lineages && lineages[r.family] == r
  }

  predicate Opened(lineages: map<Family, Record>, f: Family) {
    f != "" && f in lineages
  }

  /** Identity and birth are inherited unchanged along every lineage. */
  ghost predicate Inherited(s: Store, lineages: map<Family, Record>) {
    && (forall h | h in s.rt :: Descends(lineages, s.rt[h].value))
    && (forall h | h in s.rp :: Descends(lineages, s.rp[h].value.record))
    && (forall h | h in s.cf :: Opened(lineages, s.cf[h].value))
    && (forall f | f in s.fam :: Opened(lineages, f))
  }

  /** What a request in flight remembers is still true of the system. */
  ghost predicate PhaseOk(y: System, p: Phase) {
    match p
    case Seeded(token, seed) =>
      && token in y.seen
      && (seed.Some? ==> Descends(y.lineages, seed.value))
      && (token in y.store.rt ==> seed == Some(y.store.rt[token].value))
    case GraceReplied(token, record) => token in y.seen && Descends(y.lineages, record)
    case LineageAlive(token, record) => token in y.seen && Descends(y.lineages, record)
    case Recovering(token, record) => token in y.seen && Descends(y.lineages, record)
    case ReuseSeen(family) => Opened(y.lineages, family)
    case OwnerRead(family, owner) =>
      Opened(y.lineages, family) && (owner.Some? ==> owner.value == y.lineages[family].subject)
    case Resolving(account, _, entries) => forall h | h in entries :: Enlisted(y, account, h)
    case Chosen(account, kept) => Enlisted(y, account, kept)
    case Sweeping(_, pointers) => forall h | h in pointers :: Spent(y, h)
    case Unindexing(_, pointer, pointers) =>
      Spent(y, pointer) && pointer !in y.store.rp && forall h | h in pointers :: Spent(y, h)
    case _ => true
  }

  /** A hash the account's index named: if it is live, it is a session of the account. */
  predicate Enlisted(y: System, account: Subject, h: Hash) {
    h in y.seen && (h in y.store.rt ==> y.store.rt[h].value.subject == account)
  }

  /** A hash that was seen and is not live never is live again. */
  predicate Spent(y: System, h: Hash) {
    h in y.seen && h !in y.store.rt
  }

  ghost predicate PhasesOk(y: System) {
    forall r | r in y.pending :: PhaseOk(y, y.pending[r])
  }

  /** The part of the invariant that speaks of the store alone. */
  ghost predicate Sound(cfg: Config, s: Store, seen: set<Hash>) {
    Known(s, seen) && Bounded(cfg, s) && Indexed(s) && Owned(s) && Consumed(s)
  }

  ghost predicate Inv(cfg: Config, y: System) {
    Sound(cfg, y.store, y.seen) && Inherited(y.store, y.lineages) && PhasesOk(y)
  }

  // Storing a session under a hash nobody has seen.

  lemma CreateKnown(cfg: Config, s: Store, seen: set<Hash>, hash: Hash, record: Record)
    requires Known(s, seen)
    ensures Known(Create(s, hash, record, cfg.refreshTtl), seen + {hash})
  {
  }

  lemma CreateIndexed(cfg: Config, s: Store, seen: set<Hash>, hash: Hash, record: Record)
    requires cfg.Valid() && Indexed(s) && Bounded(cfg, s)
    ensures Indexed(Create(s, hash, record, cfg.refreshTtl))
  {
  }

  lemma CreateSessionsOwned(cfg: Config, s: Store, seen: set<Hash>, hash: Hash, record: Record)
    requires SessionsOwned(s) && Known(s, seen) && hash !in seen
    ensures SessionsOwned(Create(s, hash, record, cfg.refreshTtl))
  {
  }

  lemma CreatePointersOwned(cfg: Config, s: Store, seen: set<Hash>, hash: Hash, record: Record)
    requires PointersOwned(s) && Known(s, seen) && hash !in seen
    ensures PointersOwned(Create(s, hash, record, cfg.refreshTtl))
  {
  }

  lemma CreateLineagesOwned(cfg: Config, s: Store, seen: set<Hash>, hash: Hash, record: Record)
    requires LineagesOwned(s) && Known(s, seen) && hash !in seen
    ensures LineagesOwned(Create(s, hash, record, cfg.refreshTtl))
  {
  }

  lemma CreateConsumed(cfg: Config, s: Store, seen: set<Hash>, hash: Hash, record: Record)
    requires Consumed(s) && Bounded(cfg, s) && Known(s, seen) && hash !in seen
    ensures Consumed(Create(s, hash, record, cfg.refreshTtl)) && Bounded(cfg, Create(s, hash, record, cfg.refreshTtl))
  {
  }

  lemma CreateSound(cfg: Config, s: Store, seen: set<Hash>, hash: Hash, record: Record)
    requires cfg.Valid() && Sound(cfg, s, seen) && hash !in seen
    ensures Sound(cfg, Create(s, hash, record, cfg.refreshTtl), seen + {hash})
  {
    CreateKnown(cfg, s, seen, hash, record);
    CreateIndexed(cfg, s, seen, hash, record);
    CreateSessionsOwned(cfg, s, seen, hash, record);
    CreatePointersOwned(cfg, s, seen, hash, record);
    CreateLineagesOwned(cfg, s, seen, hash, record);
    CreateConsumed(cfg, s, seen, hash, record);
  }

  // The live arm of a rotation.

  /** What an index names once a member was replaced in one of its sets. */
  lemma MoveMembers<K, V>(sets: map<K, Timed<set<V>>>, key: K, gone: V, more: set<V>, expiry: nat, k: K, m: V)
    ensures m in Members(AddAll(RemoveAll(sets, key, {gone}), key, more, expiry), k) <==>
            (k == key && m in more) || (m in Members(sets, k) && (k != key || m != gone))
  {
  }

  lemma RotateKnown(cfg: Config, s: Store, seen: set<Hash>, token: Hash, drawn: Hash)
    requires Known(s, seen) && token in s.rt
    ensures Known(RotateLive(s, cfg, token, drawn, s.rt[token].value), seen + {drawn})
  {
    var record := s.rt[token].value;
    var t := RotateLive(s, cfg, token, drawn, record);
    var more := {Live(drawn)} + (if cfg.graceTtl > 0 then {Grace(token)} else {});
    forall a, m | a in t.sess && m in t.sess[a].value
      ensures m.hash in seen + {drawn}
    {
      MoveMembers(s.sess, record.subject, Live(token), more, s.now + cfg.refreshTtl, a, m);
    }
    forall f, h | f in t.fam && h in t.fam[f].value
      ensures h in seen + {drawn}
    {
      MoveMembers(s.fam, record.family, token, {drawn}, s.now + cfg.refreshTtl, f, h);
    }
  }

  lemma RotateSessionsIndexed(cfg: Config, s: Store, token: Hash, drawn: Hash)
    requires cfg.Valid() && SessionsIndexed(s) && Bounded(cfg, s) && token in s.rt
    ensures SessionsIndexed(RotateLive(s, cfg, token, drawn, s.rt[token].value))
  {
  }

  lemma RotateLineagesIndexed(cfg: Config, s: Store, token: Hash, drawn: Hash)
    requires cfg.Valid() && LineagesIndexed(s) && Bounded(cfg, s) && token in s.rt
    ensures LineagesIndexed(RotateLive(s, cfg, token, drawn, s.rt[token].value))
  {
  }

  /** A member that is not taken away keeps an index that outlives what it outlived. */
  lemma MoveIndexed<K, V>(sets: map<K, Timed<set<V>>>, key: K, gone: V, more: set<V>, expiry: nat, k: K, m: V, e: nat)
    requires IndexedUnder(sets, k, m, e) && (k == key ==> m != gone && e <= expiry)
    ensures IndexedUnder(AddAll(RemoveAll(sets, key, {gone}), key, more, expiry), k, m, e)
  {
  }

  lemma RotatePointersIndexed(cfg: Config, s: Store, token: Hash, drawn: Hash)
    requires cfg.Valid() && PointersIndexed(s) && Bounded(cfg, s) && token in s.rt
    ensures PointersIndexed(RotateLive(s, cfg, token, drawn, s.rt[token].value))
  {
    var record := s.rt[token].value;
    var t := RotateLive(s, cfg, token, drawn, record);
    var more := {Live(drawn)} + (if cfg.graceTtl > 0 then {Grace(token)} else {});
    forall h | h in t.rp
      ensures IndexedUnder(t.sess, t.rp[h].value.record.subject, Grace(h), t.rp[h].expiry)
    {
      if t.rp[h] == Timed(Pointer(drawn, record), s.now + cfg.graceTtl) && h == token && cfg.graceTtl > 0 {
        assert Grace(h) in more;
      } else {
        MoveIndexed(s.sess, record.subject, Live(token), more, s.now + cfg.refreshTtl,
                    s.rp[h].value.record.subject, Grace(h), s.rp[h].expiry);
      }
    }
  }

  lemma RotateSessionsOwned(cfg: Config, s: Store, seen: set<Hash>, token: Hash, drawn: Hash)
    requires Known(s, seen) && SessionsOwned(s) && token in s.rt && drawn !in seen
    ensures SessionsOwned(RotateLive(s, cfg, token, drawn, s.rt[token].value))
  {
  }

  lemma RotatePointerOwned(cfg: Config, s: Store, token: Hash, drawn: Hash, a: Subject, h: Hash)
    requires token in s.rt && token != drawn
    requires Grace(h) in Members(s.sess, a) ==> h != drawn && OwnedPointer(s, a, h)
    requires Grace(h) in Members(RotateLive(s, cfg, token, drawn, s.rt[token].value).sess, a)
    ensures OwnedPointer(RotateLive(s, cfg, token, drawn, s.rt[token].value), a, h)
  {
    var more := {Live(drawn)} + (if cfg.graceTtl > 0 then {Grace(token)} else {});
    MoveMembers(s.sess, s.rt[token].value.subject, Live(token), more, s.now + cfg.refreshTtl, a, Grace(h));
  }

  lemma RotatePointersOwned(cfg: Config, s: Store, seen: set<Hash>, token: Hash, drawn: Hash)
    requires IndexKnown(s, seen) && token in seen && PointersOwned(s) && token in s.rt && drawn !in seen
    ensures PointersOwned(RotateLive(s, cfg, token, drawn, s.rt[token].value))
  {
    var t := RotateLive(s, cfg, token, drawn, s.rt[token].value);
    forall a, h | a in t.sess && Grace(h) in t.sess[a].value
      ensures OwnedPointer(t, a, h)
    {
      RotatePointerOwned(cfg, s, token, drawn, a, h);
    }
  }

  lemma RotateLineagesOwned(cfg: Config, s: Store, seen: set<Hash>, token: Hash, drawn: Hash)
    requires Known(s, seen) && LineagesOwned(s) && token in s.rt && drawn !in seen
    ensures LineagesOwned(RotateLive(s, cfg, token, drawn, s.rt[token].value))
  {
  }

  lemma RotateBounded(cfg: Config, s: Store, token: Hash, drawn: Hash)
    requires Bounded(cfg, s) && token in s.rt
    ensures Bounded(cfg, RotateLive(s, cfg, token, drawn, s.rt[token].value))
  {
  }

  lemma RotateConsumed(cfg: Config, s: Store, seen: set<Hash>, token: Hash, drawn: Hash)
    requires Consumed(s) && Known(s, seen) && token in s.rt && drawn !in seen
    ensures Consumed(RotateLive(s, cfg, token, drawn, s.rt[token].value))
  {
  }

  lemma RotateSound(cfg: Config, s: Store, seen: set<Hash>, token: Hash, drawn: Hash)
    requires cfg.Valid() && Sound(cfg, s, seen) && token in s.rt && drawn !in seen
    ensures Sound(cfg, RotateLive(s, cfg, token, drawn, s.rt[token].value), seen + {drawn})
  {
    RotateKnown(cfg, s, seen, token, drawn);
    RotateSessionsIndexed(cfg, s, token, drawn);
    RotateLineagesIndexed(cfg, s, token, drawn);
    RotatePointersIndexed(cfg, s, token, drawn);
    RotateSessionsOwned(cfg, s, seen, token, drawn);
    RotatePointersOwned(cfg, s, seen, token, drawn);
    RotateLineagesOwned(cfg, s, seen, token, drawn);
    RotateConsumed(cfg, s, seen, token, drawn);
    RotateBounded(cfg, s, token, drawn);
  }

  // Every other script only takes keys away.

  ghost predicate Within<K, V>(t: map<K, V>, s: map<K, V>) {
    forall k | k in t :: k in s && t[k] == s[k]
  }

  ghost predicate SetsWithin<K, V>(t: map<K, Timed<set<V>>>, s: map<K, Timed<set<V>>>) {
    forall k | k in t :: k in s && t[k].value <= s[k].value
  }

  /** No session outlives its expiry. */
  ghost predicate Current(s: Store) {
    forall h | h in s.rt :: s.now < s.rt[h].expiry
  }

  /** Keys are only lost; where time passes, the expired ones are. */
  ghost predicate Shrinks(s: Store, t: Store) {
    && s.now <= t.now && (s.now == t.now || Current(t))
    && Within(t.rt, s.rt) && Within(t.rp, s.rp) && Within(t.cf, s.cf)
    && SetsWithin(t.sess, s.sess) && SetsWithin(t.fam, s.fam)
  }

  lemma ShrinkKnown(s: Store, t: Store, seen: set<Hash>)
    requires Known(s, seen) && Shrinks(s, t)
    ensures Known(t, seen)
  {
  }

  lemma ShrinkOwned(s: Store, t: Store)
    requires Owned(s) && Shrinks(s, t)
    ensures Owned(t)
  {
  }

  lemma ShrinkConsumed(cfg: Config, s: Store, t: Store)
    requires Consumed(s) && Bounded(cfg, s) && Shrinks(s, t)
    ensures Consumed(t) && Bounded(cfg, t)
  {
  }

  lemma ShrinkSound(cfg: Config, s: Store, t: Store, seen: set<Hash>)
    requires Sound(cfg, s, seen) && Shrinks(s, t) && Indexed(t)
    ensures Sound(cfg, t, seen)
  {
    ShrinkKnown(s, t, seen);
    ShrinkOwned(s, t);
    ShrinkConsumed(cfg, s, t);
  }

  /** `SREM` takes away nothing but the values it names. */
  lemma RemoveAllWithin<K, V>(sets: map<K, Timed<set<V>>>, key: K, values: set<V>)
    ensures SetsWithin(RemoveAll(sets, key, values), sets)
    ensures forall k, m, e {:trigger IndexedUnder(sets, k, m, e)} ::
      IndexedUnder(sets, k, m, e) && (k != key || m !in values) ==>
        IndexedUnder(RemoveAll(sets, key, values), k, m, e)
  {
  }

  lemma UnindexedWithin(sess: map<Subject, Timed<set<Member>>>, owner: Option<Subject>, gone: set<Hash>)
    ensures SetsWithin(Unindexed(sess, owner, gone), sess)
    ensures forall a, h, e :: IndexedUnder(sess, a, Grace(h), e) ==> IndexedUnder(Unindexed(sess, owner, gone), a, Grace(h), e)
    ensures forall a, h, e ::
      h !in gone && IndexedUnder(sess, a, Live(h), e) ==> IndexedUnder(Unindexed(sess, owner, gone), a, Live(h), e)
  {
    if owner.Some? {
      RemoveAllWithin(sess, owner.value, set h | h in gone :: Live(h));
    }
  }

  lemma RevokeFamilyIndexed(s: Store, t: Store, family: Family)
    requires Indexed(s) && LineagesOwned(s) && t.rp == s.rp
    requires t.rt == s.rt - Members(s.fam, family) && t.fam == s.fam - {family}
    requires forall a, h, e :: IndexedUnder(s.sess, a, Grace(h), e) ==> IndexedUnder(t.sess, a, Grace(h), e)
    requires forall a, h, e ::
      h !in Members(s.fam, family) && IndexedUnder(s.sess, a, Live(h), e) ==> IndexedUnder(t.sess, a, Live(h), e)
    ensures Indexed(t)
  {
    forall h | h in t.rt && t.rt[h].value.family != ""
      ensures IndexedUnder(t.fam, t.rt[h].value.family, h, t.rt[h].expiry)
    {
      assert IndexedUnder(s.fam, s.rt[h].value.family, h, s.rt[h].expiry);
    }
  }

  lemma RevokeFamilyShrinks(s: Store, family: Family, owner: Option<Subject>)
    requires Indexed(s) && LineagesOwned(s)
    ensures Shrinks(s, RevokeFamily(s, family, owner)) && Indexed(RevokeFamily(s, family, owner))
  {
    var t := RevokeFamily(s, family, owner);
    assert t.sess == Unindexed(s.sess, owner, Members(s.fam, family));
    UnindexedWithin(s.sess, owner, Members(s.fam, family));
    RevokeFamilyIndexed(s, t, family);
  }

  lemma RevokeAllShrinks(s: Store, subject: Subject)
    requires Indexed(s) && SessionsOwned(s) && PointersOwned(s)
    ensures Shrinks(s, RevokeAll(s, subject)) && Indexed(RevokeAll(s, subject))
  {
  }

  lemma ForgetShrinks(s: Store, t: Store, subject: Subject, hash: Hash)
    requires Indexed(s)
    requires t == s.(sess := RemoveAll(s.sess, subject, {Live(hash)}), rt := s.rt - {hash}, sd := t.sd)
    ensures Shrinks(s, t) && Indexed(t)
  {
    RemoveAllWithin(s.sess, subject, {Live(hash)});
  }

  lemma RevokeSessionShrinks(s: Store, subject: Subject, hash: Hash)
    requires Indexed(s)
    ensures Shrinks(s, RevokeSession(s, subject, hash).0) && Indexed(RevokeSession(s, subject, hash).0)
  {
    var t := RevokeSession(s, subject, hash).0;
    if Live(hash) in Members(s.sess, subject) {
      ForgetShrinks(s, t, subject, hash);
    } else {
      SameShrinks(s, t);
    }
  }

  lemma DropPointerShrinks(s: Store, hash: Hash)
    requires Indexed(s)
    ensures Shrinks(s, DropPointer(s, hash)) && Indexed(DropPointer(s, hash))
  {
  }

  lemma UnindexPointerShrinks(s: Store, account: Subject, hash: Hash)
    requires Indexed(s) && hash !in s.rp
    ensures Shrinks(s, UnindexPointer(s, account, hash)) && Indexed(UnindexPointer(s, account, hash))
  {
    RemoveAllWithin(s.sess, account, {Grace(hash)});
  }

  lemma PruneShrinks(s: Store, subject: Subject, candidates: set<Member>)
    requires Indexed(s)
    ensures Shrinks(s, Prune(s, subject, candidates)) && Indexed(Prune(s, subject, candidates))
  {
    RemoveAllWithin(s.sess, subject, Dead(s.rt, s.rp, candidates));
  }

  lemma AdvanceShrinks(s: Store, seconds: nat)
    requires Indexed(s)
    ensures Shrinks(s, Advance(s, seconds)) && Indexed(Advance(s, seconds))
  {
  }

  lemma SameShrinks(s: Store, t: Store)
    requires Indexed(s) && t == s.(sd := t.sd, ep := t.ep)
    ensures Shrinks(s, t) && Indexed(t)
  {
  }

  // The system.

  /** The step stores a session under the hash it draws. */
  ghost predicate Mints(y: System, step: Step)
    requires Enabled(y, step)
  {
    match step
    case Login(_, _) => true
    case RunRotate(request, _) => y.pending[request].token in y.store.rt
    case RunRecover(request, _) => RecoveryAdmitted(y.store, y.pending[request].record)
    case _ => false
  }

  /** The record it stores. */
  ghost function Minted(y: System, step: Step): Record
    requires Enabled(y, step) && Mints(y, step)
  {
    match step
    case Login(_, record) => record
    case RunRotate(request, _) => y.store.rt[y.pending[request].token].value
    case RunRecover(request, _) => y.pending[request].record
  }

  /** What a step that stores no session does. */
  ghost predicate Tame(y: System, z: System) {
    Shrinks(y.store, z.store) && Indexed(z.store) && y.seen <= z.seen && y.lineages == z.lineages
  }

  lemma RevocationIsTame(cfg: Config, y: System, step: Step)
    requires Indexed(y.store) && Owned(y.store) && Enabled(y, step)
    requires step.RunRevokeFamily? || step.SignOut? || step.SignOutEverywhere? || step.RevokeVictim?
    ensures Tame(y, Apply(cfg, y, step))
  {
    match step {
      case RunRevokeFamily(request) =>
        RevokeFamilyShrinks(y.store, y.pending[request].family, y.pending[request].owner);
      case SignOut(subject, hash) => RevokeSessionShrinks(y.store, subject, hash);
      case SignOutEverywhere(account) => RevokeAllShrinks(y.store, account);
      case RevokeVictim(request, hash) => RevokeSessionShrinks(y.store, y.pending[request].account, hash);
    }
  }

  lemma PointerStepIsTame(cfg: Config, y: System, step: Step)
    requires Indexed(y.store) && Enabled(y, step)
    requires step.DropGrace? || step.DeletePointer? || step.PruneIndex? || step.Tick?
    ensures Tame(y, Apply(cfg, y, step))
  {
    match step {
      case DropGrace(hash) => DropPointerShrinks(y.store, hash);
      case DeletePointer(_, hash) => DropPointerShrinks(y.store, hash);
      case PruneIndex(owner, candidates) => PruneShrinks(y.store, owner, candidates);
      case Tick(seconds) => AdvanceShrinks(y.store, seconds);
    }
  }

  lemma RemovalIsTame(cfg: Config, y: System, step: Step)
    requires Indexed(y.store) && step.RemovePointer? && Enabled(y, step) && PhaseOk(y, y.pending[step.request])
    ensures Tame(y, Apply(cfg, y, step))
  {
    UnindexPointerShrinks(y.store, y.pending[step.request].account, y.pending[step.request].pointer);
  }

  lemma RefusalIsTame(cfg: Config, y: System, step: Step)
    requires Indexed(y.store) && Enabled(y, step) && !Mints(y, step) && (step.RunRotate? || step.RunRecover?)
    ensures Tame(y, Apply(cfg, y, step))
  {
    if step.RunRotate? {
      DropPointerShrinks(y.store, y.pending[step.request].token);
    }
    SameShrinks(y.store, y.store);
  }

  /** A step that leaves the five session keyspaces as they are. */
  predicate Reads(step: Step) {
    || step.Present? || step.CheckLineage? || step.CheckRecovered? || step.RunMove? || step.ReadEpoch? || step.ReadOwner?
    || step.Bump? || step.Settle? || step.ReadSuccessor? || step.Spare? || step.ListPointers? || step.Finish?
  }

  lemma ReadIsTame(cfg: Config, y: System, step: Step)
    requires Indexed(y.store) && Enabled(y, step) && Reads(step)
    ensures Tame(y, Apply(cfg, y, step))
  {
    SameShrinks(y.store, Apply(cfg, y, step).store);
  }

  lemma OtherIsTame(cfg: Config, y: System, step: Step)
    requires Inv(cfg, y) && Enabled(y, step) && !Mints(y, step)
    ensures Tame(y, Apply(cfg, y, step))
  {
    if step.RunRotate? || step.RunRecover? {
      RefusalIsTame(cfg, y, step);
    } else if Reads(step) {
      ReadIsTame(cfg, y, step);
    } else if step.RunRevokeFamily? || step.SignOut? || step.SignOutEverywhere? || step.RevokeVictim? {
      RevocationIsTame(cfg, y, step);
    } else if step.RemovePointer? {
      assert PhaseOk(y, y.pending[step.request]);
      RemovalIsTame(cfg, y, step);
    } else {
      PointerStepIsTame(cfg, y, step);
    }
  }

  /** What a step that stores a session does: it rotates a live token, or it creates. */
  lemma MintIs(cfg: Config, y: System, step: Step)
    requires PhasesOk(y) && Enabled(y, step) && Mints(y, step)
    ensures Apply(cfg, y, step).store ==
            if step.RunRotate? then
              var token := y.pending[step.request].token;
              RotateLive(y.store, cfg, token, step.drawn, y.store.rt[token].value)
            else if step.Login? then Create(y.store, step.hash, step.record, cfg.refreshTtl)
            else Create(y.store, step.drawn, y.pending[step.request].record, cfg.refreshTtl)
    ensures Apply(cfg, y, step).seen == y.seen + Shown(step)
    ensures !step.Login? ==> Apply(cfg, y, step).lineages == y.lineages
  {
    if !step.Login? {
      assert PhaseOk(y, y.pending[step.request]);
    }
  }

  /** A step extends what was seen and opened, and a session or a pointer it adds is new. */
  ghost predicate Continues(y: System, z: System) {
    && y.seen <= z.seen
    && Within(y.lineages, z.lineages)
    && (forall h | h in z.store.rt && h in y.seen :: h in y.store.rt && z.store.rt[h] == y.store.rt[h])
    && (forall h | h in z.store.rp && Spent(y, h) :: h in y.store.rp && z.store.rp[h] == y.store.rp[h])
  }

  /** What the store keeps of a lineage when it only loses keys. */
  lemma ShrinkInherits(s: Store, t: Store, lineages: map<Family, Record>)
    requires Inherited(s, lineages) && Shrinks(s, t)
    ensures Inherited(t, lineages)
  {
  }

  lemma CreateInherits(s: Store, hash: Hash, record: Record, ttl: nat, lineages: map<Family, Record>)
    requires Inherited(s, lineages) && Descends(lineages, record)
    ensures Inherited(Create(s, hash, record, ttl), lineages)
  {
  }

  lemma OpenInherits(s: Store, lineages: map<Family, Record>, record: Record)
    requires Inherited(s, lineages) && record.family !in lineages
    ensures Inherited(s, lineages[record.family := record])
  {
  }

  /** The successor of a rotation carries the record of the session it replaces. */
  lemma RotateInherits(s: Store, cfg: Config, token: Hash, drawn: Hash, lineages: map<Family, Record>)
    requires Inherited(s, lineages) && token in s.rt
    ensures Inherited(RotateLive(s, cfg, token, drawn, s.rt[token].value), lineages)
  {
  }

  ghost predicate Kept(cfg: Config, y: System, z: System) {
    Sound(cfg, z.store, z.seen) && Inherited(z.store, z.lineages) && Continues(y, z)
  }

  lemma SeenMore(cfg: Config, s: Store, seen: set<Hash>, more: set<Hash>)
    requires Sound(cfg, s, seen) && seen <= more
    ensures Sound(cfg, s, more)
  {
  }

  lemma TameKept(cfg: Config, y: System, z: System)
    requires Sound(cfg, y.store, y.seen) && Inherited(y.store, y.lineages) && Tame(y, z)
    ensures Kept(cfg, y, z)
  {
    ShrinkSound(cfg, y.store, z.store, y.seen);
    SeenMore(cfg, z.store, y.seen, z.seen);
    ShrinkInherits(y.store, z.store, y.lineages);
  }

  lemma CreateContinues(y: System, z: System, hash: Hash, record: Record, ttl: nat)
    requires z.store == Create(y.store, hash, record, ttl) && hash !in y.seen
    requires y.seen <= z.seen && Within(y.lineages, z.lineages)
    ensures Continues(y, z)
  {
  }

  lemma LoginInherits(cfg: Config, y: System, step: Step)
    requires Inherited(y.store, y.lineages) && step.Login? && Enabled(y, step)
    ensures Inherited(Apply(cfg, y, step).store, Apply(cfg, y, step).lineages)
    ensures Within(y.lineages, Apply(cfg, y, step).lineages)
  {
    if step.record.family != "" {
      OpenInherits(y.store, y.lineages, step.record);
    }
    CreateInherits(y.store, step.hash, step.record, cfg.refreshTtl, Apply(cfg, y, step).lineages);
  }

  lemma LoginKept(cfg: Config, y: System, step: Step)
    requires cfg.Valid() && Inv(cfg, y) && step.Login? && Enabled(y, step)
    ensures Kept(cfg, y, Apply(cfg, y, step))
  {
    MintIs(cfg, y, step);
    CreateSound(cfg, y.store, y.seen, step.hash, step.record);
    LoginInherits(cfg, y, step);
    CreateContinues(y, Apply(cfg, y, step), step.hash, step.record, cfg.refreshTtl);
  }

  lemma RecoverKept(cfg: Config, y: System, step: Step)
    requires cfg.Valid() && Inv(cfg, y) && step.RunRecover? && Enabled(y, step) && Mints(y, step)
    ensures Kept(cfg, y, Apply(cfg, y, step))
  {
    var record := y.pending[step.request].record;
    MintIs(cfg, y, step);
    assert PhaseOk(y, y.pending[step.request]);
    CreateSound(cfg, y.store, y.seen, step.drawn, record);
    CreateInherits(y.store, step.drawn, record, cfg.refreshTtl, y.lineages);
    CreateContinues(y, Apply(cfg, y, step), step.drawn, record, cfg.refreshTtl);
  }

  lemma RotateContinues(cfg: Config, y: System, z: System, token: Hash, drawn: Hash)
    requires token in y.store.rt && drawn !in y.seen
    requires z.store == RotateLive(y.store, cfg, token, drawn, y.store.rt[token].value)
    requires y.seen <= z.seen && y.lineages == z.lineages
    ensures Continues(y, z)
  {
  }

  lemma RotateKept(cfg: Config, y: System, step: Step)
    requires cfg.Valid() && Inv(cfg, y) && step.RunRotate? && Enabled(y, step) && Mints(y, step)
    ensures Kept(cfg, y, Apply(cfg, y, step))
  {
    var token := y.pending[step.request].token;
    MintIs(cfg, y, step);
    RotateSound(cfg, y.store, y.seen, token, step.drawn);
    RotateInherits(y.store, cfg, token, step.drawn, y.lineages);
    RotateContinues(cfg, y, Apply(cfg, y, step), token, step.drawn);
  }

  lemma StepKept(cfg: Config, y: System, step: Step)
    requires cfg.Valid() && Inv(cfg, y) && Enabled(y, step)
    ensures Kept(cfg, y, Apply(cfg, y, step))
  {
    if !Mints(y, step) {
      OtherIsTame(cfg, y, step);
      TameKept(cfg, y, Apply(cfg, y, step));
    } else if step.Login? {
      LoginKept(cfg, y, step);
    } else if step.RunRotate? {
      RotateKept(cfg, y, step);
    } else {
      RecoverKept(cfg, y, step);
    }
  }

  /** A request that did not move still remembers the truth. */
  lemma OldPhase(y: System, z: System, p: Phase)
    requires Continues(y, z) && PhaseOk(y, p)
    ensures PhaseOk(z, p)
  {
  }

  // What a step leaves alone.

  /** The clock, the epochs, and the markers unless a rotation wrote one. */
  ghost predicate Untouched(s: Store, t: Store, rotated: bool) {
    t.now == s.now && t.ep == s.ep && (!rotated ==> t.cf == s.cf)
  }

  lemma RefreshLeaves(cfg: Config, y: System, step: Step)
    requires Enabled(y, step) && (step.Login? || step.RunRotate? || step.RunRecover? || step.RunMove?)
    ensures Untouched(y.store, Stored(cfg, y, step), step.RunRotate?)
  {
  }

  lemma RevocationLeaves(cfg: Config, y: System, step: Step)
    requires Enabled(y, step)
    requires step.RunRevokeFamily? || step.SignOut? || step.SignOutEverywhere? || step.RevokeVictim?
    ensures Untouched(y.store, Stored(cfg, y, step), false)
  {
  }

  lemma PointerStepLeaves(cfg: Config, y: System, step: Step)
    requires Enabled(y, step) && (step.DropGrace? || step.DeletePointer? || step.RemovePointer? || step.PruneIndex?)
    ensures Untouched(y.store, Stored(cfg, y, step), false)
  {
  }

  lemma ReadLeaves(cfg: Config, y: System, step: Step)
    requires Enabled(y, step) && Reads(step) && !step.RunMove? && !step.Bump? && !step.Finish?
    ensures Stored(cfg, y, step) == y.store
  {
  }

  lemma StepLeaves(cfg: Config, y: System, step: Step)
    requires Enabled(y, step) && !step.Tick? && !step.Bump? && !step.Finish?
    ensures Untouched(y.store, Stored(cfg, y, step), step.RunRotate?)
  {
    if step.Login? || step.RunRotate? || step.RunRecover? || step.RunMove? {
      RefreshLeaves(cfg, y, step);
    } else if Reads(step) {
      ReadLeaves(cfg, y, step);
    } else if step.RunRevokeFamily? || step.SignOut? || step.SignOutEverywhere? || step.RevokeVictim? {
      RevocationLeaves(cfg, y, step);
    } else {
      PointerStepLeaves(cfg, y, step);
    }
  }

  // So does the request a step moved.

  lemma RefreshPhase(cfg: Config, y: System, step: Step, r: nat)
    requires Inherited(y.store, y.lineages) && Known(y.store, y.seen) && Enabled(y, step)
    requires r in y.pending ==> PhaseOk(y, y.pending[r])
    requires step.Present? || step.CheckLineage? || step.CheckRecovered?
    requires r in Apply(cfg, y, step).pending && r == step.request
    ensures PhaseOk(Apply(cfg, y, step), Apply(cfg, y, step).pending[r])
  {
  }

  lemma OwnerPhase(cfg: Config, y: System, step: Step, r: nat)
    requires Inherited(y.store, y.lineages) && LineagesOwned(y.store) && step.ReadOwner? && Enabled(y, step)
    requires r == step.request && PhaseOk(y, y.pending[r])
    ensures PhaseOk(Apply(cfg, y, step), Apply(cfg, y, step).pending[r])
  {
  }

  lemma RotatedPhase(cfg: Config, y: System, step: Step, r: nat)
    requires Inherited(y.store, y.lineages) && step.RunRotate? && Enabled(y, step)
    requires r in Apply(cfg, y, step).pending && r == step.request && PhaseOk(y, y.pending[r])
    ensures PhaseOk(Apply(cfg, y, step), Apply(cfg, y, step).pending[r])
  {
  }

  lemma SettledPhase(cfg: Config, y: System, step: Step, r: nat)
    requires Known(y.store, y.seen) && SessionsOwned(y.store) && (step.Settle? || step.ReadSuccessor?) && Enabled(y, step)
    requires r == step.request && r in Apply(cfg, y, step).pending && (r in y.pending ==> PhaseOk(y, y.pending[r]))
    ensures PhaseOk(Apply(cfg, y, step), Apply(cfg, y, step).pending[r])
  {
    if step.Settle? {
      forall h | h in Entries(y.store, step.account)
        ensures Enlisted(y, step.account, h)
      {
        assert Live(h) in Members(y.store.sess, step.account);
      }
    }
  }

  lemma ListedPointers(cfg: Config, y: System, step: Step)
    requires step.ListPointers? && Enabled(y, step) && PointersOwned(y.store) && Known(y.store, y.seen)
    ensures PhaseOk(Apply(cfg, y, step), Apply(cfg, y, step).pending[step.request])
  {
    var account := y.pending[step.request].account;
    forall h | h in Hashes(y.store, account, false)
      ensures Spent(y, h)
    {
      assert Grace(h) in Members(y.store.sess, account);
    }
  }

  lemma SweepingPhase(cfg: Config, y: System, step: Step)
    requires (step.DeletePointer? || step.RemovePointer?) && Enabled(y, step) && PhaseOk(y, y.pending[step.request])
    ensures PhaseOk(Apply(cfg, y, step), Apply(cfg, y, step).pending[step.request])
  {
  }

  /** Which request a step moves. */
  predicate Moves(step: Step, r: nat) {
    match step
    case Present(request, _) => r == request
    case RunRotate(request, _) => r == request
    case CheckLineage(request) => r == request
    case CheckRecovered(request) => r == request
    case RunRecover(request, _) => r == request
    case RunMove(request) => r == request
    case ReadEpoch(request) => r == request
    case ReadOwner(request, _) => r == request
    case RunRevokeFamily(request) => r == request
    case Settle(request, _, _) => r == request
    case ReadSuccessor(request) => r == request
    case Spare(request) => r == request
    case RevokeVictim(request, _) => r == request
    case ListPointers(request) => r == request
    case DeletePointer(request, _) => r == request
    case RemovePointer(request) => r == request
    case Finish(request) => r == request
    case _ => false
  }

  lemma OthersWait(cfg: Config, y: System, step: Step, r: nat)
    requires Enabled(y, step) && !Moves(step, r)
    ensures r in Pending(cfg, y, step) <==> r in y.pending
    ensures r in y.pending ==> Pending(cfg, y, step)[r] == y.pending[r]
  {
  }

  lemma NewPhase(cfg: Config, y: System, step: Step, r: nat)
    requires Inv(cfg, y) && Enabled(y, step) && Moves(step, r) && r in Apply(cfg, y, step).pending
    requires Continues(y, Apply(cfg, y, step))
    ensures PhaseOk(Apply(cfg, y, step), Apply(cfg, y, step).pending[r])
  {
    if r in y.pending {
      assert PhaseOk(y, y.pending[r]);
    }
    if step.Present? || step.CheckLineage? || step.CheckRecovered? {
      RefreshPhase(cfg, y, step, r);
    } else if step.ReadOwner? {
      OwnerPhase(cfg, y, step, r);
    } else if step.RunRotate? {
      RotatedPhase(cfg, y, step, r);
    } else if step.Settle? || step.ReadSuccessor? {
      SettledPhase(cfg, y, step, r);
    } else if step.ListPointers? {
      ListedPointers(cfg, y, step);
    } else if step.DeletePointer? || step.RemovePointer? {
      SweepingPhase(cfg, y, step);
    }
  }

  lemma StepKeeps(cfg: Config, y: System, step: Step)
    requires cfg.Valid() && Inv(cfg, y) && Enabled(y, step)
    ensures Inv(cfg, Apply(cfg, y, step)) && Continues(y, Apply(cfg, y, step))
  {
    StepKept(cfg, y, step);
    var z := Apply(cfg, y, step);
    forall r | r in z.pending
      ensures PhaseOk(z, z.pending[r])
    {
      if Moves(step, r) {
        NewPhase(cfg, y, step, r);
      } else {
        OthersWait(cfg, y, step, r);
        OldPhase(y, z, y.pending[r]);
      }
    }
  }

  lemma {:induction false} RunKeeps(cfg: Config, y: System, steps: seq<Step>)
    requires cfg.Valid() && Inv(cfg, y) && Runs(cfg, y, steps)
    ensures Inv(cfg, End(cfg, y, steps))
    decreases |steps|
  {
    if steps != [] {
      StepKeeps(cfg, y, steps[0]);
      RunKeeps(cfg, Apply(cfg, y, steps[0]), steps[1..]);
    }
  }

  lemma ContinuesOn(x: System, y: System, z: System)
    requires Continues(x, y) && Continues(y, z)
    ensures Continues(x, z)
  {
  }

  lemma {:induction false} RunContinues(cfg: Config, y: System, steps: seq<Step>)
    requires cfg.Valid() && Inv(cfg, y) && Runs(cfg, y, steps)
    ensures Continues(y, End(cfg, y, steps))
    decreases |steps|
  {
    if steps != [] {
      var z := Apply(cfg, y, steps[0]);
      StepKeeps(cfg, y, steps[0]);
      RunContinues(cfg, z, steps[1..]);
      ContinuesOn(y, z, End(cfg, z, steps[1..]));
    }
  }

  /** Every reachable state satisfies the invariant. */
  lemma Reachable(cfg: Config, steps: seq<Step>)
    requires cfg.Valid() && Runs(cfg, INITIAL, steps)
    ensures Inv(cfg, End(cfg, INITIAL, steps))
  {
    RunKeeps(cfg, INITIAL, steps);
  }
}
