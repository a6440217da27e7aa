/** What a revocation leaves in the indexes, and when an index names exactly what is live. */
module SessionIndexes {
  import opened Prelude
  import opened SessionStore
  import opened SessionSystem
  import opened SessionInvariant
  import opened SessionRevocation
  import opened SessionSparing
  import SessionCaller
  import SessionClock

  lemma RemovedFrom<K, V>(sets: map<K, Timed<set<V>>>, key: K, values: set<V>, other: K)
    ensures Members(RemoveAll(sets, key, values), other) ==
            if other == key then Members(sets, other) - values else Members(sets, other)
  {
  }

  lemma AddedTo<K, V>(sets: map<K, Timed<set<V>>>, key: K, values: set<V>, expiry: nat, other: K)
    ensures Members(AddAll(sets, key, values, expiry), other) ==
            if other == key then Members(sets, other) + values else Members(sets, other)
  {
  }

  // One session.

  /** Signing one session out takes exactly that session, its detail and its index entry, if it is the account's,
      and otherwise nothing at all. */
  lemma SignOutIsExact(cfg: Config, s: Store, seen: set<Hash>, account: Subject, hash: Hash)
    requires Sound(cfg, s, seen)
    ensures var t := RevokeSession(s, account, hash).0;
            && (forall h | h in s.rt :: h in t.rt <==> !(h == hash && s.rt[h].value.subject == account))
            && (forall h | h in s.rt :: h in t.sd <==> h in s.sd && !(h == hash && s.rt[h].value.subject == account))
            && Within(t.rt, s.rt) && Within(t.sd, s.sd)
            && (forall a :: Members(t.sess, a) == Members(s.sess, a) - if a == account then {Live(hash)} else {})
            && t == s.(rt := t.rt, sd := t.sd, sess := t.sess)
    ensures RevokeSession(s, account, hash).1 <==> Live(hash) in Members(s.sess, account)
    ensures hash in s.rt ==> (RevokeSession(s, account, hash).1 <==> s.rt[hash].value.subject == account)
  {
    SessionsNamed(s, account);
    forall a
      ensures Members(RevokeSession(s, account, hash).0.sess, a) ==
              Members(s.sess, a) - if a == account then {Live(hash)} else {}
    {
      RemovedFrom(s.sess, account, {Live(hash)}, a);
    }
  }

  // One lineage.

  /** Revoking a lineage whose owner is known takes its members, and no other entry, off the owner's index, and
      their details with them. */
  lemma LineageLeavesTheIndex(s: Store, family: Family, owner: Subject)
    ensures var t, gone := RevokeFamily(s, family, Some(owner)), Members(s.fam, family);
            && (forall a, h :: Live(h) in Members(t.sess, a) <==> Live(h) in Members(s.sess, a) && !(a == owner && h in gone))
            && (forall a, h :: Grace(h) in Members(t.sess, a) <==> Grace(h) in Members(s.sess, a))
            && (forall h :: h in t.sd <==> h in s.sd && h !in gone)
            && family !in t.fam
  {
    var gone := set h | h in Members(s.fam, family) :: Live(h);
    forall a
      ensures Members(RevokeFamily(s, family, Some(owner)).sess, a) == Members(s.sess, a) - if a == owner then gone else {}
    {
      RemovedFrom(s.sess, owner, gone, a);
    }
  }

  /** When a reuse is answered and a live member of the lineage was found, the lineage's sessions are gone, and so are
      their entries in the index of the account that member belongs to, and no other entry. */
  lemma ReuseLeavesTheIndex(cfg: Config, y: System, request: nat, member: Hash)
    requires Inv(cfg, y) && request in y.pending && y.pending[request].ReuseSeen?
    requires Enabled(y, ReadOwner(request, Some(member)))
    ensures var family, steps := y.pending[request].family, [ReadOwner(request, Some(member)), RunRevokeFamily(request)];
            && Runs(cfg, y, steps)
            && var z, owner := End(cfg, y, steps).store, y.store.rt[member].value.subject;
               && !LiveIn(z, family)
               && (forall a, h :: Live(h) in Members(z.sess, a) <==>
                     Live(h) in Members(y.store.sess, a) && !(a == owner && h in Members(y.store.fam, family)))
  {
    var family := y.pending[request].family;
    OwnedRevocation(cfg, y, request, member);
    LineageLeavesTheIndex(y.store, family, y.store.rt[member].value.subject);
    RevokeFamilyIsExact(cfg, y.store, y.seen, family, Some(y.store.rt[member].value.subject));
  }

  lemma OwnedRevocation(cfg: Config, y: System, request: nat, member: Hash)
    requires PhasesOk(y) && request in y.pending && y.pending[request].ReuseSeen?
    requires Enabled(y, ReadOwner(request, Some(member)))
    ensures var family, steps := y.pending[request].family, [ReadOwner(request, Some(member)), RunRevokeFamily(request)];
            && family != "" && Runs(cfg, y, steps)
            && End(cfg, y, steps).store == RevokeFamily(y.store, family, Some(y.store.rt[member].value.subject))
  {
    assert PhaseOk(y, y.pending[request]);
    TwoSteps(cfg, y, ReadOwner(request, Some(member)), RunRevokeFamily(request));
  }

  // Whole runs.

  /** No index names a session that is not live. */
  ghost predicate NoneStale(s: Store) {
    forall a, h | Live(h) in Members(s.sess, a) :: h in s.rt
  }

  /** Time passes, and takes a session with it. */
  predicate Expires(y: System, step: Step) {
    step.Tick? && exists h | h in y.store.rt :: y.store.rt[h].expiry <= y.store.now + step.seconds
  }

  /** The step takes no session without its index entry: none expires, and the owner of a revoked lineage is known. */
  ghost predicate Tidy(y: System, step: Step)
    requires Enabled(y, step)
  {
    !Expires(y, step) && (step.RunRevokeFamily? ==> y.pending[step.request].owner.Some?)
  }

  ghost predicate AllTidy(cfg: Config, y: System, steps: seq<Step>)
    requires Runs(cfg, y, steps)
    decreases |steps|
  {
    steps != [] ==> Tidy(y, steps[0]) && AllTidy(cfg, Apply(cfg, y, steps[0]), steps[1..])
  }

  lemma CreateIsTidy(s: Store, hash: Hash, record: Record, ttl: nat)
    requires NoneStale(s)
    ensures NoneStale(Create(s, hash, record, ttl))
  {
    var t := Create(s, hash, record, ttl);
    forall a, h | Live(h) in Members(t.sess, a)
      ensures h in t.rt
    {
      AddedTo(s.sess, record.subject, {Live(hash)}, s.now + ttl, a);
    }
  }

  lemma RotateIsTidy(s: Store, cfg: Config, token: Hash, drawn: Hash)
    requires NoneStale(s) && SessionsOwned(s) && token in s.rt && drawn !in s.rt
    ensures NoneStale(RotateLive(s, cfg, token, drawn, s.rt[token].value))
  {
    var account := s.rt[token].value.subject;
    var t := RotateLive(s, cfg, token, drawn, s.rt[token].value);
    forall a, h | Live(h) in Members(t.sess, a)
      ensures h in t.rt
    {
      RemovedFrom(s.sess, account, {Live(token)}, a);
      AddedTo(RemoveAll(s.sess, account, {Live(token)}), account,
              {Live(drawn)} + (if cfg.graceTtl > 0 then {Grace(token)} else {}), s.now + cfg.refreshTtl, a);
      OwnedBy(s, a, h, token);
    }
  }

  /** Only one account's index names a live session. */
  lemma OwnedBy(s: Store, a: Subject, h: Hash, token: Hash)
    requires SessionsOwned(s) && token in s.rt
    ensures h == token && Live(h) in Members(s.sess, a) ==> a == s.rt[token].value.subject
  {
  }

  lemma SignOutIsTidy(s: Store, account: Subject, hash: Hash)
    requires NoneStale(s) && SessionsOwned(s)
    ensures NoneStale(RevokeSession(s, account, hash).0)
  {
    var t := RevokeSession(s, account, hash).0;
    forall a, h | Live(h) in Members(t.sess, a)
      ensures h in t.rt
    {
      RemovedFrom(s.sess, account, {Live(hash)}, a);
      if Live(hash) in Members(s.sess, account) {
        OwnedBy(s, a, h, hash);
        OwnedBy(s, account, hash, hash);
      }
    }
  }

  lemma SweepIsTidy(s: Store, account: Subject)
    requires NoneStale(s) && SessionsOwned(s)
    ensures NoneStale(RevokeAll(s, account))
  {
    var t := RevokeAll(s, account);
    forall a, h | Live(h) in Members(t.sess, a)
      ensures h in t.rt
    {
      assert a != account && Live(h) in Members(s.sess, a);
      OwnedBy(s, a, h, h);
      if Live(h) in Members(s.sess, account) {
        OwnedBy(s, account, h, h);
      }
    }
  }

  lemma LineageIsTidy(s: Store, lineages: map<Family, Record>, family: Family, owner: Subject)
    requires NoneStale(s) && SessionsOwned(s) && LineagesOwned(s) && Inherited(s, lineages)
    requires Opened(lineages, family) && owner == lineages[family].subject
    ensures NoneStale(RevokeFamily(s, family, Some(owner)))
  {
    var t := RevokeFamily(s, family, Some(owner));
    LineageLeavesTheIndex(s, family, owner);
    forall a, h | Live(h) in Members(t.sess, a)
      ensures h in t.rt
    {
      assert h in s.rt;
      if h in Members(s.fam, family) {
        assert Descends(lineages, s.rt[h].value);
        OwnedBy(s, a, h, h);
      }
    }
  }

  lemma TickIsTidy(cfg: Config, y: System, step: Step)
    requires step.Tick? && !Expires(y, step) && NoneStale(y.store)
    ensures NoneStale(Apply(cfg, y, step).store)
  {
    var t := Apply(cfg, y, step).store;
    forall a, h | Live(h) in Members(t.sess, a)
      ensures h in t.rt
    {
      assert Live(h) in Members(y.store.sess, a);
    }
  }

  /** A step that only shortens the indexes. */
  lemma ShorterIsTidy(s: Store, t: Store)
    requires NoneStale(s) && t.rt == s.rt && SetsWithin(t.sess, s.sess)
    ensures NoneStale(t)
  {
    forall a, h | Live(h) in Members(t.sess, a)
      ensures h in t.rt
    {
      assert Live(h) in Members(s.sess, a);
    }
  }

  lemma SessionsStand(cfg: Config, y: System, step: Step)
    requires Enabled(y, step) && !Mints(y, step) && !step.Tick?
    requires !step.SignOut? && !step.RevokeVictim? && !step.SignOutEverywhere? && !step.RunRevokeFamily?
    ensures Apply(cfg, y, step).store.rt == y.store.rt
  {
    if Reads(step) {
      SessionCaller.ReadKeepsSessions(cfg, y, step);
    } else if step.RunRotate? {
      var p := y.pending[step.request];
      SessionClock.RefusedLeaves(y.store, cfg, p.token, step.drawn, SeedRecord(p.seed));
    } else if !step.RunRecover? {
      SessionCaller.PointerStepKeepsSessions(cfg, y, step);
    }
  }

  lemma MintIsTidy(cfg: Config, y: System, step: Step)
    requires Inv(cfg, y) && Enabled(y, step) && Mints(y, step) && NoneStale(y.store)
    ensures NoneStale(Apply(cfg, y, step).store)
  {
    MintIs(cfg, y, step);
    if step.RunRotate? {
      RotateIsTidy(y.store, cfg, y.pending[step.request].token, step.drawn);
    } else {
      CreateIsTidy(y.store, if step.Login? then step.hash else step.drawn, Minted(y, step), cfg.refreshTtl);
    }
  }

  lemma RevocationIsTidy(cfg: Config, y: System, step: Step)
    requires Inv(cfg, y) && Enabled(y, step) && Tidy(y, step) && NoneStale(y.store)
    requires step.SignOut? || step.RevokeVictim? || step.SignOutEverywhere? || step.RunRevokeFamily?
    ensures NoneStale(Apply(cfg, y, step).store)
  {
    if step.SignOut? {
      SignOutIsTidy(y.store, step.subject, step.hash);
    } else if step.RevokeVictim? {
      SignOutIsTidy(y.store, y.pending[step.request].account, step.hash);
    } else if step.SignOutEverywhere? {
      SweepIsTidy(y.store, step.account);
    } else {
      var p := y.pending[step.request];
      assert PhaseOk(y, p);
      LineageIsTidy(y.store, y.lineages, p.family, p.owner.value);
    }
  }

  lemma StepIsTidy(cfg: Config, y: System, step: Step)
    requires Inv(cfg, y) && Enabled(y, step) && Tidy(y, step) && NoneStale(y.store)
    ensures NoneStale(Apply(cfg, y, step).store)
  {
    if Mints(y, step) {
      MintIsTidy(cfg, y, step);
    } else if step.SignOut? || step.RevokeVictim? || step.SignOutEverywhere? || step.RunRevokeFamily? {
      RevocationIsTidy(cfg, y, step);
    } else if step.Tick? {
      TickIsTidy(cfg, y, step);
    } else {
      SessionsStand(cfg, y, step);
      OtherIsTame(cfg, y, step);
      ShorterIsTidy(y.store, Apply(cfg, y, step).store);
    }
  }

  lemma {:induction false} RunIsTidy(cfg: Config, y: System, steps: seq<Step>)
    requires cfg.Valid() && Inv(cfg, y) && Runs(cfg, y, steps) && AllTidy(cfg, y, steps) && NoneStale(y.store)
    ensures NoneStale(End(cfg, y, steps).store)
    decreases |steps|
  {
    if steps != [] {
      StepKeeps(cfg, y, steps[0]);
      StepIsTidy(cfg, y, steps[0]);
      RunIsTidy(cfg, Apply(cfg, y, steps[0]), steps[1..]);
    }
  }

  /** As long as no session expires and every revoked lineage has a known owner, an account's index names a session
      exactly when it is live and the account's, whatever is rotated, recovered or revoked. */
  lemma IndexNamesTheLive(cfg: Config, steps: seq<Step>, account: Subject, h: Hash)
    requires cfg.Valid() && Runs(cfg, INITIAL, steps) && AllTidy(cfg, INITIAL, steps)
    ensures var z := End(cfg, INITIAL, steps).store;
            Live(h) in Members(z.sess, account) <==> LiveOf(z, account, h)
  {
    var z := End(cfg, INITIAL, steps).store;
    Reachable(cfg, steps);
    Reachable(cfg, []);
    RunIsTidy(cfg, INITIAL, steps);
    SessionsNamed(z, account);
  }

  /** No lineage index names a session that is not live. */
  ghost predicate NoneStaleIn(s: Store) {
    forall f, h | h in Members(s.fam, f) :: h in s.rt
  }

  /** Of the steps that take sessions, none but the revocation of a lineage. */
  predicate LineageTidy(y: System, step: Step) {
    !Expires(y, step) && !step.SignOut? && !step.RevokeVictim? && !step.SignOutEverywhere?
  }

  ghost predicate AllLineageTidy(cfg: Config, y: System, steps: seq<Step>)
    requires Runs(cfg, y, steps)
    decreases |steps|
  {
    steps != [] ==> LineageTidy(y, steps[0]) && AllLineageTidy(cfg, Apply(cfg, y, steps[0]), steps[1..])
  }

  lemma CreateIsTidyIn(s: Store, hash: Hash, record: Record, ttl: nat)
    requires NoneStaleIn(s)
    ensures NoneStaleIn(Create(s, hash, record, ttl))
  {
    var t := Create(s, hash, record, ttl);
    forall f, h | h in Members(t.fam, f)
      ensures h in t.rt
    {
      AddedTo(s.fam, record.family, {hash}, s.now + ttl, f);
    }
  }

  lemma RotateIsTidyIn(s: Store, cfg: Config, token: Hash, drawn: Hash)
    requires NoneStaleIn(s) && LineagesOwned(s) && token in s.rt && drawn !in s.rt
    requires forall f | f in s.fam :: f != ""
    ensures NoneStaleIn(RotateLive(s, cfg, token, drawn, s.rt[token].value))
  {
    var family := s.rt[token].value.family;
    var t := RotateLive(s, cfg, token, drawn, s.rt[token].value);
    forall f, h | h in Members(t.fam, f)
      ensures h in t.rt
    {
      RemovedFrom(s.fam, family, {token}, f);
      AddedTo(RemoveAll(s.fam, family, {token}), family, {drawn}, s.now + cfg.refreshTtl, f);
    }
  }

  lemma RevokeIsTidyIn(s: Store, family: Family, owner: Option<Subject>)
    requires NoneStaleIn(s) && LineagesOwned(s)
    ensures NoneStaleIn(RevokeFamily(s, family, owner))
  {
    var t := RevokeFamily(s, family, owner);
    forall f, h | h in Members(t.fam, f)
      ensures h in t.rt
    {
      assert f != family && h in Members(s.fam, f) && h in s.rt;
    }
  }

  lemma ShorterIsTidyIn(s: Store, t: Store)
    requires NoneStaleIn(s) && t.rt == s.rt && SetsWithin(t.fam, s.fam)
    ensures NoneStaleIn(t)
  {
    forall f, h | h in Members(t.fam, f)
      ensures h in t.rt
    {
      assert h in Members(s.fam, f);
    }
  }

  lemma TickLeavesSessions(cfg: Config, y: System, step: Step)
    requires step.Tick? && !Expires(y, step)
    ensures Apply(cfg, y, step).store.rt == y.store.rt
  {
  }

  lemma MintIsTidyIn(cfg: Config, y: System, step: Step)
    requires Inv(cfg, y) && Enabled(y, step) && Mints(y, step) && NoneStaleIn(y.store)
    ensures NoneStaleIn(Apply(cfg, y, step).store)
  {
    MintIs(cfg, y, step);
    if step.RunRotate? {
      RotateIsTidyIn(y.store, cfg, y.pending[step.request].token, step.drawn);
    } else {
      CreateIsTidyIn(y.store, if step.Login? then step.hash else step.drawn, Minted(y, step), cfg.refreshTtl);
    }
  }

  lemma StepIsTidyIn(cfg: Config, y: System, step: Step)
    requires Inv(cfg, y) && Enabled(y, step) && LineageTidy(y, step) && NoneStaleIn(y.store)
    ensures NoneStaleIn(Apply(cfg, y, step).store)
  {
    if Mints(y, step) {
      MintIsTidyIn(cfg, y, step);
    } else if step.RunRevokeFamily? {
      RevokeIsTidyIn(y.store, y.pending[step.request].family, y.pending[step.request].owner);
    } else {
      if step.Tick? {
        TickLeavesSessions(cfg, y, step);
      } else {
        SessionsStand(cfg, y, step);
      }
      OtherIsTame(cfg, y, step);
      ShorterIsTidyIn(y.store, Apply(cfg, y, step).store);
    }
  }

  lemma {:induction false} RunIsTidyIn(cfg: Config, y: System, steps: seq<Step>)
    requires cfg.Valid() && Inv(cfg, y) && Runs(cfg, y, steps) && AllLineageTidy(cfg, y, steps) && NoneStaleIn(y.store)
    ensures NoneStaleIn(End(cfg, y, steps).store)
    decreases |steps|
  {
    if steps != [] {
      StepKeeps(cfg, y, steps[0]);
      StepIsTidyIn(cfg, y, steps[0]);
      RunIsTidyIn(cfg, Apply(cfg, y, steps[0]), steps[1..]);
    }
  }

  /** As long as sessions are taken only with their lineages, a lineage's index names a session exactly when it is
      live and the lineage's: what a reuse revokes, and counts, is the live sessions of the lineage. */
  lemma LineageNamesTheLive(cfg: Config, steps: seq<Step>, family: Family, h: Hash)
    requires cfg.Valid() && Runs(cfg, INITIAL, steps) && AllLineageTidy(cfg, INITIAL, steps) && family != ""
    ensures var z := End(cfg, INITIAL, steps).store;
            h in Members(z.fam, family) <==> h in z.rt && z.rt[h].value.family == family
  {
    var z := End(cfg, INITIAL, steps).store;
    Reachable(cfg, steps);
    Reachable(cfg, []);
    RunIsTidyIn(cfg, INITIAL, steps);
    if h in z.rt && z.rt[h].value.family == family {
      assert IndexedUnder(z.fam, family, h, z.rt[h].expiry);
    }
  }
}
