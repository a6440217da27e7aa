/** How long what the store holds lives, told by the clock, over every interleaving. */
module SessionClock {
  import opened Prelude
  import opened SessionStore
  import opened SessionSystem
  import opened SessionInvariant
  import opened SessionRevocation
  import opened SessionCaller

  lemma ClockStands(cfg: Config, y: System, step: Step)
    requires Enabled(y, step) && !step.Tick?
    ensures Stored(cfg, y, step).now == y.store.now
  {
    if !step.Bump? && !step.Finish? {
      StepLeaves(cfg, y, step);
    }
  }

  // A session.

  /** The step rotates the session, or revokes it: by its hash, with its account or with its lineage. */
  ghost predicate Takes(y: System, step: Step, h: Hash, record: Record)
    requires Enabled(y, step)
  {
    match step
    case RunRotate(request, _) => y.pending[request].token == h
    case SignOut(_, hash) => hash == h
    case RevokeVictim(_, hash) => hash == h
    case SignOutEverywhere(account) => account == record.subject
    case RunRevokeFamily(request) => y.pending[request].family == record.family
    case _ => false
  }

  /** No step of the run does. */
  ghost predicate Untaken(cfg: Config, y: System, steps: seq<Step>, h: Hash, record: Record)
    requires Runs(cfg, y, steps)
    decreases |steps|
  {
    steps != [] ==> !Takes(y, steps[0], h, record) && Untaken(cfg, Apply(cfg, y, steps[0]), steps[1..], h, record)
  }

  /** The session is live with this record until the instant `expiry`, and gone from then on. */
  ghost predicate LivesUntil(y: System, h: Hash, record: Record, expiry: nat) {
    && h in y.seen
    && if y.store.now < expiry then h in y.store.rt && y.store.rt[h] == Timed(record, expiry) else h !in y.store.rt
  }

  lemma SweepKeepsOthers(cfg: Config, y: System, step: Step, h: Hash)
    requires Inv(cfg, y) && Enabled(y, step) && (step.SignOutEverywhere? || step.RunRevokeFamily?)
    requires h in y.store.rt && !Takes(y, step, h, y.store.rt[h].value)
    ensures Same(y.store, Stored(cfg, y, step), h)
  {
    if step.SignOutEverywhere? {
      RevokeAllIsExact(cfg, y.store, y.seen, step.account);
    } else {
      var p := y.pending[step.request];
      if p.family != "" {
        RevokeFamilyIsExact(cfg, y.store, y.seen, p.family, p.owner);
      }
    }
  }

  lemma SignOutKeepsOthers(s: Store, account: Subject, hash: Hash, h: Hash)
    requires h in s.rt && h != hash
    ensures Same(s, RevokeSession(s, account, hash).0, h)
  {
  }

  /** A step that does not take it leaves a session as it is, the clock apart. */
  lemma UntakenIsSame(cfg: Config, y: System, step: Step, h: Hash)
    requires Inv(cfg, y) && Enabled(y, step) && !step.Tick?
    requires h in y.store.rt && !Takes(y, step, h, y.store.rt[h].value)
    ensures Same(y.store, Stored(cfg, y, step), h)
  {
    if step.SignOutEverywhere? || step.RunRevokeFamily? {
      SweepKeepsOthers(cfg, y, step, h);
    } else if Reads(step) {
      ReadKeepsSessions(cfg, y, step);
    } else {
      NarrowKeepsOthers(cfg, y, step, h);
    }
  }

  lemma NarrowKeepsOthers(cfg: Config, y: System, step: Step, h: Hash)
    requires Known(y.store, y.seen) && Enabled(y, step) && !step.Tick? && !Reads(step)
    requires !step.SignOutEverywhere? && !step.RunRevokeFamily?
    requires h in y.store.rt && !Takes(y, step, h, y.store.rt[h].value)
    ensures Same(y.store, Stored(cfg, y, step), h)
  {
    if step.SignOut? {
      SignOutKeepsOthers(y.store, step.subject, step.hash, h);
    } else {
      GentleKeeps(cfg, y, step, if step.RevokeVictim? then step.request else 0, h);
    }
  }

  lemma TickKeeps(cfg: Config, y: System, step: Step, h: Hash, record: Record, expiry: nat)
    requires step.Tick? && LivesUntil(y, h, record, expiry)
    ensures LivesUntil(Apply(cfg, y, step), h, record, expiry)
  {
  }

  lemma StepLives(cfg: Config, y: System, step: Step, h: Hash, record: Record, expiry: nat)
    requires cfg.Valid() && Inv(cfg, y) && Enabled(y, step) && LivesUntil(y, h, record, expiry) && !Takes(y, step, h, record)
    ensures LivesUntil(Apply(cfg, y, step), h, record, expiry)
  {
    if step.Tick? {
      TickKeeps(cfg, y, step, h, record, expiry);
    } else {
      ClockStands(cfg, y, step);
      StepKeeps(cfg, y, step);
      if y.store.now < expiry {
        UntakenIsSame(cfg, y, step, h);
      }
    }
  }

  lemma {:induction false} RunLives(cfg: Config, y: System, steps: seq<Step>, h: Hash, record: Record, expiry: nat)
    requires cfg.Valid() && Inv(cfg, y) && Runs(cfg, y, steps)
    requires LivesUntil(y, h, record, expiry) && Untaken(cfg, y, steps, h, record)
    ensures LivesUntil(End(cfg, y, steps), h, record, expiry)
    decreases |steps|
  {
    if steps != [] {
      StepKeeps(cfg, y, steps[0]);
      StepLives(cfg, y, steps[0], h, record, expiry);
      RunLives(cfg, Apply(cfg, y, steps[0]), steps[1..], h, record, expiry);
    }
  }

  lemma MintLives(cfg: Config, y: System, step: Step, h: Hash)
    requires cfg.Valid() && Inv(cfg, y) && Enabled(y, step) && Mints(y, step) && h in Shown(step)
    ensures LivesUntil(Apply(cfg, y, step), h, Minted(y, step), y.store.now + cfg.refreshTtl)
  {
    MintIs(cfg, y, step);
  }

  /** A session that a sign-in, a rotation or a recovery stores is live, with its record, for exactly the refresh
      lifetime, in every run that neither rotates nor revokes it. */
  lemma LivesItsLifetime(cfg: Config, y: System, step: Step, h: Hash, steps: seq<Step>)
    requires cfg.Valid() && Inv(cfg, y) && Enabled(y, step) && Mints(y, step) && h in Shown(step)
    requires Runs(cfg, Apply(cfg, y, step), steps) && Untaken(cfg, Apply(cfg, y, step), steps, h, Minted(y, step))
    ensures var z := End(cfg, Apply(cfg, y, step), steps).store;
            && (h in z.rt <==> z.now < y.store.now + cfg.refreshTtl)
            && (h in z.rt ==> z.rt[h].value == Minted(y, step))
  {
    StepKeeps(cfg, y, step);
    MintLives(cfg, y, step, h);
    RunLives(cfg, Apply(cfg, y, step), steps, h, Minted(y, step), y.store.now + cfg.refreshTtl);
  }

  // A grace pointer.

  /** The step spends the pointer of `token`, or deletes it: by its hash or with its account. */
  ghost predicate Spends(y: System, step: Step, token: Hash, account: Subject)
    requires Enabled(y, step)
  {
    match step
    case RunRotate(request, _) => y.pending[request].token == token
    case DropGrace(hash) => hash == token
    case DeletePointer(_, hash) => hash == token
    case SignOutEverywhere(subject) => subject == account
    case _ => false
  }

  ghost predicate Unspent(cfg: Config, y: System, steps: seq<Step>, token: Hash, account: Subject)
    requires Runs(cfg, y, steps)
    decreases |steps|
  {
    steps != [] ==> !Spends(y, steps[0], token, account) && Unspent(cfg, Apply(cfg, y, steps[0]), steps[1..], token, account)
  }

  ghost predicate PointsUntil(y: System, token: Hash, pointer: Pointer, expiry: nat) {
    && Spent(y, token)
    && if y.store.now < expiry then token in y.store.rp && y.store.rp[token] == Timed(pointer, expiry)
       else token !in y.store.rp
  }

  ghost predicate SamePointer(s: Store, t: Store, token: Hash) {
    token in s.rp && token in t.rp && t.rp[token] == s.rp[token]
  }

  lemma RotateKeepsPointer(s: Store, cfg: Config, token: Hash, drawn: Hash, record: Record, other: Hash)
    requires other in s.rp && other != token
    ensures SamePointer(s, Rotate(s, cfg, token, drawn, record).0, other)
  {
  }

  lemma SweepKeepsPointer(cfg: Config, s: Store, seen: set<Hash>, account: Subject, token: Hash)
    requires Sound(cfg, s, seen) && token in s.rp && s.rp[token].value.record.subject != account
    ensures SamePointer(s, RevokeAll(s, account), token)
  {
    RevokeAllIsExact(cfg, s, seen, account);
  }

  lemma RestKeepsPointer(cfg: Config, y: System, step: Step, token: Hash)
    requires Enabled(y, step) && !step.Tick? && !step.RunRotate? && !step.SignOutEverywhere?
    requires token in y.store.rp && !Spends(y, step, token, y.store.rp[token].value.record.subject)
    ensures SamePointer(y.store, Stored(cfg, y, step), token)
  {
    if Reads(step) {
      ReadKeepsPointers(cfg, y, step);
    } else if step.Login? || step.RunRecover? {
      CreateKeepsPointers(cfg, y, step);
    } else if step.DropGrace? || step.DeletePointer? {
    } else {
      RevocationKeepsPointers(cfg, y, step);
    }
  }

  lemma ReadKeepsPointers(cfg: Config, y: System, step: Step)
    requires Enabled(y, step) && Reads(step)
    ensures Stored(cfg, y, step).rp == y.store.rp
  {
  }

  lemma CreateKeepsPointers(cfg: Config, y: System, step: Step)
    requires Enabled(y, step) && (step.Login? || step.RunRecover?)
    ensures Stored(cfg, y, step).rp == y.store.rp
  {
  }

  lemma RevocationKeepsPointers(cfg: Config, y: System, step: Step)
    requires Enabled(y, step)
    requires step.RunRevokeFamily? || step.SignOut? || step.RevokeVictim? || step.RemovePointer? || step.PruneIndex?
    ensures Stored(cfg, y, step).rp == y.store.rp
  {
  }

  lemma UnspentIsSame(cfg: Config, y: System, step: Step, token: Hash)
    requires Inv(cfg, y) && Enabled(y, step) && !step.Tick?
    requires token in y.store.rp && !Spends(y, step, token, y.store.rp[token].value.record.subject)
    ensures SamePointer(y.store, Stored(cfg, y, step), token)
  {
    if step.RunRotate? {
      var p := y.pending[step.request];
      RotateKeepsPointer(y.store, cfg, p.token, step.drawn, SeedRecord(p.seed), token);
    } else if step.SignOutEverywhere? {
      SweepKeepsPointer(cfg, y.store, y.seen, step.account, token);
    } else {
      RestKeepsPointer(cfg, y, step, token);
    }
  }

  lemma TickKeepsPointer(cfg: Config, y: System, step: Step, token: Hash, pointer: Pointer, expiry: nat)
    requires step.Tick? && PointsUntil(y, token, pointer, expiry)
    ensures PointsUntil(Apply(cfg, y, step), token, pointer, expiry)
  {
  }

  lemma StepPoints(cfg: Config, y: System, step: Step, token: Hash, pointer: Pointer, expiry: nat)
    requires cfg.Valid() && Inv(cfg, y) && Enabled(y, step) && PointsUntil(y, token, pointer, expiry)
    requires !Spends(y, step, token, pointer.record.subject)
    ensures PointsUntil(Apply(cfg, y, step), token, pointer, expiry)
  {
    if step.Tick? {
      TickKeepsPointer(cfg, y, step, token, pointer, expiry);
    } else {
      ClockStands(cfg, y, step);
      StepKeeps(cfg, y, step);
      if y.store.now < expiry {
        UnspentIsSame(cfg, y, step, token);
      }
    }
  }

  lemma {:induction false} RunPoints(cfg: Config, y: System, steps: seq<Step>, token: Hash, pointer: Pointer, expiry: nat)
    requires cfg.Valid() && Inv(cfg, y) && Runs(cfg, y, steps)
    requires PointsUntil(y, token, pointer, expiry) && Unspent(cfg, y, steps, token, pointer.record.subject)
    ensures PointsUntil(End(cfg, y, steps), token, pointer, expiry)
    decreases |steps|
  {
    if steps != [] {
      StepKeeps(cfg, y, steps[0]);
      StepPoints(cfg, y, steps[0], token, pointer, expiry);
      RunPoints(cfg, Apply(cfg, y, steps[0]), steps[1..], token, pointer, expiry);
    }
  }

  lemma RotationPoints(cfg: Config, y: System, step: Step)
    requires cfg.Valid() && Inv(cfg, y) && step.RunRotate? && Enabled(y, step) && Mints(y, step)
    ensures PointsUntil(Apply(cfg, y, step), y.pending[step.request].token, Pointer(step.drawn, Minted(y, step)),
                        y.store.now + cfg.graceTtl)
  {
    MintIs(cfg, y, step);
  }

  /** A rotated token is answered with its successor and its identity for exactly the grace window, in every run
      that neither presents it nor deletes its pointer. */
  lemma GraceLastsItsWindow(cfg: Config, y: System, step: Step, steps: seq<Step>)
    requires cfg.Valid() && Inv(cfg, y) && step.RunRotate? && Enabled(y, step) && Mints(y, step)
    requires Runs(cfg, Apply(cfg, y, step), steps)
    requires Unspent(cfg, Apply(cfg, y, step), steps, y.pending[step.request].token, Minted(y, step).subject)
    ensures var token := y.pending[step.request].token;
            var z := End(cfg, Apply(cfg, y, step), steps).store;
            && (token in z.rp <==> z.now < y.store.now + cfg.graceTtl)
            && (token in z.rp ==> z.rp[token].value == Pointer(step.drawn, Minted(y, step)))
  {
    StepKeeps(cfg, y, step);
    RotationPoints(cfg, y, step);
    RunPoints(cfg, Apply(cfg, y, step), steps, y.pending[step.request].token, Pointer(step.drawn, Minted(y, step)),
              y.store.now + cfg.graceTtl);
  }

  // The detail of a session.

  /** The step writes or drops the detail under this hash as part of a rotation. */
  ghost predicate MovesDetail(y: System, step: Step, h: Hash)
    requires Enabled(y, step)
  {
    step.RunMove? && (y.pending[step.request].token == h || y.pending[step.request].drawn == h)
  }

  ghost predicate Unmoved(cfg: Config, y: System, steps: seq<Step>, h: Hash)
    requires Runs(cfg, y, steps)
    decreases |steps|
  {
    steps != [] ==> !MovesDetail(y, steps[0], h) && Unmoved(cfg, Apply(cfg, y, steps[0]), steps[1..], h)
  }

  ghost predicate DetailUntil(y: System, h: Hash, record: Record, expiry: nat) {
    if y.store.now < expiry then h in y.store.sd && y.store.sd[h] == Timed(record, expiry) else h !in y.store.sd
  }

  /** What a step that leaves the session in place does to its detail. */
  lemma DetailStays(cfg: Config, y: System, step: Step, h: Hash)
    requires Enabled(y, step) && !step.Tick? && h in y.seen && !MovesDetail(y, step, h)
    requires !step.SignOutEverywhere? && !step.RunRevokeFamily?
    requires (step.SignOut? || step.RevokeVictim?) ==> step.hash != h
    ensures SameDetail(y.store, Stored(cfg, y, step), h)
  {
    if step.RunRotate? {
      var p := y.pending[step.request];
      RotateLeavesDetails(y.store, cfg, p.token, step.drawn, SeedRecord(p.seed));
    } else if Reads(step) && !step.RunMove? {
      ReadLeavesDetails(cfg, y, step);
    } else {
      RestLeavesDetail(cfg, y, step, h);
    }
  }

  ghost predicate SameDetail(s: Store, t: Store, h: Hash) {
    (h in t.sd <==> h in s.sd) && (h in s.sd ==> t.sd[h] == s.sd[h])
  }

  lemma RotateLeavesDetails(s: Store, cfg: Config, token: Hash, drawn: Hash, record: Record)
    ensures Rotate(s, cfg, token, drawn, record).0.sd == s.sd
  {
  }

  lemma ReadLeavesDetails(cfg: Config, y: System, step: Step)
    requires Enabled(y, step) && Reads(step) && !step.RunMove?
    ensures Stored(cfg, y, step).sd == y.store.sd
  {
    if !step.Bump? && !step.Finish? {
      ReadLeaves(cfg, y, step);
    }
  }

  lemma RestLeavesDetail(cfg: Config, y: System, step: Step, h: Hash)
    requires Enabled(y, step) && !step.Tick? && !step.RunRotate? && h in y.seen && !MovesDetail(y, step, h)
    requires !step.SignOutEverywhere? && !step.RunRevokeFamily? && (Reads(step) ==> step.RunMove?)
    requires (step.SignOut? || step.RevokeVictim?) ==> step.hash != h
    ensures SameDetail(y.store, Stored(cfg, y, step), h)
  {
  }

  lemma SweepKeepsDetail(cfg: Config, y: System, step: Step, h: Hash)
    requires Inv(cfg, y) && Enabled(y, step) && (step.SignOutEverywhere? || step.RunRevokeFamily?)
    requires h in y.store.rt && !Takes(y, step, h, y.store.rt[h].value) && h in y.store.sd
    ensures h in Stored(cfg, y, step).sd && Stored(cfg, y, step).sd[h] == y.store.sd[h]
  {
    if step.SignOutEverywhere? {
      RevokeAllIsExact(cfg, y.store, y.seen, step.account);
    } else {
      SweepKeepsOthers(cfg, y, step, h);
    }
  }

  lemma SweepAddsNoDetail(cfg: Config, y: System, step: Step, h: Hash)
    requires Enabled(y, step) && (step.SignOutEverywhere? || step.RunRevokeFamily?) && h !in y.store.sd
    ensures h !in Stored(cfg, y, step).sd
  {
  }

  lemma TickKeepsDetail(cfg: Config, y: System, step: Step, h: Hash, record: Record, expiry: nat)
    requires step.Tick? && DetailUntil(y, h, record, expiry)
    ensures DetailUntil(Apply(cfg, y, step), h, record, expiry)
  {
  }

  lemma StepDetails(cfg: Config, y: System, step: Step, h: Hash, record: Record, expiry: nat)
    requires Inv(cfg, y) && Enabled(y, step) && LivesUntil(y, h, record, expiry) && DetailUntil(y, h, record, expiry)
    requires !Takes(y, step, h, record) && !MovesDetail(y, step, h)
    ensures DetailUntil(Apply(cfg, y, step), h, record, expiry)
  {
    if step.Tick? {
      TickKeepsDetail(cfg, y, step, h, record, expiry);
    } else {
      ClockStands(cfg, y, step);
      if !step.SignOutEverywhere? && !step.RunRevokeFamily? {
        DetailStays(cfg, y, step, h);
      } else if y.store.now < expiry {
        SweepKeepsDetail(cfg, y, step, h);
      } else {
        SweepAddsNoDetail(cfg, y, step, h);
      }
    }
  }

  lemma {:induction false} RunDetails(cfg: Config, y: System, steps: seq<Step>, h: Hash, record: Record, expiry: nat)
    requires cfg.Valid() && Inv(cfg, y) && Runs(cfg, y, steps)
    requires LivesUntil(y, h, record, expiry) && DetailUntil(y, h, record, expiry)
    requires Untaken(cfg, y, steps, h, record) && Unmoved(cfg, y, steps, h)
    ensures DetailUntil(End(cfg, y, steps), h, record, expiry)
    decreases |steps|
  {
    if steps != [] {
      StepKeeps(cfg, y, steps[0]);
      StepLives(cfg, y, steps[0], h, record, expiry);
      StepDetails(cfg, y, steps[0], h, record, expiry);
      RunDetails(cfg, Apply(cfg, y, steps[0]), steps[1..], h, record, expiry);
    }
  }

  lemma MintDetails(cfg: Config, y: System, step: Step, h: Hash)
    requires cfg.Valid() && PhasesOk(y) && Enabled(y, step) && Mints(y, step) && !step.RunRotate? && h in Shown(step)
    ensures DetailUntil(Apply(cfg, y, step), h, Minted(y, step), y.store.now + cfg.refreshTtl)
  {
    MintIs(cfg, y, step);
  }

  /** The detail that a sign-in or a recovery stores lives as long as its session. */
  lemma DetailLivesAsLong(cfg: Config, y: System, step: Step, h: Hash, steps: seq<Step>)
    requires cfg.Valid() && Inv(cfg, y) && Enabled(y, step) && Mints(y, step) && !step.RunRotate? && h in Shown(step)
    requires Runs(cfg, Apply(cfg, y, step), steps) && Untaken(cfg, Apply(cfg, y, step), steps, h, Minted(y, step))
    requires Unmoved(cfg, Apply(cfg, y, step), steps, h)
    ensures var z := End(cfg, Apply(cfg, y, step), steps).store;
            && (h in z.sd <==> z.now < y.store.now + cfg.refreshTtl) && (h in z.sd <==> h in z.rt)
            && (h in z.sd ==> z.sd[h].value == Minted(y, step))
  {
    StepKeeps(cfg, y, step);
    MintLives(cfg, y, step, h);
    MintDetails(cfg, y, step, h);
    LivesItsLifetime(cfg, y, step, h, steps);
    RunDetails(cfg, Apply(cfg, y, step), steps, h, Minted(y, step), y.store.now + cfg.refreshTtl);
  }

  /** A rotation and the move after it leave the detail where the session went, to live as long. */
  lemma DetailFollows(cfg: Config, y: System, request: nat, drawn: Hash)
    requires Inv(cfg, y) && Enabled(y, RunRotate(request, drawn)) && y.pending[request].token in y.store.rt
    ensures var steps := [RunRotate(request, drawn), RunMove(request)];
            && Runs(cfg, y, steps)
            && var z := End(cfg, y, steps).store;
               && y.pending[request].token !in z.sd && y.pending[request].token !in z.rt
               && drawn in z.sd && drawn in z.rt && z.sd[drawn] == z.rt[drawn]
  {
    assert PhaseOk(y, y.pending[request]);
    RotateIs(cfg, y, request, drawn);
    TwoSteps(cfg, y, RunRotate(request, drawn), RunMove(request));
  }

  // Everything.

  /** Every key of the keyspace is gone by the instant `at`. */
  ghost predicate By<K(!new), V(!new)>(m: map<K, Timed<V>>, at: nat) {
    forall k | k in m :: m[k].expiry <= at
  }

  /** So is every session key: the epochs alone are kept longer. */
  ghost predicate AllBy(s: Store, at: nat) {
    By(s.rt, at) && By(s.rp, at) && By(s.cf, at) && By(s.fam, at) && By(s.sess, at) && By(s.sd, at)
  }

  ghost predicate Nothing(s: Store) {
    s.rt == map[] && s.rp == map[] && s.cf == map[] && s.fam == map[] && s.sess == map[] && s.sd == map[]
  }

  lemma AddAllBy<K(!new), V(!new)>(sets: map<K, Timed<set<V>>>, key: K, values: set<V>, expiry: nat, at: nat)
    requires By(sets, at) && expiry <= at
    ensures By(AddAll(sets, key, values, expiry), at)
  {
  }

  lemma RemoveAllBy<K(!new), V(!new)>(sets: map<K, Timed<set<V>>>, key: K, values: set<V>, at: nat)
    requires By(sets, at)
    ensures By(RemoveAll(sets, key, values), at)
  {
  }

  lemma PutBy<K(!new), V(!new)>(m: map<K, Timed<V>>, key: K, value: V, expiry: nat, at: nat)
    requires By(m, at) && expiry <= at
    ensures By(m[key := Timed(value, expiry)], at)
  {
  }

  lemma CreateBy(s: Store, hash: Hash, record: Record, ttl: nat, at: nat)
    requires AllBy(s, at) && s.now + ttl <= at
    ensures AllBy(Create(s, hash, record, ttl), at)
  {
    PutBy(s.rt, hash, record, s.now + ttl, at);
    PutBy(s.sd, hash, record, s.now + ttl, at);
    AddAllBy(s.sess, record.subject, {Live(hash)}, s.now + ttl, at);
    if record.family != "" {
      AddAllBy(s.fam, record.family, {hash}, s.now + ttl, at);
    }
  }

  lemma MovedLineageBy(s: Store, family: Family, token: Hash, drawn: Hash, expiry: nat, at: nat)
    requires By(s.fam, at) && expiry <= at
    ensures By(MovedLineage(s.fam, family, token, drawn, expiry), at)
  {
    if family != "" {
      RemoveAllBy(s.fam, family, {token}, at);
      AddAllBy(RemoveAll(s.fam, family, {token}), family, {drawn}, expiry, at);
    }
  }

  lemma MovedIndexBy(s: Store, account: Subject, token: Hash, drawn: Hash, grace: bool, expiry: nat, at: nat)
    requires By(s.sess, at) && expiry <= at
    ensures By(MovedIndex(s.sess, account, token, drawn, grace, expiry), at)
  {
    RemoveAllBy(s.sess, account, {Live(token)}, at);
    AddAllBy(RemoveAll(s.sess, account, {Live(token)}), account,
             {Live(drawn)} + (if grace then {Grace(token)} else {}), expiry, at);
  }

  lemma RotateLiveBy(s: Store, cfg: Config, token: Hash, drawn: Hash, record: Record, at: nat)
    requires cfg.Valid() && AllBy(s, at) && s.now + cfg.refreshTtl <= at
    ensures AllBy(RotateLive(s, cfg, token, drawn, record), at)
  {
    MovedLineageBy(s, record.family, token, drawn, s.now + cfg.refreshTtl, at);
    MovedIndexBy(s, record.subject, token, drawn, cfg.graceTtl > 0, s.now + cfg.refreshTtl, at);
  }

  /** The step writes a session key: it stores a session or moves a detail. */
  ghost predicate Writes(y: System, step: Step)
    requires Enabled(y, step)
  {
    Mints(y, step) || step.RunMove?
  }

  lemma WriteBy(cfg: Config, y: System, step: Step, at: nat)
    requires cfg.Valid() && PhasesOk(y) && Enabled(y, step) && Writes(y, step)
    requires AllBy(y.store, at) && y.store.now + cfg.refreshTtl <= at
    ensures AllBy(Apply(cfg, y, step).store, at)
  {
    if step.RunRotate? {
      MintIs(cfg, y, step);
      RotateLiveBy(y.store, cfg, y.pending[step.request].token, step.drawn, Minted(y, step), at);
    } else if !step.RunMove? {
      MintIs(cfg, y, step);
      CreateBy(y.store, if step.Login? then step.hash else step.drawn, Minted(y, step), cfg.refreshTtl, at);
    }
  }

  lemma RevocationBy(cfg: Config, y: System, step: Step, at: nat)
    requires Enabled(y, step) && AllBy(y.store, at)
    requires step.RunRevokeFamily? || step.SignOut? || step.RevokeVictim? || step.SignOutEverywhere?
    ensures AllBy(Stored(cfg, y, step), at)
  {
    var s := y.store;
    if step.RunRevokeFamily? {
      var p := y.pending[step.request];
      if p.owner.Some? {
        RemoveAllBy(s.sess, p.owner.value, set h | h in Members(s.fam, p.family) :: Live(h), at);
      }
    } else if step.SignOut? {
      RemoveAllBy(s.sess, step.subject, {Live(step.hash)}, at);
    } else if step.RevokeVictim? {
      RemoveAllBy(s.sess, y.pending[step.request].account, {Live(step.hash)}, at);
    }
  }

  lemma PointerStepBy(cfg: Config, y: System, step: Step, at: nat)
    requires Enabled(y, step) && AllBy(y.store, at)
    requires step.DropGrace? || step.DeletePointer? || step.RemovePointer? || step.PruneIndex? || step.Tick?
    ensures AllBy(Stored(cfg, y, step), at)
  {
    var s := y.store;
    if step.RemovePointer? {
      RemoveAllBy(s.sess, y.pending[step.request].account, {Grace(y.pending[step.request].pointer)}, at);
    } else if step.PruneIndex? {
      RemoveAllBy(s.sess, step.owner, Dead(s.rt, s.rp, step.candidates), at);
    }
  }

  lemma RefusalBy(cfg: Config, y: System, step: Step, at: nat)
    requires Enabled(y, step) && AllBy(y.store, at) && (step.RunRotate? || step.RunRecover?) && !Mints(y, step)
    ensures AllBy(Stored(cfg, y, step), at)
  {
    if step.RunRotate? {
      var p := y.pending[step.request];
      RefusedLeaves(y.store, cfg, p.token, step.drawn, SeedRecord(p.seed));
    }
  }

  /** A refused rotation at most spends a pointer. */
  lemma RefusedLeaves(s: Store, cfg: Config, token: Hash, drawn: Hash, record: Record)
    requires token !in s.rt
    ensures var t := Rotate(s, cfg, token, drawn, record).0; t == s.(rp := t.rp) && Within(t.rp, s.rp)
  {
  }

  lemma ReadBy(cfg: Config, y: System, step: Step, at: nat)
    requires Enabled(y, step) && AllBy(y.store, at) && Reads(step) && !step.RunMove?
    ensures AllBy(Stored(cfg, y, step), at)
  {
    if !step.Bump? && !step.Finish? {
      ReadLeaves(cfg, y, step);
    }
  }

  /** A step that writes no session key prolongs none. */
  lemma RestBy(cfg: Config, y: System, step: Step, at: nat)
    requires Enabled(y, step) && !Writes(y, step) && AllBy(y.store, at)
    ensures AllBy(Apply(cfg, y, step).store, at)
  {
    if Reads(step) {
      ReadBy(cfg, y, step, at);
    } else if step.RunRotate? || step.RunRecover? {
      RefusalBy(cfg, y, step, at);
    } else if step.RunRevokeFamily? || step.SignOut? || step.RevokeVictim? || step.SignOutEverywhere? {
      RevocationBy(cfg, y, step, at);
    } else {
      PointerStepBy(cfg, y, step, at);
    }
  }

  lemma AllByLater(s: Store, at: nat, later: nat)
    requires AllBy(s, at) && at <= later
    ensures AllBy(s, later)
  {
  }

  /** In every reachable state nothing is kept longer than one refresh lifetime from now. */
  lemma {:induction false} NothingIsKeptLonger(cfg: Config, y: System, steps: seq<Step>)
    requires cfg.Valid() && Inv(cfg, y) && Runs(cfg, y, steps) && AllBy(y.store, y.store.now + cfg.refreshTtl)
    ensures AllBy(End(cfg, y, steps).store, End(cfg, y, steps).store.now + cfg.refreshTtl)
    decreases |steps|
  {
    if steps != [] {
      var z := Apply(cfg, y, steps[0]);
      if Writes(y, steps[0]) {
        WriteBy(cfg, y, steps[0], y.store.now + cfg.refreshTtl);
      } else {
        RestBy(cfg, y, steps[0], y.store.now + cfg.refreshTtl);
      }
      TimePasses(cfg, y, steps[0]);
      AllByLater(z.store, y.store.now + cfg.refreshTtl, z.store.now + cfg.refreshTtl);
      StepKeeps(cfg, y, steps[0]);
      NothingIsKeptLonger(cfg, z, steps[1..]);
    }
  }

  /** No step of the run writes a session key. */
  ghost predicate Quiescent(cfg: Config, y: System, steps: seq<Step>)
    requires Runs(cfg, y, steps)
    decreases |steps|
  {
    steps != [] ==> !Writes(y, steps[0]) && Quiescent(cfg, Apply(cfg, y, steps[0]), steps[1..])
  }

  lemma TickEmpties(cfg: Config, y: System, step: Step, at: nat)
    requires step.Tick? && AllBy(y.store, at) && y.store.now + step.seconds >= at
    ensures Nothing(Apply(cfg, y, step).store)
  {
  }

  /** A store without session keys stays so until a step writes one. */
  lemma NothingStays(cfg: Config, y: System, step: Step)
    requires Inv(cfg, y) && Enabled(y, step) && !Writes(y, step) && Nothing(y.store)
    ensures Nothing(Apply(cfg, y, step).store)
  {
    OtherIsTame(cfg, y, step);
    NoDetailAppears(cfg, y, step);
  }

  lemma NoDetailAppears(cfg: Config, y: System, step: Step)
    requires Enabled(y, step) && !Writes(y, step) && y.store.sd == map[]
    ensures Apply(cfg, y, step).store.sd == map[]
  {
    if step.RunRotate? {
      var p := y.pending[step.request];
      RefusedLeaves(y.store, cfg, p.token, step.drawn, SeedRecord(p.seed));
    } else if Reads(step) && !step.Bump? && !step.Finish? {
      ReadLeaves(cfg, y, step);
    } else {
      RemovalAddsNoDetail(cfg, y, step);
    }
  }

  lemma RemovalAddsNoDetail(cfg: Config, y: System, step: Step)
    requires Enabled(y, step) && !Writes(y, step) && !step.RunRotate? && y.store.sd == map[]
    requires Reads(step) ==> step.Bump? || step.Finish?
    ensures Stored(cfg, y, step).sd == map[]
  {
  }

  lemma {:induction false} QuietRunForgets(cfg: Config, y: System, steps: seq<Step>, at: nat)
    requires cfg.Valid() && Inv(cfg, y) && Runs(cfg, y, steps) && Quiescent(cfg, y, steps) && AllBy(y.store, at)
    requires y.store.now < at || Nothing(y.store)
    requires End(cfg, y, steps).store.now >= at
    ensures Nothing(End(cfg, y, steps).store)
    decreases |steps|
  {
    if steps != [] {
      var z := Apply(cfg, y, steps[0]);
      StepKeeps(cfg, y, steps[0]);
      RestBy(cfg, y, steps[0], at);
      if Nothing(y.store) {
        NothingStays(cfg, y, steps[0]);
      } else if steps[0].Tick? {
        if z.store.now >= at {
          TickEmpties(cfg, y, steps[0], at);
        }
      } else {
        ClockStands(cfg, y, steps[0]);
      }
      QuietRunForgets(cfg, z, steps[1..], at);
    }
  }

  /** One refresh lifetime after the last session was stored or its detail moved, no session, pointer, marker,
      index or detail is left of anything. */
  lemma EverythingLapses(cfg: Config, first: seq<Step>, steps: seq<Step>)
    requires cfg.Valid() && Runs(cfg, INITIAL, first) && Runs(cfg, End(cfg, INITIAL, first), steps)
    requires Quiescent(cfg, End(cfg, INITIAL, first), steps)
    requires End(cfg, End(cfg, INITIAL, first), steps).store.now >= End(cfg, INITIAL, first).store.now + cfg.refreshTtl
    ensures Nothing(End(cfg, End(cfg, INITIAL, first), steps).store)
  {
    var y := End(cfg, INITIAL, first);
    Reachable(cfg, first);
    Reachable(cfg, []);
    NothingIsKeptLonger(cfg, INITIAL, first);
    QuietRunForgets(cfg, y, steps, y.store.now + cfg.refreshTtl);
  }
}
