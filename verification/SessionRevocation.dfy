/** Reuse detection, the revocation of a lineage, and signing out everywhere, over every interleaving. */
module SessionRevocation {
  import opened Prelude
  import opened SessionStore
  import opened SessionSystem
  import opened SessionInvariant

  // What one revocation reaches.

  /** Signing out everywhere takes exactly the account's sessions and grace pointers, and no other's. */
  lemma RevokeAllIsExact(cfg: Config, s: Store, seen: set<Hash>, account: Subject)
    requires Sound(cfg, s, seen)
    ensures RevokeAll(s, account).rt == map h | h in s.rt && s.rt[h].value.subject != account :: s.rt[h]
    ensures RevokeAll(s, account).rp == map h | h in s.rp && s.rp[h].value.record.subject != account :: s.rp[h]
    ensures forall h | h in s.rt :: h in RevokeAll(s, account).sd <==> h in s.sd && s.rt[h].value.subject != account
  {
    SessionsNamed(s, account);
    PointersNamed(s, account);
  }

  /** An index names exactly the account's sessions among the live ones, and its pointers. */
  lemma SessionsNamed(s: Store, account: Subject)
    requires SessionsIndexed(s) && SessionsOwned(s)
    ensures forall h | h in s.rt :: Live(h) in Members(s.sess, account) <==> s.rt[h].value.subject == account
  {
    forall h | h in s.rt
      ensures Live(h) in Members(s.sess, account) <==> s.rt[h].value.subject == account
    {
      assert IndexedUnder(s.sess, s.rt[h].value.subject, Live(h), s.rt[h].expiry);
    }
  }

  lemma PointersNamed(s: Store, account: Subject)
    requires PointersIndexed(s) && PointersOwned(s)
    ensures forall h | h in s.rp :: Grace(h) in Members(s.sess, account) <==> s.rp[h].value.record.subject == account
  {
    forall h | h in s.rp
      ensures Grace(h) in Members(s.sess, account) <==> s.rp[h].value.record.subject == account
    {
      assert IndexedUnder(s.sess, s.rp[h].value.record.subject, Grace(h), s.rp[h].expiry);
    }
  }

  /** Revoking a lineage takes exactly the lineage's sessions, whoever the caller named as its owner. */
  lemma RevokeFamilyIsExact(cfg: Config, s: Store, seen: set<Hash>, family: Family, owner: Option<Subject>)
    requires Sound(cfg, s, seen) && family != ""
    ensures RevokeFamily(s, family, owner).rt == map h | h in s.rt && s.rt[h].value.family != family :: s.rt[h]
  {
    forall h | h in s.rt
      ensures h in Members(s.fam, family) <==> s.rt[h].value.family == family
    {
    }
  }

  // A revoked lineage stays revoked.

  ghost predicate LiveIn(s: Store, family: Family) {
    exists h | h in s.rt :: s.rt[h].value.family == family
  }

  /** The family of a session a step stores is indexed, unless a login opened it. */
  lemma MintsIndexed(cfg: Config, y: System, step: Step)
    requires LineagesIndexed(y.store) && Enabled(y, step) && Mints(y, step) && !step.Login?
    ensures step.RunRotate? ==>
              var record := y.store.rt[y.pending[step.request].token].value;
              record.family == "" || record.family in y.store.fam
    ensures step.RunRecover? ==>
              y.pending[step.request].record.family == "" || y.pending[step.request].record.family in y.store.fam
  {
  }

  lemma CreateKeepsDead(s: Store, hash: Hash, record: Record, ttl: nat, family: Family)
    requires family !in s.fam && record.family != family
    ensures family !in Create(s, hash, record, ttl).fam
  {
  }

  lemma RotateKeepsDead(s: Store, cfg: Config, token: Hash, drawn: Hash, record: Record, family: Family)
    requires family !in s.fam && (record.family == "" || record.family in s.fam)
    ensures family !in RotateLive(s, cfg, token, drawn, record).fam
  {
  }

  /** Nothing but a live member or an admitted recovery re-creates a family index. */
  lemma StepKeepsDead(cfg: Config, y: System, step: Step, family: Family)
    requires cfg.Valid() && Inv(cfg, y) && Enabled(y, step)
    requires Opened(y.lineages, family) && family !in y.store.fam
    ensures family !in Apply(cfg, y, step).store.fam
  {
    if !Mints(y, step) {
      OtherIsTame(cfg, y, step);
    } else {
      MintIs(cfg, y, step);
      if step.Login? {
        CreateKeepsDead(y.store, step.hash, step.record, cfg.refreshTtl, family);
      } else {
        MintsIndexed(cfg, y, step);
        if step.RunRotate? {
          var token := y.pending[step.request].token;
          RotateKeepsDead(y.store, cfg, token, step.drawn, y.store.rt[token].value, family);
        } else {
          CreateKeepsDead(y.store, step.drawn, y.pending[step.request].record, cfg.refreshTtl, family);
        }
      }
    }
  }

  /** Once the index of an opened lineage is gone, no session of that lineage is ever live again,
      whatever requests are in flight and whatever grace pointers are left. */
  lemma {:induction false} DeadLineageStaysDead(cfg: Config, y: System, steps: seq<Step>, family: Family)
    requires cfg.Valid() && Inv(cfg, y) && Runs(cfg, y, steps)
    requires Opened(y.lineages, family) && family !in y.store.fam
    ensures family !in End(cfg, y, steps).store.fam && !LiveIn(End(cfg, y, steps).store, family)
    decreases |steps|
  {
    if steps != [] {
      StepKeeps(cfg, y, steps[0]);
      StepKeepsDead(cfg, y, steps[0], family);
      DeadLineageStaysDead(cfg, Apply(cfg, y, steps[0]), steps[1..], family);
    } else {
      UnindexedIsDead(y.store, family);
    }
  }

  lemma UnindexedIsDead(s: Store, family: Family)
    requires LineagesIndexed(s) && family != "" && family !in s.fam
    ensures !LiveIn(s, family)
  {
  }

  /** So the request that saw a reuse ends the lineage for good. */
  lemma ReuseEndsTheLineage(cfg: Config, y: System, request: nat, steps: seq<Step>)
    requires cfg.Valid() && Inv(cfg, y) && request in y.pending && y.pending[request].OwnerRead?
    requires Runs(cfg, Apply(cfg, y, RunRevokeFamily(request)), steps)
    ensures !LiveIn(End(cfg, Apply(cfg, y, RunRevokeFamily(request)), steps).store, y.pending[request].family)
  {
    assert PhaseOk(y, y.pending[request]);
    StepKeeps(cfg, y, RunRevokeFamily(request));
    DeadLineageStaysDead(cfg, Apply(cfg, y, RunRevokeFamily(request)), steps, y.pending[request].family);
  }

  // A replay is always told apart.

  /** What a rotation of `token` into `drawn` at the instant `at` leaves behind it. */
  ghost predicate Retired(cfg: Config, y: System, token: Hash, drawn: Hash, record: Record, at: nat) {
    && token in y.seen && token !in y.store.rt
    && (token in y.store.cf ==> record.family != "" && y.store.cf[token] == Timed(record.family, at + cfg.refreshTtl))
    && (record.family != "" && y.store.now < at + cfg.refreshTtl ==> token in y.store.cf)
    && (token in y.store.rp ==> y.store.rp[token] == Timed(Pointer(drawn, record), at + cfg.graceTtl))
    && (token in y.store.rp ==> y.store.now < at + cfg.graceTtl)
  }

  /** The clock apart, only a rotation writes a consumed marker. */
  lemma MarkersStay(cfg: Config, y: System, step: Step)
    requires Enabled(y, step) && !step.Tick? && !step.RunRotate?
    ensures Stored(cfg, y, step).now == y.store.now && Stored(cfg, y, step).cf == y.store.cf
  {
    if !step.Bump? && !step.Finish? {
      StepLeaves(cfg, y, step);
    }
  }

  /** What becomes of the marker and the pointer of a token that was seen and is not live. */
  ghost predicate Stays(s: Store, t: Store, token: Hash) {
    && t.now == s.now
    && (token in t.cf <==> token in s.cf) && (token in t.cf ==> t.cf[token] == s.cf[token])
    && (token in t.rp ==> token in s.rp && t.rp[token] == s.rp[token])
  }

  lemma RotateLiveLeaves(cfg: Config, s: Store, presented: Hash, drawn: Hash, record: Record, token: Hash)
    requires presented != token
    ensures Stays(s, RotateLive(s, cfg, presented, drawn, record), token)
  {
  }

  lemma RotateLeaves(cfg: Config, s: Store, presented: Hash, drawn: Hash, record: Record, token: Hash)
    requires token !in s.rt
    ensures Stays(s, Rotate(s, cfg, presented, drawn, record).0, token)
  {
    if presented in s.rt {
      RotateLiveLeaves(cfg, s, presented, drawn, record, token);
    }
  }

  /** Nothing but the clock takes a consumed marker away, and nothing restores a grace pointer. */
  lemma MarkerStays(cfg: Config, y: System, step: Step, token: Hash)
    requires Inv(cfg, y) && Enabled(y, step) && !step.Tick? && token !in y.store.rt
    ensures Stays(y.store, Apply(cfg, y, step).store, token)
  {
    if step.RunRotate? {
      var p := y.pending[step.request];
      RotateLeaves(cfg, y.store, p.token, step.drawn, SeedRecord(p.seed), token);
    } else {
      MarkersStay(cfg, y, step);
      if Mints(y, step) {
        MintIs(cfg, y, step);
      } else {
        OtherIsTame(cfg, y, step);
      }
    }
  }

  lemma StepKeepsRetired(cfg: Config, y: System, step: Step, token: Hash, drawn: Hash, record: Record, at: nat)
    requires cfg.Valid() && Inv(cfg, y) && Enabled(y, step) && Retired(cfg, y, token, drawn, record, at)
    ensures Retired(cfg, Apply(cfg, y, step), token, drawn, record, at)
  {
    StepKeeps(cfg, y, step);
    if !step.Tick? {
      MarkerStays(cfg, y, step, token);
    }
  }

  lemma {:induction false} RunKeepsRetired(
      cfg: Config, y: System, steps: seq<Step>, token: Hash, drawn: Hash, record: Record, at: nat)
    requires cfg.Valid() && Inv(cfg, y) && Runs(cfg, y, steps) && Retired(cfg, y, token, drawn, record, at)
    ensures Retired(cfg, End(cfg, y, steps), token, drawn, record, at)
    decreases |steps|
  {
    if steps != [] {
      StepKeeps(cfg, y, steps[0]);
      StepKeepsRetired(cfg, y, steps[0], token, drawn, record, at);
      RunKeepsRetired(cfg, Apply(cfg, y, steps[0]), steps[1..], token, drawn, record, at);
    }
  }

  lemma RotationRetires(cfg: Config, y: System, step: Step)
    requires Inv(cfg, y) && step.RunRotate? && Enabled(y, step) && Mints(y, step)
    requires cfg.Valid()
    ensures Retired(cfg, Apply(cfg, y, step), y.pending[step.request].token, step.drawn,
                    y.store.rt[y.pending[step.request].token].value, y.store.now)
  {
    assert PhaseOk(y, y.pending[step.request]);
    MintIs(cfg, y, step);
  }

  /** What the rotation script answers for a token that a rotation retired. */
  lemma RetiredReply(cfg: Config, y: System, token: Hash, drawn: Hash, record: Record, at: nat, next: Hash, seed: Record)
    requires Retired(cfg, y, token, drawn, record, at) && y.store.now < at + cfg.refreshTtl
    ensures Rotate(y.store, cfg, token, next, seed).1 ==
            if token in y.store.rp && drawn in y.store.rt then GraceHit(record)
            else if record.family == "" then Invalid
            else Reused(record.family)
  {
  }

  /** For the whole refresh lifetime after a token is rotated, presenting it again is answered with
      its own identity while the grace pointer and the successor are both alive. Otherwise it is
      reported as a reuse of its own lineage; a record written before lineages existed has none to
      report, and only its token is refused. It is never taken for a live token. */
  lemma ReplayIsCaught(cfg: Config, y: System, step: Step, steps: seq<Step>, next: Hash, seed: Record)
    requires cfg.Valid() && Inv(cfg, y) && step.RunRotate? && Enabled(y, step) && Mints(y, step)
    requires Runs(cfg, Apply(cfg, y, step), steps)
    requires End(cfg, Apply(cfg, y, step), steps).store.now < y.store.now + cfg.refreshTtl
    ensures var token := y.pending[step.request].token;
            var record := y.store.rt[token].value;
            var later := End(cfg, Apply(cfg, y, step), steps).store;
            && Rotate(later, cfg, token, next, seed).1 ==
               (if token in later.rp && step.drawn in later.rt then GraceHit(record)
                else if record.family == "" then Invalid
                else Reused(record.family))
            && (token in later.rp ==> later.now < y.store.now + cfg.graceTtl)
  {
    var token := y.pending[step.request].token;
    var record := y.store.rt[token].value;
    RotationRetires(cfg, y, step);
    StepKeeps(cfg, y, step);
    RunKeepsRetired(cfg, Apply(cfg, y, step), steps, token, step.drawn, record, y.store.now);
    RetiredReply(cfg, End(cfg, Apply(cfg, y, step), steps), token, step.drawn, record, y.store.now, next, seed);
  }

  // Signing out everywhere.

  /** No step of the run signs the account in. */
  predicate NoSignIn(steps: seq<Step>, account: Subject) {
    forall i | 0 <= i < |steps| && steps[i].Login? :: steps[i].record.subject != account
  }

  lemma NoSignInTail(steps: seq<Step>, account: Subject)
    requires steps != [] && NoSignIn(steps, account)
    ensures (steps[0].Login? ==> steps[0].record.subject != account) && NoSignIn(steps[1..], account)
  {
  }

  ghost predicate LiveFor(s: Store, account: Subject) {
    exists h | h in s.rt :: s.rt[h].value.subject == account
  }

  lemma CreateKeepsAbsent(s: Store, hash: Hash, record: Record, ttl: nat, account: Subject)
    requires account !in s.sess && record.subject != account
    ensures account !in Create(s, hash, record, ttl).sess
  {
  }

  lemma RotateKeepsAbsent(s: Store, cfg: Config, token: Hash, drawn: Hash, account: Subject)
    requires SessionsIndexed(s) && token in s.rt && account !in s.sess
    ensures account !in RotateLive(s, cfg, token, drawn, s.rt[token].value).sess
  {
    assert IndexedUnder(s.sess, s.rt[token].value.subject, Live(token), s.rt[token].expiry);
  }

  lemma StepKeepsAbsent(cfg: Config, y: System, step: Step, account: Subject)
    requires cfg.Valid() && Inv(cfg, y) && Enabled(y, step) && account !in y.store.sess
    requires step.Login? ==> step.record.subject != account
    ensures account !in Apply(cfg, y, step).store.sess
  {
    if !Mints(y, step) {
      OtherIsTame(cfg, y, step);
    } else {
      MintIs(cfg, y, step);
      if step.Login? {
        CreateKeepsAbsent(y.store, step.hash, step.record, cfg.refreshTtl, account);
      } else if step.RunRotate? {
        RotateKeepsAbsent(y.store, cfg, y.pending[step.request].token, step.drawn, account);
      } else {
        CreateKeepsAbsent(y.store, step.drawn, y.pending[step.request].record, cfg.refreshTtl, account);
      }
    }
  }

  lemma UnindexedIsAbsent(s: Store, account: Subject)
    requires SessionsIndexed(s) && account !in s.sess
    ensures !LiveFor(s, account)
  {
    forall h | h in s.rt
      ensures s.rt[h].value.subject != account
    {
      assert IndexedUnder(s.sess, s.rt[h].value.subject, Live(h), s.rt[h].expiry);
    }
  }

  /** Until the account signs in again, no session of it is ever live: not through a rotation or a
      recovery that was in flight, and not through a grace pointer. */
  lemma {:induction false} SignedOutUntilLogin(cfg: Config, y: System, steps: seq<Step>, account: Subject)
    requires cfg.Valid() && Inv(cfg, y) && Runs(cfg, y, steps) && account !in y.store.sess
    requires NoSignIn(steps, account)
    ensures account !in End(cfg, y, steps).store.sess && !LiveFor(End(cfg, y, steps).store, account)
    decreases |steps|
  {
    if steps != [] {
      NoSignInTail(steps, account);
      StepKeeps(cfg, y, steps[0]);
      StepKeepsAbsent(cfg, y, steps[0], account);
      SignedOutUntilLogin(cfg, Apply(cfg, y, steps[0]), steps[1..], account);
    } else {
      UnindexedIsAbsent(y.store, account);
    }
  }

  /** A recovery of the lineage that would be admitted if the account had a session index. */
  ghost predicate Resumable(cfg: Config, y: System, p: Phase, family: Family) {
    || (p.Recovering? && p.record.family == family)
    || ((p.GraceReplied? || p.LineageAlive?) && p.record.family == family && MayContinue(cfg, p.record, y.store.now))
  }

  /** Some request stands between spending a grace pointer of the lineage and `recover_grace`. */
  ghost predicate RecoveryInFlight(cfg: Config, y: System, family: Family) {
    family in y.store.fam && exists r | r in y.pending :: Resumable(cfg, y, y.pending[r], family)
  }

  /** The lineage is never live again, whatever happens next. */
  ghost predicate Over(cfg: Config, y: System, family: Family) {
    forall steps: seq<Step> | Runs(cfg, y, steps) :: !LiveIn(End(cfg, y, steps).store, family)
  }

  /** No session and no grace pointer of the lineage. */
  ghost predicate Empty(s: Store, family: Family) {
    && (forall h | h in s.rt :: s.rt[h].value.family != family)
    && (forall h | h in s.rp :: s.rp[h].value.record.family != family)
  }

  /** And no request that could still be recovered. */
  ghost predicate Quiet(cfg: Config, y: System, family: Family) {
    && Opened(y.lineages, family) && Empty(y.store, family)
    && (forall r | r in y.pending :: !Resumable(cfg, y, y.pending[r], family))
  }

  lemma TameStaysEmpty(y: System, z: System, family: Family)
    requires Empty(y.store, family) && Tame(y, z)
    ensures Empty(z.store, family)
  {
  }

  lemma CreateStaysEmpty(s: Store, hash: Hash, record: Record, ttl: nat, family: Family)
    requires Empty(s, family) && record.family != family
    ensures Empty(Create(s, hash, record, ttl), family)
  {
  }

  lemma RotateStaysEmpty(s: Store, cfg: Config, token: Hash, drawn: Hash, family: Family)
    requires Empty(s, family) && token in s.rt
    ensures Empty(RotateLive(s, cfg, token, drawn, s.rt[token].value), family)
  {
  }

  lemma StepStaysEmpty(cfg: Config, y: System, step: Step, family: Family)
    requires Inv(cfg, y) && Enabled(y, step) && Quiet(cfg, y, family)
    ensures Empty(Apply(cfg, y, step).store, family)
  {
    if !Mints(y, step) {
      OtherIsTame(cfg, y, step);
      TameStaysEmpty(y, Apply(cfg, y, step), family);
    } else {
      MintIs(cfg, y, step);
      if step.Login? {
        CreateStaysEmpty(y.store, step.hash, step.record, cfg.refreshTtl, family);
      } else if step.RunRotate? {
        RotateStaysEmpty(y.store, cfg, y.pending[step.request].token, step.drawn, family);
      } else {
        assert !Resumable(cfg, y, y.pending[step.request], family);
        CreateStaysEmpty(y.store, step.drawn, y.pending[step.request].record, cfg.refreshTtl, family);
      }
    }
  }

  /** The cap, once it refuses a record, refuses it for good. */
  lemma CapIsLasting(cfg: Config, record: Record, now: nat, later: nat)
    requires now <= later
    ensures WithinCap(cfg, record, later) ==> WithinCap(cfg, record, now)
    ensures MayContinue(cfg, record, later) ==> MayContinue(cfg, record, now)
  {
  }

  /** A request only becomes resumable by spending a pointer. */
  lemma RotatedIsNotResumable(cfg: Config, y: System, step: Step, family: Family)
    requires step.RunRotate? && Enabled(y, step) && Empty(y.store, family) && step.request in Apply(cfg, y, step).pending
    ensures !Resumable(cfg, Apply(cfg, y, step), Apply(cfg, y, step).pending[step.request], family)
  {
  }

  lemma MovedIsResumable(cfg: Config, y: System, step: Step, r: nat, family: Family)
    requires Enabled(y, step) && Moves(step, r) && Empty(y.store, family)
    requires r in Apply(cfg, y, step).pending && Resumable(cfg, Apply(cfg, y, step), Apply(cfg, y, step).pending[r], family)
    ensures r in y.pending && Resumable(cfg, y, y.pending[r], family)
  {
    if step.RunRotate? {
      RotatedIsNotResumable(cfg, y, step, family);
    }
  }

  lemma TimePasses(cfg: Config, y: System, step: Step)
    requires Inv(cfg, y) && Enabled(y, step)
    ensures y.store.now <= Apply(cfg, y, step).store.now
  {
    if Mints(y, step) {
      MintIs(cfg, y, step);
    } else {
      OtherIsTame(cfg, y, step);
    }
  }

  lemma StepKeepsQuiet(cfg: Config, y: System, step: Step, family: Family)
    requires Inv(cfg, y) && Enabled(y, step) && Quiet(cfg, y, family)
    ensures Quiet(cfg, Apply(cfg, y, step), family)
  {
    var z := Apply(cfg, y, step);
    StepStaysEmpty(cfg, y, step, family);
    TimePasses(cfg, y, step);
    forall r | r in z.pending
      ensures !Resumable(cfg, z, z.pending[r], family)
    {
      if Resumable(cfg, z, z.pending[r], family) {
        if Moves(step, r) {
          MovedIsResumable(cfg, y, step, r, family);
        } else {
          OthersWait(cfg, y, step, r);
          if !z.pending[r].Recovering? {
            CapIsLasting(cfg, z.pending[r].record, y.store.now, z.store.now);
          }
        }
      }
    }
  }

  lemma {:induction false} QuietIsOver(cfg: Config, y: System, steps: seq<Step>, family: Family)
    requires cfg.Valid() && Inv(cfg, y) && Runs(cfg, y, steps) && Quiet(cfg, y, family)
    ensures !LiveIn(End(cfg, y, steps).store, family)
    decreases |steps|
  {
    if steps != [] {
      StepKeeps(cfg, y, steps[0]);
      StepKeepsQuiet(cfg, y, steps[0], family);
      QuietIsOver(cfg, Apply(cfg, y, steps[0]), steps[1..], family);
    }
  }

  lemma LengthBound(strings: set<string>) returns (bound: nat)
    ensures forall x | x in strings :: |x| <= bound
  {
    if strings == {} {
      bound := 0;
    } else {
      var x :| x in strings;
      var rest := LengthBound(strings - {x});
      bound := if |x| > rest then |x| else rest;
    }
  }

  /** The random source always has a value nobody has seen. */
  lemma Unseen(strings: set<string>) returns (x: string)
    ensures x !in strings && x != ""
  {
    var bound := LengthBound(strings);
    x := seq(bound + 1, _ => 'a');
  }

  /** A recovery in flight is admitted once the indexes `recover_grace` looks for exist. */
  lemma RecoveryIsAdmitted(cfg: Config, y: System, family: Family, request: nat, drawn: Hash) returns (steps: seq<Step>)
    requires request in y.pending && Resumable(cfg, y, y.pending[request], family) && drawn !in y.seen
    requires RecoveryAdmitted(y.store, y.pending[request].record)
    ensures Runs(cfg, y, steps) && LiveIn(End(cfg, y, steps).store, family)
    decreases if y.pending[request].GraceReplied? then 2 else if y.pending[request].LineageAlive? then 1 else 0
  {
    var step := if y.pending[request].GraceReplied? then CheckLineage(request)
                else if y.pending[request].LineageAlive? then CheckRecovered(request)
                else RunRecover(request, drawn);
    if step.RunRecover? {
      Lives(cfg, y, step, family);
      steps := [step];
    } else {
      var rest := RecoveryIsAdmitted(cfg, Apply(cfg, y, step), family, request, drawn);
      OneMore(cfg, y, step, rest);
      steps := [step] + rest;
    }
  }

  lemma OneMore(cfg: Config, y: System, step: Step, rest: seq<Step>)
    requires Enabled(y, step) && Runs(cfg, Apply(cfg, y, step), rest)
    ensures Runs(cfg, y, [step] + rest) && End(cfg, y, [step] + rest) == End(cfg, Apply(cfg, y, step), rest)
  {
    assert ([step] + rest)[1..] == rest;
  }

  /** After a recovery in flight is overtaken by a sign-out everywhere and then a new sign-in, it is
      admitted: the index `recover_grace` looks for exists again. */
  lemma RecoveryOutlivesSweep(cfg: Config, y: System, family: Family, request: nat) returns (steps: seq<Step>)
    requires family != "" && family in y.store.fam
    requires request in y.pending && Resumable(cfg, y, y.pending[request], family)
    ensures Runs(cfg, y, steps) && LiveIn(End(cfg, y, steps).store, family)
  {
    var first := Unseen(y.seen);
    var second := Unseen(y.seen + {first});
    var lineage := Unseen(y.lineages.Keys);
    var record := y.pending[request].record;
    var login := Login(first, Record(record.subject, lineage, None));
    var z := Apply(cfg, y, login);
    assert RecoveryAdmitted(z.store, record);
    assert z.pending == y.pending && z.store.now == y.store.now;
    var rest := RecoveryIsAdmitted(cfg, z, family, request, second);
    OneMore(cfg, y, login, rest);
    steps := [login] + rest;
  }

  /** An admitted recovery leaves its lineage live. */
  lemma Lives(cfg: Config, y: System, step: Step, family: Family)
    requires step.RunRecover? && Enabled(y, step)
    requires y.pending[step.request].record.family == family
    requires RecoveryAdmitted(y.store, y.pending[step.request].record)
    ensures Runs(cfg, y, [step]) && LiveIn(End(cfg, y, [step]).store, family)
  {
    var z := Apply(cfg, y, step);
    assert [step][1..] == [];
    assert End(cfg, y, [step]) == z;
    assert z.store.rt[step.drawn].value.family == family;
  }

  /** Signing out everywhere is final for a lineage of the account exactly when no request was, at
      that moment, between spending one of its grace pointers and running `recover_grace`. */
  lemma SweepIsFinalIff(cfg: Config, y: System, account: Subject, family: Family)
    requires cfg.Valid() && Inv(cfg, y)
    requires Opened(y.lineages, family) && y.lineages[family].subject == account
    ensures var swept := Apply(cfg, y, SignOutEverywhere(account));
            Over(cfg, swept, family) <==> !RecoveryInFlight(cfg, y, family)
  {
    var swept := Apply(cfg, y, SignOutEverywhere(account));
    StepKeeps(cfg, y, SignOutEverywhere(account));
    if RecoveryInFlight(cfg, y, family) {
      var request :| request in y.pending && Resumable(cfg, y, y.pending[request], family);
      var steps := RecoveryOutlivesSweep(cfg, swept, family, request);
    } else {
      RevokeAllIsExact(cfg, y.store, y.seen, account);
      forall steps: seq<Step> | Runs(cfg, swept, steps)
        ensures !LiveIn(End(cfg, swept, steps).store, family)
      {
        if family !in swept.store.fam {
          DeadLineageStaysDead(cfg, swept, steps, family);
        } else {
          SweptIsQuiet(cfg, y, account, family);
          QuietIsOver(cfg, swept, steps, family);
        }
      }
    }
  }

  lemma SweptIsQuiet(cfg: Config, y: System, account: Subject, family: Family)
    requires cfg.Valid() && Inv(cfg, y) && !RecoveryInFlight(cfg, y, family) && family in y.store.fam
    requires Opened(y.lineages, family) && y.lineages[family].subject == account
    ensures Quiet(cfg, Apply(cfg, y, SignOutEverywhere(account)), family)
  {
    RevokeAllIsExact(cfg, y.store, y.seen, account);
    SweptIsEmpty(y, RevokeAll(y.store, account), account, family);
    forall r | r in y.pending
      ensures !Resumable(cfg, y, y.pending[r], family)
    {
    }
  }

  lemma SweptIsEmpty(y: System, t: Store, account: Subject, family: Family)
    requires Inherited(y.store, y.lineages) && Opened(y.lineages, family) && y.lineages[family].subject == account
    requires t.rt == map h | h in y.store.rt && y.store.rt[h].value.subject != account :: y.store.rt[h]
    requires t.rp == map h | h in y.store.rp && y.store.rp[h].value.record.subject != account :: y.store.rp[h]
    ensures Empty(t, family)
  {
  }

  lemma TwoSteps(cfg: Config, y: System, a: Step, b: Step)
    requires Enabled(y, a) && Enabled(Apply(cfg, y, a), b)
    ensures Runs(cfg, y, [a, b]) && End(cfg, y, [a, b]) == Apply(cfg, Apply(cfg, y, a), b)
  {
    var z := Apply(cfg, y, a);
    assert [a, b][1..] == [b] && [b][1..] == [];
    assert Runs(cfg, z, [b]) && End(cfg, z, [b]) == Apply(cfg, z, b);
  }

  /** Rotating a live token once leaves its grace pointer behind. */
  lemma RotateOnce(cfg: Config, y: System, request: nat, token: Hash, drawn: Hash)
    requires request !in y.pending && drawn !in y.seen
    requires token in y.seen && token in y.store.rt && MayRotate(cfg, Some(y.store.rt[token].value), y.store.now)
    ensures var steps := [SessionSystem.Present(request, token), RunRotate(request, drawn)];
            && Runs(cfg, y, steps)
            && var z := End(cfg, y, steps);
               && z.store == RotateLive(y.store, cfg, token, drawn, y.store.rt[token].value)
               && z.seen == y.seen + {drawn} && z.lineages == y.lineages
               && z.pending == y.pending[request := Moving(token, drawn, y.store.rt[token].value)]
  {
    var present, rotate := SessionSystem.Present(request, token), RunRotate(request, drawn);
    var y1 := Apply(cfg, y, present);
    PresentIs(cfg, y, request, token);
    assert y1.seen == y.seen;
    RotateIs(cfg, y1, request, drawn);
    TwoSteps(cfg, y, present, rotate);
  }

  lemma PresentIs(cfg: Config, y: System, request: nat, token: Hash)
    requires request !in y.pending
    requires token in y.store.rt ==> MayRotate(cfg, Some(y.store.rt[token].value), y.store.now)
    ensures Apply(cfg, y, SessionSystem.Present(request, token)) ==
            y.(seen := y.seen + {token},
               pending := y.pending[request := Seeded(token, if token in y.store.rt then Some(y.store.rt[token].value) else None)])
  {
  }

  lemma RotateIs(cfg: Config, y: System, request: nat, drawn: Hash)
    requires Enabled(y, RunRotate(request, drawn)) && y.pending[request].token in y.store.rt
    ensures var p := y.pending[request];
            Apply(cfg, y, RunRotate(request, drawn)) ==
            System(RotateLive(y.store, cfg, p.token, drawn, SeedRecord(p.seed)), y.seen + {drawn}, y.lineages,
                   y.pending[request := Moving(p.token, drawn, SeedRecord(p.seed))])
  {
  }

  /** Presenting it again puts a recovery in flight. */
  lemma PresentAgain(cfg: Config, y: System, request: nat, token: Hash, drawn: Hash)
    requires request !in y.pending && drawn !in y.seen
    requires token in y.seen && token !in y.store.rt && token in y.store.rp
    requires y.store.rp[token].value.successor in y.store.rt
    ensures var steps := [SessionSystem.Present(request, token), RunRotate(request, drawn)];
            && Runs(cfg, y, steps)
            && var z := End(cfg, y, steps);
               && request in z.pending && z.pending[request] == GraceReplied(token, y.store.rp[token].value.record)
               && z.store.fam == y.store.fam && z.store.now == y.store.now && z.lineages == y.lineages
  {
    var steps := [SessionSystem.Present(request, token), RunRotate(request, drawn)];
    var y1 := Apply(cfg, y, steps[0]);
    assert y1.seen == y.seen && y1.pending[request] == Seeded(token, None);
    TwoSteps(cfg, y, steps[0], steps[1]);
  }

  lemma {:induction false} RunsConcat(cfg: Config, y: System, first: seq<Step>, second: seq<Step>)
    requires Runs(cfg, y, first) && Runs(cfg, End(cfg, y, first), second)
    ensures Runs(cfg, y, first + second)
    ensures End(cfg, y, first + second) == End(cfg, End(cfg, y, first), second)
    decreases |first|
  {
    if first == [] {
      assert first + second == second;
    } else {
      RunsConcat(cfg, Apply(cfg, y, first[0]), first[1..], second);
      SameHead(first, second);
    }
  }

  lemma SameHead(first: seq<Step>, second: seq<Step>)
    requires first != []
    ensures (first + second)[0] == first[0] && (first + second)[1..] == first[1..] + second && first + second != []
  {
  }

  /** Rotate a live token, and present it once more inside the grace window. */
  lemma RotateTwice(cfg: Config, y: System, token: Hash, request: nat) returns (steps: seq<Step>)
    requires cfg.graceTtl > 0 && Known(y.store, y.seen) && token in y.store.rt
    requires MayRotate(cfg, Some(y.store.rt[token].value), y.store.now)
    requires request !in y.pending && request + 1 !in y.pending
    requires y.store.rt[token].value.family in y.store.fam && y.store.rt[token].value.family != ""
    ensures Runs(cfg, y, steps)
    ensures var z := End(cfg, y, steps);
            && request in z.pending && z.pending[request] == GraceReplied(token, y.store.rt[token].value)
            && z.store.now == y.store.now && y.store.rt[token].value.family in z.store.fam && z.lineages == y.lineages
  {
    var first := Unseen(y.seen);
    var second := Unseen(y.seen + {first});
    var rotate := [SessionSystem.Present(request + 1, token), RunRotate(request + 1, first)];
    var again := [SessionSystem.Present(request, token), RunRotate(request, second)];
    RotateOnce(cfg, y, request + 1, token, first);
    PresentAgain(cfg, End(cfg, y, rotate), request, token, second);
    RunsConcat(cfg, y, rotate, again);
    steps := rotate + again;
  }

  /** The failing family is reached from every state with a live session: rotate its token, present
      it once more inside the grace window, and sign out everywhere before the recovery is written. */
  lemma SweepCanBeOvertaken(cfg: Config, y: System, token: Hash) returns (steps: seq<Step>)
    requires cfg.Valid() && cfg.graceTtl > 0 && Inv(cfg, y)
    requires token in y.store.rt && y.store.rt[token].value.family != ""
    requires MayRotate(cfg, Some(y.store.rt[token].value), y.store.now)
    ensures Runs(cfg, y, steps)
    ensures var swept := Apply(cfg, End(cfg, y, steps), SignOutEverywhere(y.store.rt[token].value.subject));
            !Over(cfg, swept, y.store.rt[token].value.family)
  {
    var record := y.store.rt[token].value;
    var request := Above(y.pending.Keys);
    assert IndexedUnder(y.store.fam, record.family, token, y.store.rt[token].expiry);
    assert Descends(y.lineages, record);
    steps := RotateTwice(cfg, y, token, request);
    var last := End(cfg, y, steps);
    assert Resumable(cfg, last, last.pending[request], record.family);
    RunKeeps(cfg, y, steps);
    SweepIsFinalIff(cfg, last, record.subject, record.family);
  }

  lemma Above(requests: set<nat>) returns (r: nat)
    ensures forall x | x in requests :: x < r
  {
    if requests == {} {
      r := 0;
    } else {
      var x :| x in requests;
      var rest := Above(requests - {x});
      r := if x < rest then rest else x + 1;
      assert requests == requests - {x} + {x};
    }
  }
}
