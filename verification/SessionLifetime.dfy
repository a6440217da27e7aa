/** The absolute lifetime of a lineage, over every interleaving. */
module SessionLifetime {
  import opened Prelude
  import opened SessionStore
  import opened SessionSystem
  import opened SessionInvariant
  import opened SessionRevocation

  lemma StepKeepsCurrent(cfg: Config, y: System, step: Step)
    requires cfg.Valid() && Inv(cfg, y) && Enabled(y, step) && Current(y.store)
    ensures Current(Apply(cfg, y, step).store)
  {
    if Mints(y, step) {
      MintIs(cfg, y, step);
    } else {
      OtherIsTame(cfg, y, step);
      TameIsCurrent(y.store, Apply(cfg, y, step).store);
    }
  }

  lemma TameIsCurrent(s: Store, t: Store)
    requires Current(s) && Shrinks(s, t)
    ensures Current(t)
  {
  }

  lemma {:induction false} RunKeepsCurrent(cfg: Config, y: System, steps: seq<Step>)
    requires cfg.Valid() && Inv(cfg, y) && Runs(cfg, y, steps) && Current(y.store)
    ensures Current(End(cfg, y, steps).store)
    decreases |steps|
  {
    if steps != [] {
      StepKeeps(cfg, y, steps[0]);
      StepKeepsCurrent(cfg, y, steps[0]);
      RunKeepsCurrent(cfg, Apply(cfg, y, steps[0]), steps[1..]);
    }
  }

  /** There is a cap, and more time than it allows has passed since the lineage was born. */
  ghost predicate Aged(cfg: Config, y: System, family: Family) {
    && Opened(y.lineages, family) && cfg.absoluteLifetime > 0 && y.lineages[family].bornAt.Some?
    && y.lineages[family].bornAt.value + cfg.absoluteLifetime < y.store.now
  }

  /** The record names a tenant, and there is no cap, no birth to count from, or it is not passed. */
  predicate Young(cfg: Config, record: Record, now: nat) {
    && record.subject.tenant != ""
    && (cfg.absoluteLifetime > 0 && record.bornAt.Some? ==> now <= record.bornAt.value + cfg.absoluteLifetime)
  }

  /** A live token that is presented is taken up, and rotated into a successor with its record and a whole refresh
      lifetime, exactly when its record names a tenant and no more than the absolute lifetime has passed since its
      birth; without a cap or a birth it is never refused for its age. Refused, it stays as it is. */
  lemma PresentedIff(cfg: Config, y: System, request: nat, token: Hash, drawn: Hash)
    requires Known(y.store, y.seen) && request !in y.pending && token in y.store.rt && drawn !in y.seen
    ensures var record, presented := y.store.rt[token].value, Apply(cfg, y, SessionSystem.Present(request, token));
            && presented.store == y.store
            && (Enabled(presented, RunRotate(request, drawn)) <==> Young(cfg, record, y.store.now))
            && (request in presented.pending <==> Young(cfg, record, y.store.now))
            && (Young(cfg, record, y.store.now) ==>
                  var z := Apply(cfg, presented, RunRotate(request, drawn)).store;
                  token !in z.rt && drawn in z.rt && z.rt[drawn] == Timed(record, y.store.now + cfg.refreshTtl))
  {
    var record := y.store.rt[token].value;
    if Young(cfg, record, y.store.now) {
      PresentIs(cfg, y, request, token);
      RotateIs(cfg, Apply(cfg, y, SessionSystem.Present(request, token)), request, drawn);
    }
  }

  /** A recovery goes on exactly while its lineage has an index; a record without a lineage is not held up. */
  lemma AliveIff(cfg: Config, y: System, request: nat)
    requires request in y.pending && y.pending[request].GraceReplied?
    ensures var p, checked := y.pending[request], Apply(cfg, y, CheckLineage(request));
            && (request in checked.pending <==> p.record.family == "" || p.record.family in y.store.fam)
            && (request in checked.pending ==> checked.pending[request] == LineageAlive(p.token, p.record))
            && checked.store == y.store
  {
  }

  /** And it is as young as a live token has to be. */
  lemma RecoveredIff(cfg: Config, y: System, request: nat)
    requires request in y.pending && y.pending[request].LineageAlive?
    ensures var p, checked := y.pending[request], Apply(cfg, y, CheckRecovered(request));
            && (request in checked.pending <==> Young(cfg, p.record, y.store.now))
            && (request in checked.pending ==> checked.pending[request] == Recovering(p.token, p.record))
            && checked.store == y.store
  {
  }

  /** The request passed the cap and can still store a session of the lineage: its token is live, or
      its recovery would be admitted once the account has a session index. */
  predicate CanStore(y: System, p: Phase, family: Family) {
    || (p.Seeded? && p.token in y.store.rt && y.store.rt[p.token].value.family == family)
    || (p.Recovering? && p.record.family == family && family in y.store.fam)
  }

  ghost predicate Idle(y: System, family: Family) {
    forall r | r in y.pending :: !CanStore(y, y.pending[r], family)
  }

  /** Every session of the lineage in `z` was there in `y`, to expire at the same instant. */
  ghost predicate NothingNew(y: System, z: System, family: Family) {
    forall h | h in z.store.rt && z.store.rt[h].value.family == family ::
      h in y.store.rt && z.store.rt[h] == y.store.rt[h]
  }

  // An aged lineage that no request can extend.

  lemma CreateAddsNothing(cfg: Config, y: System, z: System, hash: Hash, record: Record, family: Family)
    requires z.store == Create(y.store, hash, record, cfg.refreshTtl) && record.family != family
    ensures NothingNew(y, z, family)
  {
  }

  lemma RotateAddsNothing(cfg: Config, y: System, z: System, token: Hash, drawn: Hash, record: Record, family: Family)
    requires z.store == RotateLive(y.store, cfg, token, drawn, record) && record.family != family
    ensures NothingNew(y, z, family)
  {
  }

  /** A step stores no session of a lineage that no request can extend. */
  lemma StoresNothingNew(cfg: Config, y: System, step: Step, family: Family)
    requires Inv(cfg, y) && Enabled(y, step) && Aged(cfg, y, family) && Idle(y, family)
    ensures NothingNew(y, Apply(cfg, y, step), family)
  {
    var z := Apply(cfg, y, step);
    if !Mints(y, step) {
      OtherIsTame(cfg, y, step);
    } else {
      MintIs(cfg, y, step);
      if step.Login? {
        CreateAddsNothing(cfg, y, z, step.hash, step.record, family);
      } else {
        assert !CanStore(y, y.pending[step.request], family);
        if step.RunRotate? {
          var token := y.pending[step.request].token;
          RotateAddsNothing(cfg, y, z, token, step.drawn, y.store.rt[token].value, family);
        } else {
          CreateAddsNothing(cfg, y, z, step.drawn, y.pending[step.request].record, family);
        }
      }
    }
  }

  /** The cap refuses every request that reads a record of the lineage from now on. */
  lemma ClearsNothing(cfg: Config, y: System, step: Step, r: nat, family: Family)
    requires Inherited(y.store, y.lineages) && Enabled(y, step) && Moves(step, r) && Aged(cfg, y, family)
    requires r in y.pending ==> PhaseOk(y, y.pending[r])
    requires r in Pending(cfg, y, step)
    ensures !CanStore(y, Pending(cfg, y, step)[r], family)
  {
    if step.Present? && step.token in y.store.rt {
      assert Descends(y.lineages, y.store.rt[step.token].value);
    }
  }

  /** What cannot store a session before a step cannot after it. */
  lemma CannotStore(y: System, z: System, p: Phase, family: Family)
    requires Continues(y, z) && (family in z.store.fam ==> family in y.store.fam) && !CanStore(y, p, family)
    requires p.Seeded? ==> p.token in y.seen || z.store == y.store
    ensures !CanStore(z, p, family)
  {
  }

  lemma PresentedIsSeen(cfg: Config, y: System, step: Step, r: nat)
    requires Enabled(y, step) && Moves(step, r) && r in Pending(cfg, y, step) && Pending(cfg, y, step)[r].Seeded?
    ensures step.Present? && Pending(cfg, y, step)[r].token == step.token && Apply(cfg, y, step).store == y.store
  {
  }

  lemma StepKeepsIdle(cfg: Config, y: System, step: Step, family: Family)
    requires cfg.Valid() && Inv(cfg, y) && Enabled(y, step) && Aged(cfg, y, family) && Idle(y, family)
    ensures Aged(cfg, Apply(cfg, y, step), family) && Idle(Apply(cfg, y, step), family)
  {
    var z := Apply(cfg, y, step);
    StepKeeps(cfg, y, step);
    TimePasses(cfg, y, step);
    CapIsLasting(cfg, y.lineages[family], y.store.now, z.store.now);
    if family !in y.store.fam {
      StepKeepsDead(cfg, y, step, family);
    }
    forall r | r in z.pending
      ensures !CanStore(z, z.pending[r], family)
    {
      if Moves(step, r) {
        if r in y.pending {
          assert PhaseOk(y, y.pending[r]);
        }
        ClearsNothing(cfg, y, step, r, family);
        if z.pending[r].Seeded? {
          PresentedIsSeen(cfg, y, step, r);
        }
      } else {
        OthersWait(cfg, y, step, r);
        assert PhaseOk(y, y.pending[r]);
        assert !CanStore(y, y.pending[r], family);
      }
      CannotStore(y, z, z.pending[r], family);
    }
  }

  lemma NothingNewSince(x: System, y: System, z: System, family: Family)
    requires NothingNew(x, y, family) && NothingNew(y, z, family)
    ensures NothingNew(x, z, family)
  {
  }

  /** Past its cap a lineage that no request can extend gains no session, and none is prolonged, by
      rotation or by grace, however its tokens are presented. */
  lemma {:induction false} CapStopsTheLineage(cfg: Config, y: System, steps: seq<Step>, family: Family)
    requires cfg.Valid() && Inv(cfg, y) && Runs(cfg, y, steps) && Aged(cfg, y, family) && Idle(y, family)
    ensures NothingNew(y, End(cfg, y, steps), family)
    decreases |steps|
  {
    if steps != [] {
      StepKeeps(cfg, y, steps[0]);
      StepKeepsIdle(cfg, y, steps[0], family);
      StoresNothingNew(cfg, y, steps[0], family);
      CapStopsTheLineage(cfg, Apply(cfg, y, steps[0]), steps[1..], family);
      NothingNewSince(y, Apply(cfg, y, steps[0]), End(cfg, y, steps), family);
    }
  }

  // A request that passed the cap in time.

  lemma SeededStores(cfg: Config, y: System, r: nat, drawn: Hash, family: Family)
    requires Inv(cfg, y) && r in y.pending && y.pending[r].Seeded? && CanStore(y, y.pending[r], family)
    requires drawn !in y.seen
    ensures Runs(cfg, y, [RunRotate(r, drawn)]) && !NothingNew(y, End(cfg, y, [RunRotate(r, drawn)]), family)
  {
    var step := RunRotate(r, drawn);
    MintIs(cfg, y, step);
    assert [step][1..] == [] && End(cfg, y, [step]) == Apply(cfg, y, step);
    assert drawn in Apply(cfg, y, step).store.rt && Apply(cfg, y, step).store.rt[drawn].value.family == family;
    assert drawn !in y.store.rt;
  }

  lemma RecoveringStores(cfg: Config, y: System, r: nat, first: Hash, second: Hash, lineage: Family, family: Family)
    requires Inv(cfg, y) && r in y.pending && y.pending[r].Recovering? && CanStore(y, y.pending[r], family)
    requires first !in y.seen && second !in y.seen && first != second && lineage !in y.lineages && lineage != ""
    ensures var steps := [Login(first, Record(y.pending[r].record.subject, lineage, None)), RunRecover(r, second)];
            Runs(cfg, y, steps) && !NothingNew(y, End(cfg, y, steps), family)
  {
    var login := Login(first, Record(y.pending[r].record.subject, lineage, None));
    var z := Apply(cfg, y, login);
    assert RecoveryAdmitted(z.store, y.pending[r].record) && z.pending == y.pending;
    TwoSteps(cfg, y, login, RunRecover(r, second));
    assert second in Apply(cfg, z, RunRecover(r, second)).store.rt;
    assert second !in y.store.rt;
  }

  lemma Extended(cfg: Config, y: System, r: nat, family: Family) returns (steps: seq<Step>)
    requires Inv(cfg, y) && r in y.pending && CanStore(y, y.pending[r], family)
    ensures Runs(cfg, y, steps) && !NothingNew(y, End(cfg, y, steps), family)
  {
    var first := Unseen(y.seen);
    if y.pending[r].Seeded? {
      SeededStores(cfg, y, r, first, family);
      steps := [RunRotate(r, first)];
    } else {
      var second := Unseen(y.seen + {first});
      var lineage := Unseen(y.lineages.Keys);
      RecoveringStores(cfg, y, r, first, second, lineage, family);
      steps := [Login(first, Record(y.pending[r].record.subject, lineage, None)), RunRecover(r, second)];
    }
  }

  /** So a lineage past its cap is never extended again, whatever happens, exactly when no request had
      passed the cap and could still store. */
  lemma CapIsFinalIff(cfg: Config, y: System, family: Family)
    requires cfg.Valid() && Inv(cfg, y) && Aged(cfg, y, family)
    ensures (forall steps: seq<Step> | Runs(cfg, y, steps) :: NothingNew(y, End(cfg, y, steps), family)) <==>
              Idle(y, family)
  {
    if Idle(y, family) {
      forall steps: seq<Step> | Runs(cfg, y, steps)
        ensures NothingNew(y, End(cfg, y, steps), family)
      {
        CapStopsTheLineage(cfg, y, steps, family);
      }
    } else {
      var r :| r in y.pending && CanStore(y, y.pending[r], family);
      var steps := Extended(cfg, y, r, family);
    }
  }

  /** And one refresh lifetime later it is over. */
  lemma CapEndsTheLineage(cfg: Config, first: seq<Step>, steps: seq<Step>, family: Family)
    requires cfg.Valid() && Runs(cfg, INITIAL, first) && Runs(cfg, End(cfg, INITIAL, first), steps)
    requires Aged(cfg, End(cfg, INITIAL, first), family) && Idle(End(cfg, INITIAL, first), family)
    requires End(cfg, End(cfg, INITIAL, first), steps).store.now >=
             End(cfg, INITIAL, first).store.now + cfg.refreshTtl
    ensures !LiveIn(End(cfg, End(cfg, INITIAL, first), steps).store, family)
  {
    var y := End(cfg, INITIAL, first);
    Reachable(cfg, first);
    RunKeepsCurrent(cfg, INITIAL, first);
    RunKeepsCurrent(cfg, y, steps);
    CapStopsTheLineage(cfg, y, steps, family);
    Outlived(cfg, y, End(cfg, y, steps), family);
  }

  /** In clock terms: a lineage born at `b` under a cap, that no request can extend at the tick past `b` and the
      cap, has no live session one refresh lifetime after that instant, whatever happens. */
  lemma CapEndsAt(cfg: Config, y: System, tick: Step, steps: seq<Step>, family: Family, b: nat)
    requires cfg.Valid() && Inv(cfg, y) && Current(y.store) && tick.Tick? && Opened(y.lineages, family)
    requires y.lineages[family].bornAt == Some(b) && cfg.absoluteLifetime > 0
    requires y.store.now <= b + cfg.absoluteLifetime < y.store.now + tick.seconds
    requires Idle(Apply(cfg, y, tick), family) && Runs(cfg, Apply(cfg, y, tick), steps)
    requires End(cfg, Apply(cfg, y, tick), steps).store.now >= b + cfg.absoluteLifetime + cfg.refreshTtl
    ensures !LiveIn(End(cfg, Apply(cfg, y, tick), steps).store, family)
  {
    var z := Apply(cfg, y, tick);
    StepKeeps(cfg, y, tick);
    StepKeepsCurrent(cfg, y, tick);
    RunKeepsCurrent(cfg, z, steps);
    CapStopsTheLineage(cfg, z, steps, family);
    ExpiredBy(cfg, y, z, End(cfg, z, steps), family, b + cfg.absoluteLifetime + cfg.refreshTtl);
  }

  lemma ExpiredBy(cfg: Config, y: System, z: System, end: System, family: Family, at: nat)
    requires Bounded(cfg, y.store) && Within(z.store.rt, y.store.rt) && NothingNew(z, end, family) && Current(end.store)
    requires y.store.now + cfg.refreshTtl <= at <= end.store.now
    ensures !LiveIn(end.store, family)
  {
  }

  lemma Outlived(cfg: Config, y: System, z: System, family: Family)
    requires Bounded(cfg, y.store) && Current(z.store) && NothingNew(y, z, family)
    requires z.store.now >= y.store.now + cfg.refreshTtl
    ensures !LiveIn(z.store, family)
  {
  }
}
