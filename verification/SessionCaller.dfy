/**
 Whether logging out everywhere else leaves the caller signed in. Which session to keep is settled one round
 trip before the sessions are listed, and a rotation of it in between makes the caller's own successor one of
 the others.
 */
module SessionCaller {
  import opened Prelude
  import opened SessionStore
  import opened SessionSystem
  import opened SessionInvariant
  import opened SessionRevocation
  import opened SessionSparing

  /** The step takes no session away of itself, but for the revocations of this request: nobody signs out, no
      reuse is punished, no other call revokes or lists, no time passes. */
  predicate Gentle(step: Step, request: nat) {
    match step
    case SignOut(_, _) => false
    case SignOutEverywhere(_) => false
    case RunRevokeFamily(_) => false
    case Spare(_) => false
    case Tick(_) => false
    case RevokeVictim(r, _) => r == request
    case _ => true
  }

  predicate AllGentle(steps: seq<Step>, request: nat) {
    forall i | 0 <= i < |steps| :: Gentle(steps[i], request)
  }

  lemma OwnIsGentle(steps: seq<Step>, request: nat)
    requires OwnSteps(steps, request)
    ensures AllGentle(steps, request)
  {
  }

  // A session that is not listed for revocation lives on, itself or as its successor.

  /** The step rotates this session away, or revokes it. */
  ghost predicate Ends(y: System, step: Step, h: Hash)
    requires Enabled(y, step)
  {
    match step
    case RunRotate(request, _) => y.pending[request].token == h
    case RevokeVictim(_, hash) => hash == h
    case _ => false
  }

  ghost predicate Same(s: Store, t: Store, h: Hash) {
    h in s.rt && h in t.rt && t.rt[h] == s.rt[h]
  }

  lemma RotateKeepsOthers(s: Store, cfg: Config, token: Hash, drawn: Hash, record: Record, h: Hash)
    requires h in s.rt && h != token && h != drawn
    ensures Same(s, Rotate(s, cfg, token, drawn, record).0, h)
  {
  }

  lemma CreateKeepsOthers(s: Store, hash: Hash, record: Record, ttl: nat, h: Hash)
    requires h in s.rt && h != hash
    ensures Same(s, Create(s, hash, record, ttl), h)
  {
  }

  lemma RefreshKeepsOthers(cfg: Config, y: System, step: Step, h: Hash)
    requires Enabled(y, step) && (step.Login? || step.RunRotate? || step.RunRecover?)
    requires h in y.store.rt && h in y.seen && !Ends(y, step, h)
    ensures Same(y.store, Stored(cfg, y, step), h)
  {
    if step.RunRotate? {
      var p := y.pending[step.request];
      RotateKeepsOthers(y.store, cfg, p.token, step.drawn, SeedRecord(p.seed), h);
    } else if step.Login? {
      CreateKeepsOthers(y.store, step.hash, step.record, cfg.refreshTtl, h);
    } else {
      CreateKeepsOthers(y.store, step.drawn, y.pending[step.request].record, cfg.refreshTtl, h);
    }
  }

  lemma ReadKeepsSessions(cfg: Config, y: System, step: Step)
    requires Enabled(y, step) && Reads(step)
    ensures Stored(cfg, y, step).rt == y.store.rt
  {
  }

  lemma RevocationKeepsOthers(cfg: Config, y: System, step: Step, h: Hash)
    requires step.RevokeVictim? && Enabled(y, step) && h in y.store.rt && step.hash != h
    ensures Same(y.store, Stored(cfg, y, step), h)
  {
  }

  lemma PointerStepKeepsSessions(cfg: Config, y: System, step: Step)
    requires Enabled(y, step) && (step.DropGrace? || step.DeletePointer? || step.RemovePointer? || step.PruneIndex?)
    ensures Stored(cfg, y, step).rt == y.store.rt
  {
  }

  lemma GentleKeeps(cfg: Config, y: System, step: Step, request: nat, h: Hash)
    requires Known(y.store, y.seen) && Enabled(y, step) && Gentle(step, request)
    requires h in y.store.rt && !Ends(y, step, h)
    ensures Same(y.store, Apply(cfg, y, step).store, h)
  {
    if step.Login? || step.RunRotate? || step.RunRecover? {
      RefreshKeepsOthers(cfg, y, step, h);
    } else if Reads(step) {
      ReadKeepsSessions(cfg, y, step);
    } else if step.RevokeVictim? {
      RevocationKeepsOthers(cfg, y, step, h);
    } else {
      PointerStepKeepsSessions(cfg, y, step);
    }
  }

  /** What the request still has to revoke was seen, and does not hold this session. */
  predicate Spared(y: System, request: nat, h: Hash) {
    request in y.pending && y.pending[request].Sparing? ==> y.pending[request].victims <= y.seen - {h}
  }

  /** A live session of the lineage that the request is not going to revoke. */
  predicate Survivor(y: System, request: nat, family: Family, h: Hash) {
    h in y.store.rt && y.store.rt[h].value.family == family && Spared(y, request, h)
  }

  lemma VictimsShrink(cfg: Config, y: System, step: Step, request: nat, h: Hash)
    requires Enabled(y, step) && Gentle(step, request) && Spared(y, request, h)
    ensures Spared(Apply(cfg, y, step), request, h)
  {
    if !Moves(step, request) {
      OthersWait(cfg, y, step, request);
    }
  }

  /** A hash that is drawn is not on a list made before. */
  lemma DrawnIsSpared(cfg: Config, y: System, step: Step, request: nat, h: Hash)
    requires step.RunRotate? && Enabled(y, step) && Spared(y, request, h)
    ensures Spared(Apply(cfg, y, step), request, step.drawn)
  {
    if !Moves(step, request) {
      OthersWait(cfg, y, step, request);
    }
  }

  lemma GentleStep(cfg: Config, y: System, step: Step, request: nat, family: Family, h: Hash) returns (heir: Hash)
    requires Inv(cfg, y) && Enabled(y, step) && Gentle(step, request) && Survivor(y, request, family, h)
    ensures Survivor(Apply(cfg, y, step), request, family, heir)
  {
    if step.RunRotate? && y.pending[step.request].token == h {
      heir := step.drawn;
      MintIs(cfg, y, step);
      DrawnIsSpared(cfg, y, step, request, h);
    } else {
      heir := h;
      VictimsShrink(cfg, y, step, request, h);
      NotRevoked(y, step, request, h);
      GentleKeeps(cfg, y, step, request, h);
    }
  }

  lemma NotRevoked(y: System, step: Step, request: nat, h: Hash)
    requires Enabled(y, step) && Gentle(step, request) && Spared(y, request, h)
    requires step.RunRotate? ==> y.pending[step.request].token != h
    ensures !Ends(y, step, h)
  {
  }

  lemma GentleTail(steps: seq<Step>, request: nat)
    requires steps != [] && AllGentle(steps, request)
    ensures Gentle(steps[0], request) && AllGentle(steps[1..], request)
  {
  }

  lemma {:induction false} GentleRun(cfg: Config, y: System, steps: seq<Step>, request: nat, family: Family, h: Hash)
    returns (heir: Hash)
    requires cfg.Valid() && Inv(cfg, y) && Runs(cfg, y, steps) && AllGentle(steps, request)
    requires Survivor(y, request, family, h)
    ensures Survivor(End(cfg, y, steps), request, family, heir)
    decreases |steps|
  {
    if steps == [] {
      heir := h;
    } else {
      GentleTail(steps, request);
      StepKeeps(cfg, y, steps[0]);
      var next := GentleStep(cfg, y, steps[0], request, family, h);
      heir := GentleRun(cfg, Apply(cfg, y, steps[0]), steps[1..], request, family, next);
    }
  }

  // The choice.

  /** Whose session is kept: the presented one, if it is live, or if the index names it and its detail is left. */
  lemma PresentedIsKept(cfg: Config, y: System, request: nat, account: Subject, presented: Hash)
    requires SessionsIndexed(y.store) && request !in y.pending
    ensures var settled := Apply(cfg, y, Settle(request, account, presented));
            && settled.store == y.store
            && (LiveOf(y.store, account, presented)
                || (Live(presented) in Members(y.store.sess, account) && presented in y.store.sd) ==>
                  settled.pending[request] == Chosen(account, presented))
            && (Live(presented) !in Members(y.store.sess, account) ==>
                  settled.pending[request] == Resolving(account, presented, Entries(y.store, account)))
  {
    EntryIff(y.store, account, presented);
    if LiveOf(y.store, account, presented) {
      LiveIsEntry(y.store, account, presented);
    }
  }

  lemma EntryIff(s: Store, account: Subject, h: Hash)
    ensures h in Entries(s, account) <==> Live(h) in Members(s.sess, account) && (h in s.rt || h in s.sd)
  {
    assert Live(h).hash == h;
  }

  /** Otherwise, when nothing runs in between, the successor that the presented token's grace pointer names, which
      carries the record the pointer does; and without such a pointer nothing, and the call ends. */
  lemma SuccessorIsKept(cfg: Config, y: System, request: nat)
    requires SessionsIndexed(y.store) && Consumed(y.store) && request in y.pending && y.pending[request].Resolving?
    requires y.pending[request].entries == Entries(y.store, y.pending[request].account)
    ensures var p, z := y.pending[request], Apply(cfg, y, ReadSuccessor(request));
            && z.store == y.store
            && (p.presented in y.store.rp && LiveOf(y.store, p.account, y.store.rp[p.presented].value.successor) ==>
                  var kept := y.store.rp[p.presented].value.successor;
                  && request in z.pending && z.pending[request] == Chosen(p.account, kept)
                  && y.store.rt[kept].value == y.store.rp[p.presented].value.record)
            && (p.presented !in y.store.rp ==> request !in z.pending)
  {
    var p := y.pending[request];
    if p.presented in y.store.rp && LiveOf(y.store, p.account, y.store.rp[p.presented].value.successor) {
      LiveIsEntry(y.store, p.account, y.store.rp[p.presented].value.successor);
    }
  }

  // From the listing on.

  /** However the call goes on beside gentle steps, the lineage is live once its revocations are done. */
  ghost predicate Survives(cfg: Config, listed: System, request: nat, family: Family) {
    forall steps: seq<Step> |
      Runs(cfg, listed, steps) && AllGentle(steps, request) && Revoked(End(cfg, listed, steps), request) ::
      LiveIn(End(cfg, listed, steps).store, family)
  }

  lemma KeptSurvives(cfg: Config, y: System, request: nat, family: Family, steps: seq<Step>)
    requires cfg.Valid() && Inv(cfg, y) && Enabled(y, Spare(request))
    requires y.pending[request].kept in y.store.rt && y.store.rt[y.pending[request].kept].value.family == family
    requires Runs(cfg, Apply(cfg, y, Spare(request)), steps) && AllGentle(steps, request)
    ensures LiveIn(End(cfg, Apply(cfg, y, Spare(request)), steps).store, family)
  {
    StepKeeps(cfg, y, Spare(request));
    VictimsAreSeen(cfg, y, request);
    var heir := GentleRun(cfg, Apply(cfg, y, Spare(request)), steps, request, family, y.pending[request].kept);
  }

  /** When the session to keep is gone by the time of the listing, the call itself revokes what is left of the
      lineage. */
  lemma OwnRunEnds(cfg: Config, y: System, request: nat, family: Family) returns (steps: seq<Step>)
    requires cfg.Valid() && Inv(cfg, y) && Enabled(y, Spare(request)) && y.pending[request].kept !in y.store.rt
    requires Opened(y.lineages, family) && y.lineages[family].subject == y.pending[request].account
    ensures Runs(cfg, Apply(cfg, y, Spare(request)), steps) && AllGentle(steps, request)
    ensures Revoked(End(cfg, Apply(cfg, y, Spare(request)), steps), request)
    ensures !LiveIn(End(cfg, Apply(cfg, y, Spare(request)), steps).store, family)
  {
    var listed := Apply(cfg, y, Spare(request));
    StepKeeps(cfg, y, Spare(request));
    steps := Drain(cfg, listed, request);
    OwnIsGentle(steps, request);
    SurvivorsAreKeptOrNew(cfg, y, request, steps);
    RunKeeps(cfg, listed, steps);
    RunContinues(cfg, listed, steps);
    NoneOfLineage(y, End(cfg, listed, steps), request, family);
  }

  lemma NoneOfLineage(y: System, z: System, request: nat, family: Family)
    requires Known(y.store, y.seen) && Enabled(y, Spare(request)) && y.pending[request].kept !in y.store.rt
    requires Opened(y.lineages, family) && y.lineages[family].subject == y.pending[request].account
    requires Inherited(z.store, z.lineages) && Within(y.lineages, z.lineages) && z.store.rt.Keys <= y.store.rt.Keys
    requires forall h | LiveOf(z.store, y.pending[request].account, h) :: h == y.pending[request].kept || h !in y.seen
    ensures !LiveIn(z.store, family)
  {
    forall h | h in z.store.rt && z.store.rt[h].value.family == family
      ensures LiveOf(z.store, y.pending[request].account, h)
    {
      assert Descends(z.lineages, z.store.rt[h].value);
    }
  }

  /** Once the sessions are listed, the caller's lineage survives the call exactly when the session that was
      chosen to be kept was still live at that moment. */
  lemma CallerSurvivesIff(cfg: Config, y: System, request: nat, family: Family)
    requires cfg.Valid() && Inv(cfg, y) && Enabled(y, Spare(request))
    requires Opened(y.lineages, family) && y.lineages[family].subject == y.pending[request].account
    requires y.pending[request].kept in y.store.rt ==> y.store.rt[y.pending[request].kept].value.family == family
    ensures Survives(cfg, Apply(cfg, y, Spare(request)), request, family) <==> y.pending[request].kept in y.store.rt
  {
    var listed := Apply(cfg, y, Spare(request));
    if y.pending[request].kept in y.store.rt {
      forall steps: seq<Step> |
        Runs(cfg, listed, steps) && AllGentle(steps, request) && Revoked(End(cfg, listed, steps), request)
        ensures LiveIn(End(cfg, listed, steps).store, family)
      {
        KeptSurvives(cfg, y, request, family, steps);
      }
    } else {
      var steps := OwnRunEnds(cfg, y, request, family);
      assert !LiveIn(End(cfg, listed, steps).store, family);
    }
  }

  // From the choice on.

  /** The run is gentle and leaves the request where it stands. */
  predicate Beside(steps: seq<Step>, request: nat) {
    forall i | 0 <= i < |steps| :: Gentle(steps[i], request) && !Moves(steps[i], request)
  }

  lemma BesideTail(steps: seq<Step>, request: nat)
    requires steps != [] && Beside(steps, request)
    ensures Gentle(steps[0], request) && !Moves(steps[0], request) && Beside(steps[1..], request)
  {
  }

  lemma {:induction false} RequestWaits(cfg: Config, y: System, steps: seq<Step>, request: nat)
    requires Runs(cfg, y, steps) && Beside(steps, request) && request in y.pending
    ensures request in End(cfg, y, steps).pending && End(cfg, y, steps).pending[request] == y.pending[request]
    decreases |steps|
  {
    if steps != [] {
      BesideTail(steps, request);
      OthersWait(cfg, y, steps[0], request);
      RequestWaits(cfg, Apply(cfg, y, steps[0]), steps[1..], request);
    }
  }

  /** Nothing rotates the session away: the cap holds it, and no request is past that check. */
  ghost predicate Held(cfg: Config, y: System, h: Hash) {
    && h in y.store.rt && !MayContinue(cfg, y.store.rt[h].value, y.store.now)
    && (forall r | r in y.pending :: !SeededOn(y.pending[r], h))
  }

  predicate SeededOn(p: Phase, h: Hash) {
    p.Seeded? && p.token == h
  }

  lemma MovedIsNotSeeded(cfg: Config, y: System, step: Step, r: nat, h: Hash)
    requires Enabled(y, step) && Moves(step, r) && r in Apply(cfg, y, step).pending
    requires h in y.store.rt && !MayContinue(cfg, y.store.rt[h].value, y.store.now)
    ensures !SeededOn(Apply(cfg, y, step).pending[r], h)
  {
    if !step.Present? {
      OnlyPresentSeeds(cfg, y, step, r);
    }
  }

  lemma OnlyPresentSeeds(cfg: Config, y: System, step: Step, r: nat)
    requires Enabled(y, step) && Moves(step, r) && r in Apply(cfg, y, step).pending && !step.Present?
    ensures !Apply(cfg, y, step).pending[r].Seeded?
  {
  }

  lemma StepHolds(cfg: Config, y: System, step: Step, request: nat, h: Hash)
    requires Inv(cfg, y) && Enabled(y, step) && Gentle(step, request) && !Moves(step, request) && Held(cfg, y, h)
    ensures Held(cfg, Apply(cfg, y, step), h)
  {
    var z := Apply(cfg, y, step);
    assert step.RunRotate? ==> !SeededOn(y.pending[step.request], h);
    GentleKeeps(cfg, y, step, request, h);
    TimePasses(cfg, y, step);
    CapIsLasting(cfg, y.store.rt[h].value, y.store.now, z.store.now);
    forall r | r in z.pending
      ensures !SeededOn(z.pending[r], h)
    {
      if Moves(step, r) {
        MovedIsNotSeeded(cfg, y, step, r, h);
      } else {
        OthersWait(cfg, y, step, r);
      }
    }
  }

  lemma {:induction false} RunHolds(cfg: Config, y: System, steps: seq<Step>, request: nat, h: Hash)
    requires cfg.Valid() && Inv(cfg, y) && Runs(cfg, y, steps) && Beside(steps, request) && Held(cfg, y, h)
    ensures Held(cfg, End(cfg, y, steps), h)
    decreases |steps|
  {
    if steps != [] {
      BesideTail(steps, request);
      StepKeeps(cfg, y, steps[0]);
      StepHolds(cfg, y, steps[0], request, h);
      RunHolds(cfg, Apply(cfg, y, steps[0]), steps[1..], request, h);
    }
  }

  /** Otherwise it can be rotated away before the sessions are listed. */
  lemma RotateAway(cfg: Config, y: System, request: nat, h: Hash) returns (steps: seq<Step>)
    requires Known(y.store, y.seen) && PhasesOk(y) && h in y.store.rt && !Held(cfg, y, h)
    requires request in y.pending && y.pending[request].Chosen?
    ensures Runs(cfg, y, steps) && Beside(steps, request) && h !in End(cfg, y, steps).store.rt
  {
    var drawn := Unseen(y.seen);
    if MayContinue(cfg, y.store.rt[h].value, y.store.now) {
      var r := Above(y.pending.Keys);
      assert request < r && r !in y.pending;
      RotateOnce(cfg, y, r, h, drawn);
      TokenIsGone(cfg, y.store, h, drawn, y.store.rt[h].value);
      steps := [SessionSystem.Present(r, h), RunRotate(r, drawn)];
    } else {
      var r :| r in y.pending && SeededOn(y.pending[r], h);
      steps := RotateSeededAway(cfg, y, request, r, drawn);
    }
  }

  lemma RotateSeededAway(cfg: Config, y: System, request: nat, r: nat, drawn: Hash) returns (steps: seq<Step>)
    requires Enabled(y, RunRotate(r, drawn)) && y.pending[r].token in y.store.rt && r != request
    ensures Runs(cfg, y, steps) && Beside(steps, request) && y.pending[r].token !in End(cfg, y, steps).store.rt
  {
    RotateIs(cfg, y, r, drawn);
    OneMore(cfg, y, RunRotate(r, drawn), []);
    steps := [RunRotate(r, drawn)] + [];
    TokenIsGone(cfg, y.store, y.pending[r].token, drawn, SeedRecord(y.pending[r].seed));
  }

  lemma TokenIsGone(cfg: Config, s: Store, token: Hash, drawn: Hash, record: Record)
    ensures token !in RotateLive(s, cfg, token, drawn, record).rt
  {
  }

  /** However gentle steps run beside the call before it lists the sessions, its lineage then survives. */
  ghost predicate SurvivesFrom(cfg: Config, y: System, request: nat, family: Family)
    requires Enabled(y, Spare(request))
  {
    forall steps: seq<Step> | Runs(cfg, y, steps) && Beside(steps, request) :: SurvivesAfter(cfg, y, request, family, steps)
  }

  ghost predicate SurvivesAfter(cfg: Config, y: System, request: nat, family: Family, steps: seq<Step>)
    requires Runs(cfg, y, steps)
  {
    Enabled(End(cfg, y, steps), Spare(request)) ==>
      Survives(cfg, Apply(cfg, End(cfg, y, steps), Spare(request)), request, family)
  }

  /** `CallerSurvivesIff` at the state a run beside the call leads to. */
  lemma CallerLater(cfg: Config, y: System, request: nat, family: Family, steps: seq<Step>)
    requires cfg.Valid() && Inv(cfg, y) && Enabled(y, Spare(request)) && Runs(cfg, y, steps) && Beside(steps, request)
    requires y.pending[request].kept in y.store.rt && y.store.rt[y.pending[request].kept].value.family == family
    requires family != ""
    ensures SurvivesAfter(cfg, y, request, family, steps) <==> y.pending[request].kept in End(cfg, y, steps).store.rt
  {
    var kept := y.pending[request].kept;
    var z := End(cfg, y, steps);
    RunKeeps(cfg, y, steps);
    RunContinues(cfg, y, steps);
    RequestWaits(cfg, y, steps, request);
    SameLineage(y, z, request);
    CallerSurvivesIff(cfg, z, request, family);
  }

  lemma SameLineage(y: System, z: System, request: nat)
    requires Inherited(y.store, y.lineages) && Continues(y, z) && PhasesOk(y) && Enabled(y, Spare(request))
    requires y.pending[request].kept in y.store.rt && y.store.rt[y.pending[request].kept].value.family != ""
    ensures var kept := y.pending[request].kept;
            var family := y.store.rt[kept].value.family;
            && Opened(z.lineages, family) && z.lineages[family].subject == y.pending[request].account
            && (kept in z.store.rt ==> z.store.rt[kept].value.family == family)
  {
    assert PhaseOk(y, y.pending[request]);
    assert Descends(y.lineages, y.store.rt[y.pending[request].kept].value);
  }

  /** From the moment the caller's session is chosen to be kept, its lineage survives the call exactly when
      nothing rotates that session before the listing: a rotation in between, which any request that holds the
      token can make while the cap allows it, has the call revoke the caller's own successor. */
  lemma CallerIsSafeIff(cfg: Config, y: System, request: nat)
    requires cfg.Valid() && Inv(cfg, y) && Enabled(y, Spare(request))
    requires y.pending[request].kept in y.store.rt && y.store.rt[y.pending[request].kept].value.family != ""
    ensures var kept := y.pending[request].kept;
            SurvivesFrom(cfg, y, request, y.store.rt[kept].value.family) <==> Held(cfg, y, kept)
  {
    var kept := y.pending[request].kept;
    var family := y.store.rt[kept].value.family;
    if Held(cfg, y, kept) {
      forall steps: seq<Step> | Runs(cfg, y, steps) && Beside(steps, request)
        ensures SurvivesAfter(cfg, y, request, family, steps)
      {
        RunHolds(cfg, y, steps, request, kept);
        CallerLater(cfg, y, request, family, steps);
      }
    } else {
      var steps := RotateAway(cfg, y, request, kept);
      CallerLater(cfg, y, request, family, steps);
      assert !SurvivesAfter(cfg, y, request, family, steps);
    }
  }
}
