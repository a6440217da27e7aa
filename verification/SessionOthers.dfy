/**
 When logging out everywhere else is final, for any part of the account's sessions that the kept one is not
 in, and when it leaves no grace pointer behind. Both are decided by the state the listing finds.
 */
module SessionOthers {
  import opened Prelude
  import opened SessionStore
  import opened SessionSystem
  import opened SessionInvariant
  import opened SessionRevocation
  import opened SessionSparing

  ghost predicate LiveAmong(s: Store, others: iset<Record>, h: Hash) {
    h in s.rt && s.rt[h].value in others
  }

  /** The request stands between spending a grace pointer and `recover_grace`. */
  predicate Claims(p: Phase) {
    p.GraceReplied? || p.LineageAlive? || p.Recovering?
  }

  /** The request goes on to rotate one of these sessions, or to restore one that can be rotated. */
  ghost predicate Rotates(cfg: Config, y: System, p: Phase, others: iset<Record>) {
    || (p.Seeded? && LiveAmong(y.store, others, p.token))
    || (Claims(p) && p.record in others && RecoveryAdmitted(y.store, p.record) && MayContinue(cfg, p.record, y.store.now))
  }

  /** The cap holds every live one of these sessions, and no request goes on to rotate one. */
  ghost predicate Unrotatable(cfg: Config, y: System, others: iset<Record>) {
    && (forall h | LiveAmong(y.store, others, h) :: !MayContinue(cfg, y.store.rt[h].value, y.store.now))
    && (forall r | r in y.pending :: !Rotates(cfg, y, y.pending[r], others))
  }

  /** The request is about to write one of these sessions back. */
  ghost predicate Restores(y: System, p: Phase, others: iset<Record>) {
    p.Recovering? && p.record in others && RecoveryAdmitted(y.store, p.record)
  }

  /** Nothing stores one of these sessions any more: no live one may be rotated, no request is past that check,
      and none is about to be admitted by `recover_grace`. */
  ghost predicate Dormant(cfg: Config, y: System, others: iset<Record>) {
    Unrotatable(cfg, y, others) && forall r | r in y.pending :: !Restores(y, y.pending[r], others)
  }

  ghost predicate BelongTo(others: iset<Record>, account: Subject) {
    forall r | r in others :: r.subject == account
  }

  /** The step signs one of these in. */
  ghost predicate Opens(step: Step, others: iset<Record>) {
    step.Login? && step.record in others
  }

  // What a step stores.

  lemma StoredIs(cfg: Config, y: System, step: Step, h: Hash)
    requires Inv(cfg, y) && Enabled(y, step) && h in Apply(cfg, y, step).store.rt
    ensures || (h in y.store.rt && Apply(cfg, y, step).store.rt[h] == y.store.rt[h])
            || (Mints(y, step) && h in Shown(step) && Apply(cfg, y, step).store.rt[h].value == Minted(y, step))
  {
    if Mints(y, step) {
      MintIs(cfg, y, step);
    } else {
      OtherIsTame(cfg, y, step);
    }
  }

  /** One of these sessions is only stored by restoring one that cannot be rotated. */
  lemma MintRestores(cfg: Config, y: System, step: Step, others: iset<Record>)
    requires Enabled(y, step) && Mints(y, step) && Minted(y, step) in others
    requires Unrotatable(cfg, y, others) && !Opens(step, others)
    ensures step.RunRecover? && !MayContinue(cfg, Minted(y, step), y.store.now)
    ensures Restores(y, y.pending[step.request], others)
  {
    assert step.request in y.pending && !Rotates(cfg, y, y.pending[step.request], others);
  }

  lemma LiveStaysCapped(cfg: Config, y: System, step: Step, others: iset<Record>, h: Hash)
    requires Inv(cfg, y) && Enabled(y, step) && Unrotatable(cfg, y, others) && !Opens(step, others)
    requires LiveAmong(Apply(cfg, y, step).store, others, h)
    ensures !MayContinue(cfg, Apply(cfg, y, step).store.rt[h].value, Apply(cfg, y, step).store.now)
  {
    var z := Apply(cfg, y, step);
    var record := z.store.rt[h].value;
    StoredIs(cfg, y, step, h);
    if h in y.store.rt && z.store.rt[h] == y.store.rt[h] {
      assert LiveAmong(y.store, others, h);
    } else {
      MintRestores(cfg, y, step, others);
    }
    TimePasses(cfg, y, step);
    CapIsLasting(cfg, record, y.store.now, z.store.now);
  }

  // What a request goes on to do.

  lemma AdmittedBefore(cfg: Config, y: System, step: Step, record: Record)
    requires cfg.Valid() && Inv(cfg, y) && Enabled(y, step) && Descends(y.lineages, record)
    requires !RecoveryAdmitted(y.store, record) && (step.Login? ==> step.record.subject != record.subject)
    ensures !RecoveryAdmitted(Apply(cfg, y, step).store, record)
  {
    if record.subject !in y.store.sess {
      StepKeepsAbsent(cfg, y, step, record.subject);
    } else {
      StepKeepsDead(cfg, y, step, record.family);
    }
  }

  /** A request that waits goes on to do no more than it would have. */
  lemma WaitingRotates(cfg: Config, y: System, step: Step, p: Phase, others: iset<Record>, account: Subject)
    requires cfg.Valid() && Inv(cfg, y) && Enabled(y, step) && BelongTo(others, account)
    requires step.Login? ==> step.record.subject != account
    requires PhaseOk(y, p) && !Rotates(cfg, y, p, others)
    ensures !Rotates(cfg, Apply(cfg, y, step), p, others)
  {
    var z := Apply(cfg, y, step);
    if Claims(p) && p.record in others {
      if RecoveryAdmitted(y.store, p.record) {
        TimePasses(cfg, y, step);
        CapIsLasting(cfg, p.record, y.store.now, z.store.now);
      } else {
        AdmittedBefore(cfg, y, step, p.record);
      }
    } else if p.Seeded? {
      StepKeeps(cfg, y, step);
      assert !LiveAmong(y.store, others, p.token);
    }
  }

  /** Presenting a token does not get a request past the cap. */
  lemma PresentedRotates(cfg: Config, y: System, step: Step, others: iset<Record>)
    requires step.Present? && Enabled(y, step) && Unrotatable(cfg, y, others)
    requires step.request in Apply(cfg, y, step).pending
    ensures !Rotates(cfg, Apply(cfg, y, step), Apply(cfg, y, step).pending[step.request], others)
    ensures !Restores(Apply(cfg, y, step), Apply(cfg, y, step).pending[step.request], others)
  {
  }

  /** A spent grace pointer carries the record of a live session. */
  lemma RepliedRotates(cfg: Config, y: System, step: Step, others: iset<Record>)
    requires step.RunRotate? && Enabled(y, step) && Unrotatable(cfg, y, others) && Consumed(y.store)
    requires step.request in Apply(cfg, y, step).pending
    ensures !Rotates(cfg, Apply(cfg, y, step), Apply(cfg, y, step).pending[step.request], others)
    ensures !Restores(Apply(cfg, y, step), Apply(cfg, y, step).pending[step.request], others)
  {
    var token := y.pending[step.request].token;
    if token !in y.store.rt && token in y.store.rp && y.store.rp[token].value.successor in y.store.rt {
      var record := y.store.rp[token].value.record;
      assert record in others ==> LiveAmong(y.store, others, y.store.rp[token].value.successor);
    }
  }

  lemma CheckedRotates(cfg: Config, y: System, step: Step, others: iset<Record>)
    requires (step.CheckLineage? || step.CheckRecovered?) && Enabled(y, step)
    requires !Rotates(cfg, y, y.pending[step.request], others)
    requires step.request in Apply(cfg, y, step).pending
    ensures !Rotates(cfg, Apply(cfg, y, step), Apply(cfg, y, step).pending[step.request], others)
    ensures !Restores(Apply(cfg, y, step), Apply(cfg, y, step).pending[step.request], others)
  {
  }

  /** Every other step leaves the request that it moves with nothing to rotate. */
  lemma RestRotates(cfg: Config, y: System, step: Step, r: nat, others: iset<Record>)
    requires Enabled(y, step) && Moves(step, r) && r in Apply(cfg, y, step).pending
    requires !step.Present? && !step.RunRotate? && !step.CheckLineage? && !step.CheckRecovered?
    ensures !Rotates(cfg, Apply(cfg, y, step), Apply(cfg, y, step).pending[r], others)
    ensures !Restores(Apply(cfg, y, step), Apply(cfg, y, step).pending[r], others)
  {
    var p := Apply(cfg, y, step).pending[r];
    assert !p.Seeded? && !Claims(p);
  }

  lemma MovedRotates(cfg: Config, y: System, step: Step, r: nat, others: iset<Record>)
    requires Inv(cfg, y) && Enabled(y, step) && Unrotatable(cfg, y, others)
    requires Moves(step, r) && r in Apply(cfg, y, step).pending
    ensures !Rotates(cfg, Apply(cfg, y, step), Apply(cfg, y, step).pending[r], others)
    ensures !Restores(Apply(cfg, y, step), Apply(cfg, y, step).pending[r], others)
  {
    if step.Present? {
      PresentedRotates(cfg, y, step, others);
    } else if step.RunRotate? {
      RepliedRotates(cfg, y, step, others);
    } else if step.CheckLineage? || step.CheckRecovered? {
      CheckedRotates(cfg, y, step, others);
    } else {
      RestRotates(cfg, y, step, r, others);
    }
  }

  lemma StepStaysUnrotatable(cfg: Config, y: System, step: Step, others: iset<Record>, account: Subject)
    requires cfg.Valid() && Inv(cfg, y) && Enabled(y, step) && BelongTo(others, account)
    requires step.Login? ==> step.record.subject != account
    requires Unrotatable(cfg, y, others)
    ensures Unrotatable(cfg, Apply(cfg, y, step), others)
  {
    var z := Apply(cfg, y, step);
    forall h | LiveAmong(z.store, others, h)
      ensures !MayContinue(cfg, z.store.rt[h].value, z.store.now)
    {
      LiveStaysCapped(cfg, y, step, others, h);
    }
    forall r | r in z.pending
      ensures !Rotates(cfg, z, z.pending[r], others)
    {
      if Moves(step, r) {
        MovedRotates(cfg, y, step, r, others);
      } else {
        OthersWait(cfg, y, step, r);
        WaitingRotates(cfg, y, step, y.pending[r], others, account);
      }
    }
  }

  lemma StepStaysDormant(cfg: Config, y: System, step: Step, others: iset<Record>, account: Subject)
    requires cfg.Valid() && Inv(cfg, y) && Enabled(y, step) && BelongTo(others, account)
    requires step.Login? ==> step.record.subject != account
    requires Dormant(cfg, y, others)
    ensures Dormant(cfg, Apply(cfg, y, step), others)
  {
    var z := Apply(cfg, y, step);
    StepStaysUnrotatable(cfg, y, step, others, account);
    forall r | r in z.pending
      ensures !Restores(z, z.pending[r], others)
    {
      if Moves(step, r) {
        MovedRotates(cfg, y, step, r, others);
      } else {
        OthersWait(cfg, y, step, r);
        if y.pending[r].Recovering? && y.pending[r].record in others {
          AdmittedBefore(cfg, y, step, y.pending[r].record);
        }
      }
    }
  }

  // Nothing new.

  /** The second state has none of these sessions that the first had not. */
  ghost predicate NoneNew(y: System, z: System, others: iset<Record>) {
    forall h | LiveAmong(z.store, others, h) :: LiveAmong(y.store, others, h)
  }

  lemma StepStoresNone(cfg: Config, y: System, step: Step, others: iset<Record>)
    requires Inv(cfg, y) && Enabled(y, step) && Dormant(cfg, y, others) && !Opens(step, others)
    ensures NoneNew(y, Apply(cfg, y, step), others)
  {
    var z := Apply(cfg, y, step);
    forall h | LiveAmong(z.store, others, h)
      ensures LiveAmong(y.store, others, h)
    {
      StoredIs(cfg, y, step, h);
      if Mints(y, step) && Minted(y, step) in others {
        MintRestores(cfg, y, step, others);
      }
    }
  }

  lemma {:induction false} DormantStoresNone(cfg: Config, y: System, steps: seq<Step>, others: iset<Record>, account: Subject)
    requires cfg.Valid() && Inv(cfg, y) && Runs(cfg, y, steps) && NoSignIn(steps, account)
    requires BelongTo(others, account) && Dormant(cfg, y, others)
    ensures NoneNew(y, End(cfg, y, steps), others)
    decreases |steps|
  {
    if steps != [] {
      NoSignInTail(steps, account);
      StepKeeps(cfg, y, steps[0]);
      StepStaysDormant(cfg, y, steps[0], others, account);
      StepStoresNone(cfg, y, steps[0], others);
      DormantStoresNone(cfg, Apply(cfg, y, steps[0]), steps[1..], others, account);
      NoneNewOn(y, Apply(cfg, y, steps[0]), End(cfg, y, steps), others);
    }
  }

  lemma NoneNewOn(x: System, y: System, z: System, others: iset<Record>)
    requires NoneNew(x, y, others) && NoneNew(y, z, others)
    ensures NoneNew(x, z, others)
  {
  }

  // Runs that store one.

  /** The run signs nobody in. */
  predicate NoLogin(steps: seq<Step>) {
    forall i | 0 <= i < |steps| :: !steps[i].Login?
  }

  lemma NoLoginIn(first: seq<Step>, second: seq<Step>, account: Subject)
    requires NoLogin(first) && NoSignIn(second, account)
    ensures NoSignIn(first + second, account)
  {
  }

  /** One check of a recovery that passes. */
  lemma CheckIs(cfg: Config, y: System, step: Step)
    requires (step.CheckLineage? || step.CheckRecovered?) && Enabled(y, step)
    requires RecoveryAdmitted(y.store, y.pending[step.request].record)
    requires MayContinue(cfg, y.pending[step.request].record, y.store.now)
    ensures var p := y.pending[step.request];
            Apply(cfg, y, step) ==
            y.(pending := y.pending[step.request := if step.CheckLineage? then LineageAlive(p.token, p.record)
                                                    else Recovering(p.token, p.record)])
  {
  }

  lemma RecoverIs(cfg: Config, y: System, request: nat, drawn: Hash)
    requires Enabled(y, RunRecover(request, drawn)) && RecoveryAdmitted(y.store, y.pending[request].record)
    ensures Apply(cfg, y, RunRecover(request, drawn)) == Restored(cfg, y, request, drawn)
  {
  }

  /** Once the request has written its session back. */
  ghost function Restored(cfg: Config, y: System, request: nat, drawn: Hash): System
    requires request in y.pending && Claims(y.pending[request])
  {
    var record := y.pending[request].record;
    System(Create(y.store, drawn, record, cfg.refreshTtl), y.seen + {drawn}, y.lineages,
           y.pending[request := Signing(record.subject)])
  }

  /** A recovery that both `recover_grace` and the cap admit can be run to its end. */
  lemma RestoreNow(cfg: Config, y: System, request: nat, drawn: Hash) returns (steps: seq<Step>)
    requires request in y.pending && Claims(y.pending[request]) && drawn !in y.seen
    requires RecoveryAdmitted(y.store, y.pending[request].record)
    requires y.pending[request].Recovering? || MayContinue(cfg, y.pending[request].record, y.store.now)
    ensures Runs(cfg, y, steps) && NoLogin(steps) && End(cfg, y, steps) == Restored(cfg, y, request, drawn)
    decreases if y.pending[request].GraceReplied? then 2 else if y.pending[request].LineageAlive? then 1 else 0
  {
    if y.pending[request].Recovering? {
      RecoverIs(cfg, y, request, drawn);
      OneMore(cfg, y, RunRecover(request, drawn), []);
      steps := [RunRecover(request, drawn)] + [];
    } else {
      var step := if y.pending[request].GraceReplied? then CheckLineage(request) else CheckRecovered(request);
      CheckIs(cfg, y, step);
      var rest := RestoreNow(cfg, Apply(cfg, y, step), request, drawn);
      OneMore(cfg, y, step, rest);
      steps := [step] + rest;
      RestoredEither(cfg, y, Apply(cfg, y, step), request, drawn);
    }
  }

  lemma RestoredEither(cfg: Config, y: System, z: System, request: nat, drawn: Hash)
    requires request in y.pending && Claims(y.pending[request])
    requires request in z.pending && Claims(z.pending[request]) && z.pending[request].record == y.pending[request].record
    requires z == y.(pending := y.pending[request := z.pending[request]])
    ensures Restored(cfg, y, request, drawn) == Restored(cfg, z, request, drawn)
  {
    var signing := Signing(y.pending[request].record.subject);
    assert z.pending[request := signing] == y.pending[request := signing];
  }

  /** What a rotation of `token` leaves: a new session, and the pointer at the old hash. */
  ghost predicate RotatedInto(cfg: Config, y: System, z: System, token: Hash, drawn: Hash) {
    && token in y.store.rt && drawn in z.store.rt && z.store.rt[drawn].value == y.store.rt[token].value
    && (cfg.graceTtl > 0 ==> token in z.store.rp && z.store.rp[token].value.record == y.store.rt[token].value)
  }

  lemma RotatesLive(cfg: Config, y: System, z: System, token: Hash, drawn: Hash)
    requires token in y.store.rt && token != drawn
    requires z.store == RotateLive(y.store, cfg, token, drawn, y.store.rt[token].value)
    ensures RotatedInto(cfg, y, z, token, drawn)
  {
  }

  /** A live session that the cap allows to continue can be rotated at once. */
  lemma RotateLiveNow(cfg: Config, y: System, token: Hash, drawn: Hash, waiting: nat) returns (steps: seq<Step>)
    requires Known(y.store, y.seen) && token in y.store.rt && drawn !in y.seen && waiting in y.pending
    requires MayContinue(cfg, y.store.rt[token].value, y.store.now)
    ensures Runs(cfg, y, steps) && NoLogin(steps) && RotatedInto(cfg, y, End(cfg, y, steps), token, drawn)
    ensures waiting in End(cfg, y, steps).pending && End(cfg, y, steps).pending[waiting] == y.pending[waiting]
  {
    var request := Above(y.pending.Keys);
    assert request !in y.pending;
    assert waiting < request;
    RotateOnce(cfg, y, request, token, drawn);
    steps := [SessionSystem.Present(request, token), RunRotate(request, drawn)];
    RotatesLive(cfg, y, End(cfg, y, steps), token, drawn);
  }

  /** So can one that a request has already read. */
  lemma RotateSeededNow(cfg: Config, y: System, request: nat, drawn: Hash, waiting: nat) returns (steps: seq<Step>)
    requires Known(y.store, y.seen) && request in y.pending && y.pending[request].Seeded? && PhaseOk(y, y.pending[request])
    requires y.pending[request].token in y.store.rt && drawn !in y.seen && waiting in y.pending && waiting != request
    ensures Runs(cfg, y, steps) && NoLogin(steps)
    ensures RotatedInto(cfg, y, End(cfg, y, steps), y.pending[request].token, drawn)
    ensures waiting in End(cfg, y, steps).pending && End(cfg, y, steps).pending[waiting] == y.pending[waiting]
  {
    RotateIs(cfg, y, request, drawn);
    OneMore(cfg, y, RunRotate(request, drawn), []);
    steps := [RunRotate(request, drawn)] + [];
    RotatesLive(cfg, y, End(cfg, y, steps), y.pending[request].token, drawn);
  }

  /** The request is revoking or deleting what it listed; it rotates and restores nothing. */
  predicate Clearing(p: Phase) {
    p.Sparing? || p.Sweeping?
  }

  /** A request that rotates or restores one of these sessions can do so at once. */
  lemma ReviveBy(cfg: Config, y: System, r: nat, others: iset<Record>, drawn: Hash, waiting: nat) returns (steps: seq<Step>)
    requires Known(y.store, y.seen) && PhasesOk(y) && r in y.pending && drawn !in y.seen
    requires Rotates(cfg, y, y.pending[r], others) || Restores(y, y.pending[r], others)
    requires waiting in y.pending && waiting != r
    ensures Runs(cfg, y, steps) && NoLogin(steps) && LiveAmong(End(cfg, y, steps).store, others, drawn)
    ensures waiting in End(cfg, y, steps).pending && End(cfg, y, steps).pending[waiting] == y.pending[waiting]
  {
    if y.pending[r].Seeded? {
      steps := RotateSeededNow(cfg, y, r, drawn, waiting);
    } else {
      steps := RestoreNow(cfg, y, r, drawn);
    }
  }

  /** Unless they are dormant, one of these sessions can be stored before the request takes its next step. */
  lemma Revive(cfg: Config, y: System, others: iset<Record>, waiting: nat) returns (steps: seq<Step>, drawn: Hash)
    requires Known(y.store, y.seen) && PhasesOk(y) && !Dormant(cfg, y, others)
    requires waiting in y.pending && Clearing(y.pending[waiting])
    ensures Runs(cfg, y, steps) && NoLogin(steps) && drawn !in y.seen && LiveAmong(End(cfg, y, steps).store, others, drawn)
    ensures waiting in End(cfg, y, steps).pending && End(cfg, y, steps).pending[waiting] == y.pending[waiting]
  {
    drawn := Unseen(y.seen);
    if token :| LiveAmong(y.store, others, token) && MayContinue(cfg, y.store.rt[token].value, y.store.now) {
      steps := RotateLiveNow(cfg, y, token, drawn, waiting);
    } else {
      var r :| r in y.pending && (Rotates(cfg, y, y.pending[r], others) || Restores(y, y.pending[r], others));
      steps := ReviveBy(cfg, y, r, others, drawn, waiting);
    }
  }

  // Logging out everywhere else.

  ghost predicate NoneLive(s: Store, others: iset<Record>) {
    forall h :: !LiveAmong(s, others, h)
  }

  /** However the call goes on, and whatever runs beside it, none of these sessions is live once its revocations
      are done, as long as the account does not sign in. */
  ghost predicate Final(cfg: Config, listed: System, request: nat, account: Subject, others: iset<Record>) {
    forall steps: seq<Step> |
      Runs(cfg, listed, steps) && NoSignIn(steps, account) && Revoked(End(cfg, listed, steps), request) ::
      NoneLive(End(cfg, listed, steps).store, others)
  }

  /** Listing the sessions changes nothing about the others. */
  lemma ListingLeaves(cfg: Config, y: System, request: nat, others: iset<Record>)
    requires Enabled(y, Spare(request)) && Dormant(cfg, Apply(cfg, y, Spare(request)), others)
    ensures Dormant(cfg, y, others)
  {
    var listed := Apply(cfg, y, Spare(request));
    forall r | r in y.pending
      ensures !Rotates(cfg, y, y.pending[r], others) && !Restores(y, y.pending[r], others)
    {
      assert r == request || (r in listed.pending && listed.pending[r] == y.pending[r]);
    }
    assert forall h :: LiveAmong(y.store, others, h) <==> LiveAmong(listed.store, others, h);
  }

  lemma DormantIsFinal(cfg: Config, y: System, request: nat, others: iset<Record>, steps: seq<Step>)
    requires cfg.Valid() && Inv(cfg, y) && Enabled(y, Spare(request))
    requires BelongTo(others, y.pending[request].account) && Dormant(cfg, y, others)
    requires !LiveAmong(y.store, others, y.pending[request].kept)
    requires Runs(cfg, Apply(cfg, y, Spare(request)), steps) && NoSignIn(steps, y.pending[request].account)
    requires Revoked(End(cfg, Apply(cfg, y, Spare(request)), steps), request)
    ensures NoneLive(End(cfg, Apply(cfg, y, Spare(request)), steps).store, others)
  {
    var account := y.pending[request].account;
    var listed := Apply(cfg, y, Spare(request));
    var z := End(cfg, listed, steps);
    StepKeeps(cfg, y, Spare(request));
    StepStaysDormant(cfg, y, Spare(request), others, account);
    DormantStoresNone(cfg, listed, steps, others, account);
    SurvivorsAreKeptOrNew(cfg, y, request, steps);
    forall h
      ensures !LiveAmong(z.store, others, h)
    {
      KeptOrNone(y, z, request, others, h);
    }
  }

  lemma KeptOrNone(y: System, z: System, request: nat, others: iset<Record>, h: Hash)
    requires Known(y.store, y.seen) && Enabled(y, Spare(request)) && BelongTo(others, y.pending[request].account)
    requires !LiveAmong(y.store, others, y.pending[request].kept)
    requires LiveAmong(z.store, others, h) ==> LiveAmong(y.store, others, h)
    requires LiveOf(z.store, y.pending[request].account, h) ==> h == y.pending[request].kept || h !in y.seen
    ensures !LiveAmong(z.store, others, h)
  {
  }

  /** A run that stores one of these sessions again and then finishes the revocations. */
  lemma RevivedRun(cfg: Config, y: System, request: nat, others: iset<Record>) returns (steps: seq<Step>, drawn: Hash)
    requires cfg.Valid() && Inv(cfg, y) && Enabled(y, Spare(request)) && !Dormant(cfg, y, others)
    ensures Runs(cfg, Apply(cfg, y, Spare(request)), steps) && NoSignIn(steps, y.pending[request].account)
    ensures Revoked(End(cfg, Apply(cfg, y, Spare(request)), steps), request)
    ensures LiveAmong(End(cfg, Apply(cfg, y, Spare(request)), steps).store, others, drawn)
  {
    var listed := Apply(cfg, y, Spare(request));
    StepKeeps(cfg, y, Spare(request));
    VictimsAreSeen(cfg, y, request);
    if Dormant(cfg, listed, others) {
      ListingLeaves(cfg, y, request, others);
    }
    var first;
    first, drawn := Revive(cfg, listed, others, request);
    var rest := Drain(cfg, End(cfg, listed, first), request);
    RunsConcat(cfg, listed, first, rest);
    NobodySignsIn(rest, request, y.pending[request].account);
    NoLoginIn(first, rest, y.pending[request].account);
    steps := first + rest;
  }

  /** Logging out everywhere else is final for any of the account's other sessions exactly when the listing finds
      them dormant. */
  lemma SpareIsFinalIff(cfg: Config, y: System, request: nat, others: iset<Record>)
    requires cfg.Valid() && Inv(cfg, y) && Enabled(y, Spare(request))
    requires BelongTo(others, y.pending[request].account)
    requires !LiveAmong(y.store, others, y.pending[request].kept)
    ensures Final(cfg, Apply(cfg, y, Spare(request)), request, y.pending[request].account, others)
            <==> Dormant(cfg, y, others)
  {
    var account := y.pending[request].account;
    var listed := Apply(cfg, y, Spare(request));
    if Dormant(cfg, y, others) {
      forall steps: seq<Step> |
        Runs(cfg, listed, steps) && NoSignIn(steps, account) && Revoked(End(cfg, listed, steps), request)
        ensures NoneLive(End(cfg, listed, steps).store, others)
      {
        DormantIsFinal(cfg, y, request, others, steps);
      }
    } else {
      var steps, drawn := RevivedRun(cfg, y, request, others);
      assert !NoneLive(End(cfg, listed, steps).store, others);
    }
  }

  // What is left beside the kept session.

  /** The session a step stores, if it belongs to the account. */
  ghost function StoredBy(y: System, step: Step, account: Subject): set<Hash>
    requires Enabled(y, step)
  {
    if Mints(y, step) && Minted(y, step).subject == account then Shown(step) else {}
  }

  /** The sessions a run stores for the account. */
  ghost function StoredAlong(cfg: Config, y: System, steps: seq<Step>, account: Subject): set<Hash>
    requires Runs(cfg, y, steps)
    decreases |steps|
  {
    if steps == [] then {}
    else StoredBy(y, steps[0], account) + StoredAlong(cfg, Apply(cfg, y, steps[0]), steps[1..], account)
  }

  lemma StoredByIsLive(cfg: Config, y: System, step: Step, account: Subject, h: Hash)
    requires PhasesOk(y) && Enabled(y, step) && h in StoredBy(y, step, account)
    ensures LiveOf(Apply(cfg, y, step).store, account, h) && h in Apply(cfg, y, step).seen && h !in y.seen
  {
    MintIs(cfg, y, step);
  }

  lemma {:induction false} StoredIsNew(cfg: Config, y: System, steps: seq<Step>, account: Subject, h: Hash)
    requires cfg.Valid() && Inv(cfg, y) && Runs(cfg, y, steps)
    requires h in StoredAlong(cfg, y, steps, account) && h in End(cfg, y, steps).store.rt
    ensures LiveOf(End(cfg, y, steps).store, account, h) && h !in y.seen
    decreases |steps|
  {
    StepKeeps(cfg, y, steps[0]);
    if h in StoredBy(y, steps[0], account) {
      StoredByIsLive(cfg, y, steps[0], account, h);
      RunContinues(cfg, Apply(cfg, y, steps[0]), steps[1..]);
    } else {
      StoredIsNew(cfg, Apply(cfg, y, steps[0]), steps[1..], account, h);
    }
  }

  lemma {:induction false} NewIsStored(cfg: Config, y: System, steps: seq<Step>, account: Subject, h: Hash)
    requires cfg.Valid() && Inv(cfg, y) && Runs(cfg, y, steps)
    requires !LiveOf(y.store, account, h) && LiveOf(End(cfg, y, steps).store, account, h)
    ensures h in StoredAlong(cfg, y, steps, account)
    decreases |steps|
  {
    if LiveOf(Apply(cfg, y, steps[0]).store, account, h) {
      StoredIs(cfg, y, steps[0], h);
    } else {
      StepKeeps(cfg, y, steps[0]);
      NewIsStored(cfg, Apply(cfg, y, steps[0]), steps[1..], account, h);
    }
  }

  /** Only the kept session is left exactly when every session the run stored for the account, by a sign-in, a
      rotation or a recovery, is gone again. */
  lemma OnlyKeptIff(cfg: Config, y: System, request: nat, steps: seq<Step>)
    requires cfg.Valid() && Inv(cfg, y) && Enabled(y, Spare(request))
    requires Runs(cfg, Apply(cfg, y, Spare(request)), steps)
    requires Revoked(End(cfg, Apply(cfg, y, Spare(request)), steps), request)
    ensures var listed := Apply(cfg, y, Spare(request));
            var z := End(cfg, listed, steps);
            (forall h | LiveOf(z.store, y.pending[request].account, h) :: h == y.pending[request].kept) <==>
              (forall h | h in StoredAlong(cfg, listed, steps, y.pending[request].account) :: h !in z.store.rt)
  {
    var account := y.pending[request].account;
    var kept := y.pending[request].kept;
    var listed := Apply(cfg, y, Spare(request));
    var z := End(cfg, listed, steps);
    StepKeeps(cfg, y, Spare(request));
    SurvivorsAreKeptOrNew(cfg, y, request, steps);
    ListedIsKnown(cfg, y, request);
    forall h | h in StoredAlong(cfg, listed, steps, account) && h in z.store.rt
      ensures LiveOf(z.store, account, h) && h != kept
    {
      StoredIsNew(cfg, listed, steps, account, h);
    }
    forall h | LiveOf(z.store, account, h) && h != kept
      ensures h in StoredAlong(cfg, listed, steps, account)
    {
      NewIsStored(cfg, listed, steps, account, h);
    }
  }

  lemma ListedIsKnown(cfg: Config, y: System, request: nat)
    requires Known(y.store, y.seen) && PhasesOk(y) && Enabled(y, Spare(request))
    ensures var listed := Apply(cfg, y, Spare(request));
            listed.seen == y.seen && y.pending[request].kept in y.seen && listed.store.rt.Keys <= y.seen
  {
    assert PhaseOk(y, y.pending[request]);
  }

  // One lineage.

  /** The request is past reading a live session of the lineage. */
  ghost predicate SeededIn(y: System, p: Phase, family: Family) {
    p.Seeded? && p.token in y.store.rt && y.store.rt[p.token].value.family == family
  }

  /** No live session of the lineage that may be rotated, no request past that check, none that `recover_grace`
      is going to admit. */
  ghost predicate LineageDormant(cfg: Config, y: System, family: Family)
    requires Opened(y.lineages, family)
  {
    && (LiveIn(y.store, family) ==> !MayContinue(cfg, y.lineages[family], y.store.now))
    && (forall r | r in y.pending :: !SeededIn(y, y.pending[r], family))
    && (forall r | r in y.pending && Resumable(cfg, y, y.pending[r], family) ::
          !RecoveryAdmitted(y.store, y.pending[r].record))
  }

  /** The records of the lineage. */
  ghost function Lineage(lineages: map<Family, Record>, family: Family): iset<Record>
    requires Opened(lineages, family)
  {
    iset r: Record | r.family == family && r.subject == lineages[family].subject
  }

  lemma LineageAmong(y: System, family: Family, h: Hash)
    requires Inherited(y.store, y.lineages) && Opened(y.lineages, family)
    ensures LiveAmong(y.store, Lineage(y.lineages, family), h) <==> h in y.store.rt && y.store.rt[h].value.family == family
  {
  }

  lemma PhaseAmong(cfg: Config, y: System, family: Family, p: Phase)
    requires Inherited(y.store, y.lineages) && Opened(y.lineages, family) && PhaseOk(y, p)
    ensures var others := Lineage(y.lineages, family);
            Rotates(cfg, y, p, others) || Restores(y, p, others) <==>
            SeededIn(y, p, family) || (Resumable(cfg, y, p, family) && RecoveryAdmitted(y.store, p.record))
  {
  }

  lemma DormantLineage(cfg: Config, y: System, family: Family)
    requires Inv(cfg, y) && Opened(y.lineages, family)
    ensures LineageDormant(cfg, y, family) <==> Dormant(cfg, y, Lineage(y.lineages, family))
  {
    var others := Lineage(y.lineages, family);
    forall h
      ensures LiveAmong(y.store, others, h) <==> h in y.store.rt && y.store.rt[h].value.family == family
    {
      LineageAmong(y, family, h);
    }
    forall r | r in y.pending
      ensures Rotates(cfg, y, y.pending[r], others) || Restores(y, y.pending[r], others) <==>
              SeededIn(y, y.pending[r], family)
              || (Resumable(cfg, y, y.pending[r], family) && RecoveryAdmitted(y.store, y.pending[r].record))
    {
      PhaseAmong(cfg, y, family, y.pending[r]);
    }
    assert LiveIn(y.store, family) <==> exists h :: LiveAmong(y.store, others, h);
  }

  lemma LineageLive(cfg: Config, y: System, steps: seq<Step>, family: Family)
    requires cfg.Valid() && Inv(cfg, y) && Opened(y.lineages, family) && Runs(cfg, y, steps)
    ensures NoneLive(End(cfg, y, steps).store, Lineage(y.lineages, family)) <==> !LiveIn(End(cfg, y, steps).store, family)
  {
    var z := End(cfg, y, steps);
    RunKeeps(cfg, y, steps);
    RunContinues(cfg, y, steps);
    forall h
      ensures LiveAmong(z.store, Lineage(y.lineages, family), h) <==> h in z.store.rt && z.store.rt[h].value.family == family
    {
      LineageAmong(z, family, h);
    }
  }

  /** `Final`, for one lineage. */
  ghost predicate LineageFinal(cfg: Config, listed: System, request: nat, account: Subject, family: Family) {
    forall steps: seq<Step> |
      Runs(cfg, listed, steps) && NoSignIn(steps, account) && Revoked(End(cfg, listed, steps), request) ::
      !LiveIn(End(cfg, listed, steps).store, family)
  }

  lemma FinalLineage(cfg: Config, listed: System, request: nat, account: Subject, family: Family)
    requires cfg.Valid() && Inv(cfg, listed) && Opened(listed.lineages, family)
    ensures LineageFinal(cfg, listed, request, account, family)
            <==> Final(cfg, listed, request, account, Lineage(listed.lineages, family))
  {
    forall steps: seq<Step> | Runs(cfg, listed, steps)
      ensures NoneLive(End(cfg, listed, steps).store, Lineage(listed.lineages, family))
              <==> !LiveIn(End(cfg, listed, steps).store, family)
    {
      LineageLive(cfg, listed, steps, family);
    }
  }

  /** Logging out everywhere else ends another lineage of the account, until the account signs in again, exactly
      when the listing finds it dormant. */
  lemma OtherLineageIsOverIff(cfg: Config, y: System, request: nat, family: Family)
    requires cfg.Valid() && Inv(cfg, y) && Enabled(y, Spare(request))
    requires Opened(y.lineages, family) && y.lineages[family].subject == y.pending[request].account
    requires y.pending[request].kept in y.store.rt ==> y.store.rt[y.pending[request].kept].value.family != family
    ensures var listed := Apply(cfg, y, Spare(request));
            LineageFinal(cfg, listed, request, y.pending[request].account, family) <==> LineageDormant(cfg, y, family)
  {
    var listed := Apply(cfg, y, Spare(request));
    var account := y.pending[request].account;
    var others := Lineage(y.lineages, family);
    StepKeeps(cfg, y, Spare(request));
    LineageAmong(y, family, y.pending[request].kept);
    SpareIsFinalIff(cfg, y, request, others);
    DormantLineage(cfg, y, family);
    FinalLineage(cfg, listed, request, account, family);
  }

  // The grace pointers.

  ghost predicate PointsAmong(s: Store, others: iset<Record>, h: Hash) {
    h in s.rp && s.rp[h].value.record in others
  }

  /** The second state has no grace pointer to these that the first had not. */
  ghost predicate NonePointed(y: System, z: System, others: iset<Record>) {
    forall h | PointsAmong(z.store, others, h) :: PointsAmong(y.store, others, h)
  }

  lemma StepPointsNone(cfg: Config, y: System, step: Step, others: iset<Record>)
    requires Inv(cfg, y) && Enabled(y, step) && (cfg.graceTtl == 0 || Unrotatable(cfg, y, others))
    ensures NonePointed(y, Apply(cfg, y, step), others)
  {
    if !Mints(y, step) {
      OtherIsTame(cfg, y, step);
      TamePointsNone(y, Apply(cfg, y, step), others);
    } else {
      MintIs(cfg, y, step);
      if step.RunRotate? {
        assert cfg.graceTtl > 0 ==> !Rotates(cfg, y, y.pending[step.request], others);
        RotatePointsNone(cfg, y.store, y.pending[step.request].token, step.drawn, others);
      }
    }
  }

  lemma TamePointsNone(y: System, z: System, others: iset<Record>)
    requires Tame(y, z)
    ensures NonePointed(y, z, others)
  {
  }

  lemma RotatePointsNone(cfg: Config, s: Store, token: Hash, drawn: Hash, others: iset<Record>)
    requires token in s.rt && (cfg.graceTtl == 0 || !LiveAmong(s, others, token))
    ensures forall h | PointsAmong(RotateLive(s, cfg, token, drawn, s.rt[token].value), others, h) :: PointsAmong(s, others, h)
  {
  }

  lemma NonePointedOn(x: System, y: System, z: System, others: iset<Record>)
    requires NonePointed(x, y, others) && NonePointed(y, z, others)
    ensures NonePointed(x, z, others)
  {
  }

  lemma {:induction false} RunPointsNone(cfg: Config, y: System, steps: seq<Step>, others: iset<Record>, account: Subject)
    requires cfg.Valid() && Inv(cfg, y) && Runs(cfg, y, steps) && NoSignIn(steps, account) && BelongTo(others, account)
    requires cfg.graceTtl == 0 || Unrotatable(cfg, y, others)
    ensures NonePointed(y, End(cfg, y, steps), others)
    decreases |steps|
  {
    if steps != [] {
      NoSignInTail(steps, account);
      StepKeeps(cfg, y, steps[0]);
      StepPointsNone(cfg, y, steps[0], others);
      if cfg.graceTtl > 0 {
        StepStaysUnrotatable(cfg, y, steps[0], others, account);
      }
      RunPointsNone(cfg, Apply(cfg, y, steps[0]), steps[1..], others, account);
      NonePointedOn(y, Apply(cfg, y, steps[0]), End(cfg, y, steps), others);
    }
  }

  /** All the records an account's sessions can hold. */
  ghost function Everything(account: Subject): iset<Record> {
    iset r: Record | r.subject == account
  }

  /** However the call goes on to its end, it leaves the account without a grace pointer, as long as the account
      does not sign in. */
  ghost predicate LeavesNoPointer(cfg: Config, listed: System, request: nat, account: Subject) {
    forall steps: seq<Step> |
      Runs(cfg, listed, steps) && NoSignIn(steps, account) && Enabled(End(cfg, listed, steps), Finish(request)) ::
      NonePoints(End(cfg, listed, steps).store, account)
  }

  ghost predicate NonePoints(s: Store, account: Subject) {
    forall h :: !PointsAmong(s, Everything(account), h)
  }

  lemma UnrotatableLeavesNone(cfg: Config, y: System, request: nat, steps: seq<Step>)
    requires cfg.Valid() && Inv(cfg, y) && Enabled(y, ListPointers(request))
    requires cfg.graceTtl == 0 || Unrotatable(cfg, y, Everything(y.pending[request].account))
    requires Runs(cfg, Apply(cfg, y, ListPointers(request)), steps) && NoSignIn(steps, y.pending[request].account)
    requires Enabled(End(cfg, Apply(cfg, y, ListPointers(request)), steps), Finish(request))
    ensures NonePoints(End(cfg, Apply(cfg, y, ListPointers(request)), steps).store, y.pending[request].account)
  {
    var account := y.pending[request].account;
    var listed := Apply(cfg, y, ListPointers(request));
    StepKeeps(cfg, y, ListPointers(request));
    if cfg.graceTtl > 0 {
      StepStaysUnrotatable(cfg, y, ListPointers(request), Everything(account), account);
    }
    RunPointsNone(cfg, listed, steps, Everything(account), account);
    SurvivingPointers(cfg, y, request, steps);
    PointersAreSpent(y, account);
  }

  lemma PointersAreSpent(y: System, account: Subject)
    requires Known(y.store, y.seen) && Consumed(y.store)
    ensures forall h | PointsAmong(y.store, Everything(account), h) :: Spent(y, h)
  {
  }

  /** Unless they are unrotatable, one of these sessions can be rotated before the request takes its next step. */
  lemma PointAt(cfg: Config, y: System, others: iset<Record>, waiting: nat) returns (steps: seq<Step>, h: Hash)
    requires Known(y.store, y.seen) && PhasesOk(y) && cfg.graceTtl > 0 && !Unrotatable(cfg, y, others)
    requires waiting in y.pending && Clearing(y.pending[waiting])
    ensures Runs(cfg, y, steps) && NoLogin(steps) && PointsAmong(End(cfg, y, steps).store, others, h) && !Spent(y, h)
    ensures waiting in End(cfg, y, steps).pending && End(cfg, y, steps).pending[waiting] == y.pending[waiting]
  {
    var drawn := Unseen(y.seen);
    if token :| LiveAmong(y.store, others, token) && MayContinue(cfg, y.store.rt[token].value, y.store.now) {
      steps := RotateLiveNow(cfg, y, token, drawn, waiting);
      h := token;
    } else {
      var r :| r in y.pending && Rotates(cfg, y, y.pending[r], others);
      steps, h := PointBy(cfg, y, r, others, drawn, waiting);
    }
  }

  lemma PointBy(cfg: Config, y: System, r: nat, others: iset<Record>, drawn: Hash, waiting: nat)
    returns (steps: seq<Step>, h: Hash)
    requires Known(y.store, y.seen) && PhasesOk(y) && cfg.graceTtl > 0
    requires r in y.pending && Rotates(cfg, y, y.pending[r], others) && drawn !in y.seen
    requires waiting in y.pending && waiting != r
    ensures Runs(cfg, y, steps) && NoLogin(steps) && PointsAmong(End(cfg, y, steps).store, others, h) && !Spent(y, h)
    ensures waiting in End(cfg, y, steps).pending && End(cfg, y, steps).pending[waiting] == y.pending[waiting]
  {
    if y.pending[r].Seeded? {
      steps := RotateSeededNow(cfg, y, r, drawn, waiting);
      h := y.pending[r].token;
    } else {
      steps := RestoreThenRotate(cfg, y, r, drawn, waiting);
      h := drawn;
    }
  }

  lemma RestoredIsLive(cfg: Config, y: System, request: nat, drawn: Hash)
    requires request in y.pending && Claims(y.pending[request]) && Known(y.store, y.seen)
    ensures var z := Restored(cfg, y, request, drawn);
            && Known(z.store, z.seen) && z.store.now == y.store.now
            && drawn in z.store.rt && z.store.rt[drawn].value == y.pending[request].record
  {
    CreateKnown(cfg, y.store, y.seen, drawn, y.pending[request].record);
  }

  /** A restored session that may continue can be rotated at once. */
  lemma RestoreThenRotate(cfg: Config, y: System, r: nat, drawn: Hash, waiting: nat) returns (steps: seq<Step>)
    requires Known(y.store, y.seen) && cfg.graceTtl > 0
    requires r in y.pending && Claims(y.pending[r]) && drawn !in y.seen
    requires RecoveryAdmitted(y.store, y.pending[r].record) && MayContinue(cfg, y.pending[r].record, y.store.now)
    requires waiting in y.pending && waiting != r
    ensures Runs(cfg, y, steps) && NoLogin(steps)
    ensures var z := End(cfg, y, steps);
            && drawn in z.store.rp && z.store.rp[drawn].value.record == y.pending[r].record
            && waiting in z.pending && z.pending[waiting] == y.pending[waiting]
  {
    var first := RestoreNow(cfg, y, r, drawn);
    RestoredIsLive(cfg, y, r, drawn);
    var next := Unseen(End(cfg, y, first).seen);
    var rest := RotateLiveNow(cfg, End(cfg, y, first), drawn, next, waiting);
    RunsConcat(cfg, y, first, rest);
    steps := first + rest;
  }

  /** A run that rotates one of the account's sessions and then deletes the pointers that were listed. */
  lemma PointedRun(cfg: Config, y: System, request: nat, account: Subject) returns (steps: seq<Step>, h: Hash)
    requires Known(y.store, y.seen) && PhasesOk(y) && request in y.pending && y.pending[request].Sweeping?
    requires cfg.graceTtl > 0 && !Unrotatable(cfg, y, Everything(account))
    ensures Runs(cfg, y, steps) && NoSignIn(steps, account) && Enabled(End(cfg, y, steps), Finish(request))
    ensures PointsAmong(End(cfg, y, steps).store, Everything(account), h)
  {
    var first;
    first, h := PointAt(cfg, y, Everything(account), request);
    ListedIsSpent(y, request, h);
    var rest := DrainPointers(cfg, End(cfg, y, first), request);
    RunsConcat(cfg, y, first, rest);
    NobodySignsIn(rest, request, account);
    NoLoginIn(first, rest, account);
    steps := first + rest;
    StillPoints(End(cfg, y, first).store, End(cfg, y, steps).store, y.pending[request].pointers, Everything(account), h);
  }

  lemma ListedIsSpent(y: System, request: nat, h: Hash)
    requires PhasesOk(y) && request in y.pending && y.pending[request].Sweeping? && !Spent(y, h)
    ensures h !in y.pending[request].pointers
  {
    assert PhaseOk(y, y.pending[request]);
  }

  lemma StillPoints(s: Store, t: Store, gone: set<Hash>, others: iset<Record>, h: Hash)
    requires PointersStay(s, t, gone) && PointsAmong(s, others, h) && h !in gone
    ensures PointsAmong(t, others, h)
  {
  }

  lemma PointerListingLeaves(cfg: Config, y: System, request: nat, others: iset<Record>)
    requires Enabled(y, ListPointers(request)) && Unrotatable(cfg, Apply(cfg, y, ListPointers(request)), others)
    ensures Unrotatable(cfg, y, others)
  {
    var listed := Apply(cfg, y, ListPointers(request));
    forall r | r in y.pending
      ensures !Rotates(cfg, y, y.pending[r], others)
    {
      assert r == request || (r in listed.pending && listed.pending[r] == y.pending[r]);
    }
    assert forall h :: LiveAmong(y.store, others, h) <==> LiveAmong(listed.store, others, h);
  }

  /** Logging out everywhere else leaves the account without a grace pointer exactly when there is no grace window,
      or the listing of the pointers finds no session of the account, the kept one included, that may still be
      rotated. */
  lemma PointersAreGoneIff(cfg: Config, y: System, request: nat)
    requires cfg.Valid() && Inv(cfg, y) && Enabled(y, ListPointers(request))
    ensures var account := y.pending[request].account;
            LeavesNoPointer(cfg, Apply(cfg, y, ListPointers(request)), request, account)
            <==> cfg.graceTtl == 0 || Unrotatable(cfg, y, Everything(account))
  {
    var account := y.pending[request].account;
    var listed := Apply(cfg, y, ListPointers(request));
    if cfg.graceTtl == 0 || Unrotatable(cfg, y, Everything(account)) {
      forall steps: seq<Step> |
        Runs(cfg, listed, steps) && NoSignIn(steps, account) && Enabled(End(cfg, listed, steps), Finish(request))
        ensures NonePoints(End(cfg, listed, steps).store, account)
      {
        UnrotatableLeavesNone(cfg, y, request, steps);
      }
    } else {
      if Unrotatable(cfg, listed, Everything(account)) {
        PointerListingLeaves(cfg, y, request, Everything(account));
      }
      StepKeeps(cfg, y, ListPointers(request));
      var steps, h := PointedRun(cfg, listed, request, account);
      assert !NonePoints(End(cfg, listed, steps).store, account);
    }
  }
}
