/**
 Token epochs: when an access token is still accepted after the account's epoch was advanced, over every
 interleaving of refreshes, sweeps and the clock.
 */
module SessionEpochs {
  import opened Prelude
  import opened SessionStore
  import opened SessionSystem
  import opened SessionInvariant
  import opened SessionRevocation

  /** What the epoch check looks at in an access token. */
  datatype Access = Access(account: Subject, epoch: nat, expiry: nat)

  /** The token `ReadEpoch` ends in: it carries the epoch the account stands at in that instant. */
  function Signed(cfg: Config, s: Store, account: Subject): Access {
    Access(account, Epoch(s, account), s.now + cfg.accessTtl)
  }

  /** `verify_access`, past the signature and the blacklist. */
  predicate Accepted(s: Store, token: Access) {
    s.now < token.expiry && Epoch(s, token.account) <= token.epoch
  }

  /** The step advances the account's epoch. */
  ghost predicate Advances(y: System, step: Step, account: Subject)
    requires Enabled(y, step)
  {
    (step.Bump? && step.account == account) || (step.Finish? && y.pending[step.request].account == account)
  }

  /** How often a run advances it. */
  ghost function Bumps(cfg: Config, y: System, steps: seq<Step>, account: Subject): nat
    requires Runs(cfg, y, steps)
    decreases |steps|
  {
    if steps == [] then 0
    else (if Advances(y, steps[0], account) then 1 else 0) + Bumps(cfg, Apply(cfg, y, steps[0]), steps[1..], account)
  }

  /** The state in which a run first advances it, or the last one. */
  ghost function FirstBump(cfg: Config, y: System, steps: seq<Step>, account: Subject): System
    requires Runs(cfg, y, steps)
    decreases |steps|
  {
    if steps == [] || Advances(y, steps[0], account) then y
    else FirstBump(cfg, Apply(cfg, y, steps[0]), steps[1..], account)
  }

  /** No counter outlives its retention. */
  ghost predicate EpochsCurrent(s: Store) {
    forall a | a in s.ep :: s.now < s.ep[a].expiry
  }

  // One step.

  lemma EpochsStand(cfg: Config, y: System, step: Step)
    requires Enabled(y, step) && !step.Bump? && !step.Finish? && !step.Tick?
    ensures Stored(cfg, y, step).ep == y.store.ep && Stored(cfg, y, step).now == y.store.now
  {
    StepLeaves(cfg, y, step);
  }

  /** What a step makes of one account's counter. */
  lemma EpochStep(cfg: Config, y: System, step: Step, account: Subject)
    requires Enabled(y, step)
    ensures var s, t := y.store, Apply(cfg, y, step).store;
            && s.now <= t.now
            && (Advances(y, step, account) ==>
                  t.now == s.now && account in t.ep
                  && t.ep[account] == Timed(Epoch(s, account) + 1, s.now + EPOCH_RETENTION))
            && (!Advances(y, step, account) ==>
                  && (account in t.ep ==> account in s.ep && t.ep[account] == s.ep[account])
                  && (account in s.ep && t.now < s.ep[account].expiry ==> account in t.ep))
            && (!Advances(y, step, account) && account in s.ep && account !in t.ep ==> s.ep[account].expiry <= t.now)
  {
    if !step.Bump? && !step.Finish? && !step.Tick? {
      EpochsStand(cfg, y, step);
    }
  }

  lemma StepKeepsEpochs(cfg: Config, y: System, step: Step)
    requires Enabled(y, step) && EpochsCurrent(y.store)
    ensures EpochsCurrent(Apply(cfg, y, step).store)
  {
    if !step.Bump? && !step.Finish? && !step.Tick? {
      EpochsStand(cfg, y, step);
    }
  }

  /** Counters are current in every reachable state. */
  lemma {:induction false} RunKeepsEpochs(cfg: Config, y: System, steps: seq<Step>)
    requires Runs(cfg, y, steps) && EpochsCurrent(y.store)
    ensures EpochsCurrent(End(cfg, y, steps).store) && y.store.now <= End(cfg, y, steps).store.now
    decreases |steps|
  {
    if steps != [] {
      StepKeepsEpochs(cfg, y, steps[0]);
      EpochStep(cfg, y, steps[0], Subject("", ""));
      RunKeepsEpochs(cfg, Apply(cfg, y, steps[0]), steps[1..]);
    }
  }

  lemma {:induction false} RunTime(cfg: Config, y: System, steps: seq<Step>)
    requires Runs(cfg, y, steps)
    ensures y.store.now <= End(cfg, y, steps).store.now
    decreases |steps|
  {
    if steps != [] {
      EpochStep(cfg, y, steps[0], Subject("", ""));
      RunTime(cfg, Apply(cfg, y, steps[0]), steps[1..]);
    }
  }

  // Whole runs.

  /** A counter that does not lapse during a run counts its bumps. */
  lemma {:induction false} CounterCounts(cfg: Config, y: System, steps: seq<Step>, account: Subject)
    requires Runs(cfg, y, steps) && account in y.store.ep
    requires End(cfg, y, steps).store.now < y.store.ep[account].expiry
    requires End(cfg, y, steps).store.now < y.store.now + EPOCH_RETENTION
    ensures Epoch(End(cfg, y, steps).store, account) == Epoch(y.store, account) + Bumps(cfg, y, steps, account)
    decreases |steps|
  {
    if steps != [] {
      EpochStep(cfg, y, steps[0], account);
      RunTime(cfg, Apply(cfg, y, steps[0]), steps[1..]);
      CounterCounts(cfg, Apply(cfg, y, steps[0]), steps[1..], account);
    }
  }

  /** A bump is remembered for thirty days, and for no longer: then the account stands at zero again. */
  lemma {:induction false} BumpIsRemembered(cfg: Config, y: System, steps: seq<Step>, account: Subject, at: nat, epoch: nat)
    requires Runs(cfg, y, steps) && Bumps(cfg, y, steps, account) == 0 && y.store.now < at + 2592000
    requires account in y.store.ep && y.store.ep[account] == Timed(epoch, at + EPOCH_RETENTION)
    ensures Epoch(End(cfg, y, steps).store, account) == if End(cfg, y, steps).store.now < at + 2592000 then epoch else 0
    decreases |steps|
  {
    if steps != [] {
      EpochStep(cfg, y, steps[0], account);
      RunTime(cfg, Apply(cfg, y, steps[0]), steps[1..]);
      if account in Apply(cfg, y, steps[0]).store.ep {
        StillCurrent(cfg, y, steps[0], account);
        BumpIsRemembered(cfg, Apply(cfg, y, steps[0]), steps[1..], account, at, epoch);
      } else {
        StaysForgotten(cfg, Apply(cfg, y, steps[0]), steps[1..], account);
      }
    }
  }

  /** A counter that is left after a step has not run out. */
  lemma StillCurrent(cfg: Config, y: System, step: Step, account: Subject)
    requires Enabled(y, step) && account in y.store.ep && y.store.now < y.store.ep[account].expiry
    requires !Advances(y, step, account) && account in Apply(cfg, y, step).store.ep
    ensures Apply(cfg, y, step).store.now < y.store.ep[account].expiry
  {
    if !step.Bump? && !step.Finish? && !step.Tick? {
      EpochsStand(cfg, y, step);
    }
  }

  lemma {:induction false} StaysForgotten(cfg: Config, y: System, steps: seq<Step>, account: Subject)
    requires Runs(cfg, y, steps) && Bumps(cfg, y, steps, account) == 0 && account !in y.store.ep
    ensures Epoch(End(cfg, y, steps).store, account) == 0
    decreases |steps|
  {
    if steps != [] {
      EpochStep(cfg, y, steps[0], account);
      StaysForgotten(cfg, Apply(cfg, y, steps[0]), steps[1..], account);
    }
  }

  /** In clock terms, from the bump on. */
  lemma BumpLasts(cfg: Config, y: System, steps: seq<Step>, account: Subject)
    requires Runs(cfg, Apply(cfg, y, Bump(account)), steps)
    requires Bumps(cfg, Apply(cfg, y, Bump(account)), steps, account) == 0
    ensures var z := End(cfg, Apply(cfg, y, Bump(account)), steps).store;
            Epoch(z, account) == if z.now < y.store.now + 2592000 then Epoch(y.store, account) + 1 else 0
  {
    BumpIsRemembered(cfg, Apply(cfg, y, Bump(account)), steps, account, y.store.now, Epoch(y.store, account) + 1);
  }

  /** Within the retention, the epoch is the one the first bump found plus the bumps. */
  lemma {:induction false} EpochAfter(cfg: Config, y: System, steps: seq<Step>, account: Subject)
    requires Runs(cfg, y, steps) && End(cfg, y, steps).store.now < y.store.now + EPOCH_RETENTION
    ensures Epoch(End(cfg, y, steps).store, account) ==
            Epoch(FirstBump(cfg, y, steps, account).store, account) + Bumps(cfg, y, steps, account)
    decreases |steps|
  {
    if steps != [] {
      var z := Apply(cfg, y, steps[0]);
      EpochStep(cfg, y, steps[0], account);
      if Advances(y, steps[0], account) {
        CounterCounts(cfg, z, steps[1..], account);
      } else {
        EpochAfter(cfg, z, steps[1..], account);
      }
    }
  }

  /** The first bump finds the counter as it was, unless its retention had run out by then. */
  lemma {:induction false} FirstBumpFinds(cfg: Config, y: System, steps: seq<Step>, account: Subject)
    requires Runs(cfg, y, steps) && EpochsCurrent(y.store)
    ensures var found := FirstBump(cfg, y, steps, account).store;
            && y.store.now <= found.now
            && Epoch(found, account) ==
               if account in y.store.ep && y.store.ep[account].expiry <= found.now then 0 else Epoch(y.store, account)
    decreases |steps|
  {
    if steps != [] && !Advances(y, steps[0], account) {
      EpochStep(cfg, y, steps[0], account);
      StepKeepsEpochs(cfg, y, steps[0]);
      FirstBumpFinds(cfg, Apply(cfg, y, steps[0]), steps[1..], account);
    }
  }

  /** The account's counter ran out of retention between the signing and the first bump. */
  ghost predicate Lapsed(cfg: Config, y: System, steps: seq<Step>, account: Subject)
    requires Runs(cfg, y, steps)
  {
    account in y.store.ep && y.store.ep[account].expiry <= FirstBump(cfg, y, steps, account).store.now
  }

  /** A token is accepted after a run exactly when the run took less than the lifetime of access tokens and did
      not advance the account's epoch, or did so only after the counter the token was signed under had lapsed,
      and no more often than that counter had stood. */
  lemma AcceptedIff(cfg: Config, y: System, steps: seq<Step>, account: Subject)
    requires cfg.Valid() && EpochsCurrent(y.store) && Runs(cfg, y, steps)
    ensures var bumps := Bumps(cfg, y, steps, account);
            Accepted(End(cfg, y, steps).store, Signed(cfg, y.store, account)) <==>
              && End(cfg, y, steps).store.now < y.store.now + cfg.accessTtl
              && (bumps == 0 || (Lapsed(cfg, y, steps, account) && bumps <= Epoch(y.store, account)))
  {
    if End(cfg, y, steps).store.now < y.store.now + cfg.accessTtl {
      EpochAfter(cfg, y, steps, account);
      FirstBumpFinds(cfg, y, steps, account);
    }
  }

  // What is still signed after a sweep.

  /** The request stored a session of the account and has not yet read the epoch for its access token. */
  predicate Outstanding(p: Phase, account: Subject) {
    (p.Moving? && p.record.subject == account) || (p.Signing? && p.account == account)
  }

  ghost predicate NoneOutstanding(y: System, account: Subject) {
    forall r | r in y.pending :: !Outstanding(y.pending[r], account)
  }

  /** The access tokens of the account that a run signs. */
  ghost function SignedAlong(cfg: Config, y: System, steps: seq<Step>, account: Subject): set<Access>
    requires Runs(cfg, y, steps)
    decreases |steps|
  {
    if steps == [] then {}
    else (if steps[0].ReadEpoch? && y.pending[steps[0].request].account == account
          then {Signed(cfg, y.store, account)} else {})
         + SignedAlong(cfg, Apply(cfg, y, steps[0]), steps[1..], account)
  }

  /** Only a request that stores a session becomes outstanding, and that needs the account's index. */
  lemma MovedIsNotOutstanding(cfg: Config, y: System, step: Step, r: nat, account: Subject)
    requires SessionsIndexed(y.store) && Enabled(y, step) && Moves(step, r) && account !in y.store.sess
    requires r in y.pending ==> PhaseOk(y, y.pending[r]) && !Outstanding(y.pending[r], account)
    requires r in Pending(cfg, y, step)
    ensures !Outstanding(Pending(cfg, y, step)[r], account)
  {
    if step.RunRotate? && y.pending[r].token in y.store.rt {
      LiveIsIndexed(y.store, y.pending[r].token);
    }
  }

  lemma LiveIsIndexed(s: Store, h: Hash)
    requires SessionsIndexed(s) && h in s.rt
    ensures s.rt[h].value.subject in s.sess
  {
    assert IndexedUnder(s.sess, s.rt[h].value.subject, Live(h), s.rt[h].expiry);
  }

  lemma StepLeavesNone(cfg: Config, y: System, step: Step, account: Subject)
    requires cfg.Valid() && Inv(cfg, y) && Enabled(y, step) && account !in y.store.sess && NoneOutstanding(y, account)
    requires step.Login? ==> step.record.subject != account
    ensures account !in Apply(cfg, y, step).store.sess && NoneOutstanding(Apply(cfg, y, step), account)
  {
    var z := Apply(cfg, y, step);
    StepKeepsAbsent(cfg, y, step, account);
    forall r | r in z.pending
      ensures !Outstanding(z.pending[r], account)
    {
      if !Moves(step, r) {
        OthersWait(cfg, y, step, r);
      } else {
        if r in y.pending {
          assert PhaseOk(y, y.pending[r]);
        }
        MovedIsNotOutstanding(cfg, y, step, r, account);
      }
    }
  }

  lemma {:induction false} NoneIsSigned(cfg: Config, y: System, steps: seq<Step>, account: Subject)
    requires cfg.Valid() && Inv(cfg, y) && Runs(cfg, y, steps) && NoSignIn(steps, account)
    requires account !in y.store.sess && NoneOutstanding(y, account)
    ensures SignedAlong(cfg, y, steps, account) == {}
    decreases |steps|
  {
    if steps != [] {
      if steps[0].ReadEpoch? {
        assert !Outstanding(y.pending[steps[0].request], account);
      }
      StepKeeps(cfg, y, steps[0]);
      StepLeavesNone(cfg, y, steps[0], account);
      NoneIsSigned(cfg, Apply(cfg, y, steps[0]), steps[1..], account);
    }
  }

  lemma SignedNow(cfg: Config, y: System, request: nat)
    requires request in y.pending && y.pending[request].Signing?
    ensures Runs(cfg, y, [ReadEpoch(request)])
    ensures Signed(cfg, y.store, y.pending[request].account) in
              SignedAlong(cfg, y, [ReadEpoch(request)], y.pending[request].account)
    ensures End(cfg, y, [ReadEpoch(request)]).store == y.store
  {
    assert [ReadEpoch(request)][1..] == [];
  }

  /** An outstanding request signs, whatever became of its session. */
  lemma OutstandingSigns(cfg: Config, y: System, request: nat, account: Subject) returns (steps: seq<Step>, token: Access)
    requires request in y.pending && Outstanding(y.pending[request], account)
    ensures Runs(cfg, y, steps) && NoSignIn(steps, account) && token in SignedAlong(cfg, y, steps, account)
    ensures cfg.accessTtl > 0 ==> Accepted(End(cfg, y, steps).store, token)
  {
    if y.pending[request].Signing? {
      SignedNow(cfg, y, request);
      steps, token := [ReadEpoch(request)], Signed(cfg, y.store, account);
    } else {
      var z := Apply(cfg, y, RunMove(request));
      SignedNow(cfg, z, request);
      OneMore(cfg, y, RunMove(request), [ReadEpoch(request)]);
      steps, token := [RunMove(request)] + [ReadEpoch(request)], Signed(cfg, z.store, account);
      assert steps[1..] == [ReadEpoch(request)];
    }
  }

  /** A sweep leaves no access token to be signed, in any run without a new sign-in, exactly when it found no
      request that had stored a session and not yet read its epoch. */
  lemma SweptSignsIff(cfg: Config, y: System, account: Subject)
    requires cfg.Valid() && Inv(cfg, y)
    ensures var swept := Apply(cfg, y, SignOutEverywhere(account));
            (forall steps: seq<Step> | Runs(cfg, swept, steps) && NoSignIn(steps, account) ::
               SignedAlong(cfg, swept, steps, account) == {}) <==> NoneOutstanding(y, account)
  {
    var swept := Apply(cfg, y, SignOutEverywhere(account));
    StepKeeps(cfg, y, SignOutEverywhere(account));
    SweptIsUnindexed(cfg, y, account);
    if NoneOutstanding(y, account) {
      forall steps: seq<Step> | Runs(cfg, swept, steps) && NoSignIn(steps, account)
        ensures SignedAlong(cfg, swept, steps, account) == {}
      {
        NoneIsSigned(cfg, swept, steps, account);
      }
    } else {
      var r :| r in y.pending && Outstanding(y.pending[r], account);
      var steps, token := OutstandingSigns(cfg, swept, r, account);
    }
  }

  lemma SweptIsUnindexed(cfg: Config, y: System, account: Subject)
    ensures var swept := Apply(cfg, y, SignOutEverywhere(account));
            swept.pending == y.pending && account !in swept.store.sess
  {
  }

  /** A token signed no later than `y`, under a counter that has not lapsed since. */
  predicate Earlier(cfg: Config, y: System, account: Subject, token: Access) {
    token.account == account && token.epoch <= Epoch(y.store, account) && token.expiry <= y.store.now + cfg.accessTtl
  }

  lemma SignedIsEarlier(cfg: Config, x: System, steps: seq<Step>, account: Subject)
    requires Runs(cfg, x, steps) && End(cfg, x, steps).store.now < x.store.now + EPOCH_RETENTION
    requires account in x.store.ep ==> End(cfg, x, steps).store.now < x.store.ep[account].expiry
    ensures Earlier(cfg, End(cfg, x, steps), account, Signed(cfg, x.store, account))
  {
    RunTime(cfg, x, steps);
    if account in x.store.ep {
      CounterCounts(cfg, x, steps, account);
    }
  }

  /** No access token of the account signed before `y` or along any run from it is accepted, until a new
      sign-in. */
  ghost predicate AccessOver(cfg: Config, y: System, z: System, account: Subject) {
    forall steps: seq<Step>, token: Access | Runs(cfg, z, steps) && NoSignIn(steps, account) ::
      RefusedAfter(cfg, y, z, steps, account, token)
  }

  ghost predicate RefusedAfter(cfg: Config, y: System, z: System, steps: seq<Step>, account: Subject, token: Access)
    requires Runs(cfg, z, steps)
  {
    Earlier(cfg, y, account, token) || token in SignedAlong(cfg, z, steps, account) ==>
      !Accepted(End(cfg, z, steps).store, token)
  }

  lemma EarlierIsRefused(cfg: Config, y: System, account: Subject, steps: seq<Step>, token: Access)
    requires cfg.Valid() && Earlier(cfg, y, account, token) && Runs(cfg, Apply(cfg, y, Bump(account)), steps)
    ensures !Accepted(End(cfg, Apply(cfg, y, Bump(account)), steps).store, token)
  {
    var z := Apply(cfg, y, Bump(account));
    if End(cfg, z, steps).store.now < token.expiry {
      CounterCounts(cfg, z, steps, account);
    }
  }

  /** A token signed along a run expires one lifetime after its end or earlier. */
  lemma {:induction false} SignedExpires(cfg: Config, y: System, steps: seq<Step>, account: Subject, token: Access)
    requires Runs(cfg, y, steps) && token in SignedAlong(cfg, y, steps, account)
    ensures token.expiry <= End(cfg, y, steps).store.now + cfg.accessTtl
    decreases |steps|
  {
    RunTime(cfg, y, steps);
    if token in SignedAlong(cfg, Apply(cfg, y, steps[0]), steps[1..], account) {
      SignedExpires(cfg, Apply(cfg, y, steps[0]), steps[1..], account, token);
    }
  }

  lemma SignedOrEarlierIsRefused(cfg: Config, y: System, steps: seq<Step>, account: Subject, token: Access)
    requires cfg.Valid() && Inv(cfg, y) && Inv(cfg, Apply(cfg, y, Bump(account))) && account !in y.store.sess
    requires cfg.accessTtl == 0 || NoneOutstanding(y, account)
    requires Runs(cfg, Apply(cfg, y, Bump(account)), steps) && NoSignIn(steps, account)
    ensures RefusedAfter(cfg, y, Apply(cfg, y, Bump(account)), steps, account, token)
  {
    var z := Apply(cfg, y, Bump(account));
    if Earlier(cfg, y, account, token) {
      EarlierIsRefused(cfg, y, account, steps, token);
    } else if cfg.accessTtl == 0 {
      if token in SignedAlong(cfg, z, steps, account) {
        SignedExpires(cfg, z, steps, account, token);
      }
    } else {
      NoneIsSigned(cfg, z, steps, account);
    }
  }

  /** So the bump that follows a sweep ends the account's access, until a new sign-in, exactly when it finds
      no request that had stored a session and not yet read its epoch, or access tokens have no lifetime. */
  lemma AccessIsOverIff(cfg: Config, y: System, account: Subject)
    requires cfg.Valid() && Inv(cfg, y) && account !in y.store.sess
    ensures AccessOver(cfg, y, Apply(cfg, y, Bump(account)), account) <==> cfg.accessTtl == 0 || NoneOutstanding(y, account)
  {
    var z := Apply(cfg, y, Bump(account));
    StepKeeps(cfg, y, Bump(account));
    if cfg.accessTtl == 0 || NoneOutstanding(y, account) {
      forall steps: seq<Step>, token: Access | Runs(cfg, z, steps) && NoSignIn(steps, account)
        ensures RefusedAfter(cfg, y, z, steps, account, token)
      {
        SignedOrEarlierIsRefused(cfg, y, steps, account, token);
      }
    } else {
      var r :| r in y.pending && Outstanding(y.pending[r], account);
      var steps, token := OutstandingSigns(cfg, z, r, account);
      assert !RefusedAfter(cfg, y, z, steps, account, token);
    }
  }

  // The two cases that are accepted after a bump.

  lemma ThreeSteps(cfg: Config, y: System, a: Step, b: Step, c: Step)
    requires Enabled(y, a) && Enabled(Apply(cfg, y, a), b) && Enabled(Apply(cfg, Apply(cfg, y, a), b), c)
    ensures Runs(cfg, y, [a, b, c]) && End(cfg, y, [a, b, c]) == Apply(cfg, Apply(cfg, Apply(cfg, y, a), b), c)
  {
    TwoSteps(cfg, Apply(cfg, y, a), b, c);
    OneMore(cfg, y, a, [b, c]);
    assert [a] + [b, c] == [a, b, c];
  }

  /** From a rotation that is stored but not yet signed: a sweep and a bump run, and the token that is then
      signed carries the new epoch, although its session is gone. */
  lemma SigningOutlivesSweep(cfg: Config, y: System, request: nat)
    requires cfg.accessTtl > 0 && SessionsIndexed(y.store) && SessionsOwned(y.store)
    requires request in y.pending && y.pending[request].Moving?
    ensures var account := y.pending[request].record.subject;
            var steps := [SignOutEverywhere(account), Bump(account), RunMove(request)];
            && Runs(cfg, y, steps)
            && var z := End(cfg, y, steps);
               && request in z.pending && z.pending[request] == Signing(account)
               && !LiveFor(z.store, account)
               && Epoch(z.store, account) == Epoch(y.store, account) + 1
               && Accepted(z.store, Signed(cfg, z.store, account))
  {
    var account := y.pending[request].record.subject;
    var swept := Apply(cfg, y, SignOutEverywhere(account));
    SessionsNamed(y.store, account);
    ThreeSteps(cfg, y, SignOutEverywhere(account), Bump(account), RunMove(request));
    assert swept.store.ep == y.store.ep;
  }

  /** From a counter about to lapse: a token signed under it is accepted after the next bump. */
  lemma LapsedCounterAccepts(cfg: Config, y: System, account: Subject)
    requires cfg.Valid() && EpochsCurrent(y.store) && account in y.store.ep && Epoch(y.store, account) >= 1
    requires y.store.ep[account].expiry < y.store.now + cfg.accessTtl
    ensures var steps := [Tick(y.store.ep[account].expiry - y.store.now), Bump(account)];
            && Runs(cfg, y, steps) && Bumps(cfg, y, steps, account) == 1
            && Accepted(End(cfg, y, steps).store, Signed(cfg, y.store, account))
  {
    var tick, bump := Tick(y.store.ep[account].expiry - y.store.now), Bump(account);
    TwoSteps(cfg, y, tick, bump);
    var z := Apply(cfg, y, tick);
    assert account !in z.store.ep && Epoch(z.store, account) == 0;
    assert [tick, bump][1..] == [bump] && [bump][1..] == [];
    assert Bumps(cfg, z, [bump], account) == 1;
  }
}
