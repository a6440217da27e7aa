/** How many sessions one refresh token can buy, over every interleaving. */
module SessionTheorems {
  import opened Prelude
  import opened SessionStore
  import opened SessionSystem
  import opened SessionInvariant

  /** A request that has spent the grace pointer of `token` and not yet used it. */
  predicate Claims(p: Phase, token: Hash) {
    (p.GraceReplied? || p.LineageAlive? || p.Recovering?) && p.token == token
  }

  ghost function Claimants(y: System, token: Hash): set<nat> {
    set r | r in y.pending && Claims(y.pending[r], token)
  }

  /** Whether the step stores a session on behalf of a request that presented `token`. */
  ghost predicate Buys(y: System, step: Step, token: Hash)
    requires Enabled(y, step)
  {
    (step.RunRotate? || step.RunRecover?) && Mints(y, step) && y.pending[step.request].token == token
  }

  /** How many sessions presenting `token` stores along a run. */
  ghost function Minted(cfg: Config, y: System, steps: seq<Step>, token: Hash): nat
    requires Runs(cfg, y, steps)
    decreases |steps|
  {
    if steps == [] then 0
    else (if Buys(y, steps[0], token) then 1 else 0) + Minted(cfg, Apply(cfg, y, steps[0]), steps[1..], token)
  }

  /** One rotation, and one recovery where the deployment has a grace window. */
  function PerToken(cfg: Config): nat {
    if cfg.graceTtl > 0 then 2 else 1
  }

  /** What the keyspaces still hold for `token`: all it can buy while it is unknown or live, and one
      recovery while its grace pointer stands. */
  ghost function Held(cfg: Config, y: System, token: Hash): nat {
    (if token !in y.seen || token in y.store.rt then PerToken(cfg) else 0) + (if token in y.store.rp then 1 else 0)
  }

  /** What presenting `token` can still buy. */
  ghost function Budget(cfg: Config, y: System, token: Hash): nat {
    Held(cfg, y, token) + |Claimants(y, token)|
  }

  /** The part of the invariant that a budget rests on. */
  ghost predicate Accounted(y: System, token: Hash) {
    && (token !in y.seen ==> token !in y.store.rt && token !in y.store.rp)
    && (token in y.store.rp ==> token !in y.store.rt)
  }

  lemma InvAccounts(cfg: Config, y: System, token: Hash)
    requires Inv(cfg, y)
    ensures Accounted(y, token)
  {
  }

  // What the keyspaces hold.

  lemma TameHolds(cfg: Config, y: System, z: System, token: Hash)
    requires Accounted(y, token) && Tame(y, z)
    ensures Held(cfg, z, token) <= Held(cfg, y, token)
  {
  }

  lemma CreateHolds(cfg: Config, y: System, z: System, hash: Hash, record: Record, token: Hash)
    requires Accounted(y, token) && hash !in y.seen && z.seen == y.seen + {hash}
    requires z.store == Create(y.store, hash, record, cfg.refreshTtl)
    ensures Held(cfg, z, token) == Held(cfg, y, token)
  {
  }

  lemma RotateHolds(cfg: Config, y: System, z: System, presented: Hash, drawn: Hash, record: Record, token: Hash)
    requires Accounted(y, token) && presented in y.store.rt && presented in y.seen
    requires drawn !in y.seen && z.seen == y.seen + {drawn}
    requires z.store == RotateLive(y.store, cfg, presented, drawn, record)
    ensures Held(cfg, z, token) + (if token == presented then 1 else 0) <= Held(cfg, y, token)
  {
  }

  // Who holds a spent pointer.

  lemma Fewer(a: set<nat>, b: set<nat>)
    requires a <= b
    ensures |a| <= |b|
  {
    if a != {} {
      var x :| x in a;
      Fewer(a - {x}, b - {x});
    }
  }

  /** Only a rotation puts a request in possession of a spent pointer. */
  lemma NoNewClaim(cfg: Config, y: System, step: Step, token: Hash)
    requires Enabled(y, step) && !step.RunRotate?
    ensures Claimants(Apply(cfg, y, step), token) <= Claimants(y, token)
  {
    var z := Apply(cfg, y, step);
    forall r | r in Claimants(z, token)
      ensures r in Claimants(y, token)
    {
      if !Moves(step, r) {
        OthersWait(cfg, y, step, r);
      }
    }
  }

  lemma RotateClaims(cfg: Config, y: System, step: Step, token: Hash)
    requires Enabled(y, step) && step.RunRotate?
    ensures Claimants(Apply(cfg, y, step), token) <= Claimants(y, token) + {step.request}
    ensures step.request in Claimants(Apply(cfg, y, step), token) ==>
              y.pending[step.request].token == token && token !in y.store.rt && token in y.store.rp
  {
    var z := Apply(cfg, y, step);
    forall r | r in Claimants(z, token) && r != step.request
      ensures r in Claimants(y, token)
    {
      OthersWait(cfg, y, step, r);
    }
  }

  ghost predicate Spends(cfg: Config, y: System, step: Step, token: Hash)
    requires Enabled(y, step)
  {
    (if Buys(y, step, token) then 1 else 0) + Budget(cfg, Apply(cfg, y, step), token) <= Budget(cfg, y, token)
  }

  lemma LiveRotateSpends(cfg: Config, y: System, step: Step, token: Hash)
    requires Inv(cfg, y) && step.RunRotate? && Enabled(y, step) && Mints(y, step)
    ensures Spends(cfg, y, step, token)
  {
    var z := Apply(cfg, y, step);
    var presented := y.pending[step.request].token;
    InvAccounts(cfg, y, token);
    MintIs(cfg, y, step);
    RotateClaims(cfg, y, step, token);
    RotateHolds(cfg, y, z, presented, step.drawn, y.store.rt[presented].value, token);
    Fewer(Claimants(z, token), Claimants(y, token));
  }

  /** A rotation that finds the grace pointer takes it away. */
  lemma GraceTaken(cfg: Config, s: Store, token: Hash, drawn: Hash, record: Record)
    requires token !in s.rt && token in s.rp
    ensures Rotate(s, cfg, token, drawn, record).0 == DropPointer(s, token)
  {
  }

  lemma DropHolds(cfg: Config, y: System, z: System, token: Hash)
    requires z.store == DropPointer(y.store, token) && y.seen <= z.seen
    requires token in y.seen && token !in y.store.rt && token in y.store.rp
    ensures Held(cfg, z, token) + 1 == Held(cfg, y, token)
  {
  }

  lemma GraceRotateSpends(cfg: Config, y: System, step: Step, token: Hash)
    requires step.RunRotate? && Enabled(y, step) && !Mints(y, step)
    requires token in y.seen && y.pending[step.request].token == token && token in y.store.rp
    ensures Held(cfg, Apply(cfg, y, step), token) + 1 == Held(cfg, y, token)
  {
    GraceTaken(cfg, y.store, token, step.drawn, SeedRecord(y.pending[step.request].seed));
    DropHolds(cfg, y, Apply(cfg, y, step), token);
  }

  lemma DeadRotateSpends(cfg: Config, y: System, step: Step, token: Hash)
    requires step.RunRotate? && Enabled(y, step) && !Mints(y, step)
    requires Accounted(y, token) && y.pending[step.request].token in y.seen && Tame(y, Apply(cfg, y, step))
    ensures Spends(cfg, y, step, token)
  {
    var before, after := Claimants(y, token), Claimants(Apply(cfg, y, step), token);
    RotateClaims(cfg, y, step, token);
    if step.request in after {
      GraceRotateSpends(cfg, y, step, token);
      OneMoreAtMost(before, after, step.request);
    } else {
      TameHolds(cfg, y, Apply(cfg, y, step), token);
      Fewer(after, before);
    }
  }

  lemma OneMoreAtMost(a: set<nat>, b: set<nat>, x: nat)
    requires b <= a + {x}
    ensures |b| <= |a| + 1
  {
    Fewer(b, a + {x});
  }

  /** A recovery that is written uses the claim up. */
  lemma RecoverySettles(cfg: Config, y: System, step: Step, token: Hash)
    requires step.RunRecover? && Enabled(y, step) && Buys(y, step, token)
    ensures Claimants(Apply(cfg, y, step), token) <= Claimants(y, token) - {step.request}
  {
    NoNewClaim(cfg, y, step, token);
  }

  lemma RecoverSpends(cfg: Config, y: System, step: Step, token: Hash)
    requires Inv(cfg, y) && step.RunRecover? && Enabled(y, step) && Mints(y, step)
    ensures Spends(cfg, y, step, token)
  {
    var z := Apply(cfg, y, step);
    InvAccounts(cfg, y, token);
    MintIs(cfg, y, step);
    CreateHolds(cfg, y, z, step.drawn, y.pending[step.request].record, token);
    NoNewClaim(cfg, y, step, token);
    if Buys(y, step, token) {
      assert step.request in Claimants(y, token);
      RecoverySettles(cfg, y, step, token);
      Fewer(Claimants(z, token), Claimants(y, token) - {step.request});
    } else {
      Fewer(Claimants(z, token), Claimants(y, token));
    }
  }

  lemma OtherSpends(cfg: Config, y: System, step: Step, token: Hash)
    requires Inv(cfg, y) && Enabled(y, step) && !step.RunRotate? && !(step.RunRecover? && Mints(y, step))
    ensures Spends(cfg, y, step, token)
  {
    var z := Apply(cfg, y, step);
    InvAccounts(cfg, y, token);
    NoNewClaim(cfg, y, step, token);
    Fewer(Claimants(z, token), Claimants(y, token));
    if step.Login? {
      CreateHolds(cfg, y, z, step.hash, step.record, token);
    } else {
      OtherIsTame(cfg, y, step);
      TameHolds(cfg, y, z, token);
    }
  }

  lemma StepSpends(cfg: Config, y: System, step: Step, token: Hash)
    requires Inv(cfg, y) && Enabled(y, step)
    ensures Spends(cfg, y, step, token)
  {
    if step.RunRotate? {
      assert PhaseOk(y, y.pending[step.request]);
      if Mints(y, step) {
        LiveRotateSpends(cfg, y, step, token);
      } else {
        InvAccounts(cfg, y, token);
        OtherIsTame(cfg, y, step);
        DeadRotateSpends(cfg, y, step, token);
      }
    } else if step.RunRecover? && Mints(y, step) {
      RecoverSpends(cfg, y, step, token);
    } else {
      OtherSpends(cfg, y, step, token);
    }
  }

  /** A run stores no more sessions for a token than its budget. */
  lemma {:induction false} RunSpends(cfg: Config, y: System, steps: seq<Step>, token: Hash)
    requires cfg.Valid() && Inv(cfg, y) && Runs(cfg, y, steps)
    ensures Minted(cfg, y, steps, token) + Budget(cfg, End(cfg, y, steps), token) <= Budget(cfg, y, token)
    decreases |steps|
  {
    if steps != [] {
      StepSpends(cfg, y, steps[0], token);
      StepKeeps(cfg, y, steps[0]);
      RunSpends(cfg, Apply(cfg, y, steps[0]), steps[1..], token);
    }
  }

  /** However many requests present one refresh token, and however they interleave, together they
      store at most two sessions, and at most one without a grace window. */
  lemma TokenBuysAtMostTwo(cfg: Config, steps: seq<Step>, token: Hash)
    requires cfg.Valid() && Runs(cfg, INITIAL, steps)
    ensures Minted(cfg, INITIAL, steps, token) <= PerToken(cfg)
  {
    RunSpends(cfg, INITIAL, steps, token);
  }

  /** A token that was signed out, with no recovery in flight on it, buys nothing ever again. */
  lemma SignedOutTokenIsDead(cfg: Config, y: System, steps: seq<Step>, token: Hash)
    requires cfg.Valid() && Inv(cfg, y) && Runs(cfg, y, steps)
    requires token in y.seen && token !in y.store.rt && token !in y.store.rp
    requires forall r | r in y.pending :: !Claims(y.pending[r], token)
    ensures Minted(cfg, y, steps, token) == 0
  {
    assert Claimants(y, token) == {};
    RunSpends(cfg, y, steps, token);
  }
}
