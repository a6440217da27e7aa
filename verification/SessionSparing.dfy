/**
 Logging out everywhere else: which session to keep is settled, the sessions are listed again and revoked one
 at a time, then the grace pointers are listed and deleted one at a time, and the epoch is advanced last.
 Every other request may run between any two of these. What such a call leaves behind, whatever runs.
 */
module SessionSparing {
  import opened Prelude
  import opened SessionStore
  import opened SessionSystem
  import opened SessionInvariant
  import opened SessionRevocation

  ghost predicate LiveOf(s: Store, account: Subject, h: Hash) {
    h in s.rt && s.rt[h].value.subject == account
  }

  // Sessions.

  /** Every session of the account that was seen when they were listed is the kept one, or still to be
      revoked. */
  ghost predicate Spares(seen: set<Hash>, z: System, request: nat, account: Subject, kept: Hash) {
    forall h | LiveOf(z.store, account, h) && h in seen ::
      h == kept || (request in z.pending && z.pending[request].Sparing? && z.pending[request].account == account
                    && h in z.pending[request].victims)
  }

  lemma LiveIsEntry(s: Store, account: Subject, h: Hash)
    requires SessionsIndexed(s) && LiveOf(s, account, h)
    ensures h in Entries(s, account)
  {
    assert IndexedUnder(s.sess, account, Live(h), s.rt[h].expiry);
    assert Live(h) in Members(s.sess, account);
  }

  lemma ListingSpares(cfg: Config, y: System, request: nat)
    requires SessionsIndexed(y.store) && Enabled(y, Spare(request))
    ensures Spares(y.seen, Apply(cfg, y, Spare(request)), request, y.pending[request].account, y.pending[request].kept)
  {
    var account := y.pending[request].account;
    forall h | LiveOf(y.store, account, h)
      ensures h in Entries(y.store, account)
    {
      LiveIsEntry(y.store, account, h);
    }
  }

  lemma RevokedIsGone(s: Store, account: Subject, h: Hash)
    requires SessionsIndexed(s)
    ensures !LiveOf(RevokeSession(s, account, h).0, account, h)
  {
    if h in s.rt && s.rt[h].value.subject == account {
      assert IndexedUnder(s.sess, account, Live(h), s.rt[h].expiry);
    }
  }

  lemma VictimStep(cfg: Config, y: System, step: Step, request: nat, h: Hash)
    requires SessionsIndexed(y.store) && Enabled(y, step) && Moves(step, request)
    requires request in y.pending && y.pending[request].Sparing? && h in y.pending[request].victims
    requires LiveOf(Apply(cfg, y, step).store, y.pending[request].account, h)
    ensures var z := Apply(cfg, y, step);
            request in z.pending && z.pending[request].Sparing? && h in z.pending[request].victims
            && z.pending[request].account == y.pending[request].account
  {
    if step.RevokeVictim? {
      RevokedIsGone(y.store, y.pending[request].account, step.hash);
    }
  }

  lemma StepSpares(cfg: Config, y: System, step: Step, seen: set<Hash>, request: nat, account: Subject, kept: Hash)
    requires cfg.Valid() && Inv(cfg, y) && Enabled(y, step) && seen <= y.seen && Spares(seen, y, request, account, kept)
    ensures Spares(seen, Apply(cfg, y, step), request, account, kept)
  {
    var z := Apply(cfg, y, step);
    StepKeeps(cfg, y, step);
    forall h | LiveOf(z.store, account, h) && h in seen && h != kept
      ensures request in z.pending && z.pending[request].Sparing? && z.pending[request].account == account
      ensures h in z.pending[request].victims
    {
      assert LiveOf(y.store, account, h);
      if Moves(step, request) {
        VictimStep(cfg, y, step, request, h);
      } else {
        OthersWait(cfg, y, step, request);
      }
    }
  }

  lemma {:induction false} RunSpares(
      cfg: Config, y: System, steps: seq<Step>, seen: set<Hash>, request: nat, account: Subject, kept: Hash)
    requires cfg.Valid() && Inv(cfg, y) && Runs(cfg, y, steps) && seen <= y.seen
    requires Spares(seen, y, request, account, kept)
    ensures Spares(seen, End(cfg, y, steps), request, account, kept)
    decreases |steps|
  {
    if steps != [] {
      StepKeeps(cfg, y, steps[0]);
      StepSpares(cfg, y, steps[0], seen, request, account, kept);
      RunSpares(cfg, Apply(cfg, y, steps[0]), steps[1..], seen, request, account, kept);
    }
  }

  /** The request is past its revocations. */
  predicate Revoked(z: System, request: nat) {
    request in z.pending ==> !z.pending[request].Sparing? || z.pending[request].victims == {}
  }

  /** Once they are all revoked, a live session of the account is the kept one, or was stored after the
      listing. */
  lemma SurvivorsAreKeptOrNew(cfg: Config, y: System, request: nat, steps: seq<Step>)
    requires cfg.Valid() && Inv(cfg, y) && Enabled(y, Spare(request)) && Runs(cfg, Apply(cfg, y, Spare(request)), steps)
    requires Revoked(End(cfg, Apply(cfg, y, Spare(request)), steps), request)
    ensures var z := End(cfg, Apply(cfg, y, Spare(request)), steps);
            forall h | LiveOf(z.store, y.pending[request].account, h) :: h == y.pending[request].kept || h !in y.seen
  {
    var listed := Apply(cfg, y, Spare(request));
    StepKeeps(cfg, y, Spare(request));
    ListingSpares(cfg, y, request);
    RunSpares(cfg, listed, steps, y.seen, request, y.pending[request].account, y.pending[request].kept);
  }

  /** What is listed for revocation was seen. */
  lemma VictimsAreSeen(cfg: Config, y: System, request: nat)
    requires Known(y.store, y.seen) && Enabled(y, Spare(request))
    ensures Apply(cfg, y, Spare(request)).pending[request].victims <= y.seen
  {
    var account := y.pending[request].account;
    forall h | h in Entries(y.store, account)
      ensures h in y.seen
    {
      assert Live(h) in Members(y.store.sess, account);
    }
  }

  // Grace pointers.

  /** The grace pointers of the account that stood when they were listed are still to be deleted. */
  ghost predicate Clears(x: System, z: System, request: nat, account: Subject) {
    forall h | h in z.store.rp && z.store.rp[h].value.record.subject == account && Spent(x, h) ::
      request in z.pending && h in Left(z.pending[request])
  }

  /** What a sweep of grace pointers has left to do. */
  function Left(p: Phase): set<Hash> {
    match p
    case Sweeping(_, pointers) => pointers
    case Unindexing(_, _, pointers) => pointers
    case _ => {}
  }

  lemma ListingClears(cfg: Config, y: System, request: nat)
    requires PointersIndexed(y.store) && Enabled(y, ListPointers(request))
    ensures Clears(y, Apply(cfg, y, ListPointers(request)), request, y.pending[request].account)
  {
    var account := y.pending[request].account;
    forall h | h in y.store.rp && y.store.rp[h].value.record.subject == account
      ensures h in Hashes(y.store, account, false)
    {
      assert IndexedUnder(y.store.sess, account, Grace(h), y.store.rp[h].expiry);
      assert Grace(h) in Members(y.store.sess, account);
    }
  }

  lemma PointerStep(cfg: Config, y: System, step: Step, request: nat, h: Hash)
    requires Enabled(y, step) && Moves(step, request)
    requires request in y.pending && h in Left(y.pending[request]) && h in Apply(cfg, y, step).store.rp
    ensures var z := Apply(cfg, y, step);
            request in z.pending && h in Left(z.pending[request])
  {
  }

  lemma StepClears(cfg: Config, x: System, y: System, step: Step, request: nat, account: Subject)
    requires cfg.Valid() && Inv(cfg, y) && Enabled(y, step) && Continues(x, y) && Clears(x, y, request, account)
    ensures Continues(x, Apply(cfg, y, step)) && Clears(x, Apply(cfg, y, step), request, account)
  {
    var z := Apply(cfg, y, step);
    StepKeeps(cfg, y, step);
    ContinuesOn(x, y, z);
    forall h | h in z.store.rp && z.store.rp[h].value.record.subject == account && Spent(x, h)
      ensures request in z.pending && h in Left(z.pending[request])
    {
      SpentStays(x, y, z, h);
      if Moves(step, request) {
        PointerStep(cfg, y, step, request, h);
      } else {
        OthersWait(cfg, y, step, request);
      }
    }
  }

  lemma SpentStays(x: System, y: System, z: System, h: Hash)
    requires Continues(x, y) && Continues(y, z) && Spent(x, h) && h in z.store.rp
    ensures h in y.store.rp && z.store.rp[h] == y.store.rp[h]
  {
  }

  lemma {:induction false} RunClears(cfg: Config, x: System, y: System, steps: seq<Step>, request: nat, account: Subject)
    requires cfg.Valid() && Inv(cfg, y) && Runs(cfg, y, steps) && Continues(x, y) && Clears(x, y, request, account)
    ensures Clears(x, End(cfg, y, steps), request, account)
    decreases |steps|
  {
    if steps != [] {
      StepKeeps(cfg, y, steps[0]);
      StepClears(cfg, x, y, steps[0], request, account);
      RunClears(cfg, x, Apply(cfg, y, steps[0]), steps[1..], request, account);
    }
  }

  /** When the call finishes, a grace pointer of the account belongs to a token that was still live, or not
      yet drawn, when the pointers were listed. */
  lemma SurvivingPointers(cfg: Config, y: System, request: nat, steps: seq<Step>)
    requires cfg.Valid() && Inv(cfg, y) && Enabled(y, ListPointers(request))
    requires Runs(cfg, Apply(cfg, y, ListPointers(request)), steps)
    requires Enabled(End(cfg, Apply(cfg, y, ListPointers(request)), steps), Finish(request))
    ensures var z := End(cfg, Apply(cfg, y, ListPointers(request)), steps);
            forall h | h in z.store.rp && z.store.rp[h].value.record.subject == y.pending[request].account :: !Spent(y, h)
  {
    var listed := Apply(cfg, y, ListPointers(request));
    var account := y.pending[request].account;
    StepKeeps(cfg, y, ListPointers(request));
    ListingClears(cfg, y, request);
    RunClears(cfg, y, listed, steps, request, account);
    NothingLeft(y, End(cfg, listed, steps), request, account);
  }

  lemma NothingLeft(x: System, z: System, request: nat, account: Subject)
    requires Clears(x, z, request, account) && Enabled(z, Finish(request))
    ensures forall h | h in z.store.rp && z.store.rp[h].value.record.subject == account :: !Spent(x, h)
  {
  }

  // Going on undisturbed.

  /** Nothing but the request's own revocations and deletions. */
  predicate OwnSteps(steps: seq<Step>, request: nat) {
    forall i | 0 <= i < |steps| ::
      steps[i] == RemovePointer(request) || (steps[i].RevokeVictim? && steps[i].request == request)
      || (steps[i].DeletePointer? && steps[i].request == request)
  }

  lemma OwnStepsFirst(step: Step, rest: seq<Step>, request: nat)
    requires OwnSteps([step], request) && OwnSteps(rest, request)
    ensures OwnSteps([step] + rest, request)
  {
    assert [step][0] == step;
  }

  lemma OneRevoked(cfg: Config, y: System, request: nat, h: Hash)
    requires Enabled(y, RevokeVictim(request, h))
    ensures forall k | k in y.store.rt && k != h ::
              k in Apply(cfg, y, RevokeVictim(request, h)).store.rt
              && Apply(cfg, y, RevokeVictim(request, h)).store.rt[k] == y.store.rt[k]
  {
  }

  /** Revoking what is left. */
  lemma {:induction false} Drain(cfg: Config, y: System, request: nat) returns (steps: seq<Step>)
    requires request in y.pending && y.pending[request].Sparing?
    ensures Runs(cfg, y, steps) && OwnSteps(steps, request)
    ensures var z := End(cfg, y, steps);
            && z.pending == y.pending[request := Sparing(y.pending[request].account, {})]
            && z.store.rt.Keys <= y.store.rt.Keys
            && forall h | h in y.store.rt && h !in y.pending[request].victims :: h in z.store.rt && z.store.rt[h] == y.store.rt[h]
    decreases y.pending[request].victims
  {
    var victims := y.pending[request].victims;
    if victims == {} {
      steps := [];
      assert y.pending[request := Sparing(y.pending[request].account, {})] == y.pending;
    } else {
      var h :| h in victims;
      var step := RevokeVictim(request, h);
      var rest := Drain(cfg, Apply(cfg, y, step), request);
      OneMore(cfg, y, step, rest);
      OwnStepsFirst(step, rest, request);
      steps := [step] + rest;
      OneRevoked(cfg, y, request, h);
    }
  }

  lemma OneDeleted(cfg: Config, y: System, request: nat, h: Hash)
    requires Enabled(y, DeletePointer(request, h))
    ensures var z := Apply(cfg, Apply(cfg, y, DeletePointer(request, h)), RemovePointer(request));
            && request in z.pending
            && z.pending[request] == Sweeping(y.pending[request].account, y.pending[request].pointers - {h})
            && PointersStay(y.store, z.store, {h})
  {
  }

  ghost predicate PointersStay(s: Store, t: Store, gone: set<Hash>) {
    forall h | h in s.rp && h !in gone :: h in t.rp && t.rp[h] == s.rp[h]
  }

  /** Deleting a pointer is two steps, and the rest of a run follows them. */
  lemma DeletedThen(cfg: Config, y: System, request: nat, h: Hash, rest: seq<Step>)
    requires Enabled(y, DeletePointer(request, h)) && OwnSteps(rest, request)
    requires Runs(cfg, Apply(cfg, Apply(cfg, y, DeletePointer(request, h)), RemovePointer(request)), rest)
    ensures var steps := [DeletePointer(request, h)] + ([RemovePointer(request)] + rest);
            && Runs(cfg, y, steps) && OwnSteps(steps, request)
            && End(cfg, y, steps) ==
               End(cfg, Apply(cfg, Apply(cfg, y, DeletePointer(request, h)), RemovePointer(request)), rest)
  {
    OneMore(cfg, Apply(cfg, y, DeletePointer(request, h)), RemovePointer(request), rest);
    OwnStepsFirst(RemovePointer(request), rest, request);
    OneMore(cfg, y, DeletePointer(request, h), [RemovePointer(request)] + rest);
    OwnStepsFirst(DeletePointer(request, h), [RemovePointer(request)] + rest, request);
  }

  /** Deleting the grace pointers that are left. */
  lemma {:induction false} DrainPointers(cfg: Config, y: System, request: nat) returns (steps: seq<Step>)
    requires request in y.pending && y.pending[request].Sweeping?
    ensures Runs(cfg, y, steps) && OwnSteps(steps, request) && Enabled(End(cfg, y, steps), Finish(request))
    ensures PointersStay(y.store, End(cfg, y, steps).store, y.pending[request].pointers)
    decreases y.pending[request].pointers
  {
    if y.pending[request].pointers == {} {
      steps := [];
    } else {
      var h :| h in y.pending[request].pointers;
      OneDeleted(cfg, y, request, h);
      var rest := DrainPointers(cfg, Apply(cfg, Apply(cfg, y, DeletePointer(request, h)), RemovePointer(request)), request);
      DeletedThen(cfg, y, request, h, rest);
      steps := [DeletePointer(request, h)] + ([RemovePointer(request)] + rest);
    }
  }

  lemma NobodySignsIn(steps: seq<Step>, request: nat, account: Subject)
    requires OwnSteps(steps, request)
    ensures NoSignIn(steps, account)
  {
  }
}
